/** The bounded-parallel chunk builder of `_build_test_plan` in app/planning_agent.py. */
module TestPlanBuilder {
  import opened Basics

  /** One call of `_build_test_plan_chunk`. */
  datatype Call<C> = Returned(chunk: C) | Raised

  /** `wait(..., FIRST_COMPLETED)` returns some of the pending futures, in any order and number. A future is
      named by the index of its spec, since each spec is submitted once. */
  ghost predicate IsBatch(batch: seq<nat>, pending: set<nat>) {
    batch != [] && Distinct(batch) && forall k :: 0 <= k < |batch| ==> batch[k] in pending
  }

  ghost predicate AnyCompletionOrder(wait: (nat, set<nat>) -> seq<nat>) {
    forall n: nat, pending: set<nat> :: pending != {} ==> IsBatch(wait(n, pending), pending)
  }

  /** `_test_plan_parallelism`; a missing or zero setting means 3. */
  function Parallelism(configured: Option<int>, acceptanceCount: nat): (p: nat)
    ensures 1 <= p <= Max(1, acceptanceCount)
    ensures acceptanceCount <= 1 ==> p == 1
    ensures configured.Some? && configured.value > 0 ==> p <= configured.value
    ensures configured.Some? && 0 < configured.value <= acceptanceCount ==> p == configured.value
    ensures configured.Some? && 0 < acceptanceCount <= configured.value ==> p == acceptanceCount
    ensures configured.Some? && configured.value < 0 ==> p == 1
    ensures configured in {None, Some(0)} && acceptanceCount >= 1 ==> p == Min(3, acceptanceCount)
  {
    var maxParallel := match configured case Some(n) => (if n == 0 then 3 else n) case None => 3;
    if acceptanceCount <= 1 then 1 else Max(1, Min(acceptanceCount, maxParallel))
  }

  /** What calling `call(1)`, `call(2)`, ... in order gives: all the chunks, or the first index that raises. */
  ghost predicate IsSequentialResult<C(!new)>(r: Result<seq<C>, nat>, call: nat -> Call<C>, total: nat) {
    match r
    case Ok(chunks) => |chunks| == total && forall i :: 0 <= i < total ==> call(i + 1) == Returned(chunks[i])
    case Err(index) => 1 <= index <= total && call(index).Raised? && forall i :: 1 <= i < index ==> call(i).Returned?
  }

  lemma SequentialResultIsUnique<C(!new)>(a: Result<seq<C>, nat>, b: Result<seq<C>, nat>, call: nat -> Call<C>, total: nat)
    requires IsSequentialResult(a, call, total) && IsSequentialResult(b, call, total)
    ensures a == b
  {
    OkMeansAllReturned(a, call, total);
    OkMeansAllReturned(b, call, total);
    if a.Ok? && b.Ok? {
      assert forall i :: 0 <= i < total ==> a.value[i] == b.value[i];
      assert a.value == b.value;
    }
  }

  lemma OkMeansAllReturned<C(!new)>(r: Result<seq<C>, nat>, call: nat -> Call<C>, total: nat)
    requires IsSequentialResult(r, call, total)
    ensures r.Ok? ==> forall i :: 1 <= i <= total ==> call(i) == Returned(r.value[i - 1])
  {
    if r.Ok? {
      forall i | 1 <= i <= total ensures call(i) == Returned(r.value[i - 1]) {
        assert call((i - 1) + 1) == Returned(r.value[i - 1]);
      }
    }
  }

  method BuildSequential<C(!new)>(call: nat -> Call<C>, total: nat) returns (r: Result<seq<C>, nat>)
    ensures IsSequentialResult(r, call, total)
  {
    var chunks: seq<C> := [];
    for i := 0 to total
      invariant |chunks| == i && forall k :: 0 <= k < i ==> call(k + 1) == Returned(chunks[k])
    {
      match call(i + 1)
      case Returned(chunk) => chunks := chunks + [chunk];
      case Raised =>
        forall k | 1 <= k < i + 1 ensures call(k).Returned? {
          assert call(k - 1 + 1) == Returned(chunks[k - 1]);
        }
        return Err(i + 1);
    }
    r := Ok(chunks);
  }

  lemma SameCallsSameResult<C(!new)>(
    r: Result<seq<C>, nat>, f: nat -> Call<C>, g: nat -> Call<C>, total: nat)
    requires IsSequentialResult(r, f, total) && forall i: nat :: f(i) == g(i)
    ensures IsSequentialResult(r, g, total)
  {
    if r.Err? {
      assert forall i :: 1 <= i < r.error ==> f(i).Returned?;
    } else {
      assert forall i :: 0 <= i < total ==> f(i + 1) == Returned(r.value[i]);
    }
  }

  /** The in-flight window between two submissions: everything submitted is collected or pending, and
      the window is full while specs remain. */
  ghost predicate Window<C>(collected: map<nat, C>, pending: set<nat>, next: nat, total: nat, parallelism: nat) {
    && 1 <= next <= total + 1
    && (forall i :: i in collected || i in pending <==> 1 <= i < next)
    && collected.Keys !! pending
    && |collected| + |pending| == next - 1
    && |pending| <= parallelism
    && (next <= total ==> |pending| == parallelism)
  }

  /** Until a failure exactly min(parallelism, unfinished) calls are in flight. */
  lemma WindowSize<C>(collected: map<nat, C>, pending: set<nat>, next: nat, total: nat, parallelism: nat)
    requires Window(collected, pending, next, total, parallelism)
    ensures |collected| <= total
    ensures |pending| == Min(parallelism, total - |collected|)
  {
  }

  lemma {:induction false} RefillKeepsWindow<C>(
    collected: map<nat, C>, pending: set<nat>, next: nat, total: nat, parallelism: nat, future: nat, chunk: C)
    requires Window(collected, pending, next, total, parallelism) && future in pending
    ensures var more := next <= total;
      Window(collected[future := chunk], pending - {future} + (if more then {next} else {}),
             if more then next + 1 else next, total, parallelism)
    ensures |collected[future := chunk]| == |collected| + 1
    ensures next !in pending
  {
    CollectedSize(collected, future, chunk);
    RefilledSize(pending, future, next);
  }

  lemma CollectedSize<C>(collected: map<nat, C>, future: nat, chunk: C)
    requires future !in collected
    ensures |collected[future := chunk]| == |collected| + 1
  {
    assert collected[future := chunk].Keys == collected.Keys + {future};
  }

  lemma RefilledSize(pending: set<nat>, future: nat, next: nat)
    requires future in pending && next !in pending
    ensures |pending - {future}| == |pending| - 1 && |pending - {future} + {next}| == |pending|
  {
    var rest := pending - {future};
    assert |rest + {next}| == |rest| + 1;
  }

  ghost predicate FromPool<C(!new)>(collected: map<nat, C>, pool: nat -> Call<C>, total: nat) {
    forall i :: i in collected ==> 1 <= i <= total && pool(i) == Returned(collected[i])
  }

  /** Collects one finished future and submits the next spec, if any. */
  method CollectAndRefill<C>(
    collected0: map<nat, C>, pending0: set<nat>, next0: nat, total: nat, parallelism: nat, future: nat, chunk: C)
    returns (collected: map<nat, C>, pending: set<nat>, next: nat)
    requires Window(collected0, pending0, next0, total, parallelism) && future in pending0
    ensures Window(collected, pending, next, total, parallelism)
    ensures collected == collected0[future := chunk] && |collected| == |collected0| + 1
    ensures pending0 - {future} <= pending
  {
    RefillKeepsWindow(collected0, pending0, next0, total, parallelism, future, chunk);
    collected, pending, next := collected0[future := chunk], pending0 - {future}, next0;
    if next <= total {
      pending := pending + {next};
      next := next + 1;
    }
  }

  /** Takes one batch of finished futures, refilling the window; stops at the first failure. */
  method ProcessBatch<C(!new)>(
    batch: seq<nat>, collected0: map<nat, C>, pending0: set<nat>, next0: nat, total: nat, parallelism: nat, pool: nat -> Call<C>)
    returns (collected: map<nat, C>, pending: set<nat>, next: nat, failed: bool)
    requires IsBatch(batch, pending0) && Window(collected0, pending0, next0, total, parallelism)
    requires FromPool(collected0, pool, total)
    ensures FromPool(collected, pool, total)
    ensures failed <==> exists k :: 0 <= k < |batch| && pool(batch[k]).Raised?
    ensures !failed ==> Window(collected, pending, next, total, parallelism) && |collected| > |collected0|
  {
    collected, pending, next, failed := collected0, pending0, next0, false;
    for k := 0 to |batch|
      invariant Window(collected, pending, next, total, parallelism) && FromPool(collected, pool, total)
      invariant forall m :: 0 <= m < k ==> pool(batch[m]).Returned?
      invariant forall m :: k <= m < |batch| ==> batch[m] in pending
      invariant |collected| == |collected0| + k
    {
      var future := batch[k];
      match pool(future)
      case Raised =>
        return collected, {}, next, true;
      case Returned(chunk) =>
        assert forall m :: k < m < |batch| ==> batch[m] != future;
        collected, pending, next :=
          CollectAndRefill(collected, pending, next, total, parallelism, future, chunk);
    }
  }

  /** Runs the missing indices in order, as the sequential fallback does. */
  method RunFallback<C(!new)>(collected0: map<nat, C>, total: nat, pool: nat -> Call<C>, fallback: nat -> Call<C>)
    returns (collected: map<nat, C>, raisedAt: Option<nat>)
    requires FromPool(collected0, pool, total)
    ensures raisedAt.None? ==> forall i :: i in collected <==> 1 <= i <= total
    ensures raisedAt.None? ==> forall i :: i in collected ==> Mixed(collected0.Keys, pool, fallback)(i) == Returned(collected[i])
    ensures raisedAt.Some? ==> IsSequentialResult(Err(raisedAt.value), Mixed(collected0.Keys, pool, fallback), total)
  {
    collected := collected0;
    var index: nat := 1;
    while index <= total
      invariant 1 <= index <= total + 1
      invariant forall i :: i in collected <==> i in collected0 || 1 <= i < index
      invariant forall i :: i in collected ==> Mixed(collected0.Keys, pool, fallback)(i) == Returned(collected[i])
    {
      if index !in collected0 {
        match fallback(index)
        case Raised =>
          forall i | 1 <= i < index ensures Mixed(collected0.Keys, pool, fallback)(i).Returned? {
            assert i in collected;
          }
          return collected, Some(index);
        case Returned(chunk) => collected := collected[index := chunk];
      }
      index := index + 1;
    }
    raisedAt := None;
  }

  /** The pool's answer where it was kept, the fallback's answer elsewhere. */
  ghost function Mixed<C>(kept: set<nat>, pool: nat -> Call<C>, fallback: nat -> Call<C>): nat -> Call<C> {
    (i: nat) => if i in kept then pool(i) else fallback(i)
  }

  /** Submits the first `parallelism` specs. */
  method FillWindow(parallelism: nat) returns (pending: set<nat>, next: nat)
    ensures next == parallelism + 1 && |pending| == parallelism
    ensures forall i :: i in pending <==> 1 <= i < next
  {
    pending, next := {}, 1;
    while next <= parallelism
      invariant 1 <= next <= parallelism + 1
      invariant |pending| == next - 1 && forall i :: i in pending <==> 1 <= i < next
    {
      assert next !in pending;
      pending := pending + {next};
      next := next + 1;
    }
  }

  /** The pool loop, for every completion order and batching. `peak` is the largest number in flight. */
  method RunPool<C(!new)>(total: nat, parallelism: nat, wait: (nat, set<nat>) -> seq<nat>, pool: nat -> Call<C>)
    returns (collected: map<nat, C>, failed: bool, ghost peak: nat)
    requires 1 <= parallelism <= total && AnyCompletionOrder(wait)
    ensures FromPool(collected, pool, total)
    ensures failed <==> exists i :: 1 <= i <= total && pool(i).Raised? && i !in collected
    ensures !failed ==> forall i :: 1 <= i <= total ==> i in collected
    ensures peak == parallelism
  {
    var pending, next := FillWindow(parallelism);
    collected, failed := map[], false;
    assert Window(collected, pending, next, total, parallelism);
    peak := |pending|;
    var waits := 0;
    while pending != {} && !failed
      invariant FromPool(collected, pool, total)
      invariant !failed ==> Window(collected, pending, next, total, parallelism)
      invariant failed ==> exists i :: 1 <= i <= total && pool(i).Raised?
      invariant peak == parallelism
      decreases !failed, total - |collected|
    {
      WindowSize(collected, pending, next, total, parallelism);
      peak := Max(peak, |pending|);
      var batch := wait(waits, pending);
      waits := waits + 1;
      assert forall k :: 0 <= k < |batch| ==> 1 <= batch[k] <= total;
      collected, pending, next, failed := ProcessBatch(batch, collected, pending, next, total, parallelism, pool);
      if !failed {
        WindowSize(collected, pending, next, total, parallelism);
      }
    }
  }

  /** The parallel branch. For every completion order and batching, every pool failure and every fallback
      behaviour, the result is that of a sequential loop over the kept pool answers and the fallback ones. */
  method BuildParallel<C(!new)>(
    total: nat, parallelism: nat, wait: (nat, set<nat>) -> seq<nat>, pool: nat -> Call<C>, fallback: nat -> Call<C>)
    returns (r: Result<seq<C>, nat>, ghost kept: set<nat>, ghost peak: nat)
    requires 1 <= parallelism <= total && AnyCompletionOrder(wait)
    ensures IsSequentialResult(r, Mixed(kept, pool, fallback), total)
    ensures forall i :: i in kept ==> 1 <= i <= total && pool(i).Returned?
    ensures (forall i :: 1 <= i <= total ==> pool(i).Returned?) ==> forall i :: 1 <= i <= total ==> i in kept
    ensures peak == parallelism
    ensures r.Err? ==> fallback(r.error).Raised?
    ensures r.Ok? ==> |r.value| == total && forall i :: 0 <= i < total ==>
      Returned(r.value[i]) in {pool(i + 1), fallback(i + 1)}
  {
    var collected, failed;
    collected, failed, peak := RunPool(total, parallelism, wait, pool);
    kept := collected.Keys;
    if failed {
      var raisedAt;
      collected, raisedAt := RunFallback(collected, total, pool, fallback);
      if raisedAt.Some? {
        return Err(raisedAt.value), kept, peak;
      }
    }
    assert forall i :: i in collected <==> 1 <= i <= total;
    r := Ok(seq(total, i requires 0 <= i < total => collected[i + 1]));
    forall i | 0 <= i < total ensures Mixed(kept, pool, fallback)(i + 1) == Returned(r.value[i]) {
      assert i + 1 in collected;
    }
  }

  /** `_build_test_plan`'s chunk list. When a call's answer depends only on its index the parallel builder
      and the sequential loop agree, also on which call raises; `peak` calls are in flight at most, as configured. */
  method BuildChunks<C(!new)>(
    total: nat, configured: Option<int>, wait: (nat, set<nat>) -> seq<nat>, pool: nat -> Call<C>, fallback: nat -> Call<C>)
    returns (r: Result<seq<C>, nat>, ghost peak: nat)
    requires total >= 1 && AnyCompletionOrder(wait)
    ensures peak == Parallelism(configured, total)
    ensures (forall i: nat :: pool(i) == fallback(i)) ==> IsSequentialResult(r, fallback, total)
    ensures r.Err? ==> fallback(r.error).Raised?
    ensures r.Ok? ==> |r.value| == total && forall i :: 0 <= i < total ==>
      Returned(r.value[i]) in {pool(i + 1), fallback(i + 1)}
  {
    var parallelism := Parallelism(configured, total);
    if parallelism == 1 {
      r := BuildSequential(fallback, total);
      peak := 1;
    } else {
      ghost var kept;
      r, kept, peak := BuildParallel(total, parallelism, wait, pool, fallback);
      ghost var mixed := Mixed(kept, pool, fallback);
      if forall i: nat :: pool(i) == fallback(i) {
        SameCallsSameResult(r, mixed, fallback, total);
      }
    }
  }
}
