/** Liveness of the orchestrator: without new enqueues every fair infinite run empties the system. */
module OrchestratorFairness {
  import opened Basics
  import opened Orchestrator
  import opened OrchestratorRuns

  ghost predicate Later(run: nat -> Event, n: nat, e: Event) {
    exists m: nat :: m >= n && run(m) == e
  }

  ghost predicate FinishesLater(run: nat -> Event, n: nat, key: string) {
    exists m: nat :: m >= n && run(m).Finish? && run(m).key == key
  }

  /** No enqueue and no drain; the dispatcher's steps are attempted again and again. */
  ghost predicate DispatcherIsFair(run: nat -> Event) {
    && (forall n: nat :: Internal(run(n)))
    && (forall n: nat :: Later(run, n, Wake) && Later(run, n, CheckCapacity) && Later(run, n, Get))
  }

  /** No enqueue and no drain; the dispatcher's steps and the steps of every key's task are attempted again and
      again. An attempt that is not possible at its moment does nothing. */
  ghost predicate Fair(run: nat -> Event) {
    && DispatcherIsFair(run)
    && (forall n: nat, key :: Later(run, n, Begin(key)))
    && (forall n: nat, key :: FinishesLater(run, n, key))
  }

  /** One step of a configuration, possibly one without effect. */
  ghost predicate Moves(c: Config, e: Event, next: Config) {
    next == Advance(c, e)
  }

  /** The configurations an infinite run goes through. */
  ghost predicate Trajectory(at: nat -> Config, run: nat -> Event) {
    forall n: nat :: Moves(at(n), run(n), at(n + 1))
  }

  ghost predicate Serves(s: State) {
    Inv(s) && s.phase.Serving? && s.capacity >= 1
  }

  ghost predicate Emptied(s: State) {
    s.queue == [] && s.running == map[]
  }

  /** A serving state whose work is at most w. */
  ghost predicate Within(s: State, w: nat) {
    Serves(s) && Work(s) <= w
  }

  lemma MoveStaysWithin(c: Config, e: Event, next: Config, w: nat)
    requires Within(c.state, w) && Internal(e) && Moves(c, e, next)
    ensures Within(next.state, w)
  {
    if Enabled(c.state, e) {
      StepKeepsInv(c.state, e);
      StepWork(c.state, e);
    }
  }

  lemma NextStaysWithin(at: nat -> Config, run: nat -> Event, n: nat, w: nat)
    requires Trajectory(at, run) && Fair(run) && Within(at(n).state, w)
    ensures Within(at(n + 1).state, w)
  {
    assert Moves(at(n), run(n), at(n + 1));
    MoveStaysWithin(at(n), run(n), at(n + 1), w);
  }

  /** The work never grows. */
  lemma {:induction false} StaysWithin(at: nat -> Config, run: nat -> Event, n: nat, m: nat, w: nat)
    requires Trajectory(at, run) && Fair(run) && n <= m && Within(at(n).state, w)
    ensures Within(at(m).state, w)
    decreases m
  {
    if n < m {
      StaysWithin(at, run, n, m - 1, w);
      NextStaysWithin(at, run, m - 1, w);
    }
  }

  // ----- a running task ends -----

  /** Work w is left and the key's task exists, executing if so required. */
  ghost predicate Alive(s: State, w: nat, key: string, executing: bool) {
    Serves(s) && Work(s) == w && key in s.running && (executing ==> s.running[key].phase.Executing?)
  }

  /** A step does some of the work or leaves the task there; beginning makes it execute, finishing does work. */
  lemma MoveKeepsTask(c: Config, e: Event, next: Config, w: nat, key: string, executing: bool)
    requires Alive(c.state, w, key, executing) && Internal(e) && Moves(c, e, next)
    ensures Serves(next.state)
    ensures Work(next.state) < w || Alive(next.state, w, key, executing || e == Begin(key))
    ensures e.Finish? && e.key == key && executing ==> Work(next.state) < w
  {
    if Enabled(c.state, e) {
      StepKeepsInv(c.state, e);
      StepWork(c.state, e);
      UnfinishedShrinks(c.state.running);
    }
  }

  /** From n to m, work is done or the task stays. */
  lemma {:induction false} TaskStays(
    at: nat -> Config, run: nat -> Event, n: nat, m: nat, w: nat, key: string, executing: bool) returns (k: nat)
    requires Trajectory(at, run) && Fair(run) && n <= m && Alive(at(n).state, w, key, executing)
    ensures n <= k <= m && Serves(at(k).state)
    ensures Work(at(k).state) < w || (k == m && Alive(at(m).state, w, key, executing))
    decreases m
  {
    k := n;
    if n < m {
      k := TaskStays(at, run, n, m - 1, w, key, executing);
      if Work(at(k).state) >= w {
        assert Moves(at(m - 1), run(m - 1), at(m - 1 + 1));
        MoveKeepsTask(at(m - 1), run(m - 1), at(m), w, key, executing);
        k := m;
      }
    }
  }

  lemma TaskBringsProgress(at: nat -> Config, run: nat -> Event, n: nat, w: nat, key: string) returns (m: nat)
    requires Trajectory(at, run) && Fair(run) && Alive(at(n).state, w, key, false)
    ensures m >= n && Serves(at(m).state) && Work(at(m).state) < w
  {
    assert Later(run, n, Begin(key));
    var b: nat :| b >= n && run(b) == Begin(key);
    m := TaskStays(at, run, n, b, w, key, false);
    if Work(at(m).state) >= w {
      assert Moves(at(b), run(b), at(b + 1));
      MoveKeepsTask(at(b), run(b), at(b + 1), w, key, false);
      m := b + 1;
      if Work(at(m).state) >= w {
        m := ExecutingBringsProgress(at, run, b + 1, w, key);
      }
    }
  }

  lemma ExecutingBringsProgress(at: nat -> Config, run: nat -> Event, n: nat, w: nat, key: string) returns (m: nat)
    requires Trajectory(at, run) && Fair(run) && Alive(at(n).state, w, key, true)
    ensures m >= n && Serves(at(m).state) && Work(at(m).state) < w
  {
    assert FinishesLater(run, n, key);
    var f: nat :| f >= n && run(f).Finish? && run(f).key == key;
    m := TaskStays(at, run, n, f, w, key, true);
    if Work(at(m).state) >= w {
      assert Moves(at(f), run(f), at(f + 1));
      MoveKeepsTask(at(f), run(f), at(f + 1), w, key, true);
      m := f + 1;
    }
  }

  // ----- with a free slot the dispatcher takes the next item -----

  /** How far the dispatcher has come towards `get`. */
  function Nearness(d: Dispatcher): nat {
    match d
    case AtGet => 2
    case AtCapacityCheck => 1
    case _ => 0
  }

  ghost predicate Pending(s: State, w: nat, nearness: nat) {
    && Serves(s) && Work(s) == w && s.queue != [] && |s.running| < s.capacity
    && Nearness(s.dispatcher) >= nearness
  }

  /** The step that brings the dispatcher on from each place. */
  function Next(nearness: nat): Event {
    if nearness == 0 then Wake else if nearness == 1 then CheckCapacity else Get
  }

  lemma MoveKeepsPending(c: Config, e: Event, next: Config, w: nat, nearness: nat)
    requires Pending(c.state, w, nearness) && nearness <= 2 && Internal(e) && Moves(c, e, next)
    ensures Serves(next.state)
    ensures Work(next.state) < w || Pending(next.state, w, nearness)
    ensures e == Next(nearness) ==> Work(next.state) < w || (nearness < 2 && Pending(next.state, w, nearness + 1))
  {
    if Enabled(c.state, e) {
      StepKeepsInv(c.state, e);
      StepWork(c.state, e);
      UnfinishedShrinks(c.state.running);
    }
  }

  lemma {:induction false} PendingStays(
    at: nat -> Config, run: nat -> Event, n: nat, m: nat, w: nat, nearness: nat) returns (k: nat)
    requires Trajectory(at, run) && DispatcherIsFair(run) && n <= m && Pending(at(n).state, w, nearness) && nearness <= 2
    ensures n <= k <= m && Serves(at(k).state)
    ensures Work(at(k).state) < w || (k == m && Pending(at(m).state, w, nearness))
    decreases m
  {
    k := n;
    if n < m {
      k := PendingStays(at, run, n, m - 1, w, nearness);
      if Work(at(k).state) >= w {
        assert Moves(at(m - 1), run(m - 1), at(m - 1 + 1));
        MoveKeepsPending(at(m - 1), run(m - 1), at(m), w, nearness);
        k := m;
      }
    }
  }

  lemma {:induction false} QueueBringsProgress(
    at: nat -> Config, run: nat -> Event, n: nat, w: nat, nearness: nat) returns (m: nat)
    requires Trajectory(at, run) && DispatcherIsFair(run) && Pending(at(n).state, w, nearness) && nearness <= 2
    ensures m >= n && Serves(at(m).state) && Work(at(m).state) < w
    decreases 2 - nearness
  {
    assert Later(run, n, Next(nearness));
    var k: nat :| k >= n && run(k) == Next(nearness);
    m := PendingStays(at, run, n, k, w, nearness);
    if Work(at(m).state) >= w {
      assert Moves(at(k), run(k), at(k + 1));
      MoveKeepsPending(at(k), run(k), at(k + 1), w, nearness);
      m := k + 1;
      if Work(at(m).state) >= w {
        m := QueueBringsProgress(at, run, k + 1, w, nearness + 1);
      }
    }
  }

  lemma {:induction false} FairRunEmptiesFrom(at: nat -> Config, run: nat -> Event, n: nat) returns (m: nat)
    requires Trajectory(at, run) && Fair(run) && Serves(at(n).state)
    ensures m >= n && Serves(at(m).state) && Emptied(at(m).state)
    decreases Work(at(n).state)
  {
    var s := at(n).state;
    if Emptied(s) {
      m := n;
    } else {
      if s.running != map[] {
        var key :| key in s.running;
        m := TaskBringsProgress(at, run, n, Work(s), key);
      } else {
        m := QueueBringsProgress(at, run, n, Work(s), 0);
      }
      m := FairRunEmptiesFrom(at, run, m);
    }
  }

  // ----- without any task ending -----

  /** No slot is free, or nothing waits for one. */
  ghost predicate Saturated(s: State) {
    s.queue == [] || |s.running| >= s.capacity
  }

  /** As many tasks run as the cap allows, or all the items there were at the start. */
  ghost predicate SaturatedFrom(at: nat -> Config, n: nat) {
    forall m: nat :: m >= n ==>
      |at(m).state.running| == Min(at(0).state.capacity, |at(0).state.running| + |at(0).state.queue|)
  }

  ghost predicate SameTotal(s: State, t: State) {
    && Serves(t) && t.capacity == s.capacity
    && |t.running| + |t.queue| == |s.running| + |s.queue|
    && (Saturated(s) ==> Saturated(t))
  }

  lemma SameTotalIsTransitive(s: State, t: State, u: State)
    requires SameTotal(s, t) && SameTotal(t, u)
    ensures SameTotal(s, u)
  {
  }

  /** Without task ends items only move from the queue to the running map, and a saturated state stays one. */
  lemma MoveKeepsTotal(c: Config, e: Event, next: Config)
    requires Serves(c.state) && Internal(e) && !e.Finish? && Moves(c, e, next)
    ensures SameTotal(c.state, next.state)
  {
    if Enabled(c.state, e) {
      StepKeepsInv(c.state, e);
      StepWork(c.state, e);
      UnfinishedShrinks(c.state.running);
      if e.Get? {
        GetTakesHead(c);
      } else if e.Begin? {
        assert next.state.running.Keys == c.state.running.Keys;
        assert |next.state.running| == |next.state.running.Keys|;
      }
    }
  }

  lemma NextKeepsTotal(at: nat -> Config, run: nat -> Event, n: nat)
    requires Trajectory(at, run) && DispatcherIsFair(run) && Serves(at(n).state) && !run(n).Finish?
    ensures SameTotal(at(n).state, at(n + 1).state)
  {
    assert Moves(at(n), run(n), at(n + 1));
    MoveKeepsTotal(at(n), run(n), at(n + 1));
  }

  lemma {:induction false} TotalStays(at: nat -> Config, run: nat -> Event, n: nat, m: nat)
    requires Trajectory(at, run) && DispatcherIsFair(run) && n <= m && Serves(at(n).state)
    requires forall i: nat :: !run(i).Finish?
    ensures SameTotal(at(n).state, at(m).state)
    decreases m
  {
    if n < m {
      TotalStays(at, run, n, m - 1);
      NextKeepsTotal(at, run, m - 1);
      SameTotalIsTransitive(at(n).state, at(m - 1).state, at(m).state);
    }
  }

  lemma {:induction false} SlotsFill(at: nat -> Config, run: nat -> Event, n: nat) returns (m: nat)
    requires Trajectory(at, run) && DispatcherIsFair(run) && Serves(at(n).state)
    requires forall i: nat :: !run(i).Finish?
    ensures m >= n && Saturated(at(m).state)
    decreases |at(n).state.queue|
  {
    m := n;
    if !Saturated(at(n).state) {
      m := QueueBringsProgress(at, run, n, Work(at(n).state), 0);
      TotalStays(at, run, n, m);
      m := SlotsFill(at, run, m);
    }
  }

  /** The cap is used: if the dispatcher's steps are attempted again and again and no task ever ends, then from some
      moment on as many tasks run as the cap allows, or all there are. */
  lemma SlotsFillForGood(capacity: int, events: seq<Event>, at: nat -> Config, run: nat -> Event)
    requires capacity >= 1 && at(0) == Run(Start(capacity), events) && at(0).state.phase.Serving?
    requires Trajectory(at, run) && DispatcherIsFair(run) && forall i: nat :: !run(i).Finish?
    ensures exists n: nat :: SaturatedFrom(at, n)
  {
    RunKeepsInv(Start(capacity), events);
    var n := SlotsFill(at, run, 0);
    TotalStays(at, run, 0, n);
    forall m: nat | m >= n
      ensures |at(m).state.running| == Min(at(0).state.capacity, |at(0).state.running| + |at(0).state.queue|)
    {
      TotalStays(at, run, n, m);
    }
    assert SaturatedFrom(at, n);
  }

  ghost predicate EmptyFrom(at: nat -> Config, n: nat) {
    forall m: nat :: m >= n ==> Emptied(at(m).state)
  }

  lemma NoWorkIsEmpty(s: State)
    ensures Work(s) == 0 <==> Emptied(s)
  {
    assert s.running == map[] <==> |s.running| == 0;
  }

  /** From every reachable serving configuration, with a cap of at least one, every fair run without enqueues
      reaches the empty system and stays there. */
  lemma FairRunsEmpty(capacity: int, events: seq<Event>, at: nat -> Config, run: nat -> Event)
    requires capacity >= 1 && at(0) == Run(Start(capacity), events) && at(0).state.phase.Serving?
    requires Trajectory(at, run) && Fair(run)
    ensures exists n: nat :: EmptyFrom(at, n)
  {
    RunKeepsInv(Start(capacity), events);
    var n := FairRunEmptiesFrom(at, run, 0);
    NoWorkIsEmpty(at(n).state);
    forall m: nat | m >= n ensures Emptied(at(m).state) {
      StaysWithin(at, run, n, m, 0);
      NoWorkIsEmpty(at(m).state);
    }
    assert EmptyFrom(at, n);
  }

  // ----- what a fair run has done in the end -----

  /** The first n events of the run. */
  function Before(run: nat -> Event, n: nat): seq<Event> {
    seq(n, i requires 0 <= i < n => run(i))
  }

  lemma BeforeStep(run: nat -> Event, n: nat)
    ensures Before(run, n + 1) == Before(run, n) + [run(n)]
  {
  }

  lemma MoveExtends(start: Config, events: seq<Event>, c: Config, e: Event, next: Config)
    requires c == Run(start, events) && Moves(c, e, next)
    ensures next == Run(start, events + [e])
  {
    assert (events + [e])[..|events|] == events;
  }

  lemma InternalAcceptsNothing(c: Config, e: Event, next: Config)
    requires Moves(c, e, next) && Internal(e)
    ensures next.log.accepted == c.log.accepted
  {
  }

  lemma {:induction false} TrajectoryIsRun(start: Config, events: seq<Event>, at: nat -> Config, run: nat -> Event, n: nat)
    requires Trajectory(at, run) && at(0) == Run(start, events)
    ensures at(n) == Run(start, events + Before(run, n))
  {
    if n == 0 {
      assert events + Before(run, 0) == events;
    } else {
      var before := events + Before(run, n - 1);
      TrajectoryIsRun(start, events, at, run, n - 1);
      MoveExtends(start, before, at(n - 1), run(n - 1), at(n));
      BeforeStep(run, n - 1);
      assert before + [run(n - 1)] == events + Before(run, n);
    }
  }

  lemma {:induction false} FairRunAcceptsNothing(at: nat -> Config, run: nat -> Event, n: nat)
    requires Trajectory(at, run) && Fair(run)
    ensures at(n).log.accepted == at(0).log.accepted
  {
    if n > 0 {
      FairRunAcceptsNothing(at, run, n - 1);
      InternalAcceptsNothing(at(n - 1), run(n - 1), at(n));
    }
  }

  /** Everything that was accepted is dispatched in order, executed once and ended once. */
  ghost predicate AllDone(log: Log, accepted: seq<WorkItem>) {
    log.accepted == log.dispatched == accepted && log.executed == log.ended == multiset(accepted)
  }

  ghost predicate AllDoneFrom(at: nat -> Config, n: nat, accepted: seq<WorkItem>) {
    forall m: nat :: m >= n ==> AllDone(at(m).log, accepted)
  }

  /** After any run without a drain: if from here on nothing is enqueued and the steps are taken fairly, there is a
      moment from which on every accepted item has been executed and ended exactly once. */
  lemma FairRunsExecuteOnce(capacity: int, events: seq<Event>, at: nat -> Config, run: nat -> Event)
    requires capacity >= 1 && NoDrain(events) && at(0) == Run(Start(capacity), events)
    requires Trajectory(at, run) && Fair(run)
    ensures exists n: nat :: AllDoneFrom(at, n, Run(Start(capacity), events).log.accepted)
  {
    Order(capacity, events);
    FairRunsEmpty(capacity, events, at, run);
    var n: nat :| EmptyFrom(at, n);
    forall m: nat | m >= n ensures AllDone(at(m).log, at(0).log.accepted) {
      TrajectoryIsRun(Start(capacity), events, at, run, m);
      FairRunAcceptsNothing(at, run, m);
      FairStepsDoNotDrain(events, run, m);
      assert Emptied(at(m).state);
      ExecutedExactlyOnce(capacity, events + Before(run, m));
    }
    assert AllDoneFrom(at, n, at(0).log.accepted);
  }

  lemma FairStepsDoNotDrain(events: seq<Event>, run: nat -> Event, n: nat)
    requires NoDrain(events) && Fair(run)
    ensures NoDrain(events + Before(run, n))
  {
    var longer := events + Before(run, n);
    forall i | 0 <= i < |longer| ensures !longer[i].CancelDispatcher? {
      if i >= |events| {
        assert Internal(run(i - |events|));
      }
    }
  }
}
