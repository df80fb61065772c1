/** What ticks of the scheduler guarantee: which runs they ask for, and which records they touch. */
module SchedulerRuns {
  import opened Basics
  import opened IssueScheduler

  // ----- a tick as a trace of rounds -----

  /** One round of the tick takes s to t. */
  ghost predicate Acts(s: Store, w: World, key: string, seen: Meta, projectEnabled: bool, t: Store) {
    key in s.metas && key in s.closed && t == Act(s, w, key, seen, projectEnabled)
  }

  /** The stores between the rounds of a tick; the first one is the synchronised store all records were read from. */
  ghost predicate Trace(states: seq<Store>, worlds: nat -> World, keys: seq<string>, projectEnabled: bool) {
    && |states| == |keys| + 1 && Recorded(states[0], keys)
    && forall i :: 0 <= i < |keys| ==>
         Acts(states[i], worlds(i), keys[i], states[0].metas[keys[i]], projectEnabled, states[i + 1])
  }

  lemma ActAllStep(synced: Store, worlds: nat -> World, keys: seq<string>, n: nat, projectEnabled: bool)
    requires Recorded(synced, keys) && n < |keys|
    ensures Acts(
      ActAll(synced, worlds, keys, n, projectEnabled), worlds(n), keys[n], synced.metas[keys[n]], projectEnabled,
      ActAll(synced, worlds, keys, n + 1, projectEnabled))
  {
  }

  function StatesOf(synced: Store, worlds: nat -> World, keys: seq<string>, projectEnabled: bool): seq<Store>
    requires Recorded(synced, keys)
  {
    seq(|keys| + 1, i requires 0 <= i <= |keys| => ActAll(synced, worlds, keys, i, projectEnabled))
  }

  lemma StatesAreATrace(synced: Store, worlds: nat -> World, keys: seq<string>, projectEnabled: bool)
    requires Recorded(synced, keys)
    ensures Trace(StatesOf(synced, worlds, keys, projectEnabled), worlds, keys, projectEnabled)
    ensures StatesOf(synced, worlds, keys, projectEnabled)[0] == synced
  {
    forall i | 0 <= i < |keys|
      ensures Acts(
        StatesOf(synced, worlds, keys, projectEnabled)[i], worlds(i), keys[i], synced.metas[keys[i]], projectEnabled,
        StatesOf(synced, worlds, keys, projectEnabled)[i + 1])
    {
      ActAllStep(synced, worlds, keys, i, projectEnabled);
    }
  }

  /** Every tick is a trace from the synchronised store. */
  lemma TickIsATrace(s: Store, input: TickInput, projectEnabled: bool) returns (states: seq<Store>)
    ensures var keys := SyncedKeys(input.Items());
      && Trace(states, input.whileActing, keys, projectEnabled)
      && states[0] == SyncItems(s, input.whileSyncing, input.Items())
      && states[|keys|] == Tick(s, input, projectEnabled)
  {
    var synced := SyncItems(s, input.whileSyncing, input.Items());
    SyncRecords(s, input.whileSyncing, input.Items());
    StatesAreATrace(synced, input.whileActing, SyncedKeys(input.Items()), projectEnabled);
    states := StatesOf(synced, input.whileActing, SyncedKeys(input.Items()), projectEnabled);
  }

  // ----- which runs are asked for -----

  predicate Startable(status: string) {
    status == "Ready" || status == "Rework"
  }

  /** The issue may start: Ready or Rework, open, with a planned thread that neither runs nor waits, no live process,
      and with a project configured GitHub confirms the state and an approved plan. */
  predicate Justified(r: Request, w: World, status: string, closed: bool, projectEnabled: bool) {
    && status in {"Ready", "Rework"} && !closed
    && r.threadId > 0 && r.threadId in w.planned
    && r.threadId !in w.running && r.threadId !in w.queued && r.issueKey !in w.processes
    && (projectEnabled ==>
          r.issueKey in w.gates && w.gates[r.issueKey].state == status && w.gates[r.issueKey].plan == "Approved")
  }

  lemma DispatchAsksExactlyWhen(s: Store, w: World, key: string, threadId: nat, status: string, projectEnabled: bool)
    requires key in s.metas && key in s.closed
    ensures var t := Dispatch(s, w, key, threadId, status, projectEnabled);
      var r := Request(if threadId > 0 then threadId else t.metas[key].threadId, key);
      t.requests == (if Dispatchable(w, key, r.threadId, status, s.closed[key], projectEnabled) then s.requests + [r] else s.requests)
    ensures s.metas[key].threadId > 0 ==>
      Dispatch(s, w, key, threadId, status, projectEnabled).metas[key].threadId == s.metas[key].threadId
  {
  }

  /** One round asks for a run exactly when every condition holds for the thread the issue then has. */
  lemma {:induction false} ActAsksExactlyWhen(s: Store, w: World, key: string, seen: Meta, projectEnabled: bool)
    requires key in s.metas && key in s.closed
    ensures var t := Act(s, w, key, seen, projectEnabled);
      var r := Request(if seen.threadId > 0 then seen.threadId else t.metas[key].threadId, key);
      t.requests == (if Justified(r, w, seen.status, s.closed[key], projectEnabled) then s.requests + [r] else s.requests)
  {
    var needsThread := seen.threadId == 0 && !Finished(seen.status);
    var bound := if needsThread then EnsureThread(s, key, OfferOf(w.offered, key)) else s;
    var threadId := if needsThread then bound.metas[key].threadId else seen.threadId;
    if Startable(seen.status) {
      DispatchAsksExactlyWhen(bound, w, key, threadId, seen.status, projectEnabled);
    }
  }

  /** The request a round would make: for the thread the issue has afterwards. */
  function RequestAt(states: seq<Store>, keys: seq<string>, n: nat): Request
    requires |states| == |keys| + 1 && Recorded(states[0], keys) && n < |keys| && keys[n] in states[n + 1].metas
  {
    var seen := states[0].metas[keys[n]];
    Request(if seen.threadId > 0 then seen.threadId else states[n + 1].metas[keys[n]].threadId, keys[n])
  }

  ghost predicate JustifiedAt(r: Request, worlds: nat -> World, keys: seq<string>, synced: Store, i: nat, projectEnabled: bool)
    requires Recorded(synced, keys) && i < |keys|
  {
    keys[i] == r.issueKey && Justified(r, worlds(i), synced.metas[keys[i]].status, synced.closed[keys[i]], projectEnabled)
  }

  ghost predicate HasReason(r: Request, worlds: nat -> World, keys: seq<string>, synced: Store, n: nat, projectEnabled: bool)
    requires Recorded(synced, keys) && n <= |keys|
  {
    exists i: nat | i < n :: JustifiedAt(r, worlds, keys, synced, i, projectEnabled)
  }

  /** The requests of the first n rounds are explained: each has its reason in one of them, and each round that
      had a reason to make its request has made it. */
  ghost predicate Explained(
    asked: seq<Request>, rs: seq<Request>, worlds: nat -> World, keys: seq<string>, synced: Store, n: nat,
    projectEnabled: bool)
    requires Recorded(synced, keys) && n <= |keys| == |rs|
  {
    && (forall j :: 0 <= j < |asked| ==> HasReason(asked[j], worlds, keys, synced, n, projectEnabled))
    && (forall i: nat | i < n :: JustifiedAt(rs[i], worlds, keys, synced, i, projectEnabled) ==> rs[i] in asked)
  }

  lemma ReasonStays(r: Request, worlds: nat -> World, keys: seq<string>, synced: Store, n: nat, projectEnabled: bool)
    requires Recorded(synced, keys) && n < |keys| && HasReason(r, worlds, keys, synced, n, projectEnabled)
    ensures HasReason(r, worlds, keys, synced, n + 1, projectEnabled)
  {
    var i: nat :| i < n && JustifiedAt(r, worlds, keys, synced, i, projectEnabled);
    assert i < n + 1;
  }

  lemma OneMoreRound(
    asked: seq<Request>, rs: seq<Request>, worlds: nat -> World, keys: seq<string>, synced: Store, n: nat,
    projectEnabled: bool) returns (more: seq<Request>)
    requires Recorded(synced, keys) && n < |keys| == |rs|
    requires Explained(asked, rs, worlds, keys, synced, n, projectEnabled)
    ensures more == if JustifiedAt(rs[n], worlds, keys, synced, n, projectEnabled) then asked + [rs[n]] else asked
    ensures Explained(more, rs, worlds, keys, synced, n + 1, projectEnabled)
  {
    more := if JustifiedAt(rs[n], worlds, keys, synced, n, projectEnabled) then asked + [rs[n]] else asked;
    forall j | 0 <= j < |more| ensures HasReason(more[j], worlds, keys, synced, n + 1, projectEnabled) {
      if j < |asked| {
        assert more[j] == asked[j];
        ReasonStays(asked[j], worlds, keys, synced, n, projectEnabled);
      }
    }
    forall x | x in asked ensures x in more {
    }
    assert JustifiedAt(rs[n], worlds, keys, synced, n, projectEnabled) ==> more[|asked|] == rs[n];
  }

  /** Rounds that each append their request exactly when it is justified leave an explained list. */
  lemma {:induction false} RoundsAreExplained(
    history: seq<seq<Request>>, rs: seq<Request>, worlds: nat -> World, keys: seq<string>, synced: Store, n: nat,
    projectEnabled: bool) returns (asked: seq<Request>)
    requires Recorded(synced, keys) && n <= |keys| == |rs| && |history| == |rs| + 1
    requires forall i :: 0 <= i < |rs| ==>
      history[i + 1]
        == if JustifiedAt(rs[i], worlds, keys, synced, i, projectEnabled) then history[i] + [rs[i]] else history[i]
    ensures history[n] == history[0] + asked && Explained(asked, rs, worlds, keys, synced, n, projectEnabled)
  {
    if n == 0 {
      asked := [];
    } else {
      var fewer := RoundsAreExplained(history, rs, worlds, keys, synced, n - 1, projectEnabled);
      asked := OneMoreRound(fewer, rs, worlds, keys, synced, n - 1, projectEnabled);
      assert (history[0] + fewer) + [rs[n - 1]] == history[0] + (fewer + [rs[n - 1]]);
    }
  }

  lemma RoundAsks(s: Store, w: World, key: string, seen: Meta, projectEnabled: bool, t: Store)
    requires Acts(s, w, key, seen, projectEnabled, t)
    ensures key in t.metas && t.closed == s.closed
    ensures var r := Request(if seen.threadId > 0 then seen.threadId else t.metas[key].threadId, key);
      t.requests == (if Justified(r, w, seen.status, s.closed[key], projectEnabled) then s.requests + [r] else s.requests)
  {
    ActAsksExactlyWhen(s, w, key, seen, projectEnabled);
    ActGrows(s, w, key, seen, projectEnabled);
  }

  lemma {:induction false} ClosedStays(states: seq<Store>, worlds: nat -> World, keys: seq<string>, n: nat, projectEnabled: bool)
    requires Trace(states, worlds, keys, projectEnabled) && n <= |keys|
    ensures states[n].closed == states[0].closed
  {
    if n > 0 {
      ClosedStays(states, worlds, keys, n - 1, projectEnabled);
      RoundAsks(states[n - 1], worlds(n - 1), keys[n - 1], states[0].metas[keys[n - 1]], projectEnabled, states[n]);
    }
  }

  lemma HasRecordAfter(states: seq<Store>, worlds: nat -> World, keys: seq<string>, n: nat, projectEnabled: bool)
    requires Trace(states, worlds, keys, projectEnabled) && n < |keys|
    ensures keys[n] in states[n + 1].metas
  {
    RoundAsks(states[n], worlds(n), keys[n], states[0].metas[keys[n]], projectEnabled, states[n + 1]);
  }

  /** All the requests the rounds would make. */
  function Requested(states: seq<Store>, keys: seq<string>): (rs: seq<Request>)
    requires |states| == |keys| + 1 && Recorded(states[0], keys)
    requires forall i :: 0 <= i < |keys| ==> keys[i] in states[i + 1].metas
    ensures |rs| == |keys|
  {
    seq(|keys|, i requires 0 <= i < |keys| => RequestAt(states, keys, i))
  }

  lemma TraceStepAsks(states: seq<Store>, worlds: nat -> World, keys: seq<string>, n: nat, projectEnabled: bool)
    requires Trace(states, worlds, keys, projectEnabled) && n < |keys|
    ensures keys[n] in states[n + 1].metas
    ensures var r := RequestAt(states, keys, n);
      states[n + 1].requests == if JustifiedAt(r, worlds, keys, states[0], n, projectEnabled)
                                then states[n].requests + [r] else states[n].requests
  {
    ClosedStays(states, worlds, keys, n, projectEnabled);
    RoundAsks(states[n], worlds(n), keys[n], states[0].metas[keys[n]], projectEnabled, states[n + 1]);
  }

  /** The requests of a whole tick are explained: none without a reason in its round, and no round with a reason,
      whether the thread was there before or created in it, without its request. */
  lemma TickAsks(states: seq<Store>, worlds: nat -> World, keys: seq<string>, projectEnabled: bool) returns (asked: seq<Request>)
    requires Trace(states, worlds, keys, projectEnabled)
    ensures forall i :: 0 <= i < |keys| ==> keys[i] in states[i + 1].metas
    ensures states[|keys|].requests == states[0].requests + asked
    ensures Explained(asked, Requested(states, keys), worlds, keys, states[0], |keys|, projectEnabled)
  {
    forall i | 0 <= i < |keys| ensures keys[i] in states[i + 1].metas {
      HasRecordAfter(states, worlds, keys, i, projectEnabled);
    }
    var history := seq(|keys| + 1, i requires 0 <= i <= |keys| => states[i].requests);
    var rs := Requested(states, keys);
    forall i | 0 <= i < |keys|
      ensures history[i + 1]
           == if JustifiedAt(rs[i], worlds, keys, states[0], i, projectEnabled) then history[i] + [rs[i]] else history[i]
    {
      TraceStepAsks(states, worlds, keys, i, projectEnabled);
    }
    asked := RoundsAreExplained(history, rs, worlds, keys, states[0], |keys|, projectEnabled);
  }

  /** Asked for at this moment, as far as the project board is concerned. */
  predicate ApprovedBy(w: World, key: string) {
    key in w.gates && Startable(w.gates[key].state) && w.gates[key].plan == "Approved"
  }

  ghost predicate NoNewRequest(s: Store, t: Store, key: string) {
    s.requests <= t.requests && forall j :: |s.requests| <= j < |t.requests| ==> t.requests[j].issueKey != key
  }

  lemma NoReasonWithoutApproval(r: Request, worlds: nat -> World, keys: seq<string>, synced: Store, key: string)
    requires Recorded(synced, keys) && HasReason(r, worlds, keys, synced, |keys|, true)
    requires forall n: nat :: !ApprovedBy(worlds(n), key)
    ensures r.issueKey != key
  {
    var i: nat :| i < |keys| && JustifiedAt(r, worlds, keys, synced, i, true);
    assert !ApprovedBy(worlds(i), key);
  }

  /** With a project configured, no tick starts an issue that no round saw Ready or Rework with an approved plan;
      in particular a board that says In Progress starts nothing, whatever the local records say. */
  lemma NothingStartsWithoutApproval(s: Store, input: TickInput, key: string)
    requires forall n: nat :: !ApprovedBy(input.whileActing(n), key)
    ensures NoNewRequest(s, Tick(s, input, true), key)
  {
    var keys := SyncedKeys(input.Items());
    SyncRecords(s, input.whileSyncing, input.Items());
    var states := TickIsATrace(s, input, true);
    var asked := TickAsks(states, input.whileActing, keys, true);
    forall j | 0 <= j < |asked| ensures asked[j].issueKey != key {
      NoReasonWithoutApproval(asked[j], input.whileActing, keys, states[0], key);
    }
  }

  // ----- records of other issues -----

  /** A thread named in a record is bound to that issue. */
  ghost predicate Owns(s: Store, key: string, threadId: nat) {
    threadId > 0 ==> threadId in s.bindings && s.bindings[threadId] == key
  }

  ghost predicate Consistent(s: Store) {
    forall key :: key in s.metas ==> Owns(s, key, s.metas[key].threadId)
  }

  ghost predicate SameRecord(s: Store, t: Store, key: string) {
    (key in s.metas <==> key in t.metas) && (key in s.metas ==> t.metas[key] == s.metas[key])
  }

  ghost predicate SameButOne(s: Store, t: Store, key: string) {
    forall other :: other != key ==> SameRecord(s, t, other)
  }

  lemma SameButOneTransitive(s: Store, t: Store, u: Store, key: string)
    requires SameButOne(s, t, key) && SameButOne(t, u, key)
    ensures SameButOne(s, u, key)
  {
    forall other | other != key ensures SameRecord(s, u, other) {
      assert SameRecord(s, t, other) && SameRecord(t, u, other);
    }
  }

  lemma EnsureKeepsConsistent(s: Store, key: string, created: nat)
    requires Consistent(s) && key in s.metas
    ensures var t := EnsureThread(s, key, created);
      && Consistent(t) && SameButOne(s, t, key)
      && t.metas[key] == s.metas[key].(threadId := t.metas[key].threadId)
      && (t.metas[key].threadId == s.metas[key].threadId || t.metas[key].threadId == created)
  {
  }

  lemma EnqueueKeepsConsistent(s: Store, w: World, key: string, threadId: nat)
    requires Consistent(s) && key in s.metas
    ensures Consistent(Enqueue(s, w, key, threadId)) && SameButOne(s, Enqueue(s, w, key, threadId), key)
  {
  }

  lemma DispatchKeepsConsistent(s: Store, w: World, key: string, threadId: nat, status: string, projectEnabled: bool)
    requires Consistent(s) && key in s.metas && key in s.closed
    ensures var t := Dispatch(s, w, key, threadId, status, projectEnabled);
      Consistent(t) && SameButOne(s, t, key)
  {
    if threadId == 0 {
      var bound := EnsureThread(s, key, OfferOf(w.offeredAgain, key));
      EnsureKeepsConsistent(s, key, OfferOf(w.offeredAgain, key));
      EnqueueKeepsConsistent(bound, w, key, bound.metas[key].threadId);
      SameButOneTransitive(s, bound, Enqueue(bound, w, key, bound.metas[key].threadId), key);
    } else {
      EnqueueKeepsConsistent(s, w, key, threadId);
    }
  }

  lemma ReconcileKeepsConsistent(s: Store, w: World, key: string, threadId: nat)
    requires Consistent(s) && key in s.metas && Owns(s, key, threadId)
    ensures var t := Reconcile(s, w, key, threadId);
      && t == s.(metas := s.metas[key := ReconcileMeta(w, key, threadId, s.metas[key])])
      && Consistent(t) && SameButOne(s, t, key)
  {
  }

  lemma ReactKeepsConsistent(s: Store, w: World, key: string, threadId: nat, status: string, projectEnabled: bool)
    requires Consistent(s) && key in s.metas && key in s.closed && Owns(s, key, threadId)
    ensures var t := React(s, w, key, threadId, status, projectEnabled);
      Consistent(t) && SameButOne(s, t, key)
  {
    if Startable(status) {
      DispatchKeepsConsistent(s, w, key, threadId, status, projectEnabled);
    } else if status == "In Progress" {
      ReconcileKeepsConsistent(s, w, key, threadId);
    }
  }

  lemma {:induction false} ActKeepsConsistent(s: Store, w: World, key: string, seen: Meta, projectEnabled: bool)
    requires Consistent(s) && key in s.metas && key in s.closed && Owns(s, key, seen.threadId)
    ensures var t := Act(s, w, key, seen, projectEnabled);
      Consistent(t) && SameButOne(s, t, key)
  {
    if seen.threadId == 0 && !Finished(seen.status) {
      var bound := EnsureThread(s, key, OfferOf(w.offered, key));
      EnsureKeepsConsistent(s, key, OfferOf(w.offered, key));
      ReactKeepsConsistent(bound, w, key, bound.metas[key].threadId, seen.status, projectEnabled);
      SameButOneTransitive(s, bound, React(bound, w, key, bound.metas[key].threadId, seen.status, projectEnabled), key);
    } else {
      ReactKeepsConsistent(s, w, key, seen.threadId, seen.status, projectEnabled);
    }
  }

  lemma {:induction false} SyncKeepsConsistent(s: Store, worlds: nat -> World, items: seq<BoardItem>)
    requires Consistent(s)
    ensures Consistent(SyncItems(s, worlds, items))
    ensures forall key :: key !in SyncedKeys(items) ==> SameRecord(s, SyncItems(s, worlds, items), key)
  {
    if items != [] {
      SyncKeepsConsistent(s, worlds, items[..|items| - 1]);
      SyncRecords(s, worlds, items[..|items| - 1]);
    }
  }

  /** With consistent bindings a round touches the record of its own issue only. */
  lemma {:induction false} RoundKeepsConsistent(s: Store, w: World, key: string, seen: Meta, projectEnabled: bool, t: Store)
    requires Acts(s, w, key, seen, projectEnabled, t) && Consistent(s) && Owns(s, key, seen.threadId)
    ensures Consistent(t) && SameButOne(s, t, key) && Grows(s, t)
  {
    ActKeepsConsistent(s, w, key, seen, projectEnabled);
    ActGrows(s, w, key, seen, projectEnabled);
  }

  ghost predicate OffBoardStays(s: Store, t: Store, keys: seq<string>) {
    forall key :: key !in keys ==> SameRecord(s, t, key)
  }

  lemma OneMoreTouched(synced: Store, before: Store, after: Store, keys: seq<string>, n: nat)
    requires 0 < n <= |keys| && OffBoardStays(synced, before, keys[..n - 1]) && SameButOne(before, after, keys[n - 1])
    ensures OffBoardStays(synced, after, keys[..n])
  {
    assert keys[..n] == keys[..n - 1] + [keys[n - 1]];
    forall key | key !in keys[..n] ensures SameRecord(synced, after, key) {
      assert SameRecord(synced, before, key) && SameRecord(before, after, key);
    }
  }

  lemma OwnsStays(s: Store, t: Store, key: string, threadId: nat)
    requires Grows(s, t) && Owns(s, key, threadId)
    ensures Owns(t, key, threadId)
  {
  }

  lemma GrowsIsTransitive(s: Store, t: Store, u: Store)
    requires Grows(s, t) && Grows(t, u)
    ensures Grows(s, u)
  {
  }

  lemma {:induction false} TraceKeepsConsistent(
    states: seq<Store>, worlds: nat -> World, keys: seq<string>, n: nat, projectEnabled: bool)
    requires Trace(states, worlds, keys, projectEnabled) && Consistent(states[0]) && n <= |keys|
    ensures Consistent(states[n]) && Grows(states[0], states[n]) && OffBoardStays(states[0], states[n], keys[..n])
  {
    if n > 0 {
      TraceKeepsConsistent(states, worlds, keys, n - 1, projectEnabled);
      var key, seen := keys[n - 1], states[0].metas[keys[n - 1]];
      OwnsStays(states[0], states[n - 1], key, seen.threadId);
      RoundKeepsConsistent(states[n - 1], worlds(n - 1), key, seen, projectEnabled, states[n]);
      OneMoreTouched(states[0], states[n - 1], states[n], keys, n);
      GrowsIsTransitive(states[0], states[n - 1], states[n]);
    }
  }

  lemma SameRecordTwice(s: Store, t: Store, u: Store, keys: seq<string>)
    requires OffBoardStays(s, t, keys) && OffBoardStays(t, u, keys)
    ensures OffBoardStays(s, u, keys)
  {
    forall key | key !in keys ensures SameRecord(s, u, key) {
      assert SameRecord(s, t, key) && SameRecord(t, u, key);
    }
  }

  /** A tick keeps the bindings consistent and leaves every issue that is not on the board alone. */
  lemma TickTouchesTheBoardOnly(s: Store, input: TickInput, projectEnabled: bool)
    requires Consistent(s)
    ensures Consistent(Tick(s, input, projectEnabled))
    ensures OffBoardStays(s, Tick(s, input, projectEnabled), SyncedKeys(input.Items()))
  {
    var keys := SyncedKeys(input.Items());
    SyncKeepsConsistent(s, input.whileSyncing, input.Items());
    var states := TickIsATrace(s, input, projectEnabled);
    TraceKeepsConsistent(states, input.whileActing, keys, |keys|, projectEnabled);
    assert keys[..|keys|] == keys;
    SameRecordTwice(s, states[0], states[|keys|], keys);
  }

  // ----- runs of ticks -----

  function Ticks(s: Store, inputs: seq<TickInput>, projectEnabled: bool): Store
    decreases |inputs|
  {
    if inputs == [] then s else Ticks(Tick(s, inputs[0], projectEnabled), inputs[1..], projectEnabled)
  }

  predicate Readable(input: TickInput) {
    input.Items() != []
  }

  /** Ticks whose board cannot be read, or is empty, can be left out of any run: they dispatch nothing from the
      local records and change none of them. */
  lemma {:induction false} UnreadableTicksDoNotMatter(s: Store, inputs: seq<TickInput>, projectEnabled: bool)
    ensures Ticks(s, inputs, projectEnabled) == Ticks(s, Filter(inputs, Readable), projectEnabled)
    decreases |inputs|
  {
    if inputs != [] {
      if Readable(inputs[0]) {
        UnreadableTicksDoNotMatter(Tick(s, inputs[0], projectEnabled), inputs[1..], projectEnabled);
        assert ([inputs[0]] + Filter(inputs[1..], Readable))[1..] == Filter(inputs[1..], Readable);
      } else {
        UnreadableTicksDoNotMatter(s, inputs[1..], projectEnabled);
        assert Tick(s, inputs[0], projectEnabled) == s;
      }
    }
  }
}
