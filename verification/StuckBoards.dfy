/** A board that stays at In Progress while nothing works on the issue: exactly when the issue settles at Rework. */
module StuckBoards {
  import opened Basics
  import opened IssueScheduler
  import opened SchedulerRuns
  import opened ThreadOwnership

  /** Nothing runs, waits or lives for the issue on any of its possible threads, and nothing awaits approval. */
  ghost predicate Idle(w: World, key: string, threads: set<nat>) {
    && key !in w.processes && key !in w.pendingApprovals
    && (forall t :: t in threads ==> t !in w.running && t !in w.queued && t !in w.threadProcesses)
    && InThreads(OfferOf(w.offered, key), threads) && InThreads(OfferOf(w.offeredAgain, key), threads)
  }

  predicate InThreads(threadId: nat, threads: set<nat>) {
    threadId == 0 || threadId in threads
  }

  ghost predicate ThreadKnown(s: Store, key: string, threads: set<nat>) {
    key in s.metas ==> InThreads(s.metas[key].threadId, threads)
  }

  ghost predicate OnlyInProgress(items: seq<BoardItem>, key: string) {
    forall i :: 0 <= i < |items| && Usable(items[i]) && KeyOf(items[i]) == key ==> items[i].state == "In Progress"
  }

  /** The board lists the issue, keeps saying In Progress, also when asked again, and the issue is idle. */
  ghost predicate Stuck(input: TickInput, key: string, threads: set<nat>) {
    && key in SyncedKeys(input.Items()) && OnlyInProgress(input.Items(), key)
    && (forall n: nat :: Idle(input.whileSyncing(n), key, threads))
    && (forall n: nat :: Idle(input.whileActing(n), key, threads))
    && (forall n: nat :: !ApprovedBy(input.whileActing(n), key))
  }

  predicate IsRework(s: Store, key: string) {
    key in s.metas && s.metas[key].status == "Rework"
  }

  /** What a stuck issue's record says once the board is mirrored. */
  predicate StuckStatus(status: string) {
    status == "Rework" || status == "In Progress"
  }

  lemma IdleIsInactive(w: World, key: string, threads: set<nat>, threadId: nat)
    requires Idle(w, key, threads) && InThreads(threadId, threads)
    ensures !w.Active(key, threadId)
  {
  }

  /** Mirroring keeps a local Rework and otherwise takes over In Progress. */
  lemma {:induction false} SyncOfStuck(
    s: Store, worlds: nat -> World, items: seq<BoardItem>, key: string, threads: set<nat>)
    requires OnlyInProgress(items, key) && ThreadKnown(s, key, threads)
    requires forall n: nat :: Idle(worlds(n), key, threads)
    ensures var t := SyncItems(s, worlds, items);
      && ThreadKnown(t, key, threads)
      && (IsRework(s, key) ==> IsRework(t, key) && t.metas[key].runtimeStatus == s.metas[key].runtimeStatus)
      && (!IsRework(s, key) && key in SyncedKeys(items) ==> key in t.metas && t.metas[key].status == "In Progress")
      && (!IsRework(s, key) ==> !IsRework(t, key))
  {
    if items != [] {
      SyncOfStuck(s, worlds, items[..|items| - 1], key, threads);
      SyncRecords(s, worlds, items[..|items| - 1]);
      assert Idle(worlds(|items| - 1), key, threads);
    }
  }

  // ----- rounds of other issues -----

  /** What reconciling makes of a record nobody works for. */
  function Reset(m: Meta): Meta {
    m.(status := "Rework", runtimeStatus := "")
  }

  /** The record is as before, or it has been reset, which never happens to a disowned one. */
  ghost predicate Nudged(s: Store, t: Store, key: string) {
    && key in s.metas && key in t.metas
    && (t.metas[key] == s.metas[key] || (t.metas[key] == Reset(s.metas[key]) && !Disowned(s, key)))
  }

  /** Reconciling on behalf of another issue hits this one only through its own, idle thread. */
  lemma ReconcileOfOther(s: Store, w: World, at: string, key: string, threads: set<nat>)
    requires at != key && at in s.metas && key in s.metas && NoStrayThread(s, key)
    requires Idle(w, key, threads) && ThreadKnown(s, key, threads)
    ensures Nudged(s, Reconcile(s, w, at, s.metas[at].threadId), key)
  {
    var threadId := s.metas[at].threadId;
    if Reaches(s, at, key) {
      assert s.metas[key].threadId == threadId;
      IdleIsInactive(w, key, threads, threadId);
    }
  }

  lemma ReactionOfOther(s: Store, w: World, at: string, status: string, key: string, threads: set<nat>)
    requires at != key && at in s.metas && at in s.closed && key in s.metas && NoStrayThread(s, key)
    requires Idle(w, key, threads) && ThreadKnown(s, key, threads)
    ensures Nudged(s, React(s, w, at, s.metas[at].threadId, status, true), key)
  {
    if status == "In Progress" {
      ReconcileOfOther(s, w, at, key, threads);
    }
  }

  lemma RoundOfOther(s: Store, w: World, at: string, seenAt: Meta, t: Store, key: string, threads: set<nat>)
    requires Acts(s, w, at, seenAt, true, t) && at != key && key in s.metas && NoStrayThread(s, key)
    requires seenAt.threadId > 0 ==> s.metas[at].threadId == seenAt.threadId
    requires Idle(w, key, threads) && ThreadKnown(s, key, threads)
    ensures Nudged(s, t, key)
  {
    if seenAt.threadId == 0 && !Finished(seenAt.status) {
      var bound := EnsureThread(s, at, OfferOf(w.offered, at));
      EnsureKeepsLinks(s, at, OfferOf(w.offered, at), key);
      assert bound.metas[key] == s.metas[key];
      ReactionOfOther(bound, w, at, seenAt.status, key, threads);
    } else if seenAt.threadId > 0 {
      ReactionOfOther(s, w, at, seenAt.status, key, threads);
    }
  }

  // ----- rounds of the issue itself -----

  /** Without approval a dispatch at most gives the issue a thread. */
  lemma OwnDispatch(s: Store, w: World, key: string, threadId: nat, status: string, threads: set<nat>)
    requires key in s.metas && key in s.closed && !ApprovedBy(w, key) && Startable(status)
    requires ThreadKnown(s, key, threads) && InThreads(OfferOf(w.offeredAgain, key), threads)
    ensures var t := Dispatch(s, w, key, threadId, status, true);
      && key in t.metas && ThreadKnown(t, key, threads)
      && t.metas[key] == s.metas[key].(threadId := t.metas[key].threadId)
  {
  }

  /** Reconciling resets the issue if its record is not disowned, and does not reach it otherwise. */
  lemma OwnReconcile(s: Store, w: World, key: string, threads: set<nat>)
    requires key in s.metas && StuckStatus(s.metas[key].status)
    requires Idle(w, key, threads) && ThreadKnown(s, key, threads)
    ensures var t := Reconcile(s, w, key, s.metas[key].threadId);
      && key in t.metas && t.metas[key].threadId == s.metas[key].threadId
      && (if Disowned(s, key) then t.metas[key] == s.metas[key] else t.metas[key].status == "Rework")
  {
    IdleIsInactive(w, key, threads, s.metas[key].threadId);
  }

  /** After a round of its own. */
  ghost predicate Turned(s: Store, t: Store, key: string, threads: set<nat>)
    requires key in s.metas
  {
    && key in t.metas && ThreadKnown(t, key, threads)
    && t.metas[key].status == if Disowned(s, key) then s.metas[key].status else "Rework"
  }

  lemma OwnReaction(s: Store, w: World, key: string, seen: Meta, threads: set<nat>)
    requires key in s.metas && key in s.closed && Idle(w, key, threads) && !ApprovedBy(w, key)
    requires ThreadKnown(s, key, threads) && StuckStatus(seen.status)
    requires s.metas[key].status == "Rework" || s.metas[key].status == seen.status
    ensures Turned(s, React(s, w, key, s.metas[key].threadId, seen.status, true), key, threads)
  {
    if seen.status == "Rework" {
      OwnDispatch(s, w, key, s.metas[key].threadId, seen.status, threads);
    } else {
      OwnReconcile(s, w, key, threads);
    }
  }

  lemma OwnRound(s: Store, w: World, key: string, seen: Meta, t: Store, threads: set<nat>)
    requires Acts(s, w, key, seen, true, t) && Idle(w, key, threads) && !ApprovedBy(w, key)
    requires seen.threadId > 0 ==> s.metas[key].threadId == seen.threadId
    requires ThreadKnown(s, key, threads) && StuckStatus(seen.status)
    requires s.metas[key].status == "Rework" || s.metas[key].status == seen.status
    ensures Turned(s, t, key, threads)
  {
    if seen.threadId == 0 {
      var bound := EnsureThread(s, key, OfferOf(w.offered, key));
      EnsureKeepsLinks(s, key, OfferOf(w.offered, key), key);
      OwnReaction(bound, w, key, seen, threads);
    } else {
      OwnReaction(s, w, key, seen, threads);
    }
  }

  // ----- a tick -----

  /** The status after some rounds of a tick that saw `seen`; `done` says that the issue had its own round. */
  ghost predicate Settling(status: string, seen: Meta, disowned: bool, done: bool) {
    if disowned || seen.status == "Rework" then status == seen.status
    else if done then status == "Rework"
    else StuckStatus(status)
  }

  ghost predicate Settled(s: Store, key: string, threads: set<nat>, seen: Meta, disowned: bool, done: bool) {
    && key in s.metas && ThreadKnown(s, key, threads) && NoStrayThread(s, key)
    && (Disowned(s, key) <==> disowned)
    && Settling(s.metas[key].status, seen, disowned, done)
  }

  lemma RoundOfStuck(
    s: Store, w: World, at: string, seenAt: Meta, t: Store, key: string, seen: Meta, threads: set<nat>, disowned: bool,
    done: bool)
    requires Acts(s, w, at, seenAt, true, t) && (seenAt.threadId > 0 ==> s.metas[at].threadId == seenAt.threadId)
    requires at == key ==> seenAt == seen
    requires Idle(w, key, threads) && !ApprovedBy(w, key) && StuckStatus(seen.status)
    requires Settled(s, key, threads, seen, disowned, done)
    ensures Settled(t, key, threads, seen, disowned, done || at == key)
  {
    ActKeepsLinks(s, w, at, seenAt, true, t, key);
    if at == key {
      OwnRound(s, w, key, seen, t, threads);
    } else {
      RoundOfOther(s, w, at, seenAt, t, key, threads);
    }
  }

  /** The next round of a trace that began at `start` and has had the rounds of `before`. */
  lemma NextOfStuck(
    start: Store, s: Store, w: World, at: string, t: Store, before: seq<string>, key: string, threads: set<nat>)
    requires at in start.metas && Acts(s, w, at, start.metas[at], true, t) && KeepsLinks(start, s, at)
    requires Idle(w, key, threads) && !ApprovedBy(w, key)
    requires key in start.metas && StuckStatus(start.metas[key].status)
    requires Settled(s, key, threads, start.metas[key], Disowned(start, key), key in before)
    ensures Settled(t, key, threads, start.metas[key], Disowned(start, key), key in before + [at])
  {
    RoundOfStuck(
      s, w, at, start.metas[at], t, key, start.metas[key], threads, Disowned(start, key), key in before);
  }

  ghost predicate IdleThroughout(worlds: nat -> World, key: string, threads: set<nat>) {
    forall i: nat :: Idle(worlds(i), key, threads) && !ApprovedBy(worlds(i), key)
  }

  lemma {:induction false} TraceOfStuck(
    states: seq<Store>, worlds: nat -> World, keys: seq<string>, n: nat, key: string, threads: set<nat>)
    requires Trace(states, worlds, keys, true) && n <= |keys|
    requires IdleThroughout(worlds, key, threads)
    requires key in states[0].metas && ThreadKnown(states[0], key, threads) && NoStrayThread(states[0], key)
    requires StuckStatus(states[0].metas[key].status)
    ensures Settled(states[n], key, threads, states[0].metas[key], Disowned(states[0], key), key in keys[..n])
  {
    if n > 0 {
      TraceOfStuck(states, worlds, keys, n - 1, key, threads);
      TraceKeepsLinks(states, worlds, keys, 0, n - 1, true, keys[n - 1]);
      NextOfStuck(
        states[0], states[n - 1], worlds(n - 1), keys[n - 1], states[n], keys[..n - 1], key, threads);
      assert keys[..n] == keys[..n - 1] + [keys[n - 1]];
    }
  }

  /** One tick of a stuck board. */
  lemma StuckTick(s: Store, input: TickInput, key: string, threads: set<nat>)
    requires NoStrayThread(s, key) && ThreadKnown(s, key, threads) && Stuck(input, key, threads)
    ensures var t := Tick(s, input, true);
      && (IsRework(t, key) <==> IsRework(s, key) || !Disowned(s, key))
      && ThreadKnown(t, key, threads) && NoStrayThread(t, key) && (Disowned(t, key) <==> Disowned(s, key))
  {
    var keys := SyncedKeys(input.Items());
    SyncOfStuck(s, input.whileSyncing, input.Items(), key, threads);
    SyncKeepsLinks(s, input.whileSyncing, input.Items(), key);
    var states := TickIsATrace(s, input, true);
    TraceOfStuck(states, input.whileActing, keys, |keys|, key, threads);
    assert keys[..|keys|] == keys;
  }

  // ----- any number of ticks -----

  /** Whatever the other issues and their records are: any number of ticks of a stuck board has the issue at Rework
      if and only if it was there before or its record names no thread that is bound to another issue or to none. */
  lemma {:induction false} StuckIssueSettlesExactlyWhen(s: Store, inputs: seq<TickInput>, key: string, threads: set<nat>)
    requires NoStrayThread(s, key) && ThreadKnown(s, key, threads)
    requires inputs != [] && forall i :: 0 <= i < |inputs| ==> Stuck(inputs[i], key, threads)
    ensures IsRework(Ticks(s, inputs, true), key) <==> IsRework(s, key) || !Disowned(s, key)
    decreases |inputs|
  {
    StuckTick(s, inputs[0], key, threads);
    if |inputs| > 1 {
      StuckIssueSettlesExactlyWhen(Tick(s, inputs[0], true), inputs[1..], key, threads);
    } else {
      assert inputs[1..] == [];
    }
  }

  lemma {:induction false} DisownedIssueNeverSettles(s: Store, inputs: seq<TickInput>, key: string, threads: set<nat>)
    requires NoStrayThread(s, key) && Disowned(s, key) && ThreadKnown(s, key, threads)
    requires forall i :: 0 <= i < |inputs| ==> Stuck(inputs[i], key, threads)
    ensures IsRework(Ticks(s, inputs, true), key) <==> IsRework(s, key)
  {
    if inputs != [] {
      StuckIssueSettlesExactlyWhen(s, inputs, key, threads);
    }
  }

  lemma NoNewRequestTwice(s: Store, t: Store, u: Store, key: string)
    requires NoNewRequest(s, t, key) && NoNewRequest(t, u, key)
    ensures NoNewRequest(s, u, key)
  {
    forall j | |s.requests| <= j < |u.requests| ensures u.requests[j].issueKey != key {
      if j < |t.requests| {
        assert u.requests[j] == t.requests[j];
      }
    }
  }

  /** However long the board stays stuck, the issue is never started. */
  lemma {:induction false} StuckBoardStartsNothing(s: Store, inputs: seq<TickInput>, key: string, threads: set<nat>)
    requires forall i :: 0 <= i < |inputs| ==> Stuck(inputs[i], key, threads)
    ensures NoNewRequest(s, Ticks(s, inputs, true), key)
    decreases |inputs|
  {
    if inputs != [] {
      var t := Tick(s, inputs[0], true);
      NothingStartsWithoutApproval(s, inputs[0], key);
      StuckBoardStartsNothing(t, inputs[1..], key, threads);
      NoNewRequestTwice(s, t, Ticks(t, inputs[1..], true), key);
    }
  }

  /** An issue whose record is not disowned goes to Rework with the first tick and stays there, and is never started. */
  lemma StuckBoardStaysSettled(s: Store, inputs: seq<TickInput>, key: string, threads: set<nat>)
    requires NoStrayThread(s, key) && !Disowned(s, key) && ThreadKnown(s, key, threads)
    requires forall i :: 0 <= i < |inputs| ==> Stuck(inputs[i], key, threads)
    ensures NoNewRequest(s, Ticks(s, inputs, true), key)
    ensures inputs != [] || IsRework(s, key) ==> IsRework(Ticks(s, inputs, true), key)
  {
    StuckBoardStartsNothing(s, inputs, key, threads);
    if inputs != [] {
      StuckIssueSettlesExactlyWhen(s, inputs, key, threads);
    }
  }

  // ----- a Rework that no other record can touch -----

  predicate SameButThread(a: Meta, b: Meta) {
    b == a.(threadId := b.threadId)
  }

  lemma OwnRoundOfRework(s: Store, w: World, key: string, seen: Meta, t: Store)
    requires Acts(s, w, key, seen, true, t) && seen.status == "Rework" && !ApprovedBy(w, key)
    ensures key in t.metas && SameButThread(s.metas[key], t.metas[key])
  {
  }

  lemma {:induction false} TraceKeepsRework(
    states: seq<Store>, worlds: nat -> World, keys: seq<string>, n: nat, key: string)
    requires Trace(states, worlds, keys, true) && Consistent(states[0]) && IsRework(states[0], key) && n <= |keys|
    requires forall i: nat :: !ApprovedBy(worlds(i), key)
    ensures key in states[n].metas && SameButThread(states[0].metas[key], states[n].metas[key])
  {
    if n > 0 {
      TraceKeepsRework(states, worlds, keys, n - 1, key);
      TraceKeepsConsistent(states, worlds, keys, n - 1, true);
      var at, seenAt := keys[n - 1], states[0].metas[keys[n - 1]];
      if at == key {
        OwnRoundOfRework(states[n - 1], worlds(n - 1), key, seenAt, states[n]);
      } else {
        OwnsStays(states[0], states[n - 1], at, seenAt.threadId);
        RoundKeepsConsistent(states[n - 1], worlds(n - 1), at, seenAt, true, states[n]);
        assert SameRecord(states[n - 1], states[n], key);
      }
    }
  }

  lemma TickKeepsRework(s: Store, input: TickInput, key: string, threads: set<nat>)
    requires Consistent(s) && IsRework(s, key) && ThreadKnown(s, key, threads) && Stuck(input, key, threads)
    ensures var t := Tick(s, input, true); key in t.metas && t.metas[key].runtimeStatus == s.metas[key].runtimeStatus
  {
    var keys := SyncedKeys(input.Items());
    SyncKeepsConsistent(s, input.whileSyncing, input.Items());
    SyncOfStuck(s, input.whileSyncing, input.Items(), key, threads);
    var states := TickIsATrace(s, input, true);
    TraceKeepsRework(states, input.whileActing, keys, |keys|, key);
  }

  /** One tick takes a stuck issue whose record is not disowned to Rework from any local state, or from no record at
      all, and starts nothing for it; with consistent bindings an issue already at Rework keeps its runtime state too. */
  lemma StuckBoardSettles(s: Store, input: TickInput, key: string, threads: set<nat>)
    requires NoStrayThread(s, key) && !Disowned(s, key) && ThreadKnown(s, key, threads) && Stuck(input, key, threads)
    ensures var t := Tick(s, input, true);
      && IsRework(t, key) && NoNewRequest(s, t, key)
      && NoStrayThread(t, key) && !Disowned(t, key) && ThreadKnown(t, key, threads)
      && (Consistent(s) ==> Consistent(t))
      && (Consistent(s) && IsRework(s, key) ==> t.metas[key].runtimeStatus == s.metas[key].runtimeStatus)
  {
    StuckTick(s, input, key, threads);
    NothingStartsWithoutApproval(s, input, key);
    if Consistent(s) {
      TickTouchesTheBoardOnly(s, input, true);
      if IsRework(s, key) {
        TickKeepsRework(s, input, key, threads);
      }
    }
  }
}
