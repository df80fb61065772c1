/** Reconciliation in terms of what the scheduler sees: when an issue in progress is sent back to Rework, when it is
    marked running, and when it is left alone. */
module ReconcileRules {
  import opened Basics
  import opened IssueScheduler
  import opened SchedulerRuns
  import opened ThreadOwnership
  import B = StuckBoards
  import Decimal

  /** A process, a running item or a queued item for the issue or the thread. */
  predicate LiveWork(w: World, key: string, threadId: nat) {
    key in w.processes || (threadId > 0 && (threadId in w.threadProcesses || threadId in w.running || threadId in w.queued))
  }

  predicate LiveProcess(w: World, key: string, threadId: nat) {
    key in w.processes || (threadId > 0 && threadId in w.threadProcesses)
  }

  /** The issue waits for an approval that is still pending. */
  predicate AwaitsApproval(w: World, key: string, runtimeStatus: string) {
    runtimeStatus == "awaiting_high_risk_approval" && key in w.pendingApprovals
  }

  /** In progress, or in one of the runtime states of a live run. */
  predicate Started(m: Meta) {
    m.status == "In Progress" || m.runtimeStatus in {"queued", "running", "verifying", "awaiting_high_risk_approval"}
  }

  /** A record is reset exactly when it is started, awaits no pending approval and has no live work; it is marked
      running exactly when it is in progress without a runtime state and has a live process. */
  lemma ReconciledRecord(w: World, key: string, threadId: nat, m: Meta)
    ensures ReconcileMeta(w, key, threadId, m) ==
      if Started(m) && !AwaitsApproval(w, key, m.runtimeStatus) && !LiveWork(w, key, threadId)
      then m.(status := "Rework", runtimeStatus := "")
      else if m.status == "In Progress" && m.runtimeStatus == "" && LiveProcess(w, key, threadId)
      then m.(runtimeStatus := "running")
      else m
  {
    assert |""| != |"awaiting_high_risk_approval"|;
  }

  // ----- what a round does to the record of an issue that has a thread -----

  predicate BoundTo(s: Store, threadId: nat, key: string) {
    threadId > 0 && threadId in s.bindings && s.bindings[threadId] == key
  }

  ghost predicate SameThreadsOf(s: Store, t: Store, key: string) {
    forall threadId :: BoundTo(s, threadId, key) <==> BoundTo(t, threadId, key)
  }

  /** Threads that records gain are bound to their issues. */
  ghost predicate GainsAreOwned(s: Store, t: Store) {
    forall key :: key in t.metas && t.metas[key].threadId > 0 && (key in s.metas ==> s.metas[key].threadId == 0) ==>
      Owns(t, key, t.metas[key].threadId)
  }

  /** Threads stay, those gained are owned, and no thread joins or leaves the issue. */
  ghost predicate Steady(s: Store, t: Store, key: string) {
    && ThreadsStay(s, t) && GainsAreOwned(s, t) && SameThreadsOf(s, t, key)
    && forall threadId :: threadId in s.bindings ==> threadId in t.bindings && t.bindings[threadId] == s.bindings[threadId]
  }

  lemma SteadyIsTransitive(s: Store, t: Store, u: Store, key: string)
    requires Steady(s, t, key) && Steady(t, u, key)
    ensures Steady(s, u, key)
  {
    forall k | k in u.metas && u.metas[k].threadId > 0 && (k in s.metas ==> s.metas[k].threadId == 0)
      ensures Owns(u, k, u.metas[k].threadId)
    {
      if k in t.metas && t.metas[k].threadId > 0 {
        assert Owns(t, k, t.metas[k].threadId);
      }
    }
    forall k | k in s.metas
      ensures k in u.metas && (s.metas[k].threadId > 0 ==> u.metas[k].threadId == s.metas[k].threadId)
    {
      assert k in t.metas;
    }
  }

  lemma SameThreadsIsSteady(s: Store, t: Store, key: string)
    requires SameThreads(s, t)
    ensures Steady(s, t, key)
  {
    SameThreadsKeepLinks(s, t, key);
    forall k ensures k in t.metas <==> k in s.metas {
      assert k in t.metas.Keys <==> k in s.metas.Keys;
    }
  }

  lemma EnsureIsSteady(s: Store, at: string, created: nat, key: string)
    requires at in s.metas && key in s.metas && s.metas[key].threadId > 0
    ensures Steady(s, EnsureThread(s, at, created), key)
  {
  }

  lemma DispatchIsSteady(
    s: Store, w: World, at: string, threadId: nat, status: string, projectEnabled: bool, key: string)
    requires at in s.metas && at in s.closed && key in s.metas && s.metas[key].threadId > 0
    ensures Steady(s, Dispatch(s, w, at, threadId, status, projectEnabled), key)
  {
    if threadId == 0 {
      var bound := EnsureThread(s, at, OfferOf(w.offeredAgain, at));
      EnsureIsSteady(s, at, OfferOf(w.offeredAgain, at), key);
      SameThreadsIsSteady(bound, Enqueue(bound, w, at, bound.metas[at].threadId), key);
      SteadyIsTransitive(s, bound, Enqueue(bound, w, at, bound.metas[at].threadId), key);
    } else {
      SameThreadsIsSteady(s, s, key);
      SameThreadsIsSteady(s, Enqueue(s, w, at, threadId), key);
    }
  }

  lemma ReactIsSteady(
    s: Store, w: World, at: string, threadId: nat, status: string, projectEnabled: bool, key: string)
    requires at in s.metas && at in s.closed && key in s.metas && s.metas[key].threadId > 0
    ensures Steady(s, React(s, w, at, threadId, status, projectEnabled), key)
  {
    if Startable(status) {
      DispatchIsSteady(s, w, at, threadId, status, projectEnabled, key);
    } else {
      SameThreadsIsSteady(s, React(s, w, at, threadId, status, projectEnabled), key);
    }
  }

  lemma ActIsSteady(s: Store, w: World, at: string, seen: Meta, projectEnabled: bool, t: Store, key: string)
    requires Acts(s, w, at, seen, projectEnabled, t) && key in s.metas && s.metas[key].threadId > 0
    ensures Steady(s, t, key)
  {
    if seen.threadId == 0 && !Finished(seen.status) {
      var bound := EnsureThread(s, at, OfferOf(w.offered, at));
      EnsureIsSteady(s, at, OfferOf(w.offered, at), key);
      ReactIsSteady(bound, w, at, bound.metas[at].threadId, seen.status, projectEnabled, key);
      SteadyIsTransitive(s, bound, t, key);
    } else {
      ReactIsSteady(s, w, at, seen.threadId, seen.status, projectEnabled, key);
    }
  }

  lemma {:induction false} TraceIsSteady(
    states: seq<Store>, worlds: nat -> World, keys: seq<string>, n: nat, projectEnabled: bool, key: string)
    requires Trace(states, worlds, keys, projectEnabled) && n <= |keys|
    requires key in states[0].metas && states[0].metas[key].threadId > 0
    ensures Steady(states[0], states[n], key)
  {
    if n == 0 {
      SameThreadsIsSteady(states[0], states[0], key);
    } else {
      TraceIsSteady(states, worlds, keys, n - 1, projectEnabled, key);
      ActIsSteady(
        states[n - 1], worlds(n - 1), keys[n - 1], states[0].metas[keys[n - 1]], projectEnabled, states[n], key);
      SteadyIsTransitive(states[0], states[n - 1], states[n], key);
    }
  }

  lemma ReactionOnOther(
    s: Store, w: World, at: string, threadId: nat, status: string, projectEnabled: bool, key: string)
    requires at != key && at in s.metas && at in s.closed && key in s.metas
    ensures key in React(s, w, at, threadId, status, projectEnabled).metas
    ensures React(s, w, at, threadId, status, projectEnabled).metas[key]
         == if status == "In Progress" && BoundTo(s, threadId, key)
            then ReconcileMeta(w, key, threadId, s.metas[key]) else s.metas[key]
  {
  }

  /** A round reaches the record of an issue only by reconciling a thread bound to it, or as the issue's own round. */
  lemma RoundOfOtherIssue(
    s: Store, w: World, at: string, seenAt: Meta, projectEnabled: bool, t: Store, key: string)
    requires Acts(s, w, at, seenAt, projectEnabled, t) && at != key && key in s.metas && s.metas[key].threadId > 0
    requires seenAt.threadId == 0 ==> Owns(s, at, s.metas[at].threadId)
    ensures key in t.metas
    ensures t.metas[key] == if seenAt.status == "In Progress" && BoundTo(s, seenAt.threadId, key)
                            then ReconcileMeta(w, key, seenAt.threadId, s.metas[key]) else s.metas[key]
  {
    if seenAt.threadId == 0 && !Finished(seenAt.status) {
      var bound := EnsureThread(s, at, OfferOf(w.offered, at));
      assert bound.metas[key] == s.metas[key] && Owns(bound, at, bound.metas[at].threadId);
      ReactionOnOther(bound, w, at, bound.metas[at].threadId, seenAt.status, projectEnabled, key);
    } else {
      ReactionOnOther(s, w, at, seenAt.threadId, seenAt.status, projectEnabled, key);
    }
  }

  lemma RoundOfItself(s: Store, w: World, key: string, seen: Meta, projectEnabled: bool, t: Store)
    requires Acts(s, w, key, seen, projectEnabled, t) && seen.threadId > 0 && seen.status == "In Progress"
    ensures key in t.metas
    ensures t.metas[key] == if BoundTo(s, seen.threadId, key)
                            then ReconcileMeta(w, key, seen.threadId, s.metas[key]) else s.metas[key]
  {
  }

  // ----- a tick -----

  /** Round i reconciles a thread of the issue: its own thread in its own round, as a rule. */
  ghost predicate Concerns(synced: Store, keys: seq<string>, key: string, i: int)
    requires Recorded(synced, keys)
  {
    && 0 <= i < |keys| && synced.metas[keys[i]].status == "In Progress"
    && BoundTo(synced, synced.metas[keys[i]].threadId, key)
  }

  /** It finds no approval to wait for and no live work. */
  ghost predicate FindsNothing(synced: Store, worlds: nat -> World, keys: seq<string>, key: string, i: nat)
    requires Recorded(synced, keys) && key in synced.metas
  {
    && Concerns(synced, keys, key, i)
    && !AwaitsApproval(worlds(i), key, synced.metas[key].runtimeStatus)
    && !LiveWork(worlds(i), key, synced.metas[keys[i]].threadId)
  }

  ghost predicate FindsProcess(synced: Store, worlds: nat -> World, keys: seq<string>, key: string, i: nat)
    requires Recorded(synced, keys)
  {
    Concerns(synced, keys, key, i) && LiveProcess(worlds(i), key, synced.metas[keys[i]].threadId)
  }

  ghost predicate NothingFound(synced: Store, worlds: nat -> World, keys: seq<string>, key: string, n: nat)
    requires Recorded(synced, keys) && key in synced.metas
  {
    exists i: nat :: i < n && FindsNothing(synced, worlds, keys, key, i)
  }

  ghost predicate ProcessFound(synced: Store, worlds: nat -> World, keys: seq<string>, key: string, n: nat)
    requires Recorded(synced, keys)
  {
    exists i: nat :: i < n && FindsProcess(synced, worlds, keys, key, i)
  }

  /** The record of an issue in progress after rounds some of which found nothing, or a process. */
  function Reconciled(m: Meta, nothing: bool, process: bool): Meta {
    if nothing then m.(status := "Rework", runtimeStatus := "")
    else if process && m.runtimeStatus == "" then m.(runtimeStatus := "running")
    else m
  }

  lemma ReconciledAgain(w: World, key: string, threadId: nat, m: Meta, nothing: bool, process: bool)
    requires m.status == "In Progress"
    ensures ReconcileMeta(w, key, threadId, Reconciled(m, nothing, process)) == Reconciled(m,
      nothing || (!AwaitsApproval(w, key, m.runtimeStatus) && !LiveWork(w, key, threadId)),
      process || LiveProcess(w, key, threadId))
  {
    ReconciledRecord(w, key, threadId, Reconciled(m, nothing, process));
    assert |""| < |"running"| < |"awaiting_high_risk_approval"| && "Rework"[0] != "In Progress"[0];
  }

  lemma OneMoreLooked(synced: Store, worlds: nat -> World, keys: seq<string>, key: string, n: nat)
    requires Recorded(synced, keys) && key in synced.metas
    ensures NothingFound(synced, worlds, keys, key, n + 1) <==>
      NothingFound(synced, worlds, keys, key, n) || FindsNothing(synced, worlds, keys, key, n)
    ensures ProcessFound(synced, worlds, keys, key, n + 1) <==>
      ProcessFound(synced, worlds, keys, key, n) || FindsProcess(synced, worlds, keys, key, n)
  {
    if NothingFound(synced, worlds, keys, key, n) {
      var i: nat :| i < n && FindsNothing(synced, worlds, keys, key, i);
      assert i < n + 1;
    }
    if ProcessFound(synced, worlds, keys, key, n) {
      var i: nat :| i < n && FindsProcess(synced, worlds, keys, key, i);
      assert i < n + 1;
    }
  }

  lemma RoundReconciles(
    states: seq<Store>, worlds: nat -> World, keys: seq<string>, n: nat, projectEnabled: bool, key: string)
    requires Trace(states, worlds, keys, projectEnabled) && n < |keys|
    requires key in states[0].metas && states[0].metas[key].threadId > 0 && states[0].metas[key].status == "In Progress"
    ensures key in states[n].metas && key in states[n + 1].metas
    ensures states[n + 1].metas[key] == if Concerns(states[0], keys, key, n)
      then ReconcileMeta(worlds(n), key, states[0].metas[keys[n]].threadId, states[n].metas[key])
      else states[n].metas[key]
  {
    TraceIsSteady(states, worlds, keys, n, projectEnabled, key);
    var at, seenAt := keys[n], states[0].metas[keys[n]];
    assert BoundTo(states[0], seenAt.threadId, key) <==> BoundTo(states[n], seenAt.threadId, key);
    if at == key {
      RoundOfItself(states[n], worlds(n), key, seenAt, projectEnabled, states[n + 1]);
    } else {
      RoundOfOtherIssue(states[n], worlds(n), at, seenAt, projectEnabled, states[n + 1], key);
    }
  }

  lemma {:induction false} TraceReconciles(
    states: seq<Store>, worlds: nat -> World, keys: seq<string>, n: nat, projectEnabled: bool, key: string)
    requires Trace(states, worlds, keys, projectEnabled) && n <= |keys|
    requires key in states[0].metas && states[0].metas[key].threadId > 0 && states[0].metas[key].status == "In Progress"
    ensures key in states[n].metas && states[n].metas[key] == Reconciled(states[0].metas[key],
      NothingFound(states[0], worlds, keys, key, n), ProcessFound(states[0], worlds, keys, key, n))
  {
    if n > 0 {
      TraceReconciles(states, worlds, keys, n - 1, projectEnabled, key);
      RoundReconciles(states, worlds, keys, n - 1, projectEnabled, key);
      OneMoreLooked(states[0], worlds, keys, key, n - 1);
      if Concerns(states[0], keys, key, n - 1) {
        ReconciledAgain(worlds(n - 1), key, states[0].metas[keys[n - 1]].threadId, states[0].metas[key],
          NothingFound(states[0], worlds, keys, key, n - 1), ProcessFound(states[0], worlds, keys, key, n - 1));
      }
    }
  }

  /** What a tick makes of an issue that is in progress with a thread once the board is mirrored, from any store: it is
      reset if and only if some round that concerns it finds no approval to wait for and no live work, and it is marked
      running if and only if none does, it had no runtime state, and some such round finds a process. */
  lemma {:induction false} TickReconciles(s: Store, input: TickInput, projectEnabled: bool, key: string)
    requires var synced := SyncItems(s, input.whileSyncing, input.Items());
      key in synced.metas && synced.metas[key].threadId > 0 && synced.metas[key].status == "In Progress"
    ensures var synced, t := SyncItems(s, input.whileSyncing, input.Items()), Tick(s, input, projectEnabled);
      var keys := SyncedKeys(input.Items());
      && Recorded(synced, keys) && key in t.metas
      && t.metas[key] == Reconciled(synced.metas[key],
           NothingFound(synced, input.whileActing, keys, key, |keys|),
           ProcessFound(synced, input.whileActing, keys, key, |keys|))
  {
    SyncRecords(s, input.whileSyncing, input.Items());
    var states := TickIsATrace(s, input, projectEnabled);
    TraceReconciles(states, input.whileActing, SyncedKeys(input.Items()), |SyncedKeys(input.Items())|, projectEnabled, key);
  }

  // ----- issues at work -----

  /** The board's word is taken over unless it says In Progress for an issue that is at Rework here and has no live
      work. */
  lemma SyncedStatusExactlyWhen(w: World, key: string, projectState: string, meta: Meta)
    ensures ResolveSynced(w, key, projectState, meta) ==
      if projectState == "" || (projectState == "In Progress" && meta.status == "Rework" && !LiveWork(w, key, meta.threadId))
      then meta.status else projectState
  {
  }

  lemma {:induction false} SyncKeepsInProgress(s: Store, worlds: nat -> World, items: seq<BoardItem>, key: string)
    requires B.OnlyInProgress(items, key) && key in s.metas && s.metas[key].status == "In Progress"
    ensures var t := SyncItems(s, worlds, items);
      key in t.metas && t.metas[key] == s.metas[key].(planState := t.metas[key].planState)
  {
    if items != [] {
      SyncKeepsInProgress(s, worlds, items[..|items| - 1], key);
    }
  }

  /** Something keeps the issue from being reset. */
  ghost predicate Busy(w: World, key: string, m: Meta) {
    AwaitsApproval(w, key, m.runtimeStatus) || LiveWork(w, key, m.threadId)
  }

  lemma BusyIsNotReset(synced: Store, worlds: nat -> World, keys: seq<string>, key: string)
    requires Recorded(synced, keys) && key in synced.metas && NoStrayThread(synced, key)
    requires forall n: nat :: Busy(worlds(n), key, synced.metas[key])
    ensures !NothingFound(synced, worlds, keys, key, |keys|)
  {
    forall i: nat | i < |keys| ensures !FindsNothing(synced, worlds, keys, key, i) {
      assert Busy(worlds(i), key, synced.metas[key]);
      assert Concerns(synced, keys, key, i) && keys[i] != key ==> Reaches(synced, keys[i], key);
    }
  }

  /** The same record, except that a plan state may be mirrored and a missing runtime state may become running. */
  ghost predicate StillAtWork(m: Meta, later: Meta) {
    && later.status == m.status && later.threadId == m.threadId
    && (later.runtimeStatus == m.runtimeStatus || (m.runtimeStatus == "" && later.runtimeStatus == "running"))
  }

  lemma BusyTick(s: Store, input: TickInput, projectEnabled: bool, key: string)
    requires key in s.metas && s.metas[key].status == "In Progress" && s.metas[key].threadId > 0
    requires NoStrayThread(s, key) && B.OnlyInProgress(input.Items(), key)
    requires forall n: nat :: Busy(input.whileActing(n), key, s.metas[key])
    ensures var t := Tick(s, input, projectEnabled); key in t.metas && StillAtWork(s.metas[key], t.metas[key])
  {
    var synced := SyncItems(s, input.whileSyncing, input.Items());
    SyncKeepsInProgress(s, input.whileSyncing, input.Items(), key);
    SyncKeepsLinks(s, input.whileSyncing, input.Items(), key);
    SyncRecords(s, input.whileSyncing, input.Items());
    forall n: nat ensures Busy(input.whileActing(n), key, synced.metas[key]) {
      assert Busy(input.whileActing(n), key, s.metas[key]);
    }
    BusyIsNotReset(synced, input.whileActing, SyncedKeys(input.Items()), key);
    TickReconciles(s, input, projectEnabled, key);
  }

  lemma StillBusy(w: World, key: string, m: Meta, later: Meta)
    requires Busy(w, key, m) && StillAtWork(m, later)
    ensures Busy(w, key, later)
  {
    assert |""| != |"awaiting_high_risk_approval"|;
  }

  /** An issue in progress that waits for a pending approval or has live work keeps its status, its thread and what it
      waits for over any number of ticks, as long as the board does not move it. */
  lemma {:induction false} BusyIssueKeepsItsStatus(s: Store, inputs: seq<TickInput>, projectEnabled: bool, key: string)
    requires key in s.metas && s.metas[key].status == "In Progress" && s.metas[key].threadId > 0
    requires NoStrayThread(s, key) && forall i :: 0 <= i < |inputs| ==> B.OnlyInProgress(inputs[i].Items(), key)
    requires forall i, n: nat :: 0 <= i < |inputs| ==> Busy(inputs[i].whileActing(n), key, s.metas[key])
    ensures var t := Ticks(s, inputs, projectEnabled); key in t.metas && StillAtWork(s.metas[key], t.metas[key])
    decreases |inputs|
  {
    if inputs != [] {
      var t := Tick(s, inputs[0], projectEnabled);
      BusyTick(s, inputs[0], projectEnabled, key);
      TickKeepsLinks(s, inputs[0], projectEnabled, key);
      forall i, n: nat | 0 <= i < |inputs| - 1 ensures Busy(inputs[1..][i].whileActing(n), key, t.metas[key]) {
        assert Busy(inputs[i + 1].whileActing(n), key, s.metas[key]);
        StillBusy(inputs[i + 1].whileActing(n), key, s.metas[key], t.metas[key]);
      }
      BusyIssueKeepsItsStatus(t, inputs[1..], projectEnabled, key);
    }
  }

  // ----- threads, merging and closed issues -----

  predicate IsNewThread(s: Store, offer: nat) {
    offer > 0 && offer !in s.bindings
  }

  lemma ReactionGivesThread(s: Store, w: World, key: string, status: string, projectEnabled: bool)
    requires key in s.metas && key in s.closed
    ensures var t := React(s, w, key, s.metas[key].threadId, status, projectEnabled);
      && key in t.metas
      && t.metas[key].threadId
         == if s.metas[key].threadId == 0 && status in {"Ready", "Rework"} && IsNewThread(s, OfferOf(w.offeredAgain, key))
            then OfferOf(w.offeredAgain, key) else s.metas[key].threadId
  {
  }

  /** A round gives an issue without a thread one exactly when Discord offers a new one and the issue is not finished; an
      issue that may start is offered one twice. A thread once there stays. */
  lemma ThreadIsGivenExactlyWhen(s: Store, w: World, key: string, seen: Meta, projectEnabled: bool, t: Store)
    requires Acts(s, w, key, seen, projectEnabled, t) && seen.threadId == s.metas[key].threadId
    ensures key in t.metas
    ensures s.metas[key].threadId > 0 ==> t.metas[key].threadId == s.metas[key].threadId
    ensures s.metas[key].threadId == 0 ==> (t.metas[key].threadId > 0 <==>
      && seen.status !in {"Done", "Cancelled"}
      && (IsNewThread(s, OfferOf(w.offered, key)) || (seen.status in {"Ready", "Rework"} && IsNewThread(s, OfferOf(w.offeredAgain, key)))))
  {
    if seen.threadId == 0 && seen.status !in {"Done", "Cancelled"} {
      ReactionGivesThread(EnsureThread(s, key, OfferOf(w.offered, key)), w, key, seen.status, projectEnabled);
    } else {
      ReactionGivesThread(s, w, key, seen.status, projectEnabled);
    }
  }

  /** A round of an issue at Merging takes over what the merge pass makes of it, unless a process is alive for it. */
  lemma MergingExactlyWhen(s: Store, w: World, key: string, seen: Meta, projectEnabled: bool, t: Store)
    requires Acts(s, w, key, seen, projectEnabled, t) && seen.status == "Merging" && seen.threadId > 0
    ensures key in t.metas && t.requests == s.requests
    ensures t.metas[key] == if key in w.merged && key !in w.processes
                            then s.metas[key].(status := w.merged[key], runtimeStatus := "") else s.metas[key]
  {
  }

  // ----- the board and the records -----

  /** The row has a repository and a positive issue number. */
  predicate NamesIssue(item: BoardItem) {
    item.repo != "" && item.number > 0
  }

  ghost predicate HasRow(items: seq<BoardItem>, key: string) {
    exists i :: 0 <= i < |items| && NamesIssue(items[i]) && KeyOf(items[i]) == key
  }

  /** An issue takes part in a tick exactly when some row names it; other rows have no effect. */
  lemma {:induction false} SyncedExactlyWhen(s: Store, w: World, items: seq<BoardItem>, item: BoardItem, key: string)
    ensures key in SyncedKeys(items) <==> HasRow(items, key)
    ensures !NamesIssue(item) ==> SyncItem(s, w, item) == s
    decreases |items|
  {
    if items != [] {
      var front, last := items[..|items| - 1], items[|items| - 1];
      SyncedExactlyWhen(s, w, front, item, key);
      if HasRow(front, key) {
        var i :| 0 <= i < |front| && NamesIssue(front[i]) && KeyOf(front[i]) == key;
        assert items[i] == front[i];
      }
      if HasRow(items, key) {
        var i :| 0 <= i < |items| && NamesIssue(items[i]) && KeyOf(items[i]) == key;
        assert i < |front| ==> front[i] == items[i];
      }
    }
  }

  /** Two rows are of one issue exactly when repository and number agree. */
  lemma RowsMeetExactlyWhen(a: BoardItem, b: BoardItem)
    requires NamesIssue(a) && NamesIssue(b) && '#' !in a.repo && '#' !in b.repo
    ensures KeyOf(a) == KeyOf(b) <==> a.repo == b.repo && a.number == b.number
  {
    if KeyOf(a) == KeyOf(b) {
      var m, n := |a.repo|, |b.repo|;
      assert KeyOf(a)[m] == '#' && KeyOf(b)[n] == '#';
      assert KeyOf(a)[..m] == a.repo && KeyOf(b)[..n] == b.repo;
      assert KeyOf(a)[m + 1..] == Decimal.Print(a.number) && KeyOf(b)[n + 1..] == Decimal.Print(b.number);
      Decimal.ValueOfPrint(a.number);
      Decimal.ValueOfPrint(b.number);
    }
  }

  /** An issue counts as closed exactly when its last row on the board says so. */
  lemma {:induction false} ClosedFollowsBoard(s: Store, worlds: nat -> World, items: seq<BoardItem>, i: nat)
    requires i < |items| && NamesIssue(items[i])
    requires forall j :: i < j < |items| && NamesIssue(items[j]) ==> KeyOf(items[j]) != KeyOf(items[i])
    ensures var t := SyncItems(s, worlds, items);
      KeyOf(items[i]) in t.closed && t.closed[KeyOf(items[i])] == items[i].closed
    decreases |items|
  {
    if i < |items| - 1 {
      ClosedFollowsBoard(s, worlds, items[..|items| - 1], i);
    }
  }

  /** After mirroring a record says what the last row of its issue says; a new record starts with the row's state or in
      the backlog. */
  lemma {:induction false} RecordFollowsBoard(s: Store, worlds: nat -> World, items: seq<BoardItem>, i: nat)
    requires i < |items| && NamesIssue(items[i])
    requires forall j :: i < j < |items| && NamesIssue(items[j]) ==> KeyOf(items[j]) != KeyOf(items[i])
    ensures var key, t := KeyOf(items[i]), SyncItems(s, worlds, items);
      && key in t.metas && t.metas[key].planState == items[i].plan
      && (items[i].state !in {"", "In Progress"} ==> t.metas[key].status == items[i].state)
    decreases |items|
  {
    if i < |items| - 1 {
      RecordFollowsBoard(s, worlds, items[..|items| - 1], i);
    }
  }

  lemma NewRecordFollowsBoard(s: Store, w: World, item: BoardItem)
    requires NamesIssue(item) && KeyOf(item) !in s.metas
    ensures var t := SyncItem(s, w, item);
      KeyOf(item) in t.metas
      && t.metas[KeyOf(item)] == Meta(if item.state == "" then "Backlog" else item.state, item.plan, "", 0)
  {
  }

  /** A round marks an issue queued exactly when it asks for a run and the orchestrator takes it. */
  lemma QueuedExactlyWhen(s: Store, w: World, key: string, seen: Meta, projectEnabled: bool, t: Store)
    requires Acts(s, w, key, seen, projectEnabled, t) && seen.status in {"Ready", "Rework"}
    ensures key in t.metas && t.metas[key].status == s.metas[key].status
    ensures t.metas[key].runtimeStatus == if |t.requests| > |s.requests| && key in w.accepted then "queued"
                                          else s.metas[key].runtimeStatus
  {
  }
}
