/** The scheduler tick of app/issue_scheduler.py with `_reconcile_runtime_state` of app/discord_adapter.py:
    mirror the project board, then dispatch, reconcile or merge each mirrored issue. */
module IssueScheduler {
  import opened Basics
  import Decimal

  /** The issue metadata the scheduler reads. A blank thread id is 0. */
  datatype Meta = Meta(status: string, planState: string, runtimeStatus: string, threadId: nat)

  /** A row of the project board; `closed` says whether the GitHub issue itself is closed. */
  datatype BoardItem = BoardItem(repo: string, number: int, state: string, plan: string, closed: bool)

  datatype Gate = Gate(state: string, plan: string)

  datatype Request = Request(threadId: nat, issueKey: string)

  /** What the scheduler sees of its surroundings at one moment: the orchestrator (running and queued threads,
      keys it would accept), live processes by key and by thread, threads with planning artifacts, the project
      fields GitHub answers with, pending approvals, the thread Discord creates on a first and a second request
      (0: none) and what a merge pass makes of an issue's status. */
  datatype World = World(
    running: set<nat>, queued: set<nat>, accepted: set<string>,
    processes: set<string>, threadProcesses: set<nat>,
    planned: set<nat>, gates: map<string, Gate>, pendingApprovals: set<string>,
    offered: map<string, nat>, offeredAgain: map<string, nat>, merged: map<string, string>)
  {
    predicate HasProcess(key: string, threadId: nat) {
      key in processes || (threadId > 0 && threadId in threadProcesses)
    }

    predicate Active(key: string, threadId: nat) {
      HasProcess(key, threadId) || (threadId > 0 && (threadId in running || threadId in queued))
    }
  }

  /** Issue metadata, the `closed` flag of each issue.json, thread bindings, and the runs asked for. */
  datatype Store = Store(
    metas: map<string, Meta>, closed: map<string, bool>, bindings: map<nat, string>, requests: seq<Request>)

  const LiveRuntimeStates: set<string> := {"queued", "running", "verifying", "awaiting_high_risk_approval"}

  predicate Usable(item: BoardItem) {
    item.repo != "" && item.number > 0
  }

  function KeyOf(item: BoardItem): string {
    item.repo + "#" + Decimal.PrintInt(item.number)
  }

  // ----- mirroring the board -----

  /** `_resolve_synced_state`. */
  function ResolveSynced(w: World, key: string, projectState: string, meta: Meta): string {
    var synced := if projectState != "" then projectState else meta.status;
    if synced != "In Progress" || meta.status != "Rework" then synced
    else if w.Active(key, meta.threadId) then synced
    else meta.status
  }

  function LocalMeta(s: Store, item: BoardItem): Meta {
    if KeyOf(item) in s.metas then s.metas[KeyOf(item)]
    else Meta(if item.state != "" then item.state else "Backlog", "", "", 0)
  }

  function SyncItem(s: Store, w: World, item: BoardItem): Store {
    if !Usable(item) then s
    else
      var key, meta := KeyOf(item), LocalMeta(s, item);
      s.(metas := s.metas[key := meta.(status := ResolveSynced(w, key, item.state, meta), planState := item.plan)],
         closed := s.closed[key := item.closed])
  }

  function SyncItems(s: Store, worlds: nat -> World, items: seq<BoardItem>): Store {
    if items == [] then s
    else SyncItem(SyncItems(s, worlds, items[..|items| - 1]), worlds(|items| - 1), items[|items| - 1])
  }

  function SyncedKeys(items: seq<BoardItem>): (keys: seq<string>)
    ensures |keys| <= |items|
  {
    if items == [] then []
    else
      var keys := SyncedKeys(items[..|items| - 1]);
      if Usable(items[|items| - 1]) then keys + [KeyOf(items[|items| - 1])] else keys
  }

  // ----- acting on one issue -----

  /** `_ensure_issue_thread_binding`: an issue without a thread gets the created one. */
  function EnsureThread(s: Store, key: string, created: nat): Store
    requires key in s.metas
  {
    if s.metas[key].threadId > 0 || created == 0 || created in s.bindings then s
    else s.(metas := s.metas[key := s.metas[key].(threadId := created)], bindings := s.bindings[created := key])
  }

  function OfferOf(offers: map<string, nat>, key: string): nat {
    if key in offers then offers[key] else 0
  }

  /** All that must hold before a run is asked for. */
  predicate Dispatchable(w: World, key: string, threadId: nat, status: string, closed: bool, projectEnabled: bool) {
    && threadId > 0 && threadId !in w.running && threadId !in w.queued
    && key !in w.processes
    && threadId in w.planned
    && (projectEnabled ==> key in w.gates && w.gates[key] == Gate(status, "Approved"))
    && !closed
  }

  function Enqueue(s: Store, w: World, key: string, threadId: nat): Store
    requires key in s.metas
  {
    s.(requests := s.requests + [Request(threadId, key)],
       metas := if key in w.accepted then s.metas[key := s.metas[key].(runtimeStatus := "queued")] else s.metas)
  }

  /** `_dispatch_issue_if_ready`. */
  function Dispatch(s: Store, w: World, key: string, threadId: nat, status: string, projectEnabled: bool): Store
    requires key in s.metas && key in s.closed
  {
    var bound := if threadId == 0 then EnsureThread(s, key, OfferOf(w.offeredAgain, key)) else s;
    var thread := if threadId == 0 then bound.metas[key].threadId else threadId;
    if Dispatchable(w, key, thread, status, bound.closed[key], projectEnabled) then Enqueue(bound, w, key, thread)
    else bound
  }

  /** `_reconcile_runtime_state` once the record to act on is known. */
  function ReconcileMeta(w: World, key: string, threadId: nat, meta: Meta): Meta {
    if meta.status != "In Progress" && meta.runtimeStatus !in LiveRuntimeStates then meta
    else if meta.runtimeStatus == "awaiting_high_risk_approval" && key in w.pendingApprovals then meta
    else if w.Active(key, threadId) then
      if meta.status == "In Progress" && w.HasProcess(key, threadId) && meta.runtimeStatus == ""
      then meta.(runtimeStatus := "running") else meta
    else meta.(status := "Rework", runtimeStatus := "")
  }

  /** `_reconcile_runtime_state`: with a thread, the record is the one the thread is bound to, whatever issue
      the tick is looking at. An unbound thread has a draft only, which is not part of this model. */
  function Reconcile(s: Store, w: World, key: string, threadId: nat): Store {
    if threadId > 0 && threadId !in s.bindings then s
    else
      var target := if threadId == 0 then key else s.bindings[threadId];
      if target !in s.metas then s
      else s.(metas := s.metas[target := ReconcileMeta(w, target, threadId, s.metas[target])])
  }

  /** `_process_merging_issue`, reduced to its effect on the record. */
  function Merge(s: Store, w: World, key: string): Store
    requires key in s.metas
  {
    if key in w.merged && key !in w.processes
    then s.(metas := s.metas[key := s.metas[key].(status := w.merged[key], runtimeStatus := "")]) else s
  }

  /** Done and Cancelled issues need no thread. */
  predicate Finished(status: string) {
    status == "Done" || status == "Cancelled"
  }

  /** What a round does once the thread is settled. */
  function React(s: Store, w: World, key: string, threadId: nat, status: string, projectEnabled: bool): Store
    requires key in s.metas && key in s.closed
  {
    if status == "Ready" || status == "Rework" then Dispatch(s, w, key, threadId, status, projectEnabled)
    else if status == "In Progress" then Reconcile(s, w, key, threadId)
    else if status == "Merging" then Merge(s, w, key)
    else s
  }

  /** The body of the loop of `scheduler_tick`; `seen` is the record as read right after the synchronisation. */
  function Act(s: Store, w: World, key: string, seen: Meta, projectEnabled: bool): Store
    requires key in s.metas && key in s.closed
  {
    var needsThread := seen.threadId == 0 && !Finished(seen.status);
    var bound := if needsThread then EnsureThread(s, key, OfferOf(w.offered, key)) else s;
    var threadId := if needsThread then bound.metas[key].threadId else seen.threadId;
    React(bound, w, key, threadId, seen.status, projectEnabled)
  }

  /** Records are never dropped. */
  ghost predicate Grows(s: Store, t: Store) {
    && s.metas.Keys <= t.metas.Keys && s.closed.Keys <= t.closed.Keys
    && (forall thread :: thread in s.bindings ==> thread in t.bindings && t.bindings[thread] == s.bindings[thread])
  }

  lemma EnsureGrows(s: Store, key: string, created: nat)
    requires key in s.metas
    ensures Grows(s, EnsureThread(s, key, created)) && EnsureThread(s, key, created).closed == s.closed
  {
  }

  lemma DispatchGrows(s: Store, w: World, key: string, threadId: nat, status: string, projectEnabled: bool)
    requires key in s.metas && key in s.closed
    ensures Grows(s, Dispatch(s, w, key, threadId, status, projectEnabled))
    ensures Dispatch(s, w, key, threadId, status, projectEnabled).closed == s.closed
  {
    EnsureGrows(s, key, OfferOf(w.offeredAgain, key));
  }

  lemma ReactGrows(s: Store, w: World, key: string, threadId: nat, status: string, projectEnabled: bool)
    requires key in s.metas && key in s.closed
    ensures Grows(s, React(s, w, key, threadId, status, projectEnabled))
    ensures React(s, w, key, threadId, status, projectEnabled).closed == s.closed
  {
    DispatchGrows(s, w, key, threadId, status, projectEnabled);
  }

  lemma ActGrows(s: Store, w: World, key: string, seen: Meta, projectEnabled: bool)
    requires key in s.metas && key in s.closed
    ensures Grows(s, Act(s, w, key, seen, projectEnabled))
    ensures Act(s, w, key, seen, projectEnabled).closed == s.closed
  {
    if seen.threadId == 0 && !Finished(seen.status) {
      var bound := EnsureThread(s, key, OfferOf(w.offered, key));
      EnsureGrows(s, key, OfferOf(w.offered, key));
      ReactGrows(bound, w, key, bound.metas[key].threadId, seen.status, projectEnabled);
    } else {
      ReactGrows(s, w, key, seen.threadId, seen.status, projectEnabled);
    }
  }

  lemma {:induction false} SyncRecords(s: Store, worlds: nat -> World, items: seq<BoardItem>)
    ensures s.metas.Keys <= SyncItems(s, worlds, items).metas.Keys
    ensures SyncItems(s, worlds, items).bindings == s.bindings && SyncItems(s, worlds, items).requests == s.requests
    ensures forall key :: key in SyncedKeys(items) ==>
      key in SyncItems(s, worlds, items).metas && key in SyncItems(s, worlds, items).closed
  {
    if items != [] {
      SyncRecords(s, worlds, items[..|items| - 1]);
    }
  }

  /** The keys can be looked up. */
  ghost predicate Recorded(s: Store, keys: seq<string>) {
    forall i :: 0 <= i < |keys| ==> keys[i] in s.metas && keys[i] in s.closed
  }

  /** The loop of `scheduler_tick` over the first n records read from `synced`. */
  function ActAll(synced: Store, worlds: nat -> World, keys: seq<string>, n: nat, projectEnabled: bool): (t: Store)
    requires Recorded(synced, keys) && n <= |keys|
    ensures Grows(synced, t) && t.closed == synced.closed
  {
    if n == 0 then synced
    else
      var before := ActAll(synced, worlds, keys, n - 1, projectEnabled);
      ActGrows(before, worlds(n - 1), keys[n - 1], synced.metas[keys[n - 1]], projectEnabled);
      Act(before, worlds(n - 1), keys[n - 1], synced.metas[keys[n - 1]], projectEnabled)
  }

  /** One tick: the board as GitHub reports it (None when the call fails) and the surroundings at each step. */
  datatype TickInput = TickInput(board: Option<seq<BoardItem>>, whileSyncing: nat -> World, whileActing: nat -> World)
  {
    function Items(): seq<BoardItem> {
      match board case Some(items) => items case None => []
    }
  }

  /** `scheduler_tick`. */
  function Tick(s: Store, input: TickInput, projectEnabled: bool): Store {
    var items := input.Items();
    var synced := SyncItems(s, input.whileSyncing, items);
    SyncRecords(s, input.whileSyncing, items);
    ActAll(synced, input.whileActing, SyncedKeys(items), |SyncedKeys(items)|, projectEnabled)
  }

  class Scheduler {
    const projectEnabled: bool
    var metas: map<string, Meta>
    var closed: map<string, bool>
    var bindings: map<nat, string>
    var requests: seq<Request>

    ghost function Abstract(): Store
      reads this
    {
      Store(metas, closed, bindings, requests)
    }

    constructor (projectEnabled: bool, metas: map<string, Meta>, closed: map<string, bool>, bindings: map<nat, string>)
      ensures this.projectEnabled == projectEnabled && Abstract() == Store(metas, closed, bindings, [])
    {
      this.projectEnabled := projectEnabled;
      this.metas, this.closed, this.bindings, requests := metas, closed, bindings, [];
    }

    /** The body of the loop of `sync_project_board_state`, for a usable row. */
    method SyncRow(w: World, item: BoardItem)
      requires Usable(item)
      modifies this`metas, this`closed
      ensures Abstract() == SyncItem(old(Abstract()), w, item)
    {
      var key := KeyOf(item);
      if key !in metas {
        metas := metas[key := Meta(if item.state != "" then item.state else "Backlog", "", "", 0)];
      }
      var resolved := ResolveSynced(w, key, item.state, metas[key]);
      metas := metas[key := metas[key].(status := resolved, planState := item.plan)];
      closed := closed[key := item.closed];
    }

    /** `sync_project_board_state`; the records are read only after the whole board was mirrored. */
    method SyncProjectBoardState(board: Option<seq<BoardItem>>, worlds: nat -> World)
      returns (keys: seq<string>, seen: seq<Meta>)
      modifies this`metas, this`closed
      ensures var items := match board case Some(rows) => rows case None => [];
        && Abstract() == SyncItems(old(Abstract()), worlds, items)
        && keys == SyncedKeys(items)
      ensures Recorded(Abstract(), keys) && |seen| == |keys|
      ensures forall i :: 0 <= i < |keys| ==> seen[i] == metas[keys[i]]
    {
      keys, seen := [], [];
      if board.None? || board.value == [] {
        return;
      }
      var items := board.value;
      for n := 0 to |items|
        invariant Abstract() == SyncItems(old(Abstract()), worlds, items[..n])
        invariant keys == SyncedKeys(items[..n])
      {
        assert items[..n + 1][..n] == items[..n];
        if Usable(items[n]) {
          keys := keys + [KeyOf(items[n])];
          SyncRow(worlds(n), items[n]);
        }
      }
      assert items[..|items|] == items;
      SyncRecords(old(Abstract()), worlds, items);
      seen := ReadRecords(keys);
    }

    method ReadRecords(keys: seq<string>) returns (seen: seq<Meta>)
      requires forall i :: 0 <= i < |keys| ==> keys[i] in metas
      ensures |seen| == |keys| && forall i :: 0 <= i < |keys| ==> seen[i] == metas[keys[i]]
    {
      seen := [];
      for i := 0 to |keys|
        invariant |seen| == i && forall j :: 0 <= j < i ==> seen[j] == metas[keys[j]]
      {
        seen := seen + [metas[keys[i]]];
      }
    }

    method EnsureIssueThreadBinding(key: string, created: nat) returns (threadId: nat)
      requires key in metas
      modifies this`metas, this`bindings
      ensures Abstract() == EnsureThread(old(Abstract()), key, created)
      ensures key in metas && threadId == metas[key].threadId
    {
      if metas[key].threadId == 0 && created > 0 && created !in bindings {
        bindings := bindings[created := key];
        metas := metas[key := metas[key].(threadId := created)];
      }
      threadId := metas[key].threadId;
    }

    method DispatchIssueIfReady(w: World, key: string, threadId: nat, status: string)
      requires key in metas && key in closed
      modifies this
      ensures Abstract() == Dispatch(old(Abstract()), w, key, threadId, status, projectEnabled)
    {
      var thread := threadId;
      if thread == 0 {
        thread := EnsureIssueThreadBinding(key, OfferOf(w.offeredAgain, key));
        if thread == 0 {
          return;
        }
      }
      if thread in w.running || thread in w.queued {
        return;
      }
      if key in w.processes {
        return;
      }
      if thread !in w.planned {
        return;
      }
      if projectEnabled {
        if key !in w.gates || w.gates[key].state != status || w.gates[key].plan != "Approved" {
          return;
        }
      }
      if closed[key] {
        return;
      }
      requests := requests + [Request(thread, key)];
      if key in w.accepted {
        metas := metas[key := metas[key].(runtimeStatus := "queued")];
      }
    }

    method ReconcileRuntimeState(w: World, key: string, threadId: nat)
      modifies this`metas
      ensures Abstract() == Reconcile(old(Abstract()), w, key, threadId)
    {
      if threadId > 0 && threadId !in bindings {
        return;
      }
      var target := if threadId == 0 then key else bindings[threadId];
      if target !in metas {
        return;
      }
      var meta := metas[target];
      assert metas == metas[target := meta];
      if meta.status != "In Progress" && meta.runtimeStatus !in LiveRuntimeStates {
        return;
      }
      if meta.runtimeStatus == "awaiting_high_risk_approval" && target in w.pendingApprovals {
        return;
      }
      if w.Active(target, threadId) {
        if meta.status == "In Progress" && w.HasProcess(target, threadId) && meta.runtimeStatus == "" {
          metas := metas[target := meta.(runtimeStatus := "running")];
        }
        return;
      }
      metas := metas[target := meta.(runtimeStatus := "")];
      metas := metas[target := metas[target].(status := "Rework")];
    }

    method SchedulerTick(input: TickInput)
      modifies this
      ensures Abstract() == Tick(old(Abstract()), input, projectEnabled)
    {
      var keys, seen := SyncProjectBoardState(input.board, input.whileSyncing);
      ghost var synced := Abstract();
      for n := 0 to |keys|
        invariant Recorded(synced, keys)
        invariant Abstract() == ActAll(synced, input.whileActing, keys, n, projectEnabled)
        invariant forall i :: 0 <= i < |keys| ==> seen[i] == synced.metas[keys[i]]
      {
        ProcessRecord(input.whileActing(n), keys[n], seen[n]);
      }
    }

    /** One round of the loop. */
    method ProcessRecord(w: World, key: string, seen: Meta)
      requires key in metas && key in closed
      modifies this
      ensures Abstract() == Act(old(Abstract()), w, key, seen, projectEnabled)
    {
      var threadId := seen.threadId;
      if threadId == 0 && !Finished(seen.status) {
        threadId := EnsureIssueThreadBinding(key, OfferOf(w.offered, key));
      }
      if seen.status == "Ready" || seen.status == "Rework" {
        DispatchIssueIfReady(w, key, threadId, seen.status);
        return;
      }
      if seen.status == "In Progress" {
        ReconcileRuntimeState(w, key, threadId);
        return;
      }
      if seen.status == "Merging" {
        if key in w.merged && key !in w.processes {
          metas := metas[key := metas[key].(status := w.merged[key], runtimeStatus := "")];
        }
      }
    }
  }
}
