/** Whole runs of the orchestrator: every interleaving of enqueue, dispatcher, task and drain steps. */
module OrchestratorRuns {
  import opened Basics
  import opened Orchestrator

  /** What happened so far. `dropped` and `cancelled` can only grow while draining. */
  datatype Log = Log(
    accepted: seq<WorkItem>,
    dispatched: seq<WorkItem>,
    dropped: seq<WorkItem>,
    executed: multiset<WorkItem>,
    cancelled: multiset<WorkItem>,
    ended: multiset<WorkItem>)

  datatype Config = Config(state: State, log: Log)

  function Start(capacity: int): Config {
    Config(Init(capacity), Log([], [], [], multiset{}, multiset{}, multiset{}))
  }

  ghost function Record(s: State, log: Log, e: Event): Log
    requires Enabled(s, e)
  {
    match e
    case Enqueue(item) => log.(accepted := log.accepted + [item])
    case Get => log.(dispatched := log.dispatched + [s.queue[0]])
    case Begin(key) => log.(executed := log.executed + multiset{s.running[key].item})
    case Finish(key, _) => log.(ended := log.ended + multiset{s.running[key].item})
    case CancelTasks => log.(dropped := log.dropped + s.queue)
    case CancelUnstarted(key) => log.(cancelled := log.cancelled + multiset{s.running[key].item})
    case _ => log
  }

  /** A step that is not enabled does nothing, so every event sequence is a run. */
  ghost function Advance(c: Config, e: Event): Config {
    if Enabled(c.state, e) then Config(Step(c.state, e), Record(c.state, c.log, e)) else c
  }

  ghost function Run(c: Config, events: seq<Event>): Config {
    if events == [] then c else Advance(Run(c, events[..|events| - 1]), events[|events| - 1])
  }

  lemma {:induction false} RunAppend(c: Config, a: seq<Event>, b: seq<Event>)
    ensures Run(c, a + b) == Run(Run(c, a), b)
    decreases |b|
  {
    if b == [] {
      assert a + b == a;
    } else {
      assert (a + b)[..|a + b| - 1] == a + b[..|b| - 1];
      RunAppend(c, a, b[..|b| - 1]);
    }
  }

  lemma {:induction false} RunKeepsInv(c: Config, events: seq<Event>)
    requires Inv(c.state)
    ensures Inv(Run(c, events).state)
    ensures Run(c, events).state.capacity == c.state.capacity
    decreases |events|
  {
    if events != [] {
      RunKeepsInv(c, events[..|events| - 1]);
      var last, e := Run(c, events[..|events| - 1]), events[|events| - 1];
      if Enabled(last.state, e) {
        StepKeepsInv(last.state, e);
      }
    }
  }

  /** Safety of every run: no key is queued twice or queued while it runs, no thread is queued twice,
      a dispatcher waiting in `get` has a spare slot, and the cap is never exceeded. */
  lemma {:induction false} Safety(capacity: int, events: seq<Event>)
    ensures var s := Run(Start(capacity), events).state;
      && Inv(s)
      && |s.running| <= Max(capacity, 0)
      && (s.dispatcher.AtGet? ==> |s.running| < capacity)
  {
    RunKeepsInv(Start(capacity), events);
  }

  /** Two items of one issue, or of one workspace when neither names an issue. */
  ghost predicate SameWork(a: WorkItem, b: WorkItem) {
    if a.issueKey == "" then b.issueKey == "" && a.workspaceKey == b.workspaceKey != ""
    else a.issueKey == b.issueKey
  }

  /** Items that name neither are told apart by repository and issue number. */
  lemma NumberedItemsMeetExactlyWhen(a: WorkItem, b: WorkItem)
    requires a.issueKey == b.issueKey == "" && a.workspaceKey == b.workspaceKey == ""
    requires a.issueNumber.Some? && b.issueNumber.Some?
    requires '#' !in a.repoFullName && '#' !in b.repoFullName
    ensures a.Key() == b.Key() <==> a.repoFullName == b.repoFullName && a.issueNumber == b.issueNumber
  {
    if a.Key() == b.Key() {
      var m, n := |a.repoFullName|, |b.repoFullName|;
      assert a.Key()[m] == '#' && b.Key()[n] == '#';
      assert a.Key()[..m] == a.repoFullName && b.Key()[..n] == b.repoFullName;
      assert a.Key()[m + 1..] == a.issueNumber.value && b.Key()[n + 1..] == b.issueNumber.value;
    }
  }

  /** Whatever their threads and repositories, no two items of one issue are ever queued or running together. */
  lemma {:induction false} OneItemPerIssue(capacity: int, events: seq<Event>)
    ensures var s := Run(Start(capacity), events).state;
      && (forall i, j :: 0 <= i < j < |s.queue| ==> !SameWork(s.queue[i], s.queue[j]))
      && (forall i, key :: 0 <= i < |s.queue| && key in s.running ==> !SameWork(s.queue[i], s.running[key].item))
      && (forall k, l :: k in s.running && l in s.running && SameWork(s.running[k].item, s.running[l].item) ==> k == l)
  {
    RunKeepsInv(Start(capacity), events);
  }

  function Live(s: State, item: WorkItem): nat {
    var key := item.Key();
    if key in s.running && s.running[key].item == item && !s.running[key].phase.Done? then 1 else 0
  }

  function InExecution(s: State, item: WorkItem): nat {
    var key := item.Key();
    if key in s.running && s.running[key].item == item && s.running[key].phase.Executing? then 1 else 0
  }

  /** Every accepted item is queued, dispatched or dropped by a drain; every dispatched one is live,
      ended or was cancelled before its first step; and the executor was called once per item that
      ended or is executing. */
  ghost predicate Conserved(c: Config) {
    && QueueConserved(c)
    && forall item :: ItemConserved(c, item)
  }

  ghost predicate QueueConserved(c: Config) {
    multiset(c.log.accepted) == multiset(c.log.dispatched) + multiset(c.log.dropped) + multiset(c.state.queue)
  }

  ghost predicate ItemConserved(c: Config, item: WorkItem) {
    && multiset(c.log.dispatched)[item] == c.log.ended[item] + c.log.cancelled[item] + Live(c.state, item)
    && c.log.executed[item] == c.log.ended[item] + InExecution(c.state, item)
  }

  lemma {:induction false} GetConservesItem(c: Config, item: WorkItem)
    requires Inv(c.state) && ItemConserved(c, item) && Enabled(c.state, Get)
    ensures ItemConserved(Advance(c, Get), item)
  {
    UnfinishedShrinks(c.state.running);
    var taken := c.state.queue[0];
    assert taken.Key() !in c.state.running;
    assert Advance(c, Get).state.running == c.state.running[taken.Key() := Task(taken, Created)];
    assert multiset(c.log.dispatched + [taken])[item]
        == multiset(c.log.dispatched)[item] + if taken == item then 1 else 0;
  }

  lemma BeginConservesItem(c: Config, key: string, item: WorkItem)
    requires Inv(c.state) && ItemConserved(c, item) && Enabled(c.state, Begin(key))
    ensures ItemConserved(Advance(c, Begin(key)), item)
  {
    assert c.state.running[key].item.Key() == key;
  }

  lemma FinishConservesItem(c: Config, key: string, outcome: Outcome, item: WorkItem)
    requires Inv(c.state) && ItemConserved(c, item) && Enabled(c.state, Finish(key, outcome))
    ensures ItemConserved(Advance(c, Finish(key, outcome)), item)
  {
    assert c.state.running[key].item.Key() == key;
  }

  lemma CancelConservesItem(c: Config, key: string, item: WorkItem)
    requires Inv(c.state) && ItemConserved(c, item) && Enabled(c.state, CancelUnstarted(key))
    ensures ItemConserved(Advance(c, CancelUnstarted(key)), item)
  {
    assert c.state.running[key].item.Key() == key;
  }

  lemma {:induction false} AdvanceConservesItem(c: Config, e: Event, item: WorkItem)
    requires Inv(c.state) && ItemConserved(c, item) && Enabled(c.state, e)
    ensures ItemConserved(Advance(c, e), item)
  {
    match e {
      case Get => GetConservesItem(c, item);
      case Begin(key) => BeginConservesItem(c, key, item);
      case Finish(key, outcome) => FinishConservesItem(c, key, outcome, item);
      case CancelUnstarted(key) => CancelConservesItem(c, key, item);
      case _ =>
        UnfinishedShrinks(c.state.running);
        assert Live(Advance(c, e).state, item) == Live(c.state, item);
    }
  }

  lemma AdvanceConservesQueue(c: Config, e: Event)
    requires QueueConserved(c) && Enabled(c.state, e)
    ensures QueueConserved(Advance(c, e))
  {
    if e.Get? {
      assert c.state.queue == [c.state.queue[0]] + c.state.queue[1..];
    }
  }

  lemma AdvanceConserves(c: Config, e: Event)
    requires Inv(c.state) && Conserved(c) && Enabled(c.state, e)
    ensures Conserved(Advance(c, e))
  {
    AdvanceConservesQueue(c, e);
    forall item ensures ItemConserved(Advance(c, e), item) {
      AdvanceConservesItem(c, e, item);
    }
  }

  lemma {:induction false} Conservation(capacity: int, events: seq<Event>)
    ensures Conserved(Run(Start(capacity), events))
    decreases |events|
  {
    if events != [] {
      var before := events[..|events| - 1];
      Conservation(capacity, before);
      Safety(capacity, before);
      var c := Run(Start(capacity), before);
      if Enabled(c.state, events[|events| - 1]) {
        AdvanceConserves(c, events[|events| - 1]);
      }
    }
  }

  ghost predicate NoDrain(events: seq<Event>) {
    forall i :: 0 <= i < |events| ==> !events[i].CancelDispatcher?
  }

  ghost predicate InOrder(c: Config) {
    && c.log.accepted == c.log.dispatched + c.state.queue
    && c.state.phase.Serving? && c.log.dropped == [] && c.log.cancelled == multiset{}
  }

  lemma AdvanceKeepsOrder(c: Config, e: Event)
    requires InOrder(c) && Enabled(c.state, e) && !e.CancelDispatcher?
    ensures InOrder(Advance(c, e))
  {
    if e.Get? {
      assert c.log.dispatched + c.state.queue == (c.log.dispatched + [c.state.queue[0]]) + c.state.queue[1..];
    }
  }

  /** First in, first out: without a drain the accepted sequence is the dispatched one followed by the queue,
      and nothing is ever dropped or cancelled. */
  lemma {:induction false} Order(capacity: int, events: seq<Event>)
    requires NoDrain(events)
    ensures InOrder(Run(Start(capacity), events))
    decreases |events|
  {
    if events != [] {
      var before, e := events[..|events| - 1], events[|events| - 1];
      Order(capacity, before);
      assert !e.CancelDispatcher?;
      if Enabled(Run(Start(capacity), before).state, e) {
        AdvanceKeepsOrder(Run(Start(capacity), before), e);
      }
    }
  }

  /** Once nothing is queued or running, each accepted item was executed exactly once and has ended,
      whether its executor returned or raised. */
  lemma ExecutedExactlyOnce(capacity: int, events: seq<Event>)
    requires NoDrain(events)
    requires var s := Run(Start(capacity), events).state; s.queue == [] && s.running == map[]
    ensures var log := Run(Start(capacity), events).log;
      log.dispatched == log.accepted && log.executed == log.ended == multiset(log.accepted)
  {
    var c := Run(Start(capacity), events);
    Order(capacity, events);
    Conservation(capacity, events);
    forall item ensures c.log.executed[item] == c.log.ended[item] == multiset(c.log.accepted)[item] {
      assert ItemConserved(c, item);
    }
  }

  /** A completed drain leaves the machine as empty as a new one, apart from the thread map. */
  lemma DrainEmpties(capacity: int, events: seq<Event>)
    requires Enabled(Run(Start(capacity), events).state, DrainEnd)
    ensures var s := Run(Start(capacity), events).state;
      Run(Start(capacity), events + [DrainEnd]).state == Init(capacity).(threadToKey := s.threadToKey)
  {
    Safety(capacity, events);
    RunKeepsInv(Start(capacity), events);
    assert (events + [DrainEnd])[..|events|] == events;
  }

  function Work(s: State): nat {
    2 * |s.queue| + |s.running|
  }

  predicate IsProgress(e: Event) {
    e.Get? || e.Finish?
  }

  predicate Internal(e: Event) {
    e.CheckCapacity? || e.Wake? || e.Get? || e.Cleanup? || e.Begin? || e.Finish?
  }

  /** The dispatches and completions that took effect. */
  ghost function Progress(c: Config, events: seq<Event>): nat {
    if events == [] then 0
    else
      var before, e := events[..|events| - 1], events[|events| - 1];
      Progress(c, before) + if IsProgress(e) && Enabled(Run(c, before).state, e) then 1 else 0
  }

  lemma StepWork(s: State, e: Event)
    requires Inv(s) && s.phase.Serving? && Enabled(s, e) && Internal(e)
    ensures Work(Step(s, e)) == Work(s) - if IsProgress(e) then 1 else 0
    ensures Step(s, e).phase.Serving?
  {
    UnfinishedShrinks(s.running);
    if e.Finish? {
      RemovedKeySize(s.running, e.key);
    }
    if e.Get? {
      assert s.queue[0].Key() !in s.running;
    }
  }

  /** Without new enqueues the work left plus the progress made is constant, so at most `Work` dispatches
      and completions can follow: no interleaving dispatches for ever. */
  lemma {:induction false} ProgressIsBounded(c: Config, events: seq<Event>)
    requires Inv(c.state) && c.state.phase.Serving?
    requires forall i :: 0 <= i < |events| ==> Internal(events[i])
    ensures Work(Run(c, events).state) + Progress(c, events) == Work(c.state)
    ensures Run(c, events).state.phase.Serving?
    decreases |events|
  {
    if events != [] {
      var before := events[..|events| - 1];
      ProgressIsBounded(c, before);
      RunKeepsInv(c, before);
      if Enabled(Run(c, before).state, events[|events| - 1]) {
        StepWork(Run(c, before).state, events[|events| - 1]);
      }
    }
  }

  lemma TaskProgress(c: Config, key: string) returns (burst: seq<Event>)
    requires Inv(c.state) && c.state.phase.Serving? && key in c.state.running
    ensures forall i :: 0 <= i < |burst| ==> Internal(burst[i])
    ensures Progress(c, burst) >= 1
  {
    if c.state.running[key].phase.Created? {
      burst := [Begin(key), Finish(key, Returned)];
      UnfoldTwo(c, Begin(key), Finish(key, Returned));
    } else {
      burst := [Finish(key, Returned)];
      UnfoldOne(c, Finish(key, Returned));
    }
  }

  lemma DispatchProgress(c: Config) returns (burst: seq<Event>)
    requires c.state.queue != [] && c.state.running == map[] && c.state.capacity >= 1
    requires !c.state.dispatcher.Absent?
    ensures forall i :: 0 <= i < |burst| ==> Internal(burst[i])
    ensures Progress(c, burst) >= 1
    decreases c.state.dispatcher.Sleeping?
  {
    if c.state.dispatcher.Sleeping? {
      UnfoldOne(c, Wake);
      var rest := DispatchProgress(Advance(c, Wake));
      ProgressAppend(c, [Wake], rest);
      burst := [Wake] + rest;
    } else if c.state.dispatcher.AtGet? {
      burst := [Get];
      UnfoldOne(c, Get);
    } else {
      burst := [CheckCapacity, Get];
      UnfoldTwo(c, CheckCapacity, Get);
    }
  }

  /** A short burst of internal steps that dispatches or completes something. */
  lemma ProgressPossible(c: Config) returns (burst: seq<Event>)
    requires Inv(c.state) && c.state.phase.Serving? && c.state.capacity >= 1 && Work(c.state) > 0
    ensures forall i :: 0 <= i < |burst| ==> Internal(burst[i])
    ensures Progress(c, burst) >= 1
  {
    if c.state.running != map[] {
      var key :| key in c.state.running;
      burst := TaskProgress(c, key);
    } else {
      burst := DispatchProgress(c);
    }
  }

  lemma UnfoldOne(c: Config, e: Event)
    ensures Run(c, [e]) == Advance(c, e)
    ensures Progress(c, [e]) == if IsProgress(e) && Enabled(c.state, e) then 1 else 0
  {
    assert [e][..0] == [];
  }

  lemma UnfoldTwo(c: Config, a: Event, b: Event)
    ensures Run(c, [a, b]) == Advance(Advance(c, a), b)
    ensures Progress(c, [a, b]) == Progress(c, [a]) + if IsProgress(b) && Enabled(Advance(c, a).state, b) then 1 else 0
  {
    UnfoldOne(c, a);
    assert [a, b][..1] == [a];
  }

  lemma {:induction false} ProgressAppend(c: Config, a: seq<Event>, b: seq<Event>)
    ensures Progress(c, a + b) == Progress(c, a) + Progress(Run(c, a), b)
    decreases |b|
  {
    if b == [] {
      assert a + b == a;
    } else {
      assert (a + b)[..|a + b| - 1] == a + b[..|b| - 1];
      ProgressAppend(c, a, b[..|b| - 1]);
      RunAppend(c, a, b[..|b| - 1]);
    }
  }

  // ----- the cap is used -----

  /** The dispatcher's own steps; none of them begins or ends a task. */
  predicate IsDispatcherStep(e: Event) {
    e.Wake? || e.CheckCapacity? || e.Get?
  }

  ghost predicate TakesHead(c: Config, next: Config)
    requires c.state.queue != []
  {
    && next.log.dispatched == c.log.dispatched + [c.state.queue[0]]
    && next.state.queue == c.state.queue[1..]
    && |next.state.running| == |c.state.running| + 1
    && next.state.phase.Serving? && next.state.capacity == c.state.capacity
  }

  lemma GetTakesHead(c: Config)
    requires Inv(c.state) && c.state.phase.Serving? && c.state.dispatcher.AtGet? && c.state.queue != []
    ensures TakesHead(c, Advance(c, Get))
  {
    UnfinishedShrinks(c.state.running);
    var key := c.state.queue[0].Key();
    assert c.state.running[key := Task(c.state.queue[0], Created)].Keys == c.state.running.Keys + {key};
  }

  /** Whenever something is queued and a slot is free, the dispatcher alone takes the head: no task has to begin or
      end for it. */
  lemma {:induction false} FreeSlotIsUsed(c: Config) returns (schedule: seq<Event>)
    requires Inv(c.state) && c.state.phase.Serving? && c.state.queue != [] && |c.state.running| < c.state.capacity
    ensures forall i :: 0 <= i < |schedule| ==> IsDispatcherStep(schedule[i])
    ensures TakesHead(c, Run(c, schedule))
    decreases if c.state.dispatcher.Sleeping? then 2 else if c.state.dispatcher.AtCapacityCheck? then 1 else 0
  {
    var e := if c.state.dispatcher.Sleeping? then Wake else if c.state.dispatcher.AtCapacityCheck? then CheckCapacity else Get;
    UnfoldOne(c, e);
    if e.Get? {
      GetTakesHead(c);
      schedule := [Get];
    } else {
      StepKeepsInv(c.state, e);
      UnfinishedShrinks(c.state.running);
      var rest := FreeSlotIsUsed(Advance(c, e));
      RunAppend(c, [e], rest);
      schedule := [e] + rest;
    }
  }

  /** From every serving state the dispatcher alone fills the free slots as far as the queue reaches. */
  lemma {:induction false} SlotsCanBeFilled(c: Config) returns (schedule: seq<Event>)
    requires Inv(c.state) && c.state.phase.Serving?
    ensures forall i :: 0 <= i < |schedule| ==> IsDispatcherStep(schedule[i])
    ensures |Run(c, schedule).state.running| == Min(Max(c.state.capacity, 0), |c.state.running| + |c.state.queue|)
    decreases |c.state.queue|
  {
    if c.state.queue == [] || |c.state.running| >= c.state.capacity {
      schedule := [];
    } else {
      var first := FreeSlotIsUsed(c);
      RunKeepsInv(c, first);
      var rest := SlotsCanBeFilled(Run(c, first));
      RunAppend(c, first, rest);
      schedule := first + rest;
    }
  }

  function EnqueueAll(items: seq<WorkItem>): seq<Event> {
    seq(|items|, i requires 0 <= i < |items| => Enqueue(items[i]))
  }

  lemma DistinctItemIsAccepted(s: State, items: seq<WorkItem>, item: WorkItem)
    requires s.phase.Serving? && s.queue == items && s.running == map[]
    requires DistinctKeys(items + [item]) && DistinctThreads(items + [item])
    ensures Accepts(s, item)
  {
    var longer := items + [item];
    forall i | 0 <= i < |items|
      ensures items[i].Key() != item.Key() && (item.threadId.Some? ==> items[i].threadId != item.threadId)
    {
      assert longer[i] == items[i] && longer[|items|] == item;
    }
  }

  lemma {:induction false} AllAreAccepted(capacity: int, items: seq<WorkItem>)
    requires DistinctKeys(items) && DistinctThreads(items)
    ensures var s := Run(Start(capacity), EnqueueAll(items)).state;
      s.queue == items && s.running == map[] && s.phase.Serving? && s.capacity == capacity
    decreases |items|
  {
    if items != [] {
      var n := |items| - 1;
      assert items[..n] + [items[n]] == items;
      AllAreAccepted(capacity, items[..n]);
      assert EnqueueAll(items)[..n] == EnqueueAll(items[..n]);
      DistinctItemIsAccepted(Run(Start(capacity), EnqueueAll(items[..n])).state, items[..n], items[n]);
    }
  }

  /** The configured concurrency is reached: for any items with distinct keys and threads some run has as many of
      them running at once as the cap allows. */
  lemma CapacityIsReached(capacity: int, items: seq<WorkItem>) returns (events: seq<Event>)
    requires DistinctKeys(items) && DistinctThreads(items)
    ensures |Run(Start(capacity), events).state.running| == Min(Max(capacity, 0), |items|)
  {
    AllAreAccepted(capacity, items);
    RunKeepsInv(Start(capacity), EnqueueAll(items));
    var schedule := SlotsCanBeFilled(Run(Start(capacity), EnqueueAll(items)));
    RunAppend(Start(capacity), EnqueueAll(items), schedule);
    events := EnqueueAll(items) + schedule;
  }

  /** With a positive cap every reachable serving state can be emptied by internal steps alone. */
  lemma {:induction false} CanEmpty(c: Config) returns (schedule: seq<Event>)
    requires Inv(c.state) && c.state.phase.Serving? && c.state.capacity >= 1
    ensures forall i :: 0 <= i < |schedule| ==> Internal(schedule[i])
    ensures Run(c, schedule).state.queue == [] && Run(c, schedule).state.running == map[]
    decreases Work(c.state)
  {
    if Work(c.state) == 0 {
      return [];
    }
    var burst := ProgressPossible(c);
    ProgressIsBounded(c, burst);
    RunKeepsInv(c, burst);
    var rest := CanEmpty(Run(c, burst));
    RunAppend(c, burst, rest);
    schedule := burst + rest;
  }

  lemma {:induction false} NothingStartsWithoutCapacity(capacity: int, events: seq<Event>)
    requires capacity <= 0
    ensures Run(Start(capacity), events).log.dispatched == []
    decreases |events|
  {
    if events != [] {
      NothingStartsWithoutCapacity(capacity, events[..|events| - 1]);
      Safety(capacity, events[..|events| - 1]);
    }
  }

  ghost predicate CanDispatch(capacity: int, item: WorkItem) {
    exists events :: Run(Start(capacity), events).log.dispatched == [item]
  }

  /** An item can ever be dispatched exactly when the configured concurrency is at least one. */
  lemma DispatchNeedsCapacity(capacity: int, item: WorkItem)
    ensures CanDispatch(capacity, item) <==> capacity >= 1
  {
    if capacity >= 1 {
      var c := Start(capacity);
      UnfoldTwo(c, Enqueue(item), CheckCapacity);
      UnfoldOne(Run(c, [Enqueue(item), CheckCapacity]), Get);
      RunAppend(c, [Enqueue(item), CheckCapacity], [Get]);
      assert Run(c, [Enqueue(item), CheckCapacity] + [Get]).log.dispatched == [item];
    } else if CanDispatch(capacity, item) {
      var events :| Run(Start(capacity), events).log.dispatched == [item];
      NothingStartsWithoutCapacity(capacity, events);
    }
  }

  // ----- is_running -----

  ghost predicate ThreadHasRunningItem(s: State, threadId: int) {
    exists key :: key in s.running && !s.running[key].phase.Done? && s.running[key].item.threadId == Some(threadId)
  }

  /** Two items agree with one thread-to-key binding: same thread exactly when same key. */
  predicate SameBinding(a: WorkItem, b: WorkItem) {
    (a.Key() == b.Key()) <==> (a.threadId.Some? && a.threadId == b.threadId)
  }

  ghost predicate FollowOneBinding(items: seq<WorkItem>) {
    forall i, j :: 0 <= i < |items| && 0 <= j < |items| && items[i].threadId.Some? ==> SameBinding(items[i], items[j])
  }

  ghost predicate IsKeyOfThread(item: WorkItem, t: int, key: string) {
    item.threadId == Some(t) && item.Key() == key
  }

  /** Every key remembered for a thread is the key of an accepted item of it. */
  ghost predicate KeysAreAccepted(threadToKey: map<int, string>, accepted: seq<WorkItem>) {
    forall t :: t in threadToKey ==> exists item :: item in accepted && IsKeyOfThread(item, t, threadToKey[t])
  }

  ghost predicate ThreadsAreKnown(threadToKey: map<int, string>, accepted: seq<WorkItem>) {
    forall item :: item in accepted && item.threadId.Some? ==> item.threadId.value in threadToKey
  }

  ghost predicate Provenance(c: Config) {
    && (forall item :: item in c.state.queue ==> item in c.log.accepted)
    && (forall key :: key in c.state.running ==> c.state.running[key].item in c.log.accepted)
    && KeysAreAccepted(c.state.threadToKey, c.log.accepted)
    && ThreadsAreKnown(c.state.threadToKey, c.log.accepted)
  }

  lemma RememberKeepsKeys(threadToKey: map<int, string>, accepted: seq<WorkItem>, longer: seq<WorkItem>, item: WorkItem)
    requires KeysAreAccepted(threadToKey, accepted) && ThreadsAreKnown(threadToKey, accepted)
    requires item in longer && (longer == accepted || longer == accepted + [item])
    ensures KeysAreAccepted(Remember(threadToKey, item), longer)
    ensures ThreadsAreKnown(Remember(threadToKey, item), longer)
  {
    var next := Remember(threadToKey, item);
    forall t | t in next ensures exists other :: other in longer && IsKeyOfThread(other, t, next[t]) {
      if item.threadId == Some(t) {
        assert IsKeyOfThread(item, t, next[t]);
      } else {
        var other :| other in accepted && IsKeyOfThread(other, t, threadToKey[t]);
        assert other in longer && IsKeyOfThread(other, t, next[t]);
      }
    }
  }

  lemma AdvanceKeepsProvenance(c: Config, e: Event)
    requires Provenance(c) && Enabled(c.state, e)
    ensures Provenance(Advance(c, e))
  {
    if e.Enqueue? {
      RememberKeepsKeys(c.state.threadToKey, c.log.accepted, c.log.accepted + [e.item], e.item);
    } else if e.Get? {
      RememberKeepsKeys(c.state.threadToKey, c.log.accepted, c.log.accepted, c.state.queue[0]);
    }
  }

  lemma {:induction false} RunKeepsProvenance(capacity: int, events: seq<Event>)
    ensures Provenance(Run(Start(capacity), events))
    decreases |events|
  {
    if events != [] {
      var before := Run(Start(capacity), events[..|events| - 1]);
      RunKeepsProvenance(capacity, events[..|events| - 1]);
      if Enabled(before.state, events[|events| - 1]) {
        AdvanceKeepsProvenance(before, events[|events| - 1]);
      }
    }
  }

  lemma ThreadKeyIsAccepted(c: Config, t: int) returns (item: WorkItem)
    requires Provenance(c) && t in c.state.threadToKey
    ensures item in c.log.accepted && item.threadId == Some(t) && item.Key() == c.state.threadToKey[t]
  {
    item :| item in c.log.accepted && IsKeyOfThread(item, t, c.state.threadToKey[t]);
  }

  lemma AcceptedThreadIsKnown(c: Config, item: WorkItem)
    requires Provenance(c) && item in c.log.accepted && item.threadId.Some?
    ensures item.threadId.value in c.state.threadToKey
  {
  }

  ghost predicate IsRunningExactFor(s: State, threadId: int) {
    IsRunningIn(s, threadId) <==> ThreadHasRunningItem(s, threadId)
  }

  /** All accepted items follow one thread/issue binding, item by item. */
  ghost predicate Agree(items: seq<WorkItem>) {
    forall a, b :: a in items && b in items && a.threadId.Some? ==> SameBinding(a, b)
  }

  lemma AnswerHasItem(c: Config, threadId: int)
    requires Inv(c.state) && Provenance(c) && Agree(c.log.accepted) && IsRunningIn(c.state, threadId)
    ensures ThreadHasRunningItem(c.state, threadId)
  {
    var key := c.state.threadToKey[threadId];
    var a := ThreadKeyIsAccepted(c, threadId);
    assert SameBinding(a, c.state.running[key].item);
  }

  lemma ItemIsAnswered(c: Config, threadId: int)
    requires Inv(c.state) && Provenance(c) && Agree(c.log.accepted) && ThreadHasRunningItem(c.state, threadId)
    ensures IsRunningIn(c.state, threadId)
  {
    var key :| key in c.state.running && !c.state.running[key].phase.Done?
            && c.state.running[key].item.threadId == Some(threadId);
    var item := c.state.running[key].item;
    AcceptedThreadIsKnown(c, item);
    var a := ThreadKeyIsAccepted(c, threadId);
    assert SameBinding(a, item);
    KeyIsNonEmpty(item);
  }

  lemma KeyIsNonEmpty(item: WorkItem)
    ensures item.Key() != ""
  {
  }

  /** When all accepted items follow one injective thread/issue binding, `is_running(t)` holds exactly
      while an item of thread t has an unfinished task. */
  lemma IsRunningIsExact(capacity: int, events: seq<Event>, threadId: int)
    requires FollowOneBinding(Run(Start(capacity), events).log.accepted)
    ensures IsRunningExactFor(Run(Start(capacity), events).state, threadId)
  {
    var c := Run(Start(capacity), events);
    RunKeepsInv(Start(capacity), events);
    RunKeepsProvenance(capacity, events);
    BindingsAgree(c.log.accepted);
    if IsRunningIn(c.state, threadId) {
      AnswerHasItem(c, threadId);
    }
    if ThreadHasRunningItem(c.state, threadId) {
      ItemIsAnswered(c, threadId);
    }
  }

  lemma BindingsAgree(items: seq<WorkItem>)
    requires FollowOneBinding(items)
    ensures Agree(items)
  {
    forall a, b | a in items && b in items && a.threadId.Some? ensures SameBinding(a, b) {
      var i :| 0 <= i < |items| && items[i] == a;
      var j :| 0 <= j < |items| && items[j] == b;
    }
  }

  // ----- and only then -----

  /** Every item ever accepted comes from the pool. */
  ghost predicate DrawsFrom(c: Config, pool: iset<WorkItem>) {
    forall i :: 0 <= i < |c.log.accepted| ==> c.log.accepted[i] in pool
  }

  ghost predicate PoolFollowsBinding(pool: iset<WorkItem>) {
    forall a, b :: a in pool && b in pool && a.threadId.Some? ==> SameBinding(a, b)
  }

  /** Whatever is enqueued from the pool, and whenever, `is_running` answers rightly for every thread. */
  ghost predicate AlwaysExact(capacity: int, pool: iset<WorkItem>) {
    forall events, t ::
      DrawsFrom(Run(Start(capacity), events), pool) ==> IsRunningExactFor(Run(Start(capacity), events).state, t)
  }

  ghost function Enter(item: WorkItem): seq<Event> {
    [Enqueue(item), CheckCapacity, Get]
  }

  lemma UnfoldThree(c: Config, x: Event, y: Event, z: Event)
    ensures Run(c, [x, y, z]) == Advance(Advance(Advance(c, x), y), z)
  {
    UnfoldTwo(c, x, y);
    assert [x, y, z][..2] == [x, y];
  }

  /** An idle orchestrator enqueues and starts one item. */
  lemma EnterIdle(c: Config, item: WorkItem)
    requires c.state.queue == [] && c.state.running == map[] && c.state.phase.Serving? && c.state.capacity >= 1
    requires c.state.dispatcher.Absent? || c.state.dispatcher.AtCapacityCheck?
    ensures var next := Run(c, Enter(item));
      && next.state == c.state.(running := map[item.Key() := Task(item, Created)], dispatcher := AtCapacityCheck,
                                threadToKey := Remember(c.state.threadToKey, item))
      && next.log.accepted == c.log.accepted + [item]
  {
    UnfoldThree(c, Enqueue(item), CheckCapacity, Get);
    assert Remember(Remember(c.state.threadToKey, item), item) == Remember(c.state.threadToKey, item);
    assert Unfinished(map[]) == map[];
  }

  lemma SecondKeyIsMissed(c: Config, a: WorkItem, b: WorkItem)
    requires Inv(c.state) && c.state.phase.Serving? && c.state.queue == []
    requires c.state.running == map[a.Key() := Task(a, Created)]
    requires a.threadId.Some? && b.threadId == a.threadId && b.Key() != a.Key()
    ensures var next := Advance(c, Enqueue(b));
      && next.log.accepted == c.log.accepted + [b]
      && ThreadHasRunningItem(next.state, a.threadId.value) && !IsRunningIn(next.state, a.threadId.value)
  {
    assert c.state.running[a.Key()].item == a;
    assert ThreadHasRunningItem(c.state, a.threadId.value);
    EnqueueKeepsIsRunningExact(c.state, b);
  }

  /** A thread whose item runs is enqueued under a second key: the running item is missed. */
  lemma RekeyedThreadIsMissed(capacity: int, a: WorkItem, b: WorkItem) returns (events: seq<Event>)
    requires capacity >= 1 && a.threadId.Some? && b.threadId == a.threadId && b.Key() != a.Key()
    ensures var c := Run(Start(capacity), events);
      && c.log.accepted == [a, b]
      && ThreadHasRunningItem(c.state, a.threadId.value) && !IsRunningIn(c.state, a.threadId.value)
  {
    var c := Start(capacity);
    EnterIdle(c, a);
    var mid := Run(c, Enter(a));
    RunKeepsInv(c, Enter(a));
    SecondKeyIsMissed(mid, a, b);
    RunAppend(c, Enter(a), [Enqueue(b)]);
    UnfoldOne(mid, Enqueue(b));
    events := Enter(a) + [Enqueue(b)];
  }

  ghost function Visit(item: WorkItem): seq<Event> {
    Enter(item) + [Begin(item.Key()), Finish(item.Key(), Returned)]
  }

  /** The only task runs to its end. */
  lemma PerformAlone(c: Config, item: WorkItem)
    requires c.state.running == map[item.Key() := Task(item, Created)]
    requires c.state.phase.Serving?
    ensures var next := Run(c, [Begin(item.Key()), Finish(item.Key(), Returned)]);
      next.state == c.state.(running := map[]) && next.log.accepted == c.log.accepted
  {
    var begun := Advance(c, Begin(item.Key()));
    UnfoldTwo(c, Begin(item.Key()), Finish(item.Key(), Returned));
    assert begun.state == c.state.(running := map[item.Key() := Task(item, Executing)]);
    assert begun.state.running - {item.Key()} == map[];
  }

  /** An idle orchestrator runs one item to its end and is idle again; only the thread map remembers it. */
  lemma VisitIdle(c: Config, item: WorkItem)
    requires c.state.queue == [] && c.state.running == map[] && c.state.phase.Serving? && c.state.capacity >= 1
    requires c.state.dispatcher.Absent? || c.state.dispatcher.AtCapacityCheck?
    ensures var next := Run(c, Visit(item));
      && next.state == c.state.(dispatcher := AtCapacityCheck, threadToKey := Remember(c.state.threadToKey, item))
      && next.log.accepted == c.log.accepted + [item]
  {
    EnterIdle(c, item);
    RunAppend(c, Enter(item), [Begin(item.Key()), Finish(item.Key(), Returned)]);
    PerformAlone(Run(c, Enter(item)), item);
  }

  /** A key that served one thread and now serves another item: the first thread is reported as running. */
  lemma SharedKeyIsMisread(capacity: int, a: WorkItem, b: WorkItem) returns (events: seq<Event>)
    requires capacity >= 1 && a.threadId.Some? && b.threadId != a.threadId && b.Key() == a.Key()
    ensures var c := Run(Start(capacity), events);
      && c.log.accepted == [a, b]
      && IsRunningIn(c.state, a.threadId.value) && !ThreadHasRunningItem(c.state, a.threadId.value)
  {
    VisitIdle(Start(capacity), a);
    EnterIdle(Run(Start(capacity), Visit(a)), b);
    RunAppend(Start(capacity), Visit(a), Enter(b));
    events := Visit(a) + Enter(b);
    KeyIsNonEmpty(a);
  }

  /** `is_running` is right for every thread in every run over a pool of items exactly when nothing can run at
      all or the pool follows one binding: no thread under two keys, no key shared by two threads. */
  lemma IsRunningIsExactExactlyWhen(capacity: int, pool: iset<WorkItem>)
    ensures AlwaysExact(capacity, pool) <==> capacity <= 0 || PoolFollowsBinding(pool)
  {
    if capacity <= 0 || PoolFollowsBinding(pool) {
      forall events, t | DrawsFrom(Run(Start(capacity), events), pool)
        ensures IsRunningExactFor(Run(Start(capacity), events).state, t)
      {
        if capacity <= 0 {
          NothingRuns(capacity, events);
        } else {
          IsRunningIsExact(capacity, events, t);
        }
      }
    } else {
      var a, b :| a in pool && b in pool && a.threadId.Some? && !SameBinding(a, b);
      BrokenBindingShows(capacity, pool, a, b);
    }
  }

  lemma NothingRuns(capacity: int, events: seq<Event>)
    requires capacity <= 0
    ensures Run(Start(capacity), events).state.running == map[]
  {
    Safety(capacity, events);
    assert |Run(Start(capacity), events).state.running| == 0;
  }

  lemma BrokenBindingShows(capacity: int, pool: iset<WorkItem>, a: WorkItem, b: WorkItem)
    requires capacity >= 1 && a in pool && b in pool && a.threadId.Some? && !SameBinding(a, b)
    ensures !AlwaysExact(capacity, pool)
  {
    var events;
    if b.threadId == a.threadId {
      events := RekeyedThreadIsMissed(capacity, a, b);
    } else {
      events := SharedKeyIsMisread(capacity, a, b);
    }
    assert DrawsFrom(Run(Start(capacity), events), pool);
    assert !IsRunningExactFor(Run(Start(capacity), events).state, a.threadId.value);
  }

  /** The first kind of failure at the step where it arises, for the thread that is enqueued: its answer is wrong
      afterwards exactly when an item of it is running. */
  lemma EnqueueKeepsIsRunningExact(s: State, item: WorkItem)
    requires Inv(s) && Accepts(s, item) && item.threadId.Some?
    ensures IsRunningExactFor(Step(s, Enqueue(item)), item.threadId.value)
       <==> !ThreadHasRunningItem(s, item.threadId.value)
  {
    var next := Step(s, Enqueue(item));
    assert next.running == s.running;
    assert next.threadToKey[item.threadId.value] == item.Key();
    assert !IsRunningIn(next, item.threadId.value);
    assert ThreadHasRunningItem(next, item.threadId.value) <==> ThreadHasRunningItem(s, item.threadId.value);
  }

  /** The failing family is inhabited: one thread, two issue keys. */
  lemma IsRunningMissesRekeyedThread()
    ensures exists events :: var s := Run(Start(2), events).state;
      ThreadHasRunningItem(s, 7) && !IsRunningIn(s, 7)
  {
    var a := WorkItem(Some(7), "o/r", None, "o/r#1", "");
    var b := WorkItem(Some(7), "o/r", None, "o/r#2", "");
    assert "o/r#1"[4] != "o/r#2"[4];
    var events := RekeyedThreadIsMissed(2, a, b);
  }
}
