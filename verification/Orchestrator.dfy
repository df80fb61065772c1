/** The run orchestrator of app/orchestrator.py: one dispatcher task, an unbounded queue, dedupe sets
    and a concurrency cap. The class keeps the fields of the original and its methods are the pieces
    between two `await`s; the functions above it are the simple machine it is proved to implement. */
module Orchestrator {
  import opened Basics
  import Decimal

  datatype WorkItem = WorkItem(
    threadId: Option<int>,
    repoFullName: string,
    issueNumber: Option<string>,
    issueKey: string,
    workspaceKey: string)
  {
    function Key(): string {
      if issueKey != "" then issueKey
      else if workspaceKey != "" then workspaceKey
      else repoFullName + "#" + match issueNumber {
        case Some(number) => number
        case None => match threadId { case Some(t) => Decimal.PrintInt(t) case None => "None" }
      }
    }
  }

  /** A task exists from `create_task` on, executes once it is scheduled, and is done when `_run_item`
      returned or the task was cancelled before its first step. */
  datatype TaskPhase = Created | Executing | Done
  datatype Task = Task(item: WorkItem, phase: TaskPhase)

  /** Program counter of `_dispatch_loop`; Absent when no dispatcher task is alive. */
  datatype Dispatcher = Absent | AtCapacityCheck | Sleeping | AtGet

  /** Progress of `drain`: the dispatcher is cancelled first, then the queue and the tasks. */
  datatype Phase = Serving | DispatcherCancelled | TasksCancelled

  datatype Outcome = Returned | Raised

  /** The simple machine: the dedupe sets of the class are functions of the queue and the running map. */
  datatype State = State(
    queue: seq<WorkItem>,
    running: map<string, Task>,
    threadToKey: map<int, string>,
    dispatcher: Dispatcher,
    phase: Phase,
    capacity: int)

  function Init(capacity: int): State {
    State([], map[], map[], Absent, Serving, capacity)
  }

  /** What `is_running` answers: it looks only at the last key the thread was seen with. */
  predicate IsRunningIn(s: State, threadId: int) {
    && threadId in s.threadToKey && s.threadToKey[threadId] != ""
    && s.threadToKey[threadId] in s.running
    && !s.running[s.threadToKey[threadId]].phase.Done?
  }

  ghost function KeysOf(queue: seq<WorkItem>): set<string> {
    set i | 0 <= i < |queue| :: queue[i].Key()
  }

  ghost function ThreadsOf(queue: seq<WorkItem>): set<int> {
    set i | 0 <= i < |queue| && queue[i].threadId.Some? :: queue[i].threadId.value
  }

  /** The item is refused when its thread or its key is queued, or its key is running. */
  ghost predicate Accepts(s: State, item: WorkItem) {
    && s.phase.Serving?
    && item.Key() !in s.running
    && item.Key() !in KeysOf(s.queue)
    && (item.threadId.Some? ==> item.threadId.value !in ThreadsOf(s.queue))
  }

  function Remember(threadToKey: map<int, string>, item: WorkItem): map<int, string> {
    if item.threadId.Some? then threadToKey[item.threadId.value := item.Key()] else threadToKey
  }

  function Unfinished(running: map<string, Task>): map<string, Task> {
    map key | key in running && running[key].phase != Done :: running[key]
  }

  datatype Event =
    | Enqueue(item: WorkItem)
    | CheckCapacity
    | Wake
    | Get
    | Cleanup
    | Begin(key: string)
    | Finish(key: string, outcome: Outcome)
    | CancelDispatcher
    | CancelTasks
    | CancelUnstarted(key: string)
    | DrainEnd

  ghost predicate Enabled(s: State, e: Event) {
    match e
    case Enqueue(item) => Accepts(s, item)
    case CheckCapacity => s.dispatcher.AtCapacityCheck?
    case Wake => s.dispatcher.Sleeping?
    case Get => s.dispatcher.AtGet? && s.queue != []
    case Cleanup => true
    case Begin(key) => key in s.running && s.running[key].phase.Created?
    case Finish(key, _) => key in s.running && s.running[key].phase.Executing?
    case CancelDispatcher => s.phase.Serving?
    case CancelTasks => s.phase.DispatcherCancelled?
    case CancelUnstarted(key) => s.phase.TasksCancelled? && key in s.running && s.running[key].phase.Created?
    case DrainEnd => s.phase.TasksCancelled? && forall key :: key in s.running ==> s.running[key].phase.Done?
  }

  ghost function Step(s: State, e: Event): State
    requires Enabled(s, e)
  {
    match e
    case Enqueue(item) =>
      s.(queue := s.queue + [item], threadToKey := Remember(s.threadToKey, item),
         dispatcher := if s.dispatcher.Absent? then AtCapacityCheck else s.dispatcher)
    case CheckCapacity => s.(dispatcher := if |s.running| >= s.capacity then Sleeping else AtGet)
    case Wake => s.(dispatcher := AtCapacityCheck, running := Unfinished(s.running))
    case Get =>
      var item := s.queue[0];
      s.(queue := s.queue[1..], threadToKey := Remember(s.threadToKey, item),
         running := Unfinished(s.running)[item.Key() := Task(item, Created)], dispatcher := AtCapacityCheck)
    case Cleanup => s.(running := Unfinished(s.running))
    case Begin(key) => s.(running := s.running[key := s.running[key].(phase := Executing)])
    case Finish(key, _) => s.(running := s.running - {key})
    case CancelDispatcher => s.(dispatcher := Absent, phase := DispatcherCancelled)
    case CancelTasks => s.(queue := [], phase := TasksCancelled)
    case CancelUnstarted(key) => s.(running := s.running[key := s.running[key].(phase := Done)])
    case DrainEnd => s.(running := map[], phase := Serving)
  }

  ghost predicate DistinctKeys(queue: seq<WorkItem>) {
    forall i, j :: 0 <= i < j < |queue| ==> queue[i].Key() != queue[j].Key()
  }

  ghost predicate DistinctThreads(queue: seq<WorkItem>) {
    forall i, j :: 0 <= i < j < |queue| && queue[i].threadId.Some? ==> queue[i].threadId != queue[j].threadId
  }

  ghost predicate Inv(s: State) {
    && DistinctKeys(s.queue)
    && DistinctThreads(s.queue)
    && (forall i :: 0 <= i < |s.queue| ==> s.queue[i].Key() !in s.running)
    && (forall key :: key in s.running ==> s.running[key].item.Key() == key)
    && (!s.phase.TasksCancelled? ==> forall key :: key in s.running ==> !s.running[key].phase.Done?)
    && (s.dispatcher.AtGet? ==> |s.running| < s.capacity)
    && |s.running| <= Max(s.capacity, 0)
    && (!s.phase.Serving? ==> s.dispatcher.Absent?)
    && (s.phase.TasksCancelled? ==> s.queue == [])
    && (s.phase.Serving? && s.dispatcher.Absent? ==> s.queue == [])
  }

  lemma UnfinishedShrinks(running: map<string, Task>)
    ensures |Unfinished(running)| <= |running|
    ensures (forall key :: key in running ==> !running[key].phase.Done?) ==> Unfinished(running) == running
  {
    assert Unfinished(running).Keys <= running.Keys;
    SubsetSize(Unfinished(running).Keys, running.Keys);
  }

  lemma {:induction false} SubsetSize<T>(a: set<T>, b: set<T>)
    requires a <= b
    ensures |a| <= |b|
  {
    assert b == a + (b - a);
    assert |b| == |a| + |b - a|;
  }

  lemma RemovedKeySize(running: map<string, Task>, key: string)
    requires key in running
    ensures |running - {key}| == |running| - 1
  {
    assert (running - {key}).Keys == running.Keys - {key};
  }

  lemma {:induction false} EnqueueKeepsInv(s: State, item: WorkItem)
    requires Inv(s) && Accepts(s, item)
    ensures Inv(Step(s, Enqueue(item)))
  {
    var next := Step(s, Enqueue(item));
    forall i | 0 <= i < |s.queue|
      ensures next.queue[i].Key() != item.Key()
      ensures next.queue[i].threadId.Some? ==> next.queue[i].threadId != item.threadId
    {
      assert s.queue[i].Key() in KeysOf(s.queue);
      assert s.queue[i].threadId.Some? ==> s.queue[i].threadId.value in ThreadsOf(s.queue);
    }
  }

  lemma {:induction false} GetKeepsInv(s: State)
    requires Inv(s) && Enabled(s, Get)
    ensures Inv(Step(s, Get))
  {
    UnfinishedShrinks(s.running);
    var next := Step(s, Get);
    assert next.running == s.running[s.queue[0].Key() := Task(s.queue[0], Created)];
    assert forall i :: 0 <= i < |next.queue| ==> next.queue[i] == s.queue[i + 1];
  }

  lemma {:induction false} TaskStepKeepsInv(s: State, e: Event)
    requires Inv(s) && Enabled(s, e) && (e.Begin? || e.Finish? || e.CancelUnstarted?)
    ensures Inv(Step(s, e))
  {
    if e.Finish? {
      RemovedKeySize(s.running, e.key);
    } else {
      assert Step(s, e).running.Keys == s.running.Keys;
      assert |Step(s, e).running.Keys| == |Step(s, e).running|;
    }
  }

  lemma {:induction false} StepKeepsInv(s: State, e: Event)
    requires Inv(s) && Enabled(s, e)
    ensures Inv(Step(s, e))
  {
    match e {
      case Enqueue(item) => EnqueueKeepsInv(s, item);
      case Get => GetKeepsInv(s);
      case Begin(_) => TaskStepKeepsInv(s, e);
      case Finish(_, _) => TaskStepKeepsInv(s, e);
      case CancelUnstarted(_) => TaskStepKeepsInv(s, e);
      case _ => UnfinishedShrinks(s.running);
    }
  }

  /** The orchestrator object. `Valid` ties every redundant field to the simple machine's state. */
  class RunOrchestrator {
    const maxConcurrency: int
    var queue: seq<WorkItem>
    var running: map<string, Task>
    var runningKeys: set<string>
    var queuedThreadIds: set<int>
    var queuedKeys: set<string>
    var threadToKey: map<int, string>
    var dispatcher: Dispatcher
    ghost var phase: Phase

    ghost function Snapshot(): State
      reads this
    {
      State(queue, running, threadToKey, dispatcher, phase, maxConcurrency)
    }

    ghost predicate Valid()
      reads this
    {
      && Inv(Snapshot())
      && (!phase.TasksCancelled? ==> runningKeys == running.Keys)
      && queuedKeys == KeysOf(queue)
      && queuedThreadIds == ThreadsOf(queue)
    }

    constructor (maxConcurrency: int)
      ensures Valid() && Snapshot() == Init(maxConcurrency)
    {
      this.maxConcurrency := maxConcurrency;
      queue, running, runningKeys := [], map[], {};
      queuedThreadIds, queuedKeys, threadToKey := {}, {}, map[];
      dispatcher, phase := Absent, Serving;
    }

    predicate IsKeyRunning(key: string)
      reads this
    {
      key in running && !running[key].phase.Done?
    }

    method EnsureStarted()
      modifies this`dispatcher
      ensures dispatcher == if old(dispatcher).Absent? then AtCapacityCheck else old(dispatcher)
    {
      if dispatcher.Absent? {
        dispatcher := AtCapacityCheck;
      }
    }

    /** The updates of an accepted call. */
    method Admit(item: WorkItem)
      modifies this`queue, this`queuedThreadIds, this`queuedKeys, this`threadToKey, this`dispatcher
      ensures queue == old(queue) + [item] && queuedKeys == old(queuedKeys) + {item.Key()}
      ensures queuedThreadIds == old(queuedThreadIds) + if item.threadId.Some? then {item.threadId.value} else {}
      ensures threadToKey == Remember(old(threadToKey), item)
      ensures dispatcher == if old(dispatcher).Absent? then AtCapacityCheck else old(dispatcher)
    {
      if item.threadId.Some? {
        queuedThreadIds := queuedThreadIds + {item.threadId.value};
        threadToKey := threadToKey[item.threadId.value := item.Key()];
      }
      queue := queue + [item];
      queuedKeys := queuedKeys + {item.Key()};
      EnsureStarted();
    }

    /** The four refusal tests of the original decide exactly `Accepts`; an accepted call is one step. */
    method EnqueueItem(item: WorkItem) returns (accepted: bool)
      requires Valid() && phase.Serving?
      modifies this
      ensures Valid()
      ensures accepted <==> Accepts(old(Snapshot()), item)
      ensures accepted ==> Snapshot() == Step(old(Snapshot()), Enqueue(item))
      ensures !accepted ==> Snapshot() == old(Snapshot())
    {
      var itemKey := item.Key();
      if (item.threadId.Some? && item.threadId.value in queuedThreadIds)
         || itemKey in runningKeys || itemKey in queuedKeys
      {
        return false;
      }
      if item.threadId.Some? && IsKeyRunning(itemKey) {
        return false;
      }
      ghost var before := Snapshot();
      StepKeepsInv(before, Enqueue(item));
      AppendSets(queue, item);
      Admit(item);
      assert Snapshot() == Step(before, Enqueue(item));
      return true;
    }

    method CheckCapacityStep()
      requires Valid() && dispatcher.AtCapacityCheck?
      modifies this`dispatcher
      ensures Valid() && Snapshot() == Step(old(Snapshot()), CheckCapacity)
    {
      if |running| >= maxConcurrency {
        dispatcher := Sleeping;
      } else {
        dispatcher := AtGet;
      }
    }

    method CleanupFinished()
      modifies this`running
      ensures running == Unfinished(old(running))
    {
      var stale := set key | key in running && running[key].phase.Done?;
      ghost var before := running;
      while stale != {}
        invariant stale <= running.Keys
        invariant forall key :: key in running ==> key in before && running[key] == before[key]
        invariant forall key :: key in before && key !in running ==> before[key].phase.Done?
        invariant forall key :: key in running && running[key].phase.Done? ==> key in stale
        invariant forall key :: key in stale ==> running[key].phase.Done?
        decreases stale
      {
        var key :| key in stale;
        running := running - {key};
        stale := stale - {key};
      }
      assert running == Unfinished(before);
    }

    /** Outside a drain there is never a finished task to prune, so the count is the number of live tasks. */
    method ActiveCount() returns (count: nat)
      requires Valid()
      modifies this`running
      ensures Valid() && Snapshot() == Step(old(Snapshot()), Cleanup)
      ensures phase.Serving? ==> running == old(running)
      ensures count == |running|
    {
      StepKeepsInv(Snapshot(), Cleanup);
      UnfinishedShrinks(running);
      CleanupFinished();
      count := |running|;
    }

    method WakeStep()
      requires Valid() && dispatcher.Sleeping?
      modifies this`running, this`dispatcher
      ensures Valid() && Snapshot() == Step(old(Snapshot()), Wake)
    {
      StepKeepsInv(Snapshot(), Wake);
      UnfinishedShrinks(running);
      CleanupFinished();
      dispatcher := AtCapacityCheck;
    }

    method TakeItem() returns (item: WorkItem)
      requires Valid() && queue != []
      modifies this`queue, this`queuedThreadIds, this`queuedKeys, this`threadToKey
      ensures item == old(queue)[0] && queue == old(queue)[1..]
      ensures queuedKeys == KeysOf(queue) && queuedThreadIds == ThreadsOf(queue)
      ensures threadToKey == Remember(old(threadToKey), item)
    {
      TailSets(queue);
      item := queue[0];
      queue := queue[1..];
      if item.threadId.Some? {
        queuedThreadIds := queuedThreadIds - {item.threadId.value};
        threadToKey := threadToKey[item.threadId.value := item.Key()];
      }
      queuedKeys := queuedKeys - {item.Key()};
    }

    /** The second half of a round: prune, create the task, go back to the capacity check. */
    method StartTask(item: WorkItem)
      modifies this`running, this`runningKeys, this`dispatcher
      ensures running == Unfinished(old(running))[item.Key() := Task(item, Created)]
      ensures runningKeys == old(runningKeys) + {item.Key()} && dispatcher == AtCapacityCheck
    {
      CleanupFinished();
      running := running[item.Key() := Task(item, Created)];
      runningKeys := runningKeys + {item.Key()};
      dispatcher := AtCapacityCheck;
    }

    method GetStep()
      requires Valid() && dispatcher.AtGet? && queue != []
      modifies this
      ensures Valid() && Snapshot() == Step(old(Snapshot()), Get)
    {
      ghost var before := Snapshot();
      StepKeepsInv(before, Get);
      UnfinishedShrinks(running);
      var item := TakeItem();
      StartTask(item);
      assert Snapshot() == Step(before, Get);
    }

    method BeginTask(key: string)
      requires Valid() && Enabled(Snapshot(), Begin(key))
      modifies this`running
      ensures Valid() && Snapshot() == Step(old(Snapshot()), Begin(key))
    {
      StepKeepsInv(Snapshot(), Begin(key));
      running := running[key := running[key].(phase := Executing)];
    }

    /** The `finally` of `_run_item` releases the key whether the executor returned or raised. */
    method FinishTask(key: string, outcome: Outcome)
      requires Valid() && Enabled(Snapshot(), Finish(key, outcome))
      modifies this`running, this`runningKeys
      ensures Valid() && Snapshot() == Step(old(Snapshot()), Finish(key, outcome))
      ensures key !in running && key !in runningKeys
    {
      ghost var before := Snapshot();
      StepKeepsInv(before, Finish(key, outcome));
      running := running - {key};
      runningKeys := runningKeys - {key};
      assert Snapshot() == Step(before, Finish(key, outcome));
    }

    method DrainCancelDispatcher()
      requires Valid() && phase.Serving?
      modifies this`dispatcher, this`phase
      ensures Valid() && Snapshot() == Step(old(Snapshot()), CancelDispatcher)
    {
      dispatcher, phase := Absent, DispatcherCancelled;
    }

    method EmptyQueue()
      modifies this`queue
      ensures queue == []
    {
      while queue != []
        decreases |queue|
      {
        queue := queue[1..];
      }
    }

    method DrainCancelTasks()
      requires Valid() && phase.DispatcherCancelled?
      modifies this
      ensures Valid() && Snapshot() == Step(old(Snapshot()), CancelTasks)
    {
      StepKeepsInv(Snapshot(), CancelTasks);
      EmptyQueue();
      queuedThreadIds, queuedKeys := {}, {};
      phase := TasksCancelled;
    }

    method CancelUnstartedTask(key: string)
      requires Valid() && Enabled(Snapshot(), CancelUnstarted(key))
      modifies this`running
      ensures Valid() && Snapshot() == Step(old(Snapshot()), CancelUnstarted(key))
    {
      StepKeepsInv(Snapshot(), CancelUnstarted(key));
      running := running[key := running[key].(phase := Done)];
    }

    method DrainFinish()
      requires Valid() && Enabled(Snapshot(), DrainEnd)
      modifies this`running, this`runningKeys, this`phase
      ensures Valid() && Snapshot() == Step(old(Snapshot()), DrainEnd)
      ensures queue == [] && running == map[] && runningKeys == {} && queuedKeys == {} && queuedThreadIds == {}
    {
      StepKeepsInv(Snapshot(), DrainEnd);
      running, runningKeys, phase := map[], {}, Serving;
    }

    predicate IsRunning(threadId: int)
      reads this
      ensures IsRunning(threadId) <==> IsRunningIn(Snapshot(), threadId)
    {
      threadId in threadToKey && threadToKey[threadId] != "" && IsKeyRunning(threadToKey[threadId])
    }

    predicate IsQueued(threadId: int)
      requires Valid()
      reads this
      ensures IsQueued(threadId) <==> exists i :: 0 <= i < |queue| && queue[i].threadId == Some(threadId)
    {
      threadId in queuedThreadIds
    }
  }

  lemma AppendSets(queue: seq<WorkItem>, item: WorkItem)
    ensures KeysOf(queue + [item]) == KeysOf(queue) + {item.Key()}
    ensures ThreadsOf(queue + [item])
         == ThreadsOf(queue) + if item.threadId.Some? then {item.threadId.value} else {}
  {
    var longer := queue + [item];
    assert longer[|queue|] == item;
    forall key | key in KeysOf(queue) + {item.Key()} ensures key in KeysOf(longer) {
      if key != item.Key() {
        var i :| 0 <= i < |queue| && queue[i].Key() == key;
        assert longer[i] == queue[i];
      }
    }
    forall t | t in ThreadsOf(queue) ensures t in ThreadsOf(longer) {
      var i :| 0 <= i < |queue| && queue[i].threadId == Some(t);
      assert longer[i] == queue[i];
    }
  }

  lemma TailSets(queue: seq<WorkItem>)
    requires queue != [] && DistinctKeys(queue) && DistinctThreads(queue)
    ensures KeysOf(queue[1..]) == KeysOf(queue) - {queue[0].Key()}
    ensures ThreadsOf(queue[1..])
         == ThreadsOf(queue) - if queue[0].threadId.Some? then {queue[0].threadId.value} else {}
  {
    assert queue == [queue[0]] + queue[1..];
    forall key | key in KeysOf(queue) && key != queue[0].Key() ensures key in KeysOf(queue[1..]) {
      var i :| 0 <= i < |queue| && queue[i].Key() == key;
      assert queue[1..][i - 1] == queue[i];
    }
    forall t | t in ThreadsOf(queue) && queue[0].threadId != Some(t) ensures t in ThreadsOf(queue[1..]) {
      var i :| 0 <= i < |queue| && queue[i].threadId == Some(t);
      assert queue[1..][i - 1] == queue[i];
    }
  }
}
