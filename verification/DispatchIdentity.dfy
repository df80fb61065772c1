/** The store's bindings make the orchestrator's per-thread answers exact. */
module DispatchIdentity {
  import opened Basics
  import opened Identifiers
  import S = StateStore
  import O = Orchestrator
  import R = OrchestratorRuns

  const EmptyStore := S.Store(map[], map[], map[])

  /** The item was built from a binding that held after some prefix of the store operations. */
  ghost predicate BuiltFromBinding(item: O.WorkItem, ops: seq<S.Op>) {
    exists n :: 0 <= n <= |ops| && BuiltAt(item, ops, n)
  }

  ghost predicate BuiltAt(item: O.WorkItem, ops: seq<S.Op>, n: nat)
    requires n <= |ops|
  {
    var s := S.Replay(EmptyStore, ops[..n]);
    item.threadId.Some? && item.threadId.value in s.bindings && item.Key() == s.bindings[item.threadId.value]
  }

  /** Items built at different times from the store's bindings agree with one injective binding. */
  lemma BoundItemsFollowOneBinding(items: seq<O.WorkItem>, ops: seq<S.Op>)
    requires forall i :: 0 <= i < |ops| ==> S.OpIsSound(ops[i])
    requires forall i :: 0 <= i < |items| ==> BuiltFromBinding(items[i], ops)
    ensures R.FollowOneBinding(items)
  {
    var s := S.Replay(EmptyStore, ops);
    S.BindingsStayMirrored(ops);
    forall i | 0 <= i < |items|
      ensures items[i].threadId.Some? && items[i].threadId.value in s.bindings
           && items[i].Key() == s.bindings[items[i].threadId.value]
    {
      var n :| 0 <= n <= |ops| && BuiltAt(items[i], ops, n);
      S.BindingsOnlyGrow(ops, n, items[i].threadId.value);
    }
    forall i, j | 0 <= i < |items| && 0 <= j < |items| ensures R.SameBinding(items[i], items[j]) {
      if items[i].Key() == items[j].Key() {
        S.MirroredIsInjective(s, items[i].threadId.value, items[j].threadId.value);
      }
    }
  }

  /** When every enqueued item comes from a binding, `is_running(t)` is exact in every reachable state. */
  lemma IsRunningIsExactForBoundItems(capacity: int, events: seq<O.Event>, ops: seq<S.Op>, threadId: int)
    requires forall i :: 0 <= i < |ops| ==> S.OpIsSound(ops[i])
    requires forall i :: 0 <= i < |R.Run(R.Start(capacity), events).log.accepted| ==>
      BuiltFromBinding(R.Run(R.Start(capacity), events).log.accepted[i], ops)
    ensures R.IsRunningExactFor(R.Run(R.Start(capacity), events).state, threadId)
  {
    BoundItemsFollowOneBinding(R.Run(R.Start(capacity), events).log.accepted, ops);
    R.IsRunningIsExact(capacity, events, threadId);
  }
}
