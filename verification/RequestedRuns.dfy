/** From the scheduler to the orchestrator: when the items built from its requests get exact answers from `is_running`. */
module RequestedRuns {
  import opened Basics
  import opened IssueScheduler
  import opened SchedulerRuns
  import opened ThreadOwnership
  import O = Orchestrator
  import R = OrchestratorRuns

  /** The item `enqueue_issue_run` builds for a request. */
  function ItemOf(r: Request, repoFullName: string, issueNumber: Option<string>): O.WorkItem {
    O.WorkItem(Some(r.threadId), repoFullName, issueNumber, r.issueKey, r.issueKey)
  }

  /** Items for the requests made between s and t. */
  ghost predicate IsAskedFor(item: O.WorkItem, s: Store, t: Store, j: int) {
    && 0 <= |s.requests| <= j < |t.requests|
    && item == ItemOf(t.requests[j], item.repoFullName, item.issueNumber)
  }

  ghost predicate WasAskedFor(item: O.WorkItem, s: Store, t: Store) {
    exists j :: IsAskedFor(item, s, t, j)
  }

  ghost function ItemsAskedFor(s: Store, t: Store): iset<O.WorkItem> {
    iset item | WasAskedFor(item, s, t)
  }

  /** No thread is named in requests for two issues. */
  ghost predicate ThreadsApart(s: Store, t: Store) {
    forall i, j ::
      |s.requests| <= i < |t.requests| && |s.requests| <= j < |t.requests| &&
      t.requests[i].threadId == t.requests[j].threadId ==>
        t.requests[i].issueKey == t.requests[j].issueKey
  }

  lemma ItemsAgreeExactlyWhen(t: Store, a: Request, b: Request, x: O.WorkItem, y: O.WorkItem)
    requires Names(t, a) && Names(t, b)
    requires x == ItemOf(a, x.repoFullName, x.issueNumber) && y == ItemOf(b, y.repoFullName, y.issueNumber)
    ensures R.SameBinding(x, y) <==> (a.threadId == b.threadId ==> a.issueKey == b.issueKey)
  {
  }

  lemma PoolFollowsBindingExactlyWhen(s: Store, t: Store)
    requires NewOnesName(s, t)
    ensures R.PoolFollowsBinding(ItemsAskedFor(s, t)) <==> ThreadsApart(s, t)
  {
    if ThreadsApart(s, t) {
      forall x, y | x in ItemsAskedFor(s, t) && y in ItemsAskedFor(s, t) ensures R.SameBinding(x, y) {
        var i :| IsAskedFor(x, s, t, i);
        var j :| IsAskedFor(y, s, t, j);
        ItemsAgreeExactlyWhen(t, t.requests[i], t.requests[j], x, y);
      }
    }
    if R.PoolFollowsBinding(ItemsAskedFor(s, t)) {
      forall i, j | |s.requests| <= i < |t.requests| && |s.requests| <= j < |t.requests|
        && t.requests[i].threadId == t.requests[j].threadId
        ensures t.requests[i].issueKey == t.requests[j].issueKey
      {
        var x, y := ItemOf(t.requests[i], "", None), ItemOf(t.requests[j], "", None);
        assert IsAskedFor(x, s, t, i) && IsAskedFor(y, s, t, j);
        assert WasAskedFor(x, s, t) && WasAskedFor(y, s, t);
        assert x in ItemsAskedFor(s, t) && y in ItemsAskedFor(s, t);
        ItemsAgreeExactlyWhen(t, t.requests[i], t.requests[j], x, y);
      }
    }
  }

  /** For the runs any number of ticks asks for, from any store: `is_running` is right for every thread in every run of
      the orchestrator if and only if nothing can run at all or no thread was named for two issues. */
  lemma {:induction false} IsRunningIsExactForTicksExactlyWhen(
    capacity: int, s: Store, inputs: seq<TickInput>, projectEnabled: bool)
    ensures var t := Ticks(s, inputs, projectEnabled);
      R.AlwaysExact(capacity, ItemsAskedFor(s, t)) <==> capacity <= 0 || ThreadsApart(s, t)
  {
    var t := Ticks(s, inputs, projectEnabled);
    TicksName(s, inputs, projectEnabled);
    PoolFollowsBindingExactlyWhen(s, t);
    R.IsRunningIsExactExactlyWhen(capacity, ItemsAskedFor(s, t));
  }

  /** A thread is named for two issues only if the record of one of them was disowned from the start. */
  lemma {:induction false} SharedThreadIsDisowned(s: Store, inputs: seq<TickInput>, projectEnabled: bool, i: nat, j: nat)
    requires |s.requests| <= i < |Ticks(s, inputs, projectEnabled).requests|
    requires |s.requests| <= j < |Ticks(s, inputs, projectEnabled).requests|
    ensures var rs := Ticks(s, inputs, projectEnabled).requests;
      rs[i].threadId == rs[j].threadId && rs[i].issueKey != rs[j].issueKey ==>
        Disowned(s, rs[i].issueKey) || Disowned(s, rs[j].issueKey)
  {
    var t := Ticks(s, inputs, projectEnabled);
    RequestsNameBoundThreadsExactlyWhen(s, inputs, projectEnabled);
    assert Names(t, t.requests[i]) && Names(t, t.requests[j]);
  }

  /** So from consistent bindings the answers are always exact. */
  lemma {:induction false} ConsistentTicksGetExactAnswers(
    capacity: int, s: Store, inputs: seq<TickInput>, projectEnabled: bool)
    requires Consistent(s)
    ensures R.AlwaysExact(capacity, ItemsAskedFor(s, Ticks(s, inputs, projectEnabled)))
  {
    var t := Ticks(s, inputs, projectEnabled);
    forall i, j | |s.requests| <= i < |t.requests| && |s.requests| <= j < |t.requests|
      && t.requests[i].threadId == t.requests[j].threadId
      ensures t.requests[i].issueKey == t.requests[j].issueKey
    {
      SharedThreadIsDisowned(s, inputs, projectEnabled, i, j);
      ConsistentIsLinked(s, t.requests[i].issueKey);
      ConsistentIsLinked(s, t.requests[j].issueKey);
    }
    IsRunningIsExactForTicksExactlyWhen(capacity, s, inputs, projectEnabled);
  }
}
