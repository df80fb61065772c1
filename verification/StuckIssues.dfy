/** From the store to the scheduler: which stuck issues settle, for every store that can be reached, and what a
    `bind_issue` that is refused for a new issue changes about it. */
module StuckIssues {
  import opened Basics
  import opened Identifiers
  import S = StateStore
  import I = IssueScheduler
  import R = SchedulerRuns
  import T = ThreadOwnership
  import B = StuckBoards

  /** The record of an issue as the scheduler reads it. */
  function RecordOf(meta: S.IssueMeta): I.Meta {
    I.Meta(meta.status, "", "", match meta.threadId case Some(t) => if t > 0 then t else 0 case None => 0)
  }

  /** What the scheduler sees of a store, for the given issues. */
  ghost function View(s: S.Store, keys: set<string>): I.Store {
    I.Store(
      map key | key in keys && S.IssueOf(s, key).meta.Some? :: RecordOf(S.IssueOf(s, key).meta.value),
      map[],
      map t: nat | t in s.bindings.Keys + s.drafts.Keys && S.IssueKeyForThread(s, t) != "" :: S.IssueKeyForThread(s, t),
      [])
  }

  /** The issues in play have different directories, and every bound thread is bound to one of them. */
  ghost predicate FilesDistinct(s: S.Store, keys: set<string>) {
    && (forall k1, k2 :: k1 in keys && k2 in keys && SafeKey(k1) == SafeKey(k2) ==> k1 == k2)
    && (forall t :: t in s.bindings ==> s.bindings[t] in keys)
  }

  lemma BoundRecordIsOwned(s: S.Store, view: I.Store, keys: set<string>, key: string)
    requires S.Mirrored(s) && FilesDistinct(s, keys) && key in keys && S.RecordBound(s, SafeKey(key))
    requires view == View(s, keys) && key in view.metas
    ensures R.Owns(view, key, view.metas[key].threadId)
  {
  }

  /** As long as records name only threads bound to them, the scheduler's view is consistent. */
  lemma ViewIsConsistent(s: S.Store, keys: set<string>)
    requires S.Mirrored(s) && S.RecordsBound(s) && FilesDistinct(s, keys)
    ensures R.Consistent(View(s, keys))
  {
    forall key | key in View(s, keys).metas ensures R.Owns(View(s, keys), key, View(s, keys).metas[key].threadId) {
      assert S.RecordBound(s, SafeKey(key));
      BoundRecordIsOwned(s, View(s, keys), keys, key);
    }
  }

  // ----- any store -----

  /** The record of the issue names a thread that is not bound to it. */
  ghost predicate RecordDisowned(s: S.Store, key: string) {
    match S.IssueOf(s, key).meta
    case None => false
    case Some(meta) =>
      match meta.threadId
      case None => false
      case Some(t) => t > 0 && !(t in s.bindings && s.bindings[t] == key)
  }

  lemma BoundThreadIsBound(s: S.Store, t: int, key: string)
    requires S.DraftsBound(s) && key != ""
    ensures S.IssueKeyForThread(s, t) == key <==> t in s.bindings && s.bindings[t] == key
  {
  }

  lemma {:induction false} DisownedInViewExactlyWhen(s: S.Store, keys: set<string>, key: string)
    requires S.DraftsBound(s) && key in keys && key != ""
    ensures T.Disowned(View(s, keys), key) <==> RecordDisowned(s, key)
  {
    if key in View(s, keys).metas && View(s, keys).metas[key].threadId > 0 {
      BoundThreadIsBound(s, View(s, keys).metas[key].threadId, key);
    }
  }

  /** Bindings mirrored by records leave no stray thread, whatever else the records say. */
  lemma ViewHasNoStrayThread(s: S.Store, keys: set<string>, key: string)
    requires S.Mirrored(s) && S.DraftsBound(s) && key in keys && key != ""
    ensures T.NoStrayThread(View(s, keys), key)
  {
    var view := View(s, keys);
    forall other | other != key && T.Reaches(view, other, key)
      ensures key in view.metas && view.metas[key].threadId == view.metas[other].threadId
    {
      BoundThreadIsBound(s, view.metas[other].threadId, key);
    }
  }

  /** For every store: a stuck issue is at Rework after any number of ticks if and only if it was there before or its
      record names no thread that is bound to another issue or to none. */
  lemma {:induction false} StoredIssueSettlesExactlyWhen(
    s: S.Store, key: string, keys: set<string>, inputs: seq<I.TickInput>, threads: set<nat>)
    requires S.Mirrored(s) && S.DraftsBound(s) && key in keys && key != ""
    requires B.ThreadKnown(View(s, keys), key, threads)
    requires inputs != [] && forall i :: 0 <= i < |inputs| ==> B.Stuck(inputs[i], key, threads)
    ensures B.IsRework(R.Ticks(View(s, keys), inputs, true), key) <==>
      B.IsRework(View(s, keys), key) || !RecordDisowned(s, key)
  {
    ViewHasNoStrayThread(s, keys, key);
    DisownedInViewExactlyWhen(s, keys, key);
    B.StuckIssueSettlesExactlyWhen(View(s, keys), inputs, key, threads);
  }

  /** So for every store the application can reach, however many bindings were refused on the way. */
  lemma {:induction false} ReachedIssueSettlesExactlyWhen(
    ops: seq<S.Op>, key: string, keys: set<string>, inputs: seq<I.TickInput>, threads: set<nat>)
    requires forall i :: 0 <= i < |ops| ==> S.OpIsSound(ops[i]) && S.StartsEmpty(ops[i])
    requires key in keys && key != ""
    requires B.ThreadKnown(View(S.Replay(S.Store(map[], map[], map[]), ops), keys), key, threads)
    requires inputs != [] && forall i :: 0 <= i < |inputs| ==> B.Stuck(inputs[i], key, threads)
    ensures var s := S.Replay(S.Store(map[], map[], map[]), ops);
      B.IsRework(R.Ticks(View(s, keys), inputs, true), key) <==>
        B.IsRework(View(s, keys), key) || !RecordDisowned(s, key)
  {
    S.BindingsStayMirrored(ops);
    S.DraftsStayBound(ops);
    StoredIssueSettlesExactlyWhen(S.Replay(S.Store(map[], map[], map[]), ops), key, keys, inputs, threads);
  }

  // ----- a refused binding -----

  /** The refused call leaves the new issue's record naming the thread; no other issue is disowned or healed by it. */
  lemma {:induction false} RefusedBindDisowns(s: S.Store, t: int, key: string)
    requires S.Mirrored(s) && t > 0 && S.IsIssueKey(key) && S.DraftsBound(s)
    requires S.IsRefusedFreshBind(s, S.BindFromDraft(t, key))
    ensures var next := S.AfterBindIssue(s, t, key);
      && S.Mirrored(next) && S.DraftsBound(next)
      && RecordDisowned(next, key) && S.IssueOf(next, key).meta == Some(S.RecordFromDraft(s, t, key))
      && forall other :: SafeKey(other) != SafeKey(key) ==>
           && S.IssueOf(next, other).meta == S.IssueOf(s, other).meta
           && (RecordDisowned(next, other) <==> RecordDisowned(s, other))
  {
    assert S.AfterBindIssue(s, t, key) == S.WithRecord(s, key, S.RecordFromDraft(s, t, key));
    S.BindIssueKeepsMirrored(s, t, key);
    S.ApplyKeepsDraftsBound(s, S.BindFromDraft(t, key));
  }

  /** The new issue's record stays as `bind_issue` left it for as long as the board is stuck at In Progress. */
  lemma {:induction false} RefusedBindLeavesStuckIssue(
    s: S.Store, t: int, key: string, keys: set<string>, inputs: seq<I.TickInput>, threads: set<nat>)
    requires S.Mirrored(s) && S.DraftsBound(s) && key in keys && t > 0
    requires S.IsIssueKey(key) && S.IsRefusedFreshBind(s, S.BindFromDraft(t, key))
    requires t in threads && forall i :: 0 <= i < |inputs| ==> B.Stuck(inputs[i], key, threads)
    requires S.RecordFromDraft(s, t, key).status != "Rework"
    ensures !B.IsRework(R.Ticks(View(S.AfterBindIssue(s, t, key), keys), inputs, true), key)
  {
    RefusedBindDisowns(s, t, key);
    if inputs != [] {
      StoredIssueSettlesExactlyWhen(S.AfterBindIssue(s, t, key), key, keys, inputs, threads);
    }
  }

  /** Every other issue settles as if the refused call had not been made, also the one whose thread was asked for. */
  lemma {:induction false} RefusedBindSparesOthers(
    s: S.Store, t: int, key: string, other: string, keys: set<string>, inputs: seq<I.TickInput>, threads: set<nat>)
    requires S.Mirrored(s) && S.DraftsBound(s) && t > 0
    requires S.IsIssueKey(key) && S.IsRefusedFreshBind(s, S.BindFromDraft(t, key))
    requires other in keys && other != "" && SafeKey(other) != SafeKey(key)
    requires B.ThreadKnown(View(s, keys), other, threads)
    requires inputs != [] && forall i :: 0 <= i < |inputs| ==> B.Stuck(inputs[i], other, threads)
    ensures B.IsRework(R.Ticks(View(S.AfterBindIssue(s, t, key), keys), inputs, true), other) <==>
      B.IsRework(R.Ticks(View(s, keys), inputs, true), other)
  {
    RefusedBindDisowns(s, t, key);
    StoredIssueSettlesExactlyWhen(s, other, keys, inputs, threads);
    StoredIssueSettlesExactlyWhen(S.AfterBindIssue(s, t, key), other, keys, inputs, threads);
  }

  lemma ReplayOfThree(s: S.Store, a: S.Op, b: S.Op, c: S.Op)
    ensures S.Replay(s, [a, b, c]) == S.Apply(S.Apply(S.Apply(s, a), b), c)
  {
    assert [a, b, c][..2] == [a, b] && [a, b][..1] == [a] && [a][..0] == [];
    assert S.Replay(s, [a]) == S.Apply(S.Replay(s, []), a);
    assert S.Replay(s, [a, b]) == S.Apply(S.Replay(s, [a]), b);
  }

  lemma ThreeStepsKeepRecordsBound(s: S.Store, a: S.Op, b: S.Op, c: S.Op)
    requires S.Mirrored(s) && S.RecordsBound(s) && S.OpIsSound(a) && S.OpIsSound(b) && S.OpIsSound(c)
    requires !a.BindFromDraft? && !b.BindFromDraft? && !c.BindFromDraft?
    ensures S.RecordsBound(S.Apply(S.Apply(S.Apply(s, a), b), c))
  {
    S.ApplyKeepsMirrored(s, a);
    S.ApplyKeepsRecordsBoundExactlyWhen(s, a);
    S.ApplyKeepsMirrored(S.Apply(s, a), b);
    S.ApplyKeepsRecordsBoundExactlyWhen(S.Apply(s, a), b);
    S.ApplyKeepsRecordsBoundExactlyWhen(S.Apply(S.Apply(s, a), b), c);
  }

  lemma FirstBinding(t: int, meta: S.DraftMeta, other: string) returns (s: S.Store)
    requires S.IsIssueKey(other) && meta.issueKey == ""
    ensures s == S.Apply(S.Apply(S.Apply(S.Store(map[], map[], map[]), S.NewDraft(t, meta)), S.EnsureRecord(other, "Ready")),
      S.Bind(t, other))
    ensures s.bindings == map[t := other] && s.issues.Keys == {SafeKey(other)}
  {
    var drafted := S.Apply(S.Store(map[], map[], map[]), S.NewDraft(t, meta));
    var recorded := S.Apply(drafted, S.EnsureRecord(other, "Ready"));
    assert S.IssueOf(recorded, other) == S.Issue(Some(S.IssueMeta(other, None, 0, 0, "Ready")), map[]);
    s := S.Apply(recorded, S.Bind(t, other));
  }

  /** Such a refusal is reachable from an empty store: a draft, a record for one issue, a binding to it, and then
      the same thread for another issue. */
  lemma {:induction false} RefusedBindIsReachable(t: int, meta: S.DraftMeta, key: string, other: string)
    requires S.IsIssueKey(key) && S.IsIssueKey(other) && SafeKey(key) != SafeKey(other) && meta.issueKey == ""
    ensures var ops := [S.NewDraft(t, meta), S.EnsureRecord(other, "Ready"), S.Bind(t, other)];
      var s := S.Replay(S.Store(map[], map[], map[]), ops);
      && S.Mirrored(s) && S.RecordsBound(s) && S.IsRefusedFreshBind(s, S.BindFromDraft(t, key))
      && S.DraftsBound(s) && FilesDistinct(s, {key, other})
  {
    var empty := S.Store(map[], map[], map[]);
    var op1, op2, op3 := S.NewDraft(t, meta), S.EnsureRecord(other, "Ready"), S.Bind(t, other);
    ReplayOfThree(empty, op1, op2, op3);
    var s := FirstBinding(t, meta, other);
    S.BindingsStayMirrored([op1, op2, op3]);
    S.DraftsStayBound([op1, op2, op3]);
    ThreeStepsKeepRecordsBound(empty, op1, op2, op3);
  }
}
