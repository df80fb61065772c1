/** Thread and issue identity in app/state_store.py: bindings, issue records, draft promotion, artifacts. */
module StateStore {
  import opened Basics
  import opened Identifiers

  /** A stored JSON payload; Empty stands for `{}`. */
  datatype Json = Empty | Payload(text: string)

  datatype DraftMeta = DraftMeta(issueKey: string, parentMessageId: int, channelId: int, status: string)
  datatype Draft = Draft(meta: Option<DraftMeta>, files: map<string, Json>)

  /** `threadId` is None where the original stores an empty string. */
  datatype IssueMeta = IssueMeta(issueKey: string, threadId: Option<int>, parentMessageId: int, channelId: int, status: string)
  datatype Issue = Issue(meta: Option<IssueMeta>, latest: map<string, Json>)

  /** The directories of the store. Issue directories are named by the encoded key. */
  datatype Store = Store(bindings: map<int, string>, drafts: map<int, Draft>, issues: map<string, Issue>)

  datatype BindError = ThreadBoundElsewhere | IssueBoundElsewhere

  /** `_is_issue_key`. */
  predicate IsIssueKey(key: string) {
    '#' in key && '/' in key
  }

  const PromotedFiles: seq<string> := [
    "requirement_summary.json", "plan.json", "test_plan.json", "verification_plan.json", "candidate_decision.json",
    "committee_plan.json", "committee_reports.json", "planning_progress.json", "issue.json"
  ]

  const CorePlanningArtifacts: seq<string> := [
    "requirement_summary.json", "plan.json", "test_plan.json", "verification_plan.json"
  ]

  function DraftOf(s: Store, t: int): Draft {
    if t in s.drafts then s.drafts[t] else Draft(None, map[])
  }

  function IssueOf(s: Store, key: string): Issue {
    if SafeKey(key) in s.issues then s.issues[SafeKey(key)] else Issue(None, map[])
  }

  /** `issue_key_for_thread`. */
  function IssueKeyForThread(s: Store, t: int): string {
    if t in s.bindings then s.bindings[t]
    else match DraftOf(s, t).meta
      case Some(meta) => meta.issueKey
      case None => ""
  }

  /** `load_artifact` through an issue key and through a thread id. */
  function LoadIssueArtifact(s: Store, key: string, file: string): Json {
    var latest := IssueOf(s, key).latest;
    if file in latest then latest[file] else Empty
  }

  function LoadThreadArtifact(s: Store, t: int, file: string): Json {
    var key := IssueKeyForThread(s, t);
    if key != "" then LoadIssueArtifact(s, key, file)
    else if file in DraftOf(s, t).files then DraftOf(s, t).files[file]
    else Empty
  }

  /** `has_planning_artifacts`. */
  predicate HasPlanningArtifacts(s: Store, t: int) {
    forall i :: 0 <= i < |CorePlanningArtifacts| ==> LoadThreadArtifact(s, t, CorePlanningArtifacts[i]) != Empty
  }

  /** Every binding is mirrored by its issue's meta. */
  ghost predicate Mirrored(s: Store) {
    forall t :: t in s.bindings ==>
      && s.bindings[t] != ""
      && IssueOf(s, s.bindings[t]).meta.Some?
      && IssueOf(s, s.bindings[t]).meta.value.threadId == Some(t)
  }

  /** No issue directory is bound to two threads. */
  lemma MirroredIsInjective(s: Store, t1: int, t2: int)
    requires Mirrored(s) && t1 in s.bindings && t2 in s.bindings
    requires SafeKey(s.bindings[t1]) == SafeKey(s.bindings[t2])
    ensures t1 == t2
  {
  }

  // ----- what each operation does -----

  function BindRefusal(s: Store, t: int, key: string): Option<BindError> {
    var current := IssueKeyForThread(s, t);
    if current != "" && current != key then Some(ThreadBoundElsewhere)
    else match IssueOf(s, key).meta
      case Some(meta) => if meta.threadId.Some? && meta.threadId != Some(t) then Some(IssueBoundElsewhere) else None
      case None => None
  }

  function SetIssue(s: Store, key: string, issue: Issue): Store {
    s.(issues := s.issues[SafeKey(key) := issue])
  }

  function SetDraft(s: Store, t: int, draft: Draft): Store {
    s.(drafts := s.drafts[t := draft])
  }

  /** The draft meta a fresh draft gets when a thread without one is bound. */
  function FreshDraftMeta(meta: Option<IssueMeta>): DraftMeta {
    match meta
    case Some(m) =>
      DraftMeta("", m.parentMessageId, m.channelId, if m.status == "" then "collecting_requirements" else m.status)
    case None => DraftMeta("", 0, 0, "collecting_requirements")
  }

  /** The state after an accepted `bind_thread`. */
  function Bound(s: Store, t: int, key: string): Store {
    var issue := IssueOf(s, key);
    var draft := DraftOf(s, t);
    var meta := (match draft.meta case Some(m) => m case None => FreshDraftMeta(issue.meta)).(issueKey := key);
    var withBinding := s.(bindings := s.bindings[t := key]);
    var withIssue := match issue.meta
      case Some(m) => SetIssue(withBinding, key, issue.(meta := Some(m.(threadId := Some(t)))))
      case None => withBinding;
    SetDraft(withIssue, t, draft.(meta := Some(meta)))
  }

  /** The record `bind_issue` creates from the draft's meta. */
  function RecordFromDraft(s: Store, t: int, key: string): IssueMeta {
    match DraftOf(s, t).meta
    case Some(m) => IssueMeta(key, Some(t), m.parentMessageId, m.channelId, m.status)
    case None => IssueMeta(key, Some(t), 0, 0, "draft")
  }

  function WithRecord(s: Store, key: string, meta: IssueMeta): Store {
    SetIssue(s, key, IssueOf(s, key).(meta := Some(meta)))
  }

  /** The issue's files with the first n promoted ones copied from the draft. */
  function Promote(draft: map<string, Json>, latest: map<string, Json>, n: nat): map<string, Json>
    requires n <= |PromotedFiles|
  {
    if n == 0 then latest
    else
      var before := Promote(draft, latest, n - 1);
      var file := PromotedFiles[n - 1];
      if file in draft then before[file := draft[file]] else before
  }

  function Promoted(s: Store, t: int, key: string): Store {
    if t in s.drafts then
      SetIssue(s, key, IssueOf(s, key).(latest := Promote(DraftOf(s, t).files, IssueOf(s, key).latest, |PromotedFiles|)))
    else s
  }

  /** `bind_issue` up to its final `bind_thread`, for an issue that has a record or gets one. */
  function Prepared(s: Store, t: int, key: string): Store {
    if IssueOf(s, key).meta.Some? then Promoted(s, t, key)
    else Promoted(Bound(WithRecord(s, key, RecordFromDraft(s, t, key)), t, key), t, key)
  }

  class FileStateStore {
    var bindings: map<int, string>
    var drafts: map<int, Draft>
    var issues: map<string, Issue>

    ghost function Snapshot(): Store
      reads this
    {
      Store(bindings, drafts, issues)
    }

    constructor ()
      ensures Snapshot() == Store(map[], map[], map[]) && Mirrored(Snapshot())
    {
      bindings, drafts, issues := map[], map[], map[];
    }

    function State(): Store
      reads this
    {
      Store(bindings, drafts, issues)
    }

    method CreateDraft(t: int, parentMessageId: int, channelId: int, status: string)
      modifies this`drafts
      ensures var draft := DraftOf(old(Snapshot()), t);
        Snapshot() == SetDraft(old(Snapshot()), t,
          draft.(meta := Some(DraftMeta("", parentMessageId, channelId, status))))
    {
      var draft := if t in drafts then drafts[t] else Draft(None, map[]);
      drafts := drafts[t := draft.(meta := Some(DraftMeta("", parentMessageId, channelId, status)))];
    }

    /** `create_issue_record` without a thread: overwrites the meta and so forgets the thread. */
    method CreateIssueRecord(key: string, status: string)
      requires IsIssueKey(key)
      modifies this`issues
      ensures Snapshot() == WithRecord(old(Snapshot()), key, IssueMeta(key, None, 0, 0, status))
    {
      issues := issues[SafeKey(key) := IssueOf(State(), key).(meta := Some(IssueMeta(key, None, 0, 0, status)))];
    }

    /** `bind_thread`: refused without effect, or binds and mirrors. */
    method BindThread(t: int, key: string) returns (r: Result<(), BindError>)
      requires IsIssueKey(key)
      modifies this
      ensures match BindRefusal(old(Snapshot()), t, key)
        case Some(e) => r == Err(e) && Snapshot() == old(Snapshot())
        case None => r == Ok(()) && Snapshot() == Bound(old(Snapshot()), t, key)
      ensures r == Err(ThreadBoundElsewhere) <==> old(IssueKeyForThread(Snapshot(), t)) !in {"", key}
      ensures r == Err(IssueBoundElsewhere) <==>
        && old(IssueKeyForThread(Snapshot(), t)) in {"", key} && old(IssueOf(Snapshot(), key)).meta.Some?
        && old(IssueOf(Snapshot(), key)).meta.value.threadId !in {None, Some(t)}
    {
      var s := State();
      var current := IssueKeyForThread(s, t);
      if current != "" && current != key {
        return Err(ThreadBoundElsewhere);
      }
      var issue := IssueOf(s, key);
      if issue.meta.Some? && issue.meta.value.threadId.Some? && issue.meta.value.threadId != Some(t) {
        return Err(IssueBoundElsewhere);
      }
      WriteBinding(t, key, issue);
      r := Ok(());
    }

    /** The writes of an accepted binding: binding file, draft, issue meta, draft meta. */
    method WriteBinding(t: int, key: string, issue: Issue)
      requires issue == IssueOf(Snapshot(), key)
      modifies this
      ensures Snapshot() == Bound(old(Snapshot()), t, key)
    {
      ghost var s := Snapshot();
      var draft := DraftOf(State(), t);
      bindings := bindings[t := key];
      NameInDraft(t, key, draft, issue);
      MirrorInIssue(t, key, issue);
      assert drafts == Bound(s, t, key).drafts && issues == Bound(s, t, key).issues;
    }

    /** A thread without a draft gets one; either way its draft names the issue. */
    method NameInDraft(t: int, key: string, draft: Draft, issue: Issue)
      requires draft == DraftOf(Snapshot(), t)
      modifies this`drafts
      ensures var meta := match draft.meta case Some(m) => m case None => FreshDraftMeta(issue.meta);
        drafts == old(drafts)[t := draft.(meta := Some(meta.(issueKey := key)))]
    {
      var current := draft;
      if current.meta.None? {
        var initial := FreshDraftMeta(issue.meta);
        CreateDraft(t, initial.parentMessageId, initial.channelId, initial.status);
        current := drafts[t];
      }
      drafts := drafts[t := current.(meta := Some(current.meta.value.(issueKey := key)))];
    }

    method MirrorInIssue(t: int, key: string, issue: Issue)
      modifies this`issues
      ensures issues == match issue.meta
        case Some(m) => old(issues)[SafeKey(key) := issue.(meta := Some(m.(threadId := Some(t))))]
        case None => old(issues)
    {
      if issue.meta.Some? {
        issues := issues[SafeKey(key) := issue.(meta := Some(issue.meta.value.(threadId := Some(t))))];
      }
    }

    /** `_promote_draft_artifacts`. */
    method PromoteDraftArtifacts(t: int, key: string)
      requires IsIssueKey(key)
      modifies this`issues
      ensures Snapshot() == Promoted(old(Snapshot()), t, key)
    {
      if t !in drafts {
        return;
      }
      var files, issue := drafts[t].files, IssueOf(State(), key);
      var latest := issue.latest;
      for n := 0 to |PromotedFiles|
        invariant latest == Promote(files, issue.latest, n)
      {
        var file := PromotedFiles[n];
        if file in files {
          latest := latest[file := files[file]];
        }
      }
      issues := issues[SafeKey(key) := issue.(latest := latest)];
    }

    /** `bind_issue`. A refusal leaves what was written before it: the record and the promoted files. */
    method BindIssue(t: int, key: string) returns (r: Result<string, BindError>)
      requires IsIssueKey(key)
      modifies this
      ensures Snapshot() == AfterBindIssue(old(Snapshot()), t, key)
      ensures r.Ok? <==> BindIssueSucceeds(old(Snapshot()), t, key)
      ensures r.Ok? ==> r.value == key && IssueKeyForThread(Snapshot(), t) == key
    {
      ghost var s := Snapshot();
      if IssueOf(State(), key).meta.None? {
        var meta := RecordFromDraft(State(), t, key);
        issues := issues[SafeKey(key) := IssueOf(State(), key).(meta := Some(meta))];
        assert Snapshot() == WithRecord(s, key, meta);
        var created := BindThread(t, key);
        if created.Err? {
          return Err(created.error);
        }
      }
      PromoteDraftArtifacts(t, key);
      assert Snapshot() == Prepared(s, t, key);
      var bound := BindThread(t, key);
      match bound
      case Err(e) => r := Err(e);
      case Ok(_) => r := Ok(key);
    }

    method WriteThreadArtifact(t: int, file: string, payload: Json)
      modifies this
      ensures LoadThreadArtifact(Snapshot(), t, file) == payload
      ensures Mirrored(old(Snapshot())) ==> Mirrored(Snapshot())
    {
      var key := IssueKeyForThread(State(), t);
      if key != "" {
        var issue := IssueOf(State(), key);
        issues := issues[SafeKey(key) := issue.(latest := issue.latest[file := payload])];
      } else {
        var draft := DraftOf(State(), t);
        drafts := drafts[t := draft.(files := draft.files[file := payload])];
      }
    }
  }

  // ----- the binding invariant -----

  /** An accepted binding keeps the invariant exactly when the issue has a record to mirror it. */
  lemma BoundKeepsMirroredExactlyWhen(s: Store, t: int, key: string)
    requires Mirrored(s) && key != "" && BindRefusal(s, t, key) == None
    ensures Mirrored(Bound(s, t, key)) <==> IssueOf(s, key).meta.Some?
  {
    var next := Bound(s, t, key);
    if IssueOf(s, key).meta.Some? {
      forall u | u in next.bindings
        ensures next.bindings[u] != "" && IssueOf(next, next.bindings[u]).meta.Some?
             && IssueOf(next, next.bindings[u]).meta.value.threadId == Some(u)
      {
        if u != t {
          assert IssueOf(s, s.bindings[u]).meta.value.threadId == Some(u);
        }
      }
    } else {
      assert next.bindings[t] == key && IssueOf(next, key).meta.None?;
    }
  }

  lemma PromotedKeepsMetas(s: Store, t: int, key: string, other: string)
    ensures IssueOf(Promoted(s, t, key), other).meta == IssueOf(s, other).meta
    ensures Promoted(s, t, key).bindings == s.bindings && Promoted(s, t, key).drafts == s.drafts
  {
  }

  lemma PromotedKeepsMirrored(s: Store, t: int, key: string)
    requires Mirrored(s)
    ensures Mirrored(Promoted(s, t, key))
  {
    forall u | u in s.bindings
      ensures IssueOf(Promoted(s, t, key), s.bindings[u]).meta == IssueOf(s, s.bindings[u]).meta
    {
      PromotedKeepsMetas(s, t, key, s.bindings[u]);
    }
  }

  /** A new record keeps the invariant exactly when no thread is bound to its directory, or it names that thread. */
  lemma RecordKeepsMirroredExactlyWhen(s: Store, key: string, meta: IssueMeta)
    requires Mirrored(s)
    ensures Mirrored(WithRecord(s, key, meta)) <==>
      forall t :: t in s.bindings && SafeKey(s.bindings[t]) == SafeKey(key) ==> meta.threadId == Some(t)
  {
    var next := WithRecord(s, key, meta);
    if Mirrored(next) {
      forall t | t in s.bindings && SafeKey(s.bindings[t]) == SafeKey(key) ensures meta.threadId == Some(t) {
        assert IssueOf(next, next.bindings[t]).meta == Some(meta);
      }
    }
  }

  /** An issue without a record is bound to nobody. */
  lemma NoRecordNoBinding(s: Store, key: string)
    requires Mirrored(s) && IssueOf(s, key).meta.None?
    ensures forall t :: t in s.bindings ==> SafeKey(s.bindings[t]) != SafeKey(key)
  {
    forall t | t in s.bindings ensures SafeKey(s.bindings[t]) != SafeKey(key) {
      assert IssueOf(s, s.bindings[t]).meta.Some?;
    }
  }

  /** The operations the application performs: drafts, guarded record creation, binding a thread to an issue
      that has a record, binding a draft to an issue, and artifact writes. Success and refusal alike. */
  datatype Op =
    | NewDraft(t: int, meta: DraftMeta)
    | EnsureRecord(key: string, status: string)
    | Bind(t: int, key: string)
    | BindFromDraft(t: int, key: string)
    | WriteIssueFile(key: string, file: string, payload: Json)

  function AfterBindIssue(s: Store, t: int, key: string): Store {
    var recorded := WithRecord(s, key, RecordFromDraft(s, t, key));
    if IssueOf(s, key).meta.None? && BindRefusal(recorded, t, key).Some? then recorded
    else
      var p := Prepared(s, t, key);
      if BindRefusal(p, t, key).None? then Bound(p, t, key) else p
  }

  function Apply(s: Store, op: Op): Store {
    match op
    case NewDraft(t, meta) => SetDraft(s, t, DraftOf(s, t).(meta := Some(meta)))
    case EnsureRecord(key, status) =>
      if IssueOf(s, key).meta.None? then WithRecord(s, key, IssueMeta(key, None, 0, 0, status)) else s
    case Bind(t, key) =>
      if IssueOf(s, key).meta.Some? && BindRefusal(s, t, key).None? then Bound(s, t, key) else s
    case BindFromDraft(t, key) => AfterBindIssue(s, t, key)
    case WriteIssueFile(key, file, payload) =>
      SetIssue(s, key, IssueOf(s, key).(latest := IssueOf(s, key).latest[file := payload]))
  }

  predicate OpIsSound(op: Op) {
    match op
    case Bind(_, key) => IsIssueKey(key)
    case BindFromDraft(_, key) => IsIssueKey(key)
    case EnsureRecord(key, _) => IsIssueKey(key)
    case _ => true
  }

  lemma {:induction false} BindIssueKeepsMirrored(s: Store, t: int, key: string)
    requires Mirrored(s) && IsIssueKey(key)
    ensures Mirrored(AfterBindIssue(s, t, key))
  {
    var record := RecordFromDraft(s, t, key);
    var recorded := WithRecord(s, key, record);
    var p := Prepared(s, t, key);
    if IssueOf(s, key).meta.None? {
      NoRecordNoBinding(s, key);
      RecordKeepsMirroredExactlyWhen(s, key, record);
      if BindRefusal(recorded, t, key).None? {
        BoundKeepsMirroredExactlyWhen(recorded, t, key);
        PromotedKeepsMirrored(Bound(recorded, t, key), t, key);
        PromotedKeepsMetas(Bound(recorded, t, key), t, key, key);
      }
    } else {
      PromotedKeepsMirrored(s, t, key);
      PromotedKeepsMetas(s, t, key, key);
    }
    if !(IssueOf(s, key).meta.None? && BindRefusal(recorded, t, key).Some?) && BindRefusal(p, t, key).None? {
      BoundKeepsMirroredExactlyWhen(p, t, key);
    }
  }

  lemma {:induction false} ApplyKeepsMirrored(s: Store, op: Op)
    requires Mirrored(s) && OpIsSound(op)
    ensures Mirrored(Apply(s, op))
  {
    match op {
      case EnsureRecord(key, status) =>
        if IssueOf(s, key).meta.None? {
          NoRecordNoBinding(s, key);
          RecordKeepsMirroredExactlyWhen(s, key, IssueMeta(key, None, 0, 0, status));
        }
      case Bind(t, key) =>
        if IssueOf(s, key).meta.Some? && BindRefusal(s, t, key).None? {
          BoundKeepsMirroredExactlyWhen(s, t, key);
        }
      case BindFromDraft(t, key) => BindIssueKeepsMirrored(s, t, key);
      case _ =>
    }
  }

  function Replay(s: Store, ops: seq<Op>): Store {
    if ops == [] then s else Apply(Replay(s, ops[..|ops| - 1]), ops[|ops| - 1])
  }

  /** From an empty store, whatever is bound, refused, recorded or written: every binding is mirrored, so
      no issue is ever bound to two threads. */
  lemma {:induction false} BindingsStayMirrored(ops: seq<Op>)
    requires forall i :: 0 <= i < |ops| ==> OpIsSound(ops[i])
    ensures Mirrored(Replay(Store(map[], map[], map[]), ops))
    decreases |ops|
  {
    if ops != [] {
      BindingsStayMirrored(ops[..|ops| - 1]);
      ApplyKeepsMirrored(Replay(Store(map[], map[], map[]), ops[..|ops| - 1]), ops[|ops| - 1]);
    }
  }

  lemma BindIssueKeepsBindings(s: Store, u: int, key: string, t: int)
    requires Mirrored(s) && IsIssueKey(key) && t in s.bindings
    ensures t in AfterBindIssue(s, u, key).bindings && AfterBindIssue(s, u, key).bindings[t] == s.bindings[t]
  {
    if u == t && key != s.bindings[t] {
      assert BindRefusal(WithRecord(s, key, RecordFromDraft(s, u, key)), u, key).Some?;
      PromotedKeepsMetas(s, u, key, key);
    }
  }

  /** A binding, once made, is never changed or undone. */
  lemma ApplyKeepsBindings(s: Store, op: Op, t: int)
    requires Mirrored(s) && OpIsSound(op) && t in s.bindings
    ensures t in Apply(s, op).bindings && Apply(s, op).bindings[t] == s.bindings[t]
  {
    match op {
      case BindFromDraft(u, key) => BindIssueKeepsBindings(s, u, key, t);
      case _ =>
    }
  }

  lemma {:induction false} BindingsOnlyGrow(ops: seq<Op>, n: nat, t: int)
    requires n <= |ops| && forall i :: 0 <= i < |ops| ==> OpIsSound(ops[i])
    requires t in Replay(Store(map[], map[], map[]), ops[..n]).bindings
    ensures t in Replay(Store(map[], map[], map[]), ops).bindings
    ensures Replay(Store(map[], map[], map[]), ops).bindings[t]
         == Replay(Store(map[], map[], map[]), ops[..n]).bindings[t]
    decreases |ops|
  {
    if n < |ops| {
      var front := ops[..|ops| - 1];
      assert front[..n] == ops[..n];
      BindingsOnlyGrow(front, n, t);
      BindingsStayMirrored(front);
      ApplyKeepsBindings(Replay(Store(map[], map[], map[]), front), ops[|ops| - 1], t);
    } else {
      assert ops[..n] == ops;
    }
  }

  /** A refused `bind_issue` leaves bindings and issue metas alone exactly when the issue already had a record. */
  lemma RefusedBindIssueWritesRecord(s: Store, t: int, key: string)
    requires IsIssueKey(key) && AfterBindIssue(s, t, key).bindings == s.bindings
    requires IssueOf(s, key).meta.Some? ==> BindRefusal(Prepared(s, t, key), t, key).Some?
    requires IssueOf(s, key).meta.None? ==> BindRefusal(WithRecord(s, key, RecordFromDraft(s, t, key)), t, key).Some?
    ensures (forall other :: IssueOf(AfterBindIssue(s, t, key), other).meta == IssueOf(s, other).meta)
       <==> IssueOf(s, key).meta.Some?
  {
    if IssueOf(s, key).meta.Some? {
      forall other ensures IssueOf(Promoted(s, t, key), other).meta == IssueOf(s, other).meta {
        PromotedKeepsMetas(s, t, key, other);
      }
    } else {
      assert IssueOf(AfterBindIssue(s, t, key), key).meta == Some(RecordFromDraft(s, t, key));
    }
  }

  // ----- records that name a thread -----

  /** The record in a directory names no thread, or one that is bound to it. */
  ghost predicate RecordBound(s: Store, path: string) {
    path in s.issues && s.issues[path].meta.Some? && s.issues[path].meta.value.threadId.Some? ==>
      var t := s.issues[path].meta.value.threadId.value;
      t in s.bindings && SafeKey(s.bindings[t]) == path
  }

  ghost predicate RecordsBound(s: Store) {
    forall path :: RecordBound(s, path)
  }

  /** A `bind_issue` that is refused for an issue without a record: the thread resolves to another issue. */
  predicate IsRefusedFreshBind(s: Store, op: Op) {
    op.BindFromDraft? && IssueOf(s, op.key).meta.None? && IssueKeyForThread(s, op.t) != "" && IssueKeyForThread(s, op.t) != op.key
  }

  /** A store that differs only in files and in records without a thread. */
  lemma SameThreads(s: Store, next: Store)
    requires RecordsBound(s) && next.bindings == s.bindings
    requires forall path :: path in next.issues && next.issues[path].meta.Some? && next.issues[path].meta.value.threadId.Some? ==>
      path in s.issues && s.issues[path].meta == next.issues[path].meta
    ensures RecordsBound(next)
  {
    forall path ensures RecordBound(next, path) {
      assert RecordBound(s, path);
    }
  }

  lemma BoundKeepsRecordsBound(s: Store, t: int, key: string)
    requires Mirrored(s) && BindRefusal(s, t, key).None?
    requires forall path :: path != SafeKey(key) ==> RecordBound(s, path)
    ensures IssueOf(s, key).meta.Some? || RecordsBound(s) ==> RecordsBound(Bound(s, t, key))
  {
    if IssueOf(s, key).meta.Some? || RecordsBound(s) {
      forall path ensures RecordBound(Bound(s, t, key), path) {
        assert path != SafeKey(key) ==> RecordBound(s, path);
        assert RecordsBound(s) ==> RecordBound(s, path);
      }
    }
  }

  lemma PromotedKeepsRecordsBound(s: Store, t: int, key: string)
    requires RecordsBound(s)
    ensures RecordsBound(Promoted(s, t, key))
  {
    SameThreads(s, Promoted(s, t, key));
  }

  lemma FreshBindKeepsRecordsBound(s: Store, t: int, key: string)
    requires Mirrored(s) && RecordsBound(s) && IsIssueKey(key) && IssueOf(s, key).meta.None?
    requires IssueKeyForThread(s, t) == "" || IssueKeyForThread(s, t) == key
    ensures RecordsBound(AfterBindIssue(s, t, key))
  {
    var recorded := WithRecord(s, key, RecordFromDraft(s, t, key));
    NoRecordNoBinding(s, key);
    RecordKeepsMirroredExactlyWhen(s, key, RecordFromDraft(s, t, key));
    forall path | path != SafeKey(key) ensures RecordBound(recorded, path) {
      assert RecordBound(s, path);
    }
    BoundKeepsRecordsBound(recorded, t, key);
    var bound := Bound(recorded, t, key);
    BoundKeepsMirroredExactlyWhen(recorded, t, key);
    PromotedKeepsRecordsBound(bound, t, key);
    PromotedKeepsMirrored(bound, t, key);
    BindAgain(bound, t, key);
  }

  /** The last `bind_thread` of `bind_issue`. */
  lemma BindAgain(s: Store, t: int, key: string)
    requires Mirrored(s) && RecordsBound(s)
    ensures var p := Promoted(s, t, key); BindRefusal(p, t, key).None? ==> RecordsBound(Bound(p, t, key))
  {
    PromotedKeepsMirrored(s, t, key);
    PromotedKeepsRecordsBound(s, t, key);
    if BindRefusal(Promoted(s, t, key), t, key).None? {
      BoundKeepsRecordsBound(Promoted(s, t, key), t, key);
    }
  }

  lemma RefusedFreshBindBreaks(s: Store, t: int, key: string)
    requires Mirrored(s) && IsRefusedFreshBind(s, BindFromDraft(t, key))
    ensures !RecordsBound(AfterBindIssue(s, t, key))
  {
    var next := AfterBindIssue(s, t, key);
    NoRecordNoBinding(s, key);
    assert next == WithRecord(s, key, RecordFromDraft(s, t, key));
    assert !RecordBound(next, SafeKey(key));
  }

  /** An operation leaves a record whose thread is not bound to it if and only if it is a `bind_issue` refused for
      an issue that had no record. */
  lemma {:induction false} ApplyKeepsRecordsBoundExactlyWhen(s: Store, op: Op)
    requires Mirrored(s) && RecordsBound(s) && OpIsSound(op)
    ensures RecordsBound(Apply(s, op)) <==> !IsRefusedFreshBind(s, op)
  {
    match op {
      case Bind(t, key) =>
        if IssueOf(s, key).meta.Some? && BindRefusal(s, t, key).None? {
          BoundKeepsRecordsBound(s, t, key);
        }
      case BindFromDraft(t, key) =>
        if IsRefusedFreshBind(s, op) {
          RefusedFreshBindBreaks(s, t, key);
        } else if IssueOf(s, key).meta.None? {
          FreshBindKeepsRecordsBound(s, t, key);
        } else {
          PromotedKeepsRecordsBound(s, t, key);
          BindAgain(s, t, key);
        }
      case _ => SameThreads(s, Apply(s, op));
    }
  }

  // ----- drafts that name an issue -----

  /** A draft names no issue, or the one its thread is bound to. */
  ghost predicate DraftsBound(s: Store) {
    forall t :: t in s.drafts && s.drafts[t].meta.Some? && s.drafts[t].meta.value.issueKey != "" ==>
      t in s.bindings && s.bindings[t] == s.drafts[t].meta.value.issueKey
  }

  /** New drafts name no issue, as `create_draft` writes them. */
  predicate StartsEmpty(op: Op) {
    op.NewDraft? ==> op.meta.issueKey == ""
  }

  lemma BoundKeepsDraftsBound(s: Store, t: int, key: string)
    requires DraftsBound(s)
    ensures DraftsBound(Bound(s, t, key))
  {
  }

  lemma PreparedKeepsDraftsBound(s: Store, t: int, key: string)
    requires DraftsBound(s)
    ensures DraftsBound(Prepared(s, t, key))
  {
    var recorded := WithRecord(s, key, RecordFromDraft(s, t, key));
    BoundKeepsDraftsBound(recorded, t, key);
    PromotedKeepsMetas(s, t, key, key);
    PromotedKeepsMetas(Bound(recorded, t, key), t, key, key);
  }

  lemma BindIssueKeepsDraftsBound(s: Store, t: int, key: string)
    requires DraftsBound(s)
    ensures DraftsBound(AfterBindIssue(s, t, key))
  {
    PreparedKeepsDraftsBound(s, t, key);
    BoundKeepsDraftsBound(Prepared(s, t, key), t, key);
  }

  lemma {:induction false} ApplyKeepsDraftsBound(s: Store, op: Op)
    requires DraftsBound(s) && StartsEmpty(op)
    ensures DraftsBound(Apply(s, op))
  {
    match op {
      case Bind(t, key) => BoundKeepsDraftsBound(s, t, key);
      case BindFromDraft(t, key) => BindIssueKeepsDraftsBound(s, t, key);
      case _ =>
    }
  }

  lemma {:induction false} DraftsStayBound(ops: seq<Op>)
    requires forall i :: 0 <= i < |ops| ==> StartsEmpty(ops[i])
    ensures DraftsBound(Replay(Store(map[], map[], map[]), ops))
    decreases |ops|
  {
    if ops != [] {
      DraftsStayBound(ops[..|ops| - 1]);
      ApplyKeepsDraftsBound(Replay(Store(map[], map[], map[]), ops[..|ops| - 1]), ops[|ops| - 1]);
    }
  }

  // ----- promotion preserves what the thread sees -----

  lemma {:induction false} PromoteCopies(draft: map<string, Json>, latest: map<string, Json>, n: nat, file: string)
    requires n <= |PromotedFiles|
    ensures file in PromotedFiles[..n] && file in draft ==>
      file in Promote(draft, latest, n) && Promote(draft, latest, n)[file] == draft[file]
    ensures file !in PromotedFiles[..n] || file !in draft ==>
      (file in Promote(draft, latest, n) <==> file in latest)
      && (file in latest ==> Promote(draft, latest, n)[file] == latest[file])
  {
    if n > 0 {
      PromoteCopies(draft, latest, n - 1, file);
      assert PromotedFiles[..n] == PromotedFiles[..n - 1] + [PromotedFiles[n - 1]];
    }
  }

  lemma PromotedLoads(s: Store, t: int, key: string, file: string)
    requires file in PromotedFiles && file in DraftOf(s, t).files
    ensures LoadIssueArtifact(Promoted(s, t, key), key, file) == DraftOf(s, t).files[file]
  {
    PromoteCopies(DraftOf(s, t).files, IssueOf(s, key).latest, |PromotedFiles|, file);
    assert PromotedFiles[..|PromotedFiles|] == PromotedFiles;
  }

  lemma BoundKeepsFiles(s: Store, t: int, key: string, file: string)
    ensures LoadIssueArtifact(Bound(s, t, key), key, file) == LoadIssueArtifact(s, key, file)
    ensures DraftOf(Bound(s, t, key), t).files == DraftOf(s, t).files
    ensures IssueKeyForThread(Bound(s, t, key), t) == key
  {
  }

  /** The thread was bound by this call: no refusal on the way. */
  ghost predicate BindIssueSucceeds(s: Store, t: int, key: string) {
    && (IssueOf(s, key).meta.None? ==> BindRefusal(WithRecord(s, key, RecordFromDraft(s, t, key)), t, key).None?)
    && BindRefusal(Prepared(s, t, key), t, key).None?
  }

  /** Whenever `bind_issue` succeeds, each promoted file in the draft is afterwards what the thread and the
      issue both load. */
  lemma BindIssueLoadsDraft(s: Store, t: int, key: string, file: string)
    requires key != "" && BindIssueSucceeds(s, t, key)
    requires file in PromotedFiles && file in DraftOf(s, t).files
    ensures LoadIssueArtifact(AfterBindIssue(s, t, key), key, file) == DraftOf(s, t).files[file]
    ensures LoadThreadArtifact(AfterBindIssue(s, t, key), t, file) == DraftOf(s, t).files[file]
  {
    if IssueOf(s, key).meta.Some? {
      PromotedLoads(s, t, key, file);
    } else {
      var recorded := WithRecord(s, key, RecordFromDraft(s, t, key));
      BoundKeepsFiles(recorded, t, key, file);
      PromotedLoads(Bound(recorded, t, key), t, key, file);
    }
    BoundKeepsFiles(Prepared(s, t, key), t, key, file);
  }

  lemma PromotedKeepsMetaOf(s: Store, t: int, key: string)
    ensures IssueOf(Promoted(s, t, key), key).meta == IssueOf(s, key).meta
    ensures DraftOf(Promoted(s, t, key), t) == DraftOf(s, t)
  {
  }

  /** The first successful binding of an issue gives it a record that agrees with the draft it came from. */
  lemma FirstBindingCopiesMeta(s: Store, t: int, key: string)
    requires key != "" && IssueOf(s, key).meta.None? && BindIssueSucceeds(s, t, key)
    ensures var record := IssueOf(AfterBindIssue(s, t, key), key).meta;
      && record.Some? && record.value.issueKey == key && record.value.threadId == Some(t)
      && (match DraftOf(s, t).meta
          case Some(m) =>
            && record.value.parentMessageId == m.parentMessageId && record.value.channelId == m.channelId
            && record.value.status == m.status
          case None => record.value.parentMessageId == 0 && record.value.channelId == 0 && record.value.status == "draft")
  {
    var recorded := WithRecord(s, key, RecordFromDraft(s, t, key));
    PromotedKeepsMetaOf(Bound(recorded, t, key), t, key);
  }

  /** A thread bound without a draft gets one that agrees with the issue's record and names the issue; a draft that is
      there only gets the name. */
  lemma BoundDraftAgrees(s: Store, t: int, key: string)
    ensures var draft := DraftOf(Bound(s, t, key), t);
      && draft.files == DraftOf(s, t).files && draft.meta.Some? && draft.meta.value.issueKey == key
      && (match DraftOf(s, t).meta
          case Some(m) =>
            && draft.meta.value.parentMessageId == m.parentMessageId && draft.meta.value.channelId == m.channelId
            && draft.meta.value.status == m.status
          case None =>
            match IssueOf(s, key).meta
            case Some(r) =>
              && draft.meta.value.parentMessageId == r.parentMessageId && draft.meta.value.channelId == r.channelId
              && (r.status != "" ==> draft.meta.value.status == r.status)
              && (r.status == "" ==> draft.meta.value.status == "collecting_requirements")
            case None =>
              && draft.meta.value.parentMessageId == 0 && draft.meta.value.channelId == 0
              && draft.meta.value.status == "collecting_requirements")
  {
  }

  /** The first successful binding of a thread keeps every promoted file of its draft visible and unchanged. */
  lemma FirstBindingPreservesArtifacts(s: Store, t: int, key: string, file: string)
    requires key != "" && IssueKeyForThread(s, t) == "" && BindIssueSucceeds(s, t, key)
    requires file in PromotedFiles && file in DraftOf(s, t).files
    ensures LoadThreadArtifact(AfterBindIssue(s, t, key), t, file) == LoadThreadArtifact(s, t, file)
    ensures LoadIssueArtifact(AfterBindIssue(s, t, key), key, file) == LoadThreadArtifact(s, t, file)
  {
    BindIssueLoadsDraft(s, t, key, file);
  }

  lemma CoreFilesArePromoted(i: nat)
    requires i < |CorePlanningArtifacts|
    ensures CorePlanningArtifacts[i] in PromotedFiles
  {
    assert CorePlanningArtifacts[i] == PromotedFiles[i];
  }

  /** A draft that could be dispatched can still be dispatched after it became an issue. */
  lemma BindingKeepsPlanningArtifacts(s: Store, t: int, key: string)
    requires key != "" && IssueKeyForThread(s, t) == "" && BindIssueSucceeds(s, t, key)
    requires HasPlanningArtifacts(s, t)
    ensures HasPlanningArtifacts(AfterBindIssue(s, t, key), t)
  {
    forall i | 0 <= i < |CorePlanningArtifacts|
      ensures LoadThreadArtifact(AfterBindIssue(s, t, key), t, CorePlanningArtifacts[i]) != Empty
    {
      assert LoadThreadArtifact(s, t, CorePlanningArtifacts[i]) != Empty;
      CoreFilesArePromoted(i);
      FirstBindingPreservesArtifacts(s, t, key, CorePlanningArtifacts[i]);
    }
  }

  /** Rebinding a bound thread puts the draft's old copy back: a promoted file keeps its value exactly when
      the draft holds no other one. */
  lemma RebindingPreservesExactlyWhen(s: Store, t: int, key: string, file: string)
    requires key != "" && IssueKeyForThread(s, t) == key && IssueOf(s, key).meta.Some?
    requires BindIssueSucceeds(s, t, key) && file in PromotedFiles && t in s.drafts
    ensures LoadThreadArtifact(AfterBindIssue(s, t, key), t, file) == LoadThreadArtifact(s, t, file)
       <==> file !in DraftOf(s, t).files || DraftOf(s, t).files[file] == LoadThreadArtifact(s, t, file)
  {
    BoundKeepsFiles(Prepared(s, t, key), t, key, file);
    if file in DraftOf(s, t).files {
      BindIssueLoadsDraft(s, t, key, file);
    } else {
      PromoteCopies(DraftOf(s, t).files, IssueOf(s, key).latest, |PromotedFiles|, file);
    }
  }
}
