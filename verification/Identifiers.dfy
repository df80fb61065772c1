/** Durable names: issue-key file names, attempt ids and handoff ids (app/state_store.py, app/pipeline.py). */
module Identifiers {
  import opened Basics
  import opened StableSorting
  import Decimal

  // ----- file names of issue keys -----

  /** `_safe_issue_key`. */
  function SafeKey(key: string): string {
    if key == "" then ""
    else (if key[0] in {'/', '#'} then "__" else [key[0]]) + SafeKey(key[1..])
  }

  function IssueKey(owner: string, repo: string, number: string): string {
    owner + "/" + repo + "#" + number
  }

  predicate Free(s: string, forbidden: set<char>) {
    forall i :: 0 <= i < |s| ==> s[i] !in forbidden
  }

  lemma {:induction false} SafeKeyConcat(a: string, b: string)
    ensures SafeKey(a + b) == SafeKey(a) + SafeKey(b)
  {
    if a == "" {
      assert a + b == b;
    } else {
      assert (a + b)[1..] == a[1..] + b;
      SafeKeyConcat(a[1..], b);
    }
  }

  lemma {:induction false} SafeKeyOfPlain(s: string)
    requires Free(s, {'/', '#'})
    ensures SafeKey(s) == s
  {
    if s != "" {
      SafeKeyOfPlain(s[1..]);
      assert s == [s[0]] + s[1..];
    }
  }

  lemma SafeKeyOfIssue(owner: string, repo: string, number: string)
    requires Free(owner, {'/', '#'}) && Free(repo, {'/', '#'}) && Free(number, {'/', '#'})
    ensures SafeKey(IssueKey(owner, repo, number)) == owner + "__" + repo + "__" + number
  {
    SafeKeyOfPlain(owner);
    SafeKeyOfPlain(repo);
    SafeKeyOfPlain(number);
    SafeKeyConcat(owner + "/" + repo + "#", number);
    SafeKeyConcat(owner + "/" + repo, "#");
    SafeKeyConcat(owner + "/", repo);
    SafeKeyConcat(owner, "/");
    assert SafeKey("/") == "__" + SafeKey("/"[1..]) == "__";
    assert SafeKey("#") == "__" + SafeKey("#"[1..]) == "__";
  }

  lemma LastUnderscore(restA: string, a: string, restB: string, b: string)
    requires Free(a, {'_'}) && Free(b, {'_'}) && restA + "_" + a == restB + "_" + b
    ensures a == b && restA == restB
  {
    var left, right := restA + "_" + a, restB + "_" + b;
    assert left[|restA|] == '_' && right[|restB|] == '_';
    assert forall i :: |restA| < i < |left| ==> left[i] == a[i - |restA| - 1];
    assert forall i :: |restB| < i < |right| ==> right[i] == b[i - |restB| - 1];
    assert |restA| == |restB|;
    assert a == left[|restA| + 1..] && b == right[|restB| + 1..];
    assert restA == left[..|restA|] && restB == right[..|restB|];
  }

  predicate IsIssue(owner: string, repo: string, number: string) {
    Free(owner, {'/', '#'}) && Free(repo, {'/', '#'}) && Free(number, {'_', '/', '#'})
  }

  /** Two different issues with one file name. */
  predicate Collide(o1: string, r1: string, n1: string, o2: string, r2: string, n2: string) {
    && IsIssue(o1, r1, n1) && IsIssue(o2, r2, n2) && (o1 != o2 || r1 != r2 || n1 != n2)
    && SafeKey(IssueKey(o1, r1, n1)) == SafeKey(IssueKey(o2, r2, n2))
  }

  /** An underscore followed by another one, or by the end of the owner. */
  predicate BadAt(owner: string, p: int) {
    0 <= p < |owner| && owner[p] == '_' && (p + 1 == |owner| || owner[p + 1] == '_')
  }

  /** The owner contains no double underscore and does not end in one; single inner underscores are fine. */
  ghost predicate GoodOwner(owner: string) {
    forall p :: !BadAt(owner, p)
  }

  /** In a good owner's file name the owner ends no later than any other owner's name could. */
  lemma OwnersAgree(o1: string, rest1: string, o2: string, rest2: string)
    requires GoodOwner(o1) && |o2| <= |o1| && o1 + "__" + rest1 == o2 + "__" + rest2
    ensures o1 == o2 && rest1 == rest2
  {
    var left, right := o1 + "__" + rest1, o2 + "__" + rest2;
    var p := |o2|;
    assert right[p] == '_' && right[p + 1] == '_';
    assert forall i :: 0 <= i < |o1| ==> left[i] == o1[i];
    assert !BadAt(o1, p);
    assert |o1| == |o2|;
    assert o1 == left[..p] && o2 == right[..p];
    assert rest1 == left[p + 2..] && rest2 == right[p + 2..];
  }

  lemma ReposAgree(r1: string, n1: string, r2: string, n2: string)
    requires Free(n1, {'_'}) && Free(n2, {'_'}) && r1 + "__" + n1 == r2 + "__" + n2
    ensures r1 == r2 && n1 == n2
  {
    assert r1 + "__" + n1 == (r1 + "_") + "_" + n1 && r2 + "__" + n2 == (r2 + "_") + "_" + n2;
    LastUnderscore(r1 + "_", n1, r2 + "_", n2);
    assert r1 == (r1 + "_")[..|r1|] && r2 == (r2 + "_")[..|r2|];
  }

  /** A good owner's issues share no file name with an owner that is no longer. */
  lemma GoodOwnerKeepsFiles(o1: string, r1: string, n1: string, o2: string, r2: string, n2: string)
    requires GoodOwner(o1) && |o2| <= |o1|
    ensures !Collide(o1, r1, n1, o2, r2, n2)
  {
    if Collide(o1, r1, n1, o2, r2, n2) {
      SafeKeyOfIssue(o1, r1, n1);
      SafeKeyOfIssue(o2, r2, n2);
      Regroup(o1, r1, n1);
      Regroup(o2, r2, n2);
      OwnersAgree(o1, r1 + "__" + n1, o2, r2 + "__" + n2);
      ReposAgree(r1, n1, r2, n2);
    }
  }

  lemma Regroup(owner: string, repo: string, number: string)
    ensures owner + "__" + repo + "__" + number == owner + "__" + (repo + "__" + number)
  {
  }

  /** Distinct issues of good owners get distinct file names. */
  lemma SafeKeyInjective(o1: string, r1: string, n1: string, o2: string, r2: string, n2: string)
    requires GoodOwner(o1) && GoodOwner(o2)
    ensures !Collide(o1, r1, n1, o2, r2, n2)
  {
    if |o2| <= |o1| {
      GoodOwnerKeepsFiles(o1, r1, n1, o2, r2, n2);
    } else {
      GoodOwnerKeepsFiles(o2, r2, n2, o1, r1, n1);
    }
  }

  /** The repository under which the part of a bad owner before the underscore shares the file name. */
  function Twin(owner: string, p: nat, repo: string): string
    requires BadAt(owner, p)
  {
    if p + 1 == |owner| then "_" + repo else owner[p + 2..] + "__" + repo
  }

  /** Every issue of a bad owner shares its file name with an issue of a shorter one. */
  lemma BadOwnerCollides(owner: string, p: nat, repo: string, number: string)
    requires BadAt(owner, p) && IsIssue(owner, repo, number)
    ensures Collide(owner, repo, number, owner[..p], Twin(owner, p, repo), number)
  {
    var twin := Twin(owner, p, repo);
    SafeKeyOfIssue(owner, repo, number);
    SafeKeyOfIssue(owner[..p], twin, number);
    if p + 1 == |owner| {
      assert owner == owner[..p] + "_";
      assert owner + "__" + repo + "__" + number == owner[..p] + "__" + twin + "__" + number;
    } else {
      assert owner == owner[..p] + "__" + owner[p + 2..];
      assert owner + "__" + repo + "__" + number == owner[..p] + "__" + twin + "__" + number;
    }
  }

  /** No issue of the owner shares a file name with an issue of an owner that is no longer. */
  ghost predicate KeepsFiles(owner: string) {
    forall r1, n1, o2, r2, n2 :: |o2| <= |owner| ==> !Collide(owner, r1, n1, o2, r2, n2)
  }

  /** File names of issue keys: an owner keeps clear of all owners that are no longer exactly when it is good. */
  lemma OwnerKeepsFilesExactlyWhen(owner: string)
    requires Free(owner, {'/', '#'})
    ensures KeepsFiles(owner) <==> GoodOwner(owner)
  {
    if GoodOwner(owner) {
      forall r1, n1, o2, r2, n2 | |o2| <= |owner| ensures !Collide(owner, r1, n1, o2, r2, n2) {
        GoodOwnerKeepsFiles(owner, r1, n1, o2, r2, n2);
      }
    } else {
      var p :| BadAt(owner, p);
      BadOwnerCollides(owner, p, "r", "1");
      assert |owner[..p]| <= |owner|;
    }
  }

  /** The two shapes: a double underscore inside, and a single one at the end. */
  lemma {:induction false} UnderscoreOwnerCollides()
    ensures Collide("a__b", "c", "1", "a", "b__c", "1")
    ensures Collide("a_", "b", "1", "a", "_b", "1")
  {
    assert "a__b"[1] == '_' && "a__b"[2] == '_' && "a_"[1] == '_';
    BadOwnerCollides("a__b", 1, "c", "1");
    BadOwnerCollides("a_", 1, "b", "1");
    assert "a__b"[..1] == "a" && "a__b"[3..] == "b" && "a_"[..1] == "a";
    assert "b" + "__" + "c" == "b__c" && "_" + "b" == "_b";
  }

  // ----- attempt ids -----

  function AttemptId(n: nat): string {
    "att-" + Decimal.Pad(n, 3)
  }

  /** The number in an attempt id; None where `int` raises or the prefix is missing. */
  function AttemptNumber(current: string): Option<nat> {
    if "att-" <= current then Decimal.Parse(current[4..]) else None
  }

  lemma AttemptNumberOfId(n: nat)
    ensures AttemptNumber(AttemptId(n)) == Some(n)
  {
    assert AttemptId(n)[4..] == Decimal.Pad(n, 3);
    assert AttemptId(n)[..4] == "att-";
    Decimal.ParseOfPad(n, 3);
  }

  /** `_next_attempt_id`. */
  function NextAttemptId(current: string): string {
    match AttemptNumber(current)
    case Some(n) => AttemptId(n + 1)
    case None => "att-001"
  }

  /** current_attempt.txt and the attempt counter of an entity's meta. */
  class AttemptCounter {
    var current: string
    var attemptCount: nat

    constructor ()
      ensures current == "" && attemptCount == 0
    {
      current, attemptCount := "", 0;
    }

    /** `create_attempt`: the predicted id, numbered one above the current one. */
    method CreateAttempt() returns (id: string)
      modifies this
      ensures id == NextAttemptId(old(current)) && current == id
      ensures AttemptNumber(id) == Some(match AttemptNumber(old(current)) case Some(n) => n + 1 case None => 1)
      ensures attemptCount >= old(attemptCount) && attemptCount >= AttemptNumber(id).value
      ensures attemptCount in {old(attemptCount), AttemptNumber(id).value}
    {
      var nextIndex: nat := 1;
      if "att-" <= current {
        match Decimal.Parse(current[4..])
        case Some(n) => nextIndex := n + 1;
        case None => nextIndex := 1;
      }
      AttemptNumberOfId(nextIndex);
      FirstAttemptId();
      id := AttemptId(nextIndex);
      current := id;
      attemptCount := Max(attemptCount, nextIndex);
    }
  }

  lemma FirstAttemptId()
    ensures AttemptId(1) == "att-001"
  {
    assert Decimal.Print(1) == "1" && Decimal.Zeros(2) == "00";
  }

  function NthAttemptId(n: nat): string {
    if n == 0 then "" else NextAttemptId(NthAttemptId(n - 1))
  }

  /** The n-th attempt of an issue is `att-n`, with no bound on n, so attempt ids never repeat. */
  lemma {:induction false} AttemptsAreNumberedInOrder(n: nat)
    requires n >= 1
    ensures NthAttemptId(n) == AttemptId(n) && AttemptNumber(NthAttemptId(n)) == Some(n)
  {
    AttemptNumberOfId(n);
    if n == 1 {
      FirstAttemptId();
    } else {
      AttemptsAreNumberedInOrder(n - 1);
      AttemptNumberOfId(n - 1);
    }
  }

  lemma AttemptIdsNeverRepeat(m: nat, n: nat)
    requires 1 <= m < n
    ensures NthAttemptId(m) != NthAttemptId(n)
  {
    AttemptsAreNumberedInOrder(m);
    AttemptsAreNumberedInOrder(n);
  }

  // ----- handoff ids -----

  function HandoffId(n: nat): string {
    "handoff-" + Decimal.Pad(n, 3)
  }

  /** `sorted(names)[-1]`. */
  function Latest(names: seq<string>): string
    requires names != []
  {
    var last := names[|names| - 1];
    if |names| == 1 then last
    else
      var best := Latest(names[..|names| - 1]);
      if LexLess(Codes(best), Codes(last)) then last else best
  }

  function HandoffNumber(name: string): Option<nat> {
    if "handoff-" <= name then Decimal.Parse(name[8..]) else None
  }

  lemma HandoffNumberOfId(n: nat)
    ensures HandoffNumber(HandoffId(n)) == Some(n)
  {
    assert HandoffId(n)[8..] == Decimal.Pad(n, 3) && HandoffId(n)[..8] == "handoff-";
    Decimal.ParseOfPad(n, 3);
  }

  /** `_next_handoff_id` over the stems of handoff-*.json. */
  function NextHandoffId(names: seq<string>): string {
    if names == [] then HandoffId(1)
    else
      match HandoffNumber(Latest(names))
      case Some(n) => HandoffId(n + 1)
      case None => HandoffId(1)
  }

  /** The directory after n handoffs were written one after the other; an existing file is overwritten. */
  function HandoffNames(n: nat): seq<string> {
    if n == 0 then []
    else OneMoreBundle(HandoffNames(n - 1))
  }

  /** The directory after one more handoff. */
  function OneMoreBundle(names: seq<string>): seq<string> {
    WithHandoff(names, NextHandoffId(names))
  }

  function WithHandoff(names: seq<string>, id: string): seq<string> {
    if id in names then names else names + [id]
  }

  lemma {:induction false} CodesConcat(a: string, b: string)
    ensures Codes(a + b) == Codes(a) + Codes(b)
  {
  }

  /** Digit strings of one length compare as numbers. */
  lemma {:induction false} LexIsNumericOrder(a: string, b: string)
    requires |a| == |b| && Decimal.AllDigits(a) && Decimal.AllDigits(b)
    ensures LexLess(Codes(a), Codes(b)) <==> Decimal.Value(a) < Decimal.Value(b)
    ensures Decimal.Value(a) == Decimal.Value(b) ==> a == b
    decreases |a|
  {
    if a != "" {
      var fa, fb := a[..|a| - 1], b[..|b| - 1];
      var ca, cb := a[|a| - 1], b[|b| - 1];
      LexIsNumericOrder(fa, fb);
      assert a == fa + [ca] && b == fb + [cb];
      CodesConcat(fa, [ca]);
      CodesConcat(fb, [cb]);
      LexConcat(Codes(fa), Codes([ca]), Codes(fb), Codes([cb]));
      assert Decimal.Value(a) == 10 * Decimal.Value(fa) + Decimal.DigitValue(ca);
      assert Decimal.Value(b) == 10 * Decimal.Value(fb) + Decimal.DigitValue(cb);
      SameCodes(fa, fb);
    }
  }

  lemma SameCodes(a: string, b: string)
    ensures Codes(a) == Codes(b) <==> a == b
  {
    if Codes(a) == Codes(b) {
      assert |a| == |b|;
      assert forall i :: 0 <= i < |a| ==> a[i] == Codes(a)[i] as char && b[i] == Codes(b)[i] as char;
    }
  }

  lemma PadLength(n: nat)
    requires n < 1000
    ensures |Decimal.Pad(n, 3)| == 3
  {
    assert n >= 10 ==> |Decimal.Print(n / 10)| <= 2;
  }

  lemma ValueOfPad(n: nat)
    ensures Decimal.Value(Decimal.Pad(n, 3)) == n
  {
    Decimal.ParseOfPad(n, 3);
  }

  /** Below 1000 handoff names sort as their numbers do. */
  lemma {:induction false} HandoffOrder(a: nat, b: nat)
    requires a < b < 1000
    ensures LexLess(Codes(HandoffId(a)), Codes(HandoffId(b)))
  {
    PadLength(a);
    PadLength(b);
    ValueOfPad(a);
    ValueOfPad(b);
    LexIsNumericOrder(Decimal.Pad(a, 3), Decimal.Pad(b, 3));
    CodesConcat("handoff-", Decimal.Pad(a, 3));
    CodesConcat("handoff-", Decimal.Pad(b, 3));
    LexConcat(Codes("handoff-"), Codes(Decimal.Pad(a, 3)), Codes("handoff-"), Codes(Decimal.Pad(b, 3)));
  }

  /** At 1000 the order breaks: "handoff-1000" sorts before "handoff-999". */
  lemma ThousandSortsFirst()
    ensures LexLess(Codes(HandoffId(1000)), Codes(HandoffId(999)))
  {
    PrintThousand();
    CodesConcat("handoff-", "1000");
    CodesConcat("handoff-", "999");
    LexConcat(Codes("handoff-"), Codes("1000"), Codes("handoff-"), Codes("999"));
    assert Codes("1000")[0] < Codes("999")[0];
  }

  lemma PrintThousand()
    ensures Decimal.Pad(1000, 3) == "1000" && Decimal.Pad(999, 3) == "999"
  {
    assert Decimal.Print(1) == "1" && Decimal.Print(10) == "10" && Decimal.Print(100) == "100";
    assert Decimal.Print(9) == "9" && Decimal.Print(99) == "99" && Decimal.Print(999) == "999";
    assert Decimal.Print(1000) == "1000";
  }

  function FirstHandoffs(n: nat): (names: seq<string>)
    ensures |names| == n && forall i :: 0 <= i < n ==> names[i] == HandoffId(i + 1)
  {
    seq(n, i requires 0 <= i < n => HandoffId(i + 1))
  }

  lemma {:induction false} LatestOfFirst(n: nat)
    requires 1 <= n <= 1000
    ensures Latest(FirstHandoffs(n)) == HandoffId(Min(n, 999))
  {
    if n > 1 {
      LatestOfFirst(n - 1);
      assert FirstHandoffs(n)[..n - 1] == FirstHandoffs(n - 1);
      if n < 1000 {
        HandoffOrder(n - 1, n);
      } else {
        ThousandSortsFirst();
        LexAsymmetric(Codes(HandoffId(1000)), Codes(HandoffId(999)));
      }
    }
  }

  lemma {:induction false} NextAfterFirst(n: nat)
    requires n <= 1000
    ensures NextHandoffId(FirstHandoffs(n)) == HandoffId(Min(n + 1, 1000))
  {
    if n > 0 {
      LatestOfFirst(n);
      NextAfterLatest(FirstHandoffs(n), Min(n, 999));
    }
  }

  lemma NextAfterLatest(names: seq<string>, latest: nat)
    requires names != [] && Latest(names) == HandoffId(latest)
    ensures NextHandoffId(names) == HandoffId(latest + 1)
  {
    HandoffNumberOfId(latest);
  }

  lemma HandoffIdsDiffer(a: nat, b: nat)
    requires a != b
    ensures HandoffId(a) != HandoffId(b)
  {
    if HandoffId(a) == HandoffId(b) {
      HandoffNumberOfId(a);
      HandoffNumberOfId(b);
    }
  }

  lemma NewNumberIsFresh(m: nat)
    ensures HandoffId(m + 1) !in FirstHandoffs(m)
  {
    var names, id := FirstHandoffs(m), HandoffId(m + 1);
    forall i | 0 <= i < m ensures names[i] != id {
      HandoffIdsDiffer(i + 1, m + 1);
    }
  }

  lemma OneMoreHandoff(m: nat)
    requires m <= 1000
    ensures WithHandoff(FirstHandoffs(m), HandoffId(Min(m + 1, 1000))) == FirstHandoffs(Min(m + 1, 1000))
  {
    NewNumberIsFresh(m);
    if m == 1000 {
      assert FirstHandoffs(1000)[999] == HandoffId(1000);
    } else {
      assert FirstHandoffs(m) + [HandoffId(m + 1)] == FirstHandoffs(m + 1);
    }
  }

  /** The directory fills up with handoff-001 .. handoff-1000 and then stays as it is. */
  lemma {:induction false} HandoffsSoFar(n: nat)
    ensures HandoffNames(n) == FirstHandoffs(Min(n, 1000))
  {
    if n > 0 {
      HandoffsSoFar(n - 1);
      var m := Min(n - 1, 1000);
      NextAfterFirst(m);
      OneMoreHandoff(m);
    }
  }

  /** A new handoff id is fresh exactly while fewer than 1000 handoffs exist; after that every new handoff
      overwrites handoff-1000. */
  lemma {:induction false} HandoffIsFreshExactlyBelowThousand(n: nat)
    ensures NextHandoffId(HandoffNames(n)) !in HandoffNames(n) <==> n < 1000
    ensures n >= 1000 ==> NextHandoffId(HandoffNames(n)) == HandoffId(1000)
  {
    HandoffsSoFar(n);
    var m := Min(n, 1000);
    NextAfterFirst(m);
    NewNumberIsFresh(m);
    assert m == 1000 ==> FirstHandoffs(1000)[999] == HandoffId(1000);
  }

  /** The directories an execution can leave: it writes at most one bundle, and that one is new. */
  lemma FirstHandoffIsFresh(n: nat)
    requires n <= 1
    ensures HandoffNames(n) == if n == 0 then [] else ["handoff-001"]
  {
    assert Decimal.Print(1) == "1";
    assert Decimal.Pad(1, 3) == "001";
    assert HandoffId(1) == "handoff-001";
    assert HandoffNames(0) == [];
    assert OneMoreBundle([]) == ["handoff-001"];
    assert HandoffNames(1) == OneMoreBundle(HandoffNames(0));
  }
}
