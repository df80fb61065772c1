/** The order of preference between candidates, in the fields of their results. */
module CandidatePreference {
  import opened Basics
  import opened CandidatePolicy
  import opened CandidateResults
  import opened CandidateSelection
  import opened StableSorting
  import Text

  /** How many of the findings a candidate is judged by have the severity: the postable ones if there are any. */
  function FindingsOf(r: CandidateResult, severity: string): nat {
    var judged := if r.review.postableFindings != [] then r.review.postableFindings else r.review.findings;
    |Where(judged, f => f == severity)|
  }

  function FilesChanged(r: CandidateResult): nat {
    |Where(r.changedFiles, f => Text.Strip(f) != "")|
  }

  /** The scope analysis counts the unexpected files; without its count, the changed files the plan does not name. */
  function UnexpectedFiles(expected: set<string>, r: CandidateResult): int {
    match r.scope.unexpectedFileCount
    case Some(n) => n
    case None =>
      if expected == {} then 0 else |Where(r.changedFiles, f => Text.Strip(f) != "" && Text.Strip(f) !in expected)|
  }

  predicate FollowsPlan(expected: set<string>, r: CandidateResult) {
    UnexpectedFiles(expected, r) == 0 && r.review.unnecessaryChanges == []
  }

  /** What counts against a candidate, the most important first. */
  function Demerits(expected: set<string>, r: CandidateResult): seq<int> {
    [FindingsOf(r, "high"), FindingsOf(r, "medium"), FindingsOf(r, "low"),
     if FollowsPlan(expected, r) then 0 else 1,
     UnexpectedFiles(expected, r), |r.missingArtifacts|, if r.failureType == "" then 0 else 1,
     FilesChanged(r), r.durationMs]
  }

  /** Nothing counts more against a than against b, or the most important thing that differs counts more against b. */
  ghost predicate AtLeastAsGood(a: seq<int>, b: seq<int>) {
    a == b || exists k :: SmallerAt(a, b, k)
  }

  lemma {:induction false} NonBlankFilters(items: seq<string>, keep: string -> bool)
    ensures |Filter(Text.NonBlank(items), keep)| == |Filter(items, f => Text.Strip(f) != "" && keep(Text.Strip(f)))|
  {
    if items != [] {
      NonBlankFilters(items[1..], keep);
      assert ([Text.Strip(items[0])] + Text.NonBlank(items[1..]))[1..] == Text.NonBlank(items[1..]);
    }
  }

  lemma NonBlankOutside(items: seq<string>, expected: set<string>)
    ensures |Filter(Text.NonBlank(items), p => p !in expected)|
         == |Where(items, f => Text.Strip(f) != "" && Text.Strip(f) !in expected)|
  {
    var keep := p => p !in expected;
    NonBlankFilters(items, keep);
    FilterCounts(items, f => Text.Strip(f) != "" && keep(Text.Strip(f)));
    WhereSame(items, f => Text.Strip(f) != "" && keep(Text.Strip(f)),
              f => Text.Strip(f) != "" && Text.Strip(f) !in expected);
    FilterSame(Text.NonBlank(items), p => p !in expected, keep);
  }

  lemma UnexpectedAreCounted(expected: set<string>, r: CandidateResult)
    ensures WinnerInputOf(expected, r).unexpectedFileCount == UnexpectedFiles(expected, r)
  {
    if r.scope.unexpectedFileCount.None? && expected != {} {
      NonBlankOutside(r.changedFiles, expected);
      FilterSame(Text.NonBlank(r.changedFiles), p => p !in expected, f => f !in expected);
    }
  }

  lemma {:induction false} FilterSame<T(!new)>(s: seq<T>, p: T -> bool, q: T -> bool)
    requires forall x :: p(x) == q(x)
    ensures Filter(s, p) == Filter(s, q)
  {
    if s != [] {
      FilterSame(s[1..], p, q);
    }
  }

  lemma WhereSame<T(!new)>(s: seq<T>, p: T -> bool, q: T -> bool)
    requires forall x :: p(x) == q(x)
    ensures Where(s, p) == Where(s, q)
  {
  }

  lemma SeverityOfInput(expected: set<string>, r: CandidateResult)
    ensures SeverityVector(WinnerInputOf(expected, r).review)
         == [0, FindingsOf(r, "high"), FindingsOf(r, "medium"), FindingsOf(r, "low")]
  {
    var findings := ReviewedFindings(r.review);
    CountSeverityCounts(findings, "high");
    CountSeverityCounts(findings, "medium");
    CountSeverityCounts(findings, "low");
  }

  lemma RestOfInput(expected: set<string>, r: CandidateResult)
    ensures RankTuple(WinnerInputOf(expected, r)).rest
         == [if FollowsPlan(expected, r) then 0 else 1, UnexpectedFiles(expected, r), |r.missingArtifacts|,
             if r.failureType == "" then 0 else 1, FilesChanged(r), r.durationMs]
  {
    UnexpectedAreCounted(expected, r);
    NonBlankSize(r.changedFiles);
  }

  /** The rank is the demerits behind a count of critical findings that is always zero. */
  lemma RankIsDemerits(expected: set<string>, r: CandidateResult)
    ensures RankKey(WinnerInputOf(expected, r)) == [0] + Demerits(expected, r)
  {
    SeverityOfInput(expected, r);
    RestOfInput(expected, r);
  }

  /** Candidates tie exactly when nothing counts more against one than against the other. */
  lemma TieExactlyWhen(expected: set<string>, a: CandidateResult, b: CandidateResult)
    ensures ExactTie(WinnerInputOf(expected, a), WinnerInputOf(expected, b)) <==>
      Demerits(expected, a) == Demerits(expected, b)
  {
    RankIsFlat(WinnerInputOf(expected, a), WinnerInputOf(expected, b));
    RankIsDemerits(expected, a);
    RankIsDemerits(expected, b);
    var da, db := Demerits(expected, a), Demerits(expected, b);
    assert [0] + da == [0] + db ==> ([0] + da)[1..] == ([0] + db)[1..];
  }

  lemma BehindZero(a: seq<int>, b: seq<int>, k: int)
    requires SmallerAt([0] + a, [0] + b, k)
    ensures SmallerAt(a, b, k - 1)
  {
    assert k > 0;
    assert a[..k - 1] == ([0] + a)[..k][1..] && b[..k - 1] == ([0] + b)[..k][1..];
  }

  lemma NotRankedBehind(expected: set<string>, a: CandidateResult, b: CandidateResult)
    requires !RankLess(RankTuple(WinnerInputOf(expected, b)), RankTuple(WinnerInputOf(expected, a)))
    ensures AtLeastAsGood(Demerits(expected, a), Demerits(expected, b))
  {
    var da, db := Demerits(expected, a), Demerits(expected, b);
    RankIsFlat(WinnerInputOf(expected, b), WinnerInputOf(expected, a));
    RankIsDemerits(expected, a);
    RankIsDemerits(expected, b);
    LexTotal([0] + da, [0] + db);
    if LexLess([0] + da, [0] + db) {
      LexLessExactlyWhen([0] + da, [0] + db);
      var k :| SmallerAt([0] + da, [0] + db, k);
      BehindZero(da, db, k);
    } else {
      assert da == ([0] + da)[1..] && db == ([0] + db)[1..];
    }
  }

  /** May be chosen among two or more. */
  predicate MayBeChosen(r: CandidateResult) {
    && r.success && !HasFailedHardCheck(r.commandResults) && r.proofComplete
    && r.scope.mustNotTouchViolations == [] && r.scope.protectedConfigViolations == []
    && r.review.protectedPathTouches == []
  }

  /** At least as good as every success that may be chosen, and one of them. */
  ghost predicate Preferred(expected: set<string>, results: seq<CandidateResult>, winner: CandidateResult) {
    && MayBeChosen(winner)
    && forall other :: other in results && MayBeChosen(other) ==>
      AtLeastAsGood(Demerits(expected, winner), Demerits(expected, other))
  }

  lemma {:induction false} FinalWinnerIsPreferred(expected: set<string>, results: seq<CandidateResult>, reply: JudgeReply)
    requires GoodIds(results) && |Successful(results)| >= 2
    requires SelectCandidateResult(expected, results).Chosen?
    ensures Preferred(expected, results, FinalWinner(expected, results, reply).value.result)
  {
    FinalWinnerIsTopRanked(expected, results, reply);
    var winner := FinalWinner(expected, results, reply).value.result;
    forall other | other in results && MayBeChosen(other)
      ensures AtLeastAsGood(Demerits(expected, winner), Demerits(expected, other))
    {
      NotRankedBehind(expected, winner, other);
    }
  }
}
