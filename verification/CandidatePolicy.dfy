/** Eligibility, rank and winner selection of app/implementation/candidate_policy.py. */
module CandidatePolicy {
  import opened Basics
  import opened StableSorting

  /** The two shapes of review object `severity_vector` accepts. */
  datatype Review =
    | WithCounts(counts: map<string, int>, planAlignmentOk: bool)
    | WithFields(critical: int, high: int, medium: int, low: int, planAlignmentOk: bool)

  datatype WinnerInput = WinnerInput(
    candidateId: string,
    hardChecksPass: bool,
    failureType: Option<string>,
    review: Review,
    unexpectedFileCount: int,
    protectedPathViolations: bool,
    proofComplete: bool,
    missingArtifacts: seq<string>,
    diffSize: int,
    durationMs: int)

  function CountOf(counts: map<string, int>, severity: string): int {
    if severity in counts then counts[severity] else 0
  }

  function SeverityVector(review: Review): seq<int> {
    match review
    case WithCounts(c, _) => [CountOf(c, "critical"), CountOf(c, "high"), CountOf(c, "medium"), CountOf(c, "low")]
    case WithFields(critical, high, medium, low, _) => [critical, high, medium, low]
  }

  predicate Eligible(c: WinnerInput) {
    c.hardChecksPass && c.proofComplete && !c.protectedPathViolations
  }

  /** The rank tuple: a severity tuple nested in front of six integers. */
  datatype Rank = Rank(severity: seq<int>, rest: seq<int>)

  function RankTuple(c: WinnerInput): (r: Rank)
    ensures |r.severity| == 4 && |r.rest| == 6
  {
    Rank(
      SeverityVector(c.review),
      [if c.review.planAlignmentOk then 0 else 1,
       c.unexpectedFileCount,
       |c.missingArtifacts|,
       if c.failureType in {None, Some("")} then 0 else 1,
       c.diffSize,
       c.durationMs])
  }

  /** Nested tuple comparison. */
  predicate RankLess(a: Rank, b: Rank) {
    LexLess(a.severity, b.severity) || (a.severity == b.severity && LexLess(a.rest, b.rest))
  }

  function RankKey(c: WinnerInput): seq<int> {
    RankTuple(c).severity + RankTuple(c).rest
  }

  /** Comparing the nested tuples is comparing the flattened ones. */
  lemma RankIsFlat(a: WinnerInput, b: WinnerInput)
    ensures RankLess(RankTuple(a), RankTuple(b)) <==> LexLess(RankKey(a), RankKey(b))
    ensures ExactTie(a, b) <==> RankKey(a) == RankKey(b)
  {
    var ra, rb := RankTuple(a), RankTuple(b);
    LexConcat(ra.severity, ra.rest, rb.severity, rb.rest);
    if RankKey(a) == RankKey(b) {
      assert ra.severity == RankKey(a)[..4] && rb.severity == RankKey(b)[..4];
      assert ra.rest == RankKey(a)[4..] && rb.rest == RankKey(b)[4..];
    }
  }

  predicate ExactTie(a: WinnerInput, b: WinnerInput) {
    RankTuple(a) == RankTuple(b)
  }

  /** Severity comes first, the most severe before all: one critical finding less outweighs everything else, then one
      high finding less, and so on. */
  lemma SeverityDecidesFirst(a: WinnerInput, b: WinnerInput)
    requires a.review.WithFields? && b.review.WithFields?
    ensures a.review.critical < b.review.critical ==> RankLess(RankTuple(a), RankTuple(b))
    ensures a.review.critical == b.review.critical ==>
      && (a.review.high < b.review.high ==> RankLess(RankTuple(a), RankTuple(b)))
      && (a.review.high == b.review.high && a.review.medium < b.review.medium ==> RankLess(RankTuple(a), RankTuple(b)))
      && (a.review.high == b.review.high && a.review.medium == b.review.medium && a.review.low < b.review.low ==>
            RankLess(RankTuple(a), RankTuple(b)))
  {
    var sa, sb := RankTuple(a).severity, RankTuple(b).severity;
    LexLessExactlyWhen(sa, sb);
    assert a.review.critical < b.review.critical ==> SmallerAt(sa, sb, 0);
    assert a.review.critical == b.review.critical && a.review.high < b.review.high ==> SmallerAt(sa, sb, 1);
    assert sa[..2] == sb[..2] && a.review.medium < b.review.medium ==> SmallerAt(sa, sb, 2);
    assert sa[..3] == sb[..3] && a.review.low < b.review.low ==> SmallerAt(sa, sb, 3);
  }

  /** Counts given by name rank like counts given by field; a missing name counts zero. */
  lemma BothShapesRankAlike(c: WinnerInput, critical: int, high: int, medium: int, low: int, ok: bool)
    ensures RankTuple(c.(review := WithFields(critical, high, medium, low, ok)))
         == RankTuple(c.(review := WithCounts(map["critical" := critical, "high" := high, "medium" := medium, "low" := low], ok)))
    ensures RankTuple(c.(review := WithFields(0, 0, 0, 0, ok))) == RankTuple(c.(review := WithCounts(map[], ok)))
  {
    var counts := map["critical" := critical, "high" := high, "medium" := medium, "low" := low];
    assert |"critical"| != |"high"| && |"critical"| != |"medium"| && |"high"| != |"medium"| && |"low"| != |"high"|;
  }

  lemma MutuallyLeastTie(a: WinnerInput, b: WinnerInput)
    requires !RankLess(RankTuple(a), RankTuple(b)) && !RankLess(RankTuple(b), RankTuple(a))
    ensures ExactTie(a, b)
  {
    RankIsFlat(a, b);
    RankIsFlat(b, a);
    AtMostAntisymmetric(RankKey(a), RankKey(b));
  }

  function EligibleOnes(candidates: seq<WinnerInput>): seq<WinnerInput> {
    Filter(candidates, Eligible)
  }

  datatype SelectionError = NoEligibleCandidates

  function SelectWinner(candidates: seq<WinnerInput>): Result<string, SelectionError> {
    var ranked := StableSort(EligibleOnes(candidates), RankKey);
    if ranked == [] then Err(NoEligibleCandidates) else Ok(ranked[0].candidateId)
  }

  /** Position i is eligible and no eligible candidate has a smaller rank. */
  ghost predicate IsTop(candidates: seq<WinnerInput>, i: int) {
    && 0 <= i < |candidates|
    && Eligible(candidates[i])
    && forall j :: 0 <= j < |candidates| && Eligible(candidates[j]) ==>
         !RankLess(RankTuple(candidates[j]), RankTuple(candidates[i]))
  }

  /** The reference meaning of "winner": eligible, least rank among the eligible, and the first such. */
  ghost predicate IsWinner(candidates: seq<WinnerInput>, i: int) {
    && IsTop(candidates, i)
    && (forall j :: 0 <= j < i && Eligible(candidates[j]) ==> !ExactTie(candidates[j], candidates[i]))
  }

  lemma WinnerIsUnique(candidates: seq<WinnerInput>, i: int, j: int)
    requires IsWinner(candidates, i) && IsWinner(candidates, j)
    ensures i == j
  {
    MutuallyLeastTie(candidates[i], candidates[j]);
    MutuallyLeastTie(candidates[j], candidates[i]);
  }

  /** Where the k-th eligible candidate sits in the whole list. */
  lemma {:induction false} EligiblePosition(candidates: seq<WinnerInput>, k: nat) returns (i: nat)
    requires k < |EligibleOnes(candidates)|
    ensures i < |candidates| && candidates[i] == EligibleOnes(candidates)[k]
    ensures EligibleOnes(candidates[..i]) == EligibleOnes(candidates)[..k]
  {
    var rest := candidates[1..];
    if Eligible(candidates[0]) && k == 0 {
      i := 0;
    } else {
      var skipped := if Eligible(candidates[0]) then 1 else 0;
      var r := EligiblePosition(rest, k - skipped);
      i := r + 1;
      assert candidates[..i][1..] == rest[..r];
    }
  }

  /** Selection raises exactly when nothing is eligible; otherwise it names the reference winner. The
      sort may be any stable sort. */
  lemma SelectWinnerMeetsReference(candidates: seq<WinnerInput>)
    ensures SelectWinner(candidates).Err? <==> forall c :: c in candidates ==> !Eligible(c)
    ensures SelectWinner(candidates).Ok? ==>
      exists i :: IsWinner(candidates, i) && SelectWinner(candidates).value == candidates[i].candidateId
  {
    var pool := EligibleOnes(candidates);
    FilterMembers(candidates, Eligible);
    SortIsStable(pool, RankKey);
    if pool == [] {
      assert StableSort(pool, RankKey) == [];
      assert forall c :: c in candidates ==> c !in pool;
    } else {
      var k := EarliestLeastExists(pool, RankKey);
      HeadOfStableSort(StableSort(pool, RankKey), pool, RankKey, k);
      assert pool[k] in pool;
      var i := EligiblePosition(candidates, k);
      forall j | 0 <= j < |candidates| && Eligible(candidates[j])
        ensures !RankLess(RankTuple(candidates[j]), RankTuple(candidates[i]))
        ensures j < i ==> !ExactTie(candidates[j], candidates[i])
      {
        RankIsFlat(candidates[j], candidates[i]);
        assert candidates[j] in pool;
        var m :| 0 <= m < |pool| && pool[m] == candidates[j];
        if j < i {
          FilterMembers(candidates[..i], Eligible);
          assert candidates[..i][j] == candidates[j];
          assert candidates[j] in pool[..k];
        }
      }
      assert IsWinner(candidates, i);
    }
  }

  lemma StableSortChoiceIsIrrelevant(candidates: seq<WinnerInput>, sorted: seq<WinnerInput>)
    requires IsStableSort(sorted, EligibleOnes(candidates), RankKey)
    ensures sorted == StableSort(EligibleOnes(candidates), RankKey)
  {
    SortIsStable(EligibleOnes(candidates), RankKey);
    StableSortIsUnique(sorted, StableSort(EligibleOnes(candidates), RankKey), RankKey);
  }
}
