/** Choosing the winning candidate in app/pipeline.py: gating, deterministic rank and the tie-break judge. */
module CandidateSelection {
  import opened Basics
  import opened CandidatePolicy
  import opened CandidateResults
  import opened Dedupe
  import opened StableSorting
  import Text

  datatype Selection = Selection(
    winnerCandidateId: string,
    successful: seq<string>,
    exactTieDetected: bool,
    tiedCandidateIds: seq<string>,
    selectionBasis: string)

  /** SelectionRaised is the ValueError of `select_winner` leaving `_select_candidate_result`. */
  datatype SelectionOutcome =
    | NoWinner(selection: Selection)
    | Chosen(result: CandidateResult, selection: Selection)
    | SelectionRaised

  function Ids(results: seq<CandidateResult>): (ids: seq<string>)
    ensures |ids| == |results| && forall i :: 0 <= i < |results| ==> ids[i] == results[i].candidateId
  {
    seq(|results|, i requires 0 <= i < |results| => results[i].candidateId)
  }

  function Inputs(expected: set<string>, results: seq<CandidateResult>): (inputs: seq<WinnerInput>)
    ensures |inputs| == |results|
    ensures forall i :: 0 <= i < |results| ==> inputs[i] == WinnerInputOf(expected, results[i])
  {
    seq(|results|, i requires 0 <= i < |results| => WinnerInputOf(expected, results[i]))
  }

  function Successful(results: seq<CandidateResult>): seq<CandidateResult> {
    Filter(results, IsSuccess)
  }

  /** The stripped, non-blank ids without repetition. */
  ghost function UsableIds(rawIds: seq<string>): seq<string> {
    FirstOfEachKey(Text.NonBlank(rawIds), id => id)
  }

  lemma UsableIdsStep(rawIds: seq<string>, n: nat)
    requires n < |rawIds|
    ensures var id, before := Text.Strip(rawIds[n]), UsableIds(rawIds[..n]);
      UsableIds(rawIds[..n + 1]) == if id == "" || id in before then before else before + [id]
  {
    var id, key := Text.Strip(rawIds[n]), (x: string) => x;
    assert rawIds[..n + 1] == rawIds[..n] + [rawIds[n]];
    Text.NonBlankAppend(rawIds[..n], rawIds[n]);
    DedupeStep(Text.NonBlank(rawIds[..n]), id, key);
    DedupeKeepsKeys(Text.NonBlank(rawIds[..n]), key, id);
    assert HasKey(UsableIds(rawIds[..n]), key, id) <==> id in UsableIds(rawIds[..n]);
  }

  lemma UsableIdsAreGood(rawIds: seq<string>)
    ensures Distinct(UsableIds(rawIds))
    ensures forall i :: 0 <= i < |UsableIds(rawIds)| ==> UsableIds(rawIds)[i] != "" && Text.Trimmed(UsableIds(rawIds)[i])
  {
    var key := (x: string) => x;
    DedupeIsDistinct(Text.NonBlank(rawIds), key);
    Text.NonBlankAreTrimmed(rawIds);
    forall i | 0 <= i < |UsableIds(rawIds)| ensures UsableIds(rawIds)[i] in Text.NonBlank(rawIds) {
      DedupeKeepsKeys(Text.NonBlank(rawIds), key, UsableIds(rawIds)[i]);
      assert HasKey(UsableIds(rawIds), key, UsableIds(rawIds)[i]);
    }
  }

  /** `_resolve_candidate_ids` on an enabled decision: the first two usable ids, or "primary" without any. */
  method ResolveCandidateIds(rawIds: seq<string>) returns (ids: seq<string>)
    ensures var usable := UsableIds(rawIds);
      ids == if usable == [] then ["primary"] else usable[..Min(2, |usable|)]
    ensures 1 <= |ids| <= 2 && Distinct(ids)
    ensures forall i :: 0 <= i < |ids| ==> ids[i] != "" && Text.Trimmed(ids[i])
  {
    ids := [];
    for n := 0 to |rawIds|
      invariant ids == UsableIds(rawIds[..n])
    {
      var candidateId := Text.Strip(rawIds[n]);
      UsableIdsStep(rawIds, n);
      if candidateId != "" && candidateId !in ids {
        ids := ids + [candidateId];
      }
    }
    assert rawIds[..|rawIds|] == rawIds;
    UsableIdsAreGood(rawIds);
    if |ids| > 2 {
      ids := ids[..2];
    } else if ids == [] {
      ids := ["primary"];
    } else {
      assert ids == ids[..|ids|];
    }
  }

  function FindById(results: seq<CandidateResult>, id: string): Option<CandidateResult> {
    if results == [] then None
    else if results[0].candidateId == id then Some(results[0])
    else FindById(results[1..], id)
  }

  function FindInput(inputs: seq<WinnerInput>, id: string): Option<WinnerInput> {
    if inputs == [] then None
    else if inputs[0].candidateId == id then Some(inputs[0])
    else FindInput(inputs[1..], id)
  }

  function TiedIds(inputs: seq<WinnerInput>, winner: WinnerInput): seq<string> {
    if inputs == [] then []
    else
      (if Eligible(inputs[0]) && ExactTie(inputs[0], winner) then [inputs[0].candidateId] else [])
      + TiedIds(inputs[1..], winner)
  }

  /** `_exact_tie_candidate_ids`. */
  function ExactTieCandidateIds(inputs: seq<WinnerInput>, winnerId: string): seq<string> {
    match FindInput(inputs, winnerId)
    case None => []
    case Some(winner) => if Eligible(winner) then StableSort(TiedIds(inputs, winner), Codes) else []
  }

  /** `_select_candidate_result`. One success wins without being ranked or checked for eligibility. */
  function SelectCandidateResult(expected: set<string>, results: seq<CandidateResult>): SelectionOutcome {
    var successful := Successful(results);
    var empty := Selection("", Ids(successful), false, [], "deterministic_rank");
    if successful == [] then NoWinner(empty)
    else if |successful| == 1 then
      Chosen(successful[0], empty.(winnerCandidateId := successful[0].candidateId))
    else
      RankedSelection(successful, Inputs(expected, successful), empty)
  }

  /** Two or more successes are ranked. */
  function RankedSelection(successful: seq<CandidateResult>, inputs: seq<WinnerInput>, empty: Selection): SelectionOutcome
    requires successful != []
  {
    match SelectWinner(inputs)
    case Err(_) => SelectionRaised
    case Ok(winnerId) =>
      var tied := ExactTieCandidateIds(inputs, winnerId);
      var selection := empty.(winnerCandidateId := winnerId, exactTieDetected := |tied| > 1, tiedCandidateIds := tied);
      match FindById(successful, winnerId)
      case Some(result) => Chosen(result, selection)
      case None => Chosen(successful[0], selection)
  }

  /** The untrusted judge: it may raise, name anything, or return an explanation that cannot be iterated. */
  datatype JudgeReply = JudgeRaised | Verdict(winnerCandidateId: string, explanationIterable: bool)

  /** winner_tiebreak_judge.json. */
  datatype TieBreak = TieBreak(
    tiedCandidateIds: seq<string>,
    fallbackWinnerCandidateId: string,
    winnerCandidateId: string,
    selectionBasis: string)

  datatype Resolution = Resolution(result: CandidateResult, selection: Selection, artifact: Option<TieBreak>)

  function StripAll(ids: seq<string>): seq<string> {
    if ids == [] then []
    else
      var id := Text.Strip(ids[0]);
      (if id == "" then [] else [id]) + StripAll(ids[1..])
  }

  function Lookup(results: seq<CandidateResult>, ids: seq<string>): seq<CandidateResult> {
    if ids == [] then []
    else
      (match FindById(results, ids[0]) case Some(r) => [r] case None => []) + Lookup(results, ids[1..])
  }

  /** `_resolve_exact_tie_winner`. */
  function ResolveExactTie(
    results: seq<CandidateResult>, winner: CandidateResult, selection: Selection, reply: JudgeReply): Resolution
  {
    var tiedIds := StripAll(selection.tiedCandidateIds);
    var tied := Lookup(Successful(results), tiedIds);
    if |tiedIds| < 2 || |tied| < 2 then Resolution(winner, selection, None)
    else
      var fallbackId := winner.candidateId;
      var judgedId := if reply.Verdict? then Text.Strip(reply.winnerCandidateId) else fallbackId;
      var known := FindById(tied, judgedId).Some?;
      var accepted := reply.Verdict? && known && reply.explanationIterable;
      var finalId := if accepted then judgedId else fallbackId;
      var basis := if accepted then "exact_tie_claude_judge" else "exact_tie_deterministic_fallback";
      // The artifact records the verdict before the explanation is read, and is not corrected afterwards.
      var recordedId := if reply.Verdict? && known then judgedId else fallbackId;
      Resolution(
        match FindById(tied, finalId) case Some(r) => r case None => winner,
        selection.(winnerCandidateId := finalId, selectionBasis := basis),
        Some(TieBreak(tiedIds, fallbackId, recordedId, basis)))
  }

  /** Selection followed, when a tie was detected, by the judge. */
  function FinalWinner(expected: set<string>, results: seq<CandidateResult>, reply: JudgeReply): Result<Resolution, SelectionOutcome> {
    match SelectCandidateResult(expected, results)
    case Chosen(result, selection) =>
      Ok(if selection.exactTieDetected then ResolveExactTie(results, result, selection, reply)
         else Resolution(result, selection, None))
    case failed => Err(failed)
  }

  // ----- what is guaranteed -----

  /** Candidate ids as `ResolveCandidateIds` produces them. */
  ghost predicate GoodIds(results: seq<CandidateResult>) {
    && (forall i, j :: 0 <= i < j < |results| ==> results[i].candidateId != results[j].candidateId)
    && (forall i :: 0 <= i < |results| ==> results[i].candidateId != "" && Text.Trimmed(results[i].candidateId))
  }

  lemma {:induction false} SuccessfulKeepsGoodIds(results: seq<CandidateResult>)
    requires GoodIds(results)
    ensures GoodIds(Successful(results))
    ensures forall r :: r in Successful(results) <==> r in results && r.success
  {
    FilterMembers(results, IsSuccess);
    if results != [] {
      SuccessfulKeepsGoodIds(results[1..]);
      FilterMembers(results[1..], IsSuccess);
    }
  }

  lemma {:induction false} FindByIdAt(results: seq<CandidateResult>, i: nat)
    requires i < |results| && forall j :: 0 <= j < i ==> results[j].candidateId != results[i].candidateId
    ensures FindById(results, results[i].candidateId) == Some(results[i])
  {
    if i > 0 {
      FindByIdAt(results[1..], i - 1);
    }
  }

  lemma {:induction false} FindByIdMember(results: seq<CandidateResult>, id: string)
    ensures match FindById(results, id)
      case Some(r) => r in results && r.candidateId == id
      case None => forall r :: r in results ==> r.candidateId != id
  {
    if results != [] && results[0].candidateId != id {
      FindByIdMember(results[1..], id);
    }
  }

  lemma {:induction false} FindInputAt(inputs: seq<WinnerInput>, i: nat)
    requires i < |inputs| && forall j :: 0 <= j < i ==> inputs[j].candidateId != inputs[i].candidateId
    ensures FindInput(inputs, inputs[i].candidateId) == Some(inputs[i])
  {
    if i > 0 {
      FindInputAt(inputs[1..], i - 1);
    }
  }

  lemma {:induction false} TiedIdsMembers(inputs: seq<WinnerInput>, winner: WinnerInput)
    ensures forall id :: id in TiedIds(inputs, winner) <==>
      exists i :: 0 <= i < |inputs| && inputs[i].candidateId == id && Eligible(inputs[i]) && ExactTie(inputs[i], winner)
  {
    if inputs != [] {
      var rest := inputs[1..];
      TiedIdsMembers(rest, winner);
      forall id
        ensures id in TiedIds(inputs, winner) <==>
          exists i :: 0 <= i < |inputs| && inputs[i].candidateId == id && Eligible(inputs[i]) && ExactTie(inputs[i], winner)
      {
        if i :| 0 <= i < |rest| && rest[i].candidateId == id && Eligible(rest[i]) && ExactTie(rest[i], winner) {
          assert inputs[i + 1] == rest[i];
        }
        if i :| 0 <= i < |inputs| && inputs[i].candidateId == id && Eligible(inputs[i]) && ExactTie(inputs[i], winner) {
          assert i > 0 ==> rest[i - 1] == inputs[i];
        }
      }
    }
  }

  /** Successful, eligible, and of least rank among the successful eligible results. */
  ghost predicate TopRanked(expected: set<string>, results: seq<CandidateResult>, r: CandidateResult) {
    && r in results && r.success
    && Eligible(WinnerInputOf(expected, r))
    && forall other :: other in results && other.success && Eligible(WinnerInputOf(expected, other)) ==>
         !RankLess(RankTuple(WinnerInputOf(expected, other)), RankTuple(WinnerInputOf(expected, r)))
  }

  ghost predicate SameRank(expected: set<string>, a: CandidateResult, b: CandidateResult) {
    RankTuple(WinnerInputOf(expected, a)) == RankTuple(WinnerInputOf(expected, b))
  }

  /** Result r sits at position i of the successful ones and nothing eligible before it ties with it. */
  ghost predicate EarliestAt(expected: set<string>, successful: seq<CandidateResult>, r: CandidateResult, i: int) {
    && 0 <= i < |successful| && successful[i] == r
    && forall j :: 0 <= j < i && Eligible(WinnerInputOf(expected, successful[j])) ==> !SameRank(expected, successful[j], r)
  }

  lemma {:induction false} TopRankedIsTop(expected: set<string>, results: seq<CandidateResult>, k: nat)
    requires GoodIds(results) && k < |Successful(results)|
    ensures IsTop(Inputs(expected, Successful(results)), k) <==> TopRanked(expected, results, Successful(results)[k])
  {
    var successful := Successful(results);
    var inputs := Inputs(expected, successful);
    SuccessfulKeepsGoodIds(results);
    if IsTop(inputs, k) {
      forall other | other in results && other.success && Eligible(WinnerInputOf(expected, other))
        ensures !RankLess(RankTuple(WinnerInputOf(expected, other)), RankTuple(inputs[k]))
      {
        var j :| 0 <= j < |successful| && successful[j] == other;
        assert inputs[j] == WinnerInputOf(expected, other);
      }
    }
    if TopRanked(expected, results, successful[k]) {
      forall j | 0 <= j < |inputs| && Eligible(inputs[j])
        ensures !RankLess(RankTuple(inputs[j]), RankTuple(inputs[k]))
      {
        assert successful[j] in results && successful[j].success;
      }
    }
  }

  lemma TiedIdsAreTop(inputs: seq<WinnerInput>, i: nat, k: nat)
    requires IsTop(inputs, i) && k < |inputs|
    requires forall a, b :: 0 <= a < b < |inputs| ==> inputs[a].candidateId != inputs[b].candidateId
    ensures inputs[k].candidateId in TiedIds(inputs, inputs[i]) <==> IsTop(inputs, k)
  {
    TiedIdsMembers(inputs, inputs[i]);
    if IsTop(inputs, k) {
      MutuallyLeastTie(inputs[k], inputs[i]);
    }
  }

  lemma {:induction false} RankedSelectionAt(successful: seq<CandidateResult>, inputs: seq<WinnerInput>, empty: Selection, i: nat)
    requires i < |inputs| == |successful| && Eligible(inputs[i]) && SelectWinner(inputs) == Ok(inputs[i].candidateId)
    requires forall j :: 0 <= j <= i ==> inputs[j].candidateId == successful[j].candidateId
    requires forall j :: 0 <= j < i ==> successful[j].candidateId != successful[i].candidateId
    ensures var outcome := RankedSelection(successful, inputs, empty);
      && outcome.Chosen? && outcome.result == successful[i]
      && outcome.selection.winnerCandidateId == successful[i].candidateId
      && outcome.selection.tiedCandidateIds == StableSort(TiedIds(inputs, inputs[i]), Codes)
      && (outcome.selection.exactTieDetected <==> |outcome.selection.tiedCandidateIds| > 1)
  {
    FindByIdAt(successful, i);
    FindInputAt(inputs, i);
  }

  /** What `_select_candidate_result` returns, in terms of the winner's position. */
  lemma {:induction false} ChosenPosition(expected: set<string>, results: seq<CandidateResult>) returns (i: nat)
    requires GoodIds(results) && |Successful(results)| >= 2
    requires SelectCandidateResult(expected, results).Chosen?
    ensures var successful := Successful(results);
      var inputs := Inputs(expected, successful);
      var outcome := SelectCandidateResult(expected, results);
      && IsWinner(inputs, i)
      && outcome.result == successful[i]
      && outcome.selection.winnerCandidateId == successful[i].candidateId
      && outcome.selection.tiedCandidateIds == StableSort(TiedIds(inputs, inputs[i]), Codes)
      && (outcome.selection.exactTieDetected <==> |outcome.selection.tiedCandidateIds| > 1)
  {
    var successful := Successful(results);
    var inputs := Inputs(expected, successful);
    SuccessfulKeepsGoodIds(results);
    SelectWinnerMeetsReference(inputs);
    i :| IsWinner(inputs, i) && SelectWinner(inputs).value == inputs[i].candidateId;
    RankedSelectionAt(successful, inputs, Selection("", Ids(successful), false, [], "deterministic_rank"), i);
  }

  lemma EligibleInputs(expected: set<string>, results: seq<CandidateResult>)
    requires GoodIds(results)
    ensures (forall c :: c in Inputs(expected, Successful(results)) ==> !Eligible(c))
       <==> (forall r :: r in results && r.success ==> !Eligible(WinnerInputOf(expected, r)))
  {
    var successful := Successful(results);
    var inputs := Inputs(expected, successful);
    SuccessfulKeepsGoodIds(results);
    forall r | r in results && r.success ensures WinnerInputOf(expected, r) in inputs {
      var k :| 0 <= k < |successful| && successful[k] == r;
      assert inputs[k] == WinnerInputOf(expected, r);
    }
    forall c | c in inputs ensures exists r :: r in results && r.success && c == WinnerInputOf(expected, r) {
      var k :| 0 <= k < |inputs| && inputs[k] == c;
      assert successful[k] in successful;
    }
  }

  /** Selection among two or more successes raises exactly when none of them is eligible. */
  lemma {:induction false} SelectionRaisesWhenNoneEligible(expected: set<string>, results: seq<CandidateResult>)
    requires GoodIds(results) && |Successful(results)| >= 2
    ensures var outcome := SelectCandidateResult(expected, results);
      && !outcome.NoWinner?
      && (outcome.SelectionRaised? <==>
            forall r :: r in results && r.success ==> !Eligible(WinnerInputOf(expected, r)))
  {
    var successful := Successful(results);
    EligibleInputs(expected, results);
    SelectWinnerMeetsReference(Inputs(expected, successful));
    RankedSelectionRaises(successful, Inputs(expected, successful), Selection("", Ids(successful), false, [], "deterministic_rank"));
  }

  lemma RankedSelectionRaises(successful: seq<CandidateResult>, inputs: seq<WinnerInput>, empty: Selection)
    requires successful != []
    ensures !RankedSelection(successful, inputs, empty).NoWinner?
    ensures RankedSelection(successful, inputs, empty).SelectionRaised? <==> SelectWinner(inputs).Err?
  {
  }

  /** With two or more successes the chosen one is top ranked and the earliest such, and the tied ids
      are exactly the ids of the top-ranked results. */
  lemma {:induction false} DeterministicWinner(expected: set<string>, results: seq<CandidateResult>)
    requires GoodIds(results) && |Successful(results)| >= 2
    requires SelectCandidateResult(expected, results).Chosen?
    ensures var outcome := SelectCandidateResult(expected, results);
      && TopRanked(expected, results, outcome.result)
      && outcome.selection.winnerCandidateId == outcome.result.candidateId
      && (exists i :: EarliestAt(expected, Successful(results), outcome.result, i))
      && (forall r :: r in results && r.success ==>
            (r.candidateId in outcome.selection.tiedCandidateIds <==> TopRanked(expected, results, r)))
  {
    var successful := Successful(results);
    var inputs := Inputs(expected, successful);
    var outcome := SelectCandidateResult(expected, results);
    var i := ChosenPosition(expected, results);
    TopRankedIsTop(expected, results, i);
    assert EarliestAt(expected, successful, outcome.result, i);
    forall r | r in results && r.success
      ensures r.candidateId in outcome.selection.tiedCandidateIds <==> TopRanked(expected, results, r)
    {
      TiedExactlyWhenTopRanked(expected, results, i, r);
    }
  }

  lemma {:induction false} TiedExactlyWhenTopRanked(expected: set<string>, results: seq<CandidateResult>, i: nat, r: CandidateResult)
    requires GoodIds(results) && r in results && r.success
    requires IsTop(Inputs(expected, Successful(results)), i)
    ensures var inputs := Inputs(expected, Successful(results));
      r.candidateId in StableSort(TiedIds(inputs, inputs[i]), Codes) <==> TopRanked(expected, results, r)
  {
    var successful := Successful(results);
    SuccessfulKeepsGoodIds(results);
    var k :| 0 <= k < |successful| && successful[k] == r;
    SortedTiedIdsAreTop(Inputs(expected, successful), i, k);
    TopRankedIsTop(expected, results, k);
  }

  lemma {:induction false} SortedTiedIdsAreTop(inputs: seq<WinnerInput>, i: nat, k: nat)
    requires IsTop(inputs, i) && k < |inputs|
    requires forall a, b :: 0 <= a < b < |inputs| ==> inputs[a].candidateId != inputs[b].candidateId
    ensures inputs[k].candidateId in StableSort(TiedIds(inputs, inputs[i]), Codes) <==> IsTop(inputs, k)
  {
    SortIsStable(TiedIds(inputs, inputs[i]), Codes);
    TiedIdsAreTop(inputs, i, k);
  }

  ghost predicate Ascending(ids: seq<string>) {
    forall i, j :: 0 <= i < j < |ids| ==> !Precedes(ids[j], ids[i])
  }

  lemma SortedAscend(ids: seq<string>)
    ensures Ascending(StableSort(ids, Codes))
  {
    SortIsStable(ids, Codes);
    var sorted := StableSort(ids, Codes);
    forall i, j | 0 <= i < j < |sorted| ensures !Precedes(sorted[j], sorted[i]) {
      assert AtMost(Codes(sorted[i]), Codes(sorted[j]));
      CodesCompare(sorted[j], sorted[i]);
    }
  }

  lemma ExactTiesAscend(inputs: seq<WinnerInput>, winnerId: string)
    ensures Ascending(ExactTieCandidateIds(inputs, winnerId))
  {
    match FindInput(inputs, winnerId)
    case Some(winner) => SortedAscend(TiedIds(inputs, winner));
    case None =>
  }

  /** The tied ids are listed in ascending order. */
  lemma TiedIdsAscend(expected: set<string>, results: seq<CandidateResult>)
    requires SelectCandidateResult(expected, results).Chosen?
    ensures Ascending(SelectCandidateResult(expected, results).selection.tiedCandidateIds)
  {
    var successful := Successful(results);
    if |successful| >= 2 && SelectWinner(Inputs(expected, successful)).Ok? {
      ExactTiesAscend(Inputs(expected, successful), SelectWinner(Inputs(expected, successful)).value);
    }
  }

  lemma {:induction false} LookupMembers(results: seq<CandidateResult>, ids: seq<string>)
    ensures forall r :: r in Lookup(results, ids) ==> r in results && r.candidateId in ids
    ensures (forall k :: 0 <= k < |ids| ==> FindById(results, ids[k]).Some?) ==> |Lookup(results, ids)| == |ids|
    ensures forall k :: 0 <= k < |ids| && FindById(results, ids[k]).Some? ==>
      FindById(results, ids[k]).value in Lookup(results, ids)
  {
    if ids != [] {
      LookupMembers(results, ids[1..]);
      FindByIdMember(results, ids[0]);
    }
  }

  lemma {:induction false} StripAllClean(ids: seq<string>)
    requires forall k :: 0 <= k < |ids| ==> ids[k] != "" && Text.Trimmed(ids[k])
    ensures StripAll(ids) == ids
  {
    if ids != [] {
      Text.StripIsTrimmed(ids[0]);
      StripAllClean(ids[1..]);
    }
  }

  lemma {:induction false} TiedIdDenotesResult(expected: set<string>, results: seq<CandidateResult>, id: string)
    requires GoodIds(results) && |Successful(results)| >= 2
    requires SelectCandidateResult(expected, results).Chosen?
    requires id in SelectCandidateResult(expected, results).selection.tiedCandidateIds
    ensures id != "" && Text.Trimmed(id) && FindById(Successful(results), id).Some?
  {
    var successful := Successful(results);
    var inputs := Inputs(expected, successful);
    SuccessfulKeepsGoodIds(results);
    var i := ChosenPosition(expected, results);
    SortIsStable(TiedIds(inputs, inputs[i]), Codes);
    TiedIdsMembers(inputs, inputs[i]);
    var m :| 0 <= m < |inputs| && inputs[m].candidateId == id;
    FindByIdAt(successful, m);
  }

  /** The tied ids all denote successful results, so resolving a detected tie always reaches the judge. */
  lemma {:induction false} TieReachesJudge(expected: set<string>, results: seq<CandidateResult>)
    requires GoodIds(results) && |Successful(results)| >= 2
    requires SelectCandidateResult(expected, results).Chosen?
    requires SelectCandidateResult(expected, results).selection.exactTieDetected
    ensures var outcome := SelectCandidateResult(expected, results);
      var ids := outcome.selection.tiedCandidateIds;
      var tied := Lookup(Successful(results), ids);
      && StripAll(ids) == ids
      && |tied| == |ids| >= 2
      && (forall r :: r in tied ==> TopRanked(expected, results, r))
      && outcome.result in tied
  {
    var successful := Successful(results);
    var outcome := SelectCandidateResult(expected, results);
    var ids := outcome.selection.tiedCandidateIds;
    var i := ChosenPosition(expected, results);
    forall k | 0 <= k < |ids|
      ensures ids[k] != "" && Text.Trimmed(ids[k]) && FindById(successful, ids[k]).Some?
    {
      TiedIdDenotesResult(expected, results, ids[k]);
    }
    StripAllClean(ids);
    LookupMembers(successful, ids);
    DeterministicWinner(expected, results);
    SuccessfulKeepsGoodIds(results);
    var k :| 0 <= k < |ids| && ids[k] == outcome.result.candidateId;
    FindByIdAt(successful, i);
  }

  /** Whatever the judge does, the final winner is successful, eligible and of least rank among the
      eligible, and the tie-break artifact exists exactly when a tie was detected. */
  lemma {:induction false} FinalWinnerIsTopRanked(expected: set<string>, results: seq<CandidateResult>, reply: JudgeReply)
    requires GoodIds(results) && |Successful(results)| >= 2
    requires SelectCandidateResult(expected, results).Chosen?
    ensures var final := FinalWinner(expected, results, reply);
      && final.Ok?
      && TopRanked(expected, results, final.value.result)
      && final.value.selection.winnerCandidateId == final.value.result.candidateId
      && final.value.selection.exactTieDetected == SelectCandidateResult(expected, results).selection.exactTieDetected
      && (final.value.artifact.Some? <==> final.value.selection.exactTieDetected)
  {
    DeterministicWinner(expected, results);
    var outcome := SelectCandidateResult(expected, results);
    if outcome.selection.exactTieDetected {
      TieReachesJudge(expected, results);
      ResolvedTieIsTied(results, outcome.result, outcome.selection, reply);
      FinalOfTie(expected, results, reply);
    }
  }

  /** Whatever the judge says, a resolved tie goes to one of the tied results. */
  lemma ResolvedTieIsTied(results: seq<CandidateResult>, winner: CandidateResult, selection: Selection, reply: JudgeReply)
    requires StripAll(selection.tiedCandidateIds) == selection.tiedCandidateIds
    requires |Lookup(Successful(results), selection.tiedCandidateIds)| == |selection.tiedCandidateIds| >= 2
    requires winner in Lookup(Successful(results), selection.tiedCandidateIds)
    ensures var final := ResolveExactTie(results, winner, selection, reply);
      && final.result in Lookup(Successful(results), selection.tiedCandidateIds)
      && final.selection.winnerCandidateId == final.result.candidateId
      && final.selection.exactTieDetected == selection.exactTieDetected
      && final.artifact.Some?
  {
    var tied := Lookup(Successful(results), selection.tiedCandidateIds);
    FindByIdMember(tied, winner.candidateId);
    FindByIdMember(tied, ResolveExactTie(results, winner, selection, reply).selection.winnerCandidateId);
  }

  /** The judge decides only between top-ranked candidates, and its choice stands exactly when it names
      one of them and its explanation can be read. */
  lemma {:induction false} JudgeChoiceStands(expected: set<string>, results: seq<CandidateResult>, reply: JudgeReply)
    requires GoodIds(results) && |Successful(results)| >= 2
    requires SelectCandidateResult(expected, results).Chosen?
    requires SelectCandidateResult(expected, results).selection.exactTieDetected
    ensures var chosen := SelectCandidateResult(expected, results);
      var final := FinalWinner(expected, results, reply).value;
      if reply.Verdict? && reply.explanationIterable
         && Text.Strip(reply.winnerCandidateId) in chosen.selection.tiedCandidateIds
      then
        && final.result.candidateId == Text.Strip(reply.winnerCandidateId)
        && final.selection.selectionBasis == "exact_tie_claude_judge"
      else
        && final.result.candidateId == chosen.result.candidateId
        && final.selection.selectionBasis == "exact_tie_deterministic_fallback"
  {
    FinalWinnerIsTopRanked(expected, results, reply);
    TieReachesJudge(expected, results);
    var chosen := SelectCandidateResult(expected, results);
    var tied := Lookup(Successful(results), chosen.selection.tiedCandidateIds);
    if reply.Verdict? {
      var id := Text.Strip(reply.winnerCandidateId);
      FindByIdMember(tied, id);
      LookupMembers(Successful(results), chosen.selection.tiedCandidateIds);
      if id in chosen.selection.tiedCandidateIds {
        LookupHas(Successful(results), chosen.selection.tiedCandidateIds, id);
      }
    }
  }

  /** A tie leaves an artifact with the tied ids, the deterministic winner and the basis of the selection,
      and the selection names the final winner; without a tie there is neither artifact nor basis. */
  lemma TieLeavesArtifact(expected: set<string>, results: seq<CandidateResult>, reply: JudgeReply)
    requires GoodIds(results) && SelectCandidateResult(expected, results).Chosen?
    ensures var chosen := SelectCandidateResult(expected, results);
      var final := FinalWinner(expected, results, reply).value;
      && (final.artifact.Some? <==> chosen.selection.exactTieDetected)
      && (final.artifact.None? ==> final.result == chosen.result && final.selection == chosen.selection)
      && (final.artifact.Some? ==>
            && final.artifact.value.tiedCandidateIds == chosen.selection.tiedCandidateIds
            && final.artifact.value.fallbackWinnerCandidateId == chosen.result.candidateId
            && final.artifact.value.selectionBasis == final.selection.selectionBasis
            && final.selection.winnerCandidateId == final.result.candidateId)
  {
    if SelectCandidateResult(expected, results).selection.exactTieDetected {
      TieReachesJudge(expected, results);
      FinalWinnerIsTopRanked(expected, results, reply);
    }
  }

  lemma LookupHas(results: seq<CandidateResult>, ids: seq<string>, id: string)
    requires id in ids && |Lookup(results, ids)| == |ids|
    ensures FindById(Lookup(results, ids), id).Some?
    decreases |ids|
  {
    LookupShort(results, ids);
    LookupMembers(results, ids);
    var k :| 0 <= k < |ids| && ids[k] == id;
    FindByIdMember(results, id);
    FindByIdMember(Lookup(results, ids), id);
  }

  lemma {:induction false} LookupShort(results: seq<CandidateResult>, ids: seq<string>)
    ensures |Lookup(results, ids)| <= |ids|
    ensures |Lookup(results, ids)| == |ids| ==> forall k :: 0 <= k < |ids| ==> FindById(results, ids[k]).Some?
  {
    if ids != [] {
      LookupShort(results, ids[1..]);
    }
  }

  /** The artifact can name a candidate that did not win: exactly when the judge named another tied
      candidate but its explanation could not be iterated. */
  lemma {:induction false} TieBreakArtifactNamesWinner(expected: set<string>, results: seq<CandidateResult>, reply: JudgeReply)
    requires GoodIds(results) && |Successful(results)| >= 2
    requires SelectCandidateResult(expected, results).Chosen?
    requires SelectCandidateResult(expected, results).selection.exactTieDetected
    ensures var chosen := SelectCandidateResult(expected, results);
      var final := FinalWinner(expected, results, reply).value;
      && final.artifact.Some?
      && (final.artifact.value.winnerCandidateId != final.result.candidateId <==>
            && reply.Verdict? && !reply.explanationIterable
            && Text.Strip(reply.winnerCandidateId) in chosen.selection.tiedCandidateIds
            && Text.Strip(reply.winnerCandidateId) != chosen.result.candidateId)
  {
    var chosen := SelectCandidateResult(expected, results);
    TieReachesJudge(expected, results);
    FinalWinnerIsTopRanked(expected, results, reply);
    ArtifactMismatchExactlyWhen(results, chosen.result, chosen.selection, reply);
    FinalOfTie(expected, results, reply);
  }

  lemma FinalOfTie(expected: set<string>, results: seq<CandidateResult>, reply: JudgeReply)
    requires SelectCandidateResult(expected, results).Chosen?
    requires SelectCandidateResult(expected, results).selection.exactTieDetected
    ensures var chosen := SelectCandidateResult(expected, results);
      FinalWinner(expected, results, reply) == Ok(ResolveExactTie(results, chosen.result, chosen.selection, reply))
  {
  }

  lemma {:induction false} ArtifactMismatchExactlyWhen(
    results: seq<CandidateResult>, winner: CandidateResult, selection: Selection, reply: JudgeReply)
    requires StripAll(selection.tiedCandidateIds) == selection.tiedCandidateIds
    requires |Lookup(Successful(results), selection.tiedCandidateIds)| == |selection.tiedCandidateIds| >= 2
    ensures var final := ResolveExactTie(results, winner, selection, reply);
      && final.artifact.Some?
      && (final.artifact.value.winnerCandidateId != final.selection.winnerCandidateId <==>
            && reply.Verdict? && !reply.explanationIterable
            && Text.Strip(reply.winnerCandidateId) in selection.tiedCandidateIds
            && Text.Strip(reply.winnerCandidateId) != winner.candidateId)
  {
    if reply.Verdict? {
      KnownExactlyWhenTied(Successful(results), selection.tiedCandidateIds, Text.Strip(reply.winnerCandidateId));
    }
  }

  lemma KnownExactlyWhenTied(results: seq<CandidateResult>, ids: seq<string>, id: string)
    requires |Lookup(results, ids)| == |ids|
    ensures FindById(Lookup(results, ids), id).Some? <==> id in ids
  {
    if id in ids {
      LookupHas(results, ids, id);
    }
    LookupMembers(results, ids);
    FindByIdMember(Lookup(results, ids), id);
  }

  /** The single-success shortcut takes the result as it is. */
  lemma SingleSuccessWins(expected: set<string>, results: seq<CandidateResult>, reply: JudgeReply)
    requires |Successful(results)| == 1
    ensures var final := FinalWinner(expected, results, reply);
      && final.Ok? && final.value.artifact.None?
      && final.value.result == Successful(results)[0]
  {
  }

  /** However it is chosen, the final winner is one of the successful results, and a detected tie always
      leaves a tie-break artifact. */
  lemma FinalWinnerIsSuccessful(expected: set<string>, results: seq<CandidateResult>, reply: JudgeReply)
    requires GoodIds(results) && FinalWinner(expected, results, reply).Ok?
    ensures var final := FinalWinner(expected, results, reply).value;
      && final.result in results && final.result.success
      && final.selection.winnerCandidateId == final.result.candidateId
      && (final.artifact.Some? <==> final.selection.exactTieDetected)
      && (|Successful(results)| >= 2 ==> TopRanked(expected, results, final.result))
  {
    if |Successful(results)| == 1 {
      SuccessfulKeepsGoodIds(results);
      SingleSuccessWins(expected, results, reply);
      assert Successful(results)[0] in Successful(results);
    } else {
      FinalWinnerIsTopRanked(expected, results, reply);
    }
  }

  /** A winner exists unless nothing succeeded, or two or more succeeded and none of them is eligible. */
  lemma {:induction false} WinnerExistsExactlyWhen(expected: set<string>, results: seq<CandidateResult>, reply: JudgeReply)
    requires GoodIds(results)
    ensures FinalWinner(expected, results, reply).Ok? <==>
      && (exists r :: r in results && r.success)
      && (|Successful(results)| >= 2 ==>
            exists r :: r in results && r.success && Eligible(WinnerInputOf(expected, r)))
  {
    SuccessfulKeepsGoodIds(results);
    if |Successful(results)| >= 2 {
      SelectionRaisesWhenNoneEligible(expected, results);
      assert Successful(results)[0] in Successful(results);
    } else if |Successful(results)| == 1 {
      assert Successful(results)[0] in Successful(results);
    }
  }

  /** The same result under two ids. */
  function Twins(r: CandidateResult): seq<CandidateResult> {
    [r.(candidateId := "a"), r.(candidateId := "b")]
  }

  lemma TwinsSucceed(r: CandidateResult)
    requires r.success
    ensures Successful(Twins(r)) == Twins(r) && GoodIds(Twins(r))
  {
    var twins := Twins(r);
    assert twins[1..] == [twins[1]] && [twins[1]][1..] == [];
    assert Filter([twins[1]], IsSuccess) == [twins[1]] + Filter([], IsSuccess);
    assert "a"[0] != "b"[0];
  }

  lemma RenamingKeepsRank(expected: set<string>, r: CandidateResult, id: string)
    ensures RankTuple(WinnerInputOf(expected, r.(candidateId := id))) == RankTuple(WinnerInputOf(expected, r))
    ensures Eligible(WinnerInputOf(expected, r.(candidateId := id))) == Eligible(WinnerInputOf(expected, r))
  {
  }

  lemma RankIsNotLessThanItself(rank: Rank)
    ensures !RankLess(rank, rank)
  {
    LexIrreflexive(rank.severity);
    LexIrreflexive(rank.rest);
  }

  lemma TwinsAreTopRanked(expected: set<string>, r: CandidateResult, k: nat)
    requires r.success && Eligible(WinnerInputOf(expected, r)) && k < 2
    ensures TopRanked(expected, Twins(r), Twins(r)[k])
  {
    RenamingKeepsRank(expected, r, "a");
    RenamingKeepsRank(expected, r, "b");
    RankIsNotLessThanItself(RankTuple(WinnerInputOf(expected, r)));
  }

  lemma TwinsTie(expected: set<string>, r: CandidateResult)
    requires r.success && Eligible(WinnerInputOf(expected, r))
    ensures var outcome := SelectCandidateResult(expected, Twins(r));
      && outcome.Chosen? && outcome.result == Twins(r)[0]
      && outcome.selection.exactTieDetected && "b" in outcome.selection.tiedCandidateIds
  {
    var twins := Twins(r);
    TwinsSucceed(r);
    TwinsAreTopRanked(expected, r, 0);
    TwinsAreTopRanked(expected, r, 1);
    SelectionRaisesWhenNoneEligible(expected, twins);
    assert twins[0] in twins && Eligible(WinnerInputOf(expected, twins[0]));
    DeterministicWinner(expected, twins);
    var outcome := SelectCandidateResult(expected, twins);
    assert twins[1] in twins;
    var i :| EarliestAt(expected, Successful(twins), outcome.result, i);
    assert SameRank(expected, twins[0], twins[1]);
    var k := ChosenPosition(expected, twins);
    TwoMembers(outcome.selection.tiedCandidateIds, "a", "b");
  }

  lemma TwoMembers(s: seq<string>, x: string, y: string)
    requires x in s && y in s && x != y
    ensures |s| > 1
  {
  }

  /** The wrong name really occurs: two equal eligible results, and a judge that names the second one with an
      explanation that cannot be iterated. The first one wins, the artifact names the second. */
  lemma TieBreakArtifactCanBeWrong(expected: set<string>, r: CandidateResult)
    requires r.success && Eligible(WinnerInputOf(expected, r))
    ensures var final := FinalWinner(expected, Twins(r), Verdict("b", false));
      && final.Ok? && final.value.result.candidateId == "a"
      && final.value.artifact.Some? && final.value.artifact.value.winnerCandidateId == "b"
  {
    var reply := Verdict("b", false);
    TwinsSucceed(r);
    TwinsTie(expected, r);
    Text.StripIsTrimmed("b");
    assert "a"[0] != "b"[0];
    TieBreakArtifactNamesWinner(expected, Twins(r), reply);
    JudgeChoiceStands(expected, Twins(r), reply);
    RecordedNames(expected, Twins(r), reply);
  }

  /** The artifact names either the deterministic winner or what the judge said. */
  lemma RecordedNames(expected: set<string>, results: seq<CandidateResult>, reply: JudgeReply)
    requires FinalWinner(expected, results, reply).Ok?
    ensures var final := FinalWinner(expected, results, reply).value;
      final.artifact.Some? ==>
        || final.artifact.value.winnerCandidateId == SelectCandidateResult(expected, results).result.candidateId
        || (reply.Verdict? && final.artifact.value.winnerCandidateId == Text.Strip(reply.winnerCandidateId))
  {
  }
}
