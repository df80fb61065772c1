/** One attempt of app/pipeline.py: execute every candidate, select the winner, promote it, prove the artifacts. */
module AttemptRun {
  import opened Basics
  import opened CandidateResults
  import opened CandidatePolicy
  import opened CandidateSelection
  import opened CandidateExecution
  import opened CandidatePreference
  import Identifiers
  import Text

  datatype AttemptFile =
    | AttemptManifest | ScopeContract | CandidateDecision | WinnerSelection | FinalAttemptSummary | WinnerTieBreakJudge

  const RequiredAttemptFiles: set<AttemptFile> :=
    {AttemptManifest, ScopeContract, CandidateDecision, WinnerSelection, FinalAttemptSummary}

  const RequiredViews: set<File> := {
    RunnerMetadata, ImplementationResult, ChangedFiles, ScopeAnalysisFile, RepairFeedback, CommandResultsFile,
    VerificationResult, Verification, ReviewResult, ReviewDecision, ReviewFindings, PostableFindings
  }

  datatype Conclusion =
    | NothingSucceeded
    | RaisedNoEligible
    | Promoted(winner: CandidateResult, selection: Selection, attemptProofComplete: bool)

  /** What execution guarantees of a successful result. */
  predicate Sound(r: CandidateResult) {
    r.success ==>
      && r.proofComplete && !HasFailedHardCheck(r.commandResults)
      && r.scope.mustNotTouchViolations == [] && r.scope.protectedConfigViolations == []
  }

  /** What an execution leaves behind for the attempt: a successful candidate's directory is complete, at most one
      rollover happened, the handoffs directory is that of so many handoffs, and no high-risk command was run. */
  ghost predicate Executed(run: CandidateRun, r: CandidateResult, highRisk: string -> bool)
    reads run
  {
    && run.candidateId == r.candidateId
    && Sound(r) && (r.success ==> run.Complete())
    && run.codexRuns <= 2 && run.handoffs <= 1 && run.Cycles() <= 1
    && run.bundles == Identifiers.HandoffNames(run.handoffs)
    && (forall i :: 0 <= i < |run.commands| ==> !highRisk(run.commands[i]))
  }

  lemma FirstBundle(run: CandidateRun)
    requires run.handoffs <= 1
    requires run.bundles == if run.handoffs == 0 then [] else Identifiers.OneMoreBundle([])
    ensures run.bundles == Identifiers.HandoffNames(run.handoffs)
  {
    assert Identifiers.HandoffNames(0) == [];
    assert Identifiers.HandoffNames(1) == Identifiers.OneMoreBundle(Identifiers.HandoffNames(0));
  }

  /** The handoffs directory of an execution holds one file per handoff, at most one, and always under the first
      name: no bundle is ever overwritten. */
  lemma HandoffsOfExecutionsAreFresh(run: CandidateRun, r: CandidateResult, highRisk: string -> bool)
    requires Executed(run, r, highRisk)
    ensures |run.bundles| == run.handoffs <= 1
    ensures run.bundles == if run.handoffs == 0 then [] else ["handoff-001"]
  {
    Identifiers.FirstHandoffIsFresh(run.handoffs);
  }

  /** Nothing succeeded, or two or more did and each of them touched a protected path. */
  predicate NonePromotable(results: seq<CandidateResult>) {
    forall r :: r in results && r.success ==> |Successful(results)| >= 2 && r.review.protectedPathTouches != []
  }

  /** Whether the winner is eligible: the shortcut for a single success lets one through that touched a
      protected path, and nothing else does. */
  lemma {:induction false} WinnerIsEligibleExactlyWhen(expected: set<string>, results: seq<CandidateResult>, reply: JudgeReply)
    requires GoodIds(results) && forall r :: r in results ==> Sound(r)
    requires FinalWinner(expected, results, reply).Ok?
    ensures Successful(results) != []
    ensures Eligible(WinnerInputOf(expected, FinalWinner(expected, results, reply).value.result)) <==>
      |Successful(results)| >= 2 || Successful(results)[0].review.protectedPathTouches == []
  {
    FinalWinnerIsSuccessful(expected, results, reply);
    SuccessfulKeepsGoodIds(results);
    assert FinalWinner(expected, results, reply).value.result in Successful(results);
    if |Successful(results)| == 1 {
      SingleSuccessWins(expected, results, reply);
      assert Sound(Successful(results)[0]);
    }
  }

  /** Among two or more successes the winner is preferred, in the fields of the results. */
  lemma WinnerIsPreferred(expected: set<string>, results: seq<CandidateResult>, reply: JudgeReply)
    requires GoodIds(results) && FinalWinner(expected, results, reply).Ok?
    ensures |Successful(results)| >= 2 ==>
      Preferred(expected, results, FinalWinner(expected, results, reply).value.result)
  {
    if |Successful(results)| >= 2 {
      FinalWinnerIsPreferred(expected, results, reply);
    }
  }

  /** A successful result that the selection names; eligible unless it was the only success and touched a protected
      path; and among two or more successes top ranked and preferred. */
  ghost predicate WinsRightly(
    expected: set<string>, results: seq<CandidateResult>, winner: CandidateResult, selection: Selection)
  {
    && winner in results && winner.success && selection.winnerCandidateId == winner.candidateId
    && Successful(results) != []
    && (Eligible(WinnerInputOf(expected, winner)) <==>
        |Successful(results)| >= 2 || Successful(results)[0].review.protectedPathTouches == [])
    && (|Successful(results)| >= 2 ==>
        TopRanked(expected, results, winner) && Preferred(expected, results, winner))
  }

  lemma FinalWinnerWinsRightly(expected: set<string>, results: seq<CandidateResult>, reply: JudgeReply)
    requires GoodIds(results) && FinalWinner(expected, results, reply).Ok?
    requires forall r :: r in results ==> Sound(r)
    ensures var final := FinalWinner(expected, results, reply).value;
      WinsRightly(expected, results, final.result, final.selection)
  {
    FinalWinnerIsSuccessful(expected, results, reply);
    WinnerIsEligibleExactlyWhen(expected, results, reply);
    WinnerIsPreferred(expected, results, reply);
  }

  /** A pass through all gates in which the review names a protected path. */
  function TouchingPass(path: string): Pass {
    CandidateExecution.Pass.Pass(0, true, [], _ => Completed(0, false, false), [path], ScopeAnalysis([], [], None), [],
         _ => Completed(0, false, false), "success", "", ReviewReport([], [], [path], []), "approve", 0)
  }

  lemma TouchingPassIsClean(path: string, entry: seq<Check>, highRisk: string -> bool)
    requires NoneHighRisk(entry, highRisk)
    ensures PassesAllGates(TouchingPass(path), entry, highRisk) && !RollsOver(TouchingPass(path), entry, highRisk)
  {
    assert "approve"[0] != "repairable"[0] && "approve"[0] != "reject"[0];
    assert RepairResultsOf([], TouchingPass(path).repairOutcome) == [];
  }

  lemma OneSuccess(r: CandidateResult)
    requires r.success
    ensures Successful([r]) == [r]
  {
    assert [r][1..] == [] && Filter([r][1..], IsSuccess) == [];
  }

  /** An ineligible candidate can win: the execution below passes every gate and succeeds, its review names a
      protected path, and with no other success it is the final winner for every judge. */
  method RunIneligibleWinner(
    path: string, workflow: seq<Check>, highRisk: string -> bool, expected: set<string>, reply: JudgeReply)
    returns (r: CandidateResult, final: Result<Resolution, SelectionOutcome>)
    requires NoneHighRisk(workflow, highRisk)
    ensures r.success && !Eligible(WinnerInputOf(expected, r))
    ensures final == FinalWinner(expected, [r], reply) && final.Ok? && final.value.result == r
  {
    var run := new CandidateRun("primary");
    TouchingPassIsClean(path, workflow, highRisk);
    r := run.ExecuteCandidate(_ => TouchingPass(path), highRisk, workflow, false);
    OneSuccess(r);
    SingleSuccessWins(expected, [r], reply);
    final := FinalWinner(expected, [r], reply);
  }

  lemma {:induction false} NoWinnerExactlyWhen(expected: set<string>, results: seq<CandidateResult>, reply: JudgeReply)
    requires GoodIds(results) && forall r :: r in results ==> Sound(r)
    ensures FinalWinner(expected, results, reply).Err? <==> NonePromotable(results)
  {
    WinnerExistsExactlyWhen(expected, results, reply);
    forall r | r in results && r.success
      ensures Eligible(WinnerInputOf(expected, r)) <==> r.review.protectedPathTouches == []
    {
      assert Sound(r);
    }
  }

  lemma ExecutedAreSound(results: seq<CandidateResult>, runs: seq<CandidateRun>, highRisk: string -> bool)
    requires |runs| == |results| && forall i :: 0 <= i < |runs| ==> Executed(runs[i], results[i], highRisk)
    ensures forall r :: r in results ==> Sound(r)
  {
    forall r | r in results ensures Sound(r) {
      var i :| 0 <= i < |results| && results[i] == r;
      assert Executed(runs[i], results[i], highRisk);
    }
  }

  /** The run of one candidate: executed, and successful exactly when its passes go through every gate. */
  ghost predicate IsOutcome(
    run: CandidateRun, r: CandidateResult, passes: nat -> Pass, highRisk: string -> bool, workflow: seq<Check>)
    reads run
  {
    Executed(run, r, highRisk) && (r.success <==> Succeeds(passes, workflow, highRisk))
  }

  class Attempt {
    var files: set<AttemptFile>
    /** The issue's canonical views; earlier attempts may have left some. */
    var views: set<File>
    /** `exact_tie_detected` as recorded in winner_selection.json. */
    var tieRecorded: bool

    constructor (views: set<File>)
      ensures files == {} && this.views == views && !tieRecorded
    {
      files, this.views, tieRecorded := {}, views, false;
    }

    /** One candidate in its own directory. */
    static method ExecuteInDirectory(id: string, passes: nat -> Pass, highRisk: string -> bool, workflow: seq<Check>)
      returns (run: CandidateRun, r: CandidateResult)
      ensures fresh(run) && r.candidateId == id && IsOutcome(run, r, passes, highRisk, workflow)
    {
      run := new CandidateRun(id);
      r := run.ExecuteCandidate(passes, highRisk, workflow, false);
      FirstBundle(run);
    }

    /** `_execute_candidates`: one result per id, in the order of the ids. */
    method ExecuteCandidates(
      ids: seq<string>, passesOf: string -> (nat -> Pass), highRisk: string -> bool, workflow: seq<Check>)
      returns (results: seq<CandidateResult>, runs: seq<CandidateRun>)
      ensures |results| == |runs| == |ids|
      ensures forall i :: 0 <= i < |ids| ==> results[i].candidateId == ids[i]
      ensures forall i :: 0 <= i < |ids| ==> fresh(runs[i]) && Executed(runs[i], results[i], highRisk)
      ensures forall i :: 0 <= i < |ids| ==> (results[i].success <==> Succeeds(passesOf(ids[i]), workflow, highRisk))
    {
      results, runs := [], [];
      for n := 0 to |ids|
        invariant |results| == |runs| == n
        invariant forall i :: 0 <= i < n ==> results[i].candidateId == ids[i]
        invariant forall i :: 0 <= i < n ==>
          fresh(runs[i]) && IsOutcome(runs[i], results[i], passesOf(ids[i]), highRisk, workflow)
      {
        var run, r := ExecuteInDirectory(ids[n], passesOf(ids[n]), highRisk, workflow);
        results, runs := results + [r], runs + [run];
      }
    }

    /** `promote_candidate_to_views` copies every json artifact of the candidate. */
    method PromoteToViews(run: CandidateRun)
      modifies this`views
      ensures views == old(views) + (run.files - {RepairFeedbackLines})
    {
      views := views + (run.files - {RepairFeedbackLines});
    }

    /** `_evaluate_attempt_proof` for the candidate whose directory is `run`. */
    method EvaluateAttemptProof(run: CandidateRun) returns (complete: bool)
      ensures complete <==>
        && RequiredAttemptFiles <= files
        && (tieRecorded ==> WinnerTieBreakJudge in files)
        && run.proof == Some(true)
        && RequiredViews <= views
    {
      complete := RequiredAttemptFiles <= files
        && !(tieRecorded && WinnerTieBreakJudge !in files)
        && run.proof == Some(true)
        && RequiredViews <= views;
    }

    /** Selection, promotion and the attempt proof, over executed candidates. */
    method Conclude(
      expected: set<string>, results: seq<CandidateResult>, runs: seq<CandidateRun>, reply: JudgeReply,
      ghost highRisk: string -> bool)
      returns (c: Conclusion)
      requires GoodIds(results) && |runs| == |results|
      requires forall i :: 0 <= i < |runs| ==> Executed(runs[i], results[i], highRisk)
      requires {AttemptManifest, ScopeContract, CandidateDecision} <= files
      modifies this
      ensures match FinalWinner(expected, results, reply)
        case Ok(final) => c.Promoted? && c.winner == final.result && c.selection == final.selection
        case Err(_) => !c.Promoted?
      ensures c.Promoted? ==> c.attemptProofComplete
      ensures !c.Promoted? ==> views == old(views)
    {
      var chosen := FinalWinner(expected, results, reply);
      if chosen.Err? {
        if chosen.error == SelectionRaised {
          c := RaisedNoEligible;
        } else {
          files := files + {WinnerSelection};
          c := NothingSucceeded;
        }
        return;
      }
      var final := chosen.value;
      FinalWinnerIsSuccessful(expected, results, reply);
      var k :| 0 <= k < |results| && results[k] == final.result;
      var complete := Promote(final, runs[k], highRisk);
      c := Promoted(final.result, final.selection, complete);
    }

    /** The winner's files, its views and the attempt proof; a tie that was detected has left its artifact. */
    method Promote(final: Resolution, run: CandidateRun, ghost highRisk: string -> bool) returns (complete: bool)
      requires Executed(run, final.result, highRisk) && final.result.success
      requires final.artifact.Some? <==> final.selection.exactTieDetected
      requires {AttemptManifest, ScopeContract, CandidateDecision} <= files
      modifies this
      ensures complete
    {
      if final.artifact.Some? {
        files := files + {WinnerTieBreakJudge};
      }
      files := files + {WinnerSelection, AttemptManifest};
      tieRecorded := final.selection.exactTieDetected;
      PromoteToViews(run);
      files := files + {FinalAttemptSummary};
      complete := EvaluateAttemptProof(run);
    }

    /** A whole attempt. Whenever a winner is promoted the attempt proof is complete; and if two or more
        candidates succeeded the winner is top ranked for every judge behaviour. */
    method Run(
      rawIds: seq<string>, passesOf: string -> (nat -> Pass), highRisk: string -> bool, workflow: seq<Check>,
      expected: set<string>, reply: JudgeReply)
      returns (c: Conclusion, results: seq<CandidateResult>, runs: seq<CandidateRun>)
      modifies this
      ensures 1 <= |results| <= 2 && |runs| == |results| && GoodIds(results)
      ensures forall i :: 0 <= i < |runs| ==> Executed(runs[i], results[i], highRisk)
      ensures forall i :: 0 <= i < |results| ==>
        (results[i].success <==> Succeeds(passesOf(results[i].candidateId), workflow, highRisk))
      ensures c.Promoted? ==> c.attemptProofComplete && WinsRightly(expected, results, c.winner, c.selection)
      ensures !c.Promoted? <==> NonePromotable(results)
    {
      files := files + {CandidateDecision, ScopeContract, AttemptManifest};
      var ids := ResolveCandidateIds(rawIds);
      results, runs := ExecuteCandidates(ids, passesOf, highRisk, workflow);
      c := Conclude(expected, results, runs, reply, highRisk);
      ExecutedAreSound(results, runs, highRisk);
      NoWinnerExactlyWhen(expected, results, reply);
      if c.Promoted? {
        FinalWinnerWinsRightly(expected, results, reply);
      }
    }
  }
}
