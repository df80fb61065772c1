/** What one candidate execution reports, as app/pipeline.py's CandidateExecutionResult. */
module CandidateResults {
  import opened Basics
  import opened CandidatePolicy
  import Text

  datatype CommandStatus = Pass | Fail | NotApplicable

  datatype CommandResult = CommandResult(phase: string, category: string, command: string, status: CommandStatus)

  datatype ScopeAnalysis = ScopeAnalysis(
    mustNotTouchViolations: seq<string>,
    protectedConfigViolations: seq<string>,
    unexpectedFileCount: Option<int>)

  /** Findings are given by their lower-cased severity. */
  datatype ReviewReport = ReviewReport(
    postableFindings: seq<string>,
    findings: seq<string>,
    protectedPathTouches: seq<string>,
    unnecessaryChanges: seq<string>)

  datatype CandidateResult = CandidateResult(
    candidateId: string,
    success: bool,
    failureType: string,
    changedFiles: seq<string>,
    scope: ScopeAnalysis,
    commandResults: seq<CommandResult>,
    review: ReviewReport,
    proofComplete: bool,
    missingArtifacts: seq<string>,
    durationMs: int)

  predicate IsSuccess(r: CandidateResult) {
    r.success
  }

  /** `_has_failed_hard_checks`. */
  predicate HasFailedHardCheck(results: seq<CommandResult>) {
    exists i :: 0 <= i < |results| && results[i].category == "hard" && results[i].status == Fail
  }

  function CountSeverity(findings: seq<string>, severity: string): nat {
    if findings == [] then 0 else (if findings[0] == severity then 1 else 0) + CountSeverity(findings[1..], severity)
  }

  function Unexpected(changed: seq<string>, expected: set<string>): seq<string> {
    if expected == {} then [] else Filter(changed, p => p !in expected)
  }

  /** The findings a review is judged by. */
  function ReviewedFindings(review: ReviewReport): seq<string> {
    if review.postableFindings != [] then review.postableFindings else review.findings
  }

  /** `_winner_input`: the metrics the policy ranks. */
  function WinnerInputOf(expected: set<string>, r: CandidateResult): (w: WinnerInput)
    ensures w.candidateId == r.candidateId
    ensures Eligible(w) <==>
      && !HasFailedHardCheck(r.commandResults) && r.proofComplete
      && r.scope.mustNotTouchViolations == [] && r.scope.protectedConfigViolations == []
      && r.review.protectedPathTouches == []
  {
    var changed := Text.NonBlank(r.changedFiles);
    var findings := ReviewedFindings(r.review);
    var unexpectedCount := match r.scope.unexpectedFileCount
      case Some(n) => n
      case None => |Unexpected(changed, expected)|;
    WinnerInput(
      r.candidateId,
      !HasFailedHardCheck(r.commandResults),
      Some(r.failureType),
      WithFields(0, CountSeverity(findings, "high"), CountSeverity(findings, "medium"), CountSeverity(findings, "low"),
        unexpectedCount == 0 && r.review.unnecessaryChanges == []),
      unexpectedCount,
      r.scope.mustNotTouchViolations != [] || r.scope.protectedConfigViolations != []
        || r.review.protectedPathTouches != [],
      r.proofComplete,
      r.missingArtifacts,
      |changed|,
      r.durationMs)
  }

  lemma {:induction false} CountSeverityFilters(findings: seq<string>, severity: string)
    ensures CountSeverity(findings, severity) == |Filter(findings, f => f == severity)|
  {
    if findings != [] {
      CountSeverityFilters(findings[1..], severity);
    }
  }

  /** A severity is counted once for every finding that has it. */
  lemma CountSeverityCounts(findings: seq<string>, severity: string)
    ensures CountSeverity(findings, severity) == |Where(findings, f => f == severity)|
  {
    CountSeverityFilters(findings, severity);
    FilterCounts(findings, f => f == severity);
  }

  lemma {:induction false} CountSeverityIsZero(findings: seq<string>, severity: string)
    ensures CountSeverity(findings, severity) == 0 <==> severity !in findings
  {
    if findings != [] {
      CountSeverityIsZero(findings[1..], severity);
      assert findings == [findings[0]] + findings[1..];
    }
  }

  lemma {:induction false} NonBlankSize(items: seq<string>)
    ensures |Text.NonBlank(items)| == |Where(items, f => Text.Strip(f) != "")|
  {
    NonBlankFiltersAll(items);
    FilterCounts(items, f => Text.Strip(f) != "");
  }

  lemma {:induction false} NonBlankFiltersAll(items: seq<string>)
    ensures |Text.NonBlank(items)| == |Filter(items, f => Text.Strip(f) != "")|
  {
    if items != [] {
      NonBlankFiltersAll(items[1..]);
    }
  }
}
