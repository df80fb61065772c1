/** One candidate's execution in app/pipeline.py: the gate sequence of `_execute_candidate`, the guarded
    rollover into a second pass, the command loops and the artifact proof. */
module CandidateExecution {
  import opened Basics
  import opened CandidateResults
  import Identifiers
  import Text

  /** The artifact files a candidate directory can hold. */
  datatype File =
    | RunnerMetadata | CandidateManifest | CandidateStrategy | ImplementationResult | VerificationPlan
    | EffectiveWorkflow | ChangedFiles | ScopeAnalysisFile | CommandResultsFile | RepairFeedback | RepairFeedbackLines
    | VerificationResult | VerificationSummary | Verification | ReviewSummary | ReviewFindings | ReviewResult
    | ReviewDecision | PostableFindings | RepairInstructions | LatestRepairFeedback | LatestReviewDelta
    | SessionCheckpoint | SessionHandoffBundle | ReplanReason | ProofResult

  /** `required` of `_evaluate_candidate_proof`, with repair_feedback.jsonl. */
  const RequiredFiles: set<File> := {
    CandidateManifest, CandidateStrategy, RunnerMetadata, ImplementationResult, ChangedFiles, ScopeAnalysisFile,
    RepairFeedback, CommandResultsFile, VerificationResult, Verification, ReviewResult, ReviewDecision,
    ReviewFindings, PostableFindings, RepairInstructions, LatestRepairFeedback, LatestReviewDelta,
    SessionCheckpoint, RepairFeedbackLines
  }

  datatype Check = Check(phase: string, category: string, command: string, allowNotApplicable: bool)

  /** A finished command: its exit code and which of the two marker lists its output matches. */
  datatype Completed = Completed(returncode: int, environmentMarker: bool, notApplicableMarker: bool)

  /** Everything one pass learns from the outside: the agent, the workspace, the commands, the reviewers. */
  datatype Pass = Pass(
    codexReturncode: int,
    implementationSynced: bool,
    workflow: seq<Check>,
    commandOutcome: nat -> Completed,
    changedFiles: seq<string>,
    scope: ScopeAnalysis,
    repairChecks: seq<Check>,
    repairOutcome: nat -> Completed,
    verificationStatus: string,
    verificationFailureType: string,
    review: ReviewReport,
    decision: string,
    durationMs: int)

  function StatusOf(check: Check, done: Completed): CommandStatus {
    if done.returncode == 0 then CommandStatus.Pass
    else if check.allowNotApplicable && done.notApplicableMarker then NotApplicable
    else Fail
  }

  function ResultOf(check: Check, category: string, done: Completed): CommandResult {
    CommandResult(check.phase, category, check.command, StatusOf(check, done))
  }

  /** `_classify_command_failure` says environment_blocked. */
  predicate Blocks(check: Check, done: Completed) {
    done.returncode != 0 && (check.category == "bootstrap" || done.environmentMarker)
  }

  function ResultsOf(checks: seq<Check>, outcome: nat -> Completed): (results: seq<CommandResult>)
    ensures |results| == |checks|
  {
    seq(|checks|, i requires 0 <= i < |checks| => ResultOf(checks[i], checks[i].category, outcome(i)))
  }

  function RepairResultsOf(checks: seq<Check>, outcome: nat -> Completed): (results: seq<CommandResult>)
    ensures |results| == |checks|
  {
    seq(|checks|, i requires 0 <= i < |checks| => ResultOf(checks[i], "fast-repair", outcome(i)))
  }

  function Commands(checks: seq<Check>): (commands: seq<string>)
    ensures |commands| == |checks| && forall i :: 0 <= i < |checks| ==> commands[i] == checks[i].command
  {
    seq(|checks|, i requires 0 <= i < |checks| => checks[i].command)
  }

  lemma CommandsStep(checks: seq<Check>, n: nat)
    requires n < |checks|
    ensures checks[..n + 1] == checks[..n] + [checks[n]]
    ensures Commands(checks[..n + 1]) == Commands(checks[..n]) + [checks[n].command]
  {
  }

  ghost predicate NoneHighRisk(checks: seq<Check>, highRisk: string -> bool) {
    forall i :: 0 <= i < |checks| ==> !highRisk(checks[i].command)
  }

  /** The command ended in a way that blames the environment. */
  ghost predicate BlamesEnvironment(check: Check, done: Completed) {
    done.returncode != 0 && (check.category == "bootstrap" || done.environmentMarker)
  }

  ghost predicate NoneBlocks(checks: seq<Check>, outcome: nat -> Completed) {
    forall i :: 0 <= i < |checks| ==> !BlamesEnvironment(checks[i], outcome(i))
  }

  /** A failing exit that its output does not excuse, where excuses are allowed. */
  ghost predicate CheckFails(check: Check, done: Completed) {
    done.returncode != 0 && !(check.allowNotApplicable && done.notApplicableMarker)
  }

  ghost predicate HardChecksHold(checks: seq<Check>, outcome: nat -> Completed) {
    forall i :: 0 <= i < |checks| && checks[i].category == "hard" ==> !CheckFails(checks[i], outcome(i))
  }

  ghost predicate FewFiles(changedFiles: seq<string>) {
    |Where(changedFiles, f => Text.Strip(f) != "")| <= 5
  }

  /** The hard-check gate, in exit codes, categories and markers. */
  lemma HardGateExactlyWhen(checks: seq<Check>, outcome: nat -> Completed)
    ensures HasFailedHardCheck(ResultsOf(checks, outcome)) <==> !HardChecksHold(checks, outcome)
  {
    var results := ResultsOf(checks, outcome);
    assert forall i :: 0 <= i < |checks| ==> results[i] == ResultOf(checks[i], checks[i].category, outcome(i));
    if !HardChecksHold(checks, outcome) {
      var i :| 0 <= i < |checks| && checks[i].category == "hard" && CheckFails(checks[i], outcome(i));
      assert results[i].status == Fail;
    }
  }

  /** The issues of `_build_repair_feedback`, by the tool that failed. */
  function RepairTools(results: seq<CommandResult>): seq<string> {
    if results == [] then []
    else
      (if results[0].status == Fail then [ToolOf(results[0].phase)] else [])
      + RepairTools(results[1..])
  }

  /** `_can_fast_repair_reuse`, false when there is nothing to repair. */
  predicate CanFastRepairReuse(tools: seq<string>, changedFiles: seq<string>) {
    && tools != []
    && |Text.NonBlank(changedFiles)| <= 5
    && forall i :: 0 <= i < |tools| ==> tools[i] in {"format", "lint", "typecheck", "tests"}
  }

  predicate AcceptedStatus(status: string) {
    status in {"success", "passed", "completed"}
  }

  function ToolOf(phase: string): string {
    if phase == "" then "repair" else phase
  }

  ghost predicate FailedAt(results: seq<CommandResult>, i: int, tool: string) {
    0 <= i < |results| && results[i].status == Fail && tool == ToolOf(results[i].phase)
  }

  lemma {:induction false} RepairToolsMembers(results: seq<CommandResult>, tool: string)
    ensures tool in RepairTools(results) <==> exists i :: FailedAt(results, i, tool)
  {
    if results != [] {
      RepairToolsMembers(results[1..], tool);
      var head := if results[0].status == Fail then [ToolOf(results[0].phase)] else [];
      assert RepairTools(results) == head + RepairTools(results[1..]);
      assert tool in head <==> FailedAt(results, 0, tool);
      if i :| FailedAt(results[1..], i, tool) {
        assert FailedAt(results, i + 1, tool);
      }
      if i :| FailedAt(results, i, tool) {
        if i > 0 {
          assert FailedAt(results[1..], i - 1, tool);
        }
      }
    }
  }

  ghost predicate CheckFailsAt(checks: seq<Check>, outcome: nat -> Completed, i: int) {
    0 <= i < |checks| && CheckFails(checks[i], outcome(i))
  }

  lemma FailedResultsAreFailedChecks(checks: seq<Check>, outcome: nat -> Completed, i: int, tool: string)
    ensures FailedAt(RepairResultsOf(checks, outcome), i, tool) <==>
      CheckFailsAt(checks, outcome, i) && tool == ToolOf(checks[i].phase)
  {
    if 0 <= i < |checks| {
      assert RepairResultsOf(checks, outcome)[i] == ResultOf(checks[i], "fast-repair", outcome(i));
    }
  }

  /** Fast repair, in exit codes, phases, markers and file counts: something failed, only in the four phases a repair
      may handle, and at most five files changed. */
  ghost predicate MayFastRepair(checks: seq<Check>, outcome: nat -> Completed, changedFiles: seq<string>) {
    && (exists i :: CheckFailsAt(checks, outcome, i))
    && (forall i :: CheckFailsAt(checks, outcome, i) ==> checks[i].phase in {"format", "lint", "typecheck", "tests"})
    && FewFiles(changedFiles)
  }

  lemma FastRepairExactlyWhen(checks: seq<Check>, outcome: nat -> Completed, changedFiles: seq<string>)
    ensures CanFastRepairReuse(RepairTools(RepairResultsOf(checks, outcome)), changedFiles) <==>
      MayFastRepair(checks, outcome, changedFiles)
  {
    var tools := RepairTools(RepairResultsOf(checks, outcome));
    NonBlankSize(changedFiles);
    assert |"repair"| == 6 && "repair" !in {"format", "lint", "typecheck", "tests"};
    if CanFastRepairReuse(tools, changedFiles) {
      var first := ToolIsOfFailedCheck(checks, outcome, tools[0]);
      forall i | CheckFailsAt(checks, outcome, i) ensures checks[i].phase in {"format", "lint", "typecheck", "tests"} {
        FailedCheckIsInTools(checks, outcome, i);
        var k :| 0 <= k < |tools| && tools[k] == ToolOf(checks[i].phase);
      }
    }
    if MayFastRepair(checks, outcome, changedFiles) {
      var i :| CheckFailsAt(checks, outcome, i);
      FailedCheckIsInTools(checks, outcome, i);
      forall k | 0 <= k < |tools| ensures tools[k] in {"format", "lint", "typecheck", "tests"} {
        var j := ToolIsOfFailedCheck(checks, outcome, tools[k]);
        assert checks[j].phase != "";
      }
    }
  }

  lemma FailedCheckIsInTools(checks: seq<Check>, outcome: nat -> Completed, i: int)
    requires CheckFailsAt(checks, outcome, i)
    ensures ToolOf(checks[i].phase) in RepairTools(RepairResultsOf(checks, outcome))
  {
    RepairToolsMembers(RepairResultsOf(checks, outcome), ToolOf(checks[i].phase));
    FailedResultsAreFailedChecks(checks, outcome, i, ToolOf(checks[i].phase));
  }

  lemma ToolIsOfFailedCheck(checks: seq<Check>, outcome: nat -> Completed, tool: string) returns (i: int)
    requires tool in RepairTools(RepairResultsOf(checks, outcome))
    ensures CheckFailsAt(checks, outcome, i) && tool == ToolOf(checks[i].phase)
  {
    RepairToolsMembers(RepairResultsOf(checks, outcome), tool);
    i :| FailedAt(RepairResultsOf(checks, outcome), i, tool);
    FailedResultsAreFailedChecks(checks, outcome, i, tool);
  }

  /** `scope_drift` of `_build_review_result`. */
  predicate ScopeDrift(scope: ScopeAnalysis) {
    (scope.unexpectedFileCount.Some? && scope.unexpectedFileCount.value != 0) || scope.mustNotTouchViolations != []
  }

  /** `protected_contract_ok` of `_build_review_result`. */
  predicate ProtectedContractOk(scope: ScopeAnalysis, review: ReviewReport) {
    !(scope.mustNotTouchViolations != [] || scope.protectedConfigViolations != [] || review.protectedPathTouches != [])
  }

  /** `_max_review_severity` over the counted severities. */
  function MaxSeverity(review: ReviewReport): string {
    var findings := ReviewedFindings(review);
    if CountSeverity(findings, "critical") > 0 then "critical"
    else if CountSeverity(findings, "high") > 0 then "high"
    else if CountSeverity(findings, "medium") > 0 then "medium"
    else if CountSeverity(findings, "low") > 0 then "low"
    else ""
  }

  /** `_can_minor_repair_reuse`. */
  predicate CanMinorRepairReuse(p: Pass) {
    && p.decision == "repairable" && !ScopeDrift(p.scope) && ProtectedContractOk(p.scope, p.review)
    && MaxSeverity(p.review) !in {"critical", "high"}
    && (AcceptedStatus(p.verificationStatus) || p.verificationFailureType in {"format", "lint", "typecheck"})
    && |Text.NonBlank(p.changedFiles)| <= 5
  }

  lemma SeverityIsMinorExactlyWhen(review: ReviewReport)
    ensures MaxSeverity(review) !in {"critical", "high"} <==>
      "critical" !in ReviewedFindings(review) && "high" !in ReviewedFindings(review)
  {
    CountSeverityIsZero(ReviewedFindings(review), "critical");
    CountSeverityIsZero(ReviewedFindings(review), "high");
    assert "medium" != "critical" && "medium" != "high" && "low" != "critical" && "low" != "high";
    assert |""| != |"critical"| && |""| != |"high"|;
  }

  /** A minor repair: it stayed in scope, touched nothing protected, drew no critical or high finding and changed at
      most five files. */
  ghost predicate MayMinorRepair(p: Pass) {
    && p.decision == "repairable"
    && (p.scope.unexpectedFileCount.None? || p.scope.unexpectedFileCount.value == 0)
    && p.review.protectedPathTouches == []
    && (var judged := if p.review.postableFindings != [] then p.review.postableFindings else p.review.findings;
        "critical" !in judged && "high" !in judged)
    && FewFiles(p.changedFiles)
  }

  /** Of the passes that reach review exactly those roll over for a minor repair. */
  lemma MinorRepairExactlyWhen(p: Pass, entry: seq<Check>, highRisk: string -> bool)
    requires ReachesReview(p, entry, highRisk)
    ensures CanMinorRepairReuse(p) <==> MayMinorRepair(p)
  {
    SeverityIsMinorExactlyWhen(p.review);
    NonBlankSize(p.changedFiles);
  }

  // ----- the meaning of a pass -----

  /** The gates up to and including the fast repair checks. `entry` is the workflow the pass starts with. */
  ghost predicate ReachesRepair(p: Pass, entry: seq<Check>, highRisk: string -> bool) {
    && NoneHighRisk(entry, highRisk)
    && p.codexReturncode == 0
    && NoneHighRisk(p.workflow, highRisk) && NoneBlocks(p.workflow, p.commandOutcome)
    && p.scope.mustNotTouchViolations == [] && p.scope.protectedConfigViolations == []
    && NoneHighRisk(p.repairChecks, highRisk)
  }

  ghost predicate ReachesReview(p: Pass, entry: seq<Check>, highRisk: string -> bool) {
    && ReachesRepair(p, entry, highRisk)
    && HardChecksHold(p.workflow, p.commandOutcome)
    && p.verificationStatus in {"success", "passed", "completed"}
  }

  /** All the gates a successful candidate must have passed. */
  ghost predicate PassesAllGates(p: Pass, entry: seq<Check>, highRisk: string -> bool) {
    && ReachesReview(p, entry, highRisk)
    && p.decision != "repairable" && p.decision != "reject"
  }

  ghost predicate FastRepairs(p: Pass, entry: seq<Check>, highRisk: string -> bool) {
    && ReachesRepair(p, entry, highRisk)
    && MayFastRepair(p.repairChecks, p.repairOutcome, p.changedFiles)
  }

  /** A pass without a handoff bundle that hands over to a second one. */
  ghost predicate RollsOver(p: Pass, entry: seq<Check>, highRisk: string -> bool) {
    FastRepairs(p, entry, highRisk) || (ReachesReview(p, entry, highRisk) && MayMinorRepair(p))
  }

  /** More commands were run, none of them high risk. */
  ghost predicate SafeGrowth(before: seq<string>, after: seq<string>, highRisk: string -> bool) {
    before <= after && forall i :: |before| <= i < |after| ==> !highRisk(after[i])
  }

  lemma SafeGrowthTransitive(a: seq<string>, b: seq<string>, c: seq<string>, highRisk: string -> bool)
    requires SafeGrowth(a, b, highRisk) && SafeGrowth(b, c, highRisk)
    ensures SafeGrowth(a, c, highRisk)
  {
  }

  lemma SafeCommands(before: seq<string>, checks: seq<Check>, highRisk: string -> bool)
    requires NoneHighRisk(checks, highRisk)
    ensures SafeGrowth(before, before + Commands(checks), highRisk)
  {
  }

  /** The first failing gate names the failure; None is success. */
  ghost function FailureOf(p: Pass, entry: seq<Check>, highRisk: string -> bool): Option<string> {
    if !NoneHighRisk(entry, highRisk) then Some("policy_violation")
    else if p.codexReturncode != 0 then Some("codex_failure")
    else if !(NoneHighRisk(p.workflow, highRisk) && NoneBlocks(p.workflow, p.commandOutcome)) then
      Some(StopReason(p.workflow, p.commandOutcome, highRisk, 0))
    else if p.scope.mustNotTouchViolations != [] then Some("scope_violation")
    else if p.scope.protectedConfigViolations != [] then Some("protected_config_violation")
    else if !NoneHighRisk(p.repairChecks, highRisk) then Some("policy_violation")
    else if !HardChecksHold(p.workflow, p.commandOutcome) then Some("hard_check_failed")
    else if p.verificationStatus !in {"success", "passed", "completed"} then Some(p.verificationFailureType)
    else if p.decision == "repairable" then Some("review_repairable")
    else if p.decision == "reject" then Some("review_reject")
    else None
  }

  /** Why the workflow commands stop: the first check that is high risk or blocked decides. */
  function StopReason(checks: seq<Check>, outcome: nat -> Completed, highRisk: string -> bool, i: nat): string
    requires i <= |checks|
    decreases |checks| - i
  {
    if i == |checks| then ""
    else if highRisk(checks[i].command) then "policy_violation"
    else if Blocks(checks[i], outcome(i)) then "environment_blocked"
    else StopReason(checks, outcome, highRisk, i + 1)
  }

  lemma {:induction false} StopReasonMeaning(checks: seq<Check>, outcome: nat -> Completed, highRisk: string -> bool, i: nat)
    requires i <= |checks|
    ensures StopReason(checks, outcome, highRisk, i) == "" <==>
      forall k :: i <= k < |checks| ==> !highRisk(checks[k].command) && !BlamesEnvironment(checks[k], outcome(k))
    ensures StopReason(checks, outcome, highRisk, i) in {"", "policy_violation", "environment_blocked"}
    decreases |checks| - i
  {
    if i < |checks| {
      assert "policy_violation" != "" && "environment_blocked" != "";
      StopReasonMeaning(checks, outcome, highRisk, i + 1);
    }
  }

  /** The first command that is high risk or blames the environment. */
  ghost predicate StopsAt(checks: seq<Check>, outcome: nat -> Completed, highRisk: string -> bool, i: nat, k: int) {
    && i <= k < |checks| && (highRisk(checks[k].command) || BlamesEnvironment(checks[k], outcome(k)))
    && forall j :: i <= j < k ==> !highRisk(checks[j].command) && !BlamesEnvironment(checks[j], outcome(j))
  }

  /** A high-risk command is a policy violation, whatever it would have returned; any other command that stops the loop
      means a blocked environment. */
  lemma {:induction false} StopReasonIsOfFirst(
    checks: seq<Check>, outcome: nat -> Completed, highRisk: string -> bool, i: nat, k: int)
    requires StopsAt(checks, outcome, highRisk, i, k)
    ensures StopReason(checks, outcome, highRisk, i)
         == if highRisk(checks[k].command) then "policy_violation" else "environment_blocked"
    decreases k - i
  {
    if i < k {
      StopReasonIsOfFirst(checks, outcome, highRisk, i + 1, k);
    }
  }

  /** Each failure is named after the first gate that broke. */
  lemma FailureNamesFirstBrokenGate(p: Pass, entry: seq<Check>, highRisk: string -> bool)
    ensures !NoneHighRisk(entry, highRisk) ==> FailureOf(p, entry, highRisk) == Some("policy_violation")
    ensures NoneHighRisk(entry, highRisk) && p.codexReturncode != 0 ==> FailureOf(p, entry, highRisk) == Some("codex_failure")
    ensures ReachesScope(p, entry, highRisk) ==>
      && (p.scope.mustNotTouchViolations != [] ==> FailureOf(p, entry, highRisk) == Some("scope_violation"))
      && (p.scope.mustNotTouchViolations == [] && p.scope.protectedConfigViolations != [] ==>
            FailureOf(p, entry, highRisk) == Some("protected_config_violation"))
    ensures ReachesRepair(p, entry, highRisk) && !HardChecksHold(p.workflow, p.commandOutcome) ==>
      FailureOf(p, entry, highRisk) == Some("hard_check_failed")
    ensures ReachesReview(p, entry, highRisk) && p.decision in {"repairable", "reject"} ==>
      FailureOf(p, entry, highRisk) == Some(if p.decision == "reject" then "review_reject" else "review_repairable")
  {
    assert "reject"[2] != "repairable"[2];
  }

  /** The agent and the workflow commands went well. */
  ghost predicate ReachesScope(p: Pass, entry: seq<Check>, highRisk: string -> bool) {
    && NoneHighRisk(entry, highRisk) && p.codexReturncode == 0
    && NoneHighRisk(p.workflow, highRisk) && NoneBlocks(p.workflow, p.commandOutcome)
  }

  /** Success means every gate was passed, and conversely. */
  lemma NoFailureMeansAllGates(p: Pass, entry: seq<Check>, highRisk: string -> bool)
    ensures FailureOf(p, entry, highRisk) == None <==> PassesAllGates(p, entry, highRisk)
  {
  }

  /** The pass that decides the result and the workflow it was entered with. */
  ghost function FinalPass(passes: nat -> Pass, n: nat, entry: seq<Check>, highRisk: string -> bool, handoff: bool)
    : (Pass, seq<Check>)
  {
    if !handoff && RollsOver(passes(n), entry, highRisk) then (passes(n + 1), passes(n).workflow)
    else (passes(n), entry)
  }

  /** What a new candidate reports: success exactly when its final pass passed every gate. */
  ghost predicate Succeeds(passes: nat -> Pass, workflow: seq<Check>, highRisk: string -> bool) {
    var (last, entry) := FinalPass(passes, 0, workflow, highRisk, false);
    PassesAllGates(last, entry, highRisk)
  }

  const NoScope := ScopeAnalysis([], [], None)
  const NoReview := ReviewReport([], [], [], [])

  class CandidateRun {
    const candidateId: string
    /** The candidate's artifact directory. */
    var files: set<File>
    /** `repair_cycles` of session_checkpoint.json and `complete` of proof_result.json, when written. */
    var repairCycles: Option<nat>
    var proof: Option<bool>
    /** Effects: shell commands run, agent runs started, handoff bundles written. */
    var commands: seq<string>
    var codexRuns: nat
    var handoffs: nat
    /** The candidate's own handoffs directory: the stems of its files. */
    var bundles: seq<string>

    constructor (candidateId: string)
      ensures this.candidateId == candidateId
      ensures files == {} && repairCycles == None && proof == None
      ensures commands == [] && codexRuns == 0 && handoffs == 0 && bundles == []
    {
      this.candidateId := candidateId;
      files, repairCycles, proof := {}, None, None;
      commands, codexRuns, handoffs, bundles := [], 0, 0, [];
    }

    function Cycles(): nat
      reads this
    {
      match repairCycles case Some(n) => n case None => 0
    }

    /** The directory of a candidate that can be promoted. */
    ghost predicate Complete()
      reads this
    {
      RequiredFiles <= files && proof == Some(true)
    }

    /** `execute_workflow_commands`: nothing high risk is run, and the loop stops at the first stop reason. */
    method ExecuteWorkflowCommands(checks: seq<Check>, outcome: nat -> Completed, highRisk: string -> bool)
      returns (results: seq<CommandResult>, failureType: string)
      modifies this`commands
      ensures |results| <= |checks| && results == ResultsOf(checks, outcome)[..|results|]
      ensures commands == old(commands) + Commands(checks[..|results|])
      ensures NoneHighRisk(checks[..|results|], highRisk)
      ensures failureType == StopReason(checks, outcome, highRisk, 0)
      ensures failureType == "" ==> results == ResultsOf(checks, outcome)
    {
      results := [];
      StopReasonMeaning(checks, outcome, highRisk, 0);
      for i := 0 to |checks|
        invariant |results| == i && results == ResultsOf(checks, outcome)[..i]
        invariant commands == old(commands) + Commands(checks[..i])
        invariant NoneHighRisk(checks[..i], highRisk)
        invariant StopReason(checks, outcome, highRisk, 0) == StopReason(checks, outcome, highRisk, i)
      {
        var check := checks[i];
        if highRisk(check.command) {
          return results, "policy_violation";
        }
        CommandsStep(checks, i);
        commands := commands + [check.command];
        results := results + [ResultOf(check, check.category, outcome(i))];
        if Blocks(check, outcome(i)) {
          return results, "environment_blocked";
        }
      }
      assert checks[..|checks|] == checks;
      failureType := "";
    }

    /** `_preflight_workflow_policy`. */
    method Preflight(checks: seq<Check>, highRisk: string -> bool) returns (clean: bool)
      ensures clean <==> NoneHighRisk(checks, highRisk)
    {
      for i := 0 to |checks|
        invariant NoneHighRisk(checks[..i], highRisk)
      {
        if highRisk(checks[i].command) {
          return false;
        }
      }
      assert checks[..|checks|] == checks;
      clean := true;
    }

    /** `_execute_fast_repair_checks`: failing checks do not stop it, a high-risk command does. */
    method ExecuteFastRepairChecks(checks: seq<Check>, outcome: nat -> Completed, highRisk: string -> bool)
      returns (results: seq<CommandResult>, policyViolation: bool)
      modifies this`commands
      ensures |results| <= |checks| && results == RepairResultsOf(checks, outcome)[..|results|]
      ensures commands == old(commands) + Commands(checks[..|results|])
      ensures NoneHighRisk(checks[..|results|], highRisk)
      ensures policyViolation <==> !NoneHighRisk(checks, highRisk)
      ensures !policyViolation ==> results == RepairResultsOf(checks, outcome)
    {
      results := [];
      for i := 0 to |checks|
        invariant |results| == i && results == RepairResultsOf(checks, outcome)[..i]
        invariant commands == old(commands) + Commands(checks[..i])
        invariant NoneHighRisk(checks[..i], highRisk)
      {
        var check := checks[i];
        if highRisk(check.command) {
          return results, true;
        }
        CommandsStep(checks, i);
        commands := commands + [check.command];
        results := results + [ResultOf(check, "fast-repair", outcome(i))];
      }
      assert checks[..|checks|] == checks;
      policyViolation := false;
    }

    method WriteSessionCheckpoint(increment: nat)
      modifies this`files, this`repairCycles
      ensures files == old(files) + {SessionCheckpoint}
      ensures repairCycles == Some(old(Cycles()) + increment)
    {
      repairCycles := Some(Cycles() + increment);
      files := files + {SessionCheckpoint};
    }

    /** `_evaluate_candidate_proof`. */
    method EvaluateProof() returns (complete: bool)
      ensures complete <==> RequiredFiles <= files
    {
      var missing := RequiredFiles - files;
      complete := missing == {};
      assert complete ==> forall f :: f in RequiredFiles ==> f !in missing;
    }

    function Failed(failureType: string, p: Pass, scope: ScopeAnalysis, results: seq<CommandResult>): CandidateResult {
      CandidateResult(candidateId, false, failureType, p.changedFiles, scope, results, NoReview, false, [], p.durationMs)
    }

    /** The writes from the agent run up to the scope analysis. */
    method RunCodex(p: Pass)
      modifies this`files, this`codexRuns
      ensures codexRuns == old(codexRuns) + 1
      ensures old(files) + {RunnerMetadata, CandidateManifest, CandidateStrategy, ImplementationResult,
                            ChangedFiles, ScopeAnalysisFile} <= files
    {
      files := files + {RunnerMetadata};
      codexRuns := codexRuns + 1;
      files := files + {RunnerMetadata, CandidateManifest, CandidateStrategy};
      if p.implementationSynced {
        files := files + {ImplementationResult};
      }
      if ImplementationResult !in files {
        files := files + {ImplementationResult};
      }
      files := files + {VerificationPlan, EffectiveWorkflow, ChangedFiles, ScopeAnalysisFile};
    }

    /** The review writes, the checkpoint and the artifact proof. */
    method RecordReview() returns (complete: bool)
      modifies this`files, this`repairCycles, this`proof
      ensures old(files) <= files && Cycles() == old(Cycles())
      ensures old(files) + {ReviewResult, ReviewDecision, ReviewFindings, PostableFindings, RepairInstructions,
                            LatestRepairFeedback, LatestReviewDelta, SessionCheckpoint} <= files
      ensures proof == Some(complete)
      ensures complete <==> RequiredFiles <= old(files) + {ReviewResult, ReviewDecision, ReviewFindings,
        PostableFindings, RepairInstructions, LatestRepairFeedback, LatestReviewDelta, SessionCheckpoint}
    {
      files := files + {ReviewSummary, ReviewFindings, ReviewResult, ReviewDecision, RepairInstructions,
                        PostableFindings, LatestRepairFeedback, LatestReviewDelta};
      WriteSessionCheckpoint(0);
      complete := EvaluateProof();
      files := files + {ProofResult};
      proof := Some(complete);
    }

    /** The frame of an execution: effects only grow, no high-risk command is run, and a rollover adds one
        agent run, one repair cycle and one handoff bundle. */
    twostate predicate Effects(rollovers: nat, runs: nat, highRisk: string -> bool)
      reads this
    {
      && old(files) <= files
      && SafeGrowth(old(commands), commands, highRisk)
      && codexRuns == old(codexRuns) + runs
      && handoffs == old(handoffs) + rollovers
      && (rollovers == 0 ==> bundles == old(bundles))
      && (rollovers == 1 ==> bundles == Identifiers.OneMoreBundle(old(bundles)))
      && Cycles() == old(Cycles()) + rollovers
    }

    /** Agent run, workflow commands and scope gates. */
    method RunImplementation(p: Pass, highRisk: string -> bool, ghost entry: seq<Check>)
      returns (failed: Option<CandidateResult>, commandResults: seq<CommandResult>)
      requires NoneHighRisk(entry, highRisk)
      modifies this`files, this`codexRuns, this`commands
      ensures Effects(0, 1, highRisk)
      ensures failed.None? <==>
        && p.codexReturncode == 0 && NoneHighRisk(p.workflow, highRisk) && NoneBlocks(p.workflow, p.commandOutcome)
        && p.scope.mustNotTouchViolations == [] && p.scope.protectedConfigViolations == []
      ensures failed.Some? ==>
        && failed.value.candidateId == candidateId && !failed.value.success
        && FailureOf(p, entry, highRisk) == Some(failed.value.failureType)
      ensures failed.None? ==>
        && commandResults == ResultsOf(p.workflow, p.commandOutcome)
        && {RunnerMetadata, CandidateManifest, CandidateStrategy, ImplementationResult, ChangedFiles, ScopeAnalysisFile,
            CommandResultsFile} <= files
    {
      RunCodex(p);
      if p.codexReturncode != 0 {
        return Some(Failed("codex_failure", p, p.scope, [])), [];
      }
      var failureType;
      commandResults, failureType := ExecuteWorkflowCommands(p.workflow, p.commandOutcome, highRisk);
      SafeCommands(old(commands), p.workflow[..|commandResults|], highRisk);
      StopReasonMeaning(p.workflow, p.commandOutcome, highRisk, 0);
      files := files + {CommandResultsFile};
      if failureType != "" {
        failed := Some(Failed(failureType, p, p.scope, commandResults));
      } else if p.scope.mustNotTouchViolations != [] {
        failed := Some(Failed("scope_violation", p, p.scope, commandResults));
      } else if p.scope.protectedConfigViolations != [] {
        failed := Some(Failed("protected_config_violation", p, p.scope, commandResults));
      } else {
        failed := None;
      }
    }

    /** The gates from the workflow policy to the fast repair checks; a failure ends the pass. */
    method RunUpToRepair(p: Pass, highRisk: string -> bool, workflow: seq<Check>)
      returns (failed: Option<CandidateResult>, commandResults: seq<CommandResult>, tools: seq<string>)
      modifies this`files, this`codexRuns, this`commands
      ensures Effects(0, if NoneHighRisk(workflow, highRisk) then 1 else 0, highRisk)
      ensures failed.None? <==> ReachesRepair(p, workflow, highRisk)
      ensures failed.Some? ==>
        && failed.value.candidateId == candidateId && !failed.value.success
        && FailureOf(p, workflow, highRisk) == Some(failed.value.failureType)
      ensures failed.None? ==>
        && commandResults == ResultsOf(p.workflow, p.commandOutcome)
        && tools == RepairTools(RepairResultsOf(p.repairChecks, p.repairOutcome))
        && {RunnerMetadata, CandidateManifest, CandidateStrategy, ImplementationResult, ChangedFiles, ScopeAnalysisFile,
            CommandResultsFile, RepairFeedback, RepairFeedbackLines} <= files
    {
      var clean := Preflight(workflow, highRisk);
      if !clean {
        return Some(Failed("policy_violation", p, NoScope, [])), [], [];
      }
      failed, commandResults := RunImplementation(p, highRisk, workflow);
      tools := [];
      if failed.Some? {
        return;
      }
      ghost var ran := commands;
      var repairResults, violation := ExecuteFastRepairChecks(p.repairChecks, p.repairOutcome, highRisk);
      SafeCommands(ran, p.repairChecks[..|repairResults|], highRisk);
      SafeGrowthTransitive(old(commands), ran, commands, highRisk);
      files := files + {RepairFeedback, RepairFeedbackLines};
      if violation {
        failed := Some(Failed("policy_violation", p, p.scope, repairResults));
      } else {
        tools := RepairTools(repairResults);
      }
    }

    /** Hard checks, verification and review; None asks for a rollover. */
    method RunReview(p: Pass, highRisk: string -> bool, ghost entry: seq<Check>, handoff: bool, commandResults: seq<CommandResult>)
      returns (result: Option<CandidateResult>)
      requires ReachesRepair(p, entry, highRisk) && commandResults == ResultsOf(p.workflow, p.commandOutcome)
      requires {RunnerMetadata, CandidateManifest, CandidateStrategy, ImplementationResult, ChangedFiles,
                ScopeAnalysisFile, CommandResultsFile, RepairFeedback, RepairFeedbackLines} <= files
      modifies this`files, this`repairCycles, this`proof
      ensures old(files) <= files && Cycles() == old(Cycles())
      ensures result.None? <==> !handoff && ReachesReview(p, entry, highRisk) && MayMinorRepair(p)
      ensures result.Some? ==> Reports(result.value, p, entry, highRisk)
    {
      files := files + {VerificationResult, VerificationSummary, Verification};
      HardGateExactlyWhen(p.workflow, p.commandOutcome);
      if HasFailedHardCheck(commandResults) {
        return Some(Failed("hard_check_failed", p, p.scope, commandResults));
      }
      if !AcceptedStatus(p.verificationStatus) {
        return Some(Failed(p.verificationFailureType, p, p.scope, commandResults));
      }
      MinorRepairExactlyWhen(p, entry, highRisk);
      var complete := RecordReview();
      var reviewed := Failed("", p, p.scope, commandResults).(review := p.review, proofComplete := complete);
      WriteSessionCheckpoint(0);
      if p.decision == "repairable" {
        if !handoff && CanMinorRepairReuse(p) {
          return None;
        }
        return Some(reviewed.(failureType := "review_repairable"));
      }
      if p.decision == "reject" {
        files := files + {ReplanReason};
        return Some(reviewed.(failureType := "review_reject"));
      }
      if !complete {
        // candidate_proof_incomplete: every required file has been written by now.
        assert false;
      }
      return Some(reviewed.(success := true));
    }

    /** What a pass that decides the result reports, `last` being entered with workflow `entry`. */
    ghost predicate Reports(r: CandidateResult, last: Pass, entry: seq<Check>, highRisk: string -> bool)
      reads this
    {
      && r.candidateId == candidateId
      && (r.success <==> PassesAllGates(last, entry, highRisk))
      && (!r.success ==> FailureOf(last, entry, highRisk) == Some(r.failureType))
      && (r.success ==>
            && Complete() && r.proofComplete && r.missingArtifacts == [] && r.failureType == ""
            && r.commandResults == ResultsOf(last.workflow, last.commandOutcome)
            && r.scope == last.scope && r.review == last.review && r.changedFiles == last.changedFiles)
    }

    /** `_execute_candidate`. The result is decided by the final pass; without a handoff bundle there is at
        most one rollover, with one there is none. */
    method ExecuteCandidate(passes: nat -> Pass, highRisk: string -> bool, workflow: seq<Check>, handoff: bool)
      returns (r: CandidateResult)
      modifies this
      ensures var (last, entry) := FinalPass(passes, old(codexRuns), workflow, highRisk, handoff);
        Reports(r, last, entry, highRisk)
      ensures var rolls := !handoff && RollsOver(passes(old(codexRuns)), workflow, highRisk);
        Effects(if rolls then 1 else 0,
                if !NoneHighRisk(workflow, highRisk) then 0 else if rolls then 2 else 1, highRisk)
      decreases if handoff then 0 else 2
    {
      var p := passes(codexRuns);
      var failed, commandResults, tools := RunUpToRepair(p, highRisk, workflow);
      if failed.Some? {
        return failed.value;
      }
      ghost var ran := commands;
      FastRepairExactlyWhen(p.repairChecks, p.repairOutcome, p.changedFiles);
      if !handoff && CanFastRepairReuse(tools, p.changedFiles) {
        r := Rollover(passes, highRisk, p.workflow);
        SafeGrowthTransitive(old(commands), ran, commands, highRisk);
        return;
      }
      assert !FastRepairs(p, workflow, highRisk) || handoff;
      var result := RunReview(p, highRisk, workflow, handoff, commandResults);
      assert commands == ran;
      if result.None? {
        assert RollsOver(p, workflow, highRisk);
        r := Rollover(passes, highRisk, p.workflow);
        SafeGrowthTransitive(old(commands), ran, commands, highRisk);
      } else {
        r := result.value;
      }
    }

    /** `_write_session_handoff_bundle`, under the name `_next_handoff_id` gives. */
    method WriteSessionHandoffBundle()
      modifies this`files, this`handoffs, this`bundles
      ensures files == old(files) + {SessionHandoffBundle}
      ensures handoffs == old(handoffs) + 1 && bundles == Identifiers.OneMoreBundle(old(bundles))
    {
      var id := Identifiers.NextHandoffId(bundles);
      if id !in bundles {
        bundles := bundles + [id];
      }
      files := files + {SessionHandoffBundle};
      handoffs := handoffs + 1;
    }

    /** `_rollover_same_candidate`: one more repair cycle, a handoff bundle, and a second pass. */
    method Rollover(passes: nat -> Pass, highRisk: string -> bool, workflow: seq<Check>)
      returns (r: CandidateResult)
      requires NoneHighRisk(workflow, highRisk)
      modifies this
      ensures Reports(r, passes(old(codexRuns)), workflow, highRisk)
      ensures Effects(1, 1, highRisk)
      decreases 1
    {
      WriteSessionCheckpoint(1);
      WriteSessionHandoffBundle();
      r := ExecuteCandidate(passes, highRisk, workflow, true);
    }
  }
}
