/** Merging test-plan chunks in app/planning_agent.py: de-duplication, risk merging and case renumbering. */
module TestPlanMerge {
  import opened Basics
  import opened Dedupe
  import Decimal
  import Text

  // ----- de-duplication -----

  /** `_dedupe_preserve_order`. */
  method DedupePreserveOrder<T>(items: seq<T>, key: T -> string) returns (ordered: seq<T>)
    ensures ordered == FirstOfEachKey(items, key)
  {
    var seen: set<string> := {};
    ordered := [];
    for n := 0 to |items|
      invariant ordered == FirstOfEachKey(items[..n], key)
      invariant AreKeysOf(seen, items[..n], key)
    {
      AreKeysStep(seen, items[..n], items[n], key);
      assert items[..n + 1] == items[..n] + [items[n]];
      if key(items[n]) !in seen {
        seen := seen + {key(items[n])};
        ordered := ordered + [items[n]];
      } else {
        assert seen + {key(items[n])} == seen;
      }
    }
    assert items[..|items|] == items;
  }

  // ----- renumbering -----

  /** A case as the agent returned it; anything but an object is skipped. */
  datatype Case = Case(target: string, body: string) | NotAnObject

  /** The case copied with a new id. */
  datatype Numbered = Numbered(id: string, original: Case)

  function TargetOf(c: Case): string {
    if c.Case? && Text.Strip(c.target) != "" then Text.Strip(c.target) else "general"
  }

  function Objects(cases: seq<Case>): seq<Case> {
    if cases == [] then []
    else
      var front, last := Objects(cases[..|cases| - 1]), cases[|cases| - 1];
      if last.Case? then front + [last] else front
  }

  ghost function Targets(objects: seq<Case>, targetOf: Case -> string): (targets: seq<string>)
    ensures |targets| == |objects| && forall i :: 0 <= i < |objects| ==> targets[i] == targetOf(objects[i])
  {
    seq(|objects|, i requires 0 <= i < |objects| => targetOf(objects[i]))
  }

  /** The distinct targets in first-seen order. */
  ghost function SeenTargets(targets: seq<string>): seq<string> {
    if targets == [] then []
    else
      var seen, last := SeenTargets(targets[..|targets| - 1]), targets[|targets| - 1];
      if last in seen then seen else seen + [last]
  }

  ghost function IndexOf(s: seq<string>, x: string): nat {
    if s == [] || s[0] == x then 0 else 1 + IndexOf(s[1..], x)
  }

  /** Targets are numbered from 1 in first-seen order. */
  ghost function TargetNumber(targets: seq<string>, target: string): nat {
    IndexOf(SeenTargets(targets), target) + 1
  }

  ghost function Count(targets: seq<string>, target: string): nat {
    if targets == [] then 0
    else Count(targets[..|targets| - 1], target) + if targets[|targets| - 1] == target then 1 else 0
  }

  function CaseId(targetNumber: nat, caseNumber: nat): string {
    "TS-" + Decimal.Pad(targetNumber, 2) + "-TC-" + Decimal.Pad(caseNumber, 2)
  }

  /** Case k gets the first-seen number of its target and its rank among equal targets. */
  ghost function IdAt(targets: seq<string>, k: nat): string
    requires k < |targets|
  {
    CaseId(TargetNumber(targets, targets[k]), Count(targets[..k + 1], targets[k]))
  }

  /** Same cases in the same order, each with the id of its position. */
  ghost predicate IsRenumbering(objects: seq<Case>, targets: seq<string>, out: seq<Numbered>) {
    && |out| == |objects| == |targets|
    && forall k :: 0 <= k < |out| ==> out[k].original == objects[k] && out[k].id == IdAt(targets, k)
  }

  lemma {:induction false} IndexOfMember(s: seq<string>, x: string)
    ensures x in s <==> IndexOf(s, x) < |s|
    ensures x in s ==> s[IndexOf(s, x)] == x
    ensures x !in s ==> IndexOf(s, x) == |s|
  {
    if s != [] && s[0] != x {
      IndexOfMember(s[1..], x);
    }
  }

  lemma {:induction false} IndexOfPrefix(s: seq<string>, t: seq<string>, x: string)
    requires x in s
    ensures IndexOf(s + t, x) == IndexOf(s, x)
  {
    if s[0] != x {
      assert (s + t)[1..] == s[1..] + t;
      IndexOfPrefix(s[1..], t, x);
    }
  }

  lemma {:induction false} IndexOfFresh(s: seq<string>, x: string)
    requires x !in s
    ensures IndexOf(s + [x], x) == |s|
  {
    if s != [] {
      assert (s + [x])[1..] == s[1..] + [x];
      IndexOfFresh(s[1..], x);
    }
  }

  lemma StepTargets(targets: seq<string>, x: string)
    ensures SeenTargets(targets + [x]) == SeenTargets(targets) + if x in SeenTargets(targets) then [] else [x]
    ensures forall t :: Count(targets + [x], t) == Count(targets, t) + if t == x then 1 else 0
  {
    assert (targets + [x])[..|targets|] == targets;
  }

  /** A target keeps its number when more cases arrive; a new target gets the next one. */
  lemma {:induction false} TargetNumberStep(targets: seq<string>, x: string, target: string)
    ensures target in SeenTargets(targets) ==> TargetNumber(targets + [x], target) == TargetNumber(targets, target)
    ensures target == x && x !in SeenTargets(targets) ==>
      TargetNumber(targets + [x], target) == |SeenTargets(targets)| + 1
  {
    StepTargets(targets, x);
    var seen := SeenTargets(targets);
    if target in seen {
      IndexOfPrefix(seen, [x], target);
    } else {
      IndexOfFresh(seen, target);
    }
  }

  lemma {:induction false} TargetIsSeen(targets: seq<string>, k: nat)
    requires k < |targets|
    ensures targets[k] in SeenTargets(targets)
    decreases |targets|
  {
    if k < |targets| - 1 {
      TargetIsSeen(targets[..|targets| - 1], k);
    }
  }

  lemma {:induction false} CountOfUnseen(targets: seq<string>, target: string)
    requires target !in SeenTargets(targets)
    ensures Count(targets, target) == 0
    decreases |targets|
  {
    if targets != [] {
      CountOfUnseen(targets[..|targets| - 1], target);
    }
  }

  lemma IdAtIsStable(targets: seq<string>, x: string, k: nat)
    requires k < |targets|
    ensures IdAt(targets + [x], k) == IdAt(targets, k)
  {
    TargetIsSeen(targets, k);
    TargetNumberStep(targets, x, targets[k]);
    assert (targets + [x])[..k + 1] == targets[..k + 1];
  }

  /** The target map holds the numbers of the targets seen so far, the counter map their case counts. */
  ghost predicate MapsMatch(targets: seq<string>, targetMap: map<string, nat>, caseCounter: map<nat, nat>) {
    && (forall t :: t in targetMap <==> t in SeenTargets(targets))
    && (forall t :: t in targetMap ==> targetMap[t] == TargetNumber(targets, t))
    && (forall t :: t in targetMap ==>
          targetMap[t] in caseCounter && caseCounter[targetMap[t]] == Count(targets, t))
    && (forall m :: m in caseCounter ==> m <= |SeenTargets(targets)|)
  }

  /** One loop iteration on the two maps. */
  method NextId(
    ghost targets: seq<string>, target: string,
    targetMap0: map<string, nat>, targetCounter0: nat, caseCounter0: map<nat, nat>)
    returns (targetMap: map<string, nat>, targetCounter: nat, caseCounter: map<nat, nat>, id: string)
    requires MapsMatch(targets, targetMap0, caseCounter0) && targetCounter0 == |SeenTargets(targets)| + 1
    ensures MapsMatch(targets + [target], targetMap, caseCounter)
    ensures targetCounter == |SeenTargets(targets + [target])| + 1
    ensures id == IdAt(targets + [target], |targets|)
  {
    ghost var longer := targets + [target];
    StepTargets(targets, target);
    TargetNumberStep(targets, target, target);
    targetMap, targetCounter := targetMap0, targetCounter0;
    if target !in targetMap {
      CountOfUnseen(targets, target);
      targetMap := targetMap[target := targetCounter];
      targetCounter := targetCounter + 1;
    }
    var number := targetMap[target];
    caseCounter := caseCounter0[number := (if number in caseCounter0 then caseCounter0[number] else 0) + 1];
    id := CaseId(number, caseCounter[number]);
    assert longer[..|targets| + 1] == longer;
    forall t | t in targetMap
      ensures targetMap[t] == TargetNumber(longer, t)
      ensures targetMap[t] in caseCounter && caseCounter[targetMap[t]] == Count(longer, t)
    {
      TargetNumberStep(targets, target, t);
      NumbersDiffer(longer, t, target);
    }
  }

  lemma NumbersDiffer(targets: seq<string>, a: string, b: string)
    requires a in SeenTargets(targets) && b in SeenTargets(targets)
    ensures TargetNumber(targets, a) == TargetNumber(targets, b) <==> a == b
  {
    IndexOfMember(SeenTargets(targets), a);
    IndexOfMember(SeenTargets(targets), b);
  }

  lemma ObjectsStep(cases: seq<Case>, n: nat)
    requires n < |cases|
    ensures Objects(cases[..n + 1]) == if cases[n].Case? then Objects(cases[..n]) + [cases[n]] else Objects(cases[..n])
  {
    assert cases[..n + 1][..n] == cases[..n];
  }

  lemma AppendKeepsRenumbering(objects: seq<Case>, targets: seq<string>, out: seq<Numbered>, c: Case, target: string, id: string)
    requires IsRenumbering(objects, targets, out) && id == IdAt(targets + [target], |targets|)
    ensures IsRenumbering(objects + [c], targets + [target], out + [Numbered(id, c)])
  {
    forall k | 0 <= k < |targets| ensures IdAt(targets + [target], k) == IdAt(targets, k) {
      IdAtIsStable(targets, target, k);
    }
  }

  lemma TargetsStep(objects: seq<Case>, c: Case, targetOf: Case -> string)
    ensures Targets(objects + [c], targetOf) == Targets(objects, targetOf) + [targetOf(c)]
  {
  }

  /** The loop body for an object case: its id, and the case with that id appended. */
  method RenumberCase(
    ghost objects: seq<Case>, ghost targets: seq<string>, c: Case, target: string,
    targetMap0: map<string, nat>, targetCounter0: nat, caseCounter0: map<nat, nat>, renumbered0: seq<Numbered>)
    returns (targetMap: map<string, nat>, targetCounter: nat, caseCounter: map<nat, nat>, renumbered: seq<Numbered>)
    requires IsRenumbering(objects, targets, renumbered0)
    requires MapsMatch(targets, targetMap0, caseCounter0) && targetCounter0 == |SeenTargets(targets)| + 1
    ensures IsRenumbering(objects + [c], targets + [target], renumbered)
    ensures MapsMatch(targets + [target], targetMap, caseCounter)
    ensures targetCounter == |SeenTargets(targets + [target])| + 1
  {
    var id;
    targetMap, targetCounter, caseCounter, id := NextId(targets, target, targetMap0, targetCounter0, caseCounter0);
    renumbered := renumbered0 + [Numbered(id, c)];
    AppendKeepsRenumbering(objects, targets, renumbered0, c, target, id);
  }

  /** `_renumber_test_cases`, `targetOf` being the trimmed target or "general". */
  method RenumberTestCases(cases: seq<Case>, targetOf: Case -> string) returns (renumbered: seq<Numbered>)
    ensures IsRenumbering(Objects(cases), Targets(Objects(cases), targetOf), renumbered)
  {
    renumbered := [];
    var targetMap: map<string, nat> := map[];
    var targetCounter: nat := 1;
    var caseCounter: map<nat, nat> := map[];
    for n := 0 to |cases|
      invariant var targets := Targets(Objects(cases[..n]), targetOf);
        MapsMatch(targets, targetMap, caseCounter) && targetCounter == |SeenTargets(targets)| + 1
      invariant IsRenumbering(Objects(cases[..n]), Targets(Objects(cases[..n]), targetOf), renumbered)
    {
      ghost var objects := Objects(cases[..n]);
      ObjectsStep(cases, n);
      if cases[n].Case? {
        TargetsStep(objects, cases[n], targetOf);
        targetMap, targetCounter, caseCounter, renumbered := RenumberCase(
          objects, Targets(objects, targetOf), cases[n], targetOf(cases[n]), targetMap, targetCounter, caseCounter, renumbered);
      }
    }
    assert cases[..|cases|] == cases;
  }

  // ----- printed ids -----

  lemma DigitsBeforeDash(a: string, b: string, restA: string, restB: string)
    requires Decimal.AllDigits(a) && Decimal.AllDigits(b)
    requires a + "-" + restA == b + "-" + restB
    ensures a == b && restA == restB
  {
    var left, right := a + "-" + restA, b + "-" + restB;
    assert left[|a|] == '-' && right[|b|] == '-';
    assert forall i :: 0 <= i < |a| ==> Decimal.IsDigit(left[i]);
    assert forall i :: 0 <= i < |b| ==> Decimal.IsDigit(right[i]);
    assert |a| == |b|;
    assert a == left[..|a|] && b == right[..|b|];
    assert restA == left[|a| + 1..] && restB == right[|b| + 1..];
  }

  lemma SplitId(a: string, c: string, b: string, d: string)
    requires Decimal.AllDigits(a) && Decimal.AllDigits(b)
    requires "TS-" + a + "-TC-" + c == "TS-" + b + "-TC-" + d
    ensures a == b && c == d
  {
    var left, right := "TS-" + a + "-TC-" + c, "TS-" + b + "-TC-" + d;
    assert left[3..] == a + "-" + ("TC-" + c) && right[3..] == b + "-" + ("TC-" + d);
    DigitsBeforeDash(a, b, "TC-" + c, "TC-" + d);
    assert ("TC-" + c)[3..] == c && ("TC-" + d)[3..] == d;
  }

  /** The printed id determines both numbers, however large they are. */
  lemma CaseIdInjective(t1: nat, n1: nat, t2: nat, n2: nat)
    requires CaseId(t1, n1) == CaseId(t2, n2)
    ensures t1 == t2 && n1 == n2
  {
    SplitId(Decimal.Pad(t1, 2), Decimal.Pad(n1, 2), Decimal.Pad(t2, 2), Decimal.Pad(n2, 2));
    Decimal.PadInjective(t1, t2, 2);
    Decimal.PadInjective(n1, n2, 2);
  }

  lemma {:induction false} CountGrows(targets: seq<string>, target: string, i: nat, j: nat)
    requires i <= j <= |targets|
    ensures Count(targets[..i], target) <= Count(targets[..j], target)
    ensures Count(targets[..i], target) == Count(targets[..j], target)
       <==> forall k :: i <= k < j ==> targets[k] != target
    decreases j
  {
    if i < j {
      CountGrows(targets, target, i, j - 1);
      assert targets[..j][..j - 1] == targets[..j - 1];
    }
  }

  lemma OneDigit(n: nat)
    requires n < 10
    ensures Decimal.Pad(n, 2) == ['0', Decimal.DigitChar(n)]
  {
  }

  /** Both numbers are printed with two digits at least. */
  lemma CaseIdOfDigits(targetNumber: nat, caseNumber: nat)
    requires targetNumber < 10 && caseNumber < 10
    ensures CaseId(targetNumber, caseNumber)
         == "TS-0" + [Decimal.DigitChar(targetNumber)] + "-TC-0" + [Decimal.DigitChar(caseNumber)]
  {
    OneDigit(targetNumber);
    OneDigit(caseNumber);
  }

  /** Cases share a target number exactly when they share a target. */
  lemma TargetNumberInjective(targets: seq<string>, i: nat, j: nat)
    requires i < |targets| && j < |targets|
    ensures TargetNumber(targets, targets[i]) == TargetNumber(targets, targets[j]) <==> targets[i] == targets[j]
  {
    TargetIsSeen(targets, i);
    TargetIsSeen(targets, j);
    NumbersDiffer(targets, targets[i], targets[j]);
  }

  /** Ids are pairwise distinct for any number of cases and targets. */
  lemma IdsAreDistinct(targets: seq<string>, i: nat, j: nat)
    requires i < j < |targets|
    ensures IdAt(targets, i) != IdAt(targets, j)
  {
    var a, b := targets[i], targets[j];
    if IdAt(targets, i) == IdAt(targets, j) {
      CaseIdInjective(TargetNumber(targets, a), Count(targets[..i + 1], a),
                      TargetNumber(targets, b), Count(targets[..j + 1], b));
      TargetNumberInjective(targets, i, j);
      CountGrows(targets, b, i + 1, j + 1);
    }
  }

  /** Between two neighbouring cases of one target the case number rises by exactly one. */
  lemma CaseNumbersAreConsecutive(targets: seq<string>, i: nat, j: nat)
    requires i < j < |targets| && targets[i] == targets[j]
    requires forall k :: i < k < j ==> targets[k] != targets[j]
    ensures Count(targets[..j + 1], targets[j]) == Count(targets[..i + 1], targets[j]) + 1
  {
    CountGrows(targets, targets[j], i + 1, j);
    assert targets[..j + 1][..j] == targets[..j];
  }

  // ----- merging chunks -----

  datatype Risk = Risk(title: string, body: string)

  function Title(r: Risk): string {
    Text.Strip(r.title)
  }

  /** An entry of one of the plan's lists and the text it is compared by. */
  datatype Entry = Entry(key: string, body: string)

  datatype Strategy = Strategy(unit: seq<Entry>, integration: seq<Entry>, e2e: seq<Entry>, mocking: seq<Entry>)
  datatype Overview = Overview(testTargets: seq<Entry>, strategy: Strategy)
  datatype Chunk = Chunk(cases: seq<Case>, regressionRisks: seq<string>, risks: seq<Risk>)

  datatype TestPlan = TestPlan(
    testTargets: seq<Entry>,
    strategy: Strategy,
    cases: seq<Numbered>,
    regressionRisks: seq<string>,
    risks: seq<Risk>)

  function EntryKey(e: Entry): string {
    e.key
  }

  function Itself(s: string): string {
    s
  }

  function AllCases(chunks: seq<Chunk>): seq<Case> {
    if chunks == [] then [] else AllCases(chunks[..|chunks| - 1]) + chunks[|chunks| - 1].cases
  }

  function AllRisks(chunks: seq<Chunk>): seq<Risk> {
    if chunks == [] then [] else AllRisks(chunks[..|chunks| - 1]) + chunks[|chunks| - 1].risks
  }

  ghost function Titled(risks: seq<Risk>, title: Risk -> string): seq<Risk> {
    if risks == [] then []
    else
      var front, last := Titled(risks[..|risks| - 1], title), risks[|risks| - 1];
      if title(last) != "" then front + [last] else front
  }

  function AllRegressionRisks(chunks: seq<Chunk>): seq<string> {
    if chunks == [] then []
    else AllRegressionRisks(chunks[..|chunks| - 1]) + Text.NonBlank(chunks[|chunks| - 1].regressionRisks)
  }

  /** The loop over the chunks. */
  method Gather(chunks: seq<Chunk>) returns (cases: seq<Case>, regressionRisks: seq<string>, risks: seq<Risk>)
    ensures cases == AllCases(chunks)
    ensures regressionRisks == AllRegressionRisks(chunks)
    ensures risks == AllRisks(chunks)
  {
    cases, regressionRisks, risks := [], [], [];
    for n := 0 to |chunks|
      invariant cases == AllCases(chunks[..n])
      invariant regressionRisks == AllRegressionRisks(chunks[..n])
      invariant risks == AllRisks(chunks[..n])
    {
      assert chunks[..n + 1][..n] == chunks[..n];
      cases := cases + chunks[n].cases;
      regressionRisks := regressionRisks + Text.NonBlank(chunks[n].regressionRisks);
      risks := risks + chunks[n].risks;
    }
    assert chunks[..|chunks|] == chunks;
  }

  lemma TitledStep(all: seq<Risk>, title: Risk -> string, n: nat)
    requires n < |all|
    ensures Titled(all[..n + 1], title)
         == if title(all[n]) != "" then Titled(all[..n], title) + [all[n]] else Titled(all[..n], title)
  {
    assert all[..n + 1][..n] == all[..n];
  }

  method MergeRisks(all: seq<Risk>, title: Risk -> string) returns (risks: seq<Risk>)
    ensures risks == FirstOfEachKey(Titled(all, title), title)
  {
    risks := [];
    var seenTitles: set<string> := {};
    for n := 0 to |all|
      invariant risks == FirstOfEachKey(Titled(all[..n], title), title)
      invariant AreKeysOf(seenTitles, Titled(all[..n], title), title)
    {
      TitledStep(all, title, n);
      AreKeysStep(seenTitles, Titled(all[..n], title), all[n], title);
      if title(all[n]) != "" && title(all[n]) !in seenTitles {
        seenTitles := seenTitles + {title(all[n])};
        risks := risks + [all[n]];
      } else {
        assert title(all[n]) != "" ==> seenTitles + {title(all[n])} == seenTitles;
      }
    }
    assert all[..|all|] == all;
  }

  /** `_merge_test_plan_chunks`: every object case in order with the id its target and rank determine, all ids
      distinct, and of each list the first entry of each key. */
  method MergeTestPlanChunks(overview: Overview, chunks: seq<Chunk>) returns (plan: TestPlan)
    ensures var objects := Objects(AllCases(chunks)); IsRenumbering(objects, Targets(objects, TargetOf), plan.cases)
    ensures forall i, j :: 0 <= i < j < |plan.cases| ==> plan.cases[i].id != plan.cases[j].id
    ensures plan.regressionRisks == FirstOfEachKey(AllRegressionRisks(chunks), Itself)
    ensures plan.risks == FirstOfEachKey(Titled(AllRisks(chunks), Title), Title)
    ensures plan.testTargets == FirstOfEachKey(overview.testTargets, EntryKey)
    ensures plan.strategy.unit == FirstOfEachKey(overview.strategy.unit, EntryKey)
    ensures plan.strategy.integration == FirstOfEachKey(overview.strategy.integration, EntryKey)
    ensures plan.strategy.e2e == FirstOfEachKey(overview.strategy.e2e, EntryKey)
    ensures plan.strategy.mocking == FirstOfEachKey(overview.strategy.mocking, EntryKey)
    ensures DistinctKeys(plan.risks, Title) && DistinctKeys(plan.regressionRisks, Itself)
  {
    var strategy := MergeStrategy(overview.strategy);
    var allCases, allRegressionRisks, allRisks := Gather(chunks);
    var risks := MergeRisks(allRisks, Title);
    var testTargets := DedupePreserveOrder(overview.testTargets, EntryKey);
    var cases := RenumberTestCases(allCases, TargetOf);
    var regressionRisks := DedupePreserveOrder(allRegressionRisks, Itself);
    DedupeIsDistinct(Titled(allRisks, Title), Title);
    DedupeIsDistinct(allRegressionRisks, Itself);
    RenumberedIdsDiffer(Objects(allCases), Targets(Objects(allCases), TargetOf), cases);
    plan := TestPlan(testTargets, strategy, cases, regressionRisks, risks);
  }

  method MergeStrategy(strategy: Strategy) returns (merged: Strategy)
    ensures merged.unit == FirstOfEachKey(strategy.unit, EntryKey)
    ensures merged.integration == FirstOfEachKey(strategy.integration, EntryKey)
    ensures merged.e2e == FirstOfEachKey(strategy.e2e, EntryKey)
    ensures merged.mocking == FirstOfEachKey(strategy.mocking, EntryKey)
  {
    var unit := DedupePreserveOrder(strategy.unit, EntryKey);
    var integration := DedupePreserveOrder(strategy.integration, EntryKey);
    var e2e := DedupePreserveOrder(strategy.e2e, EntryKey);
    var mocking := DedupePreserveOrder(strategy.mocking, EntryKey);
    merged := Strategy(unit, integration, e2e, mocking);
  }

  lemma RenumberedIdsDiffer(objects: seq<Case>, targets: seq<string>, out: seq<Numbered>)
    requires IsRenumbering(objects, targets, out)
    ensures forall i, j :: 0 <= i < j < |out| ==> out[i].id != out[j].id
  {
    forall i, j | 0 <= i < j < |out| ensures out[i].id != out[j].id {
      IdsAreDistinct(targets, i, j);
    }
  }
}
