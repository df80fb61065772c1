/** What a merged test plan contains, in the fields of the chunks it was merged from. */
module MergedPlan {
  import opened Basics
  import opened Dedupe
  import opened TestPlanMerge
  import Text

  // ----- cases -----

  /** Same target up to surrounding whitespace; a blank one counts as "general". */
  predicate SameTarget(a: string, b: string) {
    var x, y := Text.Strip(a), Text.Strip(b);
    x == y || (x == "" && y == "general") || (x == "general" && y == "")
  }

  /** The ids of two cases begin with the same target number exactly when their targets agree. */
  lemma NumbersMeetExactlyWhen(objects: seq<Case>, i: nat, j: nat)
    requires i < |objects| && j < |objects| && objects[i].Case? && objects[j].Case?
    ensures var targets := Targets(objects, TargetOf);
      (TargetNumber(targets, targets[i]) == TargetNumber(targets, targets[j])) <==>
        SameTarget(objects[i].target, objects[j].target)
  {
    TargetNumberInjective(Targets(objects, TargetOf), i, j);
    assert |"general"| != 0;
  }

  /** Everything but objects is skipped, and no object is. */
  lemma {:induction false} ObjectsAreCounted(cases: seq<Case>)
    ensures |Objects(cases)| == |Where(cases, (c: Case) => c.Case?)|
    ensures forall k :: 0 <= k < |Objects(cases)| ==> Objects(cases)[k].Case? && Objects(cases)[k] in cases
    decreases |cases|
  {
    if cases != [] {
      ObjectsAreCounted(cases[..|cases| - 1]);
      WhereOfFront(cases, (c: Case) => c.Case?);
    }
  }

  /** The cases and risks of a chunk come right after those of all earlier chunks, in their own order. */
  lemma {:induction false} ChunksFollowEachOther(chunks: seq<Chunk>, c: nat)
    requires c < |chunks|
    ensures AllCases(chunks[..c]) + chunks[c].cases <= AllCases(chunks)
    ensures AllRisks(chunks[..c]) + chunks[c].risks <= AllRisks(chunks)
    decreases |chunks|
  {
    var n := |chunks| - 1;
    if c < n {
      ChunksFollowEachOther(chunks[..n], c);
      assert chunks[..n][..c] == chunks[..c];
    }
  }

  // ----- risks -----

  ghost predicate HasRisk(risks: seq<Risk>, title: string) {
    exists i :: 0 <= i < |risks| && Text.Strip(risks[i].title) == title
  }

  lemma {:induction false} TitledHasRisk(risks: seq<Risk>, title: string)
    ensures HasKey(Titled(risks, Title), Title, title) <==> title != "" && HasRisk(risks, title)
    decreases |risks|
  {
    if risks != [] {
      var front, last := risks[..|risks| - 1], risks[|risks| - 1];
      TitledHasRisk(front, title);
      HasRiskOfExtension(risks, title);
      if Title(last) != "" {
        HasKeyOfExtension(Titled(risks, Title), Title, title);
        assert Titled(risks, Title)[..|Titled(front, Title)|] == Titled(front, Title);
      }
    }
  }

  lemma HasRiskOfExtension(risks: seq<Risk>, title: string)
    requires risks != []
    ensures HasRisk(risks, title) <==>
      HasRisk(risks[..|risks| - 1], title) || Text.Strip(risks[|risks| - 1].title) == title
  {
    var front := risks[..|risks| - 1];
    if HasRisk(risks, title) {
      var i :| 0 <= i < |risks| && Text.Strip(risks[i].title) == title;
      assert i < |front| ==> front[i] == risks[i];
    }
    if HasRisk(front, title) {
      var i :| 0 <= i < |front| && Text.Strip(front[i].title) == title;
      assert risks[i] == front[i];
    }
  }

  /** Every title that is not blank survives, once, and no risk without a title does. */
  lemma RiskSurvivesExactlyWhen(risks: seq<Risk>, title: string)
    ensures var kept := FirstOfEachKey(Titled(risks, Title), Title);
      && (HasRisk(kept, title) <==> title != "" && HasRisk(risks, title))
      && (forall i, j :: 0 <= i < j < |kept| ==> Text.Strip(kept[i].title) != Text.Strip(kept[j].title))
  {
    var kept := FirstOfEachKey(Titled(risks, Title), Title);
    TitledHasRisk(risks, title);
    DedupeKeepsKeys(Titled(risks, Title), Title, title);
    DedupeIsDistinct(Titled(risks, Title), Title);
    if HasRisk(kept, title) {
      var i :| 0 <= i < |kept| && Text.Strip(kept[i].title) == title;
      assert Title(kept[i]) == title;
    }
    if HasKey(kept, Title, title) {
      var i :| 0 <= i < |kept| && Title(kept[i]) == title;
      assert Text.Strip(kept[i].title) == title;
    }
  }

  // ----- regression risks -----

  ghost predicate Mentions(texts: seq<string>, x: string) {
    exists i :: 0 <= i < |texts| && Text.Strip(texts[i]) == x
  }

  lemma {:induction false} NonBlankMentions(texts: seq<string>, x: string)
    ensures x in Text.NonBlank(texts) <==> x != "" && Mentions(texts, x)
  {
    if texts != [] {
      NonBlankMentions(texts[1..], x);
      if Mentions(texts[1..], x) {
        var i :| 0 <= i < |texts[1..]| && Text.Strip(texts[1..][i]) == x;
        assert texts[i + 1] == texts[1..][i];
      }
      if Mentions(texts, x) {
        var i :| 0 <= i < |texts| && Text.Strip(texts[i]) == x;
        assert i > 0 ==> texts[1..][i - 1] == texts[i];
      }
    }
  }

  ghost predicate ChunkMentions(chunks: seq<Chunk>, x: string) {
    exists c :: 0 <= c < |chunks| && Mentions(chunks[c].regressionRisks, x)
  }

  lemma ChunkMentionsOfExtension(chunks: seq<Chunk>, x: string)
    requires chunks != []
    ensures ChunkMentions(chunks, x) <==>
      ChunkMentions(chunks[..|chunks| - 1], x) || Mentions(chunks[|chunks| - 1].regressionRisks, x)
  {
    var front := chunks[..|chunks| - 1];
    if ChunkMentions(front, x) {
      var c :| 0 <= c < |front| && Mentions(front[c].regressionRisks, x);
      assert chunks[c] == front[c];
    }
    if ChunkMentions(chunks, x) {
      var c :| 0 <= c < |chunks| && Mentions(chunks[c].regressionRisks, x);
      assert c < |front| ==> front[c] == chunks[c];
    }
  }

  lemma {:induction false} GatheredMentions(chunks: seq<Chunk>, x: string)
    ensures x in AllRegressionRisks(chunks) <==> x != "" && ChunkMentions(chunks, x)
    decreases |chunks|
  {
    if chunks != [] {
      GatheredMentions(chunks[..|chunks| - 1], x);
      NonBlankMentions(chunks[|chunks| - 1].regressionRisks, x);
      ChunkMentionsOfExtension(chunks, x);
    }
  }

  /** A text is a regression risk of the plan exactly when some chunk has it up to surrounding whitespace. */
  lemma RegressionRiskExactlyWhen(chunks: seq<Chunk>, x: string)
    ensures x in FirstOfEachKey(AllRegressionRisks(chunks), Itself) <==> x != "" && ChunkMentions(chunks, x)
  {
    var all := AllRegressionRisks(chunks);
    var kept := FirstOfEachKey(all, Itself);
    GatheredMentions(chunks, x);
    DedupeKeepsKeys(all, Itself, x);
    if x in all {
      var i :| 0 <= i < |all| && all[i] == x;
      assert Itself(all[i]) == x;
    }
    if x in kept {
      var i :| 0 <= i < |kept| && kept[i] == x;
      assert Itself(kept[i]) == x;
    }
  }

  // ----- entries of the overview -----

  ghost predicate HasEntry(entries: seq<Entry>, key: string) {
    exists i :: 0 <= i < |entries| && entries[i].key == key
  }

  /** Of the entries with one text exactly one survives. */
  lemma EntrySurvives(entries: seq<Entry>, key: string)
    ensures var kept := FirstOfEachKey(entries, EntryKey);
      && (HasEntry(kept, key) <==> HasEntry(entries, key))
      && (forall i, j :: 0 <= i < j < |kept| ==> kept[i].key != kept[j].key)
  {
    var kept := FirstOfEachKey(entries, EntryKey);
    DedupeKeepsKeys(entries, EntryKey, key);
    DedupeIsDistinct(entries, EntryKey);
    EntryIsKey(kept, key);
    EntryIsKey(entries, key);
    forall i, j | 0 <= i < j < |kept| ensures kept[i].key != kept[j].key {
      assert EntryKey(kept[i]) != EntryKey(kept[j]);
    }
  }

  lemma EntryIsKey(entries: seq<Entry>, key: string)
    ensures HasEntry(entries, key) <==> HasKey(entries, EntryKey, key)
  {
    if HasEntry(entries, key) {
      var i :| 0 <= i < |entries| && entries[i].key == key;
      assert EntryKey(entries[i]) == key;
    }
    if HasKey(entries, EntryKey, key) {
      var i :| 0 <= i < |entries| && EntryKey(entries[i]) == key;
      assert entries[i].key == key;
    }
  }
}
