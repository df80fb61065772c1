/** Printing an issue body and reading it back: what every field becomes, and which summaries survive. */
module IssueRoundTrip {
  import opened Basics
  import opened Text
  import opened IssueText
  import opened IssueSections

  // ----- what is printed is trimmed -----

  lemma FormatTextIsTrimmed(value: string)
    ensures CanonicalText(FormatText(value))
  {
    StripIsTrimmed(value);
  }

  lemma {:induction false} BulletsAreTrimmed(items: seq<string>)
    requires items != [] && forall i :: 0 <= i < |items| ==> CanonicalText(items[i])
    ensures Bullets(items)[0] == '-' && !IsSpace(Bullets(items)[|Bullets(items)| - 1])
  {
    if |items| > 1 {
      BulletsAreTrimmed(items[1..]);
    }
  }

  lemma ShownAreTrimmed(items: seq<string>)
    ensures forall i :: 0 <= i < |Shown(items)| ==> CanonicalText(Shown(items)[i])
  {
    NonBlankAreTrimmed(items);
  }

  lemma FormatListIsTrimmed(items: seq<string>)
    ensures CanonicalText(FormatList(items))
    ensures FormatList(items)[0] == '-' && FormatList(items)[1] == ' ' && !IsSpace(FormatList(items)[2])
  {
    ShownAreTrimmed(items);
    BulletsAreTrimmed(Shown(items));
    assert FormatList(items)[2] == Shown(items)[0][0];
  }

  // ----- lists -----

  /** What a list item must look like to survive: one trimmed, non-empty line. */
  predicate CanonicalItem(x: string) {
    x != "" && Trimmed(x) && SingleLine(x)
  }

  predicate CanonicalList(xs: seq<string>) {
    xs != [] && forall i :: 0 <= i < |xs| ==> CanonicalItem(xs[i])
  }

  lemma {:induction false} LineEndOfLine(line: string, rest: string)
    requires SingleLine(line) && (rest == "" || rest[0] == '\n')
    ensures LineEnd(line + rest) == |line|
  {
    if line == "" {
      assert line + rest == rest;
    } else {
      assert (line + rest)[1..] == line[1..] + rest;
      LineEndOfLine(line[1..], rest);
    }
  }

  lemma BulletLine(x: string)
    requires CanonicalItem(x)
    ensures Trimmed("- " + x) && SingleLine("- " + x)
    ensures "- " <= "- " + x && ("- " + x)[2..] == x
  {
    var line := "- " + x;
    assert line[0] == '-' && line[|line| - 1] == x[|x| - 1];
    assert line[..2] == "- " && line[2..] == x;
  }

  lemma ItemOfBullet(x: string)
    requires CanonicalItem(x)
    ensures ItemOf("- " + x) == x
  {
    BulletLine(x);
    StripIsTrimmed("- " + x);
    StripIsTrimmed(x);
  }

  lemma SplitFirstLine(line: string, rest: string)
    requires SingleLine(line)
    ensures SplitLines(line + "\n" + rest) == [line] + SplitLines(rest)
  {
    var s := line + "\n" + rest;
    assert s == line + ("\n" + rest);
    LineEndOfLine(line, "\n" + rest);
    assert s[..|line|] == line && s[|line| + 1..] == rest && s[|line|] == '\n';
  }

  lemma SplitOneLine(line: string)
    requires SingleLine(line) && line != ""
    ensures SplitLines(line) == [line]
  {
    LineEndOfLine(line, "");
    assert line + "" == line;
  }

  lemma {:induction false} BulletsRoundTrip(items: seq<string>, itemOf: string -> string)
    requires items != [] && forall i :: 0 <= i < |items| ==> items[i] != "" && SingleLine(items[i])
    requires forall i :: 0 <= i < |items| ==> itemOf("- " + items[i]) == items[i]
    ensures ItemsOf(SplitLines(Bullets(items)), itemOf) == items
  {
    var line := "- " + items[0];
    assert SingleLine(line);
    if |items| == 1 {
      SplitOneLine(line);
    } else {
      BulletsRoundTrip(items[1..], itemOf);
      SplitFirstLine(line, Bullets(items[1..]));
    }
  }

  /** Reading back a printed list of canonical items. */
  lemma {:induction false} CanonicalListRoundTrip(items: seq<string>)
    requires CanonicalList(items)
    ensures ListOf(Bullets(items)) == items
  {
    forall i | 0 <= i < |items| ensures ItemOf("- " + items[i]) == items[i] {
      ItemOfBullet(items[i]);
    }
    BulletsRoundTrip(items, ItemOf);
  }

  lemma StripIsCanonical(s: string)
    requires SingleLine(s)
    ensures SingleLine(Strip(s)) && (Strip(s) == "" || CanonicalItem(Strip(s)))
  {
    StripIsTrimmed(s);
    var from, to := StripIsSlice(s);
  }

  /** Whatever is parsed is a canonical item. */
  lemma ItemOfIsCanonical(line: string)
    requires SingleLine(line)
    ensures ItemOf(line) == "" || CanonicalItem(ItemOf(line))
  {
    StripIsCanonical(line);
    if "- " <= Strip(line) {
      StripIsCanonical(Strip(line)[2..]);
    }
  }

  lemma {:induction false} ItemsComeFromLines(lines: seq<string>, itemOf: string -> string, i: nat) returns (n: nat)
    requires i < |ItemsOf(lines, itemOf)|
    ensures n < |lines| && ItemsOf(lines, itemOf)[i] == itemOf(lines[n]) != ""
  {
    if itemOf(lines[0]) == "" {
      n := ItemsComeFromLines(lines[1..], itemOf, i);
      n := n + 1;
    } else if i == 0 {
      n := 0;
    } else {
      n := ItemsComeFromLines(lines[1..], itemOf, i - 1);
      n := n + 1;
    }
  }

  lemma ParsedItemsAreCanonical(section: string)
    ensures forall i :: 0 <= i < |ListOf(section)| ==> CanonicalItem(ListOf(section)[i])
  {
    var lines := SplitLines(section);
    SplitLinesAreSingle(section);
    forall i | 0 <= i < |ListOf(section)| ensures CanonicalItem(ListOf(section)[i]) {
      var n := ItemsComeFromLines(lines, ItemOf, i);
      ItemOfIsCanonical(lines[n]);
    }
  }

  lemma NonSpaceSurvives(s: string, i: nat)
    requires i < |s| && !IsSpace(s[i])
    ensures Strip(s) != ""
  {
    var left := LStrip(s);
    LStripFacts(s);
    RStripFacts(left);
    assert |s| - |left| <= i;
    assert left[i - (|s| - |left|)] == s[i];
    assert |RStrip(left)| > i - (|s| - |left|);
  }

  lemma StripOfBullet(line: string)
    requires |line| >= 3 && line[0] == '-' && line[1] == ' ' && !IsSpace(line[2])
    ensures |Strip(line)| > 2 && Strip(line)[2] == line[2] && "- " <= Strip(line)
  {
    var text := RStrip(line);
    RStripFacts(line);
    assert LStrip(line) == line && |text| > 2;
    assert text == line[..|text|];
    assert text[0] == '-' && text[1] == ' ' && text[2] == line[2];
  }

  lemma ItemOfLongBullet(line: string)
    requires |line| >= 3 && line[0] == '-' && line[1] == ' ' && !IsSpace(line[2])
    ensures ItemOf(line) != ""
  {
    StripOfBullet(line);
    NonSpaceSurvives(Strip(line)[2..], 0);
  }

  lemma FirstLineIsLong(s: string)
    requires |s| >= 3 && s[0] == '-' && s[1] == ' ' && !IsSpace(s[2])
    ensures SplitLines(s) != [] && |SplitLines(s)[0]| >= 3 && SplitLines(s)[0] <= s
  {
    var n := LineEnd(s);
    LineEndFacts(s);
    assert SplitLines(s)[0] == s[..n];
  }

  lemma {:induction false} BulletsHaveNoHeadingLine(items: seq<string>, p: nat)
    requires items != [] && forall i :: 0 <= i < |items| ==> SingleLine(items[i])
    ensures !HeadingLineAt(Bullets(items), p)
  {
    var line := "- " + items[0];
    if |items| > 1 {
      var rest := Bullets(items[1..]);
      assert Bullets(items) == line + "\n" + rest;
      if p > |line| {
        BulletsHaveNoHeadingLine(items[1..], p - |line| - 1);
      }
    }
  }

  /** Whatever part of a printed list is read back, it is read as a non-empty list of canonical items, and as the
      printed items exactly when these are canonical. */
  lemma ListOfSection(section: string, xs: seq<string>)
    requires ReadsAs(section, FormatList(xs))
    ensures ListOf(section) != []
    ensures ListOf(section) == xs <==> CanonicalList(xs)
  {
    FormatListIsTrimmed(xs);
    SectionKeepsStart(section, FormatList(xs));
    FirstItemIsParsed(section);
    if CanonicalList(xs) {
      NonBlankOfClean(xs);
      forall p ensures !HeadingLineAt(FormatList(xs), p) {
        if p >= 0 {
          BulletsHaveNoHeadingLine(xs, p);
        }
      }
      CanonicalListRoundTrip(xs);
    } else {
      ParsedItemsAreCanonical(section);
    }
  }

  lemma SectionKeepsStart(section: string, content: string)
    requires ReadsAs(section, content) && |content| >= 3
    requires content[0] == '-' && content[1] == ' ' && !IsSpace(content[2])
    ensures |section| >= 3 && section[0] == '-' && section[1] == ' ' && !IsSpace(section[2])
  {
    assert content[..3] == [content[0], content[1], content[2]];
    assert '\n' !in content[..2 + 1];
  }

  lemma FirstItemIsParsed(section: string)
    requires |section| >= 3 && section[0] == '-' && section[1] == ' ' && !IsSpace(section[2])
    ensures ListOf(section) != []
  {
    FirstLineIsLong(section);
    ItemOfLongBullet(SplitLines(section)[0]);
  }

  // ----- the sections of a printed body -----

  lemma HeadingIsPlain(k: nat)
    requires k < |Headings|
    ensures PlainHeading(Headings[k])
  {
  }

  lemma HeadingsAreApart(k: nat, j: nat)
    requires j < k < |Headings|
    ensures Apart(Headings[k], Headings[j])
  {
    if k == 3 && j == 2 {
      assert Headings[3][1] != Headings[2][1];
    } else {
      assert Headings[k][0] != Headings[j][0];
    }
  }

  lemma HeadingsAreSeparable()
    ensures Separable(Headings)
  {
    forall k | 0 <= k < |Headings| ensures PlainHeading(Headings[k]) {
      HeadingIsPlain(k);
    }
    forall j, k | 0 <= j < k < |Headings| ensures Apart(Headings[k], Headings[j]) {
      HeadingsAreApart(k, j);
    }
  }

  lemma ContentsByAre(
    texts: seq<string>, lists: seq<seq<string>>, text: string -> string, list: seq<string> -> string,
    good: string -> bool)
    requires |texts| == 2 && forall k :: 0 <= k < 2 ==> good(text(texts[k]))
    requires |lists| == 6 && forall k :: 0 <= k < 6 ==> good(list(lists[k]))
    ensures forall k :: 0 <= k < 8 ==> good(ContentsBy(texts, lists, text, list)[k])
  {
    forall k | 0 <= k < 8 ensures good(ContentsBy(texts, lists, text, list)[k]) {
      if k >= 2 {
        assert good(list(lists[k - 2]));
      }
    }
  }

  lemma ContentsAreTrimmed(s: Summary)
    ensures forall k :: 0 <= k < |Contents(s)| ==> CanonicalText(Contents(s)[k])
  {
    forall k | 0 <= k < 2 ensures CanonicalText(FormatText(Texts(s)[k])) {
      FormatTextIsTrimmed(Texts(s)[k]);
    }
    forall k | 0 <= k < 6 ensures CanonicalText(FormatList(Lists(s)[k])) {
      FormatListIsTrimmed(Lists(s)[k]);
    }
    ContentsByAre(Texts(s), Lists(s), FormatText, FormatList, CanonicalText);
  }

  lemma FooterIsHeading(threadUrl: string)
    ensures HeadingAt(Footer(threadUrl), 0)
  {
    assert Footer(threadUrl)[..3] == "## ";
  }

  /** Section k of a printed summary as it is read back. */
  function ReadingOf(s: Summary, k: nat): string
    requires k < |Headings|
  {
    Reading(Headings, Contents(s), k)
  }

  /** No earlier field holds the section's marker. */
  predicate IsOwn(s: Summary, k: nat)
    requires k < |Headings|
  {
    OwnText(Headings, Contents(s), k)
  }

  /** Every section of every printed body is read back as its reading. */
  lemma {:induction false} SectionOfBody(s: Summary, threadUrl: string, k: nat)
    requires k < |Headings|
    ensures SectionBody(BuildIssueBody(s, threadUrl), Headings[k]) == ReadingOf(s, k)
  {
    HeadingsAreSeparable();
    FooterIsHeading(threadUrl);
    SectionIsItsReading(Headings, Contents(s), Footer(threadUrl), k);
  }

  function Readings(s: Summary): (sections: seq<string>)
    ensures |sections| == 8
  {
    seq(8, k requires 0 <= k < 8 => ReadingOf(s, k))
  }

  lemma SectionsAreReadings(s: Summary, threadUrl: string)
    ensures Sections(BuildIssueBody(s, threadUrl)) == Readings(s)
  {
    forall k | 0 <= k < 8 ensures Sections(BuildIssueBody(s, threadUrl))[k] == Readings(s)[k] {
      SectionOfBody(s, threadUrl, k);
    }
  }

  /** What a printed summary is read back as: the thread URL plays no part, and each section is its reading. */
  function Reread(s: Summary, title: string): Summary {
    Assemble(title, Readings(s), ListOf)
  }

  lemma {:induction false} PrintedBodyIsReread(s: Summary, threadUrl: string, title: string)
    ensures SummaryFromIssue(title, BuildIssueBody(s, threadUrl)) == Reread(s, title)
  {
    SectionsAreReadings(s, threadUrl);
  }

  /** A section that is its own reads as its text. */
  lemma OwnSection(s: Summary, k: nat)
    requires k < |Headings| && IsOwn(s, k)
    ensures ReadsAs(ReadingOf(s, k), Contents(s)[k])
  {
    ContentsAreTrimmed(s);
    OwnReading(Headings, Contents(s), k);
  }

  lemma FirstSectionIsOwn(s: Summary)
    ensures IsOwn(s, 0)
  {
  }

  /** A section whose marker stands in an earlier field is read from there: whatever this field and the later ones
      say, the reading is the same. */
  lemma {:induction false} HeldSectionIgnoresItsField(s: Summary, other: Summary, k: nat)
    requires k < |Headings| && !IsOwn(s, k) && Contents(s)[..k] == Contents(other)[..k]
    ensures ReadingOf(s, k) == ReadingOf(other, k)
  {
    HeldReading(Headings, Contents(s), Contents(other), k);
  }

  // ----- which fields survive -----

  lemma TextOfSection(section: string, x: string)
    requires ReadsAs(section, FormatText(x))
    ensures section == x <==> CanonicalText(x) && !HasHeadingLine(x)
  {
    StripIsTrimmed(x);
    StripIsNoLonger(x);
    NoHeadingInPlaceholder();
    if section == x && Strip(x) != "" {
      assert |section| == |FormatText(x)|;
    }
  }

  lemma NoHeadingInPlaceholder()
    ensures !HasHeadingLine("未記入")
  {
  }

  lemma StripIsNoLonger(s: string)
    ensures |Strip(s)| <= |s|
  {
    var from, to := StripIsSlice(s);
  }

  /** When a text that starts with a heading line is lost, the title stands in for it. */
  ghost predicate GoalSurvives(goal: string, title: string) {
    CanonicalText(goal) && (!HasHeadingLine(goal) || (HeadingAt(goal, 0) && Strip(title) == goal))
  }

  lemma GoalOfSection(section: string, goal: string, title: string)
    requires ReadsAs(section, FormatText(goal))
    ensures (if section != "" then section else Strip(title)) == goal <==> GoalSurvives(goal, title)
  {
    StripIsTrimmed(goal);
    StripIsTrimmed(title);
    if section != "" {
      TextOfSection(section, goal);
      assert HeadingAt(goal, 0) && CanonicalText(goal) ==> HeadingAt(FormatText(goal), 0);
    } else {
      assert HeadingLineAt(FormatText(goal), 0);
    }
  }

  /** The background comes back exactly when it is non-empty, trimmed and has no heading line. */
  lemma BackgroundSurvivesExactlyWhen(s: Summary)
    ensures ReadingOf(s, 0) == s.background <==> CanonicalText(s.background) && !HasHeadingLine(s.background)
  {
    FirstSectionIsOwn(s);
    OwnSection(s, 0);
    ContentAt(Texts(s), Lists(s), FormatText, FormatList);
    TextOfSection(ReadingOf(s, 0), s.background);
  }

  lemma ContentAt(
    texts: seq<string>, lists: seq<seq<string>>, text: string -> string, list: seq<string> -> string)
    requires |texts| == 2 && |lists| == 6
    ensures ContentsBy(texts, lists, text, list)[0] == text(texts[0])
    ensures ContentsBy(texts, lists, text, list)[1] == text(texts[1])
    ensures forall k :: 0 <= k < 6 ==> ContentsBy(texts, lists, text, list)[k + 2] == list(lists[k])
  {
  }

  /** A goal whose marker stands in the background is what follows there; any other survives on its own terms. */
  ghost predicate GoalKept(s: Summary, title: string) {
    if IsOwn(s, 1) then GoalSurvives(s.goal, title) else GoalFrom(title, ReadingOf(s, 1)) == s.goal
  }

  lemma GoalKeptExactlyWhen(s: Summary, title: string)
    ensures GoalFrom(title, ReadingOf(s, 1)) == s.goal <==> GoalKept(s, title)
  {
    if IsOwn(s, 1) {
      OwnSection(s, 1);
      ContentAt(Texts(s), Lists(s), FormatText, FormatList);
      GoalOfSection(ReadingOf(s, 1), s.goal, title);
    }
  }

  /** How list k is read back; two of the lists fall back to the goal. */
  function ListFrom(s: Summary, title: string, k: nat): seq<string>
    requires k < 6
  {
    var items := ListOf(ReadingOf(s, k + 2));
    if k == 0 || k == 2 then OrGoal(items, GoalFrom(title, ReadingOf(s, 1))) else items
  }

  /** A list whose marker stands in an earlier field is what follows there; any other survives exactly when it is
      non-empty and its items are trimmed, non-empty and single-line. */
  ghost predicate ListKept(s: Summary, title: string, k: nat)
    requires k < 6
  {
    if IsOwn(s, k + 2) then CanonicalList(Lists(s)[k]) else ListFrom(s, title, k) == Lists(s)[k]
  }

  lemma ListKeptExactlyWhen(s: Summary, title: string, k: nat)
    requires k < 6
    ensures ListFrom(s, title, k) == Lists(s)[k] <==> ListKept(s, title, k)
  {
    if IsOwn(s, k + 2) {
      OwnSection(s, k + 2);
      ContentAt(Texts(s), Lists(s), FormatText, FormatList);
      ListOfSection(ReadingOf(s, k + 2), Lists(s)[k]);
    }
  }

  /** Each field survives. */
  ghost predicate Survives(s: Summary, title: string) {
    && CanonicalText(s.background) && !HasHeadingLine(s.background)
    && GoalKept(s, title)
    && forall k :: 0 <= k < 6 ==> ListKept(s, title, k)
  }

  lemma AssembledExactlyWhen(s: Summary, title: string, sections: seq<string>, listOf: string -> seq<string>)
    requires |sections| == 8
    ensures var goal := GoalFrom(title, sections[1]);
      Assemble(title, sections, listOf) == s <==>
        && sections[0] == s.background && goal == s.goal
        && OrGoal(listOf(sections[2]), goal) == s.inScope && listOf(sections[3]) == s.outOfScope
        && OrGoal(listOf(sections[4]), goal) == s.acceptanceCriteria && listOf(sections[5]) == s.constraints
        && listOf(sections[6]) == s.testFocus && listOf(sections[7]) == s.openQuestions
  {
  }

  lemma ReadingAt(s: Summary, k: nat)
    requires k < 8
    ensures Readings(s)[k] == ReadingOf(s, k)
  {
  }

  lemma RereadExactlyWhen(s: Summary, title: string)
    ensures Reread(s, title) == s <==>
      && ReadingOf(s, 0) == s.background && GoalFrom(title, ReadingOf(s, 1)) == s.goal
      && forall k :: 0 <= k < 6 ==> ListFrom(s, title, k) == Lists(s)[k]
  {
    AssembledExactlyWhen(s, title, Readings(s), ListOf);
    forall k | 0 <= k < 8 ensures Readings(s)[k] == ReadingOf(s, k) {
      ReadingAt(s, k);
    }
    SixLists(s, k requires 0 <= k < 6 => ListFrom(s, title, k));
  }

  lemma SixLists(s: Summary, read: nat --> seq<string>)
    requires forall k: nat :: k < 6 ==> read.requires(k)
    ensures (forall k: nat :: k < 6 ==> read(k) == Lists(s)[k]) <==>
      && read(0) == s.inScope && read(1) == s.outOfScope && read(2) == s.acceptanceCriteria
      && read(3) == s.constraints && read(4) == s.testFocus && read(5) == s.openQuestions
  {
  }

  /** Printing and parsing an issue body is the identity on a summary, for any summary, thread and title, if and
      only if each of its fields survives. */
  lemma {:induction false} SummaryRoundTripExactlyWhen(s: Summary, threadUrl: string, title: string)
    ensures SummaryFromIssue(title, BuildIssueBody(s, threadUrl)) == s <==> Survives(s, title)
  {
    PrintedBodyIsReread(s, threadUrl, title);
    RereadExactlyWhen(s, title);
    BackgroundSurvivesExactlyWhen(s);
    GoalKeptExactlyWhen(s, title);
    forall k | 0 <= k < 6 ensures ListFrom(s, title, k) == Lists(s)[k] <==> ListKept(s, title, k) {
      ListKeptExactlyWhen(s, title, k);
    }
  }

  // ----- what a blank field comes back as -----

  lemma StripOfSpaces(x: string)
    requires AllSpace(x)
    ensures Strip(x) == ""
  {
    LStripSpaces(x, "");
    assert x + "" == x;
  }

  lemma BlankText(section: string, x: string)
    requires AllSpace(x) && ReadsAs(section, FormatText(x))
    ensures section == "未記入"
  {
    StripOfSpaces(x);
    NoHeadingInPlaceholder();
  }

  ghost predicate AllBlank(xs: seq<string>) {
    forall i :: 0 <= i < |xs| ==> AllSpace(xs[i])
  }

  lemma {:induction false} NonBlankOfSpaces(xs: seq<string>)
    requires AllBlank(xs)
    ensures NonBlank(xs) == []
  {
    if xs != [] {
      StripOfSpaces(xs[0]);
      NonBlankOfSpaces(xs[1..]);
    }
  }

  lemma BlankList(section: string, xs: seq<string>)
    requires AllBlank(xs) && ReadsAs(section, FormatList(xs))
    ensures ListOf(section) == ["なし"]
  {
    NonBlankOfSpaces(xs);
    NonBlankOfClean(["なし"]);
    ListOfSection(section, ["なし"]);
  }

  lemma BlankListReading(s: Summary, title: string, k: nat)
    requires k < 6 && AllBlank(Lists(s)[k]) && IsOwn(s, k + 2)
    ensures ListFrom(s, title, k) == ["なし"]
  {
    OwnSection(s, k + 2);
    ContentAt(Texts(s), Lists(s), FormatText, FormatList);
    BlankList(ReadingOf(s, k + 2), Lists(s)[k]);
  }

  lemma AssembledLists(title: string, sections: seq<string>, listOf: string -> seq<string>, k: nat)
    requires |sections| == 8 && k < 6
    ensures Lists(Assemble(title, sections, listOf))[k]
         == if k == 0 || k == 2 then OrGoal(listOf(sections[k + 2]), GoalFrom(title, sections[1]))
            else listOf(sections[k + 2])
  {
  }

  lemma RereadLists(s: Summary, title: string, k: nat)
    requires k < 6
    ensures Lists(Reread(s, title))[k] == ListFrom(s, title, k)
  {
    AssembledLists(title, Readings(s), ListOf, k);
    ReadingAt(s, 1);
    ReadingAt(s, k + 2);
  }

  /** A blank background comes back as a placeholder, and so does every other blank field whose marker stands in no
      earlier one; no title and no goal takes its place. */
  lemma {:induction false} BlankFieldsReadAsPlaceholders(s: Summary, threadUrl: string, title: string)
    ensures var t := SummaryFromIssue(title, BuildIssueBody(s, threadUrl));
      && (AllSpace(s.background) ==> t.background == "未記入")
      && (AllSpace(s.goal) && IsOwn(s, 1) ==> t.goal == "未記入")
      && forall k :: 0 <= k < 6 && AllBlank(Lists(s)[k]) && IsOwn(s, k + 2) ==> Lists(t)[k] == ["なし"]
  {
    PrintedBodyIsReread(s, threadUrl, title);
    ContentAt(Texts(s), Lists(s), FormatText, FormatList);
    ReadingAt(s, 0);
    ReadingAt(s, 1);
    if AllSpace(s.background) {
      OwnSection(s, 0);
      BlankText(ReadingOf(s, 0), s.background);
    }
    if AllSpace(s.goal) && IsOwn(s, 1) {
      OwnSection(s, 1);
      BlankText(ReadingOf(s, 1), s.goal);
    }
    forall k | 0 <= k < 6 && AllBlank(Lists(s)[k]) && IsOwn(s, k + 2)
      ensures Lists(Reread(s, title))[k] == ["なし"]
    {
      BlankListReading(s, title, k);
      RereadLists(s, title, k);
    }
  }

  // ----- a marker in an earlier field: both outcomes occur -----

  lemma BackgroundContent(s: Summary)
    requires CanonicalText(s.background)
    ensures Contents(s)[0] == s.background
  {
    ContentAt(Texts(s), Lists(s), FormatText, FormatList);
    StripIsTrimmed(s.background);
  }

  lemma MatchStarts(s: string, pattern: string, i: nat)
    ensures MatchesAt(s, pattern, i) && pattern != "" ==> s[i] == pattern[0]
  {
    if MatchesAt(s, pattern, i) && pattern != "" {
      assert s[i..i + |pattern|][0] == s[i];
    }
  }

  lemma MarkerAtFour(marker: string, rest: string)
    requires marker != "" && marker[0] == '#'
    ensures AfterMarker("see " + marker + rest, marker) == Some(rest) && Contains("see " + marker + rest, marker)
  {
    var text := "see " + marker + rest;
    assert text[4..4 + |marker|] == marker;
    assert MatchesAt(text, marker, 4);
    forall i | 0 <= i < 4 ensures !MatchesAt(text, marker, i) {
      MatchStarts(text, marker, i);
    }
    FindIsFirst(text, marker, 0, 4);
    assert text[4 + |marker|..] == rest;
  }

  lemma BlankBefore(x: string)
    requires CanonicalText(x) && !HasHeadingLine(x)
    ensures Strip(UpToHeading(" " + x)) == x
  {
    var text := " " + x;
    forall i | 0 <= i <= |text| ensures !MatchesAt(text, "\n## ", i) {
      LineHeading(text, i);
      assert 0 < i < |text| ==> text[i] == x[i - 1];
      assert !HeadingLineAt(x, i);
    }
    NothingFound(text, "\n## ", 0);
    StripPadded(" ", x, "");
    assert " " + x + "" == text;
  }

  /** The background of the form "see ## <goal heading> G". */
  function PointingBackground(g: string): string {
    "see " + ("## " + Headings[1]) + (" " + g)
  }

  lemma PointingBackgroundIsCanonical(g: string)
    requires CanonicalText(g)
    ensures CanonicalText(PointingBackground(g))
  {
    var b := PointingBackground(g);
    assert b[0] == 's' && b[|b| - 1] == g[|g| - 1];
  }

  /** Such a background makes every goal read back as G: right for the goal G, wrong for every other. */
  lemma PointingBackgroundDictatesGoal(s: Summary, g: string, title: string)
    requires CanonicalText(g) && !HasHeadingLine(g) && s.background == PointingBackground(g)
    ensures !IsOwn(s, 1) && ReadingOf(s, 1) == g && (GoalKept(s, title) <==> s.goal == g)
  {
    var marker := "## " + Headings[1];
    PointingBackgroundIsCanonical(g);
    BackgroundContent(s);
    MarkerAtFour(marker, " " + g);
    assert Contents(s)[..1][0] == Contents(s)[0];
    BlankBefore(g);
  }

  // ----- issues written by hand -----

  lemma AbsentSection(body: string, heading: string)
    requires !Contains(body, "## " + heading)
    ensures SectionBody(body, heading) == "" && ListOf(SectionBody(body, heading)) == []
  {
    forall i | 0 <= i <= |body| ensures !MatchesAt(body, "## " + heading, i) {
    }
    NothingFound(body, "## " + heading, 0);
  }

  /** The sections with a marker in the body. */
  ghost predicate HasMarker(body: string, k: nat)
    requires k < |Headings|
  {
    Contains(body, "## " + Headings[k])
  }

  lemma UnmarkedIsEmpty(body: string, k: nat)
    requires k < |Headings|
    ensures Sections(body)[k] == SectionBody(body, Headings[k])
    ensures !HasMarker(body, k) ==> Sections(body)[k] == "" && ListOf(Sections(body)[k]) == []
  {
    if !HasMarker(body, k) {
      AbsentSection(body, Headings[k]);
    }
  }

  /** For any body: without its marker a section is empty, the title stands in for a missing goal, and the goal for
      missing in-scope items (2) and acceptance criteria (4), so that with a goal neither list is empty. */
  lemma GoalStandsIn(title: string, body: string)
    ensures var s := SummaryFromIssue(title, body);
      && (!HasMarker(body, 0) ==> s.background == "") && (!HasMarker(body, 1) ==> s.goal == Strip(title))
      && (!HasMarker(body, 2) ==> s.inScope == if s.goal == "" then [] else [s.goal])
      && (!HasMarker(body, 3) ==> s.outOfScope == [])
      && (!HasMarker(body, 4) ==> s.acceptanceCriteria == if s.goal == "" then [] else [s.goal])
      && (!HasMarker(body, 5) ==> s.constraints == []) && (!HasMarker(body, 6) ==> s.testFocus == [])
      && (!HasMarker(body, 7) ==> s.openQuestions == [])
      && (s.goal != "" ==> s.inScope != [] && s.acceptanceCriteria != [])
  {
    var sections := Sections(body);
    forall k | 0 <= k < 8 ensures !HasMarker(body, k) ==> sections[k] == "" && ListOf(sections[k]) == [] {
      UnmarkedIsEmpty(body, k);
    }
    AssembledWithGoal(title, sections, ListOf);
  }

  lemma AssembledWithGoal(title: string, sections: seq<string>, listOf: string -> seq<string>)
    requires |sections| == 8
    ensures var s := Assemble(title, sections, listOf);
      && s.background == sections[0] && s.goal == (if sections[1] != "" then sections[1] else Strip(title))
      && s.inScope == (if listOf(sections[2]) != [] then listOf(sections[2]) else if s.goal == "" then [] else [s.goal])
      && s.outOfScope == listOf(sections[3])
      && s.acceptanceCriteria == (if listOf(sections[4]) != [] then listOf(sections[4]) else if s.goal == "" then [] else [s.goal])
      && s.constraints == listOf(sections[5]) && s.testFocus == listOf(sections[6]) && s.openQuestions == listOf(sections[7])
  {
  }
}
