/** What is read back from a body of headed sections (`_issue_section_body` of app/discord_adapter.py): for any
    headings and any texts, each section as a function of the texts alone. */
module IssueSections {
  import opened Basics
  import opened Text
  import opened IssueText

  /** The characters "## " stand at position i. */
  predicate HeadingAt(s: string, i: int) {
    0 <= i && i + 3 <= |s| && s[i] == '#' && s[i + 1] == '#' && s[i + 2] == ' '
  }

  /** A line starting with "## " begins at position p. */
  predicate HeadingLineAt(text: string, p: int) {
    HeadingAt(text, p) && (p == 0 || text[p - 1] == '\n')
  }

  ghost predicate HasHeadingLine(text: string) {
    exists p :: HeadingLineAt(text, p)
  }

  /** A heading text without '#' or a line end. */
  predicate PlainHeading(h: string) {
    forall i :: 0 <= i < |h| ==> h[i] != '#' && h[i] != '\n'
  }

  /** The two headings differ at some position both have. */
  ghost predicate Apart(h: string, g: string) {
    exists p :: 0 <= p < |h| && p < |g| && h[p] != g[p]
  }

  lemma MarkerStartsWithHeading(s: string, heading: string, i: int)
    requires MatchesAt(s, "## " + heading, i)
    ensures HeadingAt(s, i)
    ensures forall p :: 0 <= p < |heading| ==> s[i + 3 + p] == heading[p]
  {
    var marker := "## " + heading;
    var found := s[i..i + |marker|];
    assert found[0] == '#' && found[1] == '#' && found[2] == ' ';
    forall p | 0 <= p < |heading| ensures s[i + 3 + p] == heading[p] {
      assert found[3 + p] == marker[3 + p] == heading[p];
    }
  }

  lemma {:induction false} FirstMatch(s: string, pattern: string, start: nat, at: nat) returns (n: nat)
    requires start <= at && MatchesAt(s, pattern, at)
    ensures n == FindFrom(s, pattern, start) && start <= n <= at && MatchesAt(s, pattern, n)
    ensures forall i :: start <= i < n ==> !MatchesAt(s, pattern, i)
    decreases at - start
  {
    if MatchesAt(s, pattern, start) {
      n := start;
    } else {
      n := FirstMatch(s, pattern, start + 1, at);
    }
  }

  lemma ShiftMatch(a: string, b: string, pattern: string, i: int)
    requires |a| <= i
    ensures MatchesAt(a + b, pattern, i) <==> MatchesAt(b, pattern, i - |a|)
  {
    if i + |pattern| <= |a + b| {
      assert (a + b)[i..i + |pattern|] == b[i - |a|..i - |a| + |pattern|];
    }
  }

  lemma MatchInPrefix(a: string, r: string, pattern: string, i: nat)
    requires i + |pattern| <= |a|
    ensures MatchesAt(a + r, pattern, i) <==> MatchesAt(a, pattern, i)
  {
    assert (a + r)[i..i + |pattern|] == a[i..i + |pattern|];
  }

  lemma OtherHeading(heading: string, other: string, rest: string)
    requires Apart(heading, other)
    ensures !MatchesAt("## " + other + rest, "## " + heading, 0)
  {
    var s := "## " + other + rest;
    var p :| 0 <= p < |heading| && p < |other| && heading[p] != other[p];
    assert s[3 + p] == other[p];
    if MatchesAt(s, "## " + heading, 0) {
      MarkerStartsWithHeading(s, heading, 0);
    }
  }

  /** The headings can be told apart: none contains '#' or a line end, and none is a prefix of another. */
  ghost predicate Separable(headings: seq<string>) {
    && (forall j :: 0 <= j < |headings| ==> PlainHeading(headings[j]))
    && (forall j, k :: 0 <= j < k < |headings| ==> Apart(headings[k], headings[j]))
  }

  lemma TailIsSeparable(headings: seq<string>)
    requires headings != [] && Separable(headings)
    ensures Separable(headings[1..])
  {
    var rest := headings[1..];
    forall j, k | 0 <= j < k < |rest| ensures Apart(rest[k], rest[j]) {
      assert Apart(headings[k + 1], headings[j + 1]);
    }
  }

  // ----- what follows the first marker -----

  /** The first text that holds the marker; their number if none does. */
  function FirstHolder(texts: seq<string>, marker: string): (h: nat)
    ensures h <= |texts|
  {
    if texts == [] || Contains(texts[0], marker) then 0 else 1 + FirstHolder(texts[1..], marker)
  }

  /** What stands after the marker of section k: the rest of the earliest text that holds it, else its own text. */
  function Remainder(headings: seq<string>, contents: seq<string>, k: nat): string
    requires |headings| == |contents| && k < |headings|
  {
    var marker, h := "## " + headings[k], FirstHolder(contents[..k], "## " + headings[k]);
    if h == k then "\n" + contents[k]
    else match AfterMarker(contents[h], marker)
      case Some(after) => after
      case None => ""
  }

  /** Section k as it is read back, from the texts alone. */
  function Reading(headings: seq<string>, contents: seq<string>, k: nat): string
    requires |headings| == |contents| && k < |headings|
  {
    Strip(UpToHeading(Remainder(headings, contents, k)))
  }

  /** The texts with something behind them: two line ends and the next heading. */
  function Followed(text: string, rest: string): string {
    text + "\n\n" + rest
  }

  /** The fixed characters of a section. */
  lemma SectionChars(first: string, content: string, rest: string)
    ensures var s, n := SectionText(first, content) + rest, |first| + 4;
      && |s| >= n + |content| + 2
      && s[1] == '#' && s[2] == ' ' && s[n - 1] == '\n' && s[n + |content|] == '\n' && s[n + |content| + 1] == '\n'
      && (forall p :: 0 <= p < |first| ==> s[3 + p] == first[p])
      && s[n..n + |content|] == content
  {
    var s := SectionText(first, content) + rest;
    assert s == "## " + first + "\n" + content + ("\n\n" + rest);
  }

  lemma MatchChars(s: string, marker: string, i: nat)
    requires MatchesAt(s, marker, i)
    ensures forall q :: i <= q < i + |marker| ==> s[q] == marker[q - i]
  {
    forall q | i <= q < i + |marker| ensures s[q] == marker[q - i] {
      assert s[i..i + |marker|][q - i] == s[q];
    }
  }

  lemma PlainMarker(heading: string)
    requires PlainHeading(heading)
    ensures forall q :: 0 <= q < |"## " + heading| ==> ("## " + heading)[q] != '\n'
  {
  }

  /** A match of a one-line marker cannot reach over a line end. */
  lemma MatchStopsAtLineEnd(s: string, marker: string, i: nat, e: nat)
    requires MatchesAt(s, marker, i) && forall q :: 0 <= q < |marker| ==> marker[q] != '\n'
    requires i <= e < |s| && s[e] == '\n'
    ensures i + |marker| <= e
  {
    MatchChars(s, marker, i);
  }

  lemma MatchInSlice(s: string, marker: string, i: nat, from: nat, to: nat)
    requires MatchesAt(s, marker, i) && from <= i && i + |marker| <= to <= |s|
    ensures MatchesAt(s[from..to], marker, i - from)
  {
    SliceOfSlice(s, from, to, i, i + |marker|);
  }

  lemma SliceOfSlice(s: string, from: nat, to: nat, i: nat, j: nat)
    requires from <= i <= j <= to <= |s|
    ensures s[from..to][i - from..j - from] == s[i..j]
  {
    forall q | 0 <= q < j - i ensures s[from..to][i - from..j - from][q] == s[i..j][q] {
      assert s[from..to][i - from + q] == s[i + q];
    }
  }

  lemma MarkerNotInHeading(first: string, content: string, rest: string, heading: string, i: nat)
    requires PlainHeading(first)
    requires 0 < i < |SectionText(first, content)| && MatchesAt(SectionText(first, content) + rest, "## " + heading, i)
    ensures |first| + 4 <= i < |first| + 4 + |content|
  {
    SectionChars(first, content, rest);
    MarkerStartsWithHeading(SectionText(first, content) + rest, heading, i);
  }

  /** A marker within a section after its start lies within its text. */
  lemma MarkerInFirst(first: string, content: string, rest: string, heading: string, i: nat)
    requires PlainHeading(first) && PlainHeading(heading)
    requires 0 < i < |SectionText(first, content)| && MatchesAt(SectionText(first, content) + rest, "## " + heading, i)
    ensures i >= |first| + 4 && MatchesAt(content, "## " + heading, i - |first| - 4)
  {
    var s, n := SectionText(first, content) + rest, |first| + 4;
    MarkerNotInHeading(first, content, rest, heading, i);
    SectionChars(first, content, rest);
    PlainMarker(heading);
    MatchStopsAtLineEnd(s, "## " + heading, i, n + |content|);
    MatchInSlice(s, "## " + heading, i, n, n + |content|);
  }

  lemma NoMarkerAtStart(first: string, content: string, rest: string, heading: string)
    requires Apart(heading, first)
    ensures !MatchesAt(SectionText(first, content) + rest, "## " + heading, 0)
  {
    assert SectionText(first, content) + rest == "## " + first + ("\n" + content + "\n\n" + rest);
    OtherHeading(heading, first, "\n" + content + "\n\n" + rest);
  }

  /** The section's own marker comes first when nothing stands before it. */
  lemma OwnMarker(heading: string, content: string, rest: string)
    ensures AfterMarker(SectionText(heading, content) + rest, "## " + heading) == Some(Followed("\n" + content, rest))
  {
    var marker, body := "## " + heading, SectionText(heading, content) + rest;
    assert body == marker + Followed("\n" + content, rest);
    assert body[0..0 + |marker|] == marker;
    assert MatchesAt(body, marker, 0);
    assert body[|marker|..] == Followed("\n" + content, rest);
  }

  /** The first match in a text, if it contains the pattern at all. */
  lemma FirstInText(content: string, pattern: string) returns (q: nat)
    requires Contains(content, pattern)
    ensures q == FindFrom(content, pattern, 0) && MatchesAt(content, pattern, q)
    ensures forall i :: 0 <= i < q ==> !MatchesAt(content, pattern, i)
  {
    var at :| 0 <= at <= |content| && MatchesAt(content, pattern, at);
    q := FirstMatch(content, pattern, 0, at);
  }

  lemma AroundMatch(a: string, content: string, b: string, marker: string, q: nat)
    requires MatchesAt(content, marker, q)
    ensures var s := a + content + b;
      MatchesAt(s, marker, |a| + q) && s[|a| + q + |marker|..] == content[q + |marker|..] + b
  {
    var s := a + content + b;
    assert s[|a| + q..|a| + q + |marker|] == content[q..q + |marker|];
  }

  lemma HeldAt(first: string, content: string, rest: string, marker: string, q: nat)
    requires MatchesAt(content, marker, q)
    ensures var body, at := SectionText(first, content) + rest, |first| + 4 + q;
      && MatchesAt(body, marker, at) && at + |marker| <= |body|
      && body[at + |marker|..] == Followed(content[q + |marker|..], rest)
  {
    var a := "## " + first + "\n";
    assert SectionText(first, content) + rest == a + content + ("\n\n" + rest);
    AroundMatch(a, content, "\n\n" + rest, marker, q);
    assert content[q + |marker|..] + ("\n\n" + rest) == Followed(content[q + |marker|..], rest);
  }

  lemma NothingBeforeHeld(first: string, content: string, rest: string, heading: string, q: nat, i: nat)
    requires PlainHeading(first) && PlainHeading(heading) && Apart(heading, first)
    requires forall j :: 0 <= j < q ==> !MatchesAt(content, "## " + heading, j)
    requires i < |first| + 4 + q && i < |SectionText(first, content)|
    ensures !MatchesAt(SectionText(first, content) + rest, "## " + heading, i)
  {
    if i == 0 {
      NoMarkerAtStart(first, content, rest, heading);
    } else if MatchesAt(SectionText(first, content) + rest, "## " + heading, i) {
      MarkerInFirst(first, content, rest, heading, i);
    }
  }

  lemma FoundAt(body: string, marker: string, at: nat, after: string)
    requires MatchesAt(body, marker, at) && forall i :: 0 <= i < at ==> !MatchesAt(body, marker, i)
    requires body[at + |marker|..] == after
    ensures AfterMarker(body, marker) == Some(after)
  {
    FindIsFirst(body, marker, 0, at);
  }

  /** A marker held by the first text is found there. */
  lemma HeldMarker(first: string, content: string, rest: string, heading: string)
    requires PlainHeading(first) && PlainHeading(heading) && Apart(heading, first)
    requires Contains(content, "## " + heading)
    ensures AfterMarker(content, "## " + heading).Some?
    ensures AfterMarker(SectionText(first, content) + rest, "## " + heading)
         == Some(Followed(AfterMarker(content, "## " + heading).value, rest))
  {
    var marker := "## " + heading;
    var q := FirstInText(content, marker);
    FoundAt(content, marker, q, content[q + |marker|..]);
    HeldAt(first, content, rest, marker, q);
    forall i | 0 <= i < |first| + 4 + q ensures !MatchesAt(SectionText(first, content) + rest, marker, i) {
      NothingBeforeHeld(first, content, rest, heading, q, i);
    }
    FoundAt(SectionText(first, content) + rest, marker, |first| + 4 + q, Followed(content[q + |marker|..], rest));
  }

  /** A prefix without a match does not change what follows the first match. */
  lemma SkipPrefix(a: string, r: string, marker: string, at: nat)
    requires forall i :: 0 <= i < |a| ==> !MatchesAt(a + r, marker, i)
    requires MatchesAt(r, marker, at) && forall i :: 0 <= i < at ==> !MatchesAt(r, marker, i)
    ensures AfterMarker(a + r, marker) == AfterMarker(r, marker)
  {
    forall i | 0 <= i < |a| + at ensures !MatchesAt(a + r, marker, i) {
      if i >= |a| {
        ShiftMatch(a, r, marker, i);
      }
    }
    ShiftMatch(a, r, marker, |a| + at);
    FindIsFirst(a + r, marker, 0, |a| + at);
    FindIsFirst(r, marker, 0, at);
    assert (a + r)[|a| + at + |marker|..] == r[at + |marker|..];
  }

  lemma FoundIsMatch(s: string, pattern: string)
    requires AfterMarker(s, pattern).Some?
    ensures var q := FindFrom(s, pattern, 0);
      q >= 0 && MatchesAt(s, pattern, q) && forall i :: 0 <= i < q ==> !MatchesAt(s, pattern, i)
  {
    FoundFrom(s, pattern, 0);
  }

  lemma {:induction false} FoundFrom(s: string, pattern: string, start: nat)
    requires start <= |s| + 1 && FindFrom(s, pattern, start) >= 0
    ensures var q := FindFrom(s, pattern, start);
      q >= start && MatchesAt(s, pattern, q) && forall i :: start <= i < q ==> !MatchesAt(s, pattern, i)
    decreases |s| + 1 - start
  {
    if start <= |s| && !MatchesAt(s, pattern, start) {
      FoundFrom(s, pattern, start + 1);
    }
  }

  /** A section that does not hold the marker is passed over. */
  lemma PassedOver(first: string, content: string, rest: string, heading: string)
    requires PlainHeading(first) && PlainHeading(heading) && Apart(heading, first)
    requires !Contains(content, "## " + heading) && AfterMarker(rest, "## " + heading).Some?
    ensures AfterMarker(SectionText(first, content) + rest, "## " + heading) == AfterMarker(rest, "## " + heading)
  {
    var a, marker := SectionText(first, content), "## " + heading;
    forall i | 0 <= i < |a| ensures !MatchesAt(a + rest, marker, i) {
      if i == 0 {
        NoMarkerAtStart(first, content, rest, heading);
      } else if MatchesAt(a + rest, marker, i) {
        MarkerInFirst(first, content, rest, heading, i);
      }
    }
    FoundIsMatch(rest, marker);
    SkipPrefix(a, rest, marker, FindFrom(rest, marker, 0));
  }

  lemma HolderOfTail(contents: seq<string>, marker: string, k: nat)
    requires 0 < k <= |contents| && !Contains(contents[0], marker)
    ensures FirstHolder(contents[..k], marker) == 1 + FirstHolder(contents[1..][..k - 1], marker)
  {
    assert contents[..k][1..] == contents[1..][..k - 1];
  }

  lemma RemainderOfTail(headings: seq<string>, contents: seq<string>, k: nat)
    requires |headings| == |contents| && 0 < k < |headings| && !Contains(contents[0], "## " + headings[k])
    ensures Remainder(headings, contents, k) == Remainder(headings[1..], contents[1..], k - 1)
  {
    var marker := "## " + headings[k];
    HolderOfTail(contents, marker, k);
    var h := FirstHolder(contents[1..][..k - 1], marker);
    assert headings[1..][k - 1] == headings[k] && contents[1..][h] == contents[h + 1];
  }

  /** What follows the first marker of section k in a printed body. */
  lemma {:induction false} MarkerIsFound(headings: seq<string>, contents: seq<string>, tail: string, k: nat) returns (rest: string)
    requires |headings| == |contents| && k < |headings| && HeadingAt(tail, 0) && Separable(headings)
    ensures HeadingAt(rest, 0)
    ensures AfterMarker(Render(headings, contents, tail), "## " + headings[k])
         == Some(Followed(Remainder(headings, contents, k), rest))
  {
    var later := Render(headings[1..], contents[1..], tail);
    RestStartsWithHeading(headings[1..], contents[1..], tail);
    if k == 0 {
      rest := later;
      OwnMarker(headings[0], contents[0], later);
    } else if Contains(contents[0], "## " + headings[k]) {
      rest := later;
      HeldMarker(headings[0], contents[0], later, headings[k]);
      assert contents[..k][0] == contents[0];
    } else {
      TailIsSeparable(headings);
      rest := MarkerIsFound(headings[1..], contents[1..], tail, k - 1);
      RemainderOfTail(headings, contents, k);
      PassedOver(headings[0], contents[0], later, headings[k]);
    }
  }

  lemma RestStartsWithHeading(headings: seq<string>, contents: seq<string>, tail: string)
    requires |headings| == |contents| && HeadingAt(tail, 0)
    ensures HeadingAt(Render(headings, contents, tail), 0)
  {
    if headings != [] {
      assert SectionText(headings[0], contents[0])[..3] == "## ";
    }
  }

  // ----- where a section is cut -----

  /** What follows the marker of a section. */
  function After(content: string, rest: string): string {
    "\n" + content + "\n\n" + rest
  }

  predicate CanonicalText(x: string) {
    x != "" && Trimmed(x)
  }

  lemma LineHeading(s: string, i: nat)
    ensures MatchesAt(s, "\n## ", i) <==> HeadingAt(s, i + 1) && s[i] == '\n'
  {
    if i + 4 <= |s| {
      assert s[i..i + 4] == [s[i], s[i + 1], s[i + 2], s[i + 3]];
    }
  }

  lemma HeadingLineInAfter(content: string, rest: string, i: nat)
    requires i <= |content|
    ensures MatchesAt(After(content, rest), "\n## ", i) <==> HeadingLineAt(content, i)
  {
    var s := After(content, rest);
    LineHeading(s, i);
    assert forall q :: 0 <= q < |content| ==> s[1 + q] == content[q];
    assert s[|content| + 1] == '\n';
  }

  /** The two line ends that close a text. */
  lemma ClosingOfAfter(content: string, rest: string)
    requires HeadingAt(rest, 0)
    ensures MatchesAt(After(content, rest), "\n## ", |content| + 2)
    ensures !MatchesAt(After(content, rest), "\n## ", |content| + 1)
  {
    var s := After(content, rest);
    var last := |content| + 2;
    assert s[last] == '\n' && forall q :: 0 <= q < 3 ==> s[last + 1 + q] == rest[q];
    LineHeading(s, last);
    LineHeading(s, last - 1);
  }

  /** The cut comes at the first heading line of the text or, without one, after its two closing line ends. */
  lemma CutPosition(content: string, rest: string) returns (n: nat)
    requires HeadingAt(rest, 0)
    ensures n == FindFrom(After(content, rest), "\n## ", 0)
    ensures if HasHeadingLine(content) then n < |content| && HeadingLineAt(content, n) else n == |content| + 2
    ensures forall i :: 0 <= i < n ==> !HeadingLineAt(content, i)
  {
    ClosingOfAfter(content, rest);
    n := FirstMatch(After(content, rest), "\n## ", 0, |content| + 2);
    forall i | 0 <= i <= |content|
      ensures MatchesAt(After(content, rest), "\n## ", i) <==> HeadingLineAt(content, i)
    {
      HeadingLineInAfter(content, rest, i);
    }
  }

  /** What is read back of a text: a prefix of it, all of it exactly when it has no heading line, nothing of it
      exactly when it starts with one, and otherwise at least its first line. */
  ghost predicate ReadsAs(section: string, content: string) {
    && section <= content
    && (section == content <==> !HasHeadingLine(content))
    && (section == "" <==> HeadingAt(content, 0))
    && (section != "" ==> forall i :: 0 <= i < |content| && '\n' !in content[..i + 1] && !IsSpace(content[i]) ==> i < |section|)
  }

  lemma StripAfterNewline(text: string)
    requires text != "" && !IsSpace(text[0])
    ensures Strip("\n" + text) == RStrip(text)
  {
    LStripSpaces("\n", text);
  }

  lemma WholeTextIsRead(content: string)
    requires content != "" && Trimmed(content)
    ensures Strip("\n" + content + "\n") == content
  {
    StripPadded("\n", content, "\n");
  }

  lemma StandsIn(text: string, i: nat, n: nat)
    ensures i < n <= |text| ==> text[i] in text[..n]
  {
    if i < n <= |text| {
      assert text[..n][i] == text[i];
    }
  }

  lemma CutTextIsRead(content: string, n: nat)
    requires content != "" && Trimmed(content) && 0 < n < |content| && content[n - 1] == '\n'
    ensures var section := Strip("\n" + content[..n - 1]);
      && section <= content && 0 < |section| < |content|
      && forall i :: 0 <= i < |content| && '\n' !in content[..i + 1] && !IsSpace(content[i]) ==> i < |section|
  {
    var kept := content[..n - 1];
    StripAfterNewline(kept);
    RStripFacts(kept);
    forall i | 0 <= i < |content| && '\n' !in content[..i + 1] && !IsSpace(content[i]) ensures i < |RStrip(kept)| {
      StandsIn(content, n - 1, i + 1);
      assert kept[i] == content[i];
    }
    assert '\n' !in content[..1];
  }

  lemma TextReadsAs(content: string, rest: string)
    requires content != "" && Trimmed(content) && HeadingAt(rest, 0)
    ensures ReadsAs(Strip(UpToHeading(After(content, rest))), content)
  {
    var s := After(content, rest);
    var n := CutPosition(content, rest);
    if !HasHeadingLine(content) {
      assert s[..n] == "\n" + content + "\n";
      WholeTextIsRead(content);
      assert !HeadingLineAt(content, 0);
    } else if n == 0 {
      assert s[..0] == "";
    } else {
      assert s[..n] == "\n" + content[..n - 1];
      CutTextIsRead(content, n);
      assert !HeadingLineAt(content, 0);
    }
  }

  lemma NoHeadingAcross(text: string, rest: string, i: nat)
    requires i <= |text| && i + 4 > |text|
    ensures !MatchesAt(Followed(text, rest), "\n## ", i)
  {
    var s := Followed(text, rest);
    assert s[|text|] == '\n' && s[|text| + 1] == '\n';
    LineHeading(s, i);
  }

  lemma ClosingOfFollowed(text: string, rest: string)
    requires HeadingAt(rest, 0)
    ensures MatchesAt(Followed(text, rest), "\n## ", |text| + 1)
  {
    var s := Followed(text, rest);
    assert s[|text| + 1] == '\n' && forall q :: 0 <= q < 3 ==> s[|text| + 2 + q] == rest[q];
    LineHeading(s, |text| + 1);
  }

  lemma SameMatches(text: string, rest: string, i: nat)
    requires i <= |text|
    ensures MatchesAt(Followed(text, rest), "\n## ", i) <==> MatchesAt(text, "\n## ", i)
  {
    if i + 4 <= |text| {
      assert Followed(text, rest) == text + ("\n\n" + rest);
      MatchInPrefix(text, "\n\n" + rest, "\n## ", i);
    } else {
      NoHeadingAcross(text, rest, i);
    }
  }

  /** Up to the next heading line only the text counts, not what follows it. */
  lemma CutOfFollowed(text: string, rest: string)
    requires HeadingAt(rest, 0)
    ensures UpToHeading(Followed(text, rest)) == UpToHeading(text)
         || UpToHeading(Followed(text, rest)) == text + "\n" == UpToHeading(text) + "\n"
  {
    var s := Followed(text, rest);
    ClosingOfFollowed(text, rest);
    var n := FirstMatch(s, "\n## ", 0, |text| + 1);
    forall i | 0 <= i <= |text| ensures MatchesAt(s, "\n## ", i) <==> MatchesAt(text, "\n## ", i) {
      SameMatches(text, rest, i);
    }
    if n <= |text| {
      FindIsFirst(text, "\n## ", 0, n);
      assert s[..n] == text[..n];
    } else {
      NothingFound(text, "\n## ", 0);
      assert s[..n] == text + "\n";
    }
  }

  lemma {:induction false} NothingFound(s: string, pattern: string, start: nat)
    requires start <= |s| + 1 && forall i :: start <= i <= |s| ==> !MatchesAt(s, pattern, i)
    ensures FindFrom(s, pattern, start) == -1
    decreases |s| + 1 - start
  {
    if start <= |s| {
      NothingFound(s, pattern, start + 1);
    }
  }

  lemma {:induction false} LStripAppend(s: string, t: string)
    requires LStrip(s) != ""
    ensures LStrip(s + t) == LStrip(s) + t
  {
    if IsSpace(s[0]) {
      assert (s + t)[1..] == s[1..] + t;
      LStripAppend(s[1..], t);
    }
  }

  lemma StripLineEnd(s: string)
    ensures Strip(s + "\n") == Strip(s)
  {
    var left := LStrip(s);
    if left == "" {
      LStripFacts(s);
      assert AllSpace(s + "\n");
      LStripSpaces(s + "\n", "");
      assert s + "\n" + "" == s + "\n";
    } else {
      LStripAppend(s, "\n");
      assert (left + "\n")[..|left|] == left;
    }
  }

  lemma StrippedCut(text: string, rest: string)
    requires HeadingAt(rest, 0)
    ensures Strip(UpToHeading(Followed(text, rest))) == Strip(UpToHeading(text))
  {
    CutOfFollowed(text, rest);
    StripLineEnd(UpToHeading(text));
  }

  lemma SectionAfter(body: string, heading: string, after: string)
    requires AfterMarker(body, "## " + heading) == Some(after)
    ensures SectionBody(body, heading) == Strip(UpToHeading(after))
  {
  }

  /** Every section of every printed body: what is read back of it is its reading, a function of the texts alone. */
  lemma {:induction false} SectionIsItsReading(headings: seq<string>, contents: seq<string>, tail: string, k: nat)
    requires |headings| == |contents| && k < |headings| && HeadingAt(tail, 0) && Separable(headings)
    ensures SectionBody(Render(headings, contents, tail), headings[k]) == Reading(headings, contents, k)
  {
    var rest := MarkerIsFound(headings, contents, tail, k);
    var text := Remainder(headings, contents, k);
    SectionAfter(Render(headings, contents, tail), headings[k], Followed(text, rest));
    StrippedCut(text, rest);
  }

  /** No earlier text holds the section's marker. */
  predicate OwnText(headings: seq<string>, contents: seq<string>, k: nat)
    requires |headings| == |contents| && k < |headings|
  {
    FirstHolder(contents[..k], "## " + headings[k]) == k
  }

  lemma {:induction false} NoHolderExactlyWhen(texts: seq<string>, marker: string)
    ensures FirstHolder(texts, marker) == |texts| <==> forall i :: 0 <= i < |texts| ==> !Contains(texts[i], marker)
  {
    if texts != [] {
      NoHolderExactlyWhen(texts[1..], marker);
      if FirstHolder(texts, marker) == |texts| {
        forall i | 0 <= i < |texts| ensures !Contains(texts[i], marker) {
          assert i > 0 ==> texts[i] == texts[1..][i - 1];
        }
      }
    }
  }

  /** The reading of a section whose marker no earlier text holds. */
  lemma OwnReading(headings: seq<string>, contents: seq<string>, k: nat)
    requires |headings| == |contents| && k < |headings| && OwnText(headings, contents, k)
    requires CanonicalText(contents[k])
    ensures ReadsAs(Reading(headings, contents, k), contents[k])
  {
    var next := "## ";
    assert HeadingAt(next, 0);
    TextReadsAs(contents[k], next);
    assert After(contents[k], next) == Followed("\n" + contents[k], next);
    StrippedCut("\n" + contents[k], next);
  }

  /** A section whose marker an earlier text holds is lost: its reading depends on the earlier texts only. */
  lemma HeldReading(headings: seq<string>, contents: seq<string>, others: seq<string>, k: nat)
    requires |headings| == |contents| == |others| && k < |headings|
    requires contents[..k] == others[..k] && !OwnText(headings, contents, k)
    ensures Reading(headings, contents, k) == Reading(headings, others, k)
  {
    var h := FirstHolder(contents[..k], "## " + headings[k]);
    assert contents[h] == contents[..k][h] == others[..k][h] == others[h];
  }
}
