/** The parts of Python's `str` the models need: whitespace, stripping, searching and line splitting. */
module Text {
  /** Characters for which Python's `str.isspace` holds. */
  predicate IsSpace(c: char) {
    || '\U{0009}' <= c <= '\U{000D}'
    || '\U{001C}' <= c <= '\U{0020}'
    || c == '\U{0085}' || c == '\U{00A0}' || c == '\U{1680}'
    || '\U{2000}' <= c <= '\U{200A}'
    || c == '\U{2028}' || c == '\U{2029}' || c == '\U{202F}' || c == '\U{205F}' || c == '\U{3000}'
  }

  predicate AllSpace(s: string) {
    forall i :: 0 <= i < |s| ==> IsSpace(s[i])
  }

  /** `s.strip()` changes nothing. */
  predicate Trimmed(s: string) {
    s == "" || (!IsSpace(s[0]) && !IsSpace(s[|s| - 1]))
  }

  function LStrip(s: string): string {
    if s != "" && IsSpace(s[0]) then LStrip(s[1..]) else s
  }

  function RStrip(s: string): string {
    if s != "" && IsSpace(s[|s| - 1]) then RStrip(s[..|s| - 1]) else s
  }

  function Strip(s: string): string {
    RStrip(LStrip(s))
  }

  lemma {:induction false} LStripFacts(s: string)
    ensures |LStrip(s)| <= |s| && s[|s| - |LStrip(s)|..] == LStrip(s) && AllSpace(s[..|s| - |LStrip(s)|])
    ensures LStrip(s) != "" ==> !IsSpace(LStrip(s)[0])
  {
    if s != "" && IsSpace(s[0]) {
      LStripFacts(s[1..]);
      var r := LStrip(s[1..]);
      assert s[..|s| - |r|] == [s[0]] + s[1..][..|s| - 1 - |r|];
    }
  }

  lemma {:induction false} RStripFacts(s: string)
    ensures RStrip(s) <= s && AllSpace(s[|RStrip(s)|..])
    ensures RStrip(s) != "" ==> !IsSpace(RStrip(s)[|RStrip(s)| - 1])
  {
    if s != "" && IsSpace(s[|s| - 1]) {
      RStripFacts(s[..|s| - 1]);
      var r := RStrip(s[..|s| - 1]);
      assert s[|r|..] == s[..|s| - 1][|r|..] + [s[|s| - 1]];
    }
  }

  lemma StripIsTrimmed(s: string)
    ensures Trimmed(Strip(s))
    ensures Trimmed(s) <==> Strip(s) == s
  {
    LStripFacts(s);
    RStripFacts(LStrip(s));
  }

  lemma {:induction false} LStripSpaces(spaces: string, s: string)
    requires AllSpace(spaces) && (s != "" ==> !IsSpace(s[0]))
    ensures LStrip(spaces + s) == s
  {
    if spaces == "" {
      assert spaces + s == s;
    } else {
      assert (spaces + s)[1..] == spaces[1..] + s;
      LStripSpaces(spaces[1..], s);
    }
  }

  lemma {:induction false} RStripSpaces(s: string, spaces: string)
    requires AllSpace(spaces) && (s != "" ==> !IsSpace(s[|s| - 1]))
    ensures RStrip(s + spaces) == s
    decreases |spaces|
  {
    if spaces == "" {
      assert s + spaces == s;
    } else {
      assert (s + spaces)[..|s + spaces| - 1] == s + spaces[..|spaces| - 1];
      RStripSpaces(s, spaces[..|spaces| - 1]);
    }
  }

  /** Surrounding whitespace is exactly what `strip` removes around a trimmed text. */
  lemma StripPadded(before: string, s: string, after: string)
    requires AllSpace(before) && AllSpace(after) && Trimmed(s) && s != ""
    ensures Strip(before + s + after) == s
  {
    assert before + s + after == before + (s + after);
    LStripSpaces(before, s + after);
    RStripSpaces(s, after);
  }

  predicate MatchesAt(s: string, pattern: string, i: int) {
    0 <= i && i + |pattern| <= |s| && s[i..i + |pattern|] == pattern
  }

  /** `s.find(pattern, start)`. */
  function FindFrom(s: string, pattern: string, start: nat): int
    requires start <= |s| + 1
    decreases |s| + 1 - start
  {
    if start > |s| then -1
    else if MatchesAt(s, pattern, start) then start
    else FindFrom(s, pattern, start + 1)
  }

  lemma {:induction false} FindIsFirst(s: string, pattern: string, start: nat, at: nat)
    requires start <= at && MatchesAt(s, pattern, at)
    requires forall i :: start <= i < at ==> !MatchesAt(s, pattern, i)
    ensures FindFrom(s, pattern, start) == at
    decreases at - start
  {
    if start < at {
      FindIsFirst(s, pattern, start + 1, at);
    }
  }

  predicate Contains(s: string, pattern: string) {
    exists i :: 0 <= i <= |s| && MatchesAt(s, pattern, i)
  }

  /** Line boundaries of Python's `str.splitlines`. */
  predicate IsLineBreak(c: char) {
    || '\U{000A}' <= c <= '\U{000D}'
    || '\U{001C}' <= c <= '\U{001E}'
    || c == '\U{0085}' || c == '\U{2028}' || c == '\U{2029}'
  }

  predicate SingleLine(s: string) {
    forall i :: 0 <= i < |s| ==> !IsLineBreak(s[i])
  }

  function LineEnd(s: string): (n: nat)
    ensures n <= |s|
  {
    if s == "" || IsLineBreak(s[0]) then 0 else LineEnd(s[1..]) + 1
  }

  lemma {:induction false} LineEndFacts(s: string)
    ensures SingleLine(s[..LineEnd(s)]) && (LineEnd(s) < |s| ==> IsLineBreak(s[LineEnd(s)]))
  {
    if s != "" && !IsLineBreak(s[0]) {
      LineEndFacts(s[1..]);
      assert s[..LineEnd(s)] == [s[0]] + s[1..][..LineEnd(s[1..])];
    }
  }

  function SplitLines(s: string): seq<string>
    decreases |s|
  {
    if s == "" then []
    else
      var n := LineEnd(s);
      if n == |s| then [s]
      else
        var skip := if s[n] == '\r' && n + 1 < |s| && s[n + 1] == '\n' then 2 else 1;
        [s[..n]] + SplitLines(s[n + skip..])
  }

  lemma {:induction false} SplitLinesAreSingle(s: string)
    ensures forall i :: 0 <= i < |SplitLines(s)| ==> SingleLine(SplitLines(s)[i])
    decreases |s|
  {
    if s != "" {
      var n := LineEnd(s);
      LineEndFacts(s);
      if n == |s| {
        assert s[..n] == s;
      } else {
        var skip := if s[n] == '\r' && n + 1 < |s| && s[n + 1] == '\n' then 2 else 1;
        SplitLinesAreSingle(s[n + skip..]);
      }
    }
  }

  /** `[str(x).strip() for x in items if str(x).strip()]`. */
  function NonBlank(items: seq<string>): seq<string> {
    if items == [] then []
    else if Strip(items[0]) == "" then NonBlank(items[1..])
    else [Strip(items[0])] + NonBlank(items[1..])
  }

  lemma {:induction false} NonBlankAreTrimmed(items: seq<string>)
    ensures forall i :: 0 <= i < |NonBlank(items)| ==> NonBlank(items)[i] != "" && Trimmed(NonBlank(items)[i])
  {
    if items != [] {
      StripIsTrimmed(items[0]);
      NonBlankAreTrimmed(items[1..]);
    }
  }

  lemma {:induction false} NonBlankOfClean(items: seq<string>)
    requires forall i :: 0 <= i < |items| ==> items[i] != "" && Trimmed(items[i])
    ensures NonBlank(items) == items
  {
    if items != [] {
      StripIsTrimmed(items[0]);
      NonBlankOfClean(items[1..]);
    }
  }

  /** Stripping only removes characters at the two ends. */
  lemma StripIsSlice(s: string) returns (from: nat, to: nat)
    ensures from <= to <= |s| && Strip(s) == s[from..to]
  {
    var left := LStrip(s);
    LStripFacts(s);
    RStripFacts(left);
    from, to := |s| - |left|, |s| - |left| + |RStrip(left)|;
    assert RStrip(left) == left[..|RStrip(left)|];
  }

  lemma {:induction false} NonBlankAppend(items: seq<string>, item: string)
    ensures NonBlank(items + [item]) == if Strip(item) == "" then NonBlank(items) else NonBlank(items) + [Strip(item)]
  {
    if items == [] {
      assert items + [item] == [item] && [item][1..] == [];
    } else {
      assert (items + [item])[1..] == items[1..] + [item];
      NonBlankAppend(items[1..], item);
    }
  }
}
