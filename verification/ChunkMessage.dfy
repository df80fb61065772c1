/** `chunk_message` of app/chat_inputs.py. */
module ChunkMessage {
  import opened Text

  /** `s.rfind("\n", 0, end)`. */
  function LastNewline(s: string, end: nat): (i: int)
    requires end <= |s|
    ensures -1 <= i < end && (i >= 0 ==> s[i] == '\n')
    ensures forall k :: i < k < end ==> s[k] != '\n'
  {
    if end == 0 then -1 else if s[end - 1] == '\n' then end - 1 else LastNewline(s, end - 1)
  }

  /** `s.lstrip("\n")`. */
  function DropNewlines(s: string): (r: string)
    ensures |r| <= |s|
  {
    if s != "" && s[0] == '\n' then DropNewlines(s[1..]) else s
  }

  ghost predicate OnlyNewlines(s: string) {
    forall i :: 0 <= i < |s| ==> s[i] == '\n'
  }

  lemma {:induction false} DropNewlinesFacts(s: string)
    ensures s[|s| - |DropNewlines(s)|..] == DropNewlines(s) && AllSpace(s[..|s| - |DropNewlines(s)|])
    ensures OnlyNewlines(s[..|s| - |DropNewlines(s)|])
    ensures DropNewlines(s) == "" || DropNewlines(s)[0] != '\n'
  {
    if s != "" && s[0] == '\n' {
      DropNewlinesFacts(s[1..]);
      var r := DropNewlines(s[1..]);
      assert s[..|s| - |r|] == [s[0]] + s[1..][..|s| - 1 - |r|];
    }
  }

  /** Chunks and the text between them, put back together. */
  ghost function Weave(chunks: seq<string>, gaps: seq<string>): string
    requires |chunks| == |gaps|
  {
    if chunks == [] then ""
    else
      var n := |chunks| - 1;
      Weave(chunks[..n], gaps[..n]) + chunks[n] + gaps[n]
  }

  function Concat(chunks: seq<string>): string {
    if chunks == [] then "" else Concat(chunks[..|chunks| - 1]) + chunks[|chunks| - 1]
  }

  function NonSpace(s: string): string {
    if s == "" then ""
    else if IsSpace(s[|s| - 1]) then NonSpace(s[..|s| - 1])
    else NonSpace(s[..|s| - 1]) + [s[|s| - 1]]
  }

  lemma {:induction false} NonSpaceConcat(a: string, b: string)
    ensures NonSpace(a + b) == NonSpace(a) + NonSpace(b)
    decreases |b|
  {
    if b == "" {
      assert a + b == a;
    } else {
      assert (a + b)[..|a + b| - 1] == a + b[..|b| - 1];
      NonSpaceConcat(a, b[..|b| - 1]);
    }
  }

  lemma {:induction false} NonSpaceOfSpaces(s: string)
    requires AllSpace(s)
    ensures NonSpace(s) == ""
  {
    if s != "" {
      NonSpaceOfSpaces(s[..|s| - 1]);
    }
  }

  /** Whitespace gaps hide no text: the chunks carry every non-whitespace character, in order. */
  lemma {:induction false} WeaveConservesText(chunks: seq<string>, gaps: seq<string>)
    requires |chunks| == |gaps| && forall i :: 0 <= i < |gaps| ==> AllSpace(gaps[i])
    ensures NonSpace(Concat(chunks)) == NonSpace(Weave(chunks, gaps))
  {
    if chunks != [] {
      var n := |chunks| - 1;
      WeaveConservesText(chunks[..n], gaps[..n]);
      NonSpaceConcat(Concat(chunks[..n]), chunks[n]);
      NonSpaceConcat(Weave(chunks[..n], gaps[..n]) + chunks[n], gaps[n]);
      NonSpaceConcat(Weave(chunks[..n], gaps[..n]), chunks[n]);
      NonSpaceOfSpaces(gaps[n]);
    }
  }

  lemma WeaveExtend(chunks: seq<string>, gaps: seq<string>, chunk: string, gap: string)
    requires |chunks| == |gaps|
    ensures Weave(chunks + [chunk], gaps + [gap]) == Weave(chunks, gaps) + chunk + gap
  {
    assert (chunks + [chunk])[..|chunks|] == chunks && (gaps + [gap])[..|gaps|] == gaps;
  }

  /** What one iteration drops: the stripped end of the chunk and the newlines before the rest. */
  ghost function Gap(head: string, tail: string): string {
    RStripFacts(head);
    head[|RStrip(head)|..] + tail[..|tail| - |DropNewlines(tail)|]
  }

  lemma GapIsBlank(head: string, tail: string)
    ensures AllSpace(Gap(head, tail))
  {
    RStripFacts(head);
    DropNewlinesFacts(tail);
  }

  lemma GapSplits(head: string, tail: string)
    ensures head + tail == RStrip(head) + Gap(head, tail) + DropNewlines(tail)
  {
    RStripFacts(head);
    DropNewlinesFacts(tail);
    SplitsAround(head, tail, RStrip(head), DropNewlines(tail));
  }

  lemma SplitsAround(head: string, tail: string, chunk: string, rest: string)
    requires chunk <= head && |rest| <= |tail| && tail[|tail| - |rest|..] == rest
    ensures head + tail == chunk + (head[|chunk|..] + tail[..|tail| - |rest|]) + rest
  {
    assert head == chunk + head[|chunk|..] && tail == tail[..|tail| - |rest|] + rest;
  }

  lemma Reassociate(a: string, b: string, c: string, d: string)
    ensures a + b + c + d == a + (b + c + d)
  {
  }

  /** The cut is at the last line end among the first `maxLength` characters that is not the very first character, or at
      the limit if there is none; the chunk is what stands before it without trailing whitespace, and the text goes on
      after the line ends. */
  ghost predicate CutsAt(s: string, chunk: string, rest: string, maxLength: nat, n: nat) {
    && 1 <= n <= maxLength < |s|
    && (n < maxLength ==> s[n] == '\n' && forall k :: n < k < maxLength ==> s[k] != '\n')
    && (n == maxLength ==> forall k :: 1 <= k < maxLength ==> s[k] != '\n')
    && Keeps(s[..n], chunk) && GoesOn(s[n..], rest)
  }

  /** All but the trailing whitespace. */
  ghost predicate Keeps(head: string, chunk: string) {
    chunk <= head && AllSpace(head[|chunk|..]) && (chunk != "" ==> !IsSpace(chunk[|chunk| - 1]))
  }

  /** All but the leading line ends. */
  ghost predicate GoesOn(tail: string, rest: string) {
    && |rest| <= |tail| && tail[|tail| - |rest|..] == rest && OnlyNewlines(tail[..|tail| - |rest|])
    && (rest != "" ==> rest[0] != '\n')
  }

  ghost predicate CutsOff(s: string, chunk: string, rest: string, maxLength: nat) {
    exists n :: CutsAt(s, chunk, rest, maxLength, n)
  }

  /** The texts still to be sent: the content, then what each cut leaves, until one fits; that one is the last chunk
      unless it is empty. */
  ghost predicate IsChunking(content: string, chunks: seq<string>, rests: seq<string>, maxLength: nat) {
    && |rests| >= 1 && rests[0] == content && |chunks| >= |rests| - 1
    && (forall i :: 0 <= i < |rests| - 1 ==> CutsOff(rests[i], chunks[i], rests[i + 1], maxLength))
    && var last := rests[|rests| - 1];
       |last| <= maxLength && chunks[|rests| - 1..] == if last == "" then [] else [last]
  }

  lemma StripKeeps(head: string)
    ensures Keeps(head, RStrip(head))
  {
    RStripFacts(head);
  }

  lemma DropGoesOn(tail: string)
    ensures GoesOn(tail, DropNewlines(tail))
  {
    DropNewlinesFacts(tail);
  }

  /** One iteration. */
  method CutChunk(remaining: string, maxLength: nat) returns (chunk: string, rest: string, ghost gap: string)
    requires 1 <= maxLength < |remaining|
    ensures |chunk| <= maxLength && |rest| < |remaining| && AllSpace(gap)
    ensures remaining == chunk + gap + rest
    ensures CutsOff(remaining, chunk, rest, maxLength)
  {
    var splitAt := LastNewline(remaining, maxLength);
    if splitAt <= 0 {
      splitAt := maxLength;
    }
    var head, tail := remaining[..splitAt], remaining[splitAt..];
    assert remaining == head + tail;
    GapSplits(head, tail);
    GapIsBlank(head, tail);
    StripKeeps(head);
    DropGoesOn(tail);
    chunk, rest, gap := RStrip(head), DropNewlines(tail), Gap(head, tail);
    assert CutsAt(remaining, chunk, rest, maxLength, splitAt);
  }

  /** The state of the loop: every text but the last one has been cut, and the last one is still to be sent. */
  ghost predicate CutSoFar(content: string, chunks: seq<string>, gaps: seq<string>, rests: seq<string>, maxLength: nat) {
    && |gaps| == |chunks| && |rests| == |chunks| + 1 && rests[0] == content
    && (forall i :: 0 <= i < |chunks| ==> CutsOff(rests[i], chunks[i], rests[i + 1], maxLength))
    && Fits(chunks, gaps, maxLength)
    && Weave(chunks, gaps) + rests[|chunks|] == content
  }

  /** Every chunk fits, and what is between chunks is whitespace. */
  ghost predicate Fits(chunks: seq<string>, gaps: seq<string>, maxLength: nat) {
    && (forall i :: 0 <= i < |chunks| ==> |chunks[i]| <= maxLength)
    && (forall i :: 0 <= i < |gaps| ==> AllSpace(gaps[i]))
  }

  lemma FitsStep(chunks: seq<string>, gaps: seq<string>, chunk: string, gap: string, maxLength: nat)
    requires Fits(chunks, gaps, maxLength) && |chunk| <= maxLength && AllSpace(gap)
    ensures Fits(chunks + [chunk], gaps + [gap], maxLength)
  {
  }

  lemma CutStep(
    content: string, chunks: seq<string>, gaps: seq<string>, rests: seq<string>, maxLength: nat,
    chunk: string, gap: string, rest: string)
    requires CutSoFar(content, chunks, gaps, rests, maxLength)
    requires rests[|chunks|] == chunk + gap + rest && CutsOff(rests[|chunks|], chunk, rest, maxLength)
    requires |chunk| <= maxLength && AllSpace(gap)
    ensures CutSoFar(content, chunks + [chunk], gaps + [gap], rests + [rest], maxLength)
  {
    var moreChunks, moreRests := chunks + [chunk], rests + [rest];
    forall i | 0 <= i < |moreChunks| ensures CutsOff(moreRests[i], moreChunks[i], moreRests[i + 1], maxLength) {
      if i < |chunks| {
        assert moreRests[i] == rests[i] && moreChunks[i] == chunks[i] && moreRests[i + 1] == rests[i + 1];
      }
    }
    FitsStep(chunks, gaps, chunk, gap, maxLength);
    WeaveExtend(chunks, gaps, chunk, gap);
    Reassociate(Weave(chunks, gaps), chunk, gap, rest);
  }

  /** The last text, when there is something left of it, is the last chunk. */
  lemma CutEnd(content: string, chunks: seq<string>, gaps: seq<string>, rests: seq<string>, maxLength: nat)
    requires CutSoFar(content, chunks, gaps, rests, maxLength) && |rests[|chunks|]| <= maxLength
    ensures var last := rests[|chunks|];
      var all, between := chunks + (if last == "" then [] else [last]), gaps + (if last == "" then [] else [""]);
      && IsChunking(content, all, rests, maxLength) && Fits(all, between, maxLength)
      && |between| == |all| && Weave(all, between) == content
  {
    var last := rests[|chunks|];
    if last != "" {
      FitsStep(chunks, gaps, last, "", maxLength);
      WeaveExtend(chunks, gaps, last, "");
    } else {
      assert chunks + [] == chunks && gaps + [] == gaps;
    }
  }

  /** A short content is its only chunk and a longer one is cut as stated. Every chunk fits, and the content is the
      chunks in order with only whitespace between them, so every non-whitespace character is conserved. */
  method ChunkMessage(content: string, maxLength: nat)
    returns (chunks: seq<string>, ghost gaps: seq<string>, ghost rests: seq<string>)
    requires maxLength >= 1
    ensures |content| <= maxLength ==> chunks == [content]
    ensures |content| > maxLength ==> IsChunking(content, chunks, rests, maxLength)
    ensures |gaps| == |chunks| >= 1 && Fits(chunks, gaps, maxLength)
    ensures Weave(chunks, gaps) == content
    ensures NonSpace(Concat(chunks)) == NonSpace(content)
  {
    chunks, gaps, rests := [], [], [content];
    if |content| <= maxLength {
      chunks, gaps := [content], [""];
      WeaveExtend([], [], content, "");
      WeaveConservesText(chunks, gaps);
      return;
    }
    var remaining := content;
    while |remaining| > maxLength
      invariant CutSoFar(content, chunks, gaps, rests, maxLength) && rests[|chunks|] == remaining
      invariant chunks == [] ==> remaining == content
      decreases |remaining|
    {
      var chunk, rest;
      ghost var gap;
      chunk, rest, gap := CutChunk(remaining, maxLength);
      CutStep(content, chunks, gaps, rests, maxLength, chunk, gap, rest);
      chunks, gaps, rests := chunks + [chunk], gaps + [gap], rests + [rest];
      remaining := rest;
    }
    CutEnd(content, chunks, gaps, rests, maxLength);
    if remaining != "" {
      chunks, gaps := chunks + [remaining], gaps + [""];
    } else {
      assert chunks + [] == chunks && gaps + [] == gaps;
    }
    WeaveConservesText(chunks, gaps);
  }
}
