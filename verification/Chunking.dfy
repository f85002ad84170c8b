/**
 Cutting a document into overlapping chunks.

 Paragraphs are the unit, sentences the fallback, a hard cut the last resort. Lengths count UTF-16 code units, and
 the two separators are matched as their regular expressions match.
 */
module Chunking {
  import opened Seqs
  import opened Texts

  // ---- White space ----

  const NEWLINE: CodeUnit := 0x0A
  const TAB: CodeUnit := 0x09
  const SPACE: CodeUnit := 0x20

  predicate IsSpace(c: CodeUnit) {
    || 0x09 <= c <= 0x0D || c == SPACE || c == 0xA0 || c == 0x1680 || 0x2000 <= c <= 0x200A
    || c in {0x2028, 0x2029, 0x202F, 0x205F, 0x3000, 0xFEFF}
  }

  predicate IsVisible(c: CodeUnit) {
    !IsSpace(c)
  }

  /** The characters that are not white space, in order. */
  function Visible(s: Text): Text {
    Filter(s, IsVisible)
  }

  predicate Blank(s: Text) {
    forall i :: 0 <= i < |s| ==> IsSpace(s[i])
  }

  function TrimStart(s: Text): (r: Text)
    ensures |r| <= |s|
    ensures r == [] || (!IsSpace(r[0]) && r[|r| - 1] == s[|s| - 1])
    ensures r == [] <==> Blank(s)
  {
    if s == [] then [] else if IsSpace(s[0]) then TrimStart(s[1..]) else s
  }

  function TrimEnd(s: Text): (r: Text)
    ensures |r| <= |s|
    ensures r == [] || (!IsSpace(r[|r| - 1]) && r[0] == s[0])
    ensures r == [] <==> Blank(s)
  {
    if s == [] then [] else if IsSpace(s[|s| - 1]) then TrimEnd(s[..|s| - 1]) else s
  }

  function Trim(s: Text): (r: Text)
    ensures |r| <= |s| && (r == [] <==> Blank(s)) && (r == [] || Tidy(r))
  {
    TrimStart(TrimEnd(s))
  }

  /** Not empty, and no white space at either end. */
  predicate Tidy(s: Text) {
    s != [] && !IsSpace(s[0]) && !IsSpace(s[|s| - 1])
  }

  lemma TidyStays(s: Text)
    requires Tidy(s)
    ensures Trim(s) == s && !Blank(s)
  {
  }

  lemma VisibleAppend(a: Text, b: Text)
    ensures Visible(a + b) == Visible(a) + Visible(b)
  {
    FilterAppend(a, b, IsVisible);
  }

  lemma VisibleBlank(s: Text)
    requires Blank(s)
    ensures Visible(s) == []
  {
    FilterKeepsNone(s, IsVisible);
  }

  lemma {:induction false} VisibleTrimStart(s: Text)
    ensures Visible(TrimStart(s)) == Visible(s)
  {
    if s != [] && IsSpace(s[0]) {
      VisibleTrimStart(s[1..]);
    }
  }

  lemma {:induction false} VisibleTrimEnd(s: Text)
    ensures Visible(TrimEnd(s)) == Visible(s)
  {
    if s != [] && IsSpace(s[|s| - 1]) {
      var n := |s| - 1;
      VisibleTrimEnd(s[..n]);
      assert s == s[..n] + s[n..];
      VisibleAppend(s[..n], s[n..]);
      VisibleBlank(s[n..]);
    }
  }

  lemma VisibleTrim(s: Text)
    ensures Visible(Trim(s)) == Visible(s)
  {
    VisibleTrimEnd(s);
    VisibleTrimStart(TrimEnd(s));
  }

  // ---- Separators ----

  /** How many characters of one kind stand from i on. */
  function RunLength(s: Text, i: nat, p: CodeUnit -> bool): (n: nat)
    requires i <= |s|
    ensures i + n <= |s| && forall k :: i <= k < i + n ==> p(s[k])
    decreases |s| - i
  {
    if i < |s| && p(s[i]) then 1 + RunLength(s, i + 1, p) else 0
  }

  /** The length of a blank line at i: a newline, blanks, and newlines. Zero when there is none. */
  function BlankLine(s: Text, i: nat): (n: nat)
    requires i <= |s|
    ensures i + n <= |s| && Blank(s[i..i + n])
  {
    if i < |s| && s[i] == NEWLINE then
      var blanks := RunLength(s, i + 1, (c: CodeUnit) => c == SPACE || c == TAB);
      var newlines := RunLength(s, i + 1 + blanks, (c: CodeUnit) => c == NEWLINE);
      if newlines > 0 then
        assert forall k :: i <= k < i + 1 + blanks + newlines ==> IsSpace(s[k]);
        1 + blanks + newlines
      else 0
    else 0
  }

  /** A full stop, an exclamation mark or a question mark. */
  predicate EndsSentence(c: CodeUnit) {
    c == 0x2E || c == 0x21 || c == 0x3F
  }

  /** A capital letter A to Z, a digit, a straight or an opening curly quote, or an opening parenthesis. */
  predicate StartsSentence(c: CodeUnit) {
    0x41 <= c <= 0x5A || 0x30 <= c <= 0x39 || c == 0x22 || c == 0x201C || c == 0x28
  }

  /** The length of the white space between a sentence end and a sentence start. */
  function SentenceGap(s: Text, i: nat): (n: nat)
    requires i <= |s|
    ensures i + n <= |s| && Blank(s[i..i + n])
  {
    if 0 < i && EndsSentence(s[i - 1]) then
      var n := RunLength(s, i, IsSpace);
      if i + n < |s| && StartsSentence(s[i + n]) then n else 0
    else 0
  }

  /** Separators that lie within the text and are white space: their length at each position, or zero. */
  ghost predicate AreGaps(s: Text, gaps: seq<nat>) {
    |gaps| == |s| && forall k :: 0 <= k < |s| ==> k + gaps[k] <= |s| && Blank(s[k..k + gaps[k]])
  }

  function BlankLines(s: Text): (gaps: seq<nat>)
    ensures AreGaps(s, gaps)
  {
    seq(|s|, i requires 0 <= i < |s| => BlankLine(s, i))
  }

  function SentenceGaps(s: Text): (gaps: seq<nat>)
    ensures AreGaps(s, gaps)
  {
    seq(|s|, i requires 0 <= i < |s| => SentenceGap(s, i))
  }

  /** `split`: the text between separators, from `start`, scanning at i. */
  function CutAt(s: Text, start: nat, i: nat, gaps: seq<nat>): seq<Text>
    requires start <= i <= |s| && AreGaps(s, gaps)
    decreases |s| - i
  {
    if i == |s| then [s[start..]]
    else if gaps[i] > 0 then [s[start..i]] + CutAt(s, i + gaps[i], i + gaps[i], gaps)
    else CutAt(s, start, i + 1, gaps)
  }

  /** The parts, trimmed, without the empty ones. */
  function Tidied(parts: seq<Text>): (r: seq<Text>)
    ensures forall i :: 0 <= i < |r| ==> Tidy(r[i])
  {
    if parts == [] then []
    else if Trim(parts[0]) == [] then Tidied(parts[1..])
    else [Trim(parts[0])] + Tidied(parts[1..])
  }

  function Paragraphs(text: Text): seq<Text> {
    Tidied(CutAt(text, 0, 0, BlankLines(text)))
  }

  function Sentences(paragraph: Text): seq<Text> {
    Tidied(CutAt(paragraph, 0, 0, SentenceGaps(paragraph)))
  }

  /** The visible characters of a list of parts. */
  ghost function AllVisible(parts: seq<Text>): Text {
    if parts == [] then [] else Visible(parts[0]) + AllVisible(parts[1..])
  }

  lemma {:induction false} AllVisibleAppend(a: seq<Text>, b: seq<Text>)
    ensures AllVisible(a + b) == AllVisible(a) + AllVisible(b)
  {
    if a == [] {
      assert a + b == b;
    } else {
      assert (a + b)[1..] == a[1..] + b;
      AllVisibleAppend(a[1..], b);
    }
  }

  lemma VisibleAcrossGap(head: Text, gap: Text, tail: Text)
    requires Blank(gap)
    ensures Visible(head + (gap + tail)) == Visible(head) + Visible(tail)
  {
    VisibleAppend(head, gap + tail);
    VisibleAppend(gap, tail);
    VisibleBlank(gap);
  }

  lemma VisibleAtGap(s: Text, start: nat, i: nat, j: nat)
    requires start <= i <= j <= |s| && Blank(s[i..j])
    ensures Visible(s[start..]) == Visible(s[start..i]) + Visible(s[j..])
  {
    assert s[start..] == s[start..i] + (s[i..j] + s[j..]);
    VisibleAcrossGap(s[start..i], s[i..j], s[j..]);
  }

  lemma FirstVisible(s: Text, parts: seq<Text>)
    ensures AllVisible([s] + parts) == Visible(s) + AllVisible(parts)
  {
    assert ([s] + parts)[1..] == parts;
  }

  lemma {:induction false} CutLosesNothing(s: Text, start: nat, i: nat, gaps: seq<nat>)
    requires start <= i <= |s| && AreGaps(s, gaps)
    ensures AllVisible(CutAt(s, start, i, gaps)) == Visible(s[start..])
    decreases |s| - i
  {
    if i == |s| {
      OneVisible(s[start..]);
    } else if gaps[i] > 0 {
      CutLosesNothing(s, i + gaps[i], i + gaps[i], gaps);
      VisibleAtGap(s, start, i, i + gaps[i]);
      FirstVisible(s[start..i], CutAt(s, i + gaps[i], i + gaps[i], gaps));
    } else {
      CutLosesNothing(s, start, i + 1, gaps);
    }
  }

  lemma OneVisible(s: Text)
    ensures AllVisible([s]) == Visible(s)
  {
    assert AllVisible([s]) == Visible(s) + AllVisible([]);
  }

  lemma {:induction false} TidyingLosesNothing(parts: seq<Text>)
    ensures AllVisible(Tidied(parts)) == AllVisible(parts)
  {
    if parts != [] {
      TidyingLosesNothing(parts[1..]);
      VisibleTrim(parts[0]);
      if Trim(parts[0]) == [] {
        assert Visible([]) == [];
      } else {
        FirstVisible(Trim(parts[0]), Tidied(parts[1..]));
      }
    }
  }

  lemma ParagraphsLoseNothing(text: Text)
    ensures AllVisible(Paragraphs(text)) == Visible(text)
  {
    CutLosesNothing(text, 0, 0, BlankLines(text));
    TidyingLosesNothing(CutAt(text, 0, 0, BlankLines(text)));
    assert text[0..] == text;
  }

  lemma SentencesLoseNothing(paragraph: Text)
    ensures AllVisible(Sentences(paragraph)) == Visible(paragraph)
  {
    CutLosesNothing(paragraph, 0, 0, SentenceGaps(paragraph));
    TidyingLosesNothing(CutAt(paragraph, 0, 0, SentenceGaps(paragraph)));
    assert paragraph[0..] == paragraph;
  }

  // ---- Hard cuts ----

  /** `lastIndexOf(' ')`. */
  function LastSpace(s: Text): (at: int)
    ensures -1 <= at < |s|
  {
    if s == [] then -1 else if s[|s| - 1] == SPACE then |s| - 1 else LastSpace(s[..|s| - 1])
  }

  /** The last space in the window if it lies past the middle, and the window's end otherwise. */
  function CutPoint(rest: Text, limit: nat): (cut: nat)
    requires 1 <= limit < |rest|
    ensures 1 <= cut <= limit
  {
    var at := LastSpace(rest[..limit]);
    if 2 * at > limit then at else limit
  }

  function HardCuts(text: Text, limit: nat): seq<Text>
    requires limit >= 1
    decreases |text|
  {
    if |text| > limit then
      var cut := CutPoint(text, limit);
      [Trim(text[..cut])] + HardCuts(Trim(text[cut..]), limit)
    else if text == [] then [] else [text]
  }

  method HardCut(text: Text, limit: nat) returns (out: seq<Text>)
    requires limit >= 1 && text != []
    ensures out == HardCuts(text, limit)
  {
    if |text| <= limit {
      return [text];
    }
    out := [];
    var rest := text;
    while |rest| > limit
      invariant out + HardCuts(rest, limit) == HardCuts(text, limit)
      decreases |rest|
    {
      var cut := CutPoint(rest, limit);
      HardCutsStep(out, rest, limit);
      out := out + [Trim(rest[..cut])];
      rest := Trim(rest[cut..]);
    }
    if rest != [] {
      out := out + [rest];
    }
  }

  lemma HardCutsStep(out: seq<Text>, rest: Text, limit: nat)
    requires 1 <= limit < |rest|
    ensures var cut := CutPoint(rest, limit);
      out + HardCuts(rest, limit) == (out + [Trim(rest[..cut])]) + HardCuts(Trim(rest[cut..]), limit)
  {
  }

  /** Pieces no longer than the limit, each with something to show at both ends. */
  ghost predicate GoodPieces(pieces: seq<Text>, limit: nat) {
    forall i :: 0 <= i < |pieces| ==> Tidy(pieces[i]) && |pieces[i]| <= limit
  }

  lemma {:induction false} HardCutsAreGood(text: Text, limit: nat)
    requires limit >= 1 && Tidy(text)
    ensures GoodPieces(HardCuts(text, limit), limit) && AllVisible(HardCuts(text, limit)) == Visible(text)
    decreases |text|
  {
    if |text| > limit {
      var cut := CutPoint(text, limit);
      var head, tail := text[..cut], text[cut..];
      assert !IsSpace(head[0]) && !IsSpace(tail[|tail| - 1]);
      assert text == head + tail;
      VisibleAppend(head, tail);
      VisibleTrim(head);
      VisibleTrim(tail);
      HardCutsAreGood(Trim(tail), limit);
    } else {
      OneVisible(text);
    }
  }

  // ---- Pieces ----

  function Glue(current: Text, glue: Text, part: Text): Text {
    if current == [] then part else current + glue + part
  }

  /** What is left to push when the loop of `split` stands at these parts with this text in hand. */
  function Merge(parts: seq<Text>, current: Text, limit: nat): seq<Text> {
    if parts == [] then if current == [] then [] else [current]
    else
      var joined := Glue(current, [SPACE], parts[0]);
      if |joined| > limit && current != [] then [current] + Merge(parts[1..], parts[0], limit)
      else Merge(parts[1..], joined, limit)
  }

  function AllHardCuts(sentences: seq<Text>, limit: nat): seq<Text>
    requires limit >= 1
  {
    if sentences == [] then [] else HardCuts(sentences[0], limit) + AllHardCuts(sentences[1..], limit)
  }

  function SplitParagraph(paragraph: Text, limit: nat): seq<Text>
    requires limit >= 1
  {
    if |paragraph| <= limit then [paragraph] else Merge(AllHardCuts(Sentences(paragraph), limit), [], limit)
  }

  function PiecesFrom(paragraphs: seq<Text>, limit: nat): seq<Text>
    requires limit >= 1
  {
    if paragraphs == [] then [] else SplitParagraph(paragraphs[0], limit) + PiecesFrom(paragraphs[1..], limit)
  }

  function Pieces(text: Text, limit: nat): seq<Text>
    requires limit >= 1
  {
    PiecesFrom(Paragraphs(text), limit)
  }

  method Split(paragraph: Text, limit: nat) returns (out: seq<Text>)
    requires limit >= 1
    ensures out == SplitParagraph(paragraph, limit)
  {
    if |paragraph| <= limit {
      return [paragraph];
    }
    out := MergeSentences(Sentences(paragraph), limit);
  }

  /** The outer loop, over the sentences. */
  method MergeSentences(sentences: seq<Text>, limit: nat) returns (out: seq<Text>)
    requires limit >= 1 && forall i :: 0 <= i < |sentences| ==> sentences[i] != []
    ensures out == Merge(AllHardCuts(sentences, limit), [], limit)
  {
    out := [];
    var current := [];
    ghost var whole := Merge(AllHardCuts(sentences, limit), [], limit);
    assert sentences[0..] == sentences;
    for k := 0 to |sentences|
      invariant out + Merge(AllHardCuts(sentences[k..], limit), current, limit) == whole
    {
      var parts := HardCut(sentences[k], limit);
      ghost var later := AllHardCuts(sentences[k + 1..], limit);
      AllHardCutsNext(sentences, k, limit);
      out, current := MergeParts(parts, later, limit, out, current);
    }
    assert sentences[|sentences|..] == [];
    if current != [] {
      out := out + [current];
    }
  }

  lemma AllHardCutsNext(sentences: seq<Text>, k: nat, limit: nat)
    requires limit >= 1 && k < |sentences|
    ensures AllHardCuts(sentences[k..], limit) == HardCuts(sentences[k], limit) + AllHardCuts(sentences[k + 1..], limit)
  {
    assert sentences[k..][1..] == sentences[k + 1..];
  }

  /** The inner loop: adds the parts of one sentence to what is in hand. */
  method MergeParts(parts: seq<Text>, ghost later: seq<Text>, limit: nat, before: seq<Text>, held: Text)
    returns (out: seq<Text>, current: Text)
    ensures out + Merge(later, current, limit) == before + Merge(parts + later, held, limit)
  {
    out, current := before, held;
    for j := 0 to |parts|
      invariant out + Merge(parts[j..] + later, current, limit) == before + Merge(parts + later, held, limit)
    {
      var joined := Glue(current, [SPACE], parts[j]);
      MergeStep(parts[j..] + later, current, limit, out);
      assert (parts[j..] + later)[1..] == parts[j + 1..] + later;
      if |joined| > limit && current != [] {
        out := out + [current];
        current := parts[j];
      } else {
        current := joined;
      }
    }
    assert parts[|parts|..] + later == later;
  }

  lemma MergeStep(parts: seq<Text>, current: Text, limit: nat, out: seq<Text>)
    requires parts != []
    ensures var joined := Glue(current, [SPACE], parts[0]);
      out + Merge(parts, current, limit) ==
      if |joined| > limit && current != [] then (out + [current]) + Merge(parts[1..], parts[0], limit)
      else out + Merge(parts[1..], joined, limit)
  {
  }

  lemma {:induction false} MergeIsGood(parts: seq<Text>, current: Text, limit: nat)
    requires GoodPieces(parts, limit) && (current == [] || (Tidy(current) && |current| <= limit))
    ensures GoodPieces(Merge(parts, current, limit), limit)
    decreases |parts|
  {
    if parts != [] {
      var joined := Glue(current, [SPACE], parts[0]);
      if |joined| > limit && current != [] {
        MergeIsGood(parts[1..], parts[0], limit);
      } else {
        assert Tidy(joined);
        MergeIsGood(parts[1..], joined, limit);
      }
    }
  }

  lemma {:induction false} MergeLosesNothing(parts: seq<Text>, current: Text, limit: nat)
    ensures AllVisible(Merge(parts, current, limit)) == Visible(current) + AllVisible(parts)
    decreases |parts|
  {
    if parts == [] {
      OneVisible(current);
    } else {
      var joined := Glue(current, [SPACE], parts[0]);
      if |joined| > limit && current != [] {
        MergeLosesNothing(parts[1..], parts[0], limit);
        FirstVisible(current, Merge(parts[1..], parts[0], limit));
      } else {
        VisibleGlue(current, [SPACE], parts[0]);
        MergeLosesNothing(parts[1..], joined, limit);
      }
    }
  }

  lemma VisibleGlue(current: Text, glue: Text, part: Text)
    requires Blank(glue)
    ensures Visible(Glue(current, glue, part)) == Visible(current) + Visible(part)
  {
    if current != [] {
      assert current + glue + part == current + (glue + part);
      VisibleAcrossGap(current, glue, part);
    }
  }

  lemma {:induction false} AllHardCutsAreGood(sentences: seq<Text>, limit: nat)
    requires limit >= 1 && forall i :: 0 <= i < |sentences| ==> Tidy(sentences[i])
    ensures GoodPieces(AllHardCuts(sentences, limit), limit)
    ensures AllVisible(AllHardCuts(sentences, limit)) == AllVisible(sentences)
  {
    if sentences != [] {
      HardCutsAreGood(sentences[0], limit);
      AllHardCutsAreGood(sentences[1..], limit);
      AllVisibleAppend(HardCuts(sentences[0], limit), AllHardCuts(sentences[1..], limit));
    }
  }

  lemma SplitIsGood(paragraph: Text, limit: nat)
    requires limit >= 1 && Tidy(paragraph)
    ensures GoodPieces(SplitParagraph(paragraph, limit), limit)
    ensures AllVisible(SplitParagraph(paragraph, limit)) == Visible(paragraph)
  {
    if |paragraph| <= limit {
      OneVisible(paragraph);
    } else {
      SentencesLoseNothing(paragraph);
      AllHardCutsAreGood(Sentences(paragraph), limit);
      MergeIsGood(AllHardCuts(Sentences(paragraph), limit), [], limit);
      MergeLosesNothing(AllHardCuts(Sentences(paragraph), limit), [], limit);
    }
  }

  lemma {:induction false} PiecesFromAreGood(paragraphs: seq<Text>, limit: nat)
    requires limit >= 1 && forall i :: 0 <= i < |paragraphs| ==> Tidy(paragraphs[i])
    ensures GoodPieces(PiecesFrom(paragraphs, limit), limit)
    ensures AllVisible(PiecesFrom(paragraphs, limit)) == AllVisible(paragraphs)
  {
    if paragraphs != [] {
      SplitIsGood(paragraphs[0], limit);
      PiecesFromAreGood(paragraphs[1..], limit);
      AllVisibleAppend(SplitParagraph(paragraphs[0], limit), PiecesFrom(paragraphs[1..], limit));
    }
  }

  /** Cutting loses no visible character and keeps their order, and no piece is over the limit. */
  lemma PiecesLoseNothing(text: Text, limit: nat)
    requires limit >= 1
    ensures GoodPieces(Pieces(text, limit), limit) && AllVisible(Pieces(text, limit)) == Visible(text)
  {
    ParagraphsLoseNothing(text);
    PiecesFromAreGood(Paragraphs(text), limit);
  }

  // ---- Chunks ----

  /** `indexOf(' ')`, or the length when there is none. */
  function FirstSpace(s: Text): (at: nat)
    ensures at <= |s| && (at < |s| ==> s[at] == SPACE)
  {
    if s == [] || s[0] == SPACE then 0 else 1 + FirstSpace(s[1..])
  }

  function AfterFirstSpace(window: Text): (r: Text)
    ensures |r| <= |window|
  {
    var at := FirstSpace(window);
    if at == |window| then window else window[at + 1..]
  }

  /** The last characters, starting at a word boundary. */
  function Tail(text: Text, length: int): (r: Text)
    ensures |r| <= if length > 0 then length else 0
  {
    if length <= 0 then []
    else if |text| <= length then text
    else TrimStart(AfterFirstSpace(text[|text| - length..]))
  }

  function MaxChunkLength(target: int, overlap: int): int {
    target + overlap + 2
  }

  const BREAK: Text := [NEWLINE, NEWLINE]

  /** What is left to push when the loop of `chunkText` stands at these pieces with this text in hand. */
  function Chunks(pieces: seq<Text>, current: Text, target: nat, overlap: int): seq<Text> {
    if pieces == [] then if Blank(current) then [] else [Trim(current)]
    else
      var joined := Glue(current, BREAK, pieces[0]);
      if |joined| > target && !Blank(current) then
        [Trim(current)] + Chunks(pieces[1..], Glue(Tail(current, overlap), BREAK, pieces[0]), target, overlap)
      else Chunks(pieces[1..], joined, target, overlap)
  }

  method AllPieces(text: Text, target: nat) returns (pieces: seq<Text>)
    requires target >= 1
    ensures pieces == Pieces(text, target)
  {
    pieces := [];
    var paragraphs := Paragraphs(text);
    for k := 0 to |paragraphs|
      invariant pieces + PiecesFrom(paragraphs[k..], target) == Pieces(text, target)
    {
      var more := Split(paragraphs[k], target);
      assert paragraphs[k..][1..] == paragraphs[k + 1..];
      assert pieces + PiecesFrom(paragraphs[k..], target) == (pieces + more) + PiecesFrom(paragraphs[k + 1..], target);
      pieces := pieces + more;
    }
  }

  method ChunkText(text: Text, target: nat, overlap: int) returns (chunks: seq<Text>)
    requires target >= 1
    ensures chunks == Chunks(Pieces(text, target), [], target, overlap)
  {
    var pieces := AllPieces(text, target);
    chunks := [];
    var current := [];
    for k := 0 to |pieces|
      invariant chunks + Chunks(pieces[k..], current, target, overlap) == Chunks(pieces, [], target, overlap)
    {
      var joined := Glue(current, BREAK, pieces[k]);
      assert pieces[k..][1..] == pieces[k + 1..];
      ChunksStep(pieces[k..], current, target, overlap, chunks);
      if |joined| > target && Trim(current) != [] {
        chunks := chunks + [Trim(current)];
        current := Tail(current, overlap);
        current := Glue(current, BREAK, pieces[k]);
      } else {
        current := joined;
      }
    }
    if Trim(current) != [] {
      chunks := chunks + [Trim(current)];
    }
  }

  lemma ChunksStep(pieces: seq<Text>, current: Text, target: nat, overlap: int, out: seq<Text>)
    requires pieces != []
    ensures var joined := Glue(current, BREAK, pieces[0]);
      out + Chunks(pieces, current, target, overlap) ==
      if |joined| > target && !Blank(current) then
        (out + [Trim(current)]) + Chunks(pieces[1..], Glue(Tail(current, overlap), BREAK, pieces[0]), target, overlap)
      else out + Chunks(pieces[1..], joined, target, overlap)
  {
  }

  predicate EndsVisibly(s: Text) {
    s != [] && IsVisible(s[|s| - 1])
  }

  lemma AfterSpaceEndsVisibly(window: Text)
    requires EndsVisibly(window)
    ensures EndsVisibly(AfterFirstSpace(window))
  {
    var at := FirstSpace(window);
    if at < |window| {
      assert window[at] == SPACE && IsSpace(SPACE);
      assert at < |window| - 1;
    }
  }

  lemma TrimStartIsTidy(s: Text)
    requires EndsVisibly(s)
    ensures Tidy(TrimStart(s))
  {
    assert !Blank(s);
  }

  lemma WindowEndsVisibly(text: Text, length: nat)
    requires EndsVisibly(text) && 0 < length <= |text|
    ensures EndsVisibly(text[|text| - length..])
  {
    assert text[|text| - length..][length - 1] == text[|text| - 1];
  }

  lemma LongTailIsTidy(text: Text, length: nat)
    requires EndsVisibly(text) && 0 < length < |text|
    ensures Tidy(TrimStart(AfterFirstSpace(text[|text| - length..])))
  {
    WindowEndsVisibly(text, length);
    AfterSpaceEndsVisibly(text[|text| - length..]);
    TrimStartIsTidy(AfterFirstSpace(text[|text| - length..]));
  }

  lemma TailIsTidy(text: Text, length: int)
    requires Tidy(text)
    ensures Tail(text, length) == [] <==> length <= 0
    ensures Tail(text, length) == [] || Tidy(Tail(text, length))
  {
    if 0 < length < |text| {
      LongTailIsTidy(text, length);
    }
  }

  lemma GlueIsTidy(current: Text, part: Text)
    requires Tidy(part) && (current == [] || Tidy(current))
    ensures Tidy(Glue(current, BREAK, part)) && current <= Glue(current, BREAK, part)
    ensures |Glue(current, BREAK, part)| <= |current| + 2 + |part|
  {
  }

  ghost predicate Holds(chunk: Text, piece: Text) {
    exists i :: 0 <= i <= |chunk| && piece <= chunk[i..]
  }

  lemma GlueHolds(current: Text, part: Text, chunk: Text)
    requires Glue(current, BREAK, part) <= chunk
    ensures Holds(chunk, part)
  {
    var whole := Glue(current, BREAK, part);
    var i := |whole| - |part|;
    assert whole[i..] == part;
    assert chunk[i..][..|part|] == whole[i..];
    assert part <= chunk[i..];
  }

  /** No chunk is longer than promised. */
  lemma {:induction false} ChunksFit(pieces: seq<Text>, current: Text, target: nat, overlap: nat)
    requires GoodPieces(pieces, target) && (current == [] || Tidy(current)) && |current| <= MaxChunkLength(target, overlap)
    ensures forall i :: 0 <= i < |Chunks(pieces, current, target, overlap)| ==> |Chunks(pieces, current, target, overlap)[i]| <= MaxChunkLength(target, overlap)
    decreases |pieces|
  {
    if pieces != [] {
      var joined := Glue(current, BREAK, pieces[0]);
      GlueIsTidy(current, pieces[0]);
      if |joined| > target && !Blank(current) {
        TailIsTidy(current, overlap);
        GlueIsTidy(Tail(current, overlap), pieces[0]);
        ChunksFit(pieces[1..], Glue(Tail(current, overlap), BREAK, pieces[0]), target, overlap);
      } else {
        ChunksFit(pieces[1..], joined, target, overlap);
      }
    }
  }

  ghost predicate Overlap(chunks: seq<Text>, overlap: int) {
    forall i :: 0 <= i < |chunks| - 1 ==> Tail(chunks[i], overlap) <= chunks[i + 1]
  }

  /** What is in hand opens the next chunk, and every later chunk opens with the tail of the one before. */
  lemma {:induction false} ChunksOverlap(pieces: seq<Text>, current: Text, target: nat, overlap: int)
    requires GoodPieces(pieces, target) && (current == [] || Tidy(current))
    ensures var chunks := Chunks(pieces, current, target, overlap);
      && Overlap(chunks, overlap)
      && (current != [] ==> chunks != [] && current <= chunks[0])
    decreases |pieces|
  {
    if pieces == [] {
      if current != [] {
        TidyStays(current);
      }
    } else {
      var joined := Glue(current, BREAK, pieces[0]);
      GlueIsTidy(current, pieces[0]);
      if |joined| > target && !Blank(current) {
        TidyStays(current);
        TailIsTidy(current, overlap);
        var next := Glue(Tail(current, overlap), BREAK, pieces[0]);
        GlueIsTidy(Tail(current, overlap), pieces[0]);
        ChunksOverlap(pieces[1..], next, target, overlap);
        OverlapPrepend(current, Chunks(pieces[1..], next, target, overlap), overlap, next);
      } else {
        ChunksOverlap(pieces[1..], joined, target, overlap);
      }
    }
  }

  lemma OverlapPrepend(first: Text, rest: seq<Text>, overlap: int, next: Text)
    requires Overlap(rest, overlap) && rest != [] && next <= rest[0] && Tail(first, overlap) <= next
    ensures Overlap([first] + rest, overlap)
  {
    var chunks := [first] + rest;
    forall i | 0 <= i < |chunks| - 1
      ensures Tail(chunks[i], overlap) <= chunks[i + 1]
    {
      if i > 0 {
        assert Tail(rest[i - 1], overlap) <= rest[i - 1 + 1];
      }
    }
  }

  ghost predicate SomeChunkHolds(chunks: seq<Text>, piece: Text) {
    exists i :: 0 <= i < |chunks| && Holds(chunks[i], piece)
  }

  /** A piece is whole in at least one chunk. */
  lemma {:induction false} PiecesStayWhole(pieces: seq<Text>, current: Text, target: nat, overlap: int, k: nat)
    requires GoodPieces(pieces, target) && (current == [] || Tidy(current)) && k < |pieces|
    ensures SomeChunkHolds(Chunks(pieces, current, target, overlap), pieces[k])
    decreases |pieces|
  {
    var joined := Glue(current, BREAK, pieces[0]);
    GlueIsTidy(current, pieces[0]);
    var flush := |joined| > target && !Blank(current);
    if flush {
      TailIsTidy(current, overlap);
      GlueIsTidy(Tail(current, overlap), pieces[0]);
    }
    var before := if flush then Tail(current, overlap) else current;
    var next := Glue(before, BREAK, pieces[0]);
    var rest := Chunks(pieces[1..], next, target, overlap);
    if k == 0 {
      ChunksOverlap(pieces[1..], next, target, overlap);
      GlueHolds(before, pieces[0], rest[0]);
    } else {
      PiecesStayWhole(pieces[1..], next, target, overlap, k - 1);
    }
    var i :| 0 <= i < |rest| && Holds(rest[i], pieces[k]);
    var chunks := Chunks(pieces, current, target, overlap);
    assert Holds(chunks[if flush then i + 1 else i], pieces[k]);
  }

  /** Everything the chunker promises of its chunks, for any document. */
  lemma ChunkTextPromises(text: Text, target: nat, overlap: nat)
    requires target >= 1
    ensures var chunks := Chunks(Pieces(text, target), [], target, overlap);
      && (forall i :: 0 <= i < |chunks| ==> |chunks[i]| <= MaxChunkLength(target, overlap))
      && Overlap(chunks, overlap)
      && (forall k :: 0 <= k < |Pieces(text, target)| ==> SomeChunkHolds(chunks, Pieces(text, target)[k]))
      && AllVisible(Pieces(text, target)) == Visible(text)
  {
    var pieces := Pieces(text, target);
    PiecesLoseNothing(text, target);
    ChunksFit(pieces, [], target, overlap);
    ChunksOverlap(pieces, [], target, overlap);
    forall k | 0 <= k < |pieces|
      ensures SomeChunkHolds(Chunks(pieces, [], target, overlap), pieces[k])
    {
      PiecesStayWhole(pieces, [], target, overlap, k);
    }
  }
}
