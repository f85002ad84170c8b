/**
 What the chunker's steps are, told on the text itself: where it is cut into paragraphs and sentences, where a sentence
 too long is cut, and how pieces are packed into chunks.
 */
module ChunkShape {
  import opened Options
  import opened Seqs
  import opened Texts
  import opened Chunking

  // ---- Separators ----

  /** A blank line of n units at i: a newline, then spaces and tabs, then all the newlines that follow. */
  ghost predicate BreakAt(s: Text, i: nat, n: nat) {
    && i + n <= |s| && (i + n < |s| ==> s[i + n] != 0x0A)
    && exists b: nat :: BreakOf(s, i, b, n)
  }

  ghost predicate BreakOf(s: Text, i: nat, b: nat, n: nat) {
    && 1 + b < n && i + n <= |s| && s[i] == 0x0A
    && (forall k :: i + 1 <= k < i + 1 + b ==> s[k] == 0x20 || s[k] == 0x09)
    && (forall k :: i + 1 + b <= k < i + n ==> s[k] == 0x0A)
  }

  /** White space of n units at i, after a full stop, exclamation or question mark and before what begins a sentence. */
  ghost predicate GapAt(s: Text, i: nat, n: nat) {
    && 0 < i && 0 < n && i + n < |s| && s[i - 1] in {0x2E, 0x21, 0x3F}
    && (forall k :: i <= k < i + n ==> IsSpace(s[k]))
    && (0x41 <= s[i + n] <= 0x5A || 0x30 <= s[i + n] <= 0x39 || s[i + n] in {0x22, 0x201C, 0x28})
  }

  lemma {:induction false} RunIsWhole(s: Text, i: nat, p: CodeUnit -> bool, n: nat)
    requires i + n <= |s| && (forall k :: i <= k < i + n ==> p(s[k])) && (i + n < |s| ==> !p(s[i + n]))
    ensures RunLength(s, i, p) == n
    decreases n
  {
    if n > 0 {
      RunIsWhole(s, i + 1, p, n - 1);
    }
  }

  lemma {:induction false} RunStops(s: Text, i: nat, p: CodeUnit -> bool)
    requires i <= |s|
    ensures var n := RunLength(s, i, p); i + n < |s| ==> !p(s[i + n])
    decreases |s| - i
  {
    if i < |s| && p(s[i]) {
      RunStops(s, i + 1, p);
    }
  }

  lemma BlankLineIs(s: Text, i: nat)
    requires i < |s|
    ensures BlankLine(s, i) > 0 ==> BreakAt(s, i, BlankLine(s, i))
  {
    if BlankLine(s, i) > 0 {
      var b := RunLength(s, i + 1, (c: CodeUnit) => c == SPACE || c == TAB);
      var newline := (c: CodeUnit) => c == NEWLINE;
      var n := 1 + b + RunLength(s, i + 1 + b, newline);
      RunStops(s, i + 1 + b, newline);
      assert BreakOf(s, i, b, n);
    }
  }

  lemma BreakIsBlankLine(s: Text, i: nat, n: nat)
    requires i < |s| && BreakAt(s, i, n)
    ensures BlankLine(s, i) == n
  {
    var b: nat :| BreakOf(s, i, b, n);
    assert s[i + 1 + b] == 0x0A;
    RunIsWhole(s, i + 1, (c: CodeUnit) => c == SPACE || c == TAB, b);
    RunIsWhole(s, i + 1 + b, (c: CodeUnit) => c == NEWLINE, n - 1 - b);
  }

  /** A separator of length n stands at i, by the table, exactly when the text has a blank line of that length there. */
  lemma BreaksAreBlankLines(s: Text, i: nat, n: nat)
    requires i < |s| && n > 0
    ensures BlankLines(s)[i] == n <==> BreakAt(s, i, n)
  {
    BlankLineIs(s, i);
    if BreakAt(s, i, n) {
      BreakIsBlankLine(s, i, n);
    }
  }

  lemma GapsAreSentenceEnds(s: Text, i: nat, n: nat)
    requires i < |s| && n > 0
    ensures SentenceGaps(s)[i] == n <==> GapAt(s, i, n)
  {
    if GapAt(s, i, n) {
      RunIsWhole(s, i, IsSpace, n);
    }
  }

  // ---- Cutting at separators ----

  /** The part is the text between two positions, and no separator begins inside it. */
  ghost predicate PartIs(s: Text, gaps: seq<nat>, part: Text, from: nat, end: nat)
    requires |gaps| == |s|
  {
    from <= end <= |s| && part == s[from..end] && forall i :: from <= i < end ==> gaps[i] == 0
  }

  /** A separator stands at the end of a part, and the next part begins behind it. */
  ghost predicate NextIs(s: Text, gaps: seq<nat>, end: nat, next: nat)
    requires |gaps| == |s|
  {
    end < |s| && gaps[end] > 0 && next == end + gaps[end]
  }

  /** The parts make up the text from a position on, with one separator between each two. */
  ghost predicate CutBetween(s: Text, start: nat, gaps: seq<nat>, parts: seq<Text>, starts: seq<nat>, ends: seq<nat>) {
    && |gaps| == |s| && |parts| == |starts| == |ends| > 0 && starts[0] == start && ends[|ends| - 1] == |s|
    && (forall k :: 0 <= k < |parts| ==> PartIs(s, gaps, parts[k], starts[k], ends[k]))
    && (forall k :: 0 < k < |parts| ==> NextIs(s, gaps, ends[k - 1], starts[k]))
  }

  lemma {:induction false} CutAtIs(s: Text, start: nat, i: nat, gaps: seq<nat>) returns (starts: seq<nat>, ends: seq<nat>)
    requires start <= i <= |s| && AreGaps(s, gaps) && forall j :: start <= j < i ==> gaps[j] == 0
    ensures CutBetween(s, start, gaps, CutAt(s, start, i, gaps), starts, ends)
    decreases |s| - i
  {
    if i == |s| {
      starts, ends := [start], [|s|];
    } else if gaps[i] > 0 {
      var ss, es := CutAtIs(s, i + gaps[i], i + gaps[i], gaps);
      starts, ends := [start] + ss, [i] + es;
      CutInFront(s, start, i, gaps, s[start..i], CutAt(s, i + gaps[i], i + gaps[i], gaps), ss, es);
    } else {
      starts, ends := CutAtIs(s, start, i + 1, gaps);
    }
  }

  lemma CutInFront(s: Text, start: nat, i: nat, gaps: seq<nat>, part: Text, parts: seq<Text>, starts: seq<nat>, ends: seq<nat>)
    requires |gaps| == |s| && i < |s| && gaps[i] > 0 && PartIs(s, gaps, part, start, i)
    requires CutBetween(s, i + gaps[i], gaps, parts, starts, ends)
    ensures CutBetween(s, start, gaps, [part] + parts, [start] + starts, [i] + ends)
  {
    var ps, ss, es := [part] + parts, [start] + starts, [i] + ends;
    forall k | 0 < k < |ps|
      ensures NextIs(s, gaps, es[k - 1], ss[k])
    {
      if k == 1 {
        assert es[0] == i && ss[1] == starts[0];
      } else {
        assert es[k - 1] == ends[k - 2] && ss[k] == starts[k - 1];
      }
    }
    forall k | 0 <= k < |ps|
      ensures PartIs(s, gaps, ps[k], ss[k], es[k])
    {
      if k > 0 {
        assert ps[k] == parts[k - 1] && ss[k] == starts[k - 1] && es[k] == ends[k - 1];
      }
    }
  }

  // ---- Trimming ----

  /** White space around, and what remains begins and ends visibly. */
  ghost predicate IsTrimmed(r: Text, s: Text) {
    (r == [] || Tidy(r)) && exists a, b :: s == a + r + b && Blank(a) && Blank(b)
  }

  lemma {:induction false} TrimStartIs(s: Text) returns (a: Text)
    ensures s == a + TrimStart(s) && Blank(a)
  {
    if s != [] && IsSpace(s[0]) {
      a := TrimStartIs(s[1..]);
      a := [s[0]] + a;
      assert s == [s[0]] + s[1..];
    } else {
      a := [];
    }
  }

  lemma {:induction false} TrimEndIs(s: Text) returns (b: Text)
    ensures s == TrimEnd(s) + b && Blank(b)
  {
    if s != [] && IsSpace(s[|s| - 1]) {
      b := TrimEndIs(s[..|s| - 1]);
      b := b + [s[|s| - 1]];
      assert s == s[..|s| - 1] + [s[|s| - 1]];
    } else {
      b := [];
    }
  }

  lemma TrimIs(s: Text)
    ensures IsTrimmed(Trim(s), s)
  {
    var b := TrimEndIs(s);
    var a := TrimStartIs(TrimEnd(s));
    assert s == a + Trim(s) + b;
  }

  /** The parts at these positions, in order, each trimmed; and every part that is not blank is among them. */
  ghost predicate AreKept(parts: seq<Text>, tidied: seq<Text>, kept: seq<nat>) {
    && |kept| == |tidied|
    && (forall k :: 0 <= k < |kept| ==> KeptAt(parts, tidied, kept, k))
    && (forall j, k :: 0 <= j < k < |kept| ==> kept[j] < kept[k])
    && (forall i :: 0 <= i < |parts| && !Blank(parts[i]) ==> i in kept)
  }

  ghost predicate KeptAt(parts: seq<Text>, tidied: seq<Text>, kept: seq<nat>, k: nat)
    requires k < |kept| == |tidied|
  {
    kept[k] < |parts| && IsTrimmed(tidied[k], parts[kept[k]]) && tidied[k] != []
  }

  function Shifted(kept: seq<nat>): (r: seq<nat>)
    ensures |r| == |kept| && forall k :: 0 <= k < |r| ==> r[k] == kept[k] + 1
  {
    seq(|kept|, k requires 0 <= k < |kept| => kept[k] + 1)
  }

  lemma ShiftedIn(kept: seq<nat>, i: nat)
    requires i in kept
    ensures i + 1 in Shifted(kept)
  {
    var k :| 0 <= k < |kept| && kept[k] == i;
    assert Shifted(kept)[k] == i + 1;
  }

  lemma SkipBlank(first: Text, parts: seq<Text>, tidied: seq<Text>, kept: seq<nat>)
    requires Blank(first) && AreKept(parts, tidied, kept)
    ensures AreKept([first] + parts, tidied, Shifted(kept))
  {
    var all := [first] + parts;
    forall k | 0 <= k < |kept|
      ensures KeptAt(all, tidied, Shifted(kept), k)
    {
      assert KeptAt(parts, tidied, kept, k);
    }
    forall i | 0 <= i < |all| && !Blank(all[i])
      ensures i in Shifted(kept)
    {
      assert all[i] == parts[i - 1];
      ShiftedIn(kept, i - 1);
    }
  }

  lemma KeepFirst(first: Text, trimmed: Text, parts: seq<Text>, tidied: seq<Text>, kept: seq<nat>)
    requires IsTrimmed(trimmed, first) && trimmed != [] && AreKept(parts, tidied, kept)
    ensures AreKept([first] + parts, [trimmed] + tidied, [0] + Shifted(kept))
  {
    var all, ks, ts := [first] + parts, [0] + Shifted(kept), [trimmed] + tidied;
    forall i | 0 <= i < |all| && !Blank(all[i])
      ensures i in ks
    {
      if i == 0 {
        assert ks[0] == 0;
      } else {
        assert all[i] == parts[i - 1];
        ShiftedIn(kept, i - 1);
      }
    }
    forall k | 0 <= k < |ks|
      ensures KeptAt(all, ts, ks, k)
    {
      if k > 0 {
        assert KeptAt(parts, tidied, kept, k - 1);
      }
    }
  }

  /** The parts that are not blank, in order, each trimmed. */
  lemma {:induction false} TidiedAre(parts: seq<Text>) returns (kept: seq<nat>)
    ensures AreKept(parts, Tidied(parts), kept)
  {
    if parts == [] {
      kept := [];
    } else {
      var later := TidiedAre(parts[1..]);
      assert parts == [parts[0]] + parts[1..];
      TrimIs(parts[0]);
      if Trim(parts[0]) == [] {
        SkipBlank(parts[0], parts[1..], Tidied(parts[1..]), later);
        kept := Shifted(later);
      } else {
        KeepFirst(parts[0], Trim(parts[0]), parts[1..], Tidied(parts[1..]), later);
        kept := [0] + Shifted(later);
      }
    }
  }

  // ---- Hard cuts ----

  /** The last space of the window if it lies past the middle; the end of the window if none does. */
  ghost predicate CutsWordsAt(rest: Text, limit: nat, cut: nat)
    requires limit <= |rest|
  {
    || (limit < 2 * cut && cut < limit && rest[cut] == 0x20 && forall j :: cut < j < limit ==> rest[j] != 0x20)
    || (cut == limit && forall j :: 0 <= j < limit && limit < 2 * j ==> rest[j] != 0x20)
  }

  lemma {:induction false} LastSpaceIs(s: Text)
    ensures var at := LastSpace(s); (at >= 0 ==> s[at] == 0x20) && forall j :: at < j < |s| ==> s[j] != 0x20
  {
    if s != [] && s[|s| - 1] != SPACE {
      LastSpaceIs(s[..|s| - 1]);
    }
  }

  lemma CutPointIs(rest: Text, limit: nat)
    requires 1 <= limit < |rest|
    ensures CutsWordsAt(rest, limit, CutPoint(rest, limit))
  {
    LastSpaceIs(rest[..limit]);
    assert forall j :: 0 <= j < limit ==> rest[..limit][j] == rest[j];
  }

  ghost predicate CutsOff(text: Text, limit: nat, cut: nat, piece: Text, rest: Text)
    requires limit <= |text|
  {
    1 <= cut <= limit && CutsWordsAt(text, limit, cut) && IsTrimmed(piece, text[..cut]) && IsTrimmed(rest, text[cut..])
  }

  /** While the text is over the limit, what lies before such a cut is a piece and the rest goes on, both trimmed. */
  ghost predicate CutHard(pieces: seq<Text>, text: Text, limit: nat)
    decreases |pieces|
  {
    if |text| <= limit then pieces == if text == [] then [] else [text]
    else
      && pieces != []
      && exists cut: nat, rest :: CutsOff(text, limit, cut, pieces[0], rest) && CutHard(pieces[1..], rest, limit)
  }

  lemma {:induction false} HardCutsAre(text: Text, limit: nat)
    requires limit >= 1
    ensures CutHard(HardCuts(text, limit), text, limit)
    decreases |text|
  {
    if |text| > limit {
      var cut := CutPoint(text, limit);
      CutPointIs(text, limit);
      TrimIs(text[..cut]);
      TrimIs(text[cut..]);
      HardCutsAre(Trim(text[cut..]), limit);
      assert CutsOff(text, limit, cut, HardCuts(text, limit)[0], Trim(text[cut..]));
      assert HardCuts(text, limit)[1..] == HardCuts(Trim(text[cut..]), limit);
    }
  }

  // ---- Packing ----

  /** The opening and the parts with a gap between each two; an empty opening is left out. */
  function Joined(opening: Text, parts: seq<Text>, gap: Text): Text {
    if parts == [] then opening
    else
      var before, last := Joined(opening, parts[..|parts| - 1], gap), parts[|parts| - 1];
      if before == [] then last else before + gap + last
  }

  /**
   The parts in order, packed greedily: as many as fit under the limit are joined, at least one; the next would have gone
   over; and what is carried over from what was packed opens the next.
   */
  ghost predicate Packed(out: seq<Text>, parts: seq<Text>, opening: Text, gap: Text, limit: nat, carry: Text -> Text)
    decreases |out|
  {
    if parts == [] then out == []
    else out != [] && exists c: nat :: PacksFirst(out, parts, opening, gap, limit, carry, c)
  }

  ghost predicate PacksFirst(out: seq<Text>, parts: seq<Text>, opening: Text, gap: Text, limit: nat, carry: Text -> Text, c: nat)
    requires out != []
    decreases |out|, 0
  {
    && 1 <= c <= |parts| && out[0] == Joined(opening, parts[..c], gap)
    && (forall j :: 2 <= j <= c ==> |Joined(opening, parts[..j], gap)| <= limit)
    && (c == |parts| ==> |out| == 1)
    && (c < |parts| ==> |out[0]| + |gap| + |parts[c]| > limit && Packed(out[1..], parts[c..], carry(out[0]), gap, limit, carry))
  }

  /** These parts were taken up so far, each within the limit when it was added. */
  ghost predicate InHand(current: Text, taken: seq<Text>, opening: Text, gap: Text, limit: nat) {
    && taken != [] && current != [] && current == Joined(opening, taken, gap)
    && forall j :: 2 <= j <= |taken| ==> |Joined(opening, taken[..j], gap)| <= limit
  }

  lemma TakeOne(current: Text, taken: seq<Text>, opening: Text, gap: Text, limit: nat, part: Text)
    requires InHand(current, taken, opening, gap, limit) && |current| + |gap| + |part| <= limit
    ensures InHand(current + gap + part, taken + [part], opening, gap, limit)
  {
    var more := taken + [part];
    assert more[..|taken|] == taken;
    forall j | 2 <= j <= |more|
      ensures |Joined(opening, more[..j], gap)| <= limit
    {
      if j <= |taken| {
        assert more[..j] == taken[..j];
      } else {
        assert more[..j] == more;
      }
    }
  }

  lemma PackOpen(current: Text, taken: seq<Text>, opening: Text, gap: Text, limit: nat, carry: Text -> Text)
    requires InHand(current, taken, opening, gap, limit)
    ensures Packed([current], taken, opening, gap, limit, carry)
  {
    assert taken[..|taken|] == taken;
    assert forall j :: 2 <= j <= |taken| ==> |Joined(opening, taken[..j], gap)| <= limit;
    assert PacksFirst([current], taken, opening, gap, limit, carry, |taken|);
  }

  lemma PackFull(current: Text, taken: seq<Text>, rest: seq<Text>, opening: Text, gap: Text, limit: nat, carry: Text -> Text, later: seq<Text>)
    requires InHand(current, taken, opening, gap, limit) && rest != [] && |current| + |gap| + |rest[0]| > limit
    requires Packed(later, rest, carry(current), gap, limit, carry)
    ensures Packed([current] + later, taken + rest, opening, gap, limit, carry)
  {
    var out, parts, c := [current] + later, taken + rest, |taken|;
    assert out[1..] == later && parts[c..] == rest && parts[..c] == taken && parts[c] == rest[0];
    forall j | 2 <= j <= c
      ensures |Joined(opening, parts[..j], gap)| <= limit
    {
      assert parts[..j] == taken[..j];
    }
    assert PacksFirst(out, parts, opening, gap, limit, carry, c);
  }

  lemma OneInHand(opening: Text, part: Text, gap: Text, limit: nat)
    requires part != []
    ensures InHand(Glue(opening, gap, part), [part], opening, gap, limit)
  {
    assert [part][..0] == [];
  }

  function Nothing(): Text -> Text {
    _ => []
  }

  /** Taking the first of what is left leaves the whole as it is. */
  lemma MovesOver(all: seq<Text>, taken: seq<Text>, rest: seq<Text>)
    requires all == taken + rest && rest != []
    ensures all == (taken + [rest[0]]) + rest[1..] && rest == [rest[0]] + rest[1..]
  {
  }

  lemma {:induction false} MergePacks(all: seq<Text>, parts: seq<Text>, current: Text, taken: seq<Text>, opening: Text, limit: nat)
    requires all == taken + parts && (forall i :: 0 <= i < |parts| ==> parts[i] != []) && InHand(current, taken, opening, [0x20], limit)
    ensures Packed(Merge(parts, current, limit), all, opening, [0x20], limit, Nothing())
    decreases |parts|
  {
    if parts == [] {
      PackOpen(current, taken, opening, [0x20], limit, Nothing());
      assert all == taken;
    } else {
      MovesOver(all, taken, parts);
      MergeStep(parts, current, limit, []);
      if |current| + 1 + |parts[0]| > limit {
        OneInHand([], parts[0], [0x20], limit);
        MergePacks(parts, parts[1..], parts[0], [parts[0]], [], limit);
        PackFull(current, taken, parts, opening, [0x20], limit, Nothing(), Merge(parts[1..], parts[0], limit));
      } else {
        TakeOne(current, taken, opening, [0x20], limit, parts[0]);
        MergePacks(all, parts[1..], current + [SPACE] + parts[0], taken + [parts[0]], opening, limit);
      }
    }
  }

  /**
   A paragraph that fits is one piece; the others are their sentences, those too long cut hard, packed with a space
   between them into pieces as long as the limit allows.
   */
  lemma SplitIsPacked(paragraph: Text, limit: nat)
    requires limit >= 1 && Tidy(paragraph)
    ensures |paragraph| <= limit ==> SplitParagraph(paragraph, limit) == [paragraph]
    ensures |paragraph| > limit ==>
      Packed(SplitParagraph(paragraph, limit), AllHardCuts(Sentences(paragraph), limit), [], [0x20], limit, Nothing())
  {
    if |paragraph| > limit {
      var parts := AllHardCuts(Sentences(paragraph), limit);
      AllHardCutsAreGood(Sentences(paragraph), limit);
      if parts != [] {
        assert Tidy(parts[0]);
        OneInHand([], parts[0], [0x20], limit);
        assert Glue([], [SPACE], parts[0]) == parts[0];
        assert [parts[0]] + parts[1..] == parts;
        MergePacks(parts, parts[1..], parts[0], [parts[0]], [], limit);
      }
    }
  }

  /** The hard cuts of all sentences, one sentence after another. */
  lemma {:induction false} AllHardCutsAre(sentences: seq<Text>, limit: nat) returns (cuts: seq<seq<Text>>)
    requires limit >= 1
    ensures |cuts| == |sentences| && forall i :: 0 <= i < |sentences| ==> CutHard(cuts[i], sentences[i], limit)
    ensures AllHardCuts(sentences, limit) == Flat(cuts)
  {
    if sentences == [] {
      cuts := [];
    } else {
      var later := AllHardCutsAre(sentences[1..], limit);
      HardCutsAre(sentences[0], limit);
      cuts := [HardCuts(sentences[0], limit)] + later;
      assert cuts[1..] == later;
    }
  }

  function Flat<T>(lists: seq<seq<T>>): seq<T> {
    if lists == [] then [] else lists[0] + Flat(lists[1..])
  }

  /** What the next chunk opens with. */
  function TailOf(overlap: int): Text -> Text {
    (s: Text) => Tail(s, overlap)
  }

  /** One turn of the loop, with tidy text in hand. */
  lemma ChunksTurn(pieces: seq<Text>, current: Text, target: nat, overlap: int)
    requires Tidy(current)
    ensures Chunks(pieces, current, target, overlap) ==
      if pieces == [] then [current]
      else if |current| + 2 + |pieces[0]| > target then [current] + Chunks(pieces[1..], Glue(Tail(current, overlap), BREAK, pieces[0]), target, overlap)
      else Chunks(pieces[1..], current + BREAK + pieces[0], target, overlap)
  {
    TidyStays(current);
  }

  lemma {:induction false} ChunksPack(all: seq<Text>, pieces: seq<Text>, current: Text, taken: seq<Text>, opening: Text, target: nat, overlap: int)
    requires all == taken + pieces && GoodPieces(pieces, target) && Tidy(current) && InHand(current, taken, opening, [0x0A, 0x0A], target)
    ensures Packed(Chunks(pieces, current, target, overlap), all, opening, [0x0A, 0x0A], target, TailOf(overlap))
    decreases |pieces|
  {
    ChunksTurn(pieces, current, target, overlap);
    if pieces == [] {
      PackOpen(current, taken, opening, [0x0A, 0x0A], target, TailOf(overlap));
      assert all == taken;
    } else if |current| + 2 + |pieces[0]| > target {
      NextChunk(all, pieces, current, taken, opening, target, overlap);
    } else {
      MovesOver(all, taken, pieces);
      TakeOne(current, taken, opening, [0x0A, 0x0A], target, pieces[0]);
      GlueIsTidy(current, pieces[0]);
      ChunksPack(all, pieces[1..], current + BREAK + pieces[0], taken + [pieces[0]], opening, target, overlap);
    }
  }

  lemma {:induction false} NextChunk(all: seq<Text>, pieces: seq<Text>, current: Text, taken: seq<Text>, opening: Text, target: nat, overlap: int)
    requires GoodPieces(pieces, target) && Tidy(current) && InHand(current, taken, opening, [0x0A, 0x0A], target)
    requires all == taken + pieces && pieces != [] && |current| + 2 + |pieces[0]| > target
    ensures Packed([current] + Chunks(pieces[1..], Glue(Tail(current, overlap), BREAK, pieces[0]), target, overlap), all, opening, [0x0A, 0x0A], target, TailOf(overlap))
    decreases |pieces|, 0
  {
    var carried := Tail(current, overlap);
    var next := Glue(carried, BREAK, pieces[0]);
    TailIsTidy(current, overlap);
    GlueIsTidy(carried, pieces[0]);
    OneInHand(carried, pieces[0], [0x0A, 0x0A], target);
    MovesOver(all, taken, pieces);
    ChunksPack(pieces, pieces[1..], next, [pieces[0]], carried, target, overlap);
    PackFull(current, taken, pieces, opening, [0x0A, 0x0A], target, TailOf(overlap), Chunks(pieces[1..], next, target, overlap));
  }

  /** A document's chunks are its pieces packed with a blank line between them, each opening with the tail of the one before. */
  lemma ChunksArePacked(text: Text, target: nat, overlap: int)
    requires target >= 1
    ensures Packed(Chunks(Pieces(text, target), [], target, overlap), Pieces(text, target), [], [0x0A, 0x0A], target, TailOf(overlap))
  {
    var pieces := Pieces(text, target);
    PiecesLoseNothing(text, target);
    if pieces != [] {
      assert Tidy(pieces[0]);
      OneInHand([], pieces[0], [0x0A, 0x0A], target);
      assert Glue([], BREAK, pieces[0]) == pieces[0];
      assert Chunks(pieces, [], target, overlap) == Chunks(pieces[1..], pieces[0], target, overlap);
      assert [pieces[0]] + pieces[1..] == pieces;
      ChunksPack(pieces, pieces[1..], pieces[0], [pieces[0]], [], target, overlap);
    }
  }

  /** The tail of a longer text: its last units from behind the first space among them, less the white space there. */
  ghost predicate IsTail(r: Text, text: Text, length: nat)
    requires length <= |text|
  {
    var window := text[|text| - length..];
    exists from: nat :: IsTailFrom(r, window, from)
  }

  ghost predicate IsTailFrom(r: Text, window: Text, from: nat) {
    && from <= |window| && r == window[from..] && (r != [] ==> !IsSpace(r[0]))
    && if 0x20 in window then exists at: nat :: SkipsTo(window, at, from) else Blank(window[..from])
  }

  /** The first space is at `at`, and only white space lies between it and `from`. */
  ghost predicate SkipsTo(window: Text, at: nat, from: nat)
    requires from <= |window|
  {
    at < from && window[at] == 0x20 && (forall j :: 0 <= j < at ==> window[j] != 0x20) && Blank(window[at + 1..from])
  }

  lemma {:induction false} FirstSpaceIs(s: Text)
    ensures forall j :: 0 <= j < FirstSpace(s) ==> s[j] != 0x20
  {
    if s != [] && s[0] != SPACE {
      FirstSpaceIs(s[1..]);
    }
  }

  lemma TailIs(text: Text, length: int)
    ensures length <= 0 ==> Tail(text, length) == []
    ensures 0 < length && |text| <= length ==> Tail(text, length) == text
    ensures 0 < length < |text| ==> IsTail(Tail(text, length), text, length)
  {
    if 0 < length < |text| {
      TailOfWindow(text[|text| - length..]);
    }
  }

  lemma TailOfWindow(window: Text)
    ensures exists from: nat :: IsTailFrom(TrimStart(AfterFirstSpace(window)), window, from)
  {
    var behind, at := AfterFirstSpace(window), FirstSpace(window);
    var white := TrimStartIs(behind);
    FirstSpaceIs(window);
    TrimmedStartIsVisible(behind);
    var from := |window| - |TrimStart(behind)|;
    if at == |window| {
      assert window == white + TrimStart(behind);
      assert window[..from] == white;
    } else {
      assert window[at + 1..] == white + TrimStart(behind);
      assert window[at + 1..from] == white && window[at] in window;
      assert SkipsTo(window, at, from);
    }
    assert IsTailFrom(TrimStart(behind), window, from);
  }

  lemma {:induction false} TrimmedStartIsVisible(s: Text)
    ensures TrimStart(s) != [] ==> !IsSpace(TrimStart(s)[0])
  {
    if s != [] && IsSpace(s[0]) {
      TrimmedStartIsVisible(s[1..]);
    }
  }
}
