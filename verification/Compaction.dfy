/** Deciding what part of a conversation a summary replaces. */
module Compaction {
  import opened Options
  import opened Seqs
  import opened Conversation
  import opened ContextAssembler

  // ---- Token estimates ----

  function Chars(blocks: seq<Block>): nat
    decreases blocks, 0
  {
    if blocks == [] then 0 else BlockChars(blocks[0]) + Chars(blocks[1..])
  }

  function BlockChars(b: Block): nat
    decreases b, 1
  {
    match b
    case Text(text) => |text|
    case Reasoning(summary, _) => if summary.Some? then |summary.value| else 0
    case ToolUse(_, _, input) => |input|
    case ToolResult(_, content, _) => Chars(content)
    case BlobRef(key, _, _) => |key|
    case Image(_, _) => 0
    case Document(_, _, _) => 0
  }

  /** About four characters a token, rounded up. */
  function EstimateTokens(content: seq<Block>): nat {
    (Chars(content) + 3) / 4
  }

  /** The estimate is the count over four, rounded up. */
  lemma EstimateRoundsUp(content: seq<Block>)
    ensures Chars(content) <= 4 * EstimateTokens(content) < Chars(content) + 4
  {
  }

  lemma {:induction false} CharsAdd(a: seq<Block>, b: seq<Block>)
    ensures Chars(a + b) == Chars(a) + Chars(b)
  {
    if a == [] {
      assert a + b == b;
    } else {
      assert (a + b)[1..] == a[1..] + b;
      CharsAdd(a[1..], b);
    }
  }

  /** What one block counts: text, arguments, summaries and keys by their length, pictures and documents nothing, a result what it holds. */
  lemma CharsOfOne(b: Block)
    ensures b.Text? ==> Chars([b]) == |b.text|
    ensures b.ToolUse? ==> Chars([b]) == |b.input|
    ensures b.ToolResult? ==> Chars([b]) == Chars(b.content)
    ensures b.Reasoning? ==> Chars([b]) == if b.summary == None then 0 else |b.summary.value|
    ensures b.BlobRef? ==> Chars([b]) == |b.key|
    ensures b.Image? || b.Document? ==> Chars([b]) == 0
  {
    assert [b][1..] == [];
  }

  function SizeOf(m: Stored): nat {
    if m.tokenEstimate.Some? then m.tokenEstimate.value else EstimateTokens(m.content)
  }

  function TokensOf(ms: seq<Stored>): nat {
    if ms == [] then 0 else SizeOf(ms[0]) + TokensOf(ms[1..])
  }

  // ---- Where the history may be cut ----

  predicate IsLegalBoundary(ms: seq<Stored>, index: int) {
    if index <= 0 || index >= |ms| then true
    else if Asked(ms[index - 1].content) == [] then true
    else !ms[index].role.Tool? && Given(ms[index].content) == {}
  }

  /** Walks back to the greatest legal cut at or before `index`; 0 when there is none above it. */
  method LegalBoundaryAtOrBefore(ms: seq<Stored>, index: nat) returns (cut: nat)
    ensures cut <= index && IsLegalBoundary(ms, cut)
    ensures forall k :: cut < k <= index ==> !IsLegalBoundary(ms, k)
  {
    cut := index;
    while cut > 0 && !IsLegalBoundary(ms, cut)
      invariant cut <= index
      invariant forall k :: cut < k <= index ==> !IsLegalBoundary(ms, k)
    {
      cut := cut - 1;
    }
  }

  // ---- The plan ----

  datatype Plan = Plan(needed: bool, toSummarise: seq<Stored>, toKeep: seq<Stored>, tokensBefore: nat, tokensAfter: nat)

  /** Message j is kept by the token rule: it is recent, or it and all after it fit the target. */
  predicate Keepable(live: seq<Stored>, target: real, keepRecent: int, j: nat)
    requires j < |live|
  {
    |live| - j <= keepRecent || TokensOf(live[j..]) as real <= target
  }

  /** The longest run of keepable messages at the end starts here. */
  ghost predicate IsTokenCut(live: seq<Stored>, target: real, keepRecent: int, cut: int) {
    && 0 <= cut <= |live|
    && (forall j :: cut <= j < |live| ==> Keepable(live, target, keepRecent, j))
    && (cut > 0 ==> !Keepable(live, target, keepRecent, cut - 1))
  }

  /** A cut that leaves the recent messages: whatever the token rule keeps of the end, it keeps those. */
  lemma RecentIsKept(live: seq<Stored>, target: real, keepRecent: int, tokenCut: nat, cut: nat)
    requires IsTokenCut(live, target, keepRecent, tokenCut) && cut <= tokenCut && 0 <= keepRecent <= |live|
    ensures |live| - cut >= keepRecent
  {
    if tokenCut > 0 {
      assert !Keepable(live, target, keepRecent, tokenCut - 1);
    }
  }

  /** What makes a plan of a cut. */
  ghost predicate CutsAt(live: seq<Stored>, tokenCut: nat, cut: nat) {
    0 < cut <= tokenCut <= |live| && IsLegalBoundary(live, cut) && forall k :: cut < k <= tokenCut ==> !IsLegalBoundary(live, k)
  }

  /** What a plan for a live history is: where it cuts, if it does, and what it counts. */
  ghost predicate IsPlan(plan: Plan, live: seq<Stored>, limit: real, tokenCut: nat) {
    && plan.toSummarise + plan.toKeep == live
    && plan.tokensBefore == TokensOf(live) && plan.tokensAfter == TokensOf(plan.toKeep)
    && (plan.needed <==> TokensOf(live) as real > limit && exists k :: 0 < k <= tokenCut && IsLegalBoundary(live, k))
    && (!plan.needed ==> plan.toSummarise == [])
    && (plan.needed ==> CutsAt(live, tokenCut, |plan.toSummarise|))
  }

  /** `planCompaction`, with the two token limits already multiplied out. */
  method PlanCompaction(messages: seq<Stored>, limit: real, target: real, keepRecent: int) returns (plan: Plan, ghost tokenCut: nat)
    ensures IsTokenCut(Live(messages), target, keepRecent, tokenCut) && IsPlan(plan, Live(messages), limit, tokenCut)
    ensures plan.needed && 0 <= keepRecent <= |Live(messages)| ==> |plan.toKeep| >= keepRecent
  {
    plan, tokenCut := PlanFor(Live(messages), limit, target, keepRecent);
  }

  method PlanFor(live: seq<Stored>, limit: real, target: real, keepRecent: int) returns (plan: Plan, ghost tokenCut: nat)
    ensures IsTokenCut(live, target, keepRecent, tokenCut) && IsPlan(plan, live, limit, tokenCut)
    ensures plan.needed && 0 <= keepRecent <= |live| ==> |plan.toKeep| >= keepRecent
  {
    var before := TokensOf(live);
    var cut := TokenCut(live, target, keepRecent);
    tokenCut := cut;
    if before as real <= limit {
      KeepAllIsPlan(live, limit, tokenCut, before);
      return Plan(false, [], live, before, before), cut;
    }
    cut := LegalBoundaryAtOrBefore(live, cut);
    if cut == 0 {
      KeepAllIsPlan(live, limit, tokenCut, before);
      return Plan(false, [], live, before, before), tokenCut;
    }
    if 0 <= keepRecent <= |live| {
      RecentIsKept(live, target, keepRecent, tokenCut, cut);
    }
    CutIsPlan(live, limit, tokenCut, cut, before);
    plan := Plan(true, live[..cut], live[cut..], before, TokensOf(live[cut..]));
  }

  lemma KeepAllIsPlan(live: seq<Stored>, limit: real, tokenCut: nat, before: nat)
    requires before == TokensOf(live)
    requires before as real <= limit || forall k :: 0 < k <= tokenCut ==> !IsLegalBoundary(live, k)
    ensures IsPlan(Plan(false, [], live, before, before), live, limit, tokenCut)
  {
    assert [] + live == live;
  }

  lemma CutIsPlan(live: seq<Stored>, limit: real, tokenCut: nat, cut: nat, before: nat)
    requires before == TokensOf(live) && before as real > limit && CutsAt(live, tokenCut, cut)
    ensures IsPlan(Plan(true, live[..cut], live[cut..], before, TokensOf(live[cut..])), live, limit, tokenCut)
  {
    assert live[..cut] + live[cut..] == live;
  }

  /** The backward loop that keeps messages until the target is met. */
  method TokenCut(live: seq<Stored>, target: real, keepRecent: int) returns (cut: nat)
    ensures IsTokenCut(live, target, keepRecent, cut)
  {
    var kept := 0;
    cut := |live|;
    var i := |live| - 1;
    while i >= 0
      invariant -1 <= i < |live| && cut == i + 1
      invariant kept == TokensOf(live[cut..])
      invariant forall j :: cut <= j < |live| ==> Keepable(live, target, keepRecent, j)
    {
      var size := SizeOf(live[i]);
      assert live[i..][1..] == live[i + 1..];
      assert TokensOf(live[i..]) == size + kept;
      if !(|live| - i <= keepRecent) && (kept + size) as real > target {
        return;
      }
      kept := kept + size;
      cut := i;
      i := i - 1;
    }
  }
}
