/**
 What an assembled request holds, told from the input alone: which directives in which order, which tools, and of each
 live message what is sent.
 */
module PromptShape {
  import opened Options
  import opened Seqs
  import opened Sorting
  import opened Conversation
  import opened ContextAssembler

  // ---- The system directives ----

  predicate HasText(d: Directive) {
    !Blank(d.text)
  }

  /** The directives of a kind that have text, in the order given. */
  function Said(ds: seq<Directive>, k: DirectiveKind): seq<Directive> {
    Filter(OfKind(ds, k), HasText)
  }

  /** Identity first, then policy, safety, memory and retrieval. */
  ghost predicate ByKind(s: seq<Directive>) {
    s == OfKind(s, Identity) + OfKind(s, Policy) + OfKind(s, Safety) + OfKind(s, Memory) + OfKind(s, Retrieval)
  }

  lemma OfKindCons(d: Directive, s: seq<Directive>, k: DirectiveKind)
    ensures OfKind([d] + s, k) == (if d.kind == k then [d] else []) + OfKind(s, k)
  {
    assert ([d] + s)[1..] == s;
  }

  /** Behind a directive in order there is none of a kind that ranks before it. */
  lemma NoneBefore(d: Directive, s: seq<Directive>, k: DirectiveKind)
    requires Sorted([d] + s, KindLe()) && Rank(k) < Rank(d.kind)
    ensures OfKind(s, k) == []
  {
    forall x | x in s
      ensures x.kind != k
    {
      var i :| 0 <= i < |s| && s[i] == x;
      assert ([d] + s)[0] == d && ([d] + s)[i + 1] == x && KindLe()(d, x);
    }
    FilterKeepsNone(s, (x: Directive) => x.kind == k);
  }

  /** Putting a directive in front of groups, those before its own being empty. */
  lemma InFront(d: Directive, a: seq<Directive>, b: seq<Directive>, c: seq<Directive>, e: seq<Directive>, f: seq<Directive>)
    requires a == [] || d.kind == Identity
    requires b == [] || d.kind in {Identity, Policy}
    requires c == [] || d.kind in {Identity, Policy, Safety}
    requires e == [] || d.kind != Retrieval
    ensures [d] + (a + b + c + e + f) ==
      ((if d.kind == Identity then [d] else []) + a) + ((if d.kind == Policy then [d] else []) + b) + ((if d.kind == Safety then [d] else []) + c)
      + ((if d.kind == Memory then [d] else []) + e) + ((if d.kind == Retrieval then [d] else []) + f)
  {
  }

  lemma {:induction false} SortedIsByKind(s: seq<Directive>)
    requires Sorted(s, KindLe())
    ensures ByKind(s)
  {
    if s != [] {
      var d, rest := s[0], s[1..];
      TailSorted(s, KindLe());
      SortedIsByKind(rest);
      assert s == [d] + rest;
      forall k: DirectiveKind
        ensures OfKind(s, k) == (if d.kind == k then [d] else []) + OfKind(rest, k)
        ensures Rank(k) < Rank(d.kind) ==> OfKind(rest, k) == []
      {
        OfKindCons(d, rest, k);
        if Rank(k) < Rank(d.kind) {
          NoneBefore(d, rest, k);
        }
      }
      InFront(d, OfKind(rest, Identity), OfKind(rest, Policy), OfKind(rest, Safety), OfKind(rest, Memory), OfKind(rest, Retrieval));
    }
  }

  lemma FilterFive(a: seq<Directive>, b: seq<Directive>, c: seq<Directive>, d: seq<Directive>, e: seq<Directive>, p: Directive -> bool)
    ensures Filter(a + b + c + d + e, p) == Filter(a, p) + Filter(b, p) + Filter(c, p) + Filter(d, p) + Filter(e, p)
  {
    FilterAppend(a, b, p);
    FilterAppend(a + b, c, p);
    FilterAppend(a + b + c, d, p);
    FilterAppend(a + b + c + d, e, p);
  }

  /** The request's system is the directives that are not blank: kind after kind, and within a kind as given. */
  lemma SystemIsExact(input: AssembleInput)
    ensures var ds := input.directives;
      Assembled(input).system == Said(ds, Identity) + Said(ds, Policy) + Said(ds, Safety) + Said(ds, Memory) + Said(ds, Retrieval)
  {
    var ds, s := input.directives, OrderDirectives(input.directives);
    OrderDirectivesIsStable(ds, Identity);
    forall k: DirectiveKind
      ensures OfKind(s, k) == OfKind(ds, k)
    {
      OrderDirectivesIsStable(ds, k);
    }
    SortedIsByKind(s);
    FilterFive(OfKind(s, Identity), OfKind(s, Policy), OfKind(s, Safety), OfKind(s, Memory), OfKind(s, Retrieval), HasText);
    FilterSame(s, (d: Directive) => !Blank(d.text), HasText);
  }

  // ---- The tools ----

  /** The tools sent are the tools given, their names ascending. */
  lemma ToolsAscend(input: AssembleInput)
    ensures multiset(Assembled(input).tools) == multiset(input.tools)
    ensures forall i, j :: 0 <= i < j < |Assembled(input).tools| ==> AtOrBefore(Assembled(input).tools[i].name, Assembled(input).tools[j].name)
  {
    ToolLePreorder();
    SortSorts(input.tools, ToolLe());
    var tools := Assembled(input).tools;
    forall i, j | 0 <= i < j < |tools|
      ensures AtOrBefore(tools[i].name, tools[j].name)
    {
      assert ToolLe()(tools[i], tools[j]);
      NameOrder(tools[i].name, tools[j].name);
    }
  }

  /** Equal, or less at the first character that differs, or ended where the other goes on. */
  ghost predicate AtOrBefore(a: string, b: string) {
    a == b || exists k :: 0 <= k <= |a| && k < |b| && a[..k] == b[..k] && (k == |a| || a[k] < b[k])
  }

  lemma {:induction false} NameOrder(a: string, b: string)
    requires NameLe(a, b)
    ensures AtOrBefore(a, b)
    decreases |a|
  {
    if a == [] || b == [] || a[0] != b[0] {
      assert b != [] ==> a[..0] == b[..0];
    } else {
      NameOrder(a[1..], b[1..]);
      assert a == [a[0]] + a[1..] && b == [b[0]] + b[1..];
      if a[1..] != b[1..] {
        var k :| 0 <= k <= |a[1..]| && k < |b[1..]| && a[1..][..k] == b[1..][..k] && (k == |a[1..]| || a[1..][k] < b[1..][k]);
        assert a[..k + 1] == [a[0]] + a[1..][..k] && b[..k + 1] == [b[0]] + b[1..][..k];
      }
    }
  }

  // ---- The breakpoints ----

  /**
   Where the prefix is marked: nowhere without explicit breakpoints or with fewer than three messages; else before the last
   two messages, and with two marks allowed also after the last whole eight messages before that, unless they fall together.
   */
  lemma BreakpointsAre(count: nat, cache: PromptCache)
    ensures var bps := BreakpointsFor(count, cache);
      && (bps != [] <==> cache.supported && cache.strategy.ExplicitBreakpoints? && count >= 3)
      && (bps != [] ==> bps[|bps| - 1] == count - 3)
      && (|bps| == 2 ==> (bps[0] + 1) % 8 == 0 && bps[1] < bps[0] + 8)
      && (bps != [] ==> (|bps| == 2 <==> cache.maxBreakpoints.Some? && cache.maxBreakpoints.value >= 2 && count >= 10 && (count - 2) % 8 != 0))
  {
    if count >= 3 {
      var q, r := (count - 2) / 8, (count - 2) % 8;
      assert count - 2 == 8 * q + r;
      assert q * CACHE_ANCHOR_STRIDE - 1 == count - 3 - r;
      assert (q * 8 - 1 + 1) % 8 == 0;
    }
  }

  // ---- The messages ----

  /** The message sent for a stored one: its artifact is sent exactly when it has one of the current provider. */
  ghost predicate Carries(sent: Message, m: Stored, current: string) {
    && sent.role == m.role && sent.content == m.content
    && (sent.artifact.Some? <==> current in m.artifacts)
    && (sent.artifact.Some? ==> sent.artifact.value == m.artifacts[current])
  }

  /** The live messages are those that are not superseded, each once, by rising `seq`. */
  ghost predicate AreLive(live: seq<Stored>, messages: seq<Stored>) {
    && (forall m :: multiset(live)[m] == if m.supersededBy.None? then multiset(messages)[m] else 0)
    && (forall i, j :: 0 <= i < j < |live| ==> live[i].seqNo <= live[j].seqNo)
  }

  lemma {:induction false} LiveCounts(messages: seq<Stored>, m: Stored)
    ensures multiset(Live(messages))[m] == if m.supersededBy.None? then multiset(messages)[m] else 0
  {
    if messages != [] {
      LiveCounts(messages[1..], m);
      assert messages == [messages[0]] + messages[1..];
      assert Live(messages) == (if messages[0].supersededBy.None? then [messages[0]] else []) + Live(messages[1..]);
    }
  }

  lemma SeqOrder(messages: seq<Stored>)
    ensures AreLive(InSequence(messages), messages)
  {
    SortSorts(Live(messages), SeqLe());
    var live := InSequence(messages);
    forall i, j | 0 <= i < j < |live|
      ensures live[i].seqNo <= live[j].seqNo
    {
      assert SeqLe()(live[i], live[j]);
    }
    forall m
      ensures multiset(live)[m] == if m.supersededBy.None? then multiset(messages)[m] else 0
    {
      LiveCounts(messages, m);
    }
  }

  /** With the results that answer orphaned calls taken out, what is sent is one message for each live one. */
  lemma MessagesAreCarried(input: AssembleInput) returns (live: seq<Stored>, edits: seq<Edit>)
    ensures AreLive(live, input.messages)
    ensures var sent := Undo(Assembled(input).messages, edits);
      |sent| == |live| && forall i :: 0 <= i < |live| ==> Carries(sent[i], live[i], input.providerKey)
    ensures ResultsAdded(edits) == AnswerCount(Convert(live, input.providerKey))
  {
    live := InSequence(input.messages);
    SeqOrder(input.messages);
    var ms := Convert(live, input.providerKey);
    AnswerOnlyAdds(ms);
    edits := EditsOf(ms);
    UndoRestores(ms, edits);
  }

  /** What is put in for an orphaned call: an error result under its id. */
  lemma AddedAreErrors(ids: seq<string>)
    ensures |Results(ids)| == |ids|
    ensures forall i :: 0 <= i < |ids| ==> Results(ids)[i].ToolResult? && Results(ids)[i].toolUseId == ids[i] && Results(ids)[i].isError
  {
    forall i | 0 <= i < |ids|
      ensures Results(ids)[i] == Unanswered(ids[i])
    {
    }
  }
}
