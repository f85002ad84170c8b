/**
 Prompt assembly and its cacheable prefix.

 A provider's prompt cache is keyed on an exact prefix. The main result is that a prompt assembled later
 from a history that only grew still begins with everything an earlier prompt marked as cached, whatever
 order tools were discovered in and messages were loaded in.
 */
module ContextAssembler {
  import opened Options
  import opened Seqs
  import opened Sorting
  import opened Conversation

  datatype DirectiveKind = Identity | Policy | Safety | Memory | Retrieval
  datatype Directive = Directive(kind: DirectiveKind, text: string)
  datatype ToolDeclaration = ToolDeclaration(name: string, schema: string)

  datatype CacheStrategy = ExplicitBreakpoints | Automatic
  datatype PromptCache = PromptCache(supported: bool, strategy: CacheStrategy, maxBreakpoints: Option<int>)

  /** A message as it is persisted. */
  datatype Stored = Stored(
    id: string, seqNo: int, role: Role, content: seq<Block>,
    artifacts: map<string, string>, tokenEstimate: Option<nat>, supersededBy: Option<string>)

  datatype AssembleInput = AssembleInput(
    providerKey: string, cache: PromptCache, directives: seq<Directive>, messages: seq<Stored>,
    tools: seq<ToolDeclaration>, toolChoice: string)

  datatype Request = Request(system: seq<Directive>, messages: seq<Message>, tools: seq<ToolDeclaration>, toolChoice: string, breakpointsAfter: seq<nat>)

  datatype Prompt = Prompt(request: Request, droppedArtifacts: nat)

  // ---- Ordering ----

  function Rank(k: DirectiveKind): nat {
    match k
    case Identity => 0
    case Policy => 1
    case Safety => 2
    case Memory => 3
    case Retrieval => 4
  }

  function KindLe(): (Directive, Directive) -> bool {
    (a: Directive, b: Directive) => Rank(a.kind) <= Rank(b.kind)
  }

  function OrderDirectives(ds: seq<Directive>): seq<Directive> {
    Sort(ds, KindLe())
  }

  function OfKind(ds: seq<Directive>, k: DirectiveKind): seq<Directive> {
    Filter(ds, (d: Directive) => d.kind == k)
  }

  /** The declared order, with relative order within a kind kept. */
  lemma {:induction false} OrderDirectivesIsStable(ds: seq<Directive>, k: DirectiveKind)
    ensures Sorted(OrderDirectives(ds), KindLe())
    ensures OfKind(OrderDirectives(ds), k) == OfKind(ds, k)
  {
    SortSorts(ds, KindLe());
    if ds != [] {
      OrderDirectivesIsStable(ds[1..], k);
      InsertIsStable(ds[0], OrderDirectives(ds[1..]), k);
    }
  }

  lemma {:induction false} InsertIsStable(d: Directive, ds: seq<Directive>, k: DirectiveKind)
    ensures OfKind(InsertInto(d, ds, KindLe()), k) == (if d.kind == k then [d] else []) + OfKind(ds, k)
  {
    if ds == [] || KindLe()(d, ds[0]) {
      assert ([d] + ds)[1..] == ds;
    } else {
      InsertIsStable(d, ds[1..], k);
      var out := InsertInto(d, ds, KindLe());
      assert out[1..] == InsertInto(d, ds[1..], KindLe()) && out[0] == ds[0];
    }
  }

  /** Names in code unit order. */
  predicate NameLe(a: string, b: string) {
    LexLe(a, b, CharLess)
  }

  predicate CharLess(x: char, y: char) {
    x < y
  }

  function ToolLe(): (ToolDeclaration, ToolDeclaration) -> bool {
    (a: ToolDeclaration, b: ToolDeclaration) => NameLe(a.name, b.name)
  }

  function OrderTools(tools: seq<ToolDeclaration>): seq<ToolDeclaration> {
    Sort(tools, ToolLe())
  }

  ghost predicate DistinctNames(tools: seq<ToolDeclaration>) {
    forall x, y :: x in tools && y in tools && x.name == y.name ==> x == y
  }

  lemma ToolLePreorder()
    ensures TotalPreorder(ToolLe())
  {
    var le := ToolLe();
    forall x: ToolDeclaration, y: ToolDeclaration
      ensures le(x, y) || le(y, x)
    {
      LexTotal(x.name, y.name, CharLess);
    }
    forall x: ToolDeclaration, y: ToolDeclaration, z: ToolDeclaration | le(x, y) && le(y, z)
      ensures le(x, z)
    {
      LexTransitive(x.name, y.name, z.name, CharLess);
    }
  }

  /** Discovery order does not reach the prompt. */
  lemma OrderToolsIgnoresDiscovery(a: seq<ToolDeclaration>, b: seq<ToolDeclaration>)
    requires multiset(a) == multiset(b) && DistinctNames(a)
    ensures OrderTools(a) == OrderTools(b)
  {
    ToolLePreorder();
    forall x, y | x in a && y in a && ToolLe()(x, y) && ToolLe()(y, x)
      ensures x == y
    {
      LexTotal(x.name, y.name, CharLess);
    }
    SortIgnoresOrder(a, b, ToolLe());
  }

  function SeqLe(): (Stored, Stored) -> bool {
    (a: Stored, b: Stored) => a.seqNo <= b.seqNo
  }

  function Live(messages: seq<Stored>): seq<Stored> {
    Filter(messages, (m: Stored) => m.supersededBy.None?)
  }

  function InSequence(messages: seq<Stored>): seq<Stored> {
    Sort(Live(messages), SeqLe())
  }

  // ---- Conversion ----

  function ToCanonical(m: Stored, current: string): Message {
    Message(m.role, m.content, if current in m.artifacts then Some(m.artifacts[current]) else None)
  }

  predicate DropsArtifact(m: Stored, current: string) {
    m.artifacts != map[] && current !in m.artifacts
  }

  function Convert(ms: seq<Stored>, current: string): seq<Message> {
    seq(|ms|, i requires 0 <= i < |ms| => ToCanonical(ms[i], current))
  }

  /** White space and line ends, as `trim` takes them. */
  predicate IsSpace(c: char) {
    var u := c as int;
    || 0x09 <= u <= 0x0D || u == 0x20 || u == 0xA0 || u == 0x1680 || 0x2000 <= u <= 0x200A
    || u == 0x2028 || u == 0x2029 || u == 0x202F || u == 0x205F || u == 0x3000 || u == 0xFEFF
  }

  predicate Blank(text: string) {
    forall i :: 0 <= i < |text| ==> IsSpace(text[i])
  }

  // ---- Breakpoints ----

  const CACHE_ANCHOR_STRIDE: nat := 8

  function BreakpointsFor(count: nat, cache: PromptCache): (bps: seq<nat>)
    ensures |bps| <= 2 && forall i :: 0 <= i < |bps| ==> bps[i] + 3 <= count
    ensures forall i, j :: 0 <= i < j < |bps| ==> bps[i] < bps[j]
  {
    if !cache.supported || !cache.strategy.ExplicitBreakpoints? then []
    else
      var stableThrough := count - 3;
      if stableThrough < 0 then []
      else
        var max := if cache.maxBreakpoints.Some? then cache.maxBreakpoints.value else 1;
        if max <= 1 then [stableThrough]
        else
          var anchor := (stableThrough + 1) / CACHE_ANCHOR_STRIDE * CACHE_ANCHOR_STRIDE - 1;
          if 0 <= anchor < stableThrough then [anchor, stableThrough] else [stableThrough]
  }

  /** With at least two breakpoints and ten messages, the first one moves only once every eight messages. */
  lemma FirstBreakpointIsStable(m: nat, n: nat, cache: PromptCache)
    requires cache.supported && cache.strategy.ExplicitBreakpoints? && cache.maxBreakpoints.Some? && cache.maxBreakpoints.value >= 2
    requires m >= 10 && (m - 2) / CACHE_ANCHOR_STRIDE == (n - 2) / CACHE_ANCHOR_STRIDE
    ensures BreakpointsFor(m, cache) != [] && BreakpointsFor(n, cache) != []
    ensures BreakpointsFor(m, cache)[0] == BreakpointsFor(n, cache)[0] == (m - 2) / CACHE_ANCHOR_STRIDE * CACHE_ANCHOR_STRIDE - 1
  {
    assert (m - 2) / CACHE_ANCHOR_STRIDE >= 1;
    assert n >= 10;
  }

  // ---- Assembly ----

  /** What `assemblePrompt` produces. */
  function Assembled(input: AssembleInput): Request {
    var messages := Answer(Convert(InSequence(input.messages), input.providerKey));
    Request(
      Filter(OrderDirectives(input.directives), (d: Directive) => !Blank(d.text)),
      messages,
      OrderTools(input.tools),
      input.toolChoice,
      BreakpointsFor(|messages|, input.cache))
  }

  function CountDropped(ms: seq<Stored>, current: string): nat {
    if ms == [] then 0 else CountDropped(ms[..|ms| - 1], current) + if DropsArtifact(ms[|ms| - 1], current) then 1 else 0
  }

  /** `assemblePrompt`: the accumulating loop over the live messages, then the repair. */
  method AssemblePrompt(input: AssembleInput) returns (prompt: Prompt)
    ensures prompt.request == Assembled(input)
    ensures prompt.droppedArtifacts == CountDropped(InSequence(input.messages), input.providerKey)
  {
    var system := Filter(OrderDirectives(input.directives), (d: Directive) => !Blank(d.text));
    var tools := OrderTools(input.tools);
    var live := InSequence(input.messages);
    var dropped := 0;
    var messages: seq<Message> := [];
    for i := 0 to |live|
      invariant messages == Convert(live[..i], input.providerKey)
      invariant dropped == CountDropped(live[..i], input.providerKey)
    {
      assert live[..i + 1][..i] == live[..i];
      if DropsArtifact(live[i], input.providerKey) {
        dropped := dropped + 1;
      }
      messages := messages + [ToCanonical(live[i], input.providerKey)];
    }
    assert live[..|live|] == live;
    var answered;
    messages, answered := AnswerOrphanedToolCalls(messages);
    prompt := Prompt(Request(system, messages, tools, input.toolChoice, BreakpointsFor(|messages|, input.cache)), dropped);
  }

  // ---- The cached prefix ----

  function CachedPrefixOf(r: Request): Option<seq<Message>>
    requires forall i :: 0 <= i < |r.breakpointsAfter| ==> r.breakpointsAfter[i] < |r.messages|
  {
    if r.breakpointsAfter == [] then None
    else Some(r.messages[..r.breakpointsAfter[|r.breakpointsAfter| - 1] + 1])
  }

  /** `prefixIsPreserved`, on values rather than on their canonical text; equal values have equal text. */
  predicate PrefixIsPreserved(before: Request, after: Request)
    requires forall i :: 0 <= i < |before.breakpointsAfter| ==> before.breakpointsAfter[i] < |before.messages|
  {
    var cached := CachedPrefixOf(before);
    cached.None?
    || (&& before.system == after.system
        && before.tools == after.tools
        && |after.messages| >= |cached.value|
        && cached.value == after.messages[..|cached.value|])
  }

  /** Everything a breakpoint's fingerprint digests. */
  datatype Digested = Digested(system: seq<Directive>, tools: seq<ToolDeclaration>, toolChoice: string, messages: seq<Message>)

  function DigestedThrough(r: Request, through: nat): Digested
    requires through < |r.messages|
  {
    Digested(r.system, r.tools, r.toolChoice, r.messages[..through + 1])
  }

  /**
   `later` is the same conversation after more turns: same model and directives, the same tools in any order,
   and a history that only gained messages (`added`) with larger `seq`, loaded in any order.
   */
  ghost predicate LaterTurn(earlier: AssembleInput, later: AssembleInput, added: seq<Stored>) {
    && later.providerKey == earlier.providerKey && later.cache == earlier.cache
    && later.directives == earlier.directives && later.toolChoice == earlier.toolChoice
    && multiset(later.tools) == multiset(earlier.tools) && DistinctNames(earlier.tools)
    && multiset(Live(later.messages)) == multiset(Live(earlier.messages)) + multiset(added)
    && (forall x, y :: x in Live(later.messages) && y in Live(later.messages) && x.seqNo == y.seqNo ==> x == y)
    && (forall x, y :: x in Live(earlier.messages) && y in added ==> x.seqNo < y.seqNo)
  }

  lemma HistoryGrows(earlier: AssembleInput, later: AssembleInput, added: seq<Stored>)
    requires LaterTurn(earlier, later, added)
    ensures InSequence(later.messages) == InSequence(earlier.messages) + Sort(added, SeqLe())
  {
    SortAppends(Live(earlier.messages), added, Live(later.messages), SeqLe());
  }

  lemma ConvertAppends(a: seq<Stored>, b: seq<Stored>, key: string)
    ensures Convert(a + b, key) == Convert(a, key) + Convert(b, key)
  {
  }

  lemma MessagesGrow(earlier: AssembleInput, later: AssembleInput, added: seq<Stored>)
    requires LaterTurn(earlier, later, added)
    ensures Answer(Convert(InSequence(earlier.messages), earlier.providerKey)) <= Answer(Convert(InSequence(later.messages), later.providerKey))
  {
    HistoryGrows(earlier, later, added);
    var key, a, b := earlier.providerKey, InSequence(earlier.messages), Sort(added, SeqLe());
    ConvertAppends(a, b, key);
    AnswerIsMonotone(Convert(a, key), Convert(b, key));
  }

  /** The later prompt begins with the whole of the earlier one's messages, and shares its system and tools. */
  lemma PromptGrows(earlier: AssembleInput, later: AssembleInput, added: seq<Stored>)
    requires LaterTurn(earlier, later, added)
    ensures Assembled(earlier).messages <= Assembled(later).messages
    ensures Assembled(earlier).system == Assembled(later).system && Assembled(earlier).tools == Assembled(later).tools
  {
    MessagesGrow(earlier, later, added);
    OrderToolsIgnoresDiscovery(earlier.tools, later.tools);
  }

  lemma BreakpointsInRange(input: AssembleInput)
    ensures forall i :: 0 <= i < |Assembled(input).breakpointsAfter| ==> Assembled(input).breakpointsAfter[i] < |Assembled(input).messages|
  {
  }

  /** The cached prefix of a prompt is never invalidated by the conversation going on. */
  lemma CachedPrefixSurvives(earlier: AssembleInput, later: AssembleInput, added: seq<Stored>)
    requires LaterTurn(earlier, later, added)
    ensures forall i :: 0 <= i < |Assembled(earlier).breakpointsAfter| ==> Assembled(earlier).breakpointsAfter[i] < |Assembled(earlier).messages|
    ensures PrefixIsPreserved(Assembled(earlier), Assembled(later))
  {
    PromptGrows(earlier, later, added);
    BreakpointsInRange(earlier);
    var before, after := Assembled(earlier), Assembled(later);
    var cached := CachedPrefixOf(before);
    if cached.Some? {
      assert before.messages == after.messages[..|before.messages|];
      assert after.messages[..|before.messages|][..|cached.value|] == after.messages[..|cached.value|];
    }
  }

  /**
   With two or more breakpoints and at least ten messages, the first breakpoint and everything its
   fingerprint digests stay fixed while the message count stays within one block of eight.
   */
  lemma AnchorIsStable(earlier: AssembleInput, later: AssembleInput, added: seq<Stored>)
    requires LaterTurn(earlier, later, added)
    requires earlier.cache.supported && earlier.cache.strategy.ExplicitBreakpoints? && earlier.cache.maxBreakpoints.Some? && earlier.cache.maxBreakpoints.value >= 2
    requires |Assembled(earlier).messages| >= 10
    requires (|Assembled(earlier).messages| - 2) / CACHE_ANCHOR_STRIDE == (|Assembled(later).messages| - 2) / CACHE_ANCHOR_STRIDE
    ensures Assembled(earlier).breakpointsAfter != [] && Assembled(later).breakpointsAfter != []
    ensures Assembled(earlier).breakpointsAfter[0] == Assembled(later).breakpointsAfter[0] < |Assembled(earlier).messages| <= |Assembled(later).messages|
    ensures DigestedThrough(Assembled(earlier), Assembled(earlier).breakpointsAfter[0]) ==
      DigestedThrough(Assembled(later), Assembled(later).breakpointsAfter[0])
  {
    PromptGrows(earlier, later, added);
    var before, after := Assembled(earlier), Assembled(later);
    FirstBreakpointIsStable(|before.messages|, |after.messages|, earlier.cache);
    DigestSurvives(before, after, before.breakpointsAfter[0]);
  }

  lemma DigestSurvives(before: Request, after: Request, through: nat)
    requires before.system == after.system && before.tools == after.tools && before.toolChoice == after.toolChoice
    requires before.messages <= after.messages && through < |before.messages|
    ensures DigestedThrough(before, through) == DigestedThrough(after, through)
  {
    assert before.messages == after.messages[..|before.messages|];
    assert after.messages[..|before.messages|][..through + 1] == after.messages[..through + 1];
  }
}
