/**
 One step of the agent runtime, and what it keeps of the conversation.

 A step does exactly one of: nothing but stop or finish, a tool phase, a compaction, a model call. Every
 provider refuses a history in which a `tool_use` is not answered by the very next message, or a
 `tool_result` answers nothing just before it. The store invariant `HistOk` is kept by every write of every
 step, and every request sent is well formed in both directions.
 */
module AgentRuntime {
  import opened Options
  import opened Seqs
  import opened Sorting
  import opened Conversation
  import opened ContextAssembler
  import opened Compaction
  import LoopDetection
  import Phases = ToolPhase

  // ---- The shape of a stored conversation ----

  /** The calls a message is waiting on. */
  function Awaiting(role: Role, content: seq<Block>): set<string> {
    if role.Assistant? then set id | id in Asked(content) else {}
  }

  /** Message m may stand right after `previous`. */
  predicate Follows(previous: Stored, m: Stored) {
    && (m.role.Tool? ==> previous.role.Assistant? && Asked(previous.content) != [] && Given(m.content) <= Awaiting(previous.role, previous.content))
  }

  predicate WellMade(m: Stored) {
    && (Given(m.content) != {} ==> m.role.Tool?)
    && (Asked(m.content) != [] ==> m.role.Assistant?)
  }

  /** Results only in tool messages, each right after the request it answers; requests only by the assistant. */
  ghost predicate HistOk(live: seq<Stored>) {
    && (forall i :: 0 <= i < |live| ==> WellMade(live[i]))
    && (live != [] ==> !live[0].role.Tool?)
    && (forall i :: 0 < i < |live| ==> Follows(live[i - 1], live[i]))
  }

  /** The stored list is in `seq` order with distinct ids. */
  ghost predicate InStoreOrder(ms: seq<Stored>) {
    && (forall i, j :: 0 <= i < j < |ms| ==> ms[i].seqNo < ms[j].seqNo)
    && (forall i, j :: 0 <= i < j < |ms| ==> ms[i].id != ms[j].id)
  }

  ghost predicate StoreOk(ms: seq<Stored>) {
    InStoreOrder(ms) && HistOk(Live(ms))
  }

  // ---- Writes ----

  /** The list with ids superseded. */
  function SupersedeIn(ms: seq<Stored>, ids: set<string>, heir: string): seq<Stored> {
    seq(|ms|, i requires 0 <= i < |ms| => if ms[i].id in ids then ms[i].(supersededBy := Some(heir)) else ms[i])
  }

  lemma LiveAppend(ms: seq<Stored>, m: Stored)
    requires m.supersededBy.None?
    ensures Live(ms + [m]) == Live(ms) + [m]
  {
    FilterAppend(ms, [m], (x: Stored) => x.supersededBy.None?);
    assert Filter([m], (x: Stored) => x.supersededBy.None?) == [m];
  }

  lemma {:induction false} LiveSupersede(ms: seq<Stored>, ids: set<string>, heir: string)
    ensures Live(SupersedeIn(ms, ids, heir)) == Filter(Live(ms), (m: Stored) => m.id !in ids)
  {
    if ms != [] {
      LiveSupersede(ms[1..], ids, heir);
      var out := SupersedeIn(ms, ids, heir);
      assert out[1..] == SupersedeIn(ms[1..], ids, heir);
      if ms[0].supersededBy.None? {
        assert Live(ms)[1..] == Live(ms[1..]) && Live(ms)[0] == ms[0];
      }
    }
  }

  /** Appending in order keeps the store in order. */
  lemma AppendKeepsOrder(ms: seq<Stored>, m: Stored)
    requires InStoreOrder(ms) && (forall i :: 0 <= i < |ms| ==> ms[i].seqNo < m.seqNo && ms[i].id != m.id)
    ensures InStoreOrder(ms + [m])
  {
  }

  lemma AppendKeepsHist(live: seq<Stored>, m: Stored)
    requires HistOk(live) && WellMade(m)
    requires m.role.Tool? ==> live != [] && Follows(live[|live| - 1], m)
    ensures HistOk(live + [m])
  {
  }

  /** A cut is legal exactly when it leaves a well-formed rest: no request is separated from its result. */
  lemma LegalCutKeepsHist(live: seq<Stored>, cut: nat)
    requires HistOk(live) && cut <= |live|
    ensures IsLegalBoundary(live, cut) <==> HistOk(live[cut..])
  {
    if 0 < cut < |live| {
      assert Follows(live[cut - 1], live[cut]) && WellMade(live[cut]);
      assert live[cut..][0] == live[cut];
    }
    forall i | 0 < i < |live[cut..]|
      ensures Follows(live[cut..][i - 1], live[cut..][i])
    {
      assert Follows(live[cut + i - 1], live[cut + i]);
    }
  }

  function IdsOf(ms: seq<Stored>): set<string> {
    set m | m in ms :: m.id
  }

  /** Messages of two parts of a list with distinct ids have different ids. */
  lemma IdsApart(live: seq<Stored>, cut: nat)
    requires InStoreOrder(live) && cut <= |live|
    ensures forall m :: m in live[cut..] ==> m.id !in IdsOf(live[..cut])
  {
    forall m | m in live[cut..]
      ensures m.id !in IdsOf(live[..cut])
    {
      var j :| 0 <= j < |live[cut..]| && live[cut..][j] == m;
      forall e | e in live[..cut]
        ensures e.id != m.id
      {
        var i :| 0 <= i < cut && live[..cut][i] == e;
        assert live[i].id != live[cut + j].id;
      }
    }
  }

  lemma FilterOutPrefix(live: seq<Stored>, cut: nat)
    requires InStoreOrder(live) && cut <= |live|
    ensures Filter(live, (m: Stored) => m.id !in IdsOf(live[..cut])) == live[cut..]
  {
    var keep := (m: Stored) => m.id !in IdsOf(live[..cut]);
    IdsApart(live, cut);
    assert live == live[..cut] + live[cut..];
    FilterAppend(live[..cut], live[cut..], keep);
    FilterKeepsNone(live[..cut], keep);
    FilterKeepsAll(live[cut..], keep);
  }

  /** Supersession of exactly the first `cut` live messages leaves the others. */
  lemma SupersedePrefix(ms: seq<Stored>, cut: nat, heir: string)
    requires InStoreOrder(ms) && cut <= |Live(ms)|
    ensures Live(SupersedeIn(ms, IdsOf(Live(ms)[..cut]), heir)) == Live(ms)[cut..]
    ensures InStoreOrder(SupersedeIn(ms, IdsOf(Live(ms)[..cut]), heir))
  {
    LiveSupersede(ms, IdsOf(Live(ms)[..cut]), heir);
    LiveIdsDistinct(ms);
    FilterOutPrefix(Live(ms), cut);
  }

  /**
   Compaction keeps the invariant at both of its writes: with the summary appended and the old part still
   live, and after the old part is superseded.
   */
  lemma CompactionKeeps(ms: seq<Stored>, cut: nat, summary: Stored)
    requires StoreOk(ms) && cut <= |Live(ms)| && IsLegalBoundary(Live(ms), cut)
    requires WellMade(summary) && summary.role.System? && summary.supersededBy.None?
    requires forall i :: 0 <= i < |ms| ==> ms[i].seqNo < summary.seqNo && ms[i].id != summary.id
    ensures StoreOk(ms + [summary])
    ensures var after := SupersedeIn(ms + [summary], IdsOf(Live(ms)[..cut]), summary.id);
      StoreOk(after) && Live(after) == Live(ms)[cut..] + [summary]
  {
    var live := Live(ms);
    AppendKeepsHist(live, summary);
    LiveAppend(ms, summary);
    AppendKeepsOrder(ms, summary);
    assert (live + [summary])[..cut] == live[..cut];
    assert (live + [summary])[cut..] == live[cut..] + [summary];
    SupersedePrefix(ms + [summary], cut, summary.id);
    LegalCutKeepsHist(live, cut);
    AppendKeepsHist(live[cut..], summary);
  }

  lemma {:induction false} LiveIdsDistinct(ms: seq<Stored>)
    requires InStoreOrder(ms)
    ensures InStoreOrder(Live(ms))
  {
    if ms != [] {
      LiveIdsDistinct(ms[1..]);
      var rest := Live(ms[1..]);
      forall j | 0 <= j < |rest|
        ensures ms[0].seqNo < rest[j].seqNo && ms[0].id != rest[j].id
      {
        assert rest[j] in rest && rest[j] in ms[1..];
      }
    }
  }

  /** Loading in `seq` order makes the assembler's sort the identity. */
  lemma InSequenceIsLive(ms: seq<Stored>)
    requires InStoreOrder(ms)
    ensures InSequence(ms) == Live(ms)
  {
    LiveIdsDistinct(ms);
    var live := Live(ms);
    SortSorts(live, SeqLe());
    forall x, y | x in live && y in live && SeqLe()(x, y) && SeqLe()(y, x)
      ensures x == y
    {
      var i :| 0 <= i < |live| && live[i] == x;
      var j :| 0 <= j < |live| && live[j] == y;
    }
    SortedUnique(live, Sort(live, SeqLe()), SeqLe());
  }

  // ---- Requests ----

  /** Each result in message i answers a call of message i - 1. */
  ghost predicate Backed(ms: seq<Message>) {
    forall i :: 0 < i < |ms| ==> Given(ms[i].content) <= Awaiting(ms[i - 1].role, ms[i - 1].content)
  }

  /** What a provider accepts: every call answered in the very next message, every result asked for just before. */
  ghost predicate Acceptable(ms: seq<Message>) {
    && Paired(ms)
    && (ms != [] ==> Awaiting(ms[|ms| - 1].role, ms[|ms| - 1].content) == {})
    && Backed(ms)
    && (ms != [] ==> Given(ms[0].content) == {})
  }

  lemma BackedCons(m: Message, rest: seq<Message>)
    requires Backed(rest) && (rest != [] ==> Given(rest[0].content) <= Awaiting(m.role, m.content))
    ensures Backed([m] + rest)
  {
    var ms := [m] + rest;
    forall i | 0 < i < |ms|
      ensures Given(ms[i].content) <= Awaiting(ms[i - 1].role, ms[i - 1].content)
    {
      if i > 1 {
        assert ms[i] == rest[i - 1] && ms[i - 1] == rest[i - 2];
      }
    }
  }

  lemma BackedTail(ms: seq<Message>, k: nat)
    requires Backed(ms) && k <= |ms|
    ensures Backed(ms[k..])
  {
    forall i | 0 < i < |ms[k..]|
      ensures Given(ms[k..][i].content) <= Awaiting(ms[k..][i - 1].role, ms[k..][i - 1].content)
    {
      assert ms[k..][i] == ms[k + i] && ms[k..][i - 1] == ms[k + i - 1];
    }
  }

  lemma RepairedIsBacked(asking: Message, next: Message)
    requires Missing(asking, next) != [] && Given(next.content) <= Awaiting(asking.role, asking.content)
    ensures Given(Repaired(next, Missing(asking, next))[0].content) <= Awaiting(asking.role, asking.content)
  {
    var missing := Missing(asking, next);
    GivenResults(missing);
    assert Given(next.content + Results(missing)) == Given(next.content) + Given(Results(missing));
  }

  ghost predicate ResultsInToolMessages(ms: seq<Message>) {
    forall i :: 0 <= i < |ms| && !ms[i].role.Tool? ==> Given(ms[i].content) == {}
  }

  lemma BackedPlain(ms: seq<Message>)
    requires |ms| >= 2 && Missing(ms[0], ms[1]) == [] && Backed(ms) && Backed(Answer(Rest(ms)))
    ensures Backed(Answer(ms))
  {
    AnswerHead(ms[1..]);
    assert Answer(ms) == [ms[0]] + Answer(ms[1..]);
    BackedCons(ms[0], Answer(ms[1..]));
  }

  lemma BackedRepaired(ms: seq<Message>)
    requires |ms| >= 2 && Missing(ms[0], ms[1]) != [] && Backed(ms) && Backed(Answer(Rest(ms))) && ResultsInToolMessages(ms)
    requires Rest(ms) != [] ==> Given(Rest(ms)[0].content) <= Awaiting(Tool, Repaired(ms[1], Missing(ms[0], ms[1]))[0].content)
    ensures Backed(Answer(ms))
  {
    var rest := Rest(ms);
    var t := Repaired(ms[1], Missing(ms[0], ms[1]))[0];
    RepairedIsBacked(ms[0], ms[1]);
    if rest != [] {
      AnswerHead(rest);
    }
    BackedConsTwice(ms[0], t, Answer(rest));
    assert Answer(ms) == [ms[0]] + Repaired(ms[1], Missing(ms[0], ms[1])) + Answer(rest);
  }

  lemma BackedConsTwice(m: Message, t: Message, rest: seq<Message>)
    requires Backed(rest) && (rest != [] ==> Given(rest[0].content) <= Awaiting(t.role, t.content))
    requires Given(t.content) <= Awaiting(m.role, m.content)
    ensures Backed([m] + [t] + rest)
  {
    BackedCons(t, rest);
    BackedCons(m, [t] + rest);
    assert [m] + ([t] + rest) == [m] + [t] + rest;
  }

  /** The repair adds results only right after the calls they answer, and moves no result away from its call. */
  lemma {:induction false} AnswerKeepsBacked(ms: seq<Message>)
    requires Backed(ms) && ResultsInToolMessages(ms)
    ensures Backed(Answer(ms))
    decreases |ms|
  {
    if |ms| >= 2 {
      var rest := Rest(ms);
      BackedTail(ms, |ms| - |rest|);
      AnswerKeepsBacked(rest);
      if Missing(ms[0], ms[1]) == [] {
        BackedPlain(ms);
      } else {
        BackedRepaired(ms);
      }
    }
  }

  lemma {:induction false} AnswerLast(ms: seq<Message>)
    requires ms != [] && !ms[|ms| - 1].role.Assistant?
    ensures Answer(ms) != [] && !Answer(ms)[|Answer(ms)| - 1].role.Assistant?
    decreases |ms|
  {
    if |ms| >= 2 {
      var rest := Rest(ms);
      if rest != [] {
        AnswerLast(rest);
      }
    }
  }

  /** A conversation in order whose last live message is not the assistant's makes an acceptable request. */
  lemma RequestIsAcceptable(input: AssembleInput)
    requires StoreOk(input.messages)
    requires Live(input.messages) == [] || !Live(input.messages)[|Live(input.messages)| - 1].role.Assistant?
    ensures Acceptable(Assembled(input).messages)
  {
    var live := Live(input.messages);
    InSequenceIsLive(input.messages);
    var ms := Convert(live, input.providerKey);
    assert Assembled(input).messages == Answer(ms);
    assert forall i :: 0 <= i < |ms| ==> WellMade(live[i]);
    ConvertIsBacked(live, input.providerKey);
    ResultsInToolMessagesAreNotSplit(ms);
    AnswerPairs(ms);
    AnswerKeepsBacked(ms);
    if ms != [] {
      AnswerHead(ms);
      AnswerLast(ms);
    }
  }

  lemma ConvertIsBacked(live: seq<Stored>, key: string)
    requires HistOk(live)
    ensures Backed(Convert(live, key))
  {
    var ms := Convert(live, key);
    forall i | 0 < i < |ms|
      ensures Given(ms[i].content) <= Awaiting(ms[i - 1].role, ms[i - 1].content)
    {
      assert Follows(live[i - 1], live[i]) && WellMade(live[i]);
    }
  }

  // ---- One step ----

  /** The calls the `tool_use` blocks ask for, in order. */
  function CallsOf(content: seq<Block>): seq<Phases.Call> {
    if content == [] then []
    else (if content[0].ToolUse? then [Phases.Call(content[0].id, content[0].name, content[0].input)] else []) + CallsOf(content[1..])
  }

  lemma {:induction false} CallsOfIds(content: seq<Block>)
    ensures |CallsOf(content)| == |Asked(content)|
    ensures forall i :: 0 <= i < |Asked(content)| ==> CallsOf(content)[i].id == Asked(content)[i]
  {
    if content != [] {
      CallsOfIds(content[1..]);
    }
  }

  predicate IsUse(b: Block) {
    b.ToolUse?
  }

  /** One call for each `tool_use` block and no other, in order, with its id, name and arguments. */
  lemma {:induction false} CallsAreTheUses(content: seq<Block>)
    ensures var uses, calls := Filter(content, IsUse), CallsOf(content);
      |calls| == |uses| && forall i :: 0 <= i < |uses| ==> uses[i] == ToolUse(calls[i].id, calls[i].canonicalName, calls[i].input)
  {
    if content != [] {
      CallsAreTheUses(content[1..]);
      var uses, calls := Filter(content[1..], IsUse), CallsOf(content[1..]);
      if content[0].ToolUse? {
        assert Filter(content, IsUse) == [content[0]] + uses;
        assert CallsOf(content) == [Phases.Call(content[0].id, content[0].name, content[0].input)] + calls;
      } else {
        assert Filter(content, IsUse) == uses && CallsOf(content) == [] + calls;
      }
    }
  }

  /** `pendingToolCalls`: the calls of the last live message, if it is the assistant's and has any. */
  function PendingToolCalls(ms: seq<Stored>): Option<seq<Phases.Call>> {
    var live := Live(ms);
    if live == [] || !live[|live| - 1].role.Assistant? then None
    else if CallsOf(live[|live| - 1].content) == [] then None
    else Some(CallsOf(live[|live| - 1].content))
  }

  datatype StopReason = StopBudget | StopLoop | StopKillSwitch | StopModelError
  datatype Did = DidModelCall | DidToolPhase | DidCompaction

  datatype StepOutcome =
    | Continue(did: Did)
    | Finished
    | Suspended(waitFor: Phases.SuspendReason)
    | Stopped(reason: StopReason)

  /** Everything outside the conversation that decides a step. The gateway answers each call by its id. */
  datatype Surroundings = Surroundings(
    killed: bool, budgetOk: bool, toolBudget: nat -> bool,
    gateway: string -> Phases.Reply, parallelCalls: bool, maxParallel: nat,
    limit: real, target: real, keepRecent: int, summary: string,
    reply: Option<seq<Block>>, artifact: Option<string>, providerKey: string, cache: PromptCache,
    directives: seq<Directive>, tools: seq<ToolDeclaration>)

  lemma {:induction false} NoUses(bs: seq<Block>)
    requires forall i :: 0 <= i < |bs| ==> !bs[i].ToolUse?
    ensures Asked(bs) == []
  {
    if bs != [] {
      NoUses(bs[1..]);
    }
  }

  ghost predicate NoRepeats(ids: seq<string>) {
    forall i, j :: 0 <= i < j < |ids| ==> ids[i] != ids[j]
  }

  /** A model gives the calls of one message different ids. */
  ghost predicate CallsDiffer(ms: seq<Stored>) {
    forall i :: 0 <= i < |ms| ==> NoRepeats(Asked(ms[i].content))
  }

  /** Results are filed under the id of the call they answer. */
  ghost predicate FiledById(saved: map<string, Phases.Done>) {
    forall id :: id in saved ==> saved[id].id == id
  }

  /** The run's store: its conversation, and the tool results that are durable. */
  class Store {
    var messages: seq<Stored>
    var saved: map<string, Phases.Done>

    ghost predicate Valid()
      reads this
    {
      StoreOk(messages) && CallsDiffer(messages) && FiledById(saved)
    }

    constructor ()
      ensures Valid() && messages == [] && saved == map[]
    {
      messages, saved := [], map[];
    }

    /** `appendMessage`. */
    method Append(m: Stored)
      requires Valid() && m.supersededBy.None? && WellMade(m) && IsFree(messages, Slot(m.id, m.seqNo)) && NoRepeats(Asked(m.content))
      requires m.role.Tool? ==> Live(messages) != [] && Follows(Live(messages)[|Live(messages)| - 1], m)
      modifies this`messages
      ensures Valid()
      ensures messages == old(messages) + [m] && Live(messages) == old(Live(messages)) + [m]
    {
      AppendKeepsHist(Live(messages), m);
      LiveAppend(messages, m);
      AppendKeepsOrder(messages, m);
      messages := messages + [m];
    }

    /** `supersede`. */
    method Supersede(ids: set<string>, heir: string)
      requires Valid() && StoreOk(SupersedeIn(messages, ids, heir))
      modifies this`messages
      ensures Valid() && messages == SupersedeIn(old(messages), ids, heir)
      ensures |messages| == |old(messages)|
      ensures forall i :: 0 <= i < |messages| && old(messages)[i].id in ids ==> messages[i] == old(messages)[i].(supersededBy := Some(heir))
      ensures forall i :: 0 <= i < |messages| && old(messages)[i].id !in ids ==> messages[i] == old(messages)[i]
    {
      messages := SupersedeIn(messages, ids, heir);
    }

    /** `saveToolResult`. */
    method SaveToolResult(d: Phases.Done)
      requires FiledById(saved)
      modifies this`saved
      ensures FiledById(saved) && saved == old(saved)[d.id := d]
    {
      saved := saved[d.id := d];
    }
  }

  /** The next free id and `seq` a store assigns. */
  datatype Slot = Slot(id: string, seqNo: int)

  ghost predicate IsFree(ms: seq<Stored>, f: Slot) {
    forall i :: 0 <= i < |ms| ==> ms[i].seqNo < f.seqNo && ms[i].id != f.id
  }

  predicate EndsWithAssistant(ms: seq<Stored>) {
    Live(ms) != [] && Live(ms)[|Live(ms)| - 1].role.Assistant?
  }

  /** A reply of the model: no results in it, and its calls have different ids. */
  ghost predicate ModelReply(reply: Option<seq<Block>>) {
    reply.Some? ==> Given(reply.value) == {} && NoRepeats(Asked(reply.value))
  }

  // ---- What a step without pending calls does ----

  /** The message a reply of the model becomes. */
  ghost predicate IsReply(m: Stored, env: Surroundings, slot: Slot) {
    && env.reply.Some? && m.id == slot.id && m.seqNo == slot.seqNo && m.supersededBy == None
    && m.role == Assistant && m.content == env.reply.value && m.tokenEstimate == Some(EstimateTokens(env.reply.value))
    && (env.artifact.Some? ==> m.artifacts == map[env.providerKey := env.artifact.value])
    && (env.artifact.None? ==> m.artifacts == map[])
  }

  /** The message a summary becomes. */
  function SummaryOf(env: Surroundings, slot: Slot): Stored {
    Stored(slot.id, slot.seqNo, System, [Text(env.summary)], map[], Some(EstimateTokens([Text(env.summary)])), None)
  }

  ghost predicate IsSummary(m: Stored, env: Surroundings, slot: Slot) {
    && m.id == slot.id && m.seqNo == slot.seqNo && m.supersededBy == None && m.role == System
    && m.content == [Text(env.summary)] && m.artifacts == map[] && m.tokenEstimate == Some(EstimateTokens(m.content))
  }

  /** Over the limit, with a legal place to cut among what the token rule gives up. */
  ghost predicate NeedsCompaction(live: seq<Stored>, env: Surroundings) {
    TokensOf(live) as real > env.limit && exists tokenCut: nat :: CanCut(live, env, tokenCut)
  }

  ghost predicate CanCut(live: seq<Stored>, env: Surroundings, tokenCut: nat) {
    IsTokenCut(live, env.target, env.keepRecent, tokenCut) && exists k :: 0 < k <= tokenCut && IsLegalBoundary(live, k)
  }

  /** What lies before the greatest legal cut was superseded by the summary, and the rest and the summary are live. */
  ghost predicate CompactedAt(before: seq<Stored>, after: seq<Stored>, env: Surroundings, slot: Slot, tokenCut: nat, cut: nat) {
    && IsTokenCut(Live(before), env.target, env.keepRecent, tokenCut) && CutsAt(Live(before), tokenCut, cut)
    && after == SupersedeIn(before + [SummaryOf(env, slot)], IdsOf(Live(before)[..cut]), slot.id)
    && Live(after) == Live(before)[cut..] + [SummaryOf(env, slot)] && IsSummary(SummaryOf(env, slot), env, slot)
  }

  /** Each of the four ways, and exactly when it is taken. */
  ghost predicate QuietStepDid(before: seq<Stored>, after: seq<Stored>, env: Surroundings, slot: Slot, out: StepOutcome) {
    if EndsWithAssistant(before) then out == Finished && after == before
    else if NeedsCompaction(Live(before), env) then
      out == Continue(DidCompaction) && exists tokenCut: nat, cut: nat :: CompactedAt(before, after, env, slot, tokenCut, cut)
    else if env.reply.None? then out == Stopped(StopModelError) && after == before
    else
      && out == (if Asked(env.reply.value) != [] then Continue(DidModelCall) else Finished)
      && |after| == |before| + 1 && before <= after && IsReply(after[|before|], env, slot)
  }

  /** The token rule gives one cut. */
  lemma TokenCutIsUnique(live: seq<Stored>, target: real, keepRecent: int, a: nat, b: nat)
    requires IsTokenCut(live, target, keepRecent, a) && IsTokenCut(live, target, keepRecent, b)
    ensures a == b
  {
    if a > 0 {
      assert !Keepable(live, target, keepRecent, a - 1);
    }
    if b > 0 {
      assert !Keepable(live, target, keepRecent, b - 1);
    }
  }

  lemma PlanDecides(plan: Plan, live: seq<Stored>, env: Surroundings, tokenCut: nat)
    requires IsTokenCut(live, env.target, env.keepRecent, tokenCut) && IsPlan(plan, live, env.limit, tokenCut)
    ensures plan.needed <==> NeedsCompaction(live, env)
  {
    if plan.needed {
      assert CanCut(live, env, tokenCut);
    }
    if NeedsCompaction(live, env) {
      var other: nat :| CanCut(live, env, other);
      TokenCutIsUnique(live, env.target, env.keepRecent, tokenCut, other);
    }
  }

  /**
   `stepOnce`, branch by branch. The store's invariant holds after the step (and, since every write keeps it,
   wherever a crash interrupts the step), and a request, if one was sent, is acceptable. Nothing that has a durable
   result is put to the gateway.
   */
  method StepOnce(store: Store, detector: LoopDetection.LoopDetector, env: Surroundings, slot: Slot)
    returns (out: StepOutcome, sent: Option<Request>, ghost invoked: seq<Phases.Call>)
    requires store.Valid() && detector.Valid() && IsFree(store.messages, slot) && ModelReply(env.reply) && env.maxParallel >= 1
    modifies store, detector
    ensures store.Valid() && detector.Valid()
    ensures sent.Some? ==> Acceptable(sent.value.messages)
    ensures sent.Some? ==> sent.value == Assembled(AssembleInput(env.providerKey, env.cache, env.directives, old(store.messages), env.tools, "auto"))
    ensures env.killed ==> out == Stopped(StopKillSwitch) && store.messages == old(store.messages)
    ensures !env.killed && !env.budgetOk ==> out == Stopped(StopBudget) && store.messages == old(store.messages)
    ensures sent.Some? <==> !env.killed && env.budgetOk && out != Continue(DidCompaction) && !EndsWithAssistant(old(store.messages))
    ensures out == Finished || out == Continue(DidModelCall) ==> PendingToolCalls(store.messages).Some? == (out == Continue(DidModelCall))
    ensures !env.killed && env.budgetOk && PendingToolCalls(old(store.messages)).None? ==>
      QuietStepDid(old(store.messages), store.messages, env, slot, out)
    ensures env.killed || !env.budgetOk || PendingToolCalls(old(store.messages)).None? ==>
      store.saved == old(store.saved) && detector.log == old(detector.log) && invoked == []
    ensures !env.killed && env.budgetOk && PendingToolCalls(old(store.messages)).Some? ==>
      var calls := PendingToolCalls(old(store.messages)).value;
      && PhaseDid(old(store.messages), old(store.saved), store.messages, store.saved, env, calls, invoked, out)
      && PhaseWasJudged(old(detector.recent), detector.threshold, detector.window, old(detector.log), detector.log, env, old(store.saved), calls, out)
  {
    if env.killed {
      return Stopped(StopKillSwitch), None, [];
    }
    if !env.budgetOk {
      return Stopped(StopBudget), None, [];
    }
    var pending := PendingToolCalls(store.messages);
    if pending.Some? {
      sent := None;
      out, invoked := ToolPhase(store, detector, env, slot, pending.value);
      return;
    }
    invoked := [];
    out, sent := NothingPending(store, env, slot);
  }

  /** The rest of a step when no call waits for a result: nothing to answer, a compaction, or a model call. */
  method NothingPending(store: Store, env: Surroundings, slot: Slot) returns (out: StepOutcome, sent: Option<Request>)
    requires store.Valid() && IsFree(store.messages, slot) && ModelReply(env.reply) && PendingToolCalls(store.messages).None?
    modifies store`messages
    ensures store.Valid()
    ensures sent.Some? ==> Acceptable(sent.value.messages)
    ensures sent.Some? ==> sent.value == Assembled(AssembleInput(env.providerKey, env.cache, env.directives, old(store.messages), env.tools, "auto"))
    ensures sent.Some? <==> out != Continue(DidCompaction) && !EndsWithAssistant(old(store.messages))
    ensures out == Finished || out == Continue(DidModelCall) ==> PendingToolCalls(store.messages).Some? == (out == Continue(DidModelCall))
    ensures QuietStepDid(old(store.messages), store.messages, env, slot, out)
  {
    sent := None;
    var live := Live(store.messages);
    if live != [] && live[|live| - 1].role.Assistant? {
      return Finished, None;
    }
    var plan, tokenCut := PlanCompaction(store.messages, env.limit, env.target, env.keepRecent);
    PlanDecides(plan, live, env, tokenCut);
    if plan.needed {
      Compact(store, env, slot, plan);
      assert CompactedAt(old(store.messages), store.messages, env, slot, tokenCut, |plan.toSummarise|);
      return Continue(DidCompaction), None;
    }
    out, sent := ModelCall(store, env, slot);
  }

  // ---- The tool phase ----

  /** One result per call, in the order asked, each under its call's id. */
  ghost predicate AnswersAll(content: seq<Block>, calls: seq<Phases.Call>) {
    |content| == |calls| && forall i :: 0 <= i < |calls| ==> content[i].ToolResult? && content[i].toolUseId == calls[i].id
  }

  /** The block gives the model a durable result, content and verdict. */
  ghost predicate Tells(b: Block, c: Phases.Call, d: Phases.Done) {
    b.ToolResult? && b.toolUseId == c.id && b.content == d.content && b.isError == d.isError
  }

  /** The conversation grew by one tool message that answers the calls, so none is pending. */
  ghost predicate Answered(before: seq<Stored>, after: seq<Stored>, calls: seq<Phases.Call>) {
    && |Live(after)| == |Live(before)| + 1 && Live(before) <= Live(after)
    && Live(after)[|Live(before)|].role.Tool? && AnswersAll(Live(after)[|Live(before)|].content, calls)
    && PendingToolCalls(after).None?
  }

  /** A suspended phase: the results before the first stop are durable, and that call's answer says what is waited for. */
  ghost predicate PhaseSuspended(had: map<string, Phases.Done>, has: map<string, Phases.Done>, env: Surroundings, calls: seq<Phases.Call>, waitFor: Phases.SuspendReason) {
    var outstanding := Phases.Outstanding(calls, had);
    var stop := Phases.FirstStop(outstanding, env.gateway);
    && stop < |outstanding| && Phases.WaitsFor(waitFor, env.gateway(outstanding[stop].id))
    && has == Phases.AfterPhase(had, calls, env.gateway) && Phases.HoldsResults(had, outstanding[..stop], env.gateway, has)
  }

  /** A complete phase: every outstanding call's result is durable. */
  ghost predicate PhaseCompleted(had: map<string, Phases.Done>, has: map<string, Phases.Done>, env: Surroundings, calls: seq<Phases.Call>) {
    var outstanding := Phases.Outstanding(calls, had);
    && Phases.FirstStop(outstanding, env.gateway) == |outstanding|
    && has == Phases.AfterPhase(had, calls, env.gateway) && Phases.HoldsResults(had, outstanding, env.gateway, has)
  }

  /** The message gives the model the durable result of each call. */
  ghost predicate TellsAll(content: seq<Block>, calls: seq<Phases.Call>, has: map<string, Phases.Done>) {
    |content| == |calls| && forall i :: 0 <= i < |calls| ==> calls[i].id in has && Tells(content[i], calls[i], has[calls[i].id])
  }

  /** What a tool phase did to the store, told by what it returned. */
  ghost predicate PhaseDid(before: seq<Stored>, had: map<string, Phases.Done>, after: seq<Stored>, has: map<string, Phases.Done>,
                           env: Surroundings, calls: seq<Phases.Call>, invoked: seq<Phases.Call>, out: StepOutcome) {
    && (forall c :: c in invoked ==> c in calls && c.id !in had)
    && (out == Stopped(StopBudget) <==> !env.toolBudget(|Phases.Outstanding(calls, had)|))
    && (out == Stopped(StopBudget) ==> after == before && has == had && invoked == [])
    && (out == Stopped(StopLoop) ==> Answered(before, after, calls) && has == had && invoked == [])
    && (out.Suspended? ==> after == before && PhaseSuspended(had, has, env, calls, out.waitFor))
    && (out == Continue(DidToolPhase) ==>
      Answered(before, after, calls) && PhaseCompleted(had, has, env, calls) && TellsAll(Live(after)[|Live(before)|].content, calls, has))
    && (out == Stopped(StopBudget) || out == Stopped(StopLoop) || out.Suspended? || out == Continue(DidToolPhase))
  }

  /**
   What the loop detector had to do with it: the phase is stopped for a loop exactly when it is within the budget and
   the detector does not admit its outstanding calls; and what is recorded are the calls before the first stop.
   */
  ghost predicate PhaseWasJudged(recent: seq<string>, threshold: int, window: int, log: seq<string>, after: seq<string>,
                                 env: Surroundings, had: map<string, Phases.Done>, calls: seq<Phases.Call>, out: StepOutcome) {
    var outstanding := Phases.Outstanding(calls, had);
    var admitted := LoopDetection.Admits(recent, LoopDetection.Keys(Phases.Observed(outstanding)), threshold, window);
    var stop := Phases.FirstStop(outstanding, env.gateway);
    && (out == Stopped(StopLoop) <==> env.toolBudget(|outstanding|) && !admitted)
    && after == log + if env.toolBudget(|outstanding|) && admitted then LoopDetection.Keys(Phases.Observed(outstanding[..stop])) else []
  }

  lemma AnswersGive(content: seq<Block>, calls: seq<Phases.Call>)
    requires AnswersAll(content, calls)
    ensures Given(content) == (set c | c in calls :: c.id) && Asked(content) == []
  {
    forall c | c in calls
      ensures c.id in Given(content)
    {
      var i :| 0 <= i < |calls| && calls[i] == c;
      assert content[i] in content;
    }
    NoUses(content);
  }

  /** The pending calls are the last message's, with different ids. */
  lemma PendingAre(ms: seq<Stored>, calls: seq<Phases.Call>)
    requires StoreOk(ms) && CallsDiffer(ms) && PendingToolCalls(ms) == Some(calls)
    ensures Phases.DistinctIds(calls)
    ensures var last := Live(ms)[|Live(ms)| - 1];
      Asked(last.content) != [] && Awaiting(last.role, last.content) == set c | c in calls :: c.id
  {
    var last := Live(ms)[|Live(ms)| - 1];
    assert last in Live(ms) && last in ms;
    var i :| 0 <= i < |ms| && ms[i] == last;
    CallsOfIds(last.content);
    var asked := Asked(last.content);
    forall id | id in asked
      ensures exists c :: c in calls && c.id == id
    {
      var k :| 0 <= k < |asked| && asked[k] == id;
      assert calls[k] in calls;
    }
  }

  method AppendAnswers(store: Store, slot: Slot, calls: seq<Phases.Call>, content: seq<Block>)
    requires store.Valid() && IsFree(store.messages, slot) && PendingToolCalls(store.messages) == Some(calls) && AnswersAll(content, calls)
    modifies store`messages
    ensures store.Valid() && Answered(old(store.messages), store.messages, calls)
    ensures Live(store.messages)[|old(Live(store.messages))|].content == content
  {
    PendingAre(store.messages, calls);
    AnswersGive(content, calls);
    store.Append(Stored(slot.id, slot.seqNo, Tool, content, map[], None, None));
  }

  /** `#toolPhase`: the runner is given the durable results, what it adds is made durable, and its message is appended. */
  method ToolPhase(store: Store, detector: LoopDetection.LoopDetector, env: Surroundings, slot: Slot, calls: seq<Phases.Call>)
    returns (out: StepOutcome, ghost invoked: seq<Phases.Call>)
    requires store.Valid() && detector.Valid() && IsFree(store.messages, slot) && PendingToolCalls(store.messages) == Some(calls)
    requires env.maxParallel >= 1
    modifies store, detector
    ensures store.Valid() && detector.Valid()
    ensures PhaseDid(old(store.messages), old(store.saved), store.messages, store.saved, env, calls, invoked, out)
    ensures PhaseWasJudged(old(detector.recent), detector.threshold, detector.window, old(detector.log), detector.log, env, old(store.saved), calls, out)
  {
    invoked := [];
    var persisted := store.saved;
    var outstanding := Phases.Outstanding(calls, persisted);
    if !env.toolBudget(|outstanding|) {
      return Stopped(StopBudget), [];
    }
    PendingAre(store.messages, calls);
    var outcome, completed, put := RunPhase(detector, env, calls, persisted);
    invoked := put;
    if outcome.Refused? {
      AppendAnswers(store, slot, calls, outcome.message);
      return Stopped(StopLoop), [];
    }
    out := SettlePhase(store, env, slot, calls, outcome, completed);
  }

  /** The runner's outcome, told by what each way of ending means for the store. */
  method RunPhase(detector: LoopDetection.LoopDetector, env: Surroundings, calls: seq<Phases.Call>, had: map<string, Phases.Done>)
    returns (outcome: Phases.Outcome, completed: map<string, Phases.Done>, invoked: seq<Phases.Call>)
    requires Phases.DistinctIds(calls) && detector.Valid() && env.maxParallel >= 1
    modifies detector
    ensures detector.Valid()
    ensures forall c :: c in invoked ==> c in calls && c.id !in had
    ensures outcome.Refused? ==> invoked == [] && completed == had && AnswersAll(outcome.message, calls)
    ensures outcome.Suspended? ==> PhaseSuspended(had, completed, env, calls, outcome.reason)
    ensures outcome.Complete? ==> PhaseCompleted(had, completed, env, calls)
    ensures outcome.Complete? ==> outcome.message == seq(|outcome.completed|, i requires 0 <= i < |outcome.completed| => Phases.ResultBlock(outcome.completed[i]))
    ensures !outcome.Refused? ==> outcome.completed == Phases.OrderedResults(calls, completed)
    ensures env.toolBudget(|Phases.Outstanding(calls, had)|) ==>
      PhaseWasJudged(old(detector.recent), detector.threshold, detector.window, old(detector.log), detector.log, env, had, calls, Told(outcome))
  {
    ghost var outstanding := Phases.Outstanding(calls, had);
    outcome, completed, invoked := Phases.Run(calls, had, detector, env.parallelCalls, env.maxParallel, env.gateway);
    InvokedAreOutstanding(had, calls, if env.parallelCalls then env.maxParallel else 1, env.gateway);
    assert outstanding[..|outstanding|] == outstanding;
  }

  /** What a step returns for a phase's outcome. */
  function Told(outcome: Phases.Outcome): StepOutcome {
    match outcome
    case Refused(_) => Stopped(StopLoop)
    case Suspended(reason, _, _) => Suspended(reason)
    case Complete(_, _) => Continue(DidToolPhase)
  }

  lemma InvokedAreOutstanding(had: map<string, Phases.Done>, calls: seq<Phases.Call>, concurrency: nat, gateway: string -> Phases.Reply)
    requires concurrency >= 1
    ensures forall c :: c in Phases.Invoked(had, calls, concurrency, gateway) ==> c in calls && c.id !in had
  {
    var outstanding := Phases.Outstanding(calls, had);
    assert forall c :: c in Phases.Invoked(had, calls, concurrency, gateway) ==> c in outstanding;
  }

  /** What is done with the results of an admitted phase. */
  method SettlePhase(store: Store, env: Surroundings, slot: Slot, calls: seq<Phases.Call>, outcome: Phases.Outcome, ghost completed: map<string, Phases.Done>)
    returns (out: StepOutcome)
    requires store.Valid() && IsFree(store.messages, slot) && PendingToolCalls(store.messages) == Some(calls)
    requires !outcome.Refused? && outcome.completed == Phases.OrderedResults(calls, completed)
    requires outcome.Suspended? ==> PhaseSuspended(store.saved, completed, env, calls, outcome.reason)
    requires outcome.Complete? ==> PhaseCompleted(store.saved, completed, env, calls)
    requires outcome.Complete? ==> outcome.message == seq(|outcome.completed|, i requires 0 <= i < |outcome.completed| => Phases.ResultBlock(outcome.completed[i]))
    modifies store
    ensures store.Valid() && store.saved == completed
    ensures outcome.Suspended? ==> out == Suspended(outcome.reason) && store.messages == old(store.messages)
    ensures outcome.Complete? ==> out == Continue(DidToolPhase) && Answered(old(store.messages), store.messages, calls)
    ensures outcome.Complete? ==> TellsAll(Live(store.messages)[|old(Live(store.messages))|].content, calls, completed)
  {
    PendingAre(store.messages, calls);
    ghost var had := store.saved;
    SaveResults(store, calls, completed, outcome.completed, env.gateway);
    if outcome.Suspended? {
      return Suspended(outcome.reason);
    }
    CompleteAnswers(had, calls, env.gateway, outcome.completed, outcome.message);
    AppendAnswers(store, slot, calls, outcome.message);
    out := Continue(DidToolPhase);
  }

  /** The message of a complete phase answers every call from what is durable. */
  lemma CompleteAnswers(had: map<string, Phases.Done>, calls: seq<Phases.Call>, gateway: string -> Phases.Reply, ordered: seq<Phases.Done>, message: seq<Block>)
    requires Phases.DistinctIds(calls) && FiledById(had)
    requires var out := Phases.Outstanding(calls, had); Phases.FirstStop(out, gateway) == |out|
    requires ordered == Phases.OrderedResults(calls, Phases.AfterPhase(had, calls, gateway))
    requires message == seq(|ordered|, i requires 0 <= i < |ordered| => Phases.ResultBlock(ordered[i]))
    ensures AnswersAll(message, calls)
    ensures TellsAll(message, calls, Phases.AfterPhase(had, calls, gateway))
  {
    Phases.CompletePhaseAnswersAll(had, calls, [gateway]);
    Phases.CompletePhaseHasAll(had, calls, gateway);
  }

  /** The loop that makes the phase's results durable, leaving those that were. */
  method SaveResults(store: Store, calls: seq<Phases.Call>, ghost completed: map<string, Phases.Done>, ordered: seq<Phases.Done>, ghost gateway: string -> Phases.Reply)
    requires FiledById(store.saved) && Phases.DistinctIds(calls) && completed == Phases.AfterPhase(store.saved, calls, gateway)
    requires ordered == Phases.OrderedResults(calls, completed)
    modifies store`saved
    ensures FiledById(store.saved) && store.saved == completed
  {
    var persisted := store.saved;
    Phases.OrderedCovers(persisted, calls, gateway);
    for k := 0 to |ordered|
      invariant FiledById(store.saved) && persisted.Keys <= store.saved.Keys
      invariant forall id :: id in store.saved ==> id in completed && store.saved[id] == completed[id]
      invariant forall i :: 0 <= i < k ==> ordered[i].id in store.saved
    {
      if ordered[k].id !in persisted {
        store.SaveToolResult(ordered[k]);
      }
    }
    assert store.saved.Keys == completed.Keys;
  }

  /** The summary is appended first and the rest superseded after, so a crash between leaves a valid history. */
  method Compact(store: Store, env: Surroundings, slot: Slot, plan: Plan)
    requires store.Valid() && IsFree(store.messages, slot)
    requires plan.needed && plan.toSummarise + plan.toKeep == Live(store.messages) && IsLegalBoundary(Live(store.messages), |plan.toSummarise|)
    modifies store`messages
    ensures store.Valid()
    ensures Live(store.messages) == plan.toKeep + [SummaryOf(env, slot)]
    ensures store.messages == SupersedeIn(old(store.messages) + [SummaryOf(env, slot)], IdsOf(plan.toSummarise), slot.id)
  {
    var summary := SummaryOf(env, slot);
    NoUses([Text(env.summary)]);
    assert plan.toSummarise == Live(store.messages)[..|plan.toSummarise|];
    assert plan.toKeep == Live(store.messages)[|plan.toSummarise|..];
    CompactionKeeps(store.messages, |plan.toSummarise|, summary);
    store.Append(summary);
    store.Supersede(IdsOf(plan.toSummarise), summary.id);
  }

  method ModelCall(store: Store, env: Surroundings, slot: Slot) returns (out: StepOutcome, sent: Option<Request>)
    requires store.Valid() && IsFree(store.messages, slot) && ModelReply(env.reply) && !EndsWithAssistant(store.messages)
    modifies store`messages
    ensures store.Valid()
    ensures sent == Some(Assembled(AssembleInput(env.providerKey, env.cache, env.directives, old(store.messages), env.tools, "auto")))
    ensures Acceptable(sent.value.messages)
    ensures env.reply.None? ==> out == Stopped(StopModelError) && store.messages == old(store.messages)
    ensures env.reply.Some? ==> out == (if Asked(env.reply.value) != [] then Continue(DidModelCall) else Finished)
    ensures env.reply.Some? ==> |store.messages| == |old(store.messages)| + 1 && old(store.messages) <= store.messages
    ensures env.reply.Some? ==> IsReply(store.messages[|old(store.messages)|], env, slot)
    ensures env.reply.Some? ==> PendingToolCalls(store.messages) == if Asked(env.reply.value) != [] then Some(CallsOf(env.reply.value)) else None
  {
    var input := AssembleInput(env.providerKey, env.cache, env.directives, store.messages, env.tools, "auto");
    var prompt := AssemblePrompt(input);
    RequestIsAcceptable(input);
    sent := Some(prompt.request);
    if env.reply.None? {
      return Stopped(StopModelError), sent;
    }
    AppendReply(store, env, slot);
    out := if Asked(env.reply.value) != [] then Continue(DidModelCall) else Finished;
  }

  /** The reply is stored whether or not it asks for tools. */
  method AppendReply(store: Store, env: Surroundings, slot: Slot)
    requires store.Valid() && IsFree(store.messages, slot) && ModelReply(env.reply) && env.reply.Some?
    modifies store`messages
    ensures store.Valid()
    ensures |store.messages| == |old(store.messages)| + 1 && old(store.messages) <= store.messages
    ensures IsReply(store.messages[|old(store.messages)|], env, slot)
    ensures PendingToolCalls(store.messages) == if Asked(env.reply.value) != [] then Some(CallsOf(env.reply.value)) else None
  {
    CallsOfIds(env.reply.value);
    var artifacts := if env.artifact.Some? then map[env.providerKey := env.artifact.value] else map[];
    store.Append(Stored(slot.id, slot.seqNo, Assistant, env.reply.value, artifacts, Some(EstimateTokens(env.reply.value)), None));
  }
}
