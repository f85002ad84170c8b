/**
 One tool phase, and a chain of them.

 A phase runs the calls a model asked for, in batches, and ends complete, refused, or suspended at the first
 call in order that needs a person. A suspended phase is run again later with the results that were kept.
 Call ids are distinct, as `tool_use` ids are within a message.
 */
module ToolPhase {
  import opened Options
  import opened Seqs
  import opened Conversation
  import opened LoopDetection

  datatype Call = Call(id: string, canonicalName: string, input: string)

  /** What the gateway answers; a thrown error has already become an error result. */
  datatype Reply =
    | Result(content: seq<Block>, isError: bool)
    | NeedsApproval(approvalId: string)
    | NeedsInput(approvalId: string, requestState: string)
    | NeedsTask

  datatype Done = Done(id: string, canonicalName: string, content: seq<Block>, isError: bool)

  datatype SuspendReason = Approval | Input | Task

  datatype Outcome =
    | Complete(completed: seq<Done>, message: seq<Block>)
    | Suspended(reason: SuspendReason, pendingCallId: string, completed: seq<Done>)
    | Refused(message: seq<Block>)

  ghost predicate DistinctIds(calls: seq<Call>) {
    forall i, j :: 0 <= i < j < |calls| ==> calls[i].id != calls[j].id
  }

  function Outstanding(calls: seq<Call>, already: map<string, Done>): seq<Call> {
    Filter(calls, NotIn(already))
  }

  function NotIn(already: map<string, Done>): Call -> bool {
    (c: Call) => c.id !in already
  }

  function DoneFrom(c: Call, r: Reply): Done
    requires r.Result?
  {
    Done(c.id, c.canonicalName, r.content, r.isError)
  }

  /** The first call in order that did not return a result; the number of calls when all did. */
  function FirstStop(calls: seq<Call>, reply: string -> Reply): (p: nat)
    ensures p <= |calls| && (p < |calls| ==> !reply(calls[p].id).Result?)
    ensures forall i :: 0 <= i < p ==> reply(calls[i].id).Result?
  {
    if calls == [] then 0
    else if !reply(calls[0].id).Result? then 0
    else 1 + FirstStop(calls[1..], reply)
  }

  /** The call's own id and name with the gateway's content and verdict, and nothing else. */
  ghost predicate IsResultOf(d: Done, c: Call, r: Reply) {
    r.Result? && d.id == c.id && d.canonicalName == c.canonicalName && d.content == r.content && d.isError == r.isError
  }

  /** What a complete phase tells the model of one call: what was already kept for it, or what the gateway answered. */
  ghost predicate IsAnswerTo(b: Block, c: Call, already: map<string, Done>, r: Reply) {
    if c.id in already then b.ToolResult? && b.toolUseId == already[c.id].id && b.content == already[c.id].content && b.isError == already[c.id].isError
    else r.Result? && b.ToolResult? && b.toolUseId == c.id && b.content == r.content && b.isError == r.isError
  }

  /** What is kept after a phase: what was already there and the results before the first stop. */
  function Kept(already: map<string, Done>, calls: seq<Call>, reply: string -> Reply): map<string, Done>
    requires forall i :: 0 <= i < |calls| ==> reply(calls[i].id).Result?
  {
    if calls == [] then already
    else
      var n := |calls| - 1;
      Kept(already, calls[..n], reply)[calls[n].id := DoneFrom(calls[n], reply(calls[n].id))]
  }

  function AfterPhase(already: map<string, Done>, calls: seq<Call>, reply: string -> Reply): map<string, Done> {
    var out := Outstanding(calls, already);
    Kept(already, out[..FirstStop(out, reply)], reply)
  }

  /** Batches start at multiples of the concurrency; this is the start of the one that holds index p. */
  function BatchStart(p: nat, concurrency: nat): (i: nat)
    requires concurrency >= 1
    ensures i <= p < i + concurrency
  {
    if p < concurrency then 0 else concurrency + BatchStart(p - concurrency, concurrency)
  }

  /** The end of the batch that holds index p. */
  function BatchEnd(p: nat, concurrency: nat, n: nat): nat
    requires concurrency >= 1
  {
    var e := BatchStart(p, concurrency) + concurrency;
    if e <= n then e else n
  }

  /** The outstanding calls a phase puts to the gateway: whole batches, up to the one that stops. */
  function InvokedOf(out: seq<Call>, concurrency: nat, reply: string -> Reply): seq<Call>
    requires concurrency >= 1
  {
    var p := FirstStop(out, reply);
    if p == |out| then out else out[..BatchEnd(p, concurrency, |out|)]
  }

  function Invoked(already: map<string, Done>, calls: seq<Call>, concurrency: nat, reply: string -> Reply): seq<Call>
    requires concurrency >= 1
  {
    InvokedOf(Outstanding(calls, already), concurrency, reply)
  }

  /** Results in the order the model asked. */
  function OrderedResults(calls: seq<Call>, completed: map<string, Done>): seq<Done> {
    if calls == [] then []
    else
      var last := calls[|calls| - 1];
      OrderedResults(calls[..|calls| - 1], completed) + if last.id in completed then [completed[last.id]] else []
  }

  function ReasonOf(r: Reply): SuspendReason {
    if r.NeedsApproval? then Approval else if r.NeedsInput? then Input else Task
  }

  function ResultBlock(d: Done): Block {
    ToolResult(d.id, d.content, d.isError)
  }

  function Observed(calls: seq<Call>): seq<ObservedCall> {
    seq(|calls|, i requires 0 <= i < |calls| => ObservedCall(calls[i].canonicalName, calls[i].input))
  }

  /** The detector is shown each call's name and arguments, so that two calls look alike to it only when both are equal. */
  lemma LookAlike(a: Call, b: Call)
    requires '(' !in a.canonicalName && '(' !in b.canonicalName
    ensures Keys(Observed([a])) == Keys(Observed([b])) <==> a.canonicalName == b.canonicalName && a.input == b.input
  {
    var x, y := Observed([a])[0], Observed([b])[0];
    KeyTellsApart(x, y);
    assert Keys(Observed([a])) == [KeyOf(x)] && Keys(Observed([b])) == [KeyOf(y)];
  }

  ghost predicate WaitsFor(reason: SuspendReason, r: Reply) {
    && (r.NeedsApproval? <==> reason == Approval) && (r.NeedsInput? <==> reason == Input) && (r.NeedsTask? <==> reason == Task)
  }

  /** What was there is there unchanged, and beside it exactly the results of these calls. */
  ghost predicate HoldsResults(already: map<string, Done>, done: seq<Call>, reply: string -> Reply, completed: map<string, Done>) {
    && (forall id :: id in already ==> id in completed && completed[id] == already[id])
    && (forall i :: 0 <= i < |done| ==> done[i].id in completed && IsResultOf(completed[done[i].id], done[i], reply(done[i].id)))
    && completed.Keys == already.Keys + (set c | c in done :: c.id)
  }

  // ---- The runner ----

  /**
   `ToolPhaseRunner.run`. A refused phase puts nothing to the gateway; otherwise the calls put to it, what is
   kept, and what the detector records are exactly what the first stop determines.
   */
  method Run(calls: seq<Call>, already: map<string, Done>, detector: LoopDetector, parallelCalls: bool, maxParallel: nat, reply: string -> Reply)
    returns (outcome: Outcome, completed: map<string, Done>, invoked: seq<Call>)
    requires DistinctIds(calls) && maxParallel >= 1 && detector.Valid()
    modifies detector
    ensures detector.Valid()
    ensures outcome.Refused? <==> !Admits(old(detector.recent), Keys(Observed(Outstanding(calls, already))), detector.threshold, detector.window)
    ensures outcome.Refused? ==> invoked == [] && completed == already && detector.log == old(detector.log)
    ensures outcome.Refused? ==> |outcome.message| == |calls|
    ensures outcome.Refused? ==> forall i :: 0 <= i < |calls| ==> outcome.message[i].ToolResult? && outcome.message[i].toolUseId == calls[i].id && outcome.message[i].isError
    ensures !outcome.Refused? ==>
      var out := Outstanding(calls, already);
      var p := FirstStop(out, reply);
      && invoked == Invoked(already, calls, if parallelCalls then maxParallel else 1, reply)
      && completed == AfterPhase(already, calls, reply)
      && detector.log == old(detector.log) + Keys(Observed(out[..p]))
      && outcome.completed == OrderedResults(calls, completed)
      && (outcome.Complete? <==> p == |out|)
      && (outcome.Suspended? ==> outcome.pendingCallId == out[p].id && WaitsFor(outcome.reason, reply(out[p].id)))
      && HoldsResults(already, out[..p], reply, completed)
    ensures outcome.Complete? ==> outcome.message == seq(|outcome.completed|, i requires 0 <= i < |outcome.completed| => ResultBlock(outcome.completed[i]))
    ensures outcome.Complete? ==>
      |outcome.message| == |calls| && forall i :: 0 <= i < |calls| ==> IsAnswerTo(outcome.message[i], calls[i], already, reply(calls[i].id))
  {
    var out := Outstanding(calls, already);
    completed, invoked := already, [];
    var verdict := detector.InspectPhase(Observed(out));
    if verdict.Looping? {
      var message := seq(|calls|, i requires 0 <= i < |calls| => ToolResult(calls[i].id, [Text("This exact call was already made.")], true));
      return Refused(message), already, [];
    }
    outcome, completed, invoked := RunAdmitted(calls, already, detector, if parallelCalls then maxParallel else 1, reply);
  }

  /** The rest of the phase, once the detector has let it pass. */
  method RunAdmitted(calls: seq<Call>, already: map<string, Done>, detector: LoopDetector, concurrency: nat, reply: string -> Reply)
    returns (outcome: Outcome, completed: map<string, Done>, invoked: seq<Call>)
    requires DistinctIds(calls) && concurrency >= 1 && detector.Valid()
    modifies detector
    ensures detector.Valid() && !outcome.Refused?
    ensures var out := Outstanding(calls, already);
      var p := FirstStop(out, reply);
      && invoked == Invoked(already, calls, concurrency, reply)
      && completed == AfterPhase(already, calls, reply)
      && detector.log == old(detector.log) + Keys(Observed(out[..p]))
      && outcome.completed == OrderedResults(calls, completed)
      && (outcome.Complete? <==> p == |out|)
      && (outcome.Suspended? ==> outcome.pendingCallId == out[p].id && WaitsFor(outcome.reason, reply(out[p].id)))
      && HoldsResults(already, out[..p], reply, completed)
    ensures outcome.Complete? ==> outcome.message == seq(|outcome.completed|, i requires 0 <= i < |outcome.completed| => ResultBlock(outcome.completed[i]))
    ensures outcome.Complete? ==>
      |outcome.message| == |calls| && forall i :: 0 <= i < |calls| ==> IsAnswerTo(outcome.message[i], calls[i], already, reply(calls[i].id))
  {
    var out := Outstanding(calls, already);
    var stop;
    completed, invoked, stop := RunBatches(out, already, detector, concurrency, reply);
    PhaseKeeps(already, calls, reply);
    if stop < |out| {
      return Suspended(ReasonOf(reply(out[stop].id)), out[stop].id, OrderedResults(calls, completed)), completed, invoked;
    }
    assert out[..|out|] == out;
    var ordered := OrderedResults(calls, completed);
    var message := seq(|ordered|, i requires 0 <= i < |ordered| => ResultBlock(ordered[i]));
    MessageAnswers(already, calls, reply, ordered, message);
    outcome := Complete(ordered, message);
  }

  lemma StopAt(out: seq<Call>, reply: string -> Reply, p: nat)
    requires p <= |out| && (forall i :: 0 <= i < p ==> reply(out[i].id).Result?) && (p < |out| ==> !reply(out[p].id).Result?)
    ensures FirstStop(out, reply) == p
  {
  }

  predicate IsBatchStart(i: nat, concurrency: nat)
    requires concurrency >= 1
  {
    i == 0 || (i >= concurrency && IsBatchStart(i - concurrency, concurrency))
  }

  lemma {:induction false} BatchOf(i: nat, p: nat, concurrency: nat)
    requires concurrency >= 1 && IsBatchStart(i, concurrency) && i <= p < i + concurrency
    ensures BatchStart(p, concurrency) == i
    decreases i
  {
    if i > 0 {
      BatchOf(i - concurrency, p - concurrency, concurrency);
    }
  }

  /** The phase has worked through the first k outstanding calls, all of which returned results. */
  ghost predicate WorkedThrough(out: seq<Call>, already: map<string, Done>, reply: string -> Reply, k: nat, completed: map<string, Done>, log: seq<string>, log': seq<string>) {
    && k <= |out|
    && (forall m :: 0 <= m < k ==> reply(out[m].id).Result?)
    && completed == Kept(already, out[..k], reply)
    && log' == log + Keys(Observed(out[..k]))
  }

  lemma WorkOne(out: seq<Call>, already: map<string, Done>, reply: string -> Reply, k: nat, completed: map<string, Done>, log: seq<string>, log': seq<string>)
    requires WorkedThrough(out, already, reply, k, completed, log, log') && k < |out| && reply(out[k].id).Result?
    ensures WorkedThrough(out, already, reply, k + 1, completed[out[k].id := DoneFrom(out[k], reply(out[k].id))],
                          log, log' + [KeyOf(ObservedCall(out[k].canonicalName, out[k].input))])
  {
    assert out[..k + 1][..k] == out[..k];
    assert Keys(Observed(out[..k + 1])) == Keys(Observed(out[..k])) + [KeyOf(ObservedCall(out[k].canonicalName, out[k].input))];
  }

  /** Walks the outcomes of one batch in order, until one of them is not a result. */
  method RunBatch(out: seq<Call>, ghost already: map<string, Done>, detector: LoopDetector, i: nat, end: nat, reply: string -> Reply, before: map<string, Done>, ghost log: seq<string>)
    returns (completed: map<string, Done>, k: nat)
    requires i <= end <= |out| && detector.Valid() && WorkedThrough(out, already, reply, i, before, log, detector.log)
    modifies detector
    ensures detector.Valid() && i <= k <= end && (k < end ==> !reply(out[k].id).Result?)
    ensures WorkedThrough(out, already, reply, k, completed, log, detector.log)
  {
    completed, k := before, i;
    while k < end
      invariant i <= k <= end && detector.Valid()
      invariant WorkedThrough(out, already, reply, k, completed, log, detector.log)
    {
      var call := out[k];
      var r := reply(call.id);
      if !r.Result? {
        return;
      }
      WorkOne(out, already, reply, k, completed, log, detector.log);
      completed := completed[call.id := DoneFrom(call, r)];
      detector.Record(ObservedCall(call.canonicalName, call.input));
      k := k + 1;
    }
  }

  /** The batch loop. */
  method RunBatches(out: seq<Call>, already: map<string, Done>, detector: LoopDetector, concurrency: nat, reply: string -> Reply)
    returns (completed: map<string, Done>, invoked: seq<Call>, stop: nat)
    requires concurrency >= 1 && detector.Valid()
    modifies detector
    ensures detector.Valid()
    ensures stop == FirstStop(out, reply)
    ensures completed == Kept(already, out[..stop], reply)
    ensures invoked == if stop == |out| then out else out[..BatchEnd(stop, concurrency, |out|)]
    ensures detector.log == old(detector.log) + Keys(Observed(out[..stop]))
  {
    ghost var log := detector.log;
    completed, invoked, stop := already, [], 0;
    var i := 0;
    while i < |out|
      invariant IsBatchStart(i, concurrency) && stop == if i <= |out| then i else |out|
      invariant detector.Valid() && WorkedThrough(out, already, reply, stop, completed, log, detector.log)
      invariant invoked == out[..stop]
    {
      var end := if i + concurrency <= |out| then i + concurrency else |out|;
      invoked := invoked + out[i..end];
      assert invoked == out[..end];
      completed, stop := RunBatch(out, already, detector, i, end, reply, completed, log);
      if stop < end {
        StoppedInBatch(out, reply, i, stop, concurrency, end);
        return;
      }
      i := i + concurrency;
    }
    assert out[..|out|] == out;
    StopAt(out, reply, |out|);
  }

  lemma StoppedInBatch(out: seq<Call>, reply: string -> Reply, i: nat, stop: nat, concurrency: nat, end: nat)
    requires concurrency >= 1 && IsBatchStart(i, concurrency) && i <= stop < end <= |out|
    requires end == if i + concurrency <= |out| then i + concurrency else |out|
    requires (forall m :: 0 <= m < stop ==> reply(out[m].id).Result?) && !reply(out[stop].id).Result?
    ensures stop == FirstStop(out, reply) && end == BatchEnd(stop, concurrency, |out|)
  {
    StopAt(out, reply, stop);
    BatchOf(i, stop, concurrency);
  }

  // ---- A chain of suspended and resumed phases ----

  /** What is kept after the first k phases of a chain; each resumes with what the one before kept. */
  function KeptAfter(already: map<string, Done>, calls: seq<Call>, replies: seq<string -> Reply>, k: nat): map<string, Done>
    requires k <= |replies|
  {
    if k == 0 then already
    else AfterPhase(KeptAfter(already, calls, replies, k - 1), calls, replies[k - 1])
  }

  lemma HoldsOneMore(already: map<string, Done>, done: seq<Call>, reply: string -> Reply, completed: map<string, Done>, c: Call, d: Done)
    requires HoldsResults(already, done, reply, completed) && IsResultOf(d, c, reply(c.id)) && c.id !in already
    requires forall i :: 0 <= i < |done| ==> done[i].id != c.id
    ensures HoldsResults(already, done + [c], reply, completed[c.id := d])
  {
  }

  lemma {:induction false} KeptHas(already: map<string, Done>, calls: seq<Call>, reply: string -> Reply)
    requires forall i :: 0 <= i < |calls| ==> reply(calls[i].id).Result?
    requires forall i, j :: 0 <= i < j < |calls| ==> calls[i].id != calls[j].id
    requires forall i :: 0 <= i < |calls| ==> calls[i].id !in already
    ensures HoldsResults(already, calls, reply, Kept(already, calls, reply))
  {
    if calls != [] {
      var n := |calls| - 1;
      KeptHas(already, calls[..n], reply);
      HoldsOneMore(already, calls[..n], reply, Kept(already, calls[..n], reply), calls[n], DoneFrom(calls[n], reply(calls[n].id)));
      assert calls == calls[..n] + [calls[n]];
    }
  }

  lemma {:induction false} OutstandingDistinct(calls: seq<Call>, already: map<string, Done>)
    requires DistinctIds(calls)
    ensures DistinctIds(Outstanding(calls, already))
  {
    if calls != [] {
      OutstandingDistinct(calls[1..], already);
      var rest := Outstanding(calls[1..], already);
      forall j | 0 <= j < |rest|
        ensures calls[0].id != rest[j].id
      {
        assert rest[j] in rest && rest[j] in calls[1..];
      }
    }
  }

  /** One phase: what was kept stays as it was, and exactly the results before the first stop are added. */
  lemma PhaseKeeps(already: map<string, Done>, calls: seq<Call>, reply: string -> Reply)
    requires DistinctIds(calls)
    ensures var out := Outstanding(calls, already);
      HoldsResults(already, out[..FirstStop(out, reply)], reply, AfterPhase(already, calls, reply))
  {
    var out := Outstanding(calls, already);
    OutstandingDistinct(calls, already);
    forall i | 0 <= i < |out|
      ensures out[i].id !in already
    {
      assert out[i] in out;
    }
    KeptHas(already, out[..FirstStop(out, reply)], reply);
  }

  /** A result that was there is still there, and the same. */
  ghost predicate Carries(before: map<string, Done>, after: map<string, Done>, id: string) {
    id in before ==> id in after && after[id] == before[id]
  }

  lemma CarriesOn(a: map<string, Done>, b: map<string, Done>, c: map<string, Done>, id: string)
    requires Carries(a, b, id) && Carries(b, c, id)
    ensures Carries(a, c, id)
  {
  }

  lemma PhaseCarries(already: map<string, Done>, calls: seq<Call>, replies: seq<string -> Reply>, k: nat, id: string)
    requires DistinctIds(calls) && k < |replies|
    ensures Carries(KeptAfter(already, calls, replies, k), KeptAfter(already, calls, replies, k + 1), id)
  {
    PhaseKeeps(KeptAfter(already, calls, replies, k), calls, replies[k]);
  }

  /** Each list of results carries this one to the next. */
  ghost predicate Linked(ms: seq<map<string, Done>>, id: string) {
    forall i :: 0 <= i < |ms| - 1 ==> Carries(ms[i], ms[i + 1], id)
  }

  lemma {:induction false} LinkedCarries(ms: seq<map<string, Done>>, j: nat, k: nat, id: string)
    requires j <= k < |ms| && Linked(ms, id)
    ensures Carries(ms[j], ms[k], id)
    decreases k
  {
    if j < k {
      LinkedCarries(ms, j, k - 1, id);
      assert Carries(ms[k - 1], ms[k - 1 + 1], id);
      CarriesOn(ms[j], ms[k - 1], ms[k], id);
    }
  }

  /** What is kept before the chain, after its first phase, and so on. */
  ghost function Chain(already: map<string, Done>, calls: seq<Call>, replies: seq<string -> Reply>): (ms: seq<map<string, Done>>)
    ensures |ms| == |replies| + 1 && forall i :: 0 <= i <= |replies| ==> ms[i] == KeptAfter(already, calls, replies, i)
  {
    seq(|replies| + 1, i requires 0 <= i <= |replies| => KeptAfter(already, calls, replies, i))
  }

  lemma ChainIsLinked(already: map<string, Done>, calls: seq<Call>, replies: seq<string -> Reply>, id: string)
    requires DistinctIds(calls)
    ensures Linked(Chain(already, calls, replies), id)
  {
    var ms := Chain(already, calls, replies);
    forall i | 0 <= i < |ms| - 1
      ensures Carries(ms[i], ms[i + 1], id)
    {
      PhaseCarries(already, calls, replies, i, id);
    }
  }

  /** Results are never lost or replaced along a chain. */
  lemma ChainKeeps(already: map<string, Done>, calls: seq<Call>, replies: seq<string -> Reply>, j: nat, k: nat, id: string)
    requires DistinctIds(calls) && j <= k <= |replies| && id in KeptAfter(already, calls, replies, j)
    ensures id in KeptAfter(already, calls, replies, k)
    ensures KeptAfter(already, calls, replies, k)[id] == KeptAfter(already, calls, replies, j)[id]
  {
    ChainIsLinked(already, calls, replies, id);
    LinkedCarries(Chain(already, calls, replies), j, k, id);
  }

  /** In phase j of a chain, this call was put to the gateway. */
  ghost predicate InvokedIn(already: map<string, Done>, calls: seq<Call>, replies: seq<string -> Reply>, concurrency: nat, j: nat, call: Call)
    requires j < |replies| && concurrency >= 1
  {
    call in Invoked(KeptAfter(already, calls, replies, j), calls, concurrency, replies[j])
  }

  /** In phase j the call stands after the first stop, but in its batch: its result, if any, is not kept. */
  ghost predicate OvertakenIn(already: map<string, Done>, calls: seq<Call>, replies: seq<string -> Reply>, concurrency: nat, j: nat, call: Call)
    requires j < |replies| && concurrency >= 1
  {
    Overtaken(Outstanding(calls, KeptAfter(already, calls, replies, j)), concurrency, replies[j], call)
  }

  ghost predicate Overtaken(out: seq<Call>, concurrency: nat, reply: string -> Reply, call: Call)
    requires concurrency >= 1
  {
    var p := FirstStop(out, reply);
    p < |out| && exists q :: p < q < BatchEnd(p, concurrency, |out|) && out[q] == call
  }

  /** A call that returned a result and was not overtaken is kept from then on. */
  lemma ReturnedIsKept(already: map<string, Done>, calls: seq<Call>, replies: seq<string -> Reply>, concurrency: nat, j: nat, call: Call)
    requires DistinctIds(calls) && j < |replies| && concurrency >= 1
    requires InvokedIn(already, calls, replies, concurrency, j, call) && replies[j](call.id).Result?
    requires !OvertakenIn(already, calls, replies, concurrency, j, call)
    ensures call.id in KeptAfter(already, calls, replies, j + 1)
  {
    var before := KeptAfter(already, calls, replies, j);
    var out := Outstanding(calls, before);
    var p := FirstStop(out, replies[j]);
    ReturnedBeforeStop(out, concurrency, replies[j], call);
    PhaseKeeps(before, calls, replies[j]);
    assert call in out[..p];
  }

  lemma ReturnedBeforeStop(out: seq<Call>, concurrency: nat, reply: string -> Reply, call: Call)
    requires concurrency >= 1 && reply(call.id).Result? && call in InvokedOf(out, concurrency, reply)
    ensures call in out[..FirstStop(out, reply)] || Overtaken(out, concurrency, reply, call)
  {
    var p := FirstStop(out, reply);
    var invoked := InvokedOf(out, concurrency, reply);
    var q :| 0 <= q < |invoked| && invoked[q] == call;
    assert out[q] == call;
    if q < p {
      assert out[..p][q] == call;
    }
  }

  /** An overtaken call is left out of what is kept, whatever it returned. */
  lemma OvertakenIsNotKept(already: map<string, Done>, calls: seq<Call>, replies: seq<string -> Reply>, concurrency: nat, j: nat, call: Call)
    requires DistinctIds(calls) && j < |replies| && concurrency >= 1
    requires OvertakenIn(already, calls, replies, concurrency, j, call)
    ensures call.id !in KeptAfter(already, calls, replies, j + 1)
  {
    var before := KeptAfter(already, calls, replies, j);
    var out := Outstanding(calls, before);
    var p := FirstStop(out, replies[j]);
    PhaseKeeps(before, calls, replies[j]);
    OutstandingDistinct(calls, before);
    var q :| p < q < BatchEnd(p, concurrency, |out|) && out[q] == call;
    assert out[q] in out;
    forall c | c in out[..p]
      ensures c.id != call.id
    {
      var i :| 0 <= i < p && out[i] == c;
    }
  }

  /** A call that returned a result in a phase is kept if and only if it was not overtaken there. */
  lemma KeptIffNotOvertaken(already: map<string, Done>, calls: seq<Call>, replies: seq<string -> Reply>, concurrency: nat, j: nat, call: Call)
    requires DistinctIds(calls) && j < |replies| && concurrency >= 1
    requires InvokedIn(already, calls, replies, concurrency, j, call) && replies[j](call.id).Result?
    ensures call.id in KeptAfter(already, calls, replies, j + 1) <==> !OvertakenIn(already, calls, replies, concurrency, j, call)
  {
    if OvertakenIn(already, calls, replies, concurrency, j, call) {
      OvertakenIsNotKept(already, calls, replies, concurrency, j, call);
    } else {
      ReturnedIsKept(already, calls, replies, concurrency, j, call);
    }
  }

  lemma NotInvokedOnceKept(already: map<string, Done>, calls: seq<Call>, replies: seq<string -> Reply>, concurrency: nat, k: nat, call: Call)
    requires k < |replies| && concurrency >= 1 && call.id in KeptAfter(already, calls, replies, k)
    ensures !InvokedIn(already, calls, replies, concurrency, k, call)
  {
    var before := KeptAfter(already, calls, replies, k);
    var out := Outstanding(calls, before);
    forall c | c in Invoked(before, calls, concurrency, replies[k])
      ensures c in out
    {
    }
  }

  /**
   Along any chain: a call that returned a result is put to the gateway again only if, in the phase it
   returned in, it stood in the same batch after the call that stopped the phase.
   */
  lemma ReinvokedOnlyIfOvertaken(already: map<string, Done>, calls: seq<Call>, replies: seq<string -> Reply>, concurrency: nat, j: nat, k: nat, call: Call)
    requires DistinctIds(calls) && j < k < |replies| && concurrency >= 1
    requires InvokedIn(already, calls, replies, concurrency, j, call) && replies[j](call.id).Result?
    requires InvokedIn(already, calls, replies, concurrency, k, call)
    ensures OvertakenIn(already, calls, replies, concurrency, j, call)
  {
    if !OvertakenIn(already, calls, replies, concurrency, j, call) {
      ReturnedIsKept(already, calls, replies, concurrency, j, call);
      ChainKeeps(already, calls, replies, j + 1, k, call.id);
      NotInvokedOnceKept(already, calls, replies, concurrency, k, call);
      assert false;
    }
  }

  /** With sequential calls a call that returned a result is never put to the gateway again. */
  lemma SequentialAtMostOnce(already: map<string, Done>, calls: seq<Call>, replies: seq<string -> Reply>, j: nat, k: nat, call: Call)
    requires DistinctIds(calls) && j < k < |replies|
    requires InvokedIn(already, calls, replies, 1, j, call) && replies[j](call.id).Result?
    ensures !InvokedIn(already, calls, replies, 1, k, call)
  {
    if InvokedIn(already, calls, replies, 1, k, call) {
      ReinvokedOnlyIfOvertaken(already, calls, replies, 1, j, k, call);
      assert false;
    }
  }

  lemma {:induction false} OrderedIsTotal(calls: seq<Call>, completed: map<string, Done>)
    requires forall i :: 0 <= i < |calls| ==> calls[i].id in completed
    ensures |OrderedResults(calls, completed)| == |calls|
    ensures forall i :: 0 <= i < |calls| ==> OrderedResults(calls, completed)[i] == completed[calls[i].id]
  {
    if calls != [] {
      OrderedIsTotal(calls[..|calls| - 1], completed);
    }
  }

  /** A phase of a chain that completes yields exactly one result per call, in request order, each under its call's id. */
  lemma CompletePhaseAnswersAll(already: map<string, Done>, calls: seq<Call>, replies: seq<string -> Reply>)
    requires DistinctIds(calls) && replies != []
    requires forall id :: id in already ==> already[id].id == id
    requires var out := Outstanding(calls, KeptAfter(already, calls, replies, |replies| - 1)); FirstStop(out, replies[|replies| - 1]) == |out|
    ensures var ordered := OrderedResults(calls, KeptAfter(already, calls, replies, |replies|));
      |ordered| == |calls| && forall i :: 0 <= i < |calls| ==> ordered[i].id == calls[i].id
  {
    var n := |replies| - 1;
    var before := KeptAfter(already, calls, replies, n);
    var out := Outstanding(calls, before);
    PhaseKeeps(before, calls, replies[n]);
    assert out[..|out|] == out;
    KeptUnderOwnId(already, calls, replies, |replies|);
    forall i | 0 <= i < |calls|
      ensures calls[i].id in KeptAfter(already, calls, replies, |replies|)
    {
      if calls[i].id !in before {
        assert calls[i] in out;
      }
    }
    OrderedIsTotal(calls, KeptAfter(already, calls, replies, |replies|));
  }

  lemma {:induction false} KeptUnderOwnId(already: map<string, Done>, calls: seq<Call>, replies: seq<string -> Reply>, k: nat)
    requires DistinctIds(calls) && k <= |replies| && forall id :: id in already ==> already[id].id == id
    ensures forall id :: id in KeptAfter(already, calls, replies, k) ==> KeptAfter(already, calls, replies, k)[id].id == id
    decreases k
  {
    if k > 0 {
      KeptUnderOwnId(already, calls, replies, k - 1);
      var before := KeptAfter(already, calls, replies, k - 1);
      PhaseKeeps(before, calls, replies[k - 1]);
      var out := Outstanding(calls, before);
      var p := FirstStop(out, replies[k - 1]);
      forall id | id in KeptAfter(already, calls, replies, k)
        ensures KeptAfter(already, calls, replies, k)[id].id == id
      {
        if id !in before {
          var c :| c in out[..p] && c.id == id;
          var i :| 0 <= i < p && out[i] == c;
        }
      }
    }
  }

  /** With a batch of two, a call that returned a result beside a suspended one is put to the gateway again. */
  lemma ParallelCanRepeat() returns (calls: seq<Call>, replies: seq<string -> Reply>, call: Call)
    ensures DistinctIds(calls) && |replies| == 2
    ensures InvokedIn(map[], calls, replies, 2, 0, call) && replies[0](call.id).Result?
    ensures InvokedIn(map[], calls, replies, 2, 1, call)
  {
    var a, b := Call("a", "t", ""), Call("b", "t", "");
    calls, call := [a, b], b;
    var first := (id: string) => if id == "a" then NeedsTask else Result([], false);
    var second := (id: string) => Result([], false);
    replies := [first, second];
    var none: map<string, Done> := map[];
    FilterKeepsAll(calls, NotIn(none));
    assert Outstanding(calls, none) == calls;
    StopAt(calls, first, 0);
    assert AfterPhase(map[], calls, first) == map[];
    assert KeptAfter(map[], calls, replies, 1) == map[];
    assert Invoked(map[], calls, 2, first) == calls[..2] == calls;
    StopAt(calls, second, 2);
    assert calls[1] in calls;
  }

  // ---- What a phase leaves to be made durable ----

  /** A complete phase has a result for every call. */
  lemma CompletePhaseHasAll(already: map<string, Done>, calls: seq<Call>, reply: string -> Reply)
    requires DistinctIds(calls)
    requires var out := Outstanding(calls, already); FirstStop(out, reply) == |out|
    ensures var after := AfterPhase(already, calls, reply);
      && (forall i :: 0 <= i < |calls| ==> calls[i].id in after)
      && |OrderedResults(calls, after)| == |calls|
      && forall i :: 0 <= i < |calls| ==> OrderedResults(calls, after)[i] == after[calls[i].id]
  {
    var out, after := Outstanding(calls, already), AfterPhase(already, calls, reply);
    PhaseKeeps(already, calls, reply);
    assert out[..|out|] == out;
    forall i | 0 <= i < |calls|
      ensures calls[i].id in after
    {
      if calls[i].id !in already {
        assert calls[i] in out;
      }
    }
    OrderedIsTotal(calls, after);
  }

  /** A phase keeps what was there and adds results of its calls only, each under its own id. */
  lemma PhaseAdds(already: map<string, Done>, calls: seq<Call>, reply: string -> Reply)
    requires DistinctIds(calls)
    ensures var after := AfterPhase(already, calls, reply);
      && already.Keys <= after.Keys && (forall id :: id in already ==> after[id] == already[id])
      && (forall id :: id in after && id !in already ==> (exists c :: c in calls && c.id == id) && after[id].id == id)
  {
    PhaseKeeps(already, calls, reply);
    var out, after := Outstanding(calls, already), AfterPhase(already, calls, reply);
    var p := FirstStop(out, reply);
    forall id | id in after && id !in already
      ensures (exists c :: c in calls && c.id == id) && after[id].id == id
    {
      var c :| c in out[..p] && c.id == id;
      var i :| 0 <= i < p && out[i] == c;
      assert c in out && c in calls;
    }
  }

  /** The ordered results are the results of the calls that have one. */
  lemma {:induction false} OrderedHas(calls: seq<Call>, completed: map<string, Done>)
    ensures forall c :: c in calls && c.id in completed ==> completed[c.id] in OrderedResults(calls, completed)
    ensures forall d :: d in OrderedResults(calls, completed) ==> exists c :: c in calls && c.id in completed && d == completed[c.id]
  {
    if calls != [] {
      var n := |calls| - 1;
      OrderedHas(calls[..n], completed);
      assert calls == calls[..n] + [calls[n]];
      assert calls[n] in calls;
    }
  }

  /** The ordered results of a phase are under their own ids, and with what was there they are all that is kept. */
  lemma OrderedCovers(already: map<string, Done>, calls: seq<Call>, reply: string -> Reply)
    requires DistinctIds(calls) && forall id :: id in already ==> already[id].id == id
    ensures var after := AfterPhase(already, calls, reply);
      var ordered := OrderedResults(calls, after);
      && (forall id :: id in already ==> id in after && after[id] == already[id])
      && (forall i :: 0 <= i < |ordered| ==> ordered[i].id in after && after[ordered[i].id] == ordered[i])
      && (forall id :: id in after && id !in already ==> exists i :: 0 <= i < |ordered| && ordered[i].id == id)
  {
    var after := AfterPhase(already, calls, reply);
    var ordered := OrderedResults(calls, after);
    PhaseAdds(already, calls, reply);
    OrderedHas(calls, after);
    forall i | 0 <= i < |ordered|
      ensures ordered[i].id in after && after[ordered[i].id] == ordered[i]
    {
      assert ordered[i] in ordered;
      var c :| c in calls && c.id in after && ordered[i] == after[c.id];
    }
    forall id | id in after && id !in already
      ensures exists i :: 0 <= i < |ordered| && ordered[i].id == id
    {
      var c :| c in calls && c.id == id;
      assert after[c.id] in ordered;
    }
  }

  /** The message of a complete phase, call by call. */
  lemma MessageAnswers(already: map<string, Done>, calls: seq<Call>, reply: string -> Reply, ordered: seq<Done>, message: seq<Block>)
    requires DistinctIds(calls)
    requires var out := Outstanding(calls, already); FirstStop(out, reply) == |out|
    requires ordered == OrderedResults(calls, AfterPhase(already, calls, reply))
    requires message == seq(|ordered|, i requires 0 <= i < |ordered| => ResultBlock(ordered[i]))
    ensures |message| == |calls| && forall i :: 0 <= i < |calls| ==> IsAnswerTo(message[i], calls[i], already, reply(calls[i].id))
  {
    var out, after := Outstanding(calls, already), AfterPhase(already, calls, reply);
    CompletePhaseHasAll(already, calls, reply);
    PhaseKeeps(already, calls, reply);
    forall i | 0 <= i < |calls|
      ensures IsAnswerTo(message[i], calls[i], already, reply(calls[i].id))
    {
      if calls[i].id !in already {
        assert calls[i] in out;
        var k :| 0 <= k < |out| && out[k] == calls[i];
        assert out[..|out|] == out && IsResultOf(after[out[k].id], out[k], reply(out[k].id));
      }
    }
  }

  // ---- When at most once is certain ----

  /** In phase j the call returned a result, and in the later phase k it is put to the gateway again. */
  ghost predicate Repeats(already: map<string, Done>, calls: seq<Call>, replies: seq<string -> Reply>, concurrency: nat, j: nat, k: nat, call: Call)
    requires concurrency >= 1
  {
    && j < k < |replies|
    && InvokedIn(already, calls, replies, concurrency, j, call) && replies[j](call.id).Result?
    && InvokedIn(already, calls, replies, concurrency, k, call)
  }

  /**
   Whatever the gateway answers in however many phases, no call is invoked again after returning a result. The phases
   are those the loop detector admits; one that it refuses invokes nothing and ends the chain.
   */
  ghost predicate AtMostOnce(already: map<string, Done>, calls: seq<Call>, concurrency: nat)
    requires concurrency >= 1
  {
    forall replies, j, k, call :: !Repeats(already, calls, replies, concurrency, j, k, call)
  }

  /** Results that are kept only take calls out of what is outstanding. */
  lemma {:induction false} OutstandingShrinks(calls: seq<Call>, already: map<string, Done>, more: map<string, Done>)
    requires already.Keys <= more.Keys
    ensures |Outstanding(calls, more)| <= |Outstanding(calls, already)|
  {
    if calls != [] {
      OutstandingShrinks(calls[1..], already, more);
    }
  }

  lemma {:induction false} KeptGrows(already: map<string, Done>, calls: seq<Call>, replies: seq<string -> Reply>, k: nat)
    requires DistinctIds(calls) && k <= |replies|
    ensures already.Keys <= KeptAfter(already, calls, replies, k).Keys
    decreases k
  {
    if k > 0 {
      KeptGrows(already, calls, replies, k - 1);
      PhaseGrows(KeptAfter(already, calls, replies, k - 1), calls, replies[k - 1]);
    }
  }

  lemma PhaseGrows(already: map<string, Done>, calls: seq<Call>, reply: string -> Reply)
    requires DistinctIds(calls)
    ensures already.Keys <= AfterPhase(already, calls, reply).Keys
  {
    PhaseAdds(already, calls, reply);
  }

  /** A repeat needs two calls outstanding and a batch of at least two. */
  lemma RepeatNeedsCompany(already: map<string, Done>, calls: seq<Call>, replies: seq<string -> Reply>, concurrency: nat, j: nat, k: nat, call: Call)
    requires DistinctIds(calls) && concurrency >= 1 && Repeats(already, calls, replies, concurrency, j, k, call)
    ensures concurrency >= 2 && |Outstanding(calls, already)| >= 2
  {
    ReinvokedOnlyIfOvertaken(already, calls, replies, concurrency, j, k, call);
    KeptGrows(already, calls, replies, j);
    OutstandingShrinks(calls, already, KeptAfter(already, calls, replies, j));
    var out := Outstanding(calls, KeptAfter(already, calls, replies, j));
    var p := FirstStop(out, replies[j]);
    var q :| p < q < BatchEnd(p, concurrency, |out|) && out[q] == call;
  }

  /** Two outstanding calls in one batch: the first is suspended, and the second, done, is invoked again. */
  lemma CompanyCanRepeat(already: map<string, Done>, calls: seq<Call>, concurrency: nat) returns (replies: seq<string -> Reply>, call: Call)
    requires DistinctIds(calls) && concurrency >= 2 && |Outstanding(calls, already)| >= 2
    ensures Repeats(already, calls, replies, concurrency, 0, 1, call)
  {
    var out := Outstanding(calls, already);
    OutstandingDistinct(calls, already);
    call := out[1];
    var first := (id: string) => if id == out[0].id then NeedsTask else Result([], false);
    var second := (id: string) => Result([], false);
    replies := [first, second];
    assert FirstStop(out, first) == 0 && out[..0] == [];
    assert KeptAfter(already, calls, replies, 0) == already;
    assert AfterPhase(already, calls, first) == already;
    assert KeptAfter(already, calls, replies, 1) == already;
    var e := BatchEnd(0, concurrency, |out|);
    assert e >= 2 && out[..e][1] == call;
    assert InvokedIn(already, calls, replies, concurrency, 0, call);
    StopAt(out, second, |out|);
    assert InvokedIn(already, calls, replies, concurrency, 1, call);
  }

  /**
   At most once, exactly, by what a caller knows before the phase: over all chains of admitted phases it is certain if
   and only if calls run one at a time or at most one call is outstanding.
   */
  lemma AtMostOnceIff(already: map<string, Done>, calls: seq<Call>, concurrency: nat)
    requires DistinctIds(calls) && concurrency >= 1
    ensures AtMostOnce(already, calls, concurrency) <==> concurrency == 1 || |Outstanding(calls, already)| <= 1
  {
    if concurrency == 1 || |Outstanding(calls, already)| <= 1 {
      forall replies, j, k, call
        ensures !Repeats(already, calls, replies, concurrency, j, k, call)
      {
        if Repeats(already, calls, replies, concurrency, j, k, call) {
          RepeatNeedsCompany(already, calls, replies, concurrency, j, k, call);
        }
      }
    } else {
      var replies, call := CompanyCanRepeat(already, calls, concurrency);
    }
  }
}
