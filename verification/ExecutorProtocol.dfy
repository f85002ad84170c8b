/**
 Any number of slices over one queue.

 Every claim starts a slice, named by its lease token. A slice's queue call may fail to arrive, arrive
 and be answered, or arrive and have its answer lost. A lease-guarded store refuses a step's write, and
 so raises a lease loss inside a step, only when the token is in fact no longer held.
 */
module ExecutorProtocol {
  import opened Options
  import opened RunQueue
  import opened RunQueueProtocol
  import opened SlicedExecutor

  datatype Owned = Owned(run: RunId, slice: Slice)

  /** What a slice did to the outside, in order. `applied` says whether the database was changed. */
  datatype Deed =
    | Began
    | Beat(answer: Answer)
    | Released(intent: ReleaseIntent, answer: Answer, applied: bool)
    | Triggered
    /** Opening the session or taking a step signalled that the lease is lost. */
    | SignalledLoss

  datatype Entry = Entry(token: Token, run: RunId, deed: Deed)

  datatype System = System(world: World, slices: map<Token, Owned>, history: seq<Entry>)

  datatype Move =
    | Outside(a: Action)
    | Begin(claim: Action)
    | Observe(token: Token, ev: Event)
    | Call(token: Token, now: Millis, leaseMs: int, arrives: bool, answered: bool)

  /** The queue action behind the call a slice is waiting on. */
  function CallAction(o: Owned, token: Token, now: Millis, leaseMs: int): Action
    requires o.slice.pc.Beating? || o.slice.pc.Releasing?
  {
    if o.slice.pc.Beating? then DoHeartbeat(o.run, token, now, leaseMs)
    else DoRelease(o.run, token, o.slice.pc.intent, now)
  }

  predicate CanMove(s: System, m: Move) {
    match m
    case Outside(a) => Enabled(s.world, a) && !a.DoClaim? && !a.DoHeartbeat? && !a.DoRelease?
    case Begin(a) => a.DoClaim? && Enabled(s.world, a)
    case Observe(t, ev) =>
      && t in s.slices && Expects(s.slices[t].slice.pc, ev)
      && !ev.BeatAnswer? && !ev.ReleaseAnswer?
      && (ev.OpenLeaseLost? || ev.StepLeaseLost? ==> !s.world.Holds(s.slices[t].run, t))
    case Call(t, now, _, _, _) =>
      && t in s.slices && (s.slices[t].slice.pc.Beating? || s.slices[t].slice.pc.Releasing?)
      && now <= s.world.clock
  }

  function AnswerOf(held: bool, arrives: bool, answered: bool): Answer {
    if !arrives || !answered then Errored else if held then Accepted else Refused
  }

  /** What an observation leaves in the record. */
  function DeedOf(ev: Event): Option<Deed> {
    if ev.TriggerReturned? then Some(Triggered)
    else if ev.OpenLeaseLost? || ev.StepLeaseLost? then Some(SignalledLoss)
    else None
  }

  function Take(s: System, m: Move, every: int): System
    requires CanMove(s, m)
  {
    match m
    case Outside(a) => s.(world := Apply(s.world, a))
    case Begin(a) =>
      System(Apply(s.world, a), s.slices[a.token := Owned(a.id, START)], s.history + [Entry(a.token, a.id, Began)])
    case Observe(t, ev) =>
      var o := s.slices[t];
      var s' := s.(slices := s.slices[t := o.(slice := React(o.slice, ev, every))]);
      if DeedOf(ev).Some? then s'.(history := s.history + [Entry(t, o.run, DeedOf(ev).value)]) else s'
    case Call(t, now, leaseMs, arrives, answered) =>
      var o := s.slices[t];
      var held := s.world.Holds(o.run, t);
      var answer := AnswerOf(held, arrives, answered);
      var world := if arrives then Apply(s.world, CallAction(o, t, now, leaseMs)) else s.world;
      if o.slice.pc.Beating? then
        System(world, s.slices[t := o.(slice := React(o.slice, BeatAnswer(answer, now), every))],
               s.history + [Entry(t, o.run, Beat(answer))])
      else
        System(world, s.slices[t := o.(slice := React(o.slice, ReleaseAnswer(answer), every))],
               s.history + [Entry(t, o.run, Released(o.slice.pc.intent, answer, arrives && held))])
  }

  ghost predicate IsExecution(ss: seq<System>, moves: seq<Move>, every: int) {
    && |ss| == |moves| + 1
    && Initial(ss[0].world) && ss[0].slices == map[] && ss[0].history == []
    && forall i :: 0 <= i < |moves| ==> CanMove(ss[i], moves[i]) && ss[i + 1] == Take(ss[i], moves[i], every)
  }

  // ---- What one claim did ----

  function DeedsOf(history: seq<Entry>, token: Token): seq<Deed> {
    if history == [] then []
    else
      var last := history[|history| - 1];
      DeedsOf(history[..|history| - 1], token) + if last.token == token then [last.deed] else []
  }

  lemma DeedsOfOne(history: seq<Entry>, e: Entry, token: Token)
    ensures DeedsOf(history + [e], token) == DeedsOf(history, token) + if e.token == token then [e.deed] else []
  {
    assert (history + [e])[..|history|] == history;
  }

  /** A claim followed by heartbeats that were all accepted. */
  ghost predicate Holding(ds: seq<Deed>) {
    |ds| >= 1 && ds[0] == Began && forall i :: 1 <= i < |ds| ==> ds[i] == Beat(Accepted)
  }

  /** A holding stretch and then one last deed. */
  ghost predicate HoldingThen(ds: seq<Deed>, last: Deed) {
    |ds| >= 1 && Holding(ds[..|ds| - 1]) && ds[|ds| - 1] == last
  }

  /** The deeds a slice may have behind it, for each place it can be in. */
  ghost predicate Fits(ds: seq<Deed>, pc: Pc) {
    match pc
    case Opening => Holding(ds)
    case Top => Holding(ds)
    case Beating => Holding(ds)
    case Stepping => Holding(ds)
    case Releasing(intent, next) => Holding(ds) && IntentMeans(intent, next)
    case Triggering => |ds| >= 1 && ds[|ds| - 1].Released? && ds[|ds| - 1].intent.Requeue? && HoldingThen(ds, Released(ds[|ds| - 1].intent, Accepted, true))
    case Done(outcome) => FitsOutcome(ds, outcome)
  }

  predicate IntentMeans(intent: ReleaseIntent, next: Outcome) {
    match intent
    case Requeue(_, _) => next == Yielded
    case Suspend(waitFor) => next.SuspendedOn? && waitFor == StatusFor(next.reason)
    case Finish(ending, _) => next == Ended(ending)
  }

  ghost predicate FitsOutcome(ds: seq<Deed>, outcome: Outcome) {
    |ds| >= 1 &&
    var last := ds[|ds| - 1];
    match outcome
    case Yielded =>
      && |ds| >= 2 && last == Triggered
      && ds[|ds| - 2].Released? && ds[|ds| - 2].intent.Requeue?
      && HoldingThen(ds[..|ds| - 1], Released(ds[|ds| - 2].intent, Accepted, true))
    case Ended(_) => last.Released? && IntentMeans(last.intent, outcome) && HoldingThen(ds, Released(last.intent, Accepted, true))
    case SuspendedOn(_) => last.Released? && IntentMeans(last.intent, outcome) && HoldingThen(ds, Released(last.intent, Accepted, true))
    case LostLease =>
      || HoldingThen(ds, SignalledLoss)
      || HoldingThen(ds, Beat(Refused))
      || (last.Released? && !last.intent.Suspend? && HoldingThen(ds, Released(last.intent, Refused, false)))
    case Threw =>
      || HoldingThen(ds, Beat(Errored))
      || (last.Released? && HoldingThen(ds, last) && (last.answer.Errored? || (last.intent.Suspend? && last == Released(last.intent, Refused, false))))
  }

  // ---- Invariants ----

  ghost predicate SliceInv(s: System) {
    && LeaseInv(s.world) && AttemptsInv(s.world)
    && OwnInv(s)
    && FitInv(s)
    && BackInv(s)
  }

  /** Tokens of slices were issued, and no run but the claimed one is held by them. */
  ghost predicate OwnInv(s: System) {
    forall t :: t in s.slices ==> OwnedInv(s.world, t, s.slices[t].run)
  }

  ghost predicate OwnedInv(w: World, t: Token, run: RunId) {
    t in w.issued && forall id :: id in w.runs && w.runs[id].HeldBy(t) ==> id == run
  }

  ghost predicate FitInv(s: System) {
    && (forall t :: t in s.slices ==> Fits(DeedsOf(s.history, t), s.slices[t].slice.pc))
    && (forall t :: t !in s.world.issued ==> DeedsOf(s.history, t) == [])
  }

  ghost predicate BackInv(s: System) {
    forall t :: t in s.slices && HandedBack(s.slices[t].slice.pc) ==> Displaced(s.world, t)
  }

  /** The slice is over (or only its trigger is left) and did not end by an escaping error. */
  predicate HandedBack(pc: Pc) {
    pc.Triggering? || (pc.Done? && !pc.outcome.Threw?)
  }

  /** An action other than a fresh claim leaves each token with the run that held it. */
  lemma HolderStays(w: World, a: Action, token: Token, id: RunId)
    requires LeaseInv(w) && Enabled(w, a) && token in w.issued
    requires id in Apply(w, a).runs && Apply(w, a).runs[id].HeldBy(token)
    ensures id in w.runs && w.runs[id].HeldBy(token)
  {
    if Displaced(w, token) {
      DisplacedStep(w, a, token);
    }
  }

  lemma IssuedGrows(w: World, a: Action)
    requires Enabled(w, a)
    ensures w.issued <= Apply(w, a).issued
    ensures !a.DoClaim? ==> Apply(w, a).issued == w.issued
  {
  }

  lemma StepKeepsOwned(w: World, a: Action, t: Token, run: RunId)
    requires LeaseInv(w) && Enabled(w, a) && OwnedInv(w, t, run)
    ensures OwnedInv(Apply(w, a), t, run)
  {
    IssuedGrows(w, a);
    forall id | id in Apply(w, a).runs && Apply(w, a).runs[id].HeldBy(t)
      ensures id == run
    {
      HolderStays(w, a, t, id);
    }
  }

  /** A world action on its own keeps what concerns the slices. */
  lemma OutsideKeepsSlices(s: System, a: Action)
    requires SliceInv(s) && Enabled(s.world, a) && !a.DoClaim?
    ensures SliceInv(s.(world := Apply(s.world, a)))
  {
    StepKeepsLeases(s.world, a);
    StepKeepsAttempts(s.world, a);
    IssuedGrows(s.world, a);
    forall t | t in s.slices
      ensures OwnedInv(Apply(s.world, a), t, s.slices[t].run)
    {
      StepKeepsOwned(s.world, a, t, s.slices[t].run);
    }
    forall t | t in s.slices && HandedBack(s.slices[t].slice.pc)
      ensures Displaced(Apply(s.world, a), t)
    {
      DisplacedStep(s.world, a, t);
    }
  }

  /** The system with one slice moved on and at most one deed added for it. */
  ghost predicate Advances(s: System, s': System, t: Token, slice: Slice, deed: Option<Deed>) {
    && t in s.slices
    && s'.world == s.world
    && s'.slices == s.slices[t := s.slices[t].(slice := slice)]
    && s'.history == s.history + if deed.Some? then [Entry(t, s.slices[t].run, deed.value)] else []
  }

  /** Other slices' deeds are untouched by an entry that is not theirs. */
  lemma AdvanceFits(s: System, s': System, t: Token, slice: Slice, deed: Option<Deed>)
    requires FitInv(s) && t in s.world.issued && Advances(s, s', t, slice, deed)
    requires Fits(DeedsOf(s.history, t) + if deed.Some? then [deed.value] else [], slice.pc)
    ensures FitInv(s')
  {
    forall t': Token
      ensures DeedsOf(s'.history, t') == DeedsOf(s.history, t') + if deed.Some? && t' == t then [deed.value] else []
    {
      if deed.Some? {
        DeedsOfOne(s.history, Entry(t, s.slices[t].run, deed.value), t');
      } else {
        assert s'.history == s.history;
      }
    }
    forall t' | t' in s'.slices
      ensures Fits(DeedsOf(s'.history, t'), s'.slices[t'].slice.pc)
    {
      if t' != t {
        assert DeedsOf(s'.history, t') == DeedsOf(s.history, t');
      }
    }
    forall t' | t' !in s'.world.issued
      ensures DeedsOf(s'.history, t') == []
    {
      assert t' != t;
    }
  }

  lemma AdvanceKeeps(s: System, s': System, t: Token, slice: Slice, deed: Option<Deed>)
    requires SliceInv(s) && Advances(s, s', t, slice, deed)
    requires Fits(DeedsOf(s.history, t) + if deed.Some? then [deed.value] else [], slice.pc)
    requires HandedBack(slice.pc) ==> Displaced(s.world, t)
    ensures SliceInv(s')
  {
    assert OwnedInv(s.world, t, s.slices[t].run);
    AdvanceFits(s, s', t, slice, deed);
    assert OwnInv(s') by {
      forall t' | t' in s'.slices
        ensures OwnedInv(s'.world, t', s'.slices[t'].run)
      {
        assert OwnedInv(s.world, t', s.slices[t'].run);
      }
    }
  }

  lemma NotHeldIsDisplaced(s: System, t: Token)
    requires SliceInv(s) && t in s.slices && !s.world.Holds(s.slices[t].run, t)
    ensures Displaced(s.world, t)
  {
    assert OwnedInv(s.world, t, s.slices[t].run);
  }

  /** After a release that reached the database, the token is over. */
  lemma ReleaseDisplaces(s: System, t: Token, intent: ReleaseIntent, now: Millis)
    requires SliceInv(s) && t in s.slices && now <= s.world.clock
    ensures Displaced(Apply(s.world, DoRelease(s.slices[t].run, t, intent, now)), t)
  {
    var a := DoRelease(s.slices[t].run, t, intent, now);
    var w' := Apply(s.world, a);
    assert OwnedInv(s.world, t, s.slices[t].run);
    forall id | id in w'.runs
      ensures !w'.runs[id].HeldBy(t)
    {
      if id != s.slices[t].run && w'.runs[id].HeldBy(t) {
        HolderStays(s.world, a, t, id);
      }
    }
  }

  lemma BeginFits(s: System, a: Action, s': System)
    requires FitInv(s) && OwnInv(s) && a.DoClaim? && a.token !in s.world.issued
    requires s'.world.issued == s.world.issued + {a.token} && s'.slices == s.slices[a.token := Owned(a.id, START)]
    requires s'.history == s.history + [Entry(a.token, a.id, Began)]
    ensures FitInv(s')
  {
    forall t: Token
      ensures DeedsOf(s'.history, t) == if t == a.token then [Began] else DeedsOf(s.history, t)
    {
      DeedsOfOne(s.history, Entry(a.token, a.id, Began), t);
    }
    forall t | t in s'.slices
      ensures Fits(DeedsOf(s'.history, t), s'.slices[t].slice.pc)
    {
    }
  }

  lemma ClaimOwns(w: World, a: Action)
    requires LeaseInv(w) && a.DoClaim? && Enabled(w, a)
    ensures OwnedInv(Apply(w, a), a.token, a.id)
  {
  }

  lemma BeginKeeps(s: System, m: Move, every: int)
    requires SliceInv(s) && m.Begin? && CanMove(s, m)
    ensures SliceInv(Take(s, m, every))
  {
    var s', a := Take(s, m, every), m.claim;
    StepKeepsLeases(s.world, a);
    StepKeepsAttempts(s.world, a);
    BeginFits(s, a, s');
    forall t | t in s'.slices
      ensures OwnedInv(s'.world, t, s'.slices[t].run)
    {
      if t == a.token {
        ClaimOwns(s.world, a);
      } else {
        StepKeepsOwned(s.world, a, t, s.slices[t].run);
      }
    }
    forall t | t in s'.slices && HandedBack(s'.slices[t].slice.pc)
      ensures Displaced(s'.world, t)
    {
      DisplacedStep(s.world, a, t);
    }
  }

  lemma ObserveFits(ds: seq<Deed>, slice: Slice, ev: Event, every: int)
    requires Fits(ds, slice.pc) && Expects(slice.pc, ev) && !ev.BeatAnswer? && !ev.ReleaseAnswer?
    ensures Fits(ds + if DeedOf(ev).Some? then [DeedOf(ev).value] else [], React(slice, ev, every).pc)
  {
    assert ds + [] == ds;
    assert (ds + [Triggered])[..|ds|] == ds;
    assert (ds + [SignalledLoss])[..|ds|] == ds;
  }

  lemma ObserveKeeps(s: System, m: Move, every: int)
    requires SliceInv(s) && m.Observe? && CanMove(s, m)
    ensures SliceInv(Take(s, m, every))
  {
    var o, s' := s.slices[m.token], Take(s, m, every);
    ObserveFits(DeedsOf(s.history, m.token), o.slice, m.ev, every);
    if m.ev.OpenLeaseLost? || m.ev.StepLeaseLost? {
      NotHeldIsDisplaced(s, m.token);
    }
    AdvanceKeeps(s, s', m.token, React(o.slice, m.ev, every), DeedOf(m.ev));
  }

  lemma BeatFits(ds: seq<Deed>, slice: Slice, answer: Answer, now: Millis, every: int)
    requires Holding(ds) && slice.pc.Beating?
    ensures Fits(ds + [Beat(answer)], React(slice, BeatAnswer(answer, now), every).pc)
  {
    assert (ds + [Beat(answer)])[..|ds|] == ds;
  }

  lemma ReleaseFits(ds: seq<Deed>, slice: Slice, answer: Answer, applied: bool, every: int)
    requires slice.pc.Releasing? && Fits(ds, slice.pc)
    requires answer.Accepted? ==> applied
    requires answer.Refused? ==> !applied
    ensures Fits(ds + [Released(slice.pc.intent, answer, applied)], React(slice, ReleaseAnswer(answer), every).pc)
  {
    var d := Released(slice.pc.intent, answer, applied);
    assert (ds + [d])[..|ds|] == ds && (ds + [d])[|ds|] == d;
    assert HoldingThen(ds + [d], d);
  }

  /** The world after a call, before the slice hears of it. */
  lemma CallReaches(s: System, m: Move, every: int)
    requires SliceInv(s) && m.Call? && CanMove(s, m)
    ensures SliceInv(s.(world := Take(s, m, every).world))
    ensures !s.world.Holds(s.slices[m.token].run, m.token) ==> Displaced(Take(s, m, every).world, m.token)
  {
    var t, o := m.token, s.slices[m.token];
    if m.arrives {
      OutsideKeepsSlices(s, CallAction(o, t, m.now, m.leaseMs));
    } else {
      assert s.(world := Take(s, m, every).world) == s;
    }
    if !s.world.Holds(o.run, t) {
      NotHeldIsDisplaced(s, t);
      if m.arrives {
        DisplacedStep(s.world, CallAction(o, t, m.now, m.leaseMs), t);
      }
    }
  }

  lemma BeatKeeps(s: System, m: Move, every: int)
    requires SliceInv(s) && m.Call? && CanMove(s, m) && s.slices[m.token].slice.pc.Beating?
    ensures SliceInv(Take(s, m, every))
  {
    var t, o, s' := m.token, s.slices[m.token], Take(s, m, every);
    var answer := AnswerOf(s.world.Holds(o.run, t), m.arrives, m.answered);
    CallReaches(s, m, every);
    BeatFits(DeedsOf(s.history, t), o.slice, answer, m.now, every);
    AdvanceKeeps(s.(world := s'.world), s', t, React(o.slice, BeatAnswer(answer, m.now), every), Some(Beat(answer)));
  }

  lemma ReleaseKeeps(s: System, m: Move, every: int)
    requires SliceInv(s) && m.Call? && CanMove(s, m) && s.slices[m.token].slice.pc.Releasing?
    ensures SliceInv(Take(s, m, every))
  {
    var t, o, s' := m.token, s.slices[m.token], Take(s, m, every);
    var held := s.world.Holds(o.run, t);
    var answer := AnswerOf(held, m.arrives, m.answered);
    CallReaches(s, m, every);
    ReleaseFits(DeedsOf(s.history, t), o.slice, answer, m.arrives && held, every);
    if m.arrives {
      ReleaseDisplaces(s, t, o.slice.pc.intent, m.now);
    }
    AdvanceKeeps(s.(world := s'.world), s', t, React(o.slice, ReleaseAnswer(answer), every), Some(Released(o.slice.pc.intent, answer, m.arrives && held)));
  }

  lemma {:induction false} ExecutionInvariant(ss: seq<System>, moves: seq<Move>, every: int, n: nat)
    requires IsExecution(ss, moves, every) && n < |ss|
    ensures SliceInv(ss[n])
    decreases n
  {
    if n > 0 {
      ExecutionInvariant(ss, moves, every, n - 1);
      var s, m := ss[n - 1], moves[n - 1];
      match m
      case Outside(a) => OutsideKeepsSlices(s, a);
      case Begin(_) => BeginKeeps(s, m, every);
      case Observe(_, _) => ObserveKeeps(s, m, every);
      case Call(t, _, _, _, _) =>
        if s.slices[t].slice.pc.Beating? {
          BeatKeeps(s, m, every);
        } else {
          ReleaseKeeps(s, m, every);
        }
    }
  }

  // ---- The theorems ----

  /** The deed told the slice that its lease is lost. */
  predicate SignalsLoss(d: Deed) {
    d == SignalledLoss || d == Beat(Refused) || (d.Released? && d.answer.Refused?)
  }

  /**
   In what one claim did: at most one release, nothing but a trigger after it, and that only after an accepted
   requeue; and nothing at all after a signal that the lease is lost.
   */
  lemma FitsMeansDiscipline(ds: seq<Deed>, pc: Pc, i: nat, j: nat)
    requires Fits(ds, pc) && i < j < |ds|
    ensures !SignalsLoss(ds[i])
    ensures !(ds[i].Released? && ds[j].Released?)
    ensures !(ds[i].Beat? && !ds[i].answer.Accepted?)
    ensures ds[i].Released? ==> ds[j] == Triggered && ds[i].intent.Requeue? && ds[i].answer.Accepted? && ds[i].applied
    ensures ds[j] == Triggered ==> ds[j - 1].Released? && ds[j - 1].intent.Requeue? && ds[j - 1].applied
  {
  }

  /**
   In every execution of any number of executors and sweepers, for every claim: it leads to at most one
   release call, the record ends at a signal of a lost lease, however it was raised, nothing but a trigger
   follows a release, and the trigger fires only right after an applied requeue.
   */
  lemma EveryClaimIsDisciplined(ss: seq<System>, moves: seq<Move>, every: int, n: nat, token: Token, i: nat, j: nat)
    requires IsExecution(ss, moves, every) && n < |ss| && token in ss[n].slices
    requires i < j < |DeedsOf(ss[n].history, token)|
    ensures var ds := DeedsOf(ss[n].history, token);
      && !(ds[i].Released? && ds[j].Released?)
      && !SignalsLoss(ds[i])
      && !(ds[i].Beat? && !ds[i].answer.Accepted?)
      && (ds[i].Released? ==> ds[j] == Triggered && ds[i].intent.Requeue? && ds[i].answer.Accepted? && ds[i].applied)
      && (ds[j] == Triggered ==> ds[j - 1].Released? && ds[j - 1].intent.Requeue? && ds[j - 1].applied)
  {
    ExecutionInvariant(ss, moves, every, n);
    FitsMeansDiscipline(DeedsOf(ss[n].history, token), ss[n].slices[token].slice.pc, i, j);
  }

  /** A deed that signals a lost lease ends the slice: with `LostLease`, unless it answered a suspend. */
  lemma FitsMeansLoss(ds: seq<Deed>, pc: Pc, i: nat)
    requires Fits(ds, pc) && i < |ds| && SignalsLoss(ds[i])
    ensures i == |ds| - 1 && pc.Done?
    ensures pc.outcome == LostLease <==> !(ds[i].Released? && ds[i].intent.Suspend?)
    ensures pc.outcome == Threw <==> ds[i].Released? && ds[i].intent.Suspend?
  {
  }

  /**
   "A lost lease returns `lease_lost`", exactly: in every execution a slice that was told its lease is lost, by the
   queue, by opening its session or by a step, is over and did nothing more; it reports the loss if and only
   if it was not told in answer to a suspend, whose error escapes instead.
   */
  lemma LossIsReportedUnlessSuspending(ss: seq<System>, moves: seq<Move>, every: int, n: nat, token: Token, i: nat)
    requires IsExecution(ss, moves, every) && n < |ss| && token in ss[n].slices
    requires i < |DeedsOf(ss[n].history, token)| && SignalsLoss(DeedsOf(ss[n].history, token)[i])
    ensures var ds, pc := DeedsOf(ss[n].history, token), ss[n].slices[token].slice.pc;
      && i == |ds| - 1 && pc.Done?
      && (pc.outcome == LostLease <==> !(ds[i].Released? && ds[i].intent.Suspend?))
      && (pc.outcome == Threw <==> ds[i].Released? && ds[i].intent.Suspend?)
  {
    ExecutionInvariant(ss, moves, every, n);
    FitsMeansLoss(DeedsOf(ss[n].history, token), ss[n].slices[token].slice.pc, i);
  }

  lemma ExecutionGrows(ss: seq<System>, moves: seq<Move>, every: int, m: Move)
    requires IsExecution(ss, moves, every) && CanMove(ss[|moves|], m)
    ensures IsExecution(ss + [Take(ss[|moves|], m, every)], moves + [m], every)
  {
  }

  lemma ClaimOne() returns (ss: seq<System>, moves: seq<Move>)
    ensures IsExecution(ss, moves, 30_000)
    ensures var s := ss[|moves|];
      && s.world.clock == 0 && s.world.runs == map["r" := ClaimDoc(NewRun("ws", 0, 0), "x", 0, 3, "t")] && s.world.sweeps == map[]
      && s.slices == map["t" := Owned("r", START)] && s.history == [Entry("t", "r", Began)]
  {
    var s0 := System(World(0, map[], {}, map[], map[], 2), map[], []);
    var m0, m1 := Outside(Create("r", "ws", 0, 0)), Begin(DoClaim("r", "x", 0, 3, "t"));
    var s1 := Take(s0, m0, 30_000);
    ss, moves := [s0, s1, Take(s1, m1, 30_000)], [m0, m1];
  }

  /** An observation that moves the only slice, leaving the world and the record. */
  lemma ObserveOne(ss: seq<System>, moves: seq<Move>, before: Slice, ev: Event) returns (ss': seq<System>, moves': seq<Move>)
    requires IsExecution(ss, moves, 30_000) && ss[|moves|].slices == map["t" := Owned("r", before)]
    requires Expects(before.pc, ev) && DeedOf(ev).None? && !ev.BeatAnswer? && !ev.ReleaseAnswer?
    ensures IsExecution(ss', moves', 30_000)
    ensures ss'[|moves'|] == ss[|moves|].(slices := map["t" := Owned("r", React(before, ev, 30_000))])
  {
    var m := Observe("t", ev);
    ExecutionGrows(ss, moves, 30_000, m);
    ss', moves' := ss + [Take(ss[|moves|], m, 30_000)], moves + [m];
  }

  /** A claim, and a step that has to wait for a tool. */
  lemma ClaimThenWait() returns (ss: seq<System>, moves: seq<Move>)
    ensures IsExecution(ss, moves, 30_000)
    ensures var s := ss[|moves|];
      && s.world.clock == 0 && s.world.runs == map["r" := ClaimDoc(NewRun("ws", 0, 0), "x", 0, 3, "t")] && s.world.sweeps == map[]
      && s.slices == map["t" := Owned("r", Slice(Releasing(Suspend(SuspendTool), SuspendedOn(ForTool)), 1, 0))]
      && s.history == [Entry("t", "r", Began)]
  {
    ss, moves := ClaimOne();
    ss, moves := ObserveOne(ss, moves, START, Opened(0));
    ss, moves := ObserveOne(ss, moves, Slice(Top, 0, 0), Checked(false, 0));
    ss, moves := ObserveOne(ss, moves, Slice(Stepping, 0, 0), Stepped(StepSuspended(ForTool)));
  }

  /** The lease lapses and a sweeper takes the run back. */
  lemma ThenTakenBack(ss: seq<System>, moves: seq<Move>) returns (ss': seq<System>, moves': seq<Move>)
    requires IsExecution(ss, moves, 30_000)
    requires var w := ss[|moves|].world;
      w.clock == 0 && w.runs == map["r" := ClaimDoc(NewRun("ws", 0, 0), "x", 0, 3, "t")] && w.sweeps == map[]
    ensures IsExecution(ss', moves', 30_000)
    ensures ss'[|moves'|].slices == ss[|moves|].slices && ss'[|moves'|].history == ss[|moves|].history
    ensures ss'[|moves'|].world.clock == 5 && !ss'[|moves'|].world.Holds("r", "t")
  {
    var m0, m1, m2 := Outside(Tick(5)), Outside(SweepRead(1, 5, {"r"})), Outside(SweepWrite(1, "r", 0));
    ExecutionGrows(ss, moves, 30_000, m0);
    ss', moves' := ss + [Take(ss[|moves|], m0, 30_000)], moves + [m0];
    ExecutionGrows(ss', moves', 30_000, m1);
    ss', moves' := ss' + [Take(ss'[|moves'|], m1, 30_000)], moves' + [m1];
    ExecutionGrows(ss', moves', 30_000, m2);
    ss', moves' := ss' + [Take(ss'[|moves'|], m2, 30_000)], moves' + [m2];
  }

  /** A suspend that is refused. */
  lemma RefusedSuspend(s: System, slice: Slice)
    requires s.slices == map["t" := Owned("r", slice)] && slice.pc == Releasing(Suspend(SuspendTool), SuspendedOn(ForTool))
    requires s.world.clock == 5 && !s.world.Holds("r", "t")
    ensures var m := Call("t", 5, 3, true, true);
      && CanMove(s, m) && Take(s, m, 30_000).slices == map["t" := Owned("r", slice.(pc := Done(Threw)))]
      && Take(s, m, 30_000).history == s.history + [Entry("t", "r", Released(Suspend(SuspendTool), Refused, false))]
  {
  }

  lemma TwoDeeds(d: Deed, e: Deed)
    ensures DeedsOf([Entry("t", "r", d)] + [Entry("t", "r", e)], "t") == [d, e]
  {
    DeedsOfOne([], Entry("t", "r", d), "t");
    assert [] + [Entry("t", "r", d)] == [Entry("t", "r", d)];
    DeedsOfOne([Entry("t", "r", d)], Entry("t", "r", e), "t");
  }

  /** One such execution: a sweeper takes the run back while its step waits for a tool, and the suspend's error escapes. */
  lemma SuspendErrorEscapes() returns (ss: seq<System>, moves: seq<Move>)
    ensures IsExecution(ss, moves, 30_000) && "t" in ss[|moves|].slices
    ensures DeedsOf(ss[|moves|].history, "t") == [Began, Released(Suspend(SuspendTool), Refused, false)]
    ensures ss[|moves|].slices["t"].slice.pc == Done(Threw)
  {
    ss, moves := ClaimThenWait();
    ss, moves := ThenTakenBack(ss, moves);
    var m := Call("t", 5, 3, true, true);
    RefusedSuspend(ss[|moves|], Slice(Releasing(Suspend(SuspendTool), SuspendedOn(ForTool)), 1, 0));
    TwoDeeds(Began, Released(Suspend(SuspendTool), Refused, false));
    ExecutionGrows(ss, moves, 30_000, m);
    ss, moves := ss + [Take(ss[|moves|], m, 30_000)], moves + [m];
  }

  /** Conversely a slice reports a loss only when it was told of one. */
  lemma ReportedLossWasSignalled(ss: seq<System>, moves: seq<Move>, every: int, n: nat, token: Token)
    requires IsExecution(ss, moves, every) && n < |ss| && token in ss[n].slices
    requires ss[n].slices[token].slice.pc == Done(LostLease)
    ensures var ds := DeedsOf(ss[n].history, token);
      ds != [] && SignalsLoss(ds[|ds| - 1])
  {
    ExecutionInvariant(ss, moves, every, n);
  }

  /**
   A slice that has ended other than by an escaping error holds no run: whatever it reported, the run was
   handed back or had been taken.
   */
  lemma EndedSlicesHoldNothing(ss: seq<System>, moves: seq<Move>, every: int, n: nat, token: Token)
    requires IsExecution(ss, moves, every) && n < |ss| && token in ss[n].slices
    requires ss[n].slices[token].slice.pc.Done? && !ss[n].slices[token].slice.pc.outcome.Threw?
    ensures forall id :: id in ss[n].world.runs ==> !ss[n].world.runs[id].HeldBy(token)
  {
    ExecutionInvariant(ss, moves, every, n);
  }

  /** Applied releases of one run, in the record of deeds. */
  function ReleasesOf(history: seq<Entry>, id: RunId): nat {
    if history == [] then 0
    else
      var last := history[|history| - 1];
      ReleasesOf(history[..|history| - 1], id) + if last.run == id && last.deed.Released? && last.deed.applied then 1 else 0
  }

  lemma ReleasesOfOne(history: seq<Entry>, e: Entry, id: RunId)
    ensures ReleasesOf(history + [e], id) == ReleasesOf(history, id) + if e.run == id && e.deed.Released? && e.deed.applied then 1 else 0
  {
    assert (history + [e])[..|history|] == history;
  }

  ghost predicate ReleasesInv(s: System) {
    && (forall id :: id in s.world.tally ==> s.world.tally[id].released == ReleasesOf(s.history, id))
    && (forall id :: id !in s.world.runs ==> ReleasesOf(s.history, id) == 0)
  }

  lemma WorldStepReleases(w: World, a: Action, id: RunId)
    requires AttemptsInv(w) && Enabled(w, a) && id in Apply(w, a).runs
    ensures id in Apply(w, a).tally
    ensures Apply(w, a).tally[id].released ==
      (if id in w.runs then w.tally[id].released else 0) + if a.DoRelease? && a.id == id && w.Holds(id, a.token) then 1 else 0
    ensures id !in w.runs ==> a.Create?
  {
  }

  lemma WorldStepKeepsRuns(w: World, a: Action)
    requires Enabled(w, a)
    ensures w.runs.Keys <= Apply(w, a).runs.Keys
  {
  }

  /** The world action inside a move, if it has one. */
  function WorldAction(s: System, m: Move): Option<Action>
    requires CanMove(s, m)
  {
    match m
    case Outside(a) => Some(a)
    case Begin(a) => Some(a)
    case Observe(_, _) => None
    case Call(t, now, leaseMs, arrives, _) => if arrives then Some(CallAction(s.slices[t], t, now, leaseMs)) else None
  }

  /** A move adds one applied release of `id` to the record exactly when its world action releases `id`. */
  lemma MoveRecordsReleases(s: System, m: Move, every: int, id: RunId)
    requires CanMove(s, m)
    ensures var a := WorldAction(s, m);
      ReleasesOf(Take(s, m, every).history, id) ==
      ReleasesOf(s.history, id) + if a.Some? && a.value.DoRelease? && a.value.id == id && s.world.Holds(id, a.value.token) then 1 else 0
  {
    var s' := Take(s, m, every);
    if |s'.history| == |s.history| {
      assert s'.history == s.history;
    } else {
      var e := s'.history[|s.history|];
      assert s'.history == s.history + [e];
      ReleasesOfOne(s.history, e, id);
    }
  }

  lemma MoveKeepsReleases(s: System, m: Move, every: int)
    requires AttemptsInv(s.world) && ReleasesInv(s) && CanMove(s, m)
    requires AttemptsInv(Take(s, m, every).world)
    ensures ReleasesInv(Take(s, m, every))
  {
    var s', a := Take(s, m, every), WorldAction(s, m);
    if a.Some? {
      WorldStepKeepsRuns(s.world, a.value);
    }
    forall id: RunId
      ensures id in s'.world.tally ==> s'.world.tally[id].released == ReleasesOf(s'.history, id)
      ensures id !in s'.world.runs ==> ReleasesOf(s'.history, id) == 0
    {
      MoveRecordsReleases(s, m, every, id);
      if a.Some? && id in s'.world.runs {
        assert s'.world == Apply(s.world, a.value);
        WorldStepReleases(s.world, a.value, id);
      }
    }
  }

  lemma {:induction false} ReleasesCounted(ss: seq<System>, moves: seq<Move>, every: int, n: nat)
    requires IsExecution(ss, moves, every) && n < |ss|
    ensures ReleasesInv(ss[n])
    decreases n
  {
    if n > 0 {
      ReleasesCounted(ss, moves, every, n - 1);
      ExecutionInvariant(ss, moves, every, n - 1);
      ExecutionInvariant(ss, moves, every, n);
      MoveKeepsReleases(ss[n - 1], moves[n - 1], every);
    }
  }

  /** At every point of every execution, a run's `attempts` counts exactly its releases, its reclaims and its present owner. */
  lemma AttemptsAccounted(ss: seq<System>, moves: seq<Move>, every: int, n: nat, id: RunId)
    requires IsExecution(ss, moves, every) && n < |ss| && id in ss[n].world.runs
    ensures id in ss[n].world.tally
    ensures ss[n].world.runs[id].attempts ==
      ReleasesOf(ss[n].history, id) + ss[n].world.tally[id].requeued + ss[n].world.tally[id].givenUp
      + if ss[n].world.runs[id].status.Running? then 1 else 0
  {
    ExecutionInvariant(ss, moves, every, n);
    ReleasesCounted(ss, moves, every, n);
    assert AttemptsAddUp(ss[n].world.runs[id], ss[n].world.tally[id]);
  }
}
