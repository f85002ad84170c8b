/**
 The sliced executor: claim a run, step it until the slice runs out, hand it back.

 `React` is the control flow of one slice as a machine that waits at each `await` for the answer.
 `Executor.Drive` is the loop itself: whatever the surroundings answer, it hears exactly the events the
 machine hears from the same surroundings, none skipped, and ends as the machine ends.
 */
module SlicedExecutor {
  import opened Options
  import opened RunQueue

  datatype WaitReason = ForApproval | ForInput | ForTool

  function StatusFor(reason: WaitReason): SuspendStatus {
    match reason
    case ForApproval => SuspendApproval
    case ForInput => SuspendInput
    case ForTool => SuspendTool
  }

  /** What `stepOnce` reports. */
  datatype StepOutcome =
    | Continue
    | StepFinished
    | StepSuspended(reason: WaitReason)
    | StepStopped(code: string, message: string)

  datatype Outcome =
    | Yielded
    | Ended(ending: FinishStatus)
    | SuspendedOn(reason: WaitReason)
    | LostLease
    | Threw

  /** How a queue call came back. */
  datatype Answer = Accepted | Refused | Errored

  datatype Pc =
    | Opening
    | Top
    | Beating
    | Stepping
    | Releasing(intent: ReleaseIntent, next: Outcome)
    | Triggering
    | Done(outcome: Outcome)

  datatype Event =
    | Opened(now: Millis)
    | OpenLeaseLost
    | OpenFailed(message: string)
    | Checked(expired: bool, now: Millis)
    | BeatAnswer(answer: Answer, now: Millis)
    | Stepped(outcome: StepOutcome)
    | StepLeaseLost
    | StepThrew(message: string)
    | ReleaseAnswer(answer: Answer)
    | TriggerReturned

  datatype Slice = Slice(pc: Pc, steps: nat, lastHeartbeat: Millis)

  const START := Slice(Opening, 0, 0)

  predicate Expects(pc: Pc, ev: Event) {
    match pc
    case Opening => ev.Opened? || ev.OpenLeaseLost? || ev.OpenFailed?
    case Top => ev.Checked?
    case Beating => ev.BeatAnswer?
    case Stepping => ev.Stepped? || ev.StepLeaseLost? || ev.StepThrew?
    case Releasing(_, _) => ev.ReleaseAnswer?
    case Triggering => ev.TriggerReturned?
    case Done(_) => false
  }

  function Failing(message: string): Pc {
    Releasing(Finish(FinishFailed, Some(RunError("executor_error", message))), Ended(FinishFailed))
  }

  /** One transition of a slice. `every` is the heartbeat interval. */
  function React(s: Slice, ev: Event, every: int): Slice
    requires Expects(s.pc, ev)
  {
    match ev
    case Opened(now) => s.(pc := Top, lastHeartbeat := now)
    case OpenLeaseLost => s.(pc := Done(LostLease))
    case OpenFailed(message) => s.(pc := Failing(message))
    case Checked(expired, now) =>
      if expired then s.(pc := Releasing(Requeue(now, None), Yielded))
      else if now - s.lastHeartbeat >= every then s.(pc := Beating)
      else s.(pc := Stepping)
    case BeatAnswer(answer, now) => (
      match answer
      case Accepted => s.(pc := Stepping, lastHeartbeat := now)
      case Refused => s.(pc := Done(LostLease))
      case Errored => s.(pc := Done(Threw)))
    case Stepped(outcome) => (
      var s' := s.(steps := s.steps + 1);
      match outcome
      case Continue => s'.(pc := Top)
      case StepFinished => s'.(pc := Releasing(Finish(FinishSucceeded, None), Ended(FinishSucceeded)))
      case StepSuspended(reason) => s'.(pc := Releasing(Suspend(StatusFor(reason)), SuspendedOn(reason)))
      case StepStopped(code, message) =>
        s'.(pc := Releasing(Finish(FinishFailed, Some(RunError(code, message))), Ended(FinishFailed))))
    case StepLeaseLost => s.(pc := Done(LostLease))
    case StepThrew(message) => s.(pc := Failing(message))
    case ReleaseAnswer(answer) => (
      match answer
      case Accepted => if s.pc.intent.Requeue? then s.(pc := Triggering) else s.(pc := Done(s.pc.next))
      // The suspending branch has no handler of its own, so a lost lease escapes from it.
      case Refused => if s.pc.intent.Suspend? then s.(pc := Done(Threw)) else s.(pc := Done(LostLease))
      case Errored => s.(pc := Done(Threw)))
    case TriggerReturned => s.(pc := Done(Yielded))
  }

  /** The machine run over a list of events; None when some event was not expected. */
  function Replay(events: seq<Event>, every: int): Option<Slice> {
    if events == [] then Some(START)
    else
      var before := Replay(events[..|events| - 1], every);
      var last := events[|events| - 1];
      if before.Some? && Expects(before.value.pc, last) then Some(React(before.value, last, every)) else None
  }

  lemma ReplayOne(events: seq<Event>, ev: Event, every: int)
    ensures Replay(events + [ev], every) ==
      var before := Replay(events, every);
      if before.Some? && Expects(before.value.pc, ev) then Some(React(before.value, ev, every)) else None
  {
    assert (events + [ev])[..|events|] == events;
  }

  // ---- The machine in given surroundings ----

  datatype OpenResult = SessionOpen(now: Millis) | SessionLeaseLost | SessionFailed(message: string)
  datatype StepResult = Returned(outcome: StepOutcome) | RaisedLeaseLost | Raised(message: string)

  /** Everything the surroundings would answer during one pass of the loop, whether or not they are asked. */
  datatype Turn = Turn(expired: bool, now: Millis, beat: Answer, beatenAt: Millis, step: StepResult, release: Answer)

  function OpenEvent(open: OpenResult): Event {
    match open
    case SessionOpen(now) => Opened(now)
    case SessionLeaseLost => OpenLeaseLost
    case SessionFailed(message) => OpenFailed(message)
  }

  function StepEvent(step: StepResult): Event {
    match step
    case Returned(outcome) => Stepped(outcome)
    case RaisedLeaseLost => StepLeaseLost
    case Raised(message) => StepThrew(message)
  }

  /** The surroundings' answer to a slice that waits at this place. */
  function Ask(pc: Pc, t: Turn): (ev: Event)
    requires !pc.Opening? && !pc.Done?
    ensures Expects(pc, ev)
  {
    match pc
    case Top => Checked(t.expired, t.now)
    case Beating => BeatAnswer(t.beat, t.beatenAt)
    case Stepping => StepEvent(t.step)
    case Releasing(_, _) => ReleaseAnswer(t.release)
    case Triggering => TriggerReturned
  }

  function Rank(pc: Pc): nat {
    match pc
    case Opening => 6
    case Beating => 5
    case Stepping => 4
    case Top => 3
    case Releasing(_, _) => 2
    case Triggering => 1
    case Done(_) => 0
  }

  /**
   What the machine hears from this state on, in pass t with the passes `rest` to come. It stops when the
   slice is over, and at the top of the loop when the surroundings answer no further pass.
   */
  function Heard(s: Slice, t: Turn, rest: seq<Turn>, every: int): seq<Event>
    requires !s.pc.Opening?
    decreases |rest|, Rank(s.pc)
  {
    if s.pc.Done? then []
    else if s.pc.Top? then
      if rest == [] then []
      else
        var ev := Ask(s.pc, rest[0]);
        [ev] + Heard(React(s, ev, every), rest[0], rest[1..], every)
    else
      var ev := Ask(s.pc, t);
      [ev] + Heard(React(s, ev, every), t, rest, every)
  }

  /** Before the first pass only a release can be asked for. */
  function OpeningTurn(release: Answer): Turn {
    Turn(false, 0, Errored, 0, RaisedLeaseLost, release)
  }

  /** Everything a slice hears from opening its session on. */
  function Script(open: OpenResult, openRelease: Answer, turns: seq<Turn>, every: int): seq<Event> {
    var ev := OpenEvent(open);
    [ev] + Heard(React(START, ev, every), OpeningTurn(openRelease), turns, every)
  }

  /** How a slice ends on the answer to its release. */
  function OutcomeAfter(intent: ReleaseIntent, next: Outcome, answer: Answer): Outcome {
    match answer
    case Accepted => next
    case Refused => if intent.Suspend? then Threw else LostLease
    case Errored => Threw
  }

  // ---- What a slice owes, said of the answers alone ----

  /** The release an answer calls for, if it calls for one. */
  function Owed(ev: Event): Option<ReleaseIntent> {
    match ev
    case Checked(true, now) => Some(Requeue(now, None))
    case Stepped(StepFinished) => Some(Finish(FinishSucceeded, None))
    case Stepped(StepSuspended(ForApproval)) => Some(Suspend(SuspendApproval))
    case Stepped(StepSuspended(ForInput)) => Some(Suspend(SuspendInput))
    case Stepped(StepSuspended(ForTool)) => Some(Suspend(SuspendTool))
    case Stepped(StepStopped(code, message)) => Some(Finish(FinishFailed, Some(RunError(code, message))))
    case StepThrew(message) => Some(Finish(FinishFailed, Some(RunError("executor_error", message))))
    case OpenFailed(message) => Some(Finish(FinishFailed, Some(RunError("executor_error", message))))
    case _ => None
  }

  /** What the slice reports when that release is accepted. */
  function Intended(intent: ReleaseIntent): Outcome {
    match intent
    case Requeue(_, _) => Yielded
    case Suspend(SuspendApproval) => SuspendedOn(ForApproval)
    case Suspend(SuspendInput) => SuspendedOn(ForInput)
    case Suspend(SuspendTool) => SuspendedOn(ForTool)
    case Finish(ending, _) => Ended(ending)
  }

  /** The machine goes to release exactly on an answer that calls for it, and with that release. */
  lemma OwedIsReleased(s: Slice, ev: Event, every: int)
    requires Expects(s.pc, ev)
    ensures React(s, ev, every).pc.Releasing? <==> Owed(ev).Some?
    ensures Owed(ev).Some? ==> React(s, ev, every).pc == Releasing(Owed(ev).value, Intended(Owed(ev).value))
  {
  }

  /** When the lease was last known to be extended: at opening, or by the last heartbeat that was accepted. */
  function LastBeat(events: seq<Event>): Millis {
    if events == [] then 0
    else
      match events[|events| - 1]
      case Opened(now) => now
      case BeatAnswer(Accepted, now) => now
      case _ => LastBeat(events[..|events| - 1])
  }

  lemma {:induction false} LastBeatIsKept(events: seq<Event>, every: int)
    requires Replay(events, every).Some?
    ensures Replay(events, every).value.lastHeartbeat == LastBeat(events)
  {
    if events != [] {
      LastBeatIsKept(events[..|events| - 1], every);
    }
  }

  /** At the top of a pass that is not expired, a heartbeat is asked for exactly when the interval has passed. */
  lemma BeatIsDue(events: seq<Event>, now: Millis, every: int)
    requires Replay(events, every).Some? && Replay(events, every).value.pc.Top?
    ensures var pc := React(Replay(events, every).value, Checked(false, now), every).pc;
      pc == if now - LastBeat(events) >= every then Beating else Stepping
  {
    LastBeatIsKept(events, every);
  }

  /** How a slice ended: what it reports, and the one release it sent, if it sent one. */
  datatype Ending = Ending(outcome: Outcome, sent: Option<ReleaseIntent>)

  /** A release that was sent, and its answer: accepted as intended, refused as a lost lease except for a suspend. */
  function SentAs(intent: ReleaseIntent, answer: Answer): Ending {
    Ending(OutcomeAfter(intent, Intended(intent), answer), Some(intent))
  }

  predicate BeatDue(t: Turn, last: Millis, every: int) {
    !t.expired && t.now - last >= every
  }

  /** The step of the pass is taken: the deadline leaves room for it and no heartbeat failed. */
  predicate Steps(t: Turn, last: Millis, every: int) {
    !t.expired && (BeatDue(t, last, every) ==> t.beat.Accepted?)
  }

  /** How a pass ends the slice, if it does, from what the pass was answered. */
  function PassEnding(t: Turn, last: Millis, every: int): Option<Ending> {
    if t.expired then Some(SentAs(Requeue(t.now, None), t.release))
    else if !Steps(t, last, every) then Some(Ending(if t.beat.Refused? then LostLease else Threw, None))
    else if t.step.RaisedLeaseLost? then Some(Ending(LostLease, None))
    else if Owed(StepEvent(t.step)).Some? then Some(SentAs(Owed(StepEvent(t.step)).value, t.release))
    else None
  }

  function BeatAfter(t: Turn, last: Millis, every: int): Millis {
    if BeatDue(t, last, every) && t.beat.Accepted? then t.beatenAt else last
  }

  /** How the passes end the slice; None when they do not end it. */
  function LoopEnding(turns: seq<Turn>, last: Millis, every: int): Option<Ending> {
    if turns == [] then None
    else if PassEnding(turns[0], last, every).Some? then PassEnding(turns[0], last, every)
    else LoopEnding(turns[1..], BeatAfter(turns[0], last, every), every)
  }

  function StepsTaken(turns: seq<Turn>, last: Millis, every: int): nat {
    if turns == [] then 0
    else
      (if Steps(turns[0], last, every) && turns[0].step.Returned? then 1 else 0)
      + if PassEnding(turns[0], last, every).Some? then 0 else StepsTaken(turns[1..], BeatAfter(turns[0], last, every), every)
  }

  /** The same from opening the session on. */
  function SliceEnding(open: OpenResult, openRelease: Answer, turns: seq<Turn>, every: int): Option<Ending> {
    match open
    case SessionOpen(now) => LoopEnding(turns, now, every)
    case SessionLeaseLost => Some(Ending(LostLease, None))
    case SessionFailed(message) => Some(SentAs(Finish(FinishFailed, Some(RunError("executor_error", message))), openRelease))
  }

  function SliceSteps(open: OpenResult, turns: seq<Turn>, every: int): nat {
    if open.SessionOpen? then StepsTaken(turns, open.now, every) else 0
  }

  // ---- The loop itself ----

  class Executor {
    const heartbeatEveryMs: int

    constructor (heartbeatEveryMs: Option<int>)
      ensures this.heartbeatEveryMs == if heartbeatEveryMs.Some? then heartbeatEveryMs.value else 30_000
    {
      this.heartbeatEveryMs := if heartbeatEveryMs.Some? then heartbeatEveryMs.value else 30_000;
    }

    /** `seen` replays to this state of the machine, and what the machine hears next completes `whole`. */
    ghost predicate At(whole: seq<Event>, seen: seq<Event>, s: Slice, t: Turn, rest: seq<Turn>) {
      && !s.pc.Opening? && Replay(seen, heartbeatEveryMs) == Some(s)
      && whole == seen + Heard(s, t, rest, heartbeatEveryMs)
    }

    /** Records the surroundings' answer inside a pass, and moves the machine by it. */
    method Note(ghost whole: seq<Event>, seen: seq<Event>, ghost s: Slice, ghost t: Turn, ghost rest: seq<Turn>, ev: Event) returns (more: seq<Event>)
      requires At(whole, seen, s, t, rest) && !s.pc.Done? && !s.pc.Top? && ev == Ask(s.pc, t)
      ensures more == seen + [ev] && At(whole, more, React(s, ev, heartbeatEveryMs), t, rest)
    {
      more := seen + [ev];
      ReplayOne(seen, ev, heartbeatEveryMs);
    }

    /** Begins the next pass. */
    method NoteTop(ghost whole: seq<Event>, seen: seq<Event>, ghost s: Slice, ghost t: Turn, ghost rest: seq<Turn>, ev: Event) returns (more: seq<Event>)
      requires At(whole, seen, s, t, rest) && s.pc.Top? && rest != [] && ev == Ask(s.pc, rest[0])
      ensures more == seen + [ev] && At(whole, more, React(s, ev, heartbeatEveryMs), rest[0], rest[1..])
    {
      more := seen + [ev];
      ReplayOne(seen, ev, heartbeatEveryMs);
    }

    /** The slice is over with this outcome, and the machine has heard everything. */
    ghost predicate Over(whole: seq<Event>, seen: seq<Event>, s: Slice, outcome: Outcome) {
      seen == whole && Replay(seen, heartbeatEveryMs) == Some(s.(pc := Done(outcome)))
    }

    /** `#yield`: hand the run back, and only then ask for another slice. */
    method YieldRun(ghost whole: seq<Event>, seen: seq<Event>, ghost s: Slice, ghost t: Turn, ghost rest: seq<Turn>, now: Millis, release: Answer)
      returns (ending: Ending, more: seq<Event>)
      requires At(whole, seen, s, t, rest) && s.pc == Releasing(Requeue(now, None), Yielded) && release == t.release
      ensures ending == SentAs(Requeue(now, None), release)
      ensures more == seen + [ReleaseAnswer(release)] + if release.Accepted? then [TriggerReturned] else []
      ensures Over(whole, more, s, ending.outcome)
    {
      var sent := Some(Requeue(now, None));
      more := Note(whole, seen, s, t, rest, ReleaseAnswer(release));
      if release.Accepted? {
        more := Note(whole, more, s.(pc := Triggering), t, rest, TriggerReturned);
        return Ending(Yielded, sent), more;
      }
      return Ending(if release.Refused? then LostLease else Threw, sent), more;
    }

    /** `#finish` and `#fail`. */
    method FinishRun(ghost whole: seq<Event>, seen: seq<Event>, ghost s: Slice, ghost t: Turn, ghost rest: seq<Turn>, status: FinishStatus, error: Option<RunError>, release: Answer)
      returns (ending: Ending, more: seq<Event>)
      requires At(whole, seen, s, t, rest) && s.pc == Releasing(Finish(status, error), Ended(status)) && release == t.release
      ensures ending == SentAs(Finish(status, error), release)
      ensures more == seen + [ReleaseAnswer(release)]
      ensures Over(whole, more, s, ending.outcome)
    {
      more := Note(whole, seen, s, t, rest, ReleaseAnswer(release));
      ending := Ending(if release.Accepted? then Ended(status) else if release.Refused? then LostLease else Threw, Some(Finish(status, error)));
    }

    /** The `switch` after a step that returned something other than `continue`. */
    method AfterStep(ghost whole: seq<Event>, seen: seq<Event>, ghost s: Slice, ghost t: Turn, ghost rest: seq<Turn>, step: StepOutcome, release: Answer)
      returns (ending: Ending, more: seq<Event>)
      requires !step.Continue? && s.pc.Stepping? && release == t.release
      requires At(whole, seen, React(s, Stepped(step), heartbeatEveryMs), t, rest)
      ensures Owed(Stepped(step)).Some? && ending == SentAs(Owed(Stepped(step)).value, release)
      ensures more == seen + [ReleaseAnswer(release)]
      ensures Over(whole, more, s.(steps := s.steps + 1), ending.outcome)
    {
      ghost var s' := React(s, Stepped(step), heartbeatEveryMs);
      match step {
        case StepFinished =>
          ending, more := FinishRun(whole, seen, s', t, rest, FinishSucceeded, None, release);
        case StepSuspended(reason) =>
          more := Note(whole, seen, s', t, rest, ReleaseAnswer(release));
          ending := Ending(if release.Accepted? then SuspendedOn(reason) else Threw, Some(Suspend(StatusFor(reason))));
        case StepStopped(code, message) =>
          ending, more := FinishRun(whole, seen, s', t, rest, FinishFailed, Some(RunError(code, message)), release);
      }
    }

    /** What a drive reports: the machine's own outcome, or None at the top of the loop with every pass used. */
    ghost predicate Reports(seen: seq<Event>, ending: Option<Ending>, steps: nat, passes: nat) {
      var end := Replay(seen, heartbeatEveryMs);
      && end.Some? && end.value.steps == steps <= passes
      && (if ending.Some? then end.value.pc == Done(ending.value.outcome) else end.value.pc == Top && steps == passes)
    }

    /**
     The drive loop against any surroundings. It hears exactly what the machine hears from them, and ends as the
     machine ends, or not at all if the surroundings stop answering (the process was killed). What it reports, what it
     releases and how many steps it counts are said of the answers directly.
     */
    method Drive(open: OpenResult, openRelease: Answer, turns: seq<Turn>) returns (ending: Option<Ending>, steps: nat, seen: seq<Event>)
      ensures seen == Script(open, openRelease, turns, heartbeatEveryMs)
      ensures Reports(seen, ending, steps, |turns|)
      ensures ending == SliceEnding(open, openRelease, turns, heartbeatEveryMs)
      ensures steps == SliceSteps(open, turns, heartbeatEveryMs)
    {
      ghost var whole := Script(open, openRelease, turns, heartbeatEveryMs);
      ghost var t := OpeningTurn(openRelease);
      steps := 0;
      seen := [OpenEvent(open)];
      ReplayOne([], OpenEvent(open), heartbeatEveryMs);
      assert [] + [OpenEvent(open)] == [OpenEvent(open)];
      assert At(whole, seen, React(START, OpenEvent(open), heartbeatEveryMs), t, turns);
      match open {
        case SessionLeaseLost =>
          return Some(Ending(LostLease, None)), steps, seen;
        case SessionFailed(message) =>
          var e;
          e, seen := FinishRun(whole, seen, START.(pc := Failing(message)), t, turns, FinishFailed, Some(RunError("executor_error", message)), openRelease);
          return Some(e), steps, seen;
        case SessionOpen(now) =>
          ending, steps, seen := Loop(whole, now, t, turns, seen);
      }
    }

    method Loop(ghost whole: seq<Event>, openedAt: Millis, ghost last: Turn, turns: seq<Turn>, before: seq<Event>)
      returns (ending: Option<Ending>, steps: nat, seen: seq<Event>)
      requires At(whole, before, Slice(Top, 0, openedAt), last, turns)
      ensures seen == whole && Reports(seen, ending, steps, |turns|)
      ensures ending == LoopEnding(turns, openedAt, heartbeatEveryMs) && steps == StepsTaken(turns, openedAt, heartbeatEveryMs)
    {
      seen, steps := before, 0;
      var lastHeartbeat := openedAt;
      ghost var t := last;
      assert turns[0..] == turns;
      while steps < |turns|
        invariant steps <= |turns|
        invariant At(whole, seen, Slice(Top, steps, lastHeartbeat), t, turns[steps..])
        invariant LoopEnding(turns, openedAt, heartbeatEveryMs) == LoopEnding(turns[steps..], lastHeartbeat, heartbeatEveryMs)
        invariant StepsTaken(turns, openedAt, heartbeatEveryMs) == steps + StepsTaken(turns[steps..], lastHeartbeat, heartbeatEveryMs)
      {
        ghost var rest := turns[steps + 1..];
        assert turns[steps..] == [turns[steps]] + rest;
        LoopUnfolds(turns[steps], rest, lastHeartbeat, heartbeatEveryMs);
        ending, lastHeartbeat, steps, seen := Pass(whole, seen, steps, lastHeartbeat, t, turns[steps], rest);
        if ending.Some? {
          return ending, steps, seen;
        }
        t := turns[steps - 1];
      }
      assert turns[steps..] == [];
      assert Heard(Slice(Top, steps, lastHeartbeat), t, [], heartbeatEveryMs) == [];
      ending := None;
    }

    /** One pass of the loop: check the deadline, keep the lease alive, take a step. */
    method Pass(ghost whole: seq<Event>, before: seq<Event>, k: nat, beatAt: Millis, ghost last: Turn, turn: Turn, ghost rest: seq<Turn>)
      returns (ending: Option<Ending>, lastHeartbeat: Millis, steps: nat, seen: seq<Event>)
      requires At(whole, before, Slice(Top, k, beatAt), last, [turn] + rest)
      ensures ending == PassEnding(turn, beatAt, heartbeatEveryMs)
      ensures steps == k + if Steps(turn, beatAt, heartbeatEveryMs) && turn.step.Returned? then 1 else 0
      ensures lastHeartbeat == BeatAfter(turn, beatAt, heartbeatEveryMs)
      ensures ending.Some? ==> Over(whole, seen, Slice(Top, steps, lastHeartbeat), ending.value.outcome)
      ensures ending.None? ==> steps == k + 1 && At(whole, seen, Slice(Top, steps, lastHeartbeat), turn, rest)
    {
      assert ([turn] + rest)[0] == turn && ([turn] + rest)[1..] == rest;
      lastHeartbeat, steps := beatAt, k;
      ghost var s := Slice(Top, k, beatAt);
      seen := NoteTop(whole, before, s, last, [turn] + rest, Checked(turn.expired, turn.now));
      if turn.expired {
        var e;
        e, seen := YieldRun(whole, seen, s.(pc := Releasing(Requeue(turn.now, None), Yielded)), turn, rest, turn.now, turn.release);
        return Some(e), lastHeartbeat, steps, seen;
      }
      var lost;
      lost, lastHeartbeat, seen := KeepAlive(whole, seen, k, beatAt, turn, rest);
      if lost.Some? {
        return Some(Ending(lost.value, None)), lastHeartbeat, steps, seen;
      }
      ending, steps, seen := TakeStep(whole, seen, k, lastHeartbeat, turn, rest);
    }

    /** Heartbeats when one is due; a refusal or an error ends the slice. */
    method KeepAlive(ghost whole: seq<Event>, before: seq<Event>, ghost k: nat, beatAt: Millis, turn: Turn, ghost rest: seq<Turn>)
      returns (lost: Option<Outcome>, lastHeartbeat: Millis, seen: seq<Event>)
      requires !turn.expired && At(whole, before, Slice(if turn.now - beatAt >= heartbeatEveryMs then Beating else Stepping, k, beatAt), turn, rest)
      ensures lost.None? <==> Steps(turn, beatAt, heartbeatEveryMs)
      ensures lost.Some? ==> lost.value == if turn.beat.Refused? then LostLease else Threw
      ensures lastHeartbeat == BeatAfter(turn, beatAt, heartbeatEveryMs)
      ensures lost.Some? ==> Over(whole, seen, Slice(Top, k, lastHeartbeat), lost.value)
      ensures lost.None? ==> At(whole, seen, Slice(Stepping, k, lastHeartbeat), turn, rest)
    {
      lastHeartbeat, seen := beatAt, before;
      if turn.now - lastHeartbeat >= heartbeatEveryMs {
        seen := Note(whole, seen, Slice(Beating, k, beatAt), turn, rest, BeatAnswer(turn.beat, turn.beatenAt));
        if !turn.beat.Accepted? {
          return Some(if turn.beat.Refused? then LostLease else Threw), lastHeartbeat, seen;
        }
        lastHeartbeat := turn.beatenAt;
      }
      lost := None;
    }

    method TakeStep(ghost whole: seq<Event>, before: seq<Event>, k: nat, ghost beatAt: Millis, turn: Turn, ghost rest: seq<Turn>)
      returns (ending: Option<Ending>, steps: nat, seen: seq<Event>)
      requires At(whole, before, Slice(Stepping, k, beatAt), turn, rest)
      ensures steps == k + if turn.step.Returned? then 1 else 0
      ensures ending == if turn.step.RaisedLeaseLost? then Some(Ending(LostLease, None)) else if Owed(StepEvent(turn.step)).Some? then Some(SentAs(Owed(StepEvent(turn.step)).value, turn.release)) else None
      ensures ending.Some? ==> Over(whole, seen, Slice(Top, steps, beatAt), ending.value.outcome)
      ensures ending.None? ==> steps == k + 1 && At(whole, seen, Slice(Top, steps, beatAt), turn, rest)
    {
      steps := k;
      ghost var s := Slice(Stepping, k, beatAt);
      seen := Note(whole, before, s, turn, rest, StepEvent(turn.step));
      match turn.step {
        case RaisedLeaseLost =>
          return Some(Ending(LostLease, None)), steps, seen;
        case Raised(message) =>
          var e;
          e, seen := FinishRun(whole, seen, s.(pc := Failing(message)), turn, rest, FinishFailed, Some(RunError("executor_error", message)), turn.release);
          return Some(e), steps, seen;
        case Returned(step) =>
          steps := steps + 1;
          if !step.Continue? {
            var e;
            e, seen := AfterStep(whole, seen, s, turn, rest, step, turn.release);
            return Some(e), steps, seen;
          }
          ending := None;
      }
    }
  }

  lemma LoopUnfolds(t: Turn, rest: seq<Turn>, last: Millis, every: int)
    ensures LoopEnding([t] + rest, last, every) ==
      if PassEnding(t, last, every).Some? then PassEnding(t, last, every) else LoopEnding(rest, BeatAfter(t, last, every), every)
    ensures StepsTaken([t] + rest, last, every) ==
      (if Steps(t, last, every) && t.step.Returned? then 1 else 0)
      + if PassEnding(t, last, every).Some? then 0 else StepsTaken(rest, BeatAfter(t, last, every), every)
  {
    assert ([t] + rest)[1..] == rest;
  }
}
