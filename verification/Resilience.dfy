/**
 Limits on outbound calls: a first-come-first-served semaphore and a circuit breaker.

 Both are state machines driven by callers in any interleaving. Each class method is one uninterrupted stretch
 of the original, and is proved equal to a step of the machine; the machine's invariants then hold over every run.
 */
module Resilience {
  import opened Options
  import opened Seqs

  // ---- The semaphore ----

  /** One call of `acquire`, by its own identity. */
  type Caller = nat

  datatype SemaphoreState = SemaphoreState(
    available: nat,
    waiters: seq<Caller>,
    /** Grants whose release has not been called. */
    held: set<Caller>,
    /** Every caller that asked with a live signal, in order. */
    arrivals: seq<Caller>,
    /** Every grant, in order. */
    grants: seq<Caller>,
    /** Callers whose signal fired while they waited. */
    aborted: set<Caller>)

  datatype SemaphoreEvent = Acquire(caller: Caller, dead: bool) | Abort(caller: Caller) | Release(caller: Caller)

  function Fresh(permits: nat): SemaphoreState {
    SemaphoreState(permits, [], {}, [], [], {})
  }

  function Without<T(==)>(s: seq<T>, x: T): (r: seq<T>)
    ensures x !in s ==> r == s
  {
    if s == [] then [] else if s[0] == x then s[1..] else [s[0]] + Without(s[1..], x)
  }

  function SemaphoreNext(s: SemaphoreState, e: SemaphoreEvent): SemaphoreState {
    match e
    case Acquire(c, dead) =>
      if dead then s
      else if s.available > 0 then
        s.(available := s.available - 1, held := s.held + {c}, arrivals := s.arrivals + [c], grants := s.grants + [c])
      else s.(waiters := s.waiters + [c], arrivals := s.arrivals + [c])
    case Abort(c) =>
      if c in s.waiters then s.(waiters := Without(s.waiters, c), aborted := s.aborted + {c}) else s
    case Release(c) =>
      if c !in s.held then s
      else if s.waiters != [] then
        s.(waiters := s.waiters[1..], held := s.held - {c} + {s.waiters[0]}, grants := s.grants + [s.waiters[0]])
      else s.(available := s.available + 1, held := s.held - {c})
  }

  /** Every call of acquire is a new caller. */
  predicate Enabled(s: SemaphoreState, e: SemaphoreEvent) {
    e.Acquire? ==> e.caller !in s.arrivals
  }

  ghost predicate NoRepeats<T>(s: seq<T>) {
    forall i, j :: 0 <= i < j < |s| ==> s[i] != s[j]
  }

  ghost predicate Counted(permits: nat, s: SemaphoreState) {
    && s.available + |s.held| == permits
    && (s.waiters != [] ==> s.available == 0)
  }

  function StillIn(aborted: set<Caller>): Caller -> bool {
    (c: Caller) => c !in aborted
  }

  /** Grants, then whoever still waits, are the callers in order of arrival, less those who gave up waiting. */
  ghost predicate InOrder(s: SemaphoreState) {
    && NoRepeats(s.arrivals)
    && s.grants + s.waiters == Filter(s.arrivals, StillIn(s.aborted))
    && (forall c :: c in s.held ==> c in s.grants)
    && (forall c :: c in s.aborted ==> c in s.arrivals)
  }

  ghost predicate SemaphoreInvariant(permits: nat, s: SemaphoreState) {
    Counted(permits, s) && InOrder(s)
  }

  lemma {:induction false} FilterNoRepeats<T(!new)>(s: seq<T>, p: T -> bool)
    requires NoRepeats(s)
    ensures NoRepeats(Filter(s, p))
  {
    if s != [] {
      FilterNoRepeats(s[1..], p);
      var rest := Filter(s[1..], p);
      forall j | 0 <= j < |rest|
        ensures rest[j] != s[0]
      {
        assert rest[j] in s[1..];
      }
    }
  }

  /** Nobody waits twice, and nobody waits who was granted. */
  lemma LineIsDisjoint(s: SemaphoreState)
    requires InOrder(s)
    ensures NoRepeats(s.grants + s.waiters)
    ensures forall c :: c in s.grants ==> c !in s.waiters
    ensures forall c :: c in s.grants + s.waiters ==> c in s.arrivals && c !in s.aborted
  {
    FilterNoRepeats(s.arrivals, StillIn(s.aborted));
    forall c | c in s.grants
      ensures c !in s.waiters
    {
      NotLater(s.grants, s.waiters, c);
    }
  }

  lemma NotLater<T>(a: seq<T>, b: seq<T>, x: T)
    requires NoRepeats(a + b) && x in a
    ensures x !in b
  {
    var i :| 0 <= i < |a| && a[i] == x;
    forall j | 0 <= j < |b|
      ensures b[j] != x
    {
      assert (a + b)[i] != (a + b)[|a| + j];
    }
  }

  /** Dropping a caller from the line is the same as not having counted it. */
  lemma {:induction false} FilterDrops(arrivals: seq<Caller>, aborted: set<Caller>, c: Caller)
    requires NoRepeats(arrivals)
    ensures Filter(arrivals, StillIn(aborted + {c})) == Without(Filter(arrivals, StillIn(aborted)), c)
  {
    if arrivals != [] {
      FilterDrops(arrivals[1..], aborted, c);
      if arrivals[0] == c {
        assert c !in arrivals[1..];
        FilterSame(arrivals[1..], StillIn(aborted + {c}), StillIn(aborted));
      }
    }
  }

  lemma {:induction false} WithoutAppend<T>(a: seq<T>, b: seq<T>, x: T)
    requires x !in a
    ensures Without(a + b, x) == a + Without(b, x)
  {
    if a == [] {
      assert a + b == b;
    } else {
      assert (a + b)[1..] == a[1..] + b;
      WithoutAppend(a[1..], b, x);
    }
  }

  lemma AcquireKeepsOrder(s: SemaphoreState, c: Caller)
    requires InOrder(s) && c !in s.arrivals && (s.waiters != [] ==> s.available == 0)
    ensures InOrder(SemaphoreNext(s, Acquire(c, false)))
  {
    FilterAppend(s.arrivals, [c], StillIn(s.aborted));
    assert Filter([c], StillIn(s.aborted)) == [c];
    if s.available > 0 {
      assert s.grants + [c] + [] == s.grants + [] + [c];
    } else {
      assert s.grants + (s.waiters + [c]) == s.grants + s.waiters + [c];
    }
  }

  lemma AbortKeepsOrder(s: SemaphoreState, c: Caller)
    requires InOrder(s) && c in s.waiters
    ensures InOrder(SemaphoreNext(s, Abort(c)))
  {
    LineIsDisjoint(s);
    FilterDrops(s.arrivals, s.aborted, c);
    WithoutAppend(s.grants, s.waiters, c);
    assert c in s.grants + s.waiters;
  }

  lemma ReleaseKeepsOrder(s: SemaphoreState, c: Caller)
    requires InOrder(s) && c in s.held
    ensures InOrder(SemaphoreNext(s, Release(c)))
  {
    if s.waiters != [] {
      assert s.grants + [s.waiters[0]] + s.waiters[1..] == s.grants + s.waiters;
    }
  }

  lemma SemaphoreStepKeeps(permits: nat, s: SemaphoreState, e: SemaphoreEvent)
    requires SemaphoreInvariant(permits, s) && Enabled(s, e)
    ensures SemaphoreInvariant(permits, SemaphoreNext(s, e))
  {
    LineIsDisjoint(s);
    match e
    case Acquire(c, dead) =>
      if !dead {
        AcquireKeepsOrder(s, c);
        assert c !in s.held by {
          assert c in s.held ==> c in s.grants && c in s.grants + s.waiters;
        }
      }
    case Abort(c) =>
      if c in s.waiters {
        AbortKeepsOrder(s, c);
      }
    case Release(c) =>
      if c in s.held {
        ReleaseKeepsOrder(s, c);
        if s.waiters != [] {
          assert s.waiters[0] in s.waiters && s.waiters[0] !in s.held;
        }
      }
  }

  ghost predicate IsSemaphoreRun(permits: nat, states: seq<SemaphoreState>, events: seq<SemaphoreEvent>) {
    && |states| == |events| + 1 && states[0] == Fresh(permits)
    && forall i :: 0 <= i < |events| ==> Enabled(states[i], events[i]) && states[i + 1] == SemaphoreNext(states[i], events[i])
  }

  /** In every interleaving: permits are conserved, nobody waits beside a free permit, and grants follow arrivals. */
  lemma {:induction false} SemaphoreRunsKeep(permits: nat, states: seq<SemaphoreState>, events: seq<SemaphoreEvent>, n: nat)
    requires IsSemaphoreRun(permits, states, events) && n < |states|
    ensures SemaphoreInvariant(permits, states[n])
    decreases n
  {
    if n > 0 {
      SemaphoreRunsKeep(permits, states, events, n - 1);
      assert states[n - 1 + 1] == SemaphoreNext(states[n - 1], events[n - 1]);
      SemaphoreStepKeeps(permits, states[n - 1], events[n - 1]);
    }
  }

  class Semaphore {
    const permits: nat
    var available: nat
    var waiters: seq<Caller>
    /** The release functions handed out and not yet called. */
    var held: set<Caller>
    ghost var arrivals: seq<Caller>
    ghost var grants: seq<Caller>
    ghost var aborted: set<Caller>

    ghost function State(): SemaphoreState
      reads this
    {
      SemaphoreState(available, waiters, held, arrivals, grants, aborted)
    }

    ghost predicate Valid()
      reads this
    {
      SemaphoreInvariant(permits, State())
    }

    constructor (permits: nat)
      requires permits >= 1
      ensures Valid() && State() == Fresh(permits) && this.permits == permits
    {
      this.permits := permits;
      available, waiters, held := permits, [], {};
      arrivals, grants, aborted := [], [], {};
    }

    /** Up to the first wait: the permit is taken at once, or the caller joins the line. */
    method Acquire(caller: Caller, dead: bool) returns (granted: bool)
      requires Valid() && caller !in arrivals
      modifies this
      ensures Valid() && State() == SemaphoreNext(old(State()), SemaphoreEvent.Acquire(caller, dead))
      ensures granted <==> !dead && old(available) > 0
      ensures granted ==> caller in held && available == old(available) - 1 && waiters == old(waiters)
      ensures !granted ==> held == old(held) && available == old(available) && waiters == old(waiters) + if dead then [] else [caller]
    {
      SemaphoreStepKeeps(permits, State(), SemaphoreEvent.Acquire(caller, dead));
      if dead {
        return false;
      }
      arrivals := arrivals + [caller];
      if available > 0 {
        available := available - 1;
        held := held + {caller};
        grants := grants + [caller];
        return true;
      }
      waiters := waiters + [caller];
      return false;
    }

    method Abort(caller: Caller)
      requires Valid()
      modifies this
      ensures Valid() && State() == SemaphoreNext(old(State()), SemaphoreEvent.Abort(caller))
      ensures caller in old(waiters) ==> aborted == old(aborted) + {caller}
      ensures caller !in old(waiters) ==> aborted == old(aborted)
      ensures available == old(available) && held == old(held) && grants == old(grants) && arrivals == old(arrivals)
    {
      SemaphoreStepKeeps(permits, State(), SemaphoreEvent.Abort(caller));
      if caller in waiters {
        waiters := Without(waiters, caller);
        aborted := aborted + {caller};
      }
    }

    /** Released at most once: a second call finds nothing held. */
    method Release(caller: Caller)
      requires Valid()
      modifies this
      ensures Valid() && State() == SemaphoreNext(old(State()), SemaphoreEvent.Release(caller))
      ensures caller !in old(held) ==> State() == old(State())
      ensures caller in old(held) && old(waiters) != [] ==> old(waiters)[0] in held && waiters == old(waiters)[1..] && available == old(available)
      ensures caller in old(held) && old(waiters) == [] ==> held == old(held) - {caller} && waiters == [] && available == old(available) + 1
    {
      SemaphoreStepKeeps(permits, State(), SemaphoreEvent.Release(caller));
      if caller !in held {
        return;
      }
      held := held - {caller};
      if waiters != [] {
        var next := waiters[0];
        waiters := waiters[1..];
        held := held + {next};
        grants := grants + [next];
      } else {
        available := available + 1;
      }
    }
  }

  // ---- The circuit breaker ----

  datatype Mode = Closed | Open | HalfOpen

  datatype Breaker = Breaker(mode: Mode, failures: nat, openedAt: int, trialInFlight: bool)

  datatype BreakerEvent = TryAcquire(now: int) | Look(now: int) | Success | Failure(now: int) | Reset

  const START := Breaker(Closed, 0, 0, false)

  function Refreshed(b: Breaker, openMs: int, now: int): Breaker {
    if b.mode.Open? && now - b.openedAt >= openMs then b.(mode := HalfOpen, trialInFlight := false) else b
  }

  predicate Admits(b: Breaker, openMs: int, now: int) {
    var r := Refreshed(b, openMs, now);
    r.mode.Closed? || (r.mode.HalfOpen? && !r.trialInFlight)
  }

  function BreakerNext(b: Breaker, threshold: int, openMs: int, e: BreakerEvent): Breaker {
    match e
    case TryAcquire(now) =>
      var r := Refreshed(b, openMs, now);
      if r.mode.HalfOpen? then r.(trialInFlight := true) else r
    case Look(now) => Refreshed(b, openMs, now)
    case Success => b.(mode := Closed, failures := 0, trialInFlight := false)
    case Failure(now) =>
      var c := b.(failures := b.failures + 1, trialInFlight := false);
      if c.mode.HalfOpen? || c.failures >= threshold then c.(mode := Open, openedAt := now) else c
    case Reset => b.(mode := Closed, failures := 0, trialInFlight := false)
  }

  ghost predicate IsBreakerRun(threshold: int, openMs: int, states: seq<Breaker>, events: seq<BreakerEvent>) {
    && |states| == |events| + 1 && states[0] == START
    && forall i :: 0 <= i < |events| ==> states[i + 1] == BreakerNext(states[i], threshold, openMs, events[i])
  }

  /** Closed exactly below the threshold. */
  ghost predicate CountsFailures(threshold: int, b: Breaker) {
    b.mode.Closed? <==> b.failures < threshold
  }

  lemma {:induction false} BreakerRunsCount(threshold: int, openMs: int, states: seq<Breaker>, events: seq<BreakerEvent>, n: nat)
    requires threshold >= 1 && IsBreakerRun(threshold, openMs, states, events) && n < |states|
    ensures CountsFailures(threshold, states[n])
    decreases n
  {
    if n > 0 {
      BreakerRunsCount(threshold, openMs, states, events, n - 1);
      assert states[n - 1 + 1] == BreakerNext(states[n - 1], threshold, openMs, events[n - 1]);
    }
  }

  /** The event let a call through while the circuit was, or had just become, half open. */
  ghost predicate AdmitsTrial(b: Breaker, openMs: int, e: BreakerEvent) {
    e.TryAcquire? && Admits(b, openMs, e.now) && Refreshed(b, openMs, e.now).mode.HalfOpen?
  }

  ghost function Trials(openMs: int, states: seq<Breaker>, events: seq<BreakerEvent>, i: nat, j: nat): nat
    requires i <= j <= |events| < |states|
    decreases j - i
  {
    if i == j then 0 else Trials(openMs, states, events, i, j - 1) + if AdmitsTrial(states[j - 1], openMs, events[j - 1]) then 1 else 0
  }

  /**
   A half-open spell, from the step that enters it to any step before it ends, admits one call at most, and
   admits it exactly when a trial is in flight: late results of earlier calls end the spell, they never refill it.
   */
  lemma {:induction false} OneTrialPerSpell(threshold: int, openMs: int, states: seq<Breaker>, events: seq<BreakerEvent>, i: nat, j: nat)
    requires IsBreakerRun(threshold, openMs, states, events) && i < j <= |events| && !states[i].mode.HalfOpen?
    requires forall k :: i < k <= j ==> states[k].mode.HalfOpen?
    ensures Trials(openMs, states, events, i, j) == if states[j].trialInFlight then 1 else 0
    decreases j
  {
    assert states[j - 1 + 1] == BreakerNext(states[j - 1], threshold, openMs, events[j - 1]);
    if i == j - 1 {
      assert Trials(openMs, states, events, i, i) == 0;
    } else {
      OneTrialPerSpell(threshold, openMs, states, events, i, j - 1);
    }
  }

  class CircuitBreaker {
    const threshold: int
    const openMs: int
    var mode: Mode
    var failures: nat
    var openedAt: int
    var trialInFlight: bool

    ghost function State(): Breaker
      reads this
    {
      Breaker(mode, failures, openedAt, trialInFlight)
    }

    constructor (threshold: Option<int>, openMs: Option<int>)
      ensures State() == START
      ensures this.threshold == if threshold.Some? then threshold.value else 5
      ensures this.openMs == if openMs.Some? then openMs.value else 30_000
    {
      this.threshold := if threshold.Some? then threshold.value else 5;
      this.openMs := if openMs.Some? then openMs.value else 30_000;
      mode, failures, openedAt, trialInFlight := Closed, 0, 0, false;
    }

    method Refresh(now: int)
      modifies this
      ensures State() == Refreshed(old(State()), openMs, now)
    {
      if mode == Open && now - openedAt >= openMs {
        mode := HalfOpen;
        trialInFlight := false;
      }
    }

    method TryAcquire(now: int) returns (admitted: bool)
      modifies this
      ensures admitted <==> Admits(old(State()), openMs, now)
      ensures admitted <==>
        || old(mode) == Closed
        || (old(mode) == Open && now - old(openedAt) >= openMs)
        || (old(mode) == HalfOpen && !old(trialInFlight))
      ensures mode == if old(mode) == Open && now - old(openedAt) >= openMs then HalfOpen else old(mode)
      ensures mode == HalfOpen ==> trialInFlight
      ensures failures == old(failures) && openedAt == old(openedAt)
      ensures State() == BreakerNext(old(State()), threshold, openMs, BreakerEvent.TryAcquire(now))
    {
      Refresh(now);
      if mode == Closed {
        return true;
      }
      if mode == Open {
        return false;
      }
      if trialInFlight {
        return false;
      }
      trialInFlight := true;
      return true;
    }

    method RecordSuccess()
      modifies this
      ensures State() == BreakerNext(old(State()), threshold, openMs, Success)
      ensures mode == Closed && failures == 0 && !trialInFlight
    {
      mode := Closed;
      failures := 0;
      trialInFlight := false;
    }

    method RecordFailure(now: int)
      modifies this
      ensures State() == BreakerNext(old(State()), threshold, openMs, Failure(now))
      ensures failures == old(failures) + 1 && !trialInFlight
      ensures old(mode) == HalfOpen || old(failures) + 1 >= threshold ==> mode == Open && openedAt == now
      ensures old(mode) != HalfOpen && old(failures) + 1 < threshold ==> mode == old(mode) && openedAt == old(openedAt)
    {
      failures := failures + 1;
      trialInFlight := false;
      if mode == HalfOpen || failures >= threshold {
        mode := Open;
        openedAt := now;
      }
    }

    method Reset()
      modifies this
      ensures State() == BreakerNext(old(State()), threshold, openMs, BreakerEvent.Reset)
      ensures mode == Closed && failures == 0 && !trialInFlight
    {
      mode := Closed;
      failures := 0;
      trialInFlight := false;
    }
  }
}
