/**
 The queue under every interleaving of its callers.

 Executors and sweepers share one clock that never goes back. A caller reads the clock and its
 write reaches the database some time later, so a write carries a reading `now` that is at most the
 current clock. A sweep is a read step and then one write step per run it read. A write whose filter
 matches nothing changes nothing, exactly as in `RunQueue`.
 */
module RunQueueProtocol {
  import opened Options
  import opened RunQueue

  type SweeperId = nat

  /** A sweep in progress: its clock reading and the documents its find returned. */
  datatype OpenSweep = OpenSweep(now: Millis, read: map<RunId, RunDoc>)

  /** Bookkeeping the database does not hold: how each stretch of `running` ended. */
  datatype Tally = Tally(released: nat, requeued: nat, givenUp: nat)

  datatype World = World(
    clock: Millis,
    runs: map<RunId, RunDoc>,
    issued: set<Token>,
    sweeps: map<SweeperId, OpenSweep>,
    tally: map<RunId, Tally>,
    maxAttempts: int)
  {
    predicate Holds(id: RunId, token: Token) {
      id in runs && runs[id].HeldBy(token)
    }
  }

  datatype Action =
    | Tick(to: Millis)
    | Create(id: RunId, workspaceId: string, priority: int, scheduledFor: Millis)
    | DoEnqueue(id: RunId, scheduledFor: Millis, newPriority: Option<int>)
    | DoClaim(id: RunId, owner: string, now: Millis, leaseMs: int, token: Token)
    | DoHeartbeat(id: RunId, token: Token, now: Millis, leaseMs: int)
    | DoRelease(id: RunId, token: Token, intent: ReleaseIntent, now: Millis)
    | SweepRead(s: SweeperId, now: Millis, found: set<RunId>)
    | SweepWrite(s: SweeperId, id: RunId, roll: nat)

  /** What a caller is able to do: read clocks are in the past, tokens are fresh, finds return what is there. */
  predicate Enabled(w: World, a: Action) {
    match a
    case Tick(to) => w.clock <= to
    case Create(id, _, _, _) => id !in w.runs
    case DoEnqueue(_, _, _) => true
    case DoClaim(id, _, now, _, token) =>
      now <= w.clock && token !in w.issued && id in w.runs && w.runs[id].Claimable(now, None)
    case DoHeartbeat(_, _, now, _) => now <= w.clock
    case DoRelease(_, _, _, now) => now <= w.clock
    case SweepRead(_, now, found) =>
      now <= w.clock && forall id :: id in found ==> id in w.runs && w.runs[id].Stalled(now)
    case SweepWrite(s, id, _) => s in w.sweeps && id in w.sweeps[s].read
  }

  function NewRun(workspaceId: string, priority: int, scheduledFor: Millis): RunDoc {
    RunDoc(workspaceId, Queued, priority, scheduledFor, None, 0, None, None, None, None, None)
  }

  function Set(w: World, id: RunId, d: RunDoc): World {
    w.(runs := w.runs[id := d])
  }

  function Apply(w: World, a: Action): World
    requires Enabled(w, a)
  {
    match a
    case Tick(to) => w.(clock := to)
    case Create(id, ws, priority, at) =>
      Set(w, id, NewRun(ws, priority, at)).(tally := w.tally[id := Tally(0, 0, 0)])
    case DoEnqueue(id, at, priority) =>
      if id in w.runs then Set(w, id, EnqueueDoc(w.runs[id], at, priority)) else w
    case DoClaim(id, owner, now, leaseMs, token) =>
      Set(w, id, ClaimDoc(w.runs[id], owner, now, leaseMs, token)).(issued := w.issued + {token})
    case DoHeartbeat(id, token, now, leaseMs) =>
      if w.Holds(id, token) then Set(w, id, HeartbeatDoc(w.runs[id], token, now, leaseMs)) else w
    case DoRelease(id, token, intent, now) =>
      if w.Holds(id, token) then
        var w' := Set(w, id, ReleaseDoc(w.runs[id], token, intent, now));
        if id in w.tally then w'.(tally := w.tally[id := w.tally[id].(released := w.tally[id].released + 1)]) else w'
      else w
    case SweepRead(s, now, found) =>
      w.(sweeps := w.sweeps[s := OpenSweep(now, map id | id in found && id in w.runs :: w.runs[id])])
    case SweepWrite(s, id, roll) =>
      var open := w.sweeps[s];
      var tried := w.(sweeps := w.sweeps[s := open.(read := open.read - {id})]);
      if id in w.runs && w.runs[id].Stalled(open.now) then
        var after := Set(tried, id, ReclaimDoc(w.runs[id], open.now, open.read[id].attempts, w.maxAttempts, roll));
        if id !in w.tally then after
        else if Exhausted(open.read[id].attempts, w.maxAttempts) then
          after.(tally := w.tally[id := w.tally[id].(givenUp := w.tally[id].givenUp + 1)])
        else
          after.(tally := w.tally[id := w.tally[id].(requeued := w.tally[id].requeued + 1)])
      else tried
  }

  predicate Initial(w: World) {
    w.runs == map[] && w.issued == {} && w.sweeps == map[] && w.tally == map[]
  }

  /** A run of the protocol: worlds joined by enabled actions. */
  ghost predicate IsRun(ws: seq<World>, actions: seq<Action>) {
    && |ws| == |actions| + 1
    && forall i :: 0 <= i < |actions| ==> Enabled(ws[i], actions[i]) && ws[i + 1] == Apply(ws[i], actions[i])
  }

  // ---- Leases ----

  /** A run has a lease exactly while it is running; live tokens were issued and belong to one run. */
  ghost predicate LeaseInv(w: World) {
    && (forall id :: id in w.runs ==> (w.runs[id].status.Running? <==> w.runs[id].lease.Some?))
    && (forall id :: id in w.runs && w.runs[id].lease.Some? ==> w.runs[id].lease.value.token in w.issued)
    && (forall id, id' :: id in w.runs && id' in w.runs && id != id' && w.runs[id].lease.Some? ==> !w.runs[id'].HeldBy(w.runs[id].lease.value.token))
  }

  /** Every claim is accounted for: it was released, reclaimed, given up on, or is still running. */
  ghost predicate AttemptsInv(w: World) {
    && w.tally.Keys == w.runs.Keys
    && forall id :: id in w.runs ==> AttemptsAddUp(w.runs[id], w.tally[id])
  }

  predicate AttemptsAddUp(d: RunDoc, t: Tally) {
    d.attempts == t.released + t.requeued + t.givenUp + (if d.status.Running? then 1 else 0)
  }

  /** Writing one document keeps the lease invariant if its token is its own or fresh. */
  lemma WriteKeepsLeases(w: World, id: RunId, d: RunDoc, issued: set<Token>, w': World)
    requires LeaseInv(w) && w'.runs == w.runs[id := d] && w'.issued == issued && w.issued <= issued
    requires d.status.Running? <==> d.lease.Some?
    requires d.lease.Some? ==> d.lease.value.token in issued
    requires d.lease.Some? ==> w.Holds(id, d.lease.value.token) || d.lease.value.token !in w.issued
    ensures LeaseInv(w')
  {
    forall x, y | x in w'.runs && y in w'.runs && x != y && w'.runs[x].lease.Some?
      ensures !w'.runs[y].HeldBy(w'.runs[x].lease.value.token)
    {
      if x != id && y != id {
        assert !w.runs[y].HeldBy(w.runs[x].lease.value.token);
      }
    }
  }

  /** What an action writes: at most one document, and no token is taken back. */
  lemma StepWritesOne(w: World, a: Action)
    requires Enabled(w, a)
    ensures w.issued <= Apply(w, a).issued
    ensures Apply(w, a).runs == w.runs || (!a.Tick? && !a.SweepRead? && a.id in Apply(w, a).runs && Apply(w, a).runs == w.runs[a.id := Apply(w, a).runs[a.id]])
  {
  }

  lemma StepKeepsLeases(w: World, a: Action)
    requires LeaseInv(w) && Enabled(w, a)
    ensures LeaseInv(Apply(w, a))
  {
    var w' := Apply(w, a);
    StepWritesOne(w, a);
    if w'.runs != w.runs {
      WriteKeepsLeases(w, a.id, w'.runs[a.id], w'.issued, w');
    }
  }

  lemma StepKeepsAttempts(w: World, a: Action)
    requires LeaseInv(w) && AttemptsInv(w) && Enabled(w, a)
    ensures AttemptsInv(Apply(w, a))
  {
    match a
    case DoRelease(id, token, intent, now) => ReleaseKeepsAttempts(w, id, token, intent, now);
    case SweepWrite(s, id, roll) => SweepWriteKeepsAttempts(w, s, id, roll);
    case _ =>
  }

  lemma ReleaseKeepsAttempts(w: World, id: RunId, token: Token, intent: ReleaseIntent, now: Millis)
    requires LeaseInv(w) && AttemptsInv(w) && Enabled(w, DoRelease(id, token, intent, now))
    ensures AttemptsInv(Apply(w, DoRelease(id, token, intent, now)))
  {
  }

  lemma SweepWriteKeepsAttempts(w: World, s: SweeperId, id: RunId, roll: nat)
    requires LeaseInv(w) && AttemptsInv(w) && Enabled(w, SweepWrite(s, id, roll))
    ensures AttemptsInv(Apply(w, SweepWrite(s, id, roll)))
  {
  }

  /** In every interleaving both hold at every point. */
  lemma {:induction false} ReachableInvariants(ws: seq<World>, actions: seq<Action>, n: nat)
    requires IsRun(ws, actions) && Initial(ws[0]) && n < |ws|
    ensures LeaseInv(ws[n]) && AttemptsInv(ws[n])
    decreases n
  {
    if n > 0 {
      ReachableInvariants(ws, actions, n - 1);
      StepKeepsLeases(ws[n - 1], actions[n - 1]);
      StepKeepsAttempts(ws[n - 1], actions[n - 1]);
    }
  }

  /** Issued and held by no run: the lease is over. */
  ghost predicate Displaced(w: World, token: Token) {
    token in w.issued && forall id :: id in w.runs ==> !w.runs[id].HeldBy(token)
  }

  lemma DisplacedStep(w: World, a: Action, token: Token)
    requires Enabled(w, a) && Displaced(w, token)
    ensures Displaced(Apply(w, a), token)
  {
  }

  lemma {:induction false} DisplacedForever(ws: seq<World>, actions: seq<Action>, token: Token, first: nat, last: nat)
    requires IsRun(ws, actions) && first <= last < |ws| && Displaced(ws[first], token)
    ensures Displaced(ws[last], token)
    decreases last
  {
    if first < last {
      DisplacedForever(ws, actions, token, first, last - 1);
      assert ws[last - 1 + 1] == Apply(ws[last - 1], actions[last - 1]);
      DisplacedStep(ws[last - 1], actions[last - 1], token);
    }
  }

  /** A write under a displaced token is a no-op on everything. */
  lemma StaleWritesChangeNothing(w: World, a: Action)
    requires Enabled(w, a) && (a.DoHeartbeat? || a.DoRelease?) && Displaced(w, a.token)
    ensures Apply(w, a) == w
  {
  }

  /**
   The writes a token lets through form one unbroken stretch: if it is held at two points it is held,
   by the same run, at every point between, and before its claim it was held nowhere.
   */
  lemma OneStretchPerToken(ws: seq<World>, actions: seq<Action>, token: Token, id: RunId, id': RunId, i: nat, k: nat, j: nat)
    requires IsRun(ws, actions) && Initial(ws[0]) && i <= k <= j < |ws|
    requires ws[i].Holds(id, token) && ws[j].Holds(id', token)
    ensures id == id' && ws[k].Holds(id, token)
  {
    StretchUpTo(ws, actions, token, id, i, j, id');
    StretchUpTo(ws, actions, token, id, i, k, id);
    if !ws[k].Holds(id, token) {
      ReachableInvariants(ws, actions, i);
      DisplacedForever(ws, actions, token, k, j);
      assert false;
    }
  }

  /** From a point where `id` holds a token, it is later held by `id` or displaced. */
  lemma {:induction false} StretchUpTo(ws: seq<World>, actions: seq<Action>, token: Token, id: RunId, i: nat, k: nat, id': RunId)
    requires IsRun(ws, actions) && Initial(ws[0]) && i <= k < |ws| && ws[i].Holds(id, token)
    ensures Displaced(ws[k], token) || ws[k].Holds(id, token)
    ensures ws[k].Holds(id', token) ==> id' == id
    decreases k
  {
    ReachableInvariants(ws, actions, k);
    if i < k {
      StretchUpTo(ws, actions, token, id, i, k - 1, id);
      ReachableInvariants(ws, actions, k - 1);
      var w, a := ws[k - 1], actions[k - 1];
      if Displaced(w, token) {
        DisplacedForever(ws, actions, token, k - 1, k);
      } else {
        HeldOrDisplaced(w, a, id, token);
      }
    }
  }

  lemma HeldOrDisplaced(w: World, a: Action, id: RunId, token: Token)
    requires LeaseInv(w) && Enabled(w, a) && w.Holds(id, token)
    ensures Displaced(Apply(w, a), token) || Apply(w, a).Holds(id, token)
  {
    StepKeepsLeases(w, a);
    var w' := Apply(w, a);
    assert token in w'.issued;
    if !w'.Holds(id, token) {
      forall other | other in w'.runs
        ensures !w'.runs[other].HeldBy(token)
      {
        if other != id && other in w.runs {
          assert !w.runs[other].HeldBy(token);
        }
      }
    }
  }

  lemma TerminalStep(w: World, a: Action, id: RunId)
    requires LeaseInv(w) && Enabled(w, a) && id in w.runs && w.runs[id].status.Terminal()
    ensures id in Apply(w, a).runs && Apply(w, a).runs[id] == w.runs[id]
  {
  }

  /** A finished run is frozen: no later action changes any field of its document. */
  lemma {:induction false} TerminalIsFinal(ws: seq<World>, actions: seq<Action>, id: RunId, first: nat, last: nat)
    requires IsRun(ws, actions) && Initial(ws[0]) && first <= last < |ws|
    requires id in ws[first].runs && ws[first].runs[id].status.Terminal()
    ensures id in ws[last].runs && ws[last].runs[id] == ws[first].runs[id]
    decreases last
  {
    if first < last {
      TerminalIsFinal(ws, actions, id, first, last - 1);
      ReachableInvariants(ws, actions, last - 1);
      TerminalStep(ws[last - 1], actions[last - 1], id);
    }
  }

  // ---- The sweeper's re-check ----

  /**
   Whenever an open sweep's update could match, the document is still, field for field, the one its
   find read.
   */
  ghost predicate RecheckInv(w: World) {
    forall s :: s in w.sweeps ==> SweepAgrees(w, w.sweeps[s])
  }

  ghost predicate SweepAgrees(w: World, open: OpenSweep) {
    && open.now <= w.clock
    && forall id :: id in open.read && id in w.runs && w.runs[id].Stalled(open.now) ==> w.runs[id] == open.read[id]
  }

  /**
   The condition the re-check rests on: a claim or a heartbeat on a run does not write a lease that is
   already over for a sweep holding that run.
   */
  ghost predicate Timely(w: World, a: Action) {
    (a.DoClaim? || (a.DoHeartbeat? && w.Holds(a.id, a.token))) ==>
      forall s :: s in w.sweeps && a.id in w.sweeps[s].read ==> w.sweeps[s].now <= a.now + a.leaseMs
  }

  /** A write that lands before the lease it writes is over is timely; with no delay that is `leaseMs >= 0`. */
  lemma PromptIsTimely(w: World, a: Action)
    requires RecheckInv(w) && Enabled(w, a)
    requires a.DoClaim? || a.DoHeartbeat? ==> w.clock <= a.now + a.leaseMs
    ensures Timely(w, a)
  {
    if a.DoClaim? || a.DoHeartbeat? {
      forall s | s in w.sweeps && a.id in w.sweeps[s].read
        ensures w.sweeps[s].now <= a.now + a.leaseMs
      {
        assert SweepAgrees(w, w.sweeps[s]);
      }
    }
  }

  lemma TimelyKeepsSweep(w: World, a: Action, open: OpenSweep)
    requires LeaseInv(w) && Enabled(w, a) && SweepAgrees(w, open)
    requires (a.DoClaim? || (a.DoHeartbeat? && w.Holds(a.id, a.token))) && a.id in open.read ==> open.now <= a.now + a.leaseMs
    requires a.Create? ==> a.id !in open.read
    ensures SweepAgrees(Apply(w, a), open)
  {
    var w' := Apply(w, a);
    forall id | id in open.read && id in w'.runs && w'.runs[id].Stalled(open.now)
      ensures w'.runs[id] == open.read[id]
    {
      StalledIsUntouched(w, a, open, id);
    }
  }

  /** A document that is stalled for a sweep after a timely step was already as it is before it. */
  lemma StalledIsUntouched(w: World, a: Action, open: OpenSweep, id: RunId)
    requires LeaseInv(w) && Enabled(w, a) && SweepAgrees(w, open) && id in open.read
    requires (a.DoClaim? || (a.DoHeartbeat? && w.Holds(a.id, a.token))) && a.id == id ==> open.now <= a.now + a.leaseMs
    requires a.Create? ==> a.id != id
    requires id in Apply(w, a).runs && Apply(w, a).runs[id].Stalled(open.now)
    ensures Apply(w, a).runs[id] == open.read[id]
  {
  }

  /** A document a sweep has read was stalled then, and its run only gained attempts since. */
  ghost predicate ReadInv(w: World) {
    forall s, id :: s in w.sweeps && id in w.sweeps[s].read ==>
      id in w.runs && w.sweeps[s].read[id].Stalled(w.sweeps[s].now) && w.sweeps[s].read[id].attempts <= w.runs[id].attempts
  }

  /** What a sweep holds after a step: what it held before, or what this very step read. */
  lemma StepKeepsReads(w: World, a: Action, s: SweeperId, id: RunId)
    requires Enabled(w, a) && s in Apply(w, a).sweeps && id in Apply(w, a).sweeps[s].read && !(a.SweepRead? && a.s == s)
    ensures s in w.sweeps && id in w.sweeps[s].read
    ensures Apply(w, a).sweeps[s].read[id] == w.sweeps[s].read[id] && Apply(w, a).sweeps[s].now == w.sweeps[s].now
  {
  }

  /** A run stays, and its attempts never go down. */
  lemma AttemptsOnlyGrow(w: World, a: Action, id: RunId)
    requires Enabled(w, a) && id in w.runs
    ensures id in Apply(w, a).runs && w.runs[id].attempts <= Apply(w, a).runs[id].attempts
  {
  }

  lemma StepKeepsRead(w: World, a: Action)
    requires ReadInv(w) && Enabled(w, a)
    ensures ReadInv(Apply(w, a))
  {
    var w' := Apply(w, a);
    forall s, id | s in w'.sweeps && id in w'.sweeps[s].read
      ensures id in w'.runs && w'.sweeps[s].read[id].Stalled(w'.sweeps[s].now) && w'.sweeps[s].read[id].attempts <= w'.runs[id].attempts
    {
      if !(a.SweepRead? && a.s == s) {
        StepKeepsReads(w, a, s, id);
        AttemptsOnlyGrow(w, a, id);
      }
    }
  }

  /** A sweep that has just read agrees with what it read; one that has just written holds one run less. */
  lemma SweeperStepAgrees(w: World, a: Action)
    requires Enabled(w, a) && (a.SweepRead? || a.SweepWrite?)
    requires a.SweepWrite? ==> SweepAgrees(Apply(w, a), w.sweeps[a.s])
    ensures SweepAgrees(Apply(w, a), Apply(w, a).sweeps[a.s])
  {
  }

  lemma OtherSweepsStay(w: World, a: Action, s: SweeperId)
    requires Enabled(w, a) && s in Apply(w, a).sweeps && !((a.SweepRead? || a.SweepWrite?) && a.s == s)
    ensures s in w.sweeps && Apply(w, a).sweeps[s] == w.sweeps[s]
  {
  }

  lemma TimelyStepKeepsRecheck(w: World, a: Action)
    requires LeaseInv(w) && ReadInv(w) && RecheckInv(w) && Enabled(w, a) && Timely(w, a)
    ensures RecheckInv(Apply(w, a))
  {
    forall s | s in Apply(w, a).sweeps
      ensures SweepAgrees(Apply(w, a), Apply(w, a).sweeps[s])
    {
      if s in w.sweeps {
        TimelyKeepsSweep(w, a, w.sweeps[s]);
      }
      if (a.SweepRead? || a.SweepWrite?) && a.s == s {
        SweeperStepAgrees(w, a);
      } else {
        OtherSweepsStay(w, a, s);
      }
    }
  }

  /** Every open sweep for which the lease that a heartbeat writes is already over read the very document it writes. */
  ghost predicate AgreesWithOverdue(w: World, a: Action)
    requires a.DoHeartbeat? && w.Holds(a.id, a.token)
  {
    forall s :: s in w.sweeps && a.id in w.sweeps[s].read && w.sweeps[s].now > a.now + a.leaseMs ==>
      w.sweeps[s].read[a.id] == HeartbeatDoc(w.runs[a.id], a.token, a.now, a.leaseMs)
  }

  lemma HeartbeatKeepsRecheck(w: World, a: Action)
    requires LeaseInv(w) && RecheckInv(w) && Enabled(w, a) && a.DoHeartbeat? && w.Holds(a.id, a.token)
    ensures RecheckInv(Apply(w, a)) <==> AgreesWithOverdue(w, a)
  {
    var w' := Apply(w, a);
    var d := HeartbeatDoc(w.runs[a.id], a.token, a.now, a.leaseMs);
    assert w'.sweeps == w.sweeps && w'.runs == w.runs[a.id := d];
    if RecheckInv(w') {
      forall s | s in w.sweeps && a.id in w.sweeps[s].read && w.sweeps[s].now > a.now + a.leaseMs
        ensures w.sweeps[s].read[a.id] == d
      {
        assert SweepAgrees(w', w'.sweeps[s]);
      }
    }
    if AgreesWithOverdue(w, a) {
      forall s | s in w'.sweeps
        ensures SweepAgrees(w', w'.sweeps[s])
      {
        assert SweepAgrees(w, w.sweeps[s]);
      }
    }
  }

  /**
   A claim keeps the agreement exactly when it is timely; a heartbeat that is accepted, exactly when the sweeps its
   new lease is too late for read what it writes; every other call keeps it.
   */
  lemma RecheckKeptIffTimely(w: World, a: Action)
    requires LeaseInv(w) && ReadInv(w) && RecheckInv(w) && Enabled(w, a)
    ensures a.DoClaim? ==> (RecheckInv(Apply(w, a)) <==> Timely(w, a))
    ensures a.DoHeartbeat? && w.Holds(a.id, a.token) ==> (RecheckInv(Apply(w, a)) <==> AgreesWithOverdue(w, a))
    ensures !a.DoClaim? && !(a.DoHeartbeat? && w.Holds(a.id, a.token)) ==> RecheckInv(Apply(w, a))
  {
    if a.DoHeartbeat? && w.Holds(a.id, a.token) {
      HeartbeatKeepsRecheck(w, a);
    } else if Timely(w, a) {
      TimelyStepKeepsRecheck(w, a);
    } else if a.DoClaim? {
      var s :| s in w.sweeps && a.id in w.sweeps[s].read && w.sweeps[s].now > a.now + a.leaseMs;
      var w' := Apply(w, a);
      assert w'.sweeps[s] == w.sweeps[s];
      assert w'.runs[a.id].Stalled(w.sweeps[s].now) && w'.runs[a.id].attempts > w.sweeps[s].read[a.id].attempts;
      assert !SweepAgrees(w', w'.sweeps[s]);
    }
  }

  /** The sweeper hands one run back at most this often. */
  function RequeueBound(maxAttempts: int): nat {
    if maxAttempts >= 1 then maxAttempts - 1 else 0
  }

  ghost predicate SweepLifeInv(w: World) {
    forall id :: id in w.tally ==> w.tally[id].requeued <= RequeueBound(w.maxAttempts)
  }

  /** A run the sweeper gave up on is failed, so it is given up on once. */
  ghost predicate GivenUpInv(w: World) {
    forall id :: id in w.tally && id in w.runs && w.tally[id].givenUp > 0 ==> w.tally[id].givenUp == 1 && w.runs[id].status.Failed?
  }

  lemma StepKeepsGivenUp(w: World, a: Action)
    requires LeaseInv(w) && AttemptsInv(w) && GivenUpInv(w) && Enabled(w, a)
    ensures GivenUpInv(Apply(w, a))
  {
    var w' := Apply(w, a);
    forall id | id in w'.tally && id in w'.runs && w'.tally[id].givenUp > 0
      ensures w'.tally[id].givenUp == 1 && w'.runs[id].status.Failed?
    {
      if id in w.runs && w.tally[id].givenUp > 0 {
        TerminalStep(w, a, id);
      }
    }
  }

  lemma StepKeepsSweepLife(w: World, a: Action)
    requires LeaseInv(w) && AttemptsInv(w) && RecheckInv(w) && SweepLifeInv(w) && Enabled(w, a)
    ensures SweepLifeInv(Apply(w, a))
  {
    if a.SweepWrite? && a.id in w.runs && w.runs[a.id].Stalled(w.sweeps[a.s].now) {
      assert SweepAgrees(w, w.sweeps[a.s]);
      assert AttemptsAddUp(w.runs[a.id], w.tally[a.id]);
    }
  }

  ghost predicate AllTimely(ws: seq<World>, actions: seq<Action>)
    requires |ws| == |actions| + 1
  {
    forall i :: 0 <= i < |actions| ==> Timely(ws[i], actions[i])
  }

  /**
   In every timely interleaving, whatever other sweepers and executors did in between, an update of a
   sweep that matches acts on the very document its find read; so in its whole life a run is handed back
   by sweepers at most `maxAttempts - 1` times and given up on at most once.
   */
  lemma {:induction false} SweepersAreBounded(ws: seq<World>, actions: seq<Action>, n: nat)
    requires IsRun(ws, actions) && Initial(ws[0]) && AllTimely(ws, actions) && n < |ws|
    ensures ReadInv(ws[n]) && RecheckInv(ws[n]) && SweepLifeInv(ws[n]) && GivenUpInv(ws[n])
    decreases n
  {
    if n > 0 {
      SweepersAreBounded(ws, actions, n - 1);
      ReachableInvariants(ws, actions, n - 1);
      var w, a := ws[n - 1], actions[n - 1];
      StepKeepsRead(w, a);
      TimelyStepKeepsRecheck(w, a);
      StepKeepsSweepLife(w, a);
      StepKeepsGivenUp(w, a);
    }
  }

  lemma RunGrows(ws: seq<World>, actions: seq<Action>, a: Action)
    requires IsRun(ws, actions) && Enabled(ws[|actions|], a)
    ensures IsRun(ws + [Apply(ws[|actions|], a)], actions + [a])
  {
  }

  /** One run, claimed at 0 for 3, which sweeper 2 read at 5 and sweeper 1 at 10. */
  ghost predicate BothRead(w: World) {
    var d := ClaimDoc(NewRun("ws", 0, 0), "x", 0, 3, "t1");
    && w.clock == 10 && w.maxAttempts == 2 && w.issued == {"t1"}
    && "r" in w.runs && w.runs["r"] == d && "r" in w.tally && w.tally["r"] == Tally(0, 0, 0)
    && 1 in w.sweeps && w.sweeps[1] == OpenSweep(10, map["r" := d]) && 2 in w.sweeps && w.sweeps[2] == OpenSweep(5, map["r" := d])
  }

  lemma ReadsOne(w: World, s: SweeperId, now: Millis)
    requires "r" in w.runs && w.runs["r"].Stalled(now) && now <= w.clock
    ensures Enabled(w, SweepRead(s, now, {"r"}))
    ensures Apply(w, SweepRead(s, now, {"r"})) == w.(sweeps := w.sweeps[s := OpenSweep(now, map["r" := w.runs["r"]])])
  {
    var w' := Apply(w, SweepRead(s, now, {"r"}));
    assert w'.sweeps[s].read == map["r" := w.runs["r"]];
    assert w'.sweeps == w.sweeps[s := OpenSweep(now, map["r" := w.runs["r"]])];
  }

  lemma ClaimOnce() returns (ws: seq<World>, actions: seq<Action>)
    ensures IsRun(ws, actions) && Initial(ws[0]) && ws[0].maxAttempts == 2
    ensures ws[|actions|] == World(5, map["r" := ClaimDoc(NewRun("ws", 0, 0), "x", 0, 3, "t1")], {"t1"}, map[], map["r" := Tally(0, 0, 0)], 2)
  {
    var w0 := World(0, map[], {}, map[], map[], 2);
    var a0, a1, a2 := Create("r", "ws", 0, 0), DoClaim("r", "x", 0, 3, "t1"), Tick(5);
    var w1 := Apply(w0, a0);
    var w2 := Apply(w1, a1);
    ws, actions := [w0, w1, w2, Apply(w2, a2)], [a0, a1, a2];
  }

  /** Two sweepers read the same lapsed lease, the second of them later. */
  lemma TwoSweepsRead() returns (ws: seq<World>, actions: seq<Action>)
    ensures IsRun(ws, actions) && Initial(ws[0]) && ws[0].maxAttempts == 2 && BothRead(ws[|actions|])
  {
    ws, actions := ClaimOnce();
    var a0, a1, a2 := SweepRead(2, 5, {"r"}), Tick(10), SweepRead(1, 10, {"r"});
    ReadsOne(ws[|actions|], 2, 5);
    RunGrows(ws, actions, a0);
    ws, actions := ws + [Apply(ws[|actions|], a0)], actions + [a0];
    RunGrows(ws, actions, a1);
    ws, actions := ws + [Apply(ws[|actions|], a1)], actions + [a1];
    ReadsOne(ws[|actions|], 1, 10);
    RunGrows(ws, actions, a2);
    ws, actions := ws + [Apply(ws[|actions|], a2)], actions + [a2];
  }

  /**
   Without timeliness the bound fails: a claim that lands after its own lease is over lets a sweep that
   read the run under the previous lease hand it back once more than `maxAttempts` allows.
   */
  lemma LateClaimDefeatsRecheck() returns (ws: seq<World>, actions: seq<Action>)
    ensures IsRun(ws, actions) && Initial(ws[0]) && ws[0].maxAttempts == 2
    ensures !SweepLifeInv(ws[|actions|])
  {
    ws, actions := TwoSweepsRead();
    var w0 := ws[|actions|];
    var a0, a1, a2 := SweepWrite(2, "r", 0), DoClaim("r", "y", 5, 3, "t2"), SweepWrite(1, "r", 0);
    RunGrows(ws, actions, a0);
    var w1 := Apply(w0, a0);
    ws, actions := ws + [w1], actions + [a0];
    assert w1.runs["r"].status == Queued && w1.runs["r"].scheduledFor == 5 && w1.tally["r"].requeued == 1;
    RunGrows(ws, actions, a1);
    var w2 := Apply(w1, a1);
    ws, actions := ws + [w2], actions + [a1];
    RunGrows(ws, actions, a2);
    var w3 := Apply(w2, a2);
    ws, actions := ws + [w3], actions + [a2];
    assert w3.tally["r"].requeued == 2;
  }
}
