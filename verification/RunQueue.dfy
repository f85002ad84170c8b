/**
 The leased run queue: the `runs` collection is the work queue.

 One run is one document, and every queue call is one atomic update of one document (`sweep` is a
 find followed by re-checked updates). The document-level effect of each call is a function here;
 the class below performs the calls, and `RunQueueProtocol` lets any number of callers interleave.
 */
module RunQueue {
  import opened Options

  type RunId = string
  type Token = string
  type Millis = int

  datatype Status =
    | Queued | Running
    | WaitingApproval | WaitingInput | WaitingTool
    | Succeeded | Failed | Cancelled | Expired
  {
    predicate Terminal() {
      Succeeded? || Failed? || Cancelled? || Expired?
    }

    predicate Waiting() {
      WaitingApproval? || WaitingInput? || WaitingTool?
    }
  }

  datatype Lease = Lease(owner: string, until: Millis, token: Token)

  datatype RunError = RunError(code: string, message: string)

  datatype RunDoc = RunDoc(
    workspaceId: string,
    status: Status,
    priority: int,
    scheduledFor: Millis,
    lease: Option<Lease>,
    attempts: nat,
    startedAt: Option<Millis>,
    heartbeatAt: Option<Millis>,
    finishedAt: Option<Millis>,
    error: Option<RunError>,
    fromStep: Option<nat>)
  {
    predicate HeldBy(token: Token) {
      lease.Some? && lease.value.token == token
    }

    /** The filter of `claim`: queued, due, and not under a live lease. */
    predicate Claimable(now: Millis, workspaceIds: Option<set<string>>) {
      && status.Queued?
      && scheduledFor <= now
      && (lease.None? || lease.value.until < now)
      && (workspaceIds.None? || workspaceId in workspaceIds.value)
    }

    /** The filter `sweep` uses twice: in its find, and again in each update. */
    predicate Stalled(now: Millis) {
      status.Running? && lease.Some? && lease.value.until < now
    }

    /** The filter of `enqueue`. */
    predicate Enqueueable() {
      status.Waiting() || status.Queued?
    }
  }

  datatype SuspendStatus = SuspendApproval | SuspendInput | SuspendTool
  datatype FinishStatus = FinishSucceeded | FinishFailed | FinishCancelled | FinishExpired

  datatype ReleaseIntent =
    | Requeue(scheduledFor: Millis, fromStep: Option<nat>)
    | Suspend(waitFor: SuspendStatus)
    | Finish(ending: FinishStatus, error: Option<RunError>)

  function SuspendedStatus(s: SuspendStatus): Status {
    match s
    case SuspendApproval => WaitingApproval
    case SuspendInput => WaitingInput
    case SuspendTool => WaitingTool
  }

  function FinishedStatus(s: FinishStatus): Status {
    match s
    case FinishSucceeded => Succeeded
    case FinishFailed => Failed
    case FinishCancelled => Cancelled
    case FinishExpired => Expired
  }

  const LEASE_EXHAUSTED := "lease_exhausted"

  // ---- What each call does to the document it matches ----

  function EnqueueDoc(d: RunDoc, scheduledFor: Millis, priority: Option<int>): RunDoc {
    if d.Enqueueable() then
      d.(status := Queued, scheduledFor := scheduledFor, lease := None,
         priority := if priority.Some? then priority.value else d.priority)
    else d
  }

  function ClaimDoc(d: RunDoc, owner: string, now: Millis, leaseMs: int, token: Token): RunDoc {
    d.(status := Running,
       startedAt := if d.startedAt.None? then Some(now) else d.startedAt,
       heartbeatAt := Some(now),
       lease := Some(Lease(owner, now + leaseMs, token)),
       attempts := d.attempts + 1)
  }

  function HeartbeatDoc(d: RunDoc, token: Token, now: Millis, leaseMs: int): RunDoc {
    if d.HeldBy(token) then
      d.(lease := Some(d.lease.value.(until := now + leaseMs)), heartbeatAt := Some(now))
    else d
  }

  function ReleaseDoc(d: RunDoc, token: Token, intent: ReleaseIntent, now: Millis): RunDoc {
    if !d.HeldBy(token) then d
    else match intent
      case Requeue(scheduledFor, fromStep) =>
        d.(status := Queued, scheduledFor := scheduledFor, lease := None,
           fromStep := if fromStep.Some? then fromStep else d.fromStep)
      case Suspend(waitFor) =>
        d.(status := SuspendedStatus(waitFor), lease := None, heartbeatAt := Some(now))
      case Finish(ending, error) =>
        d.(status := FinishedStatus(ending), lease := None, finishedAt := Some(now),
           error := if error.Some? then error else d.error)
  }

  /** `sweep` decides from the `attempts` its find read, not from the document it updates. */
  predicate Exhausted(readAttempts: nat, maxAttempts: int) {
    readAttempts >= maxAttempts
  }

  function Decimal(n: nat): string {
    if n < 10 then [('0' as int + n) as char] else Decimal(n / 10) + [('0' as int + n % 10) as char]
  }

  /** The reason, in short: how often the run was reclaimed. */
  function ExhaustedMessage(attempts: nat): string {
    "reclaimed " + Decimal(attempts)
  }

  function ReclaimDoc(d: RunDoc, now: Millis, readAttempts: nat, maxAttempts: int, roll: nat): RunDoc {
    if !d.Stalled(now) then d
    else if Exhausted(readAttempts, maxAttempts) then
      d.(status := Failed, lease := None, finishedAt := Some(now),
         error := Some(RunError(LEASE_EXHAUSTED, ExhaustedMessage(readAttempts))))
    else
      d.(status := Queued, lease := None, scheduledFor := now + BackoffMs(readAttempts, roll))
  }

  function Pow2(n: nat): (r: nat)
    ensures r >= 1
  {
    if n == 0 then 1 else 2 * Pow2(n - 1)
  }

  /** The exclusive upper end of the jittered backoff: doubling from one second, capped at a minute. */
  function BackoffCeiling(attempts: nat): (ceiling: nat)
    ensures 1_000 <= ceiling <= 60_000
  {
    var doubled := 1_000 * Pow2(if attempts == 0 then 0 else attempts - 1);
    if doubled < 60_000 then doubled else 60_000
  }

  /** One second for the first attempt, twice as much for each further one, and never more than a minute. */
  lemma BackoffDoubles(attempts: nat)
    ensures BackoffCeiling(0) == BackoffCeiling(1) == 1_000
    ensures attempts >= 1 ==> BackoffCeiling(attempts + 1) == if 2 * BackoffCeiling(attempts) < 60_000 then 2 * BackoffCeiling(attempts) else 60_000
  {
  }

  /** Full jitter: `roll` is the random draw, scaled below the ceiling. */
  function BackoffMs(attempts: nat, roll: nat): (delay: nat)
    ensures delay < BackoffCeiling(attempts)
  {
    roll % BackoffCeiling(attempts)
  }

  /** The ceiling never shrinks as attempts grow. */
  lemma {:induction false} BackoffGrows(a: nat, b: nat)
    requires a <= b
    ensures BackoffCeiling(a) <= BackoffCeiling(b)
    decreases b
  {
    if a < b {
      BackoffGrows(a, b - 1);
    }
  }

  // ---- The queue object ----

  /** `sort: { priority: -1, scheduledFor: 1 }`: a strictly precedes b. */
  predicate Precedes(a: RunDoc, b: RunDoc) {
    a.priority > b.priority || (a.priority == b.priority && a.scheduledFor < b.scheduledFor)
  }

  predicate UntilPrecedes(a: RunDoc, b: RunDoc)
    requires a.lease.Some? && b.lease.Some?
  {
    a.lease.value.until < b.lease.value.until
  }

  datatype Claimed = Claimed(id: RunId, run: RunDoc, token: Token, leaseUntil: Millis)
  datatype LeaseLost = LeaseLost(id: RunId)

  function StalledIds(runs: map<RunId, RunDoc>, now: Millis): set<RunId> {
    set id | id in runs && runs[id].Stalled(now)
  }

  /** How many of a query's results a limit lets through; the server reads 0 as no limit. */
  function Limited(results: nat, limit: nat): nat {
    if limit == 0 || results <= limit then results else limit
  }

  /** A query result in `sort: { 'lease.until': 1 }` order, cut at `limit`, that leaves out nothing earlier. */
  ghost predicate IsStalledPage(runs: map<RunId, RunDoc>, now: Millis, limit: nat, page: seq<RunId>) {
    && (forall i :: 0 <= i < |page| ==> page[i] in StalledIds(runs, now))
    && (forall i, j :: 0 <= i < j < |page| ==> page[i] != page[j])
    && (forall i, j :: 0 <= i < j < |page| ==> !UntilPrecedes(runs[page[j]], runs[page[i]]))
    && |page| == Limited(|StalledIds(runs, now)|, limit)
    && (forall id, i :: id in StalledIds(runs, now) && id !in page && 0 <= i < |page| ==>
          !UntilPrecedes(runs[id], runs[page[i]]))
  }

  /** What one sweep makes of the documents in `done` (in that order) when nobody else writes meanwhile. */
  ghost predicate SweptFrom(before: map<RunId, RunDoc>, after: map<RunId, RunDoc>, done: seq<RunId>, rolls: seq<nat>, now: Millis, maxAttempts: int)
    requires |rolls| >= |done|
  {
    && after.Keys == before.Keys
    && (forall id :: id in before && id !in done ==> after[id] == before[id])
    && (forall i :: 0 <= i < |done| ==> done[i] in before)
    && (forall i :: 0 <= i < |done| ==>
          after[done[i]] == ReclaimDoc(before[done[i]], now, before[done[i]].attempts, maxAttempts, rolls[i]))
  }

  lemma SweptFromNext(before: map<RunId, RunDoc>, after: map<RunId, RunDoc>, done: seq<RunId>, id: RunId, rolls: seq<nat>, now: Millis, maxAttempts: int)
    requires |rolls| > |done| && SweptFrom(before, after, done, rolls, now, maxAttempts)
    requires id in before && id !in done
    ensures SweptFrom(before, after[id := ReclaimDoc(before[id], now, before[id].attempts, maxAttempts, rolls[|done|])], done + [id], rolls, now, maxAttempts)
  {
    var doc := ReclaimDoc(before[id], now, before[id].attempts, maxAttempts, rolls[|done|]);
    var after' := after[id := doc];
    var done' := done + [id];
    forall i | 0 <= i < |done'|
      ensures done'[i] in before && after'[done'[i]] == ReclaimDoc(before[done'[i]], now, before[done'[i]].attempts, maxAttempts, rolls[i])
    {
      if i < |done| {
        assert done'[i] == done[i] && done[i] != id;
      }
    }
  }

  /** The runs among `done` that a sweep gives up on. */
  ghost function GivenUp(before: map<RunId, RunDoc>, done: seq<RunId>, maxAttempts: int): set<RunId> {
    set id | id in done && id in before && Exhausted(before[id].attempts, maxAttempts)
  }

  lemma GivenUpNext(before: map<RunId, RunDoc>, done: seq<RunId>, id: RunId, maxAttempts: int)
    requires id in before && id !in done
    ensures |GivenUp(before, done + [id], maxAttempts)| ==
      |GivenUp(before, done, maxAttempts)| + if Exhausted(before[id].attempts, maxAttempts) then 1 else 0
  {
    assert GivenUp(before, done + [id], maxAttempts) ==
      GivenUp(before, done, maxAttempts) + if Exhausted(before[id].attempts, maxAttempts) then {id} else {};
  }

  /** The next entry of a page is as the find read it, and reclaiming it takes the sweep one entry further. */
  lemma PageNext(before: map<RunId, RunDoc>, after: map<RunId, RunDoc>, page: seq<RunId>, i: nat, rolls: seq<nat>, now: Millis, maxAttempts: int)
    requires i < |page| <= |rolls| && SweptFrom(before, after, page[..i], rolls, now, maxAttempts)
    requires page[i] in before && forall j :: 0 <= j < i ==> page[j] != page[i]
    ensures page[i] in after && after[page[i]] == before[page[i]]
    ensures SweptFrom(before, after[page[i] := ReclaimDoc(before[page[i]], now, before[page[i]].attempts, maxAttempts, rolls[i])], page[..i + 1], rolls, now, maxAttempts)
    ensures |GivenUp(before, page[..i + 1], maxAttempts)| ==
      |GivenUp(before, page[..i], maxAttempts)| + if Exhausted(before[page[i]].attempts, maxAttempts) then 1 else 0
  {
    assert page[i] !in page[..i];
    assert page[..i + 1] == page[..i] + [page[i]];
    SweptFromNext(before, after, page[..i], page[i], rolls, now, maxAttempts);
    GivenUpNext(before, page[..i], page[i], maxAttempts);
  }

  // ---- The same, field by field ----

  ghost predicate Enqueued(d: RunDoc, e: RunDoc, at: Millis, priority: Option<int>) {
    && e.workspaceId == d.workspaceId && e.attempts == d.attempts && e.startedAt == d.startedAt && e.heartbeatAt == d.heartbeatAt
    && e.finishedAt == d.finishedAt && e.error == d.error && e.fromStep == d.fromStep
    && e.status == Queued && e.scheduledFor == at && e.lease == None
    && (priority.Some? ==> e.priority == priority.value) && (priority.None? ==> e.priority == d.priority)
  }

  /** Queued, its time come, under no live lease, and in the workspaces asked for. */
  ghost predicate IsDue(d: RunDoc, now: Millis, workspaceIds: Option<set<string>>) {
    && d.status == Queued && d.scheduledFor <= now
    && (d.lease.Some? ==> d.lease.value.until < now) && (workspaceIds.Some? ==> d.workspaceId in workspaceIds.value)
  }

  /** Higher priority first, then the earlier schedule. */
  ghost predicate ComesFirst(d: RunDoc, e: RunDoc) {
    d.priority > e.priority || (d.priority == e.priority && d.scheduledFor <= e.scheduledFor)
  }

  ghost predicate HasLapsed(d: RunDoc, now: Millis) {
    d.status == Running && d.lease.Some? && d.lease.value.until < now
  }

  /** Runs whose lease has lapsed, those that lapsed first before the others, none left out but for the limit. */
  ghost predicate LapsedFirst(runs: map<RunId, RunDoc>, now: Millis, limit: nat, page: seq<RunId>) {
    && (forall i :: 0 <= i < |page| ==> page[i] in runs && HasLapsed(runs[page[i]], now))
    && (forall i, j :: 0 <= i < j < |page| ==> runs[page[i]].lease.value.until <= runs[page[j]].lease.value.until)
    && (limit > 0 ==> |page| <= limit)
    && (forall id :: id in runs && HasLapsed(runs[id], now) && id !in page ==>
      |page| == limit && forall i :: 0 <= i < |page| ==> runs[page[i]].lease.value.until <= runs[id].lease.value.until)
  }

  lemma StalledPageIsLapsedFirst(runs: map<RunId, RunDoc>, now: Millis, limit: nat, page: seq<RunId>)
    requires IsStalledPage(runs, now, limit, page)
    ensures LapsedFirst(runs, now, limit, page)
  {
    forall id | id in runs && HasLapsed(runs[id], now) && id !in page
      ensures |page| == limit
    {
      var all, listed := StalledIds(runs, now), set x | x in page;
      assert id in all && listed <= all - {id};
      SetOfPage(page);
      FewerThan(listed, all - {id});
    }
  }

  lemma FewerThan(a: set<RunId>, b: set<RunId>)
    requires a <= b
    ensures |a| <= |b|
  {
    assert |b| == |a| + |b - a| by {
      assert b == a + (b - a);
    }
  }

  lemma {:induction false} SetOfPage(page: seq<RunId>)
    requires forall i, j :: 0 <= i < j < |page| ==> page[i] != page[j]
    ensures |set x | x in page| == |page|
  {
    if page != [] {
      var n := |page| - 1;
      SetOfPage(page[..n]);
      assert (set x | x in page) == (set x | x in page[..n]) + {page[n]};
    }
  }

  /** The first start is kept, so wall-clock accounting stays honest across slices. */
  ghost predicate ClaimedBy(d: RunDoc, e: RunDoc, owner: string, now: Millis, leaseMs: int, token: Token) {
    && e.workspaceId == d.workspaceId && e.priority == d.priority && e.scheduledFor == d.scheduledFor
    && e.finishedAt == d.finishedAt && e.error == d.error && e.fromStep == d.fromStep
    && e.status == Running && e.attempts == d.attempts + 1 && e.heartbeatAt == Some(now)
    && e.lease == Some(Lease(owner, now + leaseMs, token))
    && (d.startedAt.Some? ==> e.startedAt == d.startedAt) && (d.startedAt.None? ==> e.startedAt == Some(now))
  }

  ghost predicate BeatenBy(d: RunDoc, e: RunDoc, token: Token, now: Millis, leaseMs: int) {
    && e.workspaceId == d.workspaceId && e.status == d.status && e.priority == d.priority && e.scheduledFor == d.scheduledFor
    && e.attempts == d.attempts && e.startedAt == d.startedAt && e.finishedAt == d.finishedAt && e.error == d.error && e.fromStep == d.fromStep
    && e.heartbeatAt == Some(now) && d.lease.Some? && e.lease == Some(Lease(d.lease.value.owner, now + leaseMs, token))
  }

  ghost predicate ReleasedBy(d: RunDoc, e: RunDoc, intent: ReleaseIntent, now: Millis) {
    && e.workspaceId == d.workspaceId && e.priority == d.priority && e.attempts == d.attempts && e.startedAt == d.startedAt && e.lease == None
    && match intent
      case Requeue(scheduledFor, fromStep) =>
        && e.status == Queued && e.scheduledFor == scheduledFor
        && (fromStep.Some? ==> e.fromStep == fromStep) && (fromStep.None? ==> e.fromStep == d.fromStep)
        && e.heartbeatAt == d.heartbeatAt && e.finishedAt == d.finishedAt && e.error == d.error
      case Suspend(waitFor) =>
        && (waitFor == SuspendApproval ==> e.status == WaitingApproval)
        && (waitFor == SuspendInput ==> e.status == WaitingInput)
        && (waitFor == SuspendTool ==> e.status == WaitingTool)
        && e.heartbeatAt == Some(now)
        && e.scheduledFor == d.scheduledFor && e.fromStep == d.fromStep && e.finishedAt == d.finishedAt && e.error == d.error
      case Finish(ending, error) =>
        && (ending == FinishSucceeded ==> e.status == Succeeded)
        && (ending == FinishFailed ==> e.status == Failed)
        && (ending == FinishCancelled ==> e.status == Cancelled)
        && (ending == FinishExpired ==> e.status == Expired)
        && e.finishedAt == Some(now) && (error.Some? ==> e.error == error) && (error.None? ==> e.error == d.error)
        && e.scheduledFor == d.scheduledFor && e.fromStep == d.fromStep && e.heartbeatAt == d.heartbeatAt
  }

  /** A run out of attempts is failed with its reason; any other waits for its jittered backoff. */
  ghost predicate ReclaimedBy(d: RunDoc, e: RunDoc, now: Millis, readAttempts: nat, maxAttempts: int) {
    && e.workspaceId == d.workspaceId && e.priority == d.priority && e.attempts == d.attempts && e.startedAt == d.startedAt
    && e.heartbeatAt == d.heartbeatAt && e.fromStep == d.fromStep && e.lease == None
    && (readAttempts >= maxAttempts ==>
      && e.status == Failed && e.finishedAt == Some(now) && e.scheduledFor == d.scheduledFor
      && e.error.Some? && e.error.value.code == "lease_exhausted" && e.error.value.message == ExhaustedMessage(readAttempts))
    && (readAttempts < maxAttempts ==>
      && e.status == Queued && e.finishedAt == d.finishedAt && e.error == d.error
      && now <= e.scheduledFor < now + BackoffCeiling(readAttempts))
  }

  class MongoRunQueue {
    var runs: map<RunId, RunDoc>
    const maxAttempts: int

    constructor (maxAttempts: Option<int>)
      ensures runs == map[]
      ensures this.maxAttempts == if maxAttempts.Some? then maxAttempts.value else 5
    {
      runs := map[];
      this.maxAttempts := if maxAttempts.Some? then maxAttempts.value else 5;
    }

    method Enqueue(id: RunId, now: Millis, scheduledFor: Option<Millis>, priority: Option<int>) returns (matched: bool)
      modifies this
      ensures matched == (id in old(runs) && old(runs)[id].Enqueueable())
      ensures matched <==> id in old(runs) && old(runs)[id].status in {Queued, WaitingApproval, WaitingInput, WaitingTool}
      ensures matched ==> id in runs && Enqueued(old(runs)[id], runs[id], if scheduledFor.Some? then scheduledFor.value else now, priority)
      ensures !matched ==> runs == old(runs)
      ensures matched ==> runs == old(runs)[id := EnqueueDoc(old(runs)[id], if scheduledFor.Some? then scheduledFor.value else now, priority)]
    {
      matched := id in runs && runs[id].Enqueueable();
      if matched {
        runs := runs[id := EnqueueDoc(runs[id], if scheduledFor.Some? then scheduledFor.value else now, priority)];
      }
    }

    /** The document the claim's sort puts first: nothing claimable precedes it. */
    method FirstClaimable(now: Millis, workspaceIds: Option<set<string>>) returns (first: Option<RunId>)
      ensures first.None? <==> forall id :: id in runs ==> !runs[id].Claimable(now, workspaceIds)
      ensures first.Some? ==> first.value in runs && runs[first.value].Claimable(now, workspaceIds)
      ensures first.Some? ==> forall id :: id in runs && runs[id].Claimable(now, workspaceIds) ==> !Precedes(runs[id], runs[first.value])
    {
      first := None;
      var rest := runs.Keys;
      while rest != {}
        invariant rest <= runs.Keys
        invariant first.None? <==> forall id :: id in runs && id !in rest ==> !runs[id].Claimable(now, workspaceIds)
        invariant first.Some? ==> first.value in runs && runs[first.value].Claimable(now, workspaceIds)
        invariant first.Some? ==> forall id :: id in runs && id !in rest && runs[id].Claimable(now, workspaceIds) ==> !Precedes(runs[id], runs[first.value])
        decreases |rest|
      {
        var id :| id in rest;
        rest := rest - {id};
        if runs[id].Claimable(now, workspaceIds) && (first.None? || Precedes(runs[id], runs[first.value])) {
          first := Some(id);
        }
      }
    }

    method Claim(owner: string, leaseMs: int, workspaceIds: Option<set<string>>, now: Millis, token: Token) returns (claimed: Option<Claimed>)
      modifies this
      ensures claimed.None? <==> forall id :: id in old(runs) ==> !old(runs)[id].Claimable(now, workspaceIds)
      ensures claimed.None? ==> runs == old(runs)
      ensures claimed.Some? ==>
        var c := claimed.value;
        && c.id in old(runs) && old(runs)[c.id].Claimable(now, workspaceIds)
        && (forall id :: id in old(runs) && old(runs)[id].Claimable(now, workspaceIds) ==> !Precedes(old(runs)[id], old(runs)[c.id]))
        && IsDue(old(runs)[c.id], now, workspaceIds)
        && (forall id :: id in old(runs) && IsDue(old(runs)[id], now, workspaceIds) ==> ComesFirst(old(runs)[c.id], old(runs)[id]))
        && c.token == token && c.leaseUntil == now + leaseMs && c.id in runs && ClaimedBy(old(runs)[c.id], runs[c.id], owner, now, leaseMs, token)
        && c.run == ClaimDoc(old(runs)[c.id], owner, now, leaseMs, token)
        && runs == old(runs)[c.id := c.run]
    {
      var first := FirstClaimable(now, workspaceIds);
      if first.None? {
        return None;
      }
      var doc := ClaimDoc(runs[first.value], owner, now, leaseMs, token);
      runs := runs[first.value := doc];
      claimed := Some(Claimed(first.value, doc, token, now + leaseMs));
    }

    method Heartbeat(id: RunId, token: Token, leaseMs: int, now: Millis) returns (r: Result<Millis, LeaseLost>)
      modifies this
      ensures r.Ok? <==> id in old(runs) && old(runs)[id].HeldBy(token)
      ensures r.Ok? ==> r.value == now + leaseMs && runs == old(runs)[id := HeartbeatDoc(old(runs)[id], token, now, leaseMs)]
      ensures r.Ok? ==> id in runs && BeatenBy(old(runs)[id], runs[id], token, now, leaseMs)
      ensures r.Err? ==> r.error == LeaseLost(id) && runs == old(runs)
    {
      if id in runs && runs[id].HeldBy(token) {
        runs := runs[id := HeartbeatDoc(runs[id], token, now, leaseMs)];
        return Ok(now + leaseMs);
      }
      return Err(LeaseLost(id));
    }

    method Release(id: RunId, token: Token, intent: ReleaseIntent, now: Millis) returns (r: Result<(), LeaseLost>)
      modifies this
      ensures r.Ok? <==> id in old(runs) && old(runs)[id].HeldBy(token)
      ensures r.Ok? ==> runs == old(runs)[id := ReleaseDoc(old(runs)[id], token, intent, now)]
      ensures r.Ok? ==> id in runs && ReleasedBy(old(runs)[id], runs[id], intent, now)
      ensures r.Err? ==> r.error == LeaseLost(id) && runs == old(runs)
    {
      if id in runs && runs[id].HeldBy(token) {
        runs := runs[id := ReleaseDoc(runs[id], token, intent, now)];
        return Ok(());
      }
      return Err(LeaseLost(id));
    }

    /** The least of a set of stalled runs by lease end. */
    method EarliestStalled(among: set<RunId>, now: Millis) returns (least: RunId)
      requires among != {} && among <= StalledIds(runs, now)
      ensures least in among
      ensures forall id :: id in among ==> !UntilPrecedes(runs[id], runs[least])
    {
      least :| least in among;
      var rest := among - {least};
      while rest != {}
        invariant rest <= among && least in among
        invariant forall id :: id in among && id !in rest ==> !UntilPrecedes(runs[id], runs[least])
        decreases |rest|
      {
        var id :| id in rest;
        rest := rest - {id};
        if UntilPrecedes(runs[id], runs[least]) {
          least := id;
        }
      }
    }

    /** The find of `sweep`. */
    method FindStalled(now: Millis, limit: nat) returns (page: seq<RunId>)
      ensures IsStalledPage(runs, now, limit, page) && LapsedFirst(runs, now, limit, page)
    {
      page := FindInOrder(now, limit);
      StalledPageIsLapsedFirst(runs, now, limit, page);
    }

    method FindInOrder(now: Millis, limit: nat) returns (page: seq<RunId>)
      ensures IsStalledPage(runs, now, limit, page)
    {
      page := [];
      var rest := set id | id in runs && runs[id].Stalled(now);
      ghost var all := rest;
      while (limit == 0 || |page| < limit) && rest != {}
        invariant limit == 0 || |page| <= limit
        invariant rest <= all == StalledIds(runs, now)
        invariant forall id :: id in all ==> (id in rest <==> id !in page)
        invariant forall i :: 0 <= i < |page| ==> page[i] in all && page[i] !in rest
        invariant forall i, j :: 0 <= i < j < |page| ==> page[i] != page[j]
        invariant forall i, j :: 0 <= i < j < |page| ==> !UntilPrecedes(runs[page[j]], runs[page[i]])
        invariant forall i, id :: 0 <= i < |page| && id in rest ==> !UntilPrecedes(runs[id], runs[page[i]])
        invariant |page| + |rest| == |all|
        decreases |rest|
      {
        var least := EarliestStalled(rest, now);
        rest := rest - {least};
        page := page + [least];
      }
    }

    /** The update of `sweep`, which asserts the stalled filter again. */
    method Reclaim(id: RunId, now: Millis, readAttempts: nat, roll: nat) returns (matched: bool)
      modifies this
      ensures matched == (id in old(runs) && old(runs)[id].Stalled(now))
      ensures matched <==> id in old(runs) && old(runs)[id].status == Running && old(runs)[id].lease.Some? && old(runs)[id].lease.value.until < now
      ensures matched ==> id in runs && ReclaimedBy(old(runs)[id], runs[id], now, readAttempts, maxAttempts)
      ensures !matched ==> runs == old(runs)
      ensures matched ==> runs == old(runs)[id := ReclaimDoc(old(runs)[id], now, readAttempts, maxAttempts, roll)]
    {
      matched := id in runs && runs[id].Stalled(now);
      if matched {
        runs := runs[id := ReclaimDoc(runs[id], now, readAttempts, maxAttempts, roll)];
      }
    }

    /** The update loop of `sweep` over what its find returned. */
    method ReclaimPage(page: seq<RunId>, now: Millis, rolls: seq<nat>) returns (requeued: nat, failed: nat)
      requires |rolls| >= |page|
      requires forall i :: 0 <= i < |page| ==> page[i] in runs && runs[page[i]].Stalled(now)
      requires forall i, j :: 0 <= i < j < |page| ==> page[i] != page[j]
      modifies this
      ensures SweptFrom(old(runs), runs, page, rolls, now, maxAttempts)
      ensures requeued + failed == |page|
      ensures failed == |GivenUp(old(runs), page, maxAttempts)|
    {
      requeued, failed := 0, 0;
      ghost var before := runs;
      for i := 0 to |page|
        invariant SweptFrom(before, runs, page[..i], rolls, now, maxAttempts)
        invariant requeued + failed == i && failed == |GivenUp(before, page[..i], maxAttempts)|
      {
        PageNext(before, runs, page, i, rolls, now, maxAttempts);
        var exhausted := Exhausted(runs[page[i]].attempts, maxAttempts);
        var matched := Reclaim(page[i], now, runs[page[i]].attempts, rolls[i]);
        if matched {
          if exhausted {
            failed := failed + 1;
          } else {
            requeued := requeued + 1;
          }
        }
      }
      assert page[..|page|] == page;
    }

    /**
     One sweep with nobody else writing: every stalled run on the page is reclaimed exactly once,
     by the rule its own `attempts` selects, everything else is untouched, and the two counters
     add up to the page. `rolls` are the random draws of the backoff, one per entry.
     */
    method Sweep(now: Millis, limit: nat, rolls: seq<nat>) returns (requeued: nat, failed: nat, ghost page: seq<RunId>)
      requires |rolls| >= |StalledIds(runs, now)|
      modifies this
      ensures IsStalledPage(old(runs), now, limit, page)
      ensures SweptFrom(old(runs), runs, page, rolls, now, maxAttempts)
      ensures requeued + failed == |page|
      ensures failed == |GivenUp(old(runs), page, maxAttempts)|
    {
      var stalled := FindStalled(now, limit);
      page := stalled;
      requeued, failed := ReclaimPage(stalled, now, rolls);
    }
  }
}
