/**
 The queue's methods as steps of the protocol.

 Each call of the class, made where its documents are those of a world, leaves the documents of that world after
 the protocol's action. So what `RunQueueProtocol` proves of interleaved actions holds of interleaved calls.
 */
module QueueSteps {
  import opened Options
  import opened RunQueue
  import opened RunQueueProtocol

  /** The queue holds the documents of this world. */
  ghost predicate Shows(q: MongoRunQueue, w: World)
    reads q
  {
    q.runs == w.runs && q.maxAttempts == w.maxAttempts
  }

  method EnqueueStep(q: MongoRunQueue, ghost w: World, id: RunId, now: Millis, scheduledFor: Option<Millis>, priority: Option<int>) returns (matched: bool)
    requires Shows(q, w)
    modifies q
    ensures Shows(q, Apply(w, DoEnqueue(id, if scheduledFor.Some? then scheduledFor.value else now, priority)))
    ensures matched <==> id in w.runs && w.runs[id].Enqueueable()
  {
    matched := q.Enqueue(id, now, scheduledFor, priority);
  }

  /** A successful claim is an enabled claim of the protocol; an unsuccessful one is no step. */
  method ClaimStep(q: MongoRunQueue, ghost w: World, owner: string, leaseMs: int, workspaceIds: Option<set<string>>, now: Millis, token: Token) returns (claimed: Option<Claimed>)
    requires Shows(q, w) && now <= w.clock && token !in w.issued
    modifies q
    ensures claimed.None? ==> Shows(q, w)
    ensures claimed.Some? ==>
      var a := DoClaim(claimed.value.id, owner, now, leaseMs, token);
      Enabled(w, a) && Shows(q, Apply(w, a))
  {
    claimed := q.Claim(owner, leaseMs, workspaceIds, now, token);
  }

  method HeartbeatStep(q: MongoRunQueue, ghost w: World, id: RunId, token: Token, leaseMs: int, now: Millis) returns (r: Result<Millis, LeaseLost>)
    requires Shows(q, w) && now <= w.clock
    modifies q
    ensures Shows(q, Apply(w, DoHeartbeat(id, token, now, leaseMs)))
    ensures r.Ok? <==> w.Holds(id, token)
  {
    r := q.Heartbeat(id, token, leaseMs, now);
  }

  method ReleaseStep(q: MongoRunQueue, ghost w: World, id: RunId, token: Token, intent: ReleaseIntent, now: Millis) returns (r: Result<(), LeaseLost>)
    requires Shows(q, w) && now <= w.clock
    modifies q
    ensures Shows(q, Apply(w, DoRelease(id, token, intent, now)))
    ensures r.Ok? <==> w.Holds(id, token)
  {
    r := q.Release(id, token, intent, now);
  }

  /** The find of a sweep opens it on the documents found. */
  method SweepReadStep(q: MongoRunQueue, ghost w: World, ghost s: SweeperId, now: Millis, limit: nat) returns (page: seq<RunId>)
    requires Shows(q, w) && now <= w.clock
    ensures var a := SweepRead(s, now, set id | id in page);
      && Enabled(w, a) && Shows(q, Apply(w, a))
      && Apply(w, a).sweeps[s].now == now && Apply(w, a).sweeps[s].read.Keys == set id | id in page
  {
    page := q.FindStalled(now, limit);
  }

  /** The re-checked update of a sweep, deciding from the attempts its find read. */
  method SweepWriteStep(q: MongoRunQueue, ghost w: World, ghost s: SweeperId, id: RunId, now: Millis, readAttempts: nat, roll: nat) returns (matched: bool)
    requires Shows(q, w) && s in w.sweeps && id in w.sweeps[s].read
    requires now == w.sweeps[s].now && readAttempts == w.sweeps[s].read[id].attempts
    modifies q
    ensures Shows(q, Apply(w, SweepWrite(s, id, roll)))
    ensures matched <==> id in w.runs && w.runs[id].Stalled(now)
  {
    matched := q.Reclaim(id, now, readAttempts, roll);
  }
}
