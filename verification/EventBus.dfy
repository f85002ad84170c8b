/**
 Delivering one run's events to a reader.

 Two readers of the append-only `runEvents` log: one follows a change stream after a first query, one
 only polls. Both are measured against `Wanted`: the run's events after the cursor, up to and including
 the first terminal one. The writer inserts each run's events in `seq` order, so for one run insertion
 order is the query's `sort: { seq: 1 }`.
 */
module EventBus {
  import opened Options
  import opened Seqs

  datatype EventDoc = EventDoc(runId: string, workspaceId: string, seqNo: int, kind: string, payload: string)

  datatype Key = Key(runId: string, workspaceId: string)

  const TERMINAL_EVENTS := {"run_finished", "run_suspended", "run_yielded"}
  const REPLAY_LIMIT: nat := 1_000

  predicate IsTerminal(d: EventDoc) {
    d.kind in TERMINAL_EVENTS
  }

  predicate IsMine(key: Key, d: EventDoc) {
    d.workspaceId == key.workspaceId && d.runId == key.runId
  }

  function Own(key: Key): EventDoc -> bool {
    (d: EventDoc) => IsMine(key, d)
  }

  function Mine(log: seq<EventDoc>, key: Key): seq<EventDoc> {
    Filter(log, Own(key))
  }

  function Later(cursor: int): EventDoc -> bool {
    (d: EventDoc) => d.seqNo > cursor
  }

  function After(docs: seq<EventDoc>, cursor: int): seq<EventDoc> {
    Filter(docs, Later(cursor))
  }

  /** The query of `replay`. */
  function ReplayPage(log: seq<EventDoc>, key: Key, cursor: int): seq<EventDoc> {
    var all := After(Mine(log, key), cursor);
    if |all| <= REPLAY_LIMIT then all else all[..REPLAY_LIMIT]
  }

  ghost predicate InOrder(docs: seq<EventDoc>) {
    forall i, j :: 0 <= i < j < |docs| ==> docs[i].seqNo < docs[j].seqNo
  }

  function UpToTerminal(docs: seq<EventDoc>): seq<EventDoc> {
    if docs == [] then []
    else if IsTerminal(docs[0]) then [docs[0]]
    else [docs[0]] + UpToTerminal(docs[1..])
  }

  /** What a reader at `cursor` is owed by a log. */
  function Wanted(log: seq<EventDoc>, key: Key, cursor: int): seq<EventDoc> {
    UpToTerminal(After(Mine(log, key), cursor))
  }

  predicate NoTerminal(docs: seq<EventDoc>) {
    forall i :: 0 <= i < |docs| ==> !IsTerminal(docs[i])
  }

  /** Where a reader stands after receiving `got`. */
  function CursorAfter(got: seq<EventDoc>, cursor: int): int {
    if got == [] then cursor else got[|got| - 1].seqNo
  }

  // ---- About selection in order ----

  lemma {:induction false} FilterInOrder(docs: seq<EventDoc>, p: EventDoc -> bool)
    requires InOrder(docs)
    ensures InOrder(Filter(docs, p))
  {
    if docs != [] {
      FilterInOrder(docs[1..], p);
      var rest := Filter(docs[1..], p);
      forall j | 0 <= j < |rest|
        ensures docs[0].seqNo < rest[j].seqNo
      {
        assert rest[j] in docs[1..];
      }
    }
  }

  lemma MineAppend(a: seq<EventDoc>, b: seq<EventDoc>, key: Key)
    ensures Mine(a + b, key) == Mine(a, key) + Mine(b, key)
  {
    FilterAppend(a, b, Own(key));
  }

  lemma {:induction false} UpToTerminalSplit(got: seq<EventDoc>, rest: seq<EventDoc>)
    requires NoTerminal(got)
    ensures UpToTerminal(got + rest) == got + UpToTerminal(rest)
  {
    if got == [] {
      assert got + rest == rest;
    } else {
      assert (got + rest)[1..] == got[1..] + rest && (got + rest)[0] == got[0];
      UpToTerminalSplit(got[1..], rest);
    }
  }

  lemma UpToTerminalStops(got: seq<EventDoc>, last: EventDoc, rest: seq<EventDoc>)
    requires NoTerminal(got) && IsTerminal(last)
    ensures UpToTerminal(got + [last] + rest) == got + [last]
  {
    assert got + [last] + rest == got + ([last] + rest);
    UpToTerminalSplit(got, [last] + rest);
  }

  lemma EndsAtTerminal(got: seq<EventDoc>, all: seq<EventDoc>)
    requires got <= all && got != [] && IsTerminal(got[|got| - 1]) && NoTerminal(got[..|got| - 1])
    ensures UpToTerminal(all) == got
  {
    var n := |got| - 1;
    assert all == got[..n] + [got[n]] + all[n + 1..];
    UpToTerminalStops(got[..n], got[n], all[n + 1..]);
  }

  /**
   Resuming is exact: if `got` is the beginning of what lay after the cursor, then what lies after the
   last delivered `seq` is precisely the rest.
   */
  lemma ResumeIsExact(docs: seq<EventDoc>, cursor: int, got: seq<EventDoc>)
    requires InOrder(docs) && got <= After(docs, cursor)
    ensures After(docs, cursor) == got + After(docs, CursorAfter(got, cursor))
  {
    if got != [] {
      var all, c := After(docs, cursor), CursorAfter(got, cursor);
      assert got[|got| - 1] == all[|got| - 1] && all[|got| - 1] in all;
      FilterInOrder(docs, Later(cursor));
      SplitAtCursor(all, got, c);
      FilterTwice(docs, Later(cursor), Later(c));
    }
  }

  /** What a list in order holds past one of its elements is what stands behind it. */
  lemma SplitAtCursor(all: seq<EventDoc>, got: seq<EventDoc>, c: int)
    requires InOrder(all) && got <= all && got != [] && c == got[|got| - 1].seqNo
    ensures all == got + Filter(all, Later(c))
  {
    var n, rest := |got|, all[|got|..];
    assert all == got + rest;
    forall d | d in got
      ensures !Later(c)(d)
    {
      var i :| 0 <= i < n && got[i] == d;
      assert all[i] == d && all[n - 1] == got[n - 1];
    }
    forall d | d in rest
      ensures Later(c)(d)
    {
      var i :| 0 <= i < |rest| && rest[i] == d;
      assert all[n + i] == d && all[n - 1] == got[n - 1];
    }
    JoinAtCursor(got, rest, c);
  }

  lemma JoinAtCursor(got: seq<EventDoc>, rest: seq<EventDoc>, c: int)
    requires (forall d :: d in got ==> !Later(c)(d)) && forall d :: d in rest ==> Later(c)(d)
    ensures Filter(got + rest, Later(c)) == rest
  {
    FilterAppend(got, rest, Later(c));
    FilterKeepsNone(got, Later(c));
    FilterKeepsAll(rest, Later(c));
  }

  /** A session cut short and continued from its last `seq` delivers what one unbroken session would have. */
  lemma ChainedSessionsAreOne(log: seq<EventDoc>, key: Key, cursor: int, got: seq<EventDoc>)
    requires InOrder(Mine(log, key)) && got <= Wanted(log, key, cursor) && NoTerminal(got)
    ensures Wanted(log, key, cursor) == got + Wanted(log, key, CursorAfter(got, cursor))
  {
    var all := After(Mine(log, key), cursor);
    WantedIsPrefix(all);
    ResumeIsExact(Mine(log, key), cursor, got);
    UpToTerminalSplit(got, After(Mine(log, key), CursorAfter(got, cursor)));
  }

  lemma {:induction false} WantedIsPrefix(docs: seq<EventDoc>)
    ensures UpToTerminal(docs) <= docs
  {
    if docs != [] && !IsTerminal(docs[0]) {
      WantedIsPrefix(docs[1..]);
    }
  }

  lemma AfterAppend(a: seq<EventDoc>, b: seq<EventDoc>, cursor: int)
    ensures After(a + b, cursor) == After(a, cursor) + After(b, cursor)
  {
    FilterAppend(a, b, Later(cursor));
  }

  lemma AfterNothing(docs: seq<EventDoc>, cursor: int)
    requires forall d :: d in docs ==> d.seqNo <= cursor
    ensures After(docs, cursor) == []
  {
    FilterKeepsNone(docs, Later(cursor));
  }

  /** What lies after a cursor in a longer log extends what lay there before. */
  lemma AfterGrows(log: seq<EventDoc>, more: seq<EventDoc>, key: Key, cursor: int)
    requires log <= more
    ensures After(Mine(log, key), cursor) <= After(Mine(more, key), cursor)
  {
    assert more == log + more[|log|..];
    MineAppend(log, more[|log|..], key);
    FilterAppend(Mine(log, key), Mine(more[|log|..], key), Later(cursor));
  }

  /** Any chain of sessions, each starting where the one before stopped, over a growing log. */
  ghost predicate IsChain(logs: seq<seq<EventDoc>>, sessions: seq<seq<EventDoc>>, cursors: seq<int>, key: Key) {
    && |logs| == |sessions| && |cursors| == |sessions| + 1
    && (forall i, j :: 0 <= i <= j < |logs| ==> logs[i] <= logs[j])
    && (forall i :: 0 <= i < |sessions| ==> sessions[i] <= Wanted(logs[i], key, cursors[i]))
    && (forall i :: 0 <= i < |sessions| ==> cursors[i + 1] == CursorAfter(sessions[i], cursors[i]))
  }

  function Concat(sessions: seq<seq<EventDoc>>): seq<EventDoc> {
    if sessions == [] then [] else Concat(sessions[..|sessions| - 1]) + sessions[|sessions| - 1]
  }

  /**
   Whatever the sessions, and through terminal events too, their concatenation is the beginning of the
   run's log after the first cursor: no gap, no duplicate, in order.
   */
  lemma {:induction false} ChainHasNoGap(logs: seq<seq<EventDoc>>, sessions: seq<seq<EventDoc>>, cursors: seq<int>, key: Key, final: seq<EventDoc>, n: nat)
    requires IsChain(logs, sessions, cursors, key) && InOrder(Mine(final, key)) && n <= |sessions|
    requires forall i :: 0 <= i < |logs| ==> logs[i] <= final
    ensures Concat(sessions[..n]) <= After(Mine(final, key), cursors[0])
    ensures cursors[n] == CursorAfter(Concat(sessions[..n]), cursors[0])
    decreases n
  {
    if n > 0 {
      ChainHasNoGap(logs, sessions, cursors, key, final, n - 1);
      var got, session := Concat(sessions[..n - 1]), sessions[n - 1];
      assert sessions[..n][..n - 1] == sessions[..n - 1];
      assert Concat(sessions[..n]) == got + session;
      assert cursors[n - 1 + 1] == CursorAfter(session, cursors[n - 1]);
      CursorAfterBoth(got, session, cursors[0]);
      ChainStep(logs[n - 1], key, cursors[0], got, session, final);
    }
  }

  lemma CursorAfterBoth(got: seq<EventDoc>, session: seq<EventDoc>, cursor: int)
    ensures CursorAfter(got + session, cursor) == CursorAfter(session, CursorAfter(got, cursor))
  {
    if session == [] {
      assert got + session == got;
    }
  }

  lemma ChainStep(log: seq<EventDoc>, key: Key, cursor: int, got: seq<EventDoc>, session: seq<EventDoc>, final: seq<EventDoc>)
    requires log <= final && InOrder(Mine(final, key)) && got <= After(Mine(final, key), cursor)
    requires session <= Wanted(log, key, CursorAfter(got, cursor))
    ensures got + session <= After(Mine(final, key), cursor)
  {
    var c := CursorAfter(got, cursor);
    ResumeIsExact(Mine(final, key), cursor, got);
    WantedIsPrefix(After(Mine(log, key), c));
    AfterGrows(log, final, key, c);
  }

  // ---- Polling ----

  /** The state of a reader that has received `got`: the beginning of what it is owed, and its cursor. */
  ghost predicate Reading(log: seq<EventDoc>, key: Key, afterSeq: int, got: seq<EventDoc>, lastSeq: int) {
    got <= After(Mine(log, key), afterSeq) && lastSeq == CursorAfter(got, afterSeq)
  }

  /** One document is read from the front of what is left. */
  lemma ReadOne(log: seq<EventDoc>, key: Key, afterSeq: int, got: seq<EventDoc>, d: EventDoc)
    requires got + [d] <= After(Mine(log, key), afterSeq) && NoTerminal(got)
    ensures IsTerminal(d) ==> Wanted(log, key, afterSeq) == got + [d]
    ensures !IsTerminal(d) ==> NoTerminal(got + [d])
  {
    var all := After(Mine(log, key), afterSeq);
    assert all == got + [d] + all[|got| + 1..];
    if IsTerminal(d) {
      UpToTerminalStops(got, d, all[|got| + 1..]);
    }
  }

  /** A reader with no terminal event behind it that has everything has what it is owed. */
  lemma CaughtUp(log: seq<EventDoc>, key: Key, afterSeq: int, got: seq<EventDoc>)
    requires got <= After(Mine(log, key), afterSeq) && NoTerminal(got)
    ensures got <= Wanted(log, key, afterSeq)
    ensures got == After(Mine(log, key), afterSeq) ==> got == Wanted(log, key, afterSeq)
  {
    var all := After(Mine(log, key), afterSeq);
    assert all == got + all[|got|..];
    UpToTerminalSplit(got, all[|got|..]);
  }

  lemma NextOfPage(before: seq<EventDoc>, page: seq<EventDoc>, i: nat, got: seq<EventDoc>)
    requires i < |page| && got == before + page[..i]
    ensures got + [page[i]] == before + page[..i + 1] && got + [page[i]] <= before + page
  {
    assert page[..i + 1] == page[..i] + [page[i]];
    assert before + page == got + [page[i]] + page[i + 1..];
  }

  /** Yields the documents of a page one by one, stopping after a terminal one. */
  method DeliverPage(log: seq<EventDoc>, key: Key, afterSeq: int, page: seq<EventDoc>, before: seq<EventDoc>)
    returns (got: seq<EventDoc>, lastSeq: int, ended: bool)
    requires before + page <= After(Mine(log, key), afterSeq) && NoTerminal(before)
    ensures Reading(log, key, afterSeq, got, lastSeq)
    ensures ended ==> got == Wanted(log, key, afterSeq) && got != [] && IsTerminal(got[|got| - 1])
    ensures got <= before + page
    ensures !ended ==> got == before + page && NoTerminal(got)
  {
    got, lastSeq := before, CursorAfter(before, afterSeq);
    var i := 0;
    while i < |page|
      invariant 0 <= i <= |page|
      invariant got == before + page[..i] && NoTerminal(got)
      invariant lastSeq == CursorAfter(got, afterSeq)
    {
      var d := page[i];
      NextOfPage(before, page, i, got);
      ReadOne(log, key, afterSeq, got, d);
      lastSeq := d.seqNo;
      got := got + [d];
      if IsTerminal(d) {
        return got, lastSeq, true;
      }
      i := i + 1;
    }
    assert page[..i] == page;
    ended := false;
  }

  ghost predicate Growing(logs: seq<seq<EventDoc>>) {
    forall i, j :: 0 <= i <= j < |logs| ==> logs[i] <= logs[j]
  }

  /** The log last changed at or before poll `m`. */
  ghost predicate SettledFrom(logs: seq<seq<EventDoc>>, m: nat) {
    m < |logs| && forall i :: m <= i < |logs| ==> logs[i] == logs[|logs| - 1]
  }

  /**
   `PollingEventBus.subscribe` over the logs its polls meet; the list ends when the signal aborts.
   Everything delivered is the beginning of what the last log owes. A reader stops only at the terminal
   event; otherwise, for every stretch of polls over a log that has settled, it has either caught up or
   received a full page for each of them. No backlog is too long.
   */
  method PollingSubscribe(key: Key, afterSeq: int, logs: seq<seq<EventDoc>>) returns (got: seq<EventDoc>, ended: bool)
    requires Growing(logs) && |logs| > 0 && InOrder(Mine(logs[|logs| - 1], key))
    ensures got <= Wanted(logs[|logs| - 1], key, afterSeq)
    ensures ended ==> got == Wanted(logs[|logs| - 1], key, afterSeq)
    ensures forall m: nat :: SettledFrom(logs, m) ==>
      got == Wanted(logs[|logs| - 1], key, afterSeq) || |got| >= REPLAY_LIMIT * (|logs| - m)
  {
    ghost var final := logs[|logs| - 1];
    got, ended := [], false;
    var lastSeq := afterSeq;
    var k := 0;
    while k < |logs|
      invariant 0 <= k <= |logs|
      invariant Reading(final, key, afterSeq, got, lastSeq) && NoTerminal(got)
      invariant k == 0 ==> got == []
      invariant k > 0 ==> got <= After(Mine(logs[k - 1], key), afterSeq)
      invariant KeepsUp(logs, k, got, After(Mine(final, key), afterSeq))
    {
      if k > 0 {
        AfterGrows(logs[k - 1], logs[k], key, afterSeq);
      }
      ghost var before := got;
      got, lastSeq, ended := PollOnce(logs[k], final, key, afterSeq, got, lastSeq);
      if ended {
        return;
      }
      KeepsUpNext(logs, k, before, got, After(Mine(final, key), afterSeq), After(Mine(logs[k], key), afterSeq));
      k := k + 1;
    }
    CaughtUp(final, key, afterSeq, got);
  }

  /** After k polls, for every stretch of them over a settled log: caught up, or a full page for each. */
  ghost predicate KeepsUp(logs: seq<seq<EventDoc>>, k: nat, got: seq<EventDoc>, all: seq<EventDoc>) {
    forall m: nat :: m < k && SettledFrom(logs, m) ==> got == all || |got| >= REPLAY_LIMIT * (k - m)
  }

  lemma KeepsUpNext(logs: seq<seq<EventDoc>>, k: nat, before: seq<EventDoc>, got: seq<EventDoc>, all: seq<EventDoc>, met: seq<EventDoc>)
    requires k < |logs| && KeepsUp(logs, k, before, all) && before <= got <= all
    requires logs[k] == logs[|logs| - 1] ==> met == all
    requires got == met || |got| == |before| + REPLAY_LIMIT
    ensures KeepsUp(logs, k + 1, got, all)
  {
    forall m: nat | m < k + 1 && SettledFrom(logs, m)
      ensures got == all || |got| >= REPLAY_LIMIT * (k + 1 - m)
    {
      assert logs[k] == logs[|logs| - 1];
      PageProgress(|before|, REPLAY_LIMIT, k, m);
    }
  }

  /** One poll: a page from the cursor, delivered. It catches up with the log it met unless the page was full. */
  method PollOnce(log: seq<EventDoc>, ghost final: seq<EventDoc>, key: Key, afterSeq: int, before: seq<EventDoc>, cursor: int)
    returns (got: seq<EventDoc>, lastSeq: int, ended: bool)
    requires log <= final && InOrder(Mine(final, key)) && NoTerminal(before) && Reading(log, key, afterSeq, before, cursor)
    ensures Reading(final, key, afterSeq, got, lastSeq) && got <= After(Mine(log, key), afterSeq)
    ensures ended ==> got == Wanted(final, key, afterSeq)
    ensures !ended ==> before <= got
    ensures !ended ==> NoTerminal(got) && (got == After(Mine(log, key), afterSeq) || |got| == |before| + REPLAY_LIMIT)
  {
    AfterGrows(log, final, key, afterSeq);
    PollInOrder(log, final, key);
    ResumeIsExact(Mine(log, key), afterSeq, before);
    var page := ReplayPage(log, key, cursor);
    assert before + page <= After(Mine(log, key), afterSeq);
    got, lastSeq, ended := DeliverPage(log, key, afterSeq, page, before);
    if ended {
      EndedEarly(log, final, key, afterSeq, got);
    }
  }

  lemma PollInOrder(log: seq<EventDoc>, final: seq<EventDoc>, key: Key)
    requires log <= final && InOrder(Mine(final, key))
    ensures InOrder(Mine(log, key))
  {
    assert final == log + final[|log|..];
    MineAppend(log, final[|log|..], key);
    assert forall i :: 0 <= i < |Mine(log, key)| ==> Mine(log, key)[i] == Mine(final, key)[i];
  }

  lemma PageProgress(before: nat, page: nat, k: nat, m: nat)
    requires m <= k && page == REPLAY_LIMIT
    ensures before >= REPLAY_LIMIT * (k - m) ==> before + page >= REPLAY_LIMIT * (k + 1 - m)
  {
  }

  /** A session that ended at a terminal event owes nothing more when the log grows. */
  lemma EndedEarly(log: seq<EventDoc>, more: seq<EventDoc>, key: Key, afterSeq: int, got: seq<EventDoc>)
    requires log <= more && got == Wanted(log, key, afterSeq) && got != [] && IsTerminal(got[|got| - 1])
    ensures got == Wanted(more, key, afterSeq)
  {
    var all, all' := After(Mine(log, key), afterSeq), After(Mine(more, key), afterSeq);
    AfterGrows(log, more, key, afterSeq);
    WantedIsPrefix(all);
    WantedHasNoEarlierTerminal(all);
    var n := |got| - 1;
    assert all' == got[..n] + [got[n]] + all'[n + 1..];
    UpToTerminalStops(got[..n], got[n], all'[n + 1..]);
  }

  lemma {:induction false} WantedHasNoEarlierTerminal(docs: seq<EventDoc>)
    requires UpToTerminal(docs) != []
    ensures NoTerminal(UpToTerminal(docs)[..|UpToTerminal(docs)| - 1])
  {
    if !IsTerminal(docs[0]) && UpToTerminal(docs[1..]) != [] {
      WantedHasNoEarlierTerminal(docs[1..]);
      var rest := UpToTerminal(docs[1..]);
      assert UpToTerminal(docs)[..|rest|] == [docs[0]] + rest[..|rest| - 1];
    }
  }

  // ---- Change stream ----

  /** The documents of the changes a stream handed over; a change may carry none. */
  function Docs(stream: seq<Option<EventDoc>>): seq<EventDoc> {
    if stream == [] then []
    else Docs(stream[..|stream| - 1]) + match stream[|stream| - 1] case Some(d) => [d] case None => []
  }

  /**
   The backlog the stream can make up for: when the stream was opened, at most one replay page of events
   lay after the cursor, or that page already holds a terminal one.
   */
  predicate Covered(atOpen: seq<EventDoc>, key: Key, afterSeq: int) {
    var backlog := After(Mine(atOpen, key), afterSeq);
    |backlog| <= REPLAY_LIMIT || !NoTerminal(backlog[..REPLAY_LIMIT])
  }

  /** The surroundings of one change-stream session: logs only grow, and the stream carries what was inserted after it opened. */
  ghost predicate IsSession(key: Key, atOpen: seq<EventDoc>, atReplay: seq<EventDoc>, final: seq<EventDoc>, stream: seq<Option<EventDoc>>) {
    && atOpen <= atReplay <= final
    && InOrder(Mine(final, key))
    && Mine(Docs(stream), key) <= Mine(final[|atOpen|..], key)
  }

  /** Later inserts have larger `seq` than everything there when the stream opened. */
  lemma LaterIsLarger(atOpen: seq<EventDoc>, final: seq<EventDoc>, key: Key, early: EventDoc, late: EventDoc)
    requires atOpen <= final && InOrder(Mine(final, key))
    requires early in Mine(atOpen, key) && late in Mine(final[|atOpen|..], key)
    ensures early.seqNo < late.seqNo
  {
    var a, b := Mine(atOpen, key), Mine(final[|atOpen|..], key);
    assert final == atOpen + final[|atOpen|..];
    MineAppend(atOpen, final[|atOpen|..], key);
    var i :| 0 <= i < |a| && a[i] == early;
    var j :| 0 <= j < |b| && b[j] == late;
    assert Mine(final, key)[i] == early && Mine(final, key)[|a| + j] == late;
  }

  /** Replaying a page after opening loses nothing of a covered backlog: what is left is exactly what the stream still brings. */
  lemma StreamBringsTheRest(key: Key, atOpen: seq<EventDoc>, final: seq<EventDoc>, afterSeq: int, page: seq<EventDoc>)
    requires atOpen <= final && InOrder(Mine(final, key)) && page <= After(Mine(final, key), afterSeq)
    requires |After(Mine(atOpen, key), afterSeq)| <= |page|
    ensures After(Mine(final, key), afterSeq) == page + After(Mine(final[|atOpen|..], key), CursorAfter(page, afterSeq))
  {
    var c := CursorAfter(page, afterSeq);
    var early, later := Mine(atOpen, key), Mine(final[|atOpen|..], key);
    assert Mine(final, key) == early + later by {
      assert final == atOpen + final[|atOpen|..];
      MineAppend(atOpen, final[|atOpen|..], key);
    }
    ResumeIsExact(Mine(final, key), afterSeq, page);
    AfterAppend(early, later, c);
    EarlyIsBehind(key, atOpen, final, afterSeq, page);
    AfterNothing(early, c);
  }

  /** A page at least as long as the backlog leaves the cursor past everything there when the stream opened. */
  lemma EarlyIsBehind(key: Key, atOpen: seq<EventDoc>, final: seq<EventDoc>, afterSeq: int, page: seq<EventDoc>)
    requires atOpen <= final && InOrder(Mine(final, key)) && page <= After(Mine(final, key), afterSeq)
    requires |After(Mine(atOpen, key), afterSeq)| <= |page|
    ensures forall d :: d in Mine(atOpen, key) ==> d.seqNo <= CursorAfter(page, afterSeq)
  {
    var backlog := After(Mine(atOpen, key), afterSeq);
    AfterGrows(atOpen, final, key, afterSeq);
    GotIsOrdered(key, final, afterSeq, page);
    forall d | d in Mine(atOpen, key)
      ensures d.seqNo <= CursorAfter(page, afterSeq)
    {
      if d.seqNo > afterSeq {
        assert d in backlog;
        var i :| 0 <= i < |backlog| && backlog[i] == d;
        assert page[i] == d;
      } else if page != [] {
        assert page[|page| - 1] in page;
      }
    }
  }

  /** When a backlog is not covered, the first event past the page is owed and never comes. */
  lemma UncoveredIsLost(key: Key, atOpen: seq<EventDoc>, final: seq<EventDoc>, afterSeq: int, got: seq<EventDoc>, page: seq<EventDoc>)
    requires atOpen <= final && InOrder(Mine(final, key)) && !Covered(atOpen, key, afterSeq)
    requires page == After(Mine(atOpen, key), afterSeq)[..REPLAY_LIMIT] && page <= got
    requires forall i :: |page| <= i < |got| ==> got[i] in Mine(final[|atOpen|..], key)
    ensures got != Wanted(final, key, afterSeq)
  {
    var backlog, all := After(Mine(atOpen, key), afterSeq), After(Mine(final, key), afterSeq);
    AfterGrows(atOpen, final, key, afterSeq);
    assert all == page + all[REPLAY_LIMIT..];
    UpToTerminalSplit(page, all[REPLAY_LIMIT..]);
    assert Wanted(final, key, afterSeq)[REPLAY_LIMIT] == backlog[REPLAY_LIMIT];
    if got == Wanted(final, key, afterSeq) {
      LaterIsLarger(atOpen, final, key, backlog[REPLAY_LIMIT], got[REPLAY_LIMIT]);
      assert false;
    }
  }

  // ---- What is owed and what is covered, in full ----

  /** The three kinds after which no more events of a session arrive. */
  ghost predicate EndsSession(d: EventDoc) {
    d.kind == "run_finished" || d.kind == "run_suspended" || d.kind == "run_yielded"
  }

  /** The documents of this run in this workspace with a greater `seq`. */
  ghost predicate IsOwed(d: EventDoc, key: Key, cursor: int) {
    d.runId == key.runId && d.workspaceId == key.workspaceId && d.seqNo > cursor
  }

  lemma {:induction false} FilterCounts(docs: seq<EventDoc>, p: EventDoc -> bool, d: EventDoc)
    ensures multiset(Filter(docs, p))[d] == if p(d) then multiset(docs)[d] else 0
  {
    if docs != [] {
      FilterCounts(docs[1..], p, d);
      assert docs == [docs[0]] + docs[1..];
    }
  }

  lemma {:induction false} CutAtTerminal(docs: seq<EventDoc>)
    ensures var w := UpToTerminal(docs);
      && w <= docs && (forall i :: 0 <= i < |w| - 1 ==> !EndsSession(w[i]))
      && (|w| < |docs| ==> w != [] && EndsSession(w[|w| - 1]))
  {
    if docs != [] && !IsTerminal(docs[0]) {
      CutAtTerminal(docs[1..]);
      var w, rest := UpToTerminal(docs), UpToTerminal(docs[1..]);
      assert w == [docs[0]] + rest && docs == [docs[0]] + docs[1..];
      forall i | 0 <= i < |w| - 1
        ensures !EndsSession(w[i])
      {
        if i > 0 {
          assert w[i] == rest[i - 1];
        }
      }
    }
  }

  /** What is owed: the run's documents past the cursor, each as often as it was written, up to the first that ends a session. */
  lemma OwedExactly(log: seq<EventDoc>, key: Key, cursor: int)
    ensures var all, w := After(Mine(log, key), cursor), Wanted(log, key, cursor);
      && (forall d :: multiset(all)[d] == if IsOwed(d, key, cursor) then multiset(log)[d] else 0)
      && w <= all && (forall i :: 0 <= i < |w| - 1 ==> !EndsSession(w[i]))
      && (|w| < |all| ==> w != [] && EndsSession(w[|w| - 1]))
  {
    forall d
      ensures multiset(After(Mine(log, key), cursor))[d] == if IsOwed(d, key, cursor) then multiset(log)[d] else 0
    {
      OwedCounts(log, key, cursor, d);
    }
    CutAtTerminal(After(Mine(log, key), cursor));
  }

  lemma OwedCounts(log: seq<EventDoc>, key: Key, cursor: int, d: EventDoc)
    ensures multiset(After(Mine(log, key), cursor))[d] == if IsOwed(d, key, cursor) then multiset(log)[d] else 0
  {
    FilterCounts(log, Own(key), d);
    FilterCounts(Mine(log, key), Later(cursor), d);
  }

  /** A backlog is covered exactly when it has at most 1000 events, or one of the first 1000 ends the session. */
  lemma CoveredIff(atOpen: seq<EventDoc>, key: Key, afterSeq: int)
    ensures var backlog := After(Mine(atOpen, key), afterSeq);
      Covered(atOpen, key, afterSeq) <==> |backlog| <= 1_000 || exists i :: 0 <= i < 1_000 && EndsSession(backlog[i])
  {
    var backlog := After(Mine(atOpen, key), afterSeq);
    if |backlog| > 1_000 {
      var page := backlog[..REPLAY_LIMIT];
      assert forall i :: 0 <= i < 1_000 ==> page[i] == backlog[i];
    }
  }

  /** Event i of a run that goes on. */
  function PlainEvent(key: Key, i: nat): EventDoc {
    EventDoc(key.runId, key.workspaceId, i + 1, "text_delta", "")
  }

  /** A session with an uncovered backlog: 1001 events were written before the stream was opened, and nothing after. */
  lemma UncoveredSession(key: Key) returns (log: seq<EventDoc>)
    ensures |log| == 1_001 && IsSession(key, log, log, log, []) && !Covered(log, key, 0)
    ensures Wanted(log, key, 0) == log
  {
    log := seq(1_001, i requires 0 <= i < 1_001 => PlainEvent(key, i));
    FilterKeepsAll(log, Own(key));
    FilterKeepsAll(log, Later(0));
    assert log[|log|..] == [] && log[..REPLAY_LIMIT] <= log;
    AllPlain(log);
  }

  lemma {:induction false} AllPlain(log: seq<EventDoc>)
    requires NoTerminal(log)
    ensures UpToTerminal(log) == log
  {
    if log != [] {
      AllPlain(log[1..]);
    }
  }

  /** The page of the first query, seen from the final log. */
  lemma PageOfFinal(key: Key, atOpen: seq<EventDoc>, atReplay: seq<EventDoc>, final: seq<EventDoc>, afterSeq: int)
    requires atOpen <= atReplay <= final
    ensures IsFirstPage(key, afterSeq, atOpen, final, ReplayPage(atReplay, key, afterSeq))
  {
    AfterGrows(atOpen, atReplay, key, afterSeq);
    AfterGrows(atReplay, final, key, afterSeq);
  }

  lemma DocsOne(stream: seq<Option<EventDoc>>, k: nat, key: Key)
    requires k < |stream|
    ensures Docs(stream[..k + 1]) == Docs(stream[..k]) + match stream[k] case Some(d) => [d] case None => []
  {
    assert stream[..k + 1][..k] == stream[..k];
  }

  lemma {:induction false} DocsPrefix(stream: seq<Option<EventDoc>>, k: nat)
    requires k <= |stream|
    ensures Docs(stream[..k]) <= Docs(stream)
    decreases |stream| - k
  {
    if k < |stream| {
      DocsOne(stream, k, Key("", ""));
      DocsPrefix(stream, k + 1);
    } else {
      assert stream[..k] == stream;
    }
  }

  /** `After` of a list grown by one document that is mine, or not. */
  lemma AfterOne(docs: seq<EventDoc>, d: EventDoc, key: Key, cursor: int)
    ensures After(Mine(docs + [d], key), cursor) == After(Mine(docs, key), cursor) + if IsMine(key, d) && d.seqNo > cursor then [d] else []
  {
    MineAppend(docs, [d], key);
    FilterAppend(Mine(docs, key), Mine([d], key), Later(cursor));
    assert Mine([d], key) == if IsMine(key, d) then [d] else [];
  }

  /**
   The follow loop of `ChangeStreamEventBus.subscribe`: drops empty changes, other tenants' documents and
   what was already replayed.
   */
  method Follow(key: Key, afterSeq: int, stream: seq<Option<EventDoc>>, page: seq<EventDoc>) returns (got: seq<EventDoc>, ended: bool, used: nat)
    requires NoTerminal(page) && InOrder(Mine(Docs(stream), key))
    ensures used <= |stream| && (!ended ==> used == |stream|)
    ensures got == page + After(Mine(Docs(stream[..used]), key), CursorAfter(page, afterSeq))
    ensures EndsWell(got, ended)
  {
    got, ended, used := FollowStream(key, afterSeq, stream, page);
    FollowedIs(key, afterSeq, stream, page, used);
  }

  /** What the loop has kept of the first k changes, comparing with a cursor that moves with what it keeps. */
  ghost function FollowedBy(key: Key, afterSeq: int, stream: seq<Option<EventDoc>>, page: seq<EventDoc>, k: nat): seq<EventDoc>
    requires k <= |stream|
  {
    if k == 0 then []
    else
      var before := FollowedBy(key, afterSeq, stream, page, k - 1);
      match stream[k - 1]
      case None => before
      case Some(d) => if IsMine(key, d) && d.seqNo > CursorAfter(page + before, afterSeq) then before + [d] else before
  }

  method FollowStream(key: Key, afterSeq: int, stream: seq<Option<EventDoc>>, page: seq<EventDoc>) returns (got: seq<EventDoc>, ended: bool, used: nat)
    requires NoTerminal(page)
    ensures used <= |stream| && (!ended ==> used == |stream|)
    ensures got == page + FollowedBy(key, afterSeq, stream, page, used) && EndsWell(got, ended)
  {
    var lastSeq := CursorAfter(page, afterSeq);
    got, used := page, 0;
    while used < |stream|
      invariant 0 <= used <= |stream|
      invariant got == page + FollowedBy(key, afterSeq, stream, page, used) && NoTerminal(got)
      invariant lastSeq == CursorAfter(got, afterSeq)
    {
      ghost var before := FollowedBy(key, afterSeq, stream, page, used);
      var change := stream[used];
      used := used + 1;
      if change.None? || !IsMine(key, change.value) || change.value.seqNo <= lastSeq {
        continue;
      }
      lastSeq := change.value.seqNo;
      assert page + (before + [change.value]) == got + [change.value];
      assert (got + [change.value])[..|got|] == got;
      got := got + [change.value];
      if IsTerminal(change.value) {
        return got, true, used;
      }
    }
    ended := false;
  }

  lemma {:induction false} FollowedIs(key: Key, afterSeq: int, stream: seq<Option<EventDoc>>, page: seq<EventDoc>, k: nat)
    requires k <= |stream| && InOrder(Mine(Docs(stream), key))
    ensures FollowedBy(key, afterSeq, stream, page, k) == After(Mine(Docs(stream[..k]), key), CursorAfter(page, afterSeq))
    decreases k
  {
    if k > 0 {
      FollowedIs(key, afterSeq, stream, page, k - 1);
      FollowOne(key, stream, k - 1, page, afterSeq);
    }
  }

  /** Comparing with the moving cursor selects the same documents as comparing with the replay's cursor. */
  lemma FollowOne(key: Key, stream: seq<Option<EventDoc>>, k: nat, page: seq<EventDoc>, afterSeq: int)
    requires k < |stream| && InOrder(Mine(Docs(stream), key))
    ensures var c := CursorAfter(page, afterSeq);
      var tail := After(Mine(Docs(stream[..k]), key), c);
      After(Mine(Docs(stream[..k + 1]), key), c) ==
      tail + match stream[k]
             case None => []
             case Some(d) => if IsMine(key, d) && d.seqNo > CursorAfter(page + tail, afterSeq) then [d] else []
  {
    DocsOne(stream, k, key);
    if stream[k].Some? {
      var c, before, d := CursorAfter(page, afterSeq), Docs(stream[..k]), stream[k].value;
      AfterOne(before, d, key, c);
      if IsMine(key, d) {
        StreamOrder(key, stream, k + 1, before, d, c);
        CursorTest(page, After(Mine(before, key), c), afterSeq, d);
      }
    } else {
      assert Docs(stream[..k + 1]) == Docs(stream[..k]);
    }
  }

  lemma CursorTest(page: seq<EventDoc>, tail: seq<EventDoc>, afterSeq: int, d: EventDoc)
    requires forall e :: e in tail ==> CursorAfter(page, afterSeq) < e.seqNo < d.seqNo
    ensures d.seqNo > CursorAfter(page, afterSeq) <==> d.seqNo > CursorAfter(page + tail, afterSeq)
  {
    if tail != [] {
      assert (page + tail)[|page + tail| - 1] == tail[|tail| - 1];
      assert tail[|tail| - 1] in tail;
    } else {
      assert page + tail == page;
    }
  }

  lemma StreamOrder(key: Key, stream: seq<Option<EventDoc>>, used: nat, before: seq<EventDoc>, d: EventDoc, c: int)
    requires 0 < used <= |stream| && InOrder(Mine(Docs(stream), key))
    requires Docs(stream[..used]) == before + [d] && IsMine(key, d)
    ensures forall e :: e in After(Mine(before, key), c) ==> c < e.seqNo < d.seqNo
  {
    DocsPrefix(stream, used);
    PollInOrder(before + [d], Docs(stream), key);
    MineAppend(before, [d], key);
    assert Mine([d], key) == [d];
    var all := Mine(before + [d], key);
    forall e | e in After(Mine(before, key), c)
      ensures c < e.seqNo < d.seqNo
    {
      assert e in Mine(before, key);
      var i :| 0 <= i < |Mine(before, key)| && Mine(before, key)[i] == e;
      assert all[i] == e && all[|all| - 1] == d;
    }
  }

  /**
   What a change-stream session delivers. Only the run's own events, in strictly increasing `seq` past the
   cursor, whatever else the stream lets through. Once the session ends at a terminal event, or has consumed
   the stream, it has delivered exactly what the log owes if and only if the backlog was covered when the
   stream was opened.
   */
  ghost predicate Delivers(key: Key, afterSeq: int, atOpen: seq<EventDoc>, final: seq<EventDoc>, stream: seq<Option<EventDoc>>, got: seq<EventDoc>, ended: bool)
    requires atOpen <= final
  {
    && (forall d :: d in got ==> IsMine(key, d) && d.seqNo > afterSeq)
    && InOrder(got)
    && (Covered(atOpen, key, afterSeq) ==> got <= Wanted(final, key, afterSeq))
    && (ended || Mine(Docs(stream), key) == Mine(final[|atOpen|..], key) ==>
          (got == Wanted(final, key, afterSeq) <==> Covered(atOpen, key, afterSeq)))
  }

  /** `ChangeStreamEventBus.subscribe`: open the stream, replay, then follow. */
  method ChangeStreamSubscribe(key: Key, afterSeq: int, atOpen: seq<EventDoc>, atReplay: seq<EventDoc>, final: seq<EventDoc>, stream: seq<Option<EventDoc>>)
    returns (got: seq<EventDoc>, ended: bool)
    requires IsSession(key, atOpen, atReplay, final, stream)
    ensures Delivers(key, afterSeq, atOpen, final, stream, got, ended)
  {
    var page := ReplayPage(atReplay, key, afterSeq);
    PageOfFinal(key, atOpen, atReplay, final, afterSeq);
    assert [] + page == page;
    var lastSeq;
    got, lastSeq, ended := DeliverPage(final, key, afterSeq, page, []);
    if ended {
      AfterReplayEnded(key, afterSeq, atOpen, final, stream, page, got);
    } else {
      got, ended := FollowFrom(key, afterSeq, atOpen, final, stream, page);
    }
  }

  method FollowFrom(key: Key, afterSeq: int, ghost atOpen: seq<EventDoc>, ghost final: seq<EventDoc>, stream: seq<Option<EventDoc>>, page: seq<EventDoc>)
    returns (got: seq<EventDoc>, ended: bool)
    requires atOpen <= final && InOrder(Mine(final, key)) && Mine(Docs(stream), key) <= Mine(final[|atOpen|..], key)
    requires IsFirstPage(key, afterSeq, atOpen, final, page) && NoTerminal(page)
    ensures Delivers(key, afterSeq, atOpen, final, stream, got, ended)
  {
    StreamPartInOrder(key, atOpen, final, Mine(Docs(stream), key));
    var used;
    got, ended, used := Follow(key, afterSeq, stream, page);
    FollowedSession(key, afterSeq, atOpen, final, stream, page, got, ended, used);
  }

  lemma FollowedSession(key: Key, afterSeq: int, atOpen: seq<EventDoc>, final: seq<EventDoc>, stream: seq<Option<EventDoc>>,
                        page: seq<EventDoc>, got: seq<EventDoc>, ended: bool, used: nat)
    requires atOpen <= final && InOrder(Mine(final, key)) && Mine(Docs(stream), key) <= Mine(final[|atOpen|..], key)
    requires IsFirstPage(key, afterSeq, atOpen, final, page) && NoTerminal(page)
    requires used <= |stream| && (!ended ==> used == |stream|)
    requires got == page + After(Mine(Docs(stream[..used]), key), CursorAfter(page, afterSeq))
    requires EndsWell(got, ended)
    ensures Delivers(key, afterSeq, atOpen, final, stream, got, ended)
  {
    var tail := After(Mine(Docs(stream[..used]), key), CursorAfter(page, afterSeq));
    var later := Mine(final[|atOpen|..], key);
    TailOfStream(key, later, stream, used, CursorAfter(page, afterSeq));
    assert got == page + tail && EndsWell(page + tail, ended);
    assert Followed(key, atOpen, final, afterSeq, page, tail, ended);
    AfterFollow(key, afterSeq, atOpen, final, stream, page, tail, ended);
  }

  /** A session that ended did so at a terminal event, its first; one that did not has met none. */
  ghost predicate EndsWell(got: seq<EventDoc>, ended: bool) {
    if ended then got != [] && IsTerminal(got[|got| - 1]) && NoTerminal(got[..|got| - 1]) else NoTerminal(got)
  }

  /** The replay page as the final log sees it. */
  ghost predicate IsFirstPage(key: Key, afterSeq: int, atOpen: seq<EventDoc>, final: seq<EventDoc>, page: seq<EventDoc>) {
    && page <= After(Mine(final, key), afterSeq)
    && (|After(Mine(atOpen, key), afterSeq)| <= REPLAY_LIMIT ==> |After(Mine(atOpen, key), afterSeq)| <= |page|)
    && (|After(Mine(atOpen, key), afterSeq)| > REPLAY_LIMIT ==> page == After(Mine(atOpen, key), afterSeq)[..REPLAY_LIMIT])
  }

  lemma AfterReplayEnded(key: Key, afterSeq: int, atOpen: seq<EventDoc>, final: seq<EventDoc>, stream: seq<Option<EventDoc>>, page: seq<EventDoc>, got: seq<EventDoc>)
    requires atOpen <= final && InOrder(Mine(final, key)) && IsFirstPage(key, afterSeq, atOpen, final, page)
    requires got <= page && got != [] && IsTerminal(got[|got| - 1]) && got == Wanted(final, key, afterSeq)
    ensures Delivers(key, afterSeq, atOpen, final, stream, got, true)
  {
    ReplayEnded(key, atOpen, afterSeq, page, got);
    GotIsOrdered(key, final, afterSeq, got);
  }

  lemma AfterFollow(key: Key, afterSeq: int, atOpen: seq<EventDoc>, final: seq<EventDoc>, stream: seq<Option<EventDoc>>,
                    page: seq<EventDoc>, tail: seq<EventDoc>, ended: bool)
    requires Followed(key, atOpen, final, afterSeq, page, tail, ended)
    requires !ended && Mine(Docs(stream), key) == Mine(final[|atOpen|..], key) ==>
      tail == After(Mine(final[|atOpen|..], key), CursorAfter(page, afterSeq))
    ensures Delivers(key, afterSeq, atOpen, final, stream, page + tail, ended)
  {
    SessionResult(key, atOpen, final, afterSeq, page, tail, ended);
  }

  lemma TailOfStream(key: Key, later: seq<EventDoc>, stream: seq<Option<EventDoc>>, used: nat, c: int)
    requires used <= |stream| && Mine(Docs(stream), key) <= later
    ensures After(Mine(Docs(stream[..used]), key), c) <= After(later, c)
    ensures used == |stream| && Mine(Docs(stream), key) == later ==> After(Mine(Docs(stream[..used]), key), c) == After(later, c)
  {
    DocsPrefix(stream, used);
    AfterGrows(Docs(stream[..used]), Docs(stream), key, c);
    AfterPrefix(Mine(Docs(stream), key), later, c);
    if used == |stream| {
      assert stream[..used] == stream;
    }
  }

  lemma StreamPartInOrder(key: Key, atOpen: seq<EventDoc>, final: seq<EventDoc>, part: seq<EventDoc>)
    requires atOpen <= final && InOrder(Mine(final, key)) && part <= Mine(final[|atOpen|..], key)
    ensures InOrder(part)
  {
    assert final == atOpen + final[|atOpen|..];
    MineAppend(atOpen, final[|atOpen|..], key);
    var n := |Mine(atOpen, key)|;
    assert forall i :: 0 <= i < |part| ==> part[i] == Mine(final, key)[n + i];
  }

  lemma GotIsOrdered(key: Key, final: seq<EventDoc>, afterSeq: int, got: seq<EventDoc>)
    requires InOrder(Mine(final, key)) && got <= After(Mine(final, key), afterSeq)
    ensures InOrder(got) && forall d :: d in got ==> IsMine(key, d) && d.seqNo > afterSeq
  {
    FilterInOrder(Mine(final, key), Later(afterSeq));
    var all := After(Mine(final, key), afterSeq);
    assert forall i :: 0 <= i < |got| ==> got[i] == all[i];
    forall d | d in got
      ensures IsMine(key, d) && d.seqNo > afterSeq
    {
      assert d in all && d in Mine(final, key);
    }
  }

  /** A replay that met a terminal event was covered. */
  lemma ReplayEnded(key: Key, atOpen: seq<EventDoc>, afterSeq: int, page: seq<EventDoc>, got: seq<EventDoc>)
    requires |After(Mine(atOpen, key), afterSeq)| > REPLAY_LIMIT ==> page == After(Mine(atOpen, key), afterSeq)[..REPLAY_LIMIT]
    requires got <= page && got != [] && IsTerminal(got[|got| - 1])
    ensures Covered(atOpen, key, afterSeq)
  {
    assert page[|got| - 1] == got[|got| - 1];
  }

  /** Where a followed session stands: a replay page and the part of the stream it consumed. */
  ghost predicate Followed(key: Key, atOpen: seq<EventDoc>, final: seq<EventDoc>, afterSeq: int, page: seq<EventDoc>, tail: seq<EventDoc>, ended: bool) {
    && atOpen <= final && InOrder(Mine(final, key))
    && IsFirstPage(key, afterSeq, atOpen, final, page) && NoTerminal(page)
    && tail <= After(Mine(final[|atOpen|..], key), CursorAfter(page, afterSeq))
    && EndsWell(page + tail, ended)
  }

  lemma CoveredResult(key: Key, atOpen: seq<EventDoc>, final: seq<EventDoc>, afterSeq: int, page: seq<EventDoc>, tail: seq<EventDoc>, ended: bool)
    requires Followed(key, atOpen, final, afterSeq, page, tail, ended) && Covered(atOpen, key, afterSeq)
    ensures page + tail <= Wanted(final, key, afterSeq)
    ensures ended || tail == After(Mine(final[|atOpen|..], key), CursorAfter(page, afterSeq)) ==> page + tail == Wanted(final, key, afterSeq)
  {
    var got, all := page + tail, After(Mine(final, key), afterSeq);
    StreamBringsTheRest(key, atOpen, final, afterSeq, page);
    assert got <= all;
    if ended {
      EndsAtTerminal(got, all);
    } else {
      CaughtUp(final, key, afterSeq, got);
    }
  }

  lemma UncoveredResult(key: Key, atOpen: seq<EventDoc>, final: seq<EventDoc>, afterSeq: int, page: seq<EventDoc>, tail: seq<EventDoc>, ended: bool)
    requires Followed(key, atOpen, final, afterSeq, page, tail, ended) && !Covered(atOpen, key, afterSeq)
    ensures page + tail != Wanted(final, key, afterSeq)
  {
    var got, whole := page + tail, After(Mine(final[|atOpen|..], key), CursorAfter(page, afterSeq));
    forall i | |page| <= i < |got|
      ensures got[i] in Mine(final[|atOpen|..], key)
    {
      assert got[i] == tail[i - |page|] == whole[i - |page|];
      assert got[i] in whole;
    }
    UncoveredIsLost(key, atOpen, final, afterSeq, got, page);
  }

  lemma SessionResult(key: Key, atOpen: seq<EventDoc>, final: seq<EventDoc>, afterSeq: int, page: seq<EventDoc>, tail: seq<EventDoc>, ended: bool)
    requires Followed(key, atOpen, final, afterSeq, page, tail, ended)
    ensures forall d :: d in page + tail ==> IsMine(key, d) && d.seqNo > afterSeq
    ensures InOrder(page + tail)
    ensures Covered(atOpen, key, afterSeq) ==> page + tail <= Wanted(final, key, afterSeq)
    ensures ended || tail == After(Mine(final[|atOpen|..], key), CursorAfter(page, afterSeq)) ==>
      (page + tail == Wanted(final, key, afterSeq) <==> Covered(atOpen, key, afterSeq))
  {
    PagesJoin(key, atOpen, final, afterSeq, page, tail);
    if Covered(atOpen, key, afterSeq) {
      CoveredResult(key, atOpen, final, afterSeq, page, tail, ended);
    } else {
      UncoveredResult(key, atOpen, final, afterSeq, page, tail, ended);
    }
  }

  lemma AfterPrefix(docs: seq<EventDoc>, more: seq<EventDoc>, cursor: int)
    requires docs <= more
    ensures After(docs, cursor) <= After(more, cursor)
  {
    assert more == docs + more[|docs|..];
    FilterAppend(docs, more[|docs|..], Later(cursor));
  }

  /** A page and a later part of the run's events past its end are in order together. */
  lemma PagesJoin(key: Key, atOpen: seq<EventDoc>, final: seq<EventDoc>, afterSeq: int, page: seq<EventDoc>, tail: seq<EventDoc>)
    requires atOpen <= final && InOrder(Mine(final, key)) && page <= After(Mine(final, key), afterSeq)
    requires tail <= After(Mine(final[|atOpen|..], key), CursorAfter(page, afterSeq))
    ensures InOrder(page + tail)
    ensures forall d :: d in page + tail ==> IsMine(key, d) && d.seqNo > afterSeq
  {
    var c, later := CursorAfter(page, afterSeq), final[|atOpen|..];
    GotIsOrdered(key, final, afterSeq, page);
    StreamPartInOrder(key, atOpen, final, Mine(later, key));
    GotIsOrdered(key, later, c, tail);
    if page != [] {
      assert page[|page| - 1] in page;
    }
    forall i, j | 0 <= i < j < |page + tail|
      ensures (page + tail)[i].seqNo < (page + tail)[j].seqNo
    {
      if i < |page| <= j {
        assert page[i].seqNo <= page[|page| - 1].seqNo;
        assert tail[j - |page|] in tail;
      }
    }
  }
}
