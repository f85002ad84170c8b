/**
 Which minutes a cron schedule is due at.

 Instants are milliseconds. The zone's wall clock is a parameter: whatever it shows, the walk returns, in
 order, the first matching minutes of the window it may look back over, and a caller that resumes from the
 last minute it was given sees every match exactly once.
 */
module Cron {

  datatype WallClock = WallClock(minute: int, hour: int, dayOfMonth: int, month: int, dayOfWeek: int)

  datatype CronFields = CronFields(
    minute: set<int>, hour: set<int>, dayOfMonth: set<int>, month: set<int>, dayOfWeek: set<int>,
    restrictsDayOfMonth: bool, restrictsDayOfWeek: bool)

  const MINUTE_MS := 60_000
  const DAY_MINUTES := 1440

  /** When both day fields are restricted either one is enough. */
  predicate Matches(fields: CronFields, now: WallClock) {
    && now.minute in fields.minute && now.hour in fields.hour && now.month in fields.month
    && if fields.restrictsDayOfMonth && fields.restrictsDayOfWeek then now.dayOfMonth in fields.dayOfMonth || now.dayOfWeek in fields.dayOfWeek
       else if fields.restrictsDayOfMonth then now.dayOfMonth in fields.dayOfMonth
       else if fields.restrictsDayOfWeek then now.dayOfWeek in fields.dayOfWeek
       else true
  }

  /** The day rule in one line: some restricted day field matches, or none is restricted. */
  lemma DayRule(fields: CronFields, now: WallClock)
    ensures Matches(fields, now) <==>
      && now.minute in fields.minute && now.hour in fields.hour && now.month in fields.month
      && (|| (fields.restrictsDayOfMonth && now.dayOfMonth in fields.dayOfMonth)
          || (fields.restrictsDayOfWeek && now.dayOfWeek in fields.dayOfWeek)
          || (!fields.restrictsDayOfMonth && !fields.restrictsDayOfWeek))
  {
  }

  /** What the walk looks at: an instant matches or it does not. */
  function Due(fields: CronFields, clock: int -> WallClock): int -> bool {
    (at: int) => Matches(fields, clock(at))
  }

  /** The whole minutes before or at an instant, rounding down. */
  function MinuteOf(t: int): int {
    t / MINUTE_MS
  }

  /** The instants of the matching minutes from one minute through another. */
  function MatchesIn(due: int -> bool, from: int, last: int): seq<int>
    decreases last - from
  {
    if from > last then []
    else if due(from * MINUTE_MS) then [from * MINUTE_MS] + MatchesIn(due, from + 1, last)
    else MatchesIn(due, from + 1, last)
  }

  /** Where the walk starts: after the last minute considered, or as far back as the cap allows. */
  function StartMinute(after: int, until: int, cap: int): int {
    var first, earliest := MinuteOf(after) + 1, MinuteOf(until) - cap * DAY_MINUTES;
    if first < earliest then earliest else first
  }

  function First<T>(s: seq<T>, n: int): seq<T> {
    if n <= 0 then [] else if |s| <= n then s else s[..n]
  }

  /** The break comes after a push, so a cap of zero still lets one minute through. */
  function Allowance(cap: int): int {
    if cap < 1 then 1 else cap
  }

  function DueMinutes(due: int -> bool, after: int, until: int, cap: int): seq<int> {
    First(MatchesIn(due, StartMinute(after, until, cap), MinuteOf(until)), Allowance(cap))
  }

  method DueBetween(fields: CronFields, clock: int -> WallClock, after: int, until: int, cap: int) returns (found: seq<int>, ghost steps: nat)
    ensures found == DueMinutes(Due(fields, clock), after, until, cap)
    ensures cap >= 0 ==> steps <= cap * DAY_MINUTES + 1
  {
    var cursor := after / MINUTE_MS * MINUTE_MS + MINUTE_MS;
    var end := until / MINUTE_MS * MINUTE_MS;
    var earliest := end - cap * 24 * 60 * MINUTE_MS;
    if cursor < earliest {
      cursor := earliest / MINUTE_MS * MINUTE_MS;
    }
    StartIsAligned(after, until, cap);
    found, steps := WalkMinutes(fields, clock, cursor, end, cap, StartMinute(after, until, cap), MinuteOf(until));
  }

  lemma StartIsAligned(after: int, until: int, cap: int)
    ensures var first, end := after / MINUTE_MS * MINUTE_MS + MINUTE_MS, until / MINUTE_MS * MINUTE_MS;
      var earliest := end - cap * 24 * 60 * MINUTE_MS;
      && end == MinuteOf(until) * MINUTE_MS
      && (if first < earliest then earliest / MINUTE_MS * MINUTE_MS else first) == StartMinute(after, until, cap) * MINUTE_MS
  {
    var earliest := MinuteOf(until) - cap * DAY_MINUTES;
    assert until / MINUTE_MS * MINUTE_MS - cap * 24 * 60 * MINUTE_MS == earliest * MINUTE_MS;
  }

  /** The walk from one whole minute through another, until the cap is reached. */
  method WalkMinutes(fields: CronFields, clock: int -> WallClock, from: int, end: int, cap: int, ghost start: int, ghost last: int)
    returns (found: seq<int>, ghost steps: nat)
    requires from == start * MINUTE_MS && end == last * MINUTE_MS
    ensures found == First(MatchesIn(Due(fields, clock), start, last), Allowance(cap))
    ensures steps <= if start <= last then last - start + 1 else 0
  {
    ghost var due := Due(fields, clock);
    ghost var all := MatchesIn(due, start, last);
    found, steps := [], 0;
    var cursor := from;
    ghost var m := start;
    while cursor <= end
      invariant cursor == m * MINUTE_MS && start <= m && steps == m - start && (m <= last + 1 || m == start)
      invariant |found| < Allowance(cap)
      invariant found + MatchesIn(due, m, last) == all
      decreases end - cursor
    {
      steps := steps + 1;
      ghost var rest := MatchesIn(due, m + 1, last);
      if Matches(fields, clock(cursor)) {
        assert due(cursor) && MatchesIn(due, m, last) == [cursor] + rest;
        assert found + ([cursor] + rest) == (found + [cursor]) + rest;
        FirstOf(found + [cursor], rest, all, Allowance(cap));
        found := found + [cursor];
        if |found| >= cap {
          return;
        }
      } else {
        assert !due(cursor) && MatchesIn(due, m, last) == rest;
      }
      cursor := cursor + MINUTE_MS;
      m := m + 1;
    }
    assert found + [] == found;
  }

  lemma FirstOf(found: seq<int>, rest: seq<int>, all: seq<int>, n: int)
    requires all == found + rest
    ensures |found| == n > 0 ==> First(all, n) == found
  {
  }

  // ---- What is listed ----

  /** The list holds exactly the matching minutes of the window, in order. */
  lemma {:induction false} MatchesInIsExact(due: int -> bool, from: int, last: int)
    ensures forall t :: t in MatchesIn(due, from, last) <==> t % MINUTE_MS == 0 && from <= MinuteOf(t) <= last && due(t)
    ensures forall i, j :: 0 <= i < j < |MatchesIn(due, from, last)| ==> MatchesIn(due, from, last)[i] < MatchesIn(due, from, last)[j]
    decreases last - from
  {
    if from <= last {
      MatchesInIsExact(due, from + 1, last);
      var rest := MatchesIn(due, from + 1, last);
      forall j | 0 <= j < |rest|
        ensures from * MINUTE_MS < rest[j]
      {
        assert rest[j] in rest;
      }
    }
  }

  /** A whole minute of `(after, until]`, not more than the cap in days before its end. */
  ghost predicate InWindow(t: int, after: int, until: int, cap: int) {
    t % 60_000 == 0 && after / 60_000 < t / 60_000 <= until / 60_000 && until / 60_000 - cap * 1440 <= t / 60_000
  }

  /**
   What `dueBetween` lists: strictly increasing whole minutes of the window at which the wall clock matches, at most
   the cap of them, and one even for a cap below one; a matching minute of the window that is not more than the cap in
   days before its end is left out only when so many were listed before it.
   */
  lemma DueMinutesAreTheFirst(fields: CronFields, clock: int -> WallClock, after: int, until: int, cap: int)
    ensures var found, n := DueMinutes(Due(fields, clock), after, until, cap), if cap < 1 then 1 else cap;
      && |found| <= n
      && (forall i, j :: 0 <= i < j < |found| ==> found[i] < found[j])
      && (forall t :: t in found ==> InWindow(t, after, until, cap) && Matches(fields, clock(t)))
      && (forall t :: InWindow(t, after, until, cap) && Matches(fields, clock(t)) && t !in found ==> |found| == n && found[n - 1] < t)
  {
    var n := if cap < 1 then 1 else cap;
    var due, start, end := Due(fields, clock), StartMinute(after, until, cap), MinuteOf(until);
    var found, all := DueMinutes(due, after, until, cap), MatchesIn(due, start, end);
    MatchesInIsExact(due, start, end);
    assert forall i :: 0 <= i < |found| ==> found[i] == all[i] && found[i] in found;
    forall t | t in found
      ensures t in all
    {
      var i :| 0 <= i < |found| && found[i] == t;
    }
    forall t | t in all && t !in found
      ensures |found| == n && found[n - 1] < t
    {
      var j :| 0 <= j < |all| && all[j] == t;
    }
  }

  lemma {:induction false} MatchesInSplit(due: int -> bool, from: int, mid: int, last: int)
    requires from <= mid + 1 && mid <= last
    ensures MatchesIn(due, from, last) == MatchesIn(due, from, mid) + MatchesIn(due, mid + 1, last)
    decreases mid + 1 - from
  {
    if from <= mid {
      MatchesInSplit(due, from + 1, mid, last);
    }
  }

  /** The cap reaches back over the whole window. */
  predicate WithinReach(after: int, until: int, cap: int) {
    MinuteOf(until) - cap * DAY_MINUTES <= MinuteOf(after) + 1
  }

  /** Two windows that meet list what the whole window lists, when neither is cut short. */
  lemma SplittingLosesNothing(due: int -> bool, after: int, mid: int, until: int, cap: int)
    requires after <= mid <= until && WithinReach(after, until, cap) && cap >= 1
    requires |MatchesIn(due, MinuteOf(after) + 1, MinuteOf(until))| <= cap
    ensures DueMinutes(due, after, until, cap) == DueMinutes(due, after, mid, cap) + DueMinutes(due, mid, until, cap)
  {
    MatchesInSplit(due, MinuteOf(after) + 1, MinuteOf(mid), MinuteOf(until));
  }

  /** What a caller sees that asks again from the last minute it was given, until it is given fewer than the cap. */
  ghost function Drained(due: int -> bool, after: int, until: int, cap: int): seq<int>
    requires cap >= 1
    decreases MinuteOf(until) - MinuteOf(after)
  {
    var found := DueMinutes(due, after, until, cap);
    if |found| < cap then found
    else
      LastIsLater(due, after, until, cap);
      found + Drained(due, found[|found| - 1], until, cap)
  }

  lemma LastIsLater(due: int -> bool, after: int, until: int, cap: int)
    requires cap >= 1 && DueMinutes(due, after, until, cap) != []
    ensures var found := DueMinutes(due, after, until, cap);
      MinuteOf(after) < MinuteOf(found[|found| - 1]) <= MinuteOf(until)
  {
    var found, all := DueMinutes(due, after, until, cap), MatchesIn(due, StartMinute(after, until, cap), MinuteOf(until));
    MatchesInIsExact(due, StartMinute(after, until, cap), MinuteOf(until));
    assert found[|found| - 1] == all[|found| - 1];
    assert all[|found| - 1] in all;
  }

  /** The list after its k-th element is the list of what follows that element's minute. */
  lemma {:induction false} MatchesAfter(due: int -> bool, from: int, last: int, k: nat)
    requires k < |MatchesIn(due, from, last)|
    ensures MatchesIn(due, from, last)[k + 1..] == MatchesIn(due, MinuteOf(MatchesIn(due, from, last)[k]) + 1, last)
    decreases last - from
  {
    var all, rest := MatchesIn(due, from, last), MatchesIn(due, from + 1, last);
    if due(from * MINUTE_MS) {
      if k > 0 {
        MatchesAfter(due, from + 1, last, k - 1);
        assert all[k + 1..] == rest[k..];
      }
    } else {
      MatchesAfter(due, from + 1, last, k);
    }
  }

  /** The walk that resumes from a full answer starts right after it. */
  lemma ResumesAfter(due: int -> bool, after: int, until: int, cap: int)
    requires cap >= 1 && |DueMinutes(due, after, until, cap)| >= cap
    ensures var all := MatchesIn(due, StartMinute(after, until, cap), MinuteOf(until));
      && |all| >= cap && DueMinutes(due, after, until, cap) == all[..cap]
      && StartMinute(all[cap - 1], until, cap) == MinuteOf(all[cap - 1]) + 1
  {
    var start := StartMinute(after, until, cap);
    var all := MatchesIn(due, start, MinuteOf(until));
    MatchesInIsExact(due, start, MinuteOf(until));
    assert all[..cap] == DueMinutes(due, after, until, cap);
    assert all[cap - 1] in all;
    assert start <= MinuteOf(all[cap - 1]);
  }

  /** Resuming from the last minute given lists every match from the walk's start on, exactly once and in order. */
  lemma {:induction false} ResumingLosesNothing(due: int -> bool, after: int, until: int, cap: int)
    requires cap >= 1
    ensures Drained(due, after, until, cap) == MatchesIn(due, StartMinute(after, until, cap), MinuteOf(until))
    decreases MinuteOf(until) - MinuteOf(after)
  {
    var found := DueMinutes(due, after, until, cap);
    if |found| >= cap {
      var start, end := StartMinute(after, until, cap), MinuteOf(until);
      LastIsLater(due, after, until, cap);
      ResumesAfter(due, after, until, cap);
      var last := found[cap - 1];
      MatchesAfter(due, start, end, cap - 1);
      ResumingLosesNothing(due, last, until, cap);
      var all := MatchesIn(due, start, end);
      assert all == all[..cap] + all[cap..];
    }
  }

  /** Within reach, that is every match of the window. */
  lemma ResumingListsTheWindow(due: int -> bool, after: int, until: int, cap: int)
    requires cap >= 1
    ensures WithinReach(after, until, cap) ==>
      forall t :: t in Drained(due, after, until, cap) <==> t % MINUTE_MS == 0 && MinuteOf(after) < MinuteOf(t) <= MinuteOf(until) && due(t)
    ensures forall i, j :: 0 <= i < j < |Drained(due, after, until, cap)| ==> Drained(due, after, until, cap)[i] < Drained(due, after, until, cap)[j]
  {
    ResumingLosesNothing(due, after, until, cap);
    MatchesInIsExact(due, StartMinute(after, until, cap), MinuteOf(until));
  }
}
