/**
 What the response cache does serve.

 An entry that was stored, has not expired, was not wiped, replaced or pushed out, is found by every reader entitled to
 it. What pushes an entry out is counted: it takes as many later stores as the cache holds entries.
 */
module CacheHits {
  import opened Options
  import opened Seqs
  import opened ResponseCache

  ghost predicate KeysDiffer(slots: seq<Slot>) {
    forall i, j :: 0 <= i < j < |slots| ==> slots[i].key != slots[j].key
  }

  // ---- No two entries under one key ----

  lemma PutKeepsKeys(slots: seq<Slot>, slot: Slot)
    requires KeysDiffer(slots)
    ensures KeysDiffer(Put(slots, slot))
  {
    if IndexOf(slots, slot.key).None? {
      forall i | 0 <= i < |slots|
        ensures slots[i].key != slot.key
      {
        assert slots[i] in slots;
      }
    }
  }

  lemma {:induction false} FilterKeepsKeys(slots: seq<Slot>, p: Slot -> bool)
    requires KeysDiffer(slots)
    ensures KeysDiffer(Filter(slots, p))
  {
    if slots != [] {
      FilterKeepsKeys(slots[1..], p);
      var rest := Filter(slots[1..], p);
      forall j | 0 <= j < |rest|
        ensures rest[j].key != slots[0].key
      {
        assert rest[j] in slots[1..];
      }
    }
  }

  lemma NextKeepsKeys(slots: seq<Slot>, maxEntries: int, op: Op)
    requires KeysDiffer(slots)
    ensures KeysDiffer(Next(slots, maxEntries, op))
  {
    match op
    case Get(scope, verb, now) =>
      LookKeepsKeys(slots, CacheKeyFor(scope, verb, Public), now);
      LookKeepsKeys(Look(slots, CacheKeyFor(scope, verb, Public), now).slots, CacheKeyFor(scope, verb, Private), now);
    case Set(_, _, _, _, _, _) =>
      var room := if |slots| >= maxEntries && slots != [] then slots[1..] else slots;
      RoomKeepsKeys(slots, room);
      PutKeepsKeys(room, SlotOf(op));
    case Invalidate(workspace, binding) => FilterKeepsKeys(slots, OutsideBinding(workspace, binding));
    case Clear =>
  }

  lemma RoomKeepsKeys(slots: seq<Slot>, room: seq<Slot>)
    requires KeysDiffer(slots) && (room == slots || (slots != [] && room == slots[1..]))
    ensures KeysDiffer(room)
  {
  }

  lemma LookKeepsKeys(slots: seq<Slot>, key: string, now: real)
    requires KeysDiffer(slots)
    ensures KeysDiffer(Look(slots, key, now).slots)
  {
    var after := Look(slots, key, now).slots;
    if after != slots {
      var d := IndexOf(slots, key).value;
      assert forall p :: 0 <= p < |after| ==> after[p] == slots[if p < d then p else p + 1];
    }
  }

  lemma {:induction false} KeysAlwaysDiffer(maxEntries: int, states: seq<seq<Slot>>, ops: seq<Op>, n: nat)
    requires IsRun(maxEntries, states, ops) && n < |states|
    ensures KeysDiffer(states[n])
    decreases n
  {
    if n > 0 {
      KeysAlwaysDiffer(maxEntries, states, ops, n - 1);
      assert states[n - 1 + 1] == Next(states[n - 1], maxEntries, ops[n - 1]);
      NextKeepsKeys(states[n - 1], maxEntries, ops[n - 1]);
    }
  }

  // ---- One read ----

  /** An entry under the key that has not expired. */
  ghost predicate IsLive(slots: seq<Slot>, key: string, now: real, value: string) {
    exists p :: 0 <= p < |slots| && slots[p].key == key && now < slots[p].entry.expiresAt && slots[p].entry.value == value
  }

  lemma PlaceOf(slots: seq<Slot>, p: nat)
    requires KeysDiffer(slots) && p < |slots|
    ensures IndexOf(slots, slots[p].key) == Some(p)
  {
    assert slots[p] in slots;
  }

  lemma LookFinds(slots: seq<Slot>, key: string, now: real, value: string)
    requires KeysDiffer(slots)
    ensures Look(slots, key, now).hit == Some(value) <==> IsLive(slots, key, now, value)
  {
    if p :| 0 <= p < |slots| && slots[p].key == key {
      PlaceOf(slots, p);
    }
  }

  /** A lookup leaves what has not expired where it can be found. */
  lemma LookKeepsLive(slots: seq<Slot>, tried: string, now: real, key: string, value: string)
    requires KeysDiffer(slots)
    ensures IsLive(Look(slots, tried, now).slots, key, now, value) <==> IsLive(slots, key, now, value)
  {
    var after := Look(slots, tried, now).slots;
    if after != slots {
      var d := IndexOf(slots, tried).value;
      assert forall p :: 0 <= p < d ==> after[p] == slots[p];
      assert forall p :: d <= p < |after| ==> after[p] == slots[p + 1];
      if IsLive(slots, key, now, value) {
        var p :| 0 <= p < |slots| && slots[p].key == key && now < slots[p].entry.expiresAt && slots[p].entry.value == value;
        assert after[if p < d then p else p - 1] == slots[p];
      }
    }
  }

  /** What a read returns: the live entry under the shared key, or failing that the one under the reader's own, or nothing. */
  lemma ReadFinds(slots: seq<Slot>, scope: Scope, verb: string, now: real, value: string)
    requires KeysDiffer(slots)
    ensures Read(slots, scope, verb, now).hit == Some(value) <==>
      var shared, own := CacheKeyFor(scope, verb, Public), CacheKeyFor(scope, verb, Private);
      IsLive(slots, shared, now, value) || ((forall other :: !IsLive(slots, shared, now, other)) && IsLive(slots, own, now, value))
  {
    var shared, own := CacheKeyFor(scope, verb, Public), CacheKeyFor(scope, verb, Private);
    var first := Look(slots, shared, now);
    forall other
      ensures first.hit == Some(other) <==> IsLive(slots, shared, now, other)
    {
      LookFinds(slots, shared, now, other);
    }
    LookKeepsKeys(slots, shared, now);
    LookKeepsLive(slots, shared, now, own, value);
    LookFinds(first.slots, own, now, value);
  }

  // ---- How an entry lasts ----

  /** The operation does not touch the entry: it is no expired read, no store under its key and no wipe of its binding. */
  ghost predicate Spares(op: Op, slot: Slot) {
    match op
    case Get(_, _, now) => now < slot.entry.expiresAt
    case Set(_, _, _, ttlMs, _, _) => ClampTtl(ttlMs) == 0.0 || SlotOf(op).key != slot.key
    case Invalidate(workspace, binding) => !StartsWith(slot.key, BindingPrefix(workspace, binding))
    case Clear => false
  }

  predicate Stores(op: Op) {
    op.Set? && ClampTtl(op.ttlMs) > 0.0
  }

  /** The entry is there, with at most this many behind it. */
  ghost predicate StandsWithin(slots: seq<Slot>, slot: Slot, behind: int) {
    exists p :: 0 <= p < |slots| && slots[p] == slot && |slots| - 1 - p <= behind
  }

  lemma LookSpares(slots: seq<Slot>, tried: string, now: real, slot: Slot, behind: int)
    requires StandsWithin(slots, slot, behind) && now < slot.entry.expiresAt
    ensures StandsWithin(Look(slots, tried, now).slots, slot, behind)
  {
    var after := Look(slots, tried, now).slots;
    if after != slots {
      var d := IndexOf(slots, tried).value;
      var p :| 0 <= p < |slots| && slots[p] == slot && |slots| - 1 - p <= behind;
      assert after[if p < d then p else p - 1] == slot;
    }
  }

  lemma FilterSpares(slots: seq<Slot>, keep: Slot -> bool, slot: Slot, behind: int)
    requires StandsWithin(slots, slot, behind) && keep(slot)
    ensures StandsWithin(Filter(slots, keep), slot, behind)
  {
    var p :| 0 <= p < |slots| && slots[p] == slot && |slots| - 1 - p <= behind;
    assert slots == slots[..p] + ([slot] + slots[p + 1..]);
    FilterAppend(slots[..p], [slot] + slots[p + 1..], keep);
    assert ([slot] + slots[p + 1..])[1..] == slots[p + 1..];
    assert Filter(slots, keep)[|Filter(slots[..p], keep)|] == slot;
  }

  /** A store pushes the first entry out of a full cache, and adds at most one behind. */
  lemma StoreSpares(slots: seq<Slot>, maxEntries: int, added: Slot, slot: Slot, behind: int)
    requires StandsWithin(slots, slot, behind) && added.key != slot.key && behind < maxEntries - 1
    ensures StandsWithin(Put(if |slots| >= maxEntries && slots != [] then slots[1..] else slots, added), slot, behind + 1)
  {
    var p :| 0 <= p < |slots| && slots[p] == slot && |slots| - 1 - p <= behind;
    var room := if |slots| >= maxEntries && slots != [] then slots[1..] else slots;
    var q := if |slots| >= maxEntries then p - 1 else p;
    assert room[q] == slot;
    assert Put(room, added)[q] == slot;
  }

  lemma StepSpares(slots: seq<Slot>, maxEntries: int, op: Op, slot: Slot, behind: int)
    requires StandsWithin(slots, slot, behind) && Spares(op, slot) && (Stores(op) ==> behind < maxEntries - 1)
    ensures StandsWithin(Next(slots, maxEntries, op), slot, behind + if Stores(op) then 1 else 0)
  {
    match op
    case Get(scope, verb, now) =>
      LookSpares(slots, CacheKeyFor(scope, verb, Public), now, slot, behind);
      LookSpares(Look(slots, CacheKeyFor(scope, verb, Public), now).slots, CacheKeyFor(scope, verb, Private), now, slot, behind);
    case Set(_, _, _, _, _, _) =>
      if Stores(op) {
        StoreSpares(slots, maxEntries, SlotOf(op), slot, behind);
      }
    case Invalidate(workspace, binding) => FilterSpares(slots, OutsideBinding(workspace, binding), slot, behind);
    case Clear =>
  }

  /** How many of the operations from m up to n store something. */
  function StoresIn(ops: seq<Op>, m: nat, n: nat): nat
    requires m <= n <= |ops|
    decreases n - m
  {
    if m == n then 0 else StoresIn(ops, m, n - 1) + if Stores(ops[n - 1]) then 1 else 0
  }

  /** An entry no operation touches stays, as long as the stores behind it do not fill the cache. */
  lemma {:induction false} EntryLasts(maxEntries: int, states: seq<seq<Slot>>, ops: seq<Op>, m: nat, n: nat, slot: Slot, behind: int)
    requires IsRun(maxEntries, states, ops) && m <= n < |states| && StandsWithin(states[m], slot, behind)
    requires forall k :: m <= k < n ==> Spares(ops[k], slot)
    requires behind + StoresIn(ops, m, n) < maxEntries
    ensures StandsWithin(states[n], slot, behind + StoresIn(ops, m, n))
    decreases n - m
  {
    if m < n {
      EntryLasts(maxEntries, states, ops, m, n - 1, slot, behind);
      EntryLastsOne(maxEntries, states, ops, n - 1, slot, behind + StoresIn(ops, m, n - 1));
    }
  }

  lemma EntryLastsOne(maxEntries: int, states: seq<seq<Slot>>, ops: seq<Op>, n: nat, slot: Slot, behind: int)
    requires IsRun(maxEntries, states, ops) && n < |ops| && StandsWithin(states[n], slot, behind)
    requires Spares(ops[n], slot) && (Stores(ops[n]) ==> behind < maxEntries - 1)
    ensures StandsWithin(states[n + 1], slot, behind + if Stores(ops[n]) then 1 else 0)
  {
    assert states[n + 1] == Next(states[n], maxEntries, ops[n]);
    StepSpares(states[n], maxEntries, ops[n], slot, behind);
  }

  // ---- Who finds it ----

  /** A reader entitled to an entry looks under its key. */
  lemma EntitledLooks(reader: Scope, op: Op)
    requires op.Set? && Entitled(reader, op)
    ensures SlotOf(op).key == CacheKeyFor(reader, op.verb, Public) || SlotOf(op).key == CacheKeyFor(reader, op.verb, Private)
    ensures op.rawScope == Some("public") || op.scope.WorkspaceScope? ==> SlotOf(op).key == CacheKeyFor(reader, op.verb, Public)
  {
  }

  /** A later store takes the entry's place: same workspace, binding and method, filed for the same owner. */
  ghost predicate Replaces(op: Op, stored: Op)
    requires stored.Set?
  {
    && Stores(op) && op.scope.workspace == stored.scope.workspace && op.scope.binding == stored.scope.binding && op.verb == stored.verb
    && FiledUnder(op.scope, ParseCacheScope(op.rawScope)) == FiledUnder(stored.scope, ParseCacheScope(stored.rawScope))
  }

  /** The operation leaves what was stored alone, told by the operations' own fields. */
  ghost predicate LeavesAlone(op: Op, stored: Op)
    requires stored.Set? && stored.ttlMs.Some?
  {
    && !Wipes(op, stored.scope) && !Replaces(op, stored)
    && (op.Get? ==> op.now < stored.now + stored.ttlMs.value && op.now < stored.now + 600000.0)
  }

  lemma AloneIsSpared(op: Op, stored: Op)
    requires stored.Set? && CleanScope(stored.scope) && stored.ttlMs.Some? && stored.ttlMs.value > 0.0
    requires CleanOp(op) && LeavesAlone(op, stored)
    ensures Spares(op, SlotOf(stored))
  {
    match op
    case Set(scope, verb, _, _, rawScope, _) =>
      if Stores(op) && SlotOf(op).key == SlotOf(stored).key {
        KeysTellApart(scope, verb, ParseCacheScope(rawScope), stored.scope, stored.verb, ParseCacheScope(stored.rawScope));
      }
    case Invalidate(workspace, binding) =>
      PrefixIsExact(stored.scope, stored.verb, ParseCacheScope(stored.rawScope), workspace, binding);
    case _ =>
  }

  /** How many entries were stored behind the one under the key since it was first stored. */
  ghost function Behind(slots: seq<Slot>, key: string): int {
    match IndexOf(slots, key)
    case Some(p) => |slots| - 1 - p
    case None => 0
  }

  lemma StoredStands(slots: seq<Slot>, maxEntries: int, op: Op)
    requires Stores(op)
    ensures var after := Next(slots, maxEntries, op); StandsWithin(after, SlotOf(op), Behind(after, SlotOf(op).key))
    ensures (forall s :: s in slots ==> s.key != SlotOf(op).key) ==> Behind(Next(slots, maxEntries, op), SlotOf(op).key) == 0
  {
    var room, slot := if |slots| >= maxEntries && slots != [] then slots[1..] else slots, SlotOf(op);
    var after := Put(room, slot);
    match IndexOf(room, slot.key)
    case Some(p) =>
      FirstPlace(room, slot, p);
    case None =>
      AppendedPlace(room, slot);
  }

  lemma {:induction false} FirstPlace(slots: seq<Slot>, slot: Slot, p: nat)
    requires IndexOf(slots, slot.key) == Some(p)
    ensures IndexOf(slots[p := slot], slot.key) == Some(p)
  {
    if slots[0].key != slot.key {
      FirstPlace(slots[1..], slot, p - 1);
      assert slots[p := slot][1..] == slots[1..][p - 1 := slot];
    }
  }

  lemma {:induction false} AppendedPlace(slots: seq<Slot>, slot: Slot)
    requires IndexOf(slots, slot.key).None?
    ensures IndexOf(slots + [slot], slot.key) == Some(|slots|)
  {
    if slots != [] {
      assert slots[0] in slots;
      AppendedPlace(slots[1..], slot);
      assert (slots + [slot])[1..] == slots[1..] + [slot];
    }
  }

  /**
   Over every run: what operation i stored is served to every entitled reader at n, unless in between it expired, was
   wiped or replaced, or as many entries as the cache holds came to stand behind it. A shared entry is served itself; one
   filed for its owner alone gives way only to a live shared one.
   */
  lemma FreshEntryIsServed(maxEntries: int, states: seq<seq<Slot>>, ops: seq<Op>, i: nat, n: nat)
    requires IsRun(maxEntries, states, ops) && i < n < |ops|
    requires ops[i].Set? && ops[i].ttlMs.Some? && ops[i].ttlMs.value > 0.0
    requires forall k :: i < k <= n ==> LeavesAlone(ops[k], ops[i])
    requires Behind(states[i + 1], SlotOf(ops[i]).key) + StoresIn(ops, i + 1, n) < maxEntries
    requires ops[n].Get? && ops[n].verb == ops[i].verb && Entitled(ops[n].scope, ops[i])
    ensures var hit := Read(states[n], ops[n].scope, ops[n].verb, ops[n].now).hit;
      && hit.Some?
      && (hit.value == ops[i].value || IsLive(states[n], CacheKeyFor(ops[n].scope, ops[n].verb, Public), ops[n].now, hit.value))
      && (ops[i].rawScope == Some("public") || ops[i].scope.WorkspaceScope? ==> hit.value == ops[i].value)
  {
    var stored, reader, slot := ops[i], ops[n], SlotOf(ops[i]);
    assert CleanOp(stored) && states[i + 1] == Next(states[i], maxEntries, stored);
    StoredStands(states[i], maxEntries, stored);
    forall k | i + 1 <= k < n
      ensures Spares(ops[k], slot)
    {
      AloneIsSpared(ops[k], stored);
    }
    var behind := Behind(states[i + 1], slot.key);
    EntryLasts(maxEntries, states, ops, i + 1, n, slot, behind);
    KeysAlwaysDiffer(maxEntries, states, ops, n);
    ServedAt(states[n], stored, reader);
  }

  lemma ServedAt(slots: seq<Slot>, stored: Op, reader: Op)
    requires KeysDiffer(slots) && stored.Set? && SlotOf(stored) in slots && reader.Get? && reader.verb == stored.verb
    requires Entitled(reader.scope, stored) && reader.now < SlotOf(stored).entry.expiresAt
    ensures var hit := Read(slots, reader.scope, reader.verb, reader.now).hit;
      && hit.Some?
      && (hit.value == stored.value || IsLive(slots, CacheKeyFor(reader.scope, reader.verb, Public), reader.now, hit.value))
      && (stored.rawScope == Some("public") || stored.scope.WorkspaceScope? ==> hit.value == stored.value)
  {
    var slot := SlotOf(stored);
    var p :| 0 <= p < |slots| && slots[p] == slot;
    EntitledLooks(reader.scope, stored);
    assert IsLive(slots, slot.key, reader.now, stored.value);
    ReadFinds(slots, reader.scope, reader.verb, reader.now, stored.value);
    var shared := CacheKeyFor(reader.scope, reader.verb, Public);
    if other :| IsLive(slots, shared, reader.now, other) {
      ReadFinds(slots, reader.scope, reader.verb, reader.now, other);
    }
  }
}
