/**
 The scope-aware cache of discovery responses.

 Keys are strings built from a scope and a method. For identifiers without the separator the strings tell
 scopes apart, so over every run of the cache a hit can be traced to a store its reader was entitled to see.
 */
module ResponseCache {
  import opened Options
  import opened Seqs

  datatype Scope =
    | WorkspaceScope(workspace: string, binding: string)
    | UserScope(workspace: string, binding: string, user: string)

  datatype CacheScope = Public | Private | Unstated

  const SEP := "|"
  const MAX_TTL_MS: real := 600000.0

  /** Only the two words the specification defines count; anything else is not shareable. */
  function ParseCacheScope(raw: Option<string>): CacheScope {
    if raw == Some("public") then Public else if raw == Some("private") then Private else Unstated
  }

  function Owner(scope: Scope): string {
    if scope.UserScope? then "user:" + scope.user else "workspace"
  }

  function ScopeKeyString(scope: Scope): string {
    scope.workspace + (SEP + (scope.binding + (SEP + Owner(scope))))
  }

  function CacheKeyFor(scope: Scope, verb: string, cacheScope: CacheScope): string {
    var base := if cacheScope.Public? then ScopeKeyString(WorkspaceScope(scope.workspace, scope.binding)) else ScopeKeyString(scope);
    base + (SEP + verb)
  }

  /** A response that is not a number of milliseconds above zero is not cached, and none for longer than the bound. */
  function ClampTtl(ttlMs: Option<real>): (ttl: real)
    ensures 0.0 <= ttl <= MAX_TTL_MS
    ensures ttl > 0.0 <==> ttlMs.Some? && ttlMs.value > 0.0
    ensures ttl > 0.0 ==> ttl <= ttlMs.value && (ttl == ttlMs.value || ttl == 600000.0)
  {
    if ttlMs.None? || ttlMs.value <= 0.0 then 0.0 else if ttlMs.value < MAX_TTL_MS then ttlMs.value else MAX_TTL_MS
  }

  // ---- Keys tell scopes apart ----

  ghost predicate Clean(s: string) {
    '|' !in s
  }

  ghost predicate CleanScope(scope: Scope) {
    Clean(scope.workspace) && Clean(scope.binding) && (scope.UserScope? ==> Clean(scope.user))
  }

  predicate StartsWith(s: string, prefix: string) {
    |prefix| <= |s| && s[..|prefix|] == prefix
  }

  /** The text before the first separator is determined. */
  lemma {:induction false} FirstSegment(a: string, x: string, b: string, y: string)
    requires Clean(a) && Clean(b) && StartsWith(a + (SEP + x), b + (SEP + y))
    ensures a == b && StartsWith(x, y)
    decreases |a|
  {
    var s, p := a + (SEP + x), b + (SEP + y);
    assert s[0] == p[0] by {
      assert s[..|p|][0] == p[0];
    }
    assert b == "" || (p[0] == b[0] && b[0] in b);
    if a == "" {
      assert s[0] == '|';
      assert b == "";
      assert s[1..] == x && p[1..] == y;
      assert s[1..][..|y|] == s[..|p|][1..];
    } else {
      assert a[0] in a;
      assert b != "" && b[0] == a[0];
      assert s[1..] == a[1..] + (SEP + x) && p[1..] == b[1..] + (SEP + y);
      assert s[1..][..|p| - 1] == s[..|p|][1..];
      FirstSegment(a[1..], x, b[1..], y);
      assert a == [a[0]] + a[1..] && b == [b[0]] + b[1..];
    }
  }

  lemma SameSegments(a: string, x: string, b: string, y: string)
    requires Clean(a) && Clean(b) && a + (SEP + x) == b + (SEP + y)
    ensures a == b && x == y
  {
    FirstSegment(a, x, b, y);
    assert |x| == |y| && x[..|y|] == x;
  }

  /** Whose entry a response is filed as. */
  function FiledUnder(scope: Scope, cacheScope: CacheScope): string {
    if cacheScope.Public? then "workspace" else Owner(scope)
  }

  lemma KeyShape(scope: Scope, verb: string, cacheScope: CacheScope)
    ensures CacheKeyFor(scope, verb, cacheScope)
         == scope.workspace + (SEP + (scope.binding + (SEP + (FiledUnder(scope, cacheScope) + (SEP + verb)))))
  {
    var w, b, o := scope.workspace, scope.binding, FiledUnder(scope, cacheScope);
    Reassociate(w, SEP, b, SEP, o, SEP + verb);
  }

  lemma Reassociate(a: string, b: string, c: string, d: string, e: string, f: string)
    ensures (a + (b + (c + (d + e)))) + f == a + (b + (c + (d + (e + f))))
  {
  }

  lemma OwnerIsClean(scope: Scope, cacheScope: CacheScope)
    requires CleanScope(scope)
    ensures Clean(FiledUnder(scope, cacheScope))
  {
  }

  lemma OwnerInitial(scope: Scope)
    ensures Owner(scope) != "" && Owner(scope)[0] == if scope.UserScope? then 'u' else 'w'
  {
  }

  lemma OwnersTellApart(a: Scope, b: Scope)
    requires Owner(a) == Owner(b) && a.workspace == b.workspace && a.binding == b.binding
    ensures a == b
  {
    OwnerInitial(a);
    OwnerInitial(b);
    if a.UserScope? {
      assert a.user == Owner(a)[5..] && b.user == Owner(b)[5..];
    }
  }

  /** Equal keys were built for the same workspace, binding, owner and method. */
  lemma KeysTellApart(a: Scope, m: string, ca: CacheScope, b: Scope, n: string, cb: CacheScope)
    requires CleanScope(a) && CleanScope(b) && CacheKeyFor(a, m, ca) == CacheKeyFor(b, n, cb)
    ensures a.workspace == b.workspace && a.binding == b.binding && m == n && FiledUnder(a, ca) == FiledUnder(b, cb)
  {
    KeyShape(a, m, ca);
    KeyShape(b, n, cb);
    OwnerIsClean(a, ca);
    OwnerIsClean(b, cb);
    var oa, ob := FiledUnder(a, ca), FiledUnder(b, cb);
    SameSegments(a.workspace, a.binding + (SEP + (oa + (SEP + m))), b.workspace, b.binding + (SEP + (ob + (SEP + n))));
    SameSegments(a.binding, oa + (SEP + m), b.binding, ob + (SEP + n));
    SameSegments(oa, m, ob, n);
  }

  function BindingPrefix(workspace: string, binding: string): string {
    workspace + (SEP + (binding + SEP))
  }

  /** The prefix catches every key of the binding, in every scope, and no other key. */
  lemma PrefixIsExact(scope: Scope, verb: string, cacheScope: CacheScope, workspace: string, binding: string)
    requires CleanScope(scope) && Clean(workspace) && Clean(binding)
    ensures StartsWith(CacheKeyFor(scope, verb, cacheScope), BindingPrefix(workspace, binding)) <==> scope.workspace == workspace && scope.binding == binding
  {
    var tail := FiledUnder(scope, cacheScope) + (SEP + verb);
    KeyShape(scope, verb, cacheScope);
    PrefixOfKey(scope.workspace, scope.binding, tail, workspace, binding);
  }

  lemma PrefixOfKey(w: string, b: string, tail: string, workspace: string, binding: string)
    requires Clean(w) && Clean(b) && Clean(workspace) && Clean(binding)
    ensures StartsWith(w + (SEP + (b + (SEP + tail))), BindingPrefix(workspace, binding)) <==> w == workspace && b == binding
  {
    var key, prefix := w + (SEP + (b + (SEP + tail))), BindingPrefix(workspace, binding);
    if w == workspace && b == binding {
      assert key == prefix + tail;
    }
    if StartsWith(key, prefix) {
      assert binding + SEP == binding + (SEP + "");
      FirstSegment(w, b + (SEP + tail), workspace, binding + (SEP + ""));
      FirstSegment(b, tail, binding, "");
    }
  }

  // ---- The cache as a machine ----

  datatype Entry = Entry(value: string, expiresAt: real, cacheScope: CacheScope)

  /** An entry of the insertion-ordered map. */
  datatype Slot = Slot(key: string, entry: Entry)

  datatype Op =
    | Get(scope: Scope, verb: string, now: real)
    | Set(scope: Scope, verb: string, value: string, ttlMs: Option<real>, rawScope: Option<string>, now: real)
    | Invalidate(workspace: string, binding: string)
    | Clear

  function IndexOf(slots: seq<Slot>, key: string): (i: Option<nat>)
    ensures i.Some? ==> i.value < |slots| && slots[i.value].key == key
    ensures i.None? ==> forall s :: s in slots ==> s.key != key
  {
    if slots == [] then None
    else if slots[0].key == key then Some(0)
    else
      match IndexOf(slots[1..], key)
      case None => None
      case Some(i) => Some(i + 1)
  }

  function Drop(slots: seq<Slot>, i: nat): (r: seq<Slot>)
    requires i < |slots|
    ensures |r| == |slots| - 1 && forall s :: s in r ==> s in slots
  {
    slots[..i] + slots[i + 1..]
  }

  function Put(slots: seq<Slot>, slot: Slot): (r: seq<Slot>)
    ensures forall s :: s in r ==> s in slots || s == slot
    ensures |r| <= |slots| + 1
  {
    match IndexOf(slots, slot.key)
    case Some(i) => slots[i := slot]
    case None => slots + [slot]
  }

  datatype Answer = Answer(hit: Option<string>, slots: seq<Slot>)

  /** One of the two lookups of a read: an expired entry is dropped. */
  function Look(slots: seq<Slot>, key: string, now: real): (a: Answer)
    ensures |a.slots| <= |slots| && forall s :: s in a.slots ==> s in slots
    ensures a.hit.Some? ==> exists s :: s in slots && s.key == key && s.entry.value == a.hit.value && s.entry.expiresAt > now
  {
    match IndexOf(slots, key)
    case None => Answer(None, slots)
    case Some(i) =>
      if slots[i].entry.expiresAt <= now then Answer(None, Drop(slots, i))
      else
        assert slots[i] in slots;
        Answer(Some(slots[i].entry.value), slots)
  }

  function Read(slots: seq<Slot>, scope: Scope, verb: string, now: real): Answer {
    var shared := Look(slots, CacheKeyFor(scope, verb, Public), now);
    if shared.hit.Some? then shared else Look(shared.slots, CacheKeyFor(scope, verb, Private), now)
  }

  function SlotOf(op: Op): Slot
    requires op.Set?
  {
    var cacheScope := ParseCacheScope(op.rawScope);
    Slot(CacheKeyFor(op.scope, op.verb, cacheScope), Entry(op.value, op.now + ClampTtl(op.ttlMs), cacheScope))
  }

  function OutsideBinding(workspace: string, binding: string): Slot -> bool {
    (s: Slot) => !StartsWith(s.key, BindingPrefix(workspace, binding))
  }

  function Next(slots: seq<Slot>, maxEntries: int, op: Op): seq<Slot> {
    match op
    case Get(scope, m, now) => Read(slots, scope, m, now).slots
    case Set(_, _, _, ttlMs, _, _) =>
      if ClampTtl(ttlMs) == 0.0 then slots
      else Put(if |slots| >= maxEntries && slots != [] then slots[1..] else slots, SlotOf(op))
    case Invalidate(workspace, binding) => Filter(slots, OutsideBinding(workspace, binding))
    case Clear => []
  }

  ghost predicate IsRun(maxEntries: int, states: seq<seq<Slot>>, ops: seq<Op>) {
    && |states| == |ops| + 1 && states[0] == []
    && forall i :: 0 <= i < |ops| ==> CleanOp(ops[i]) && states[i + 1] == Next(states[i], maxEntries, ops[i])
  }

  ghost predicate CleanOp(op: Op) {
    match op
    case Get(scope, _, _) => CleanScope(scope)
    case Set(scope, _, _, _, _, _) => CleanScope(scope)
    case Invalidate(workspace, binding) => Clean(workspace) && Clean(binding)
    case Clear => true
  }

  /** The operation removes everything of this scope's binding. */
  ghost predicate Wipes(op: Op, scope: Scope) {
    op.Clear? || (op.Invalidate? && op.workspace == scope.workspace && op.binding == scope.binding)
  }

  /** Operation i stored the slot, and nothing up to n wiped its binding. */
  ghost predicate StoredBy(ops: seq<Op>, n: nat, i: nat, slot: Slot)
    requires n <= |ops|
  {
    && i < n && ops[i].Set? && CleanScope(ops[i].scope) && ClampTtl(ops[i].ttlMs) > 0.0 && slot == SlotOf(ops[i])
    && forall k :: i < k < n ==> !Wipes(ops[k], ops[i].scope)
  }

  ghost predicate HasOrigin(ops: seq<Op>, n: nat, slot: Slot)
    requires n <= |ops|
  {
    exists i: nat :: StoredBy(ops, n, i, slot)
  }

  /** An entry that survives a wipe was not of the binding wiped. */
  lemma SurvivorIsElsewhere(op: Op, stored: Op, before: seq<Slot>, maxEntries: int)
    requires CleanOp(op) && stored.Set? && CleanScope(stored.scope) && SlotOf(stored) in Next(before, maxEntries, op)
    ensures !Wipes(op, stored.scope)
  {
    if op.Invalidate? {
      PrefixIsExact(stored.scope, stored.verb, ParseCacheScope(stored.rawScope), op.workspace, op.binding);
      assert OutsideBinding(op.workspace, op.binding)(SlotOf(stored));
    }
  }

  /** What was stored and not wiped up to n is not wiped up to n + 1 unless operation n wipes it. */
  lemma StoredLasts(ops: seq<Op>, n: nat, i: nat, slot: Slot)
    requires n < |ops| && StoredBy(ops, n, i, slot) && !Wipes(ops[n], ops[i].scope)
    ensures StoredBy(ops, n + 1, i, slot)
  {
  }

  lemma OriginLasts(ops: seq<Op>, n: nat, before: seq<Slot>, slot: Slot, maxEntries: int)
    requires n < |ops| && CleanOp(ops[n]) && HasOrigin(ops, n, slot) && slot in Next(before, maxEntries, ops[n])
    ensures HasOrigin(ops, n + 1, slot)
  {
    var i: nat :| StoredBy(ops, n, i, slot);
    var stored := ops[i];
    SurvivorIsElsewhere(ops[n], stored, before, maxEntries);
    StoredLasts(ops, n, i, slot);
  }

  lemma NextHolds(before: seq<Slot>, maxEntries: int, op: Op, slot: Slot)
    requires slot in Next(before, maxEntries, op) && slot !in before
    ensures op.Set? && ClampTtl(op.ttlMs) > 0.0 && slot == SlotOf(op)
  {
  }

  lemma {:induction false} EverySlotHasOrigin(maxEntries: int, states: seq<seq<Slot>>, ops: seq<Op>, n: nat)
    requires IsRun(maxEntries, states, ops) && n < |states|
    ensures forall slot :: slot in states[n] ==> HasOrigin(ops, n, slot)
    decreases n
  {
    if n > 0 {
      EverySlotHasOrigin(maxEntries, states, ops, n - 1);
      var op := ops[n - 1];
      assert states[n - 1 + 1] == Next(states[n - 1], maxEntries, op);
      forall slot | slot in states[n]
        ensures HasOrigin(ops, n, slot)
      {
        if slot in states[n - 1] {
          OriginLasts(ops, n - 1, states[n - 1], slot, maxEntries);
        } else {
          NextHolds(states[n - 1], maxEntries, op, slot);
          assert StoredBy(ops, n, n - 1, slot);
        }
      }
    }
  }

  /** The reader may see what was stored: its own, what the server said is public, or the whole workspace's. */
  ghost predicate Entitled(reader: Scope, op: Op)
    requires op.Set?
  {
    && op.scope.workspace == reader.workspace && op.scope.binding == reader.binding
    && (op.scope == reader || op.rawScope == Some("public") || op.scope.WorkspaceScope?)
  }

  lemma KeyEntitles(reader: Scope, m: string, tried: CacheScope, op: Op)
    requires CleanScope(reader) && op.Set? && CleanScope(op.scope)
    requires SlotOf(op).key == CacheKeyFor(reader, m, tried)
    ensures Entitled(reader, op) && op.verb == m
  {
    var filed := ParseCacheScope(op.rawScope);
    KeysTellApart(op.scope, op.verb, filed, reader, m, tried);
    if !filed.Public? {
      if tried.Public? {
        OwnersTellApart(op.scope, WorkspaceScope(reader.workspace, reader.binding));
      } else {
        OwnersTellApart(op.scope, reader);
      }
    }
  }

  /**
   Every hit of every run was stored earlier, for the same binding and method, by a store its reader is
   entitled to; it is younger than its time to live and than the bound; and the binding was not wiped since.
   */
  lemma EveryHitIsEntitled(maxEntries: int, states: seq<seq<Slot>>, ops: seq<Op>, n: nat)
    requires IsRun(maxEntries, states, ops) && n < |ops| && ops[n].Get? && Read(states[n], ops[n].scope, ops[n].verb, ops[n].now).hit.Some?
    ensures exists i :: 0 <= i < n && FairHit(ops, n, i, Read(states[n], ops[n].scope, ops[n].verb, ops[n].now).hit.value)
  {
    var op := ops[n];
    var slot := HitSlot(states[n], op.scope, op.verb, op.now);
    EverySlotHasOrigin(maxEntries, states, ops, n);
    var i: nat :| StoredBy(ops, n, i, slot);
    KeyEntitles(op.scope, op.verb, if slot.key == CacheKeyFor(op.scope, op.verb, Public) then Public else Private, ops[i]);
    assert FairHit(ops, n, i, slot.entry.value);
  }

  /** The live entry a hit comes from. */
  lemma HitSlot(slots: seq<Slot>, scope: Scope, m: string, now: real) returns (slot: Slot)
    requires Read(slots, scope, m, now).hit.Some?
    ensures slot in slots && slot.entry.value == Read(slots, scope, m, now).hit.value && slot.entry.expiresAt > now
    ensures slot.key == CacheKeyFor(scope, m, Public) || slot.key == CacheKeyFor(scope, m, Private)
  {
    var shared := Look(slots, CacheKeyFor(scope, m, Public), now);
    if shared.hit.Some? {
      slot := LiveSlot(slots, CacheKeyFor(scope, m, Public), now);
    } else {
      slot := LiveSlot(shared.slots, CacheKeyFor(scope, m, Private), now);
    }
  }

  lemma LiveSlot(slots: seq<Slot>, key: string, now: real) returns (slot: Slot)
    requires Look(slots, key, now).hit.Some?
    ensures slot in slots && slot.key == key && slot.entry.value == Look(slots, key, now).hit.value && slot.entry.expiresAt > now
  {
    slot := slots[IndexOf(slots, key).value];
  }

  ghost predicate FairHit(ops: seq<Op>, n: nat, i: nat, value: string)
    requires i < n < |ops| && ops[n].Get?
  {
    && ops[i].Set? && ops[i].value == value && ops[i].verb == ops[n].verb && Entitled(ops[n].scope, ops[i])
    && ops[i].ttlMs.Some? && ops[n].now - ops[i].now < ops[i].ttlMs.value && ops[n].now - ops[i].now < MAX_TTL_MS
    && forall k :: i < k < n ==> !Wipes(ops[k], ops[n].scope)
  }

  /** The cache never outgrows its bound. */
  lemma {:induction false} SizeIsBounded(maxEntries: int, states: seq<seq<Slot>>, ops: seq<Op>, n: nat)
    requires IsRun(maxEntries, states, ops) && n < |states| && maxEntries >= 1
    ensures |states[n]| <= maxEntries
    decreases n
  {
    if n > 0 {
      SizeIsBounded(maxEntries, states, ops, n - 1);
      assert states[n - 1 + 1] == Next(states[n - 1], maxEntries, ops[n - 1]);
    }
  }

  // ---- The cache as a class ----

  class ScopedResponseCache {
    const maxEntries: int
    var slots: seq<Slot>

    constructor (maxEntries: int)
      ensures slots == [] && this.maxEntries == maxEntries
    {
      this.maxEntries := maxEntries;
      slots := [];
    }

    method Get(scope: Scope, verb: string, now: real) returns (hit: Option<string>)
      modifies this
      ensures Answer(hit, slots) == Read(old(slots), scope, verb, now)
      ensures slots == Next(old(slots), maxEntries, Op.Get(scope, verb, now))
    {
      var tries := [Public, Private];
      ghost var found := Read(slots, scope, verb, now);
      for k := 0 to 2
        invariant k == 0 ==> slots == old(slots)
        invariant k == 1 ==> found == Look(slots, CacheKeyFor(scope, verb, Private), now)
        invariant k == 2 ==> found == Answer(None, slots)
      {
        var key := CacheKeyFor(scope, verb, tries[k]);
        var at := IndexOf(slots, key);
        if at.Some? {
          if slots[at.value].entry.expiresAt <= now {
            slots := Drop(slots, at.value);
          } else {
            return Some(slots[at.value].entry.value);
          }
        }
      }
      return None;
    }

    method Set(scope: Scope, verb: string, value: string, ttlMs: Option<real>, rawScope: Option<string>, now: real)
      modifies this
      ensures slots == Next(old(slots), maxEntries, Op.Set(scope, verb, value, ttlMs, rawScope, now))
    {
      var ttl := ClampTtl(ttlMs);
      if ttl == 0.0 {
        return;
      }
      var cacheScope := ParseCacheScope(rawScope);
      var key := CacheKeyFor(scope, verb, cacheScope);
      if |slots| >= maxEntries && slots != [] {
        slots := slots[1..];
      }
      slots := Put(slots, Slot(key, Entry(value, now + ttl, cacheScope)));
    }

    method InvalidateBinding(workspace: string, binding: string) returns (removed: nat)
      modifies this
      ensures slots == Next(old(slots), maxEntries, Invalidate(workspace, binding)) && removed == |old(slots)| - |slots|
    {
      var prefix := BindingPrefix(workspace, binding);
      ghost var outside := OutsideBinding(workspace, binding);
      var all, kept := slots, [];
      removed := 0;
      for k := 0 to |all|
        invariant kept == Filter(all[..k], outside) && removed == k - |kept|
      {
        KeepOne(all, k, outside);
        if StartsWith(all[k].key, prefix) {
          removed := removed + 1;
        } else {
          kept := kept + [all[k]];
        }
      }
      assert all[..|all|] == all;
      slots := kept;
    }
  }

  lemma KeepOne(all: seq<Slot>, k: nat, p: Slot -> bool)
    requires k < |all|
    ensures Filter(all[..k + 1], p) == if p(all[k]) then Filter(all[..k], p) + [all[k]] else Filter(all[..k], p)
  {
    assert all[..k + 1] == all[..k] + [all[k]];
    FilterAppend(all[..k], [all[k]], p);
  }
}
