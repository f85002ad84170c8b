/** Exact repeats of a tool call within a sliding window. */
module LoopDetection {
  import opened Options

  datatype ObservedCall = ObservedCall(canonicalName: string, args: string)

  /** `args` is the canonical text of the arguments, so a reserialised identical call has the same key. */
  function KeyOf(call: ObservedCall): string {
    call.canonicalName + "(" + call.args + ")"
  }

  function Keys(calls: seq<ObservedCall>): seq<string> {
    seq(|calls|, i requires 0 <= i < |calls| => KeyOf(calls[i]))
  }

  function Count(keys: seq<string>, key: string): nat {
    if keys == [] then 0 else (if keys[0] == key then 1 else 0) + Count(keys[1..], key)
  }

  lemma {:induction false} CountAppend(a: seq<string>, b: seq<string>, key: string)
    ensures Count(a + b, key) == Count(a, key) + Count(b, key)
  {
    if a == [] {
      assert a + b == b;
    } else {
      assert (a + b)[1..] == a[1..] + b;
      CountAppend(a[1..], b, key);
    }
  }

  lemma CountOne(a: seq<string>, k: string, key: string)
    ensures Count(a + [k], key) == Count(a, key) + if k == key then 1 else 0
  {
    CountAppend(a, [k], key);
  }

  /** The last `window` of a log (none for a window below one). */
  function Last(log: seq<string>, window: int): seq<string> {
    if window <= 0 then [] else if |log| <= window then log else log[|log| - window..]
  }

  /** Push, and shift when the window is exceeded. */
  function Push(recent: seq<string>, key: string, window: int): seq<string> {
    var r := recent + [key];
    if |r| > window then r[1..] else r
  }

  lemma PushIsLast(log: seq<string>, key: string, window: int)
    ensures Push(Last(log, window), key, window) == Last(log + [key], window)
  {
  }

  /** A phase passes: admitting its calls one by one, none becomes the `threshold`-th copy in its window. */
  predicate Admits(recent: seq<string>, keys: seq<string>, threshold: int, window: int)
    decreases |keys|
  {
    keys == [] || (Count(recent, keys[0]) + 1 < threshold && Admits(Push(recent, keys[0], window), keys[1..], threshold, window))
  }

  datatype Verdict = NotLooping | Looping(canonicalName: string, repeats: nat)

  class LoopDetector {
    const threshold: int
    const window: int
    var recent: seq<string>
    ghost var log: seq<string>

    ghost predicate Valid()
      reads this
    {
      recent == Last(log, window)
    }

    constructor (threshold: Option<int>, window: Option<int>)
      ensures Valid() && log == []
      ensures this.threshold == if threshold.Some? then threshold.value else 3
      ensures this.window == if window.Some? then window.value else 24
    {
      this.threshold := if threshold.Some? then threshold.value else 3;
      this.window := if window.Some? then window.value else 24;
      recent, log := [], [];
    }

    method Record(call: ObservedCall)
      requires Valid()
      modifies this
      ensures Valid() && log == old(log) + [KeyOf(call)]
    {
      PushIsLast(log, KeyOf(call), window);
      recent := recent + [KeyOf(call)];
      if |recent| > window {
        recent := recent[1..];
      }
      log := log + [KeyOf(call)];
    }

    /** `inspectPhase`: duplicates within the phase count, because a probe records as it goes. */
    method InspectPhase(calls: seq<ObservedCall>) returns (v: Verdict)
      ensures v.NotLooping? <==> Admits(recent, Keys(calls), threshold, window)
      ensures v.Looping? ==> v.repeats >= threshold && exists i :: 0 <= i < |calls| && calls[i].canonicalName == v.canonicalName
    {
      var probe := recent;
      var i := 0;
      while i < |calls|
        invariant 0 <= i <= |calls|
        invariant Admits(recent, Keys(calls), threshold, window) <==> Admits(probe, Keys(calls)[i..], threshold, window)
      {
        var key := KeyOf(calls[i]);
        assert Keys(calls)[i..][1..] == Keys(calls)[i + 1..];
        var repeats := Count(probe, key) + 1;
        if repeats >= threshold {
          return Looping(calls[i].canonicalName, repeats);
        }
        probe := Push(probe, key, window);
        i := i + 1;
      }
      assert Keys(calls)[i..] == [];
      v := NotLooping;
    }
  }

  // ---- What the discipline guarantees over a whole run ----

  /** A phase that was admitted, and how much of it was recorded before it completed or suspended. */
  datatype Phase = Phase(keys: seq<string>, recorded: nat)

  function LogOf(phases: seq<Phase>): seq<string> {
    if phases == [] then []
    else
      var last := phases[|phases| - 1];
      LogOf(phases[..|phases| - 1]) + if last.recorded <= |last.keys| then last.keys[..last.recorded] else last.keys
  }

  ghost predicate AllAdmitted(phases: seq<Phase>, threshold: int, window: int) {
    forall i :: 0 <= i < |phases| ==>
      phases[i].recorded <= |phases[i].keys| && Admits(Last(LogOf(phases[..i]), window), phases[i].keys, threshold, window)
  }

  /** Call p had fewer than `threshold - 1` copies in the window before it. */
  ghost predicate SparseAt(log: seq<string>, p: nat, threshold: int, window: int)
    requires p < |log|
  {
    Count(Last(log[..p], window), log[p]) + 1 < threshold
  }

  ghost predicate Sparse(log: seq<string>, threshold: int, window: int) {
    forall p :: 0 <= p < |log| ==> SparseAt(log, p, threshold, window)
  }

  lemma SparseExtends(log: seq<string>, key: string, threshold: int, window: int)
    requires Sparse(log, threshold, window) && Count(Last(log, window), key) + 1 < threshold
    ensures Sparse(log + [key], threshold, window)
  {
    var longer := log + [key];
    forall p | 0 <= p < |longer|
      ensures SparseAt(longer, p, threshold, window)
    {
      if p < |log| {
        assert longer[..p] == log[..p];
        assert SparseAt(log, p, threshold, window);
      } else {
        assert longer[..p] == log;
      }
    }
  }

  lemma AdmitsStep(log: seq<string>, keys: seq<string>, threshold: int, window: int)
    requires Admits(Last(log, window), keys, threshold, window) && keys != []
    ensures Count(Last(log, window), keys[0]) + 1 < threshold
    ensures Admits(Last(log + [keys[0]], window), keys[1..], threshold, window)
  {
    PushIsLast(log, keys[0], window);
  }

  /** Call m of the phase has few copies in the window, once the calls before it are recorded. */
  ghost predicate FitsAt(log: seq<string>, keys: seq<string>, m: nat, threshold: int, window: int)
    requires m < |keys|
  {
    Count(Last(log + keys[..m], window), keys[m]) + 1 < threshold
  }

  lemma {:induction false} AdmitsAt(log: seq<string>, keys: seq<string>, m: nat, threshold: int, window: int)
    requires Admits(Last(log, window), keys, threshold, window) && m < |keys|
    ensures FitsAt(log, keys, m, threshold, window)
    decreases m
  {
    AdmitsStep(log, keys, threshold, window);
    if m == 0 {
      assert log + keys[..0] == log;
    } else {
      AdmitsAt(log + [keys[0]], keys[1..], m - 1, threshold, window);
      ShiftOne(log, keys, m);
    }
  }

  lemma AdmitsMore(log: seq<string>, keys: seq<string>, threshold: int, window: int)
    requires keys != [] && FitsAt(log, keys, 0, threshold, window) && Admits(Last(log + [keys[0]], window), keys[1..], threshold, window)
    ensures Admits(Last(log, window), keys, threshold, window)
  {
    PushIsLast(log, keys[0], window);
    assert log + keys[..0] == log;
  }

  lemma {:induction false} FittingIsAdmitted(log: seq<string>, keys: seq<string>, threshold: int, window: int)
    requires forall m :: 0 <= m < |keys| ==> FitsAt(log, keys, m, threshold, window)
    ensures Admits(Last(log, window), keys, threshold, window)
    decreases |keys|
  {
    if keys != [] {
      forall m | 0 <= m < |keys[1..]|
        ensures FitsAt(log + [keys[0]], keys[1..], m, threshold, window)
      {
        assert FitsAt(log, keys, m + 1, threshold, window);
        ShiftOne(log, keys, m + 1);
      }
      FittingIsAdmitted(log + [keys[0]], keys[1..], threshold, window);
      AdmitsMore(log, keys, threshold, window);
    }
  }

  /** A phase passes exactly when none of its calls would be the `threshold`-th of its kind in the window before it. */
  lemma AdmitsIff(log: seq<string>, keys: seq<string>, threshold: int, window: int)
    ensures Admits(Last(log, window), keys, threshold, window) <==>
      forall m :: 0 <= m < |keys| ==> FitsAt(log, keys, m, threshold, window)
  {
    if Admits(Last(log, window), keys, threshold, window) {
      forall m | 0 <= m < |keys|
        ensures FitsAt(log, keys, m, threshold, window)
      {
        AdmitsAt(log, keys, m, threshold, window);
      }
    } else {
      if forall m :: 0 <= m < |keys| ==> FitsAt(log, keys, m, threshold, window) {
        FittingIsAdmitted(log, keys, threshold, window);
      }
    }
  }

  lemma NameEndsAtParenthesis(call: ObservedCall)
    requires '(' !in call.canonicalName
    ensures |call.canonicalName| < |KeyOf(call)| && KeyOf(call)[|call.canonicalName|] == '('
    ensures forall i :: 0 <= i < |call.canonicalName| ==> KeyOf(call)[i] != '('
  {
    assert forall i :: 0 <= i < |call.canonicalName| ==> KeyOf(call)[i] == call.canonicalName[i];
  }

  /** A name is followed by the first parenthesis, so the key gives back the name and the arguments. */
  lemma KeyTellsApart(a: ObservedCall, b: ObservedCall)
    requires '(' !in a.canonicalName && '(' !in b.canonicalName
    ensures KeyOf(a) == KeyOf(b) <==> a == b
  {
    if KeyOf(a) == KeyOf(b) {
      var n, m := a.canonicalName, b.canonicalName;
      NameEndsAtParenthesis(a);
      NameEndsAtParenthesis(b);
      assert KeyOf(a)[..|n|] == n && KeyOf(b)[..|m|] == m;
      assert KeyOf(a)[|n| + 1..|KeyOf(a)| - 1] == a.args && KeyOf(b)[|m| + 1..|KeyOf(b)| - 1] == b.args;
    }
  }

  lemma SparseOne(log: seq<string>, keys: seq<string>, m: nat, threshold: int, window: int)
    requires m < |keys| && Sparse(log + keys[..m], threshold, window) && FitsAt(log, keys, m, threshold, window)
    ensures Sparse(log + keys[..m + 1], threshold, window)
  {
    SparseExtends(log + keys[..m], keys[m], threshold, window);
    OneMore(log, keys, m);
  }

  lemma OneMore(log: seq<string>, keys: seq<string>, m: nat)
    requires m < |keys|
    ensures log + keys[..m] + [keys[m]] == log + keys[..m + 1]
  {
  }

  lemma {:induction false} SparseThrough(log: seq<string>, keys: seq<string>, n: nat, threshold: int, window: int)
    requires n <= |keys| && Sparse(log, threshold, window) && forall m :: 0 <= m < n ==> FitsAt(log, keys, m, threshold, window)
    ensures Sparse(log + keys[..n], threshold, window)
    decreases n
  {
    if n == 0 {
      assert log + keys[..0] == log;
    } else {
      SparseThrough(log, keys, n - 1, threshold, window);
      SparseOne(log, keys, n - 1, threshold, window);
    }
  }

  lemma AdmittedIsSparse(log: seq<string>, keys: seq<string>, n: nat, threshold: int, window: int)
    requires Sparse(log, threshold, window) && Admits(Last(log, window), keys, threshold, window) && n <= |keys|
    ensures Sparse(log + keys[..n], threshold, window)
  {
    forall m | 0 <= m < n
      ensures FitsAt(log, keys, m, threshold, window)
    {
      AdmitsAt(log, keys, m, threshold, window);
    }
    SparseThrough(log, keys, n, threshold, window);
  }

  lemma ShiftOne(log: seq<string>, keys: seq<string>, n: nat)
    requires 1 <= n <= |keys|
    ensures log + [keys[0]] + keys[1..][..n - 1] == log + keys[..n]
  {
  }

  lemma {:induction false} RunIsSparse(phases: seq<Phase>, threshold: int, window: int)
    requires AllAdmitted(phases, threshold, window)
    ensures Sparse(LogOf(phases), threshold, window)
  {
    if phases != [] {
      var n := |phases| - 1;
      forall i | 0 <= i < n
        ensures phases[..n][..i] == phases[..i]
      {
      }
      RunIsSparse(phases[..n], threshold, window);
      AdmittedIsSparse(LogOf(phases[..n]), phases[n].keys, phases[n].recorded, threshold, window);
    }
  }

  /** In any stretch of at most `window + 1` recorded calls, a key that occurs has fewer than `threshold` copies. */
  lemma {:induction false} StretchIsBounded(log: seq<string>, i: nat, j: nat, key: string, threshold: int, window: int)
    requires Sparse(log, threshold, window) && i < j <= |log| && j - i <= (if window > 0 then window else 0) + 1
    requires key in log[i..j]
    ensures Count(log[i..j], key) < threshold
    decreases j
  {
    var p := j - 1;
    CountLast(log, i, j, key);
    if log[p] == key {
      WindowCounts(log, i, p, key, window);
      assert SparseAt(log, p, threshold, window);
    } else {
      StretchIsBounded(log, i, p, key, threshold, window);
    }
  }

  lemma CountLast(log: seq<string>, i: nat, j: nat, key: string)
    requires i < j <= |log|
    ensures Count(log[i..j], key) == Count(log[i..j - 1], key) + if log[j - 1] == key then 1 else 0
    ensures key in log[i..j] && log[j - 1] != key ==> key in log[i..j - 1]
  {
    assert log[i..j] == log[i..j - 1] + [log[j - 1]];
    CountOne(log[i..j - 1], log[j - 1], key);
  }

  /** A stretch that fits the window before p is counted in it. */
  lemma WindowCounts(log: seq<string>, i: nat, p: nat, key: string, window: int)
    requires i <= p <= |log| && p - i <= (if window > 0 then window else 0)
    ensures Count(log[i..p], key) <= Count(Last(log[..p], window), key)
  {
    if window > 0 {
      var before := Last(log[..p], window);
      var n := |before| - (p - i);
      assert before == before[..n] + log[i..p];
      CountAppend(before[..n], log[i..p], key);
    }
  }

  /**
   Over any run of admitted phases, of each of which any prefix was recorded, no stretch of `window`
   consecutive recorded calls (indeed of one more) holds `threshold` copies of one call.
   */
  lemma NoLoopIsEverRecorded(phases: seq<Phase>, threshold: int, window: int, i: nat, j: nat, key: string)
    requires AllAdmitted(phases, threshold, window)
    requires i < j <= |LogOf(phases)| && j - i <= (if window > 0 then window else 0) + 1 && key in LogOf(phases)[i..j]
    ensures Count(LogOf(phases)[i..j], key) < threshold
  {
    RunIsSparse(phases, threshold, window);
    StretchIsBounded(LogOf(phases), i, j, key, threshold, window);
  }
}
