/** Stable sorting, and the uniqueness of a sorted arrangement. */
module Sorting {

  function InsertInto<T>(x: T, s: seq<T>, le: (T, T) -> bool): seq<T> {
    if s == [] || le(x, s[0]) then [x] + s else [s[0]] + InsertInto(x, s[1..], le)
  }

  function Sort<T>(s: seq<T>, le: (T, T) -> bool): seq<T> {
    if s == [] then [] else InsertInto(s[0], Sort(s[1..], le), le)
  }

  ghost predicate Sorted<T>(s: seq<T>, le: (T, T) -> bool) {
    forall i, j :: 0 <= i < j < |s| ==> le(s[i], s[j])
  }

  ghost predicate TotalPreorder<T(!new)>(le: (T, T) -> bool) {
    && (forall x, y :: le(x, y) || le(y, x))
    && (forall x, y, z :: le(x, y) && le(y, z) ==> le(x, z))
  }

  /** Elements that rank equally are the same. */
  ghost predicate Distinguishes<T>(s: seq<T>, le: (T, T) -> bool) {
    forall x, y :: x in s && y in s && le(x, y) && le(y, x) ==> x == y
  }

  lemma {:induction false} InsertKeepsMembers<T(!new)>(x: T, s: seq<T>, le: (T, T) -> bool)
    ensures forall y :: y in InsertInto(x, s, le) <==> y == x || y in s
  {
    if s != [] && !le(x, s[0]) {
      InsertKeepsMembers(x, s[1..], le);
    }
  }

  lemma {:induction false} InsertKeepsElements<T>(x: T, s: seq<T>, le: (T, T) -> bool)
    ensures multiset(InsertInto(x, s, le)) == multiset(s) + multiset{x}
  {
    if s != [] && !le(x, s[0]) {
      InsertKeepsElements(x, s[1..], le);
      assert s == [s[0]] + s[1..];
    }
  }

  lemma SortedCons<T(!new)>(x: T, s: seq<T>, le: (T, T) -> bool)
    requires Sorted(s, le) && forall y :: y in s ==> le(x, y)
    ensures Sorted([x] + s, le)
  {
    var all := [x] + s;
    forall i, j | 0 <= i < j < |all|
      ensures le(all[i], all[j])
    {
      if i == 0 {
        assert all[j] in s;
      } else {
        assert le(s[i - 1], s[j - 1]);
      }
    }
  }

  lemma FirstIsLeast<T(!new)>(s: seq<T>, le: (T, T) -> bool)
    requires TotalPreorder(le) && Sorted(s, le) && s != []
    ensures forall y :: y in s ==> le(s[0], y)
  {
    forall y | y in s
      ensures le(s[0], y)
    {
      var j :| 0 <= j < |s| && s[j] == y;
      assert j == 0 || le(s[0], s[j]);
    }
  }

  lemma {:induction false} InsertSorts<T(!new)>(x: T, s: seq<T>, le: (T, T) -> bool)
    requires TotalPreorder(le) && Sorted(s, le)
    ensures Sorted(InsertInto(x, s, le), le)
    decreases |s|
  {
    if s == [] {
    } else if le(x, s[0]) {
      FirstIsLeast(s, le);
      SortedCons(x, s, le);
    } else {
      TailSorted(s, le);
      InsertSorts(x, s[1..], le);
      InsertKeepsMembers(x, s[1..], le);
      FirstIsLeast(s, le);
      SortedCons(s[0], InsertInto(x, s[1..], le), le);
    }
  }

  lemma {:induction false} SortSorts<T(!new)>(s: seq<T>, le: (T, T) -> bool)
    requires TotalPreorder(le)
    ensures Sorted(Sort(s, le), le) && multiset(Sort(s, le)) == multiset(s)
  {
    if s != [] {
      SortSorts(s[1..], le);
      InsertSorts(s[0], Sort(s[1..], le), le);
      InsertKeepsElements(s[0], Sort(s[1..], le), le);
      assert s == [s[0]] + s[1..];
    }
  }

  lemma InMultiset<T>(a: seq<T>, b: seq<T>, x: T)
    requires multiset(a) == multiset(b) && x in a
    ensures x in b
  {
    assert x in multiset(a);
  }

  /** Two sorted arrangements of the same elements begin with the same one. */
  lemma FirstIsSame<T(!new)>(a: seq<T>, b: seq<T>, le: (T, T) -> bool)
    requires TotalPreorder(le) && Sorted(a, le) && Sorted(b, le) && multiset(a) == multiset(b) && Distinguishes(a, le)
    requires a != [] && b != []
    ensures a[0] == b[0]
  {
    InMultiset(b, a, b[0]);
    InMultiset(a, b, a[0]);
    var i :| 0 <= i < |a| && a[i] == b[0];
    var j :| 0 <= j < |b| && b[j] == a[0];
    assert le(a[0], a[0]) && le(b[0], b[0]);
    assert le(a[0], a[i]) && le(b[0], b[j]);
  }

  lemma MultisetTail<T>(s: seq<T>)
    requires s != []
    ensures multiset(s[1..]) == multiset(s) - multiset{s[0]}
  {
    assert s == [s[0]] + s[1..];
  }

  lemma TailSorted<T>(s: seq<T>, le: (T, T) -> bool)
    requires Sorted(s, le) && s != []
    ensures Sorted(s[1..], le)
  {
    forall i, j | 0 <= i < j < |s[1..]|
      ensures le(s[1..][i], s[1..][j])
    {
      assert le(s[i + 1], s[j + 1]);
    }
  }

  /** Two sorted arrangements of the same elements, all of which rank apart. */
  ghost predicate Rearranged<T(!new)>(a: seq<T>, b: seq<T>, le: (T, T) -> bool) {
    Sorted(a, le) && Sorted(b, le) && multiset(a) == multiset(b) && Distinguishes(a, le)
  }

  lemma SameLength<T>(a: seq<T>, b: seq<T>)
    requires multiset(a) == multiset(b)
    ensures |a| == |b|
  {
    assert |a| == |multiset(a)| && |b| == |multiset(b)|;
  }

  lemma TailsRearranged<T(!new)>(a: seq<T>, b: seq<T>, le: (T, T) -> bool)
    requires Rearranged(a, b, le) && a != [] && b != [] && a[0] == b[0]
    ensures Rearranged(a[1..], b[1..], le)
  {
    MultisetTail(a);
    MultisetTail(b);
    TailSorted(a, le);
    TailSorted(b, le);
    assert forall x :: x in a[1..] ==> x in a;
  }

  /** Two sorted arrangements of the same elements are the same list. */
  lemma {:induction false} SortedUnique<T(!new)>(a: seq<T>, b: seq<T>, le: (T, T) -> bool)
    requires TotalPreorder(le) && Rearranged(a, b, le)
    ensures a == b
    decreases |a|
  {
    SameLength(a, b);
    if a != [] {
      FirstIsSame(a, b, le);
      TailsRearranged(a, b, le);
      var ta, tb := a[1..], b[1..];
      SortedUnique(ta, tb, le);
      assert a == [a[0]] + ta && b == [b[0]] + tb;
    }
  }

  /** The order of the input does not matter when no two elements rank equally. */
  lemma SortIgnoresOrder<T(!new)>(a: seq<T>, b: seq<T>, le: (T, T) -> bool)
    requires TotalPreorder(le) && multiset(a) == multiset(b) && Distinguishes(a, le)
    ensures Sort(a, le) == Sort(b, le)
  {
    SortSorts(a, le);
    SortSorts(b, le);
    forall x, y | x in Sort(a, le) && y in Sort(a, le) && le(x, y) && le(y, x)
      ensures x == y
    {
      InMultiset(Sort(a, le), a, x);
      InMultiset(Sort(a, le), a, y);
    }
    SortedUnique(Sort(a, le), Sort(b, le), le);
  }

  lemma SortedJoin<T(!new)>(a: seq<T>, b: seq<T>, le: (T, T) -> bool)
    requires Sorted(a, le) && Sorted(b, le) && forall x, y :: x in a && y in b ==> le(x, y)
    ensures Sorted(a + b, le)
  {
    var all := a + b;
    forall i, j | 0 <= i < j < |all|
      ensures le(all[i], all[j])
    {
      if i < |a| <= j {
        assert all[i] in a && all[j] in b;
      }
    }
  }

  lemma DistinguishesSame<T>(a: seq<T>, b: seq<T>, le: (T, T) -> bool)
    requires multiset(a) == multiset(b) && Distinguishes(a, le)
    ensures Distinguishes(b, le)
  {
    forall x, y | x in b && y in b && le(x, y) && le(y, x)
      ensures x == y
    {
      InMultiset(b, a, x);
      InMultiset(b, a, y);
    }
  }

  /** Elements that all rank after the others sort to the end. */
  lemma SortAppends<T(!new)>(a: seq<T>, b: seq<T>, whole: seq<T>, le: (T, T) -> bool)
    requires TotalPreorder(le) && multiset(whole) == multiset(a) + multiset(b) && Distinguishes(whole, le)
    requires forall x, y :: x in a && y in b ==> le(x, y)
    ensures Sort(whole, le) == Sort(a, le) + Sort(b, le)
  {
    SortSorts(a, le);
    SortSorts(b, le);
    SortSorts(whole, le);
    var sa, sb := Sort(a, le), Sort(b, le);
    SortKeepsMembers(a, le);
    SortKeepsMembers(b, le);
    SortedJoin(sa, sb, le);
    assert multiset(sa + sb) == multiset(sa) + multiset(sb);
    DistinguishesSame(whole, Sort(whole, le), le);
    SortedUnique(Sort(whole, le), sa + sb, le);
  }

  lemma {:induction false} SortKeepsMembers<T(!new)>(s: seq<T>, le: (T, T) -> bool)
    ensures forall x :: x in Sort(s, le) <==> x in s
  {
    if s != [] {
      SortKeepsMembers(s[1..], le);
      InsertKeepsMembers(s[0], Sort(s[1..], le), le);
    }
  }

  // ---- Dictionary order ----

  predicate LexLe<T(==)>(a: seq<T>, b: seq<T>, less: (T, T) -> bool) {
    a == [] || (b != [] && (less(a[0], b[0]) || (a[0] == b[0] && LexLe(a[1..], b[1..], less))))
  }

  ghost predicate StrictOrder<T(!new)>(less: (T, T) -> bool) {
    && (forall x, y :: less(x, y) || less(y, x) || x == y)
    && (forall x, y :: less(x, y) ==> !less(y, x) && x != y)
    && (forall x, y, z :: less(x, y) && less(y, z) ==> less(x, z))
  }

  lemma {:induction false} LexTotal<T(!new)>(a: seq<T>, b: seq<T>, less: (T, T) -> bool)
    requires StrictOrder(less)
    ensures LexLe(a, b, less) || LexLe(b, a, less)
    ensures LexLe(a, b, less) && LexLe(b, a, less) ==> a == b
  {
    if a != [] && b != [] && a[0] == b[0] {
      LexTotal(a[1..], b[1..], less);
      assert a == [a[0]] + a[1..] && b == [b[0]] + b[1..];
    }
  }

  lemma {:induction false} LexTransitive<T(!new)>(a: seq<T>, b: seq<T>, c: seq<T>, less: (T, T) -> bool)
    requires StrictOrder(less) && LexLe(a, b, less) && LexLe(b, c, less)
    ensures LexLe(a, c, less)
  {
    if a != [] && b != [] && c != [] && a[0] == b[0] == c[0] {
      LexTransitive(a[1..], b[1..], c[1..], less);
    }
  }
}
