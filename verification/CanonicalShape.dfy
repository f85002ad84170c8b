/**
 What canonical text looks like, code unit by code unit.

 A description of the text that says nothing of how it is printed: which units stand around and between the parts, how
 a string and a number are spelled, and that the keys of an object ascend in code unit order. Section 7 of RFC 8259
 gives the escapes, and section 6 the numbers.
 */
module CanonicalShape {
  import opened Options
  import opened Seqs
  import opened Sorting
  import opened Texts
  import opened CanonicalJson

  // ---- Key order ----

  /** The first unit that differs is less, or the text ends where the other goes on. */
  ghost predicate Before(a: Text, b: Text) {
    exists k :: 0 <= k <= |a| && k < |b| && a[..k] == b[..k] && (k == |a| || a[k] < b[k])
  }

  lemma {:induction false} LessIsBefore(a: Text, b: Text)
    requires KeyLe(a, b) && a != b
    ensures Before(a, b)
    decreases |a|
  {
    if a == [] || b == [] || a[0] != b[0] {
      assert a[..0] == b[..0];
    } else {
      LessIsBefore(a[1..], b[1..]);
      var k :| 0 <= k <= |a[1..]| && k < |b[1..]| && a[1..][..k] == b[1..][..k] && (k == |a[1..]| || a[1..][k] < b[1..][k]);
      assert a[..k + 1] == [a[0]] + a[1..][..k] && b[..k + 1] == [b[0]] + b[1..][..k];
    }
  }

  ghost predicate KeysAscend(fields: seq<Field>) {
    forall i, j :: 0 <= i < j < |fields| ==> Before(fields[i].key, fields[j].key)
  }

  /** The fields that are there, each as often as it is given. */
  ghost predicate AreTheDefined(order: seq<Field>, fields: seq<Field>) {
    forall f: Field :: multiset(order)[f] == if f.value.Undefined? then 0 else multiset(fields)[f]
  }

  lemma {:induction false} FilterCounts(fields: seq<Field>, f: Field)
    ensures multiset(Filter(fields, IsDefined))[f] == if IsDefined(f) then multiset(fields)[f] else 0
  {
    if fields != [] {
      FilterCounts(fields[1..], f);
      assert fields == [fields[0]] + fields[1..];
    }
  }

  /** The printed fields are those that are there, and their keys ascend. */
  lemma PrintedAscend(fields: seq<Field>)
    requires DistinctKeys(fields)
    ensures KeysAscend(PrintedFields(fields)) && AreTheDefined(PrintedFields(fields), fields)
  {
    var order := PrintedFields(fields);
    PrintedOrder(fields);
    forall i, j | 0 <= i < j < |order|
      ensures Before(order[i].key, order[j].key)
    {
      assert FieldLe(order[i], order[j]);
      LessIsBefore(order[i].key, order[j].key);
    }
    FieldOrder();
    SortSorts(Filter(fields, IsDefined), FieldLe);
    forall f: Field
      ensures multiset(order)[f] == if f.value.Undefined? then 0 else multiset(fields)[f]
    {
      FilterCounts(fields, f);
    }
  }

  // ---- Strings ----

  ghost predicate IsLowerHex(u: CodeUnit, d: int) {
    (0 <= d < 10 && u as int == 0x30 + d) || (10 <= d < 16 && u as int == 0x61 + d - 10)
  }

  /** Four lower-case hexadecimal digits, most significant first. */
  ghost predicate IsHexOf(e: Text, u: CodeUnit) {
    && |e| == 4
    && IsLowerHex(e[0], u as int / 4096) && IsLowerHex(e[1], u as int / 256 % 16)
    && IsLowerHex(e[2], u as int / 16 % 16) && IsLowerHex(e[3], u as int % 16)
  }

  /** How one unit that is not half of a pair is spelled. */
  ghost predicate SpellsUnit(e: Text, u: CodeUnit) {
    if u == 0x22 then e == [0x5C, 0x22]
    else if u == 0x5C then e == [0x5C, 0x5C]
    else if u == 0x08 then e == [0x5C, 0x62]
    else if u == 0x09 then e == [0x5C, 0x74]
    else if u == 0x0A then e == [0x5C, 0x6E]
    else if u == 0x0C then e == [0x5C, 0x66]
    else if u == 0x0D then e == [0x5C, 0x72]
    else if u < 0x20 || 0xD800 <= u <= 0xDFFF then |e| == 6 && e[..2] == [0x5C, 0x75] && IsHexOf(e[2..], u)
    else e == [u]
  }

  ghost predicate Spells(e: Text, s: Text)
    decreases |s|
  {
    if s == [] then e == []
    else if |s| >= 2 && 0xD800 <= s[0] <= 0xDBFF && 0xDC00 <= s[1] <= 0xDFFF then |e| >= 2 && e[..2] == s[..2] && Spells(e[2..], s[2..])
    else exists w :: 0 < w <= |e| && SpellsUnit(e[..w], s[0]) && Spells(e[w..], s[1..])
  }

  ghost predicate IsString(t: Text, s: Text) {
    |t| >= 2 && t[0] == 0x22 && t[|t| - 1] == 0x22 && Spells(t[1..|t| - 1], s)
  }

  lemma HexIsSpelled(u: CodeUnit)
    ensures IsHexOf(HexPair(u as int / 256) + HexPair(u as int % 256), u)
  {
    var n := u as int;
    Nibbles(n);
    DigitIsHex(n / 256 / 16);
    DigitIsHex(n / 256 % 16);
    DigitIsHex(n % 256 / 16);
    DigitIsHex(n % 256 % 16);
  }

  lemma Nibbles(n: int)
    requires 0 <= n < 0x10000
    ensures n / 256 / 16 == n / 4096 && n % 256 / 16 == n / 16 % 16 && n % 256 % 16 == n % 16
  {
  }

  lemma DigitIsHex(d: int)
    requires 0 <= d < 16
    ensures IsLowerHex(HexDigit(d), d)
  {
  }

  lemma UnitIsSpelled(u: CodeUnit)
    ensures SpellsUnit(Escape(u), u)
  {
    if ShortEscape(u).None? && (u < 0x20 || IsLead(u) || IsTrail(u)) {
      HexIsSpelled(u);
      assert Escape(u)[..2] == [0x5C, 0x75] && Escape(u)[2..] == HexPair(u as int / 256) + HexPair(u as int % 256);
    }
  }

  lemma {:induction false} StringIsSpelled(s: Text)
    ensures Spells(EscapeAll(s), s)
    decreases |s|
  {
    var e := EscapeAll(s);
    if s == [] {
    } else if StartsWithPair(s) {
      StringIsSpelled(s[2..]);
      assert e[..2] == s[..2] && e[2..] == EscapeAll(s[2..]);
    } else {
      StringIsSpelled(s[1..]);
      UnitIsSpelled(s[0]);
      var w := |Escape(s[0])|;
      assert e[..w] == Escape(s[0]) && e[w..] == EscapeAll(s[1..]);
    }
  }

  lemma QuotedIsString(s: Text)
    ensures IsString(Quoted(s), s)
  {
    StringIsSpelled(s);
    assert Quoted(s)[1..|Quoted(s)| - 1] == EscapeAll(s);
  }

  // ---- Numbers ----

  /** The number decimal digits stand for. */
  ghost function DecimalValue(t: Text): int {
    if t == [] then 0 else 10 * DecimalValue(t[..|t| - 1]) + (t[|t| - 1] as int - 0x30)
  }

  /** Decimal digits, with no zero in front of others. */
  ghost predicate IsNatural(t: Text, n: nat) {
    && |t| > 0 && (forall i :: 0 <= i < |t| ==> 0x30 <= t[i] <= 0x39) && (|t| > 1 ==> t[0] != 0x30) && DecimalValue(t) == n
  }

  ghost predicate IsInteger(t: Text, n: int) {
    if n < 0 then |t| > 0 && t[0] == 0x2D && IsNatural(t[1..], -n) else IsNatural(t, n)
  }

  lemma {:induction false} DigitsAreNatural(n: nat)
    ensures IsNatural(Digits(n), n) && (n > 0 ==> Digits(n)[0] != 0x30)
    decreases n
  {
    var t := Digits(n);
    if n < 10 {
      assert t[..0] == [];
    } else {
      DigitsAreNatural(n / 10);
      assert t[..|t| - 1] == Digits(n / 10) && t[|t| - 1] as int - 0x30 == n % 10;
    }
  }

  lemma DecimalIsInteger(n: int)
    ensures IsInteger(Decimal(n), n)
  {
    if n < 0 {
      DigitsAreNatural(-n);
      assert Decimal(n)[1..] == Digits(-n);
    } else {
      DigitsAreNatural(n);
    }
  }

  // ---- Values ----

  /** The parts with a comma between each two. */
  ghost function Separated(parts: seq<Text>): Text {
    if parts == [] then []
    else if |parts| == 1 then parts[0]
    else parts[0] + [0x2C] + Separated(parts[1..])
  }

  ghost predicate IsTextOf(t: Text, v: Value)
    decreases v, 1
  {
    match v
    case Undefined => t == [0x6E, 0x75, 0x6C, 0x6C]
    case Null => t == [0x6E, 0x75, 0x6C, 0x6C]
    case Bool(truth) => t == if truth then [0x74, 0x72, 0x75, 0x65] else [0x66, 0x61, 0x6C, 0x73, 0x65]
    case Num(n) => IsInteger(t, n)
    case Str(s) => IsString(t, s)
    case Arr(items) => exists parts :: t == [0x5B] + Separated(parts) + [0x5D] && AreItemsOf(parts, v)
    case Obj(fields) => exists parts, order ::
      t == [0x7B] + Separated(parts) + [0x7D] && KeysAscend(order) && AreTheDefined(order, fields) && AreFieldsOf(parts, order, v)
  }

  ghost predicate AreItemsOf(parts: seq<Text>, v: Value)
    requires v.Arr?
    decreases v, 0
  {
    |parts| == |v.items| && forall i :: 0 <= i < |parts| ==> IsTextOf(parts[i], v.items[i])
  }

  /** Each part is a key, a colon and the text of the value. */
  ghost predicate AreFieldsOf(parts: seq<Text>, order: seq<Field>, v: Value)
    requires v.Obj?
    decreases v, 0
  {
    |parts| == |order| && forall i :: 0 <= i < |parts| ==> order[i] in v.fields && IsFieldText(parts[i], order[i], v)
  }

  ghost predicate IsFieldText(t: Text, f: Field, v: Value)
    requires v.Obj? && f in v.fields
    decreases v, 0, 0
  {
    FieldIsSmaller(v, f);
    exists k :: 0 <= k < |t| && IsString(t[..k], f.key) && t[k] == 0x3A && IsTextOf(t[k + 1..], f.value)
  }

  lemma {:induction false} JoinSeparates(parts: seq<Text>)
    ensures Join(parts) == Separated(parts)
  {
    if |parts| > 1 {
      JoinSeparates(parts[1..]);
    }
  }

  /** The printed text has the shape described, for every value in which no object repeats a key. */
  lemma {:induction false} PrintsAsDescribed(v: Value)
    requires WellFormed(v)
    ensures IsTextOf(CanonicalJson.CanonicalJson(v), v)
    decreases v, 1
  {
    match v
    case Num(n) => DecimalIsInteger(n);
    case Str(s) => QuotedIsString(s);
    case Arr(items) =>
      var parts := ItemTexts(v, items);
      JoinSeparates(parts);
      ItemsAsDescribed(v, items);
    case Obj(fields) =>
      var order := PrintedFields(fields);
      var parts := FieldTexts(v, order);
      JoinSeparates(parts);
      PrintedAscend(fields);
      FieldsAsDescribed(v, order);
      assert AreFieldsOf(parts, order, v);
    case _ =>
  }

  lemma {:induction false} ItemsAsDescribed(v: Value, items: seq<Value>)
    requires v.Arr? && WellFormed(v) && forall x :: x in items ==> x in v.items
    ensures var parts := ItemTexts(v, items);
      |parts| == |items| && forall i :: 0 <= i < |parts| ==> IsTextOf(parts[i], items[i])
    decreases v, 0, |items|
  {
    if items != [] {
      ItemIsSmaller(v, items[0]);
      assert WellFormed(items[0]);
      PrintsAsDescribed(items[0]);
      ItemsAsDescribed(v, items[1..]);
    }
  }

  lemma {:induction false} FieldsAsDescribed(v: Value, fields: seq<Field>)
    requires v.Obj? && WellFormed(v) && forall f :: f in fields ==> f in v.fields
    ensures var parts := FieldTexts(v, fields);
      |parts| == |fields| && forall i :: 0 <= i < |parts| ==> IsFieldText(parts[i], fields[i], v)
    decreases v, 0, |fields|
  {
    if fields != [] {
      var f := fields[0];
      FieldIsSmaller(v, f);
      assert WellFormed(f.value);
      PrintsAsDescribed(f.value);
      QuotedIsString(f.key);
      var t, k := FieldText(f), |Quoted(f.key)|;
      assert t[..k] == Quoted(f.key) && t[k] == 0x3A && t[k + 1..] == CanonicalJson.CanonicalJson(f.value);
      FieldsAsDescribed(v, fields[1..]);
    }
  }

  // ---- The fingerprint ----

  /** Published test vectors of 32-bit FNV-1a: the empty text and "a". */
  lemma FnvVectors()
    ensures Fnv([]) == 0x811c9dc5 && Fnv([0x61]) == 0xe40c292c
  {
    assert Fnv([0x61]) == FnvStep(Fnv([]), 0x61);
  }
}
