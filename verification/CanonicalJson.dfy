/**
 Canonical JSON.

 Two values get the same canonical text exactly when they are the same JSON value: the order of keys does
 not count, a field that is undefined is not there, and undefined anywhere else reads as null. The proof is a
 parser that undoes the printer.

 Strings are sequences of UTF-16 code units, quoted as section 7 of RFC 8259 asks, with unpaired surrogates
 escaped. Numbers are integers.
 */
module CanonicalJson {
  import opened Options
  import opened Seqs
  import opened Sorting
  import opened Texts

  datatype Field = Field(key: Text, value: Value)

  /** What the program can hand to the printer. The fields of an object are in insertion order. */
  datatype Value =
    | Undefined
    | Null
    | Bool(truth: bool)
    | Num(number: int)
    | Str(text: Text)
    | Arr(items: seq<Value>)
    | Obj(fields: seq<Field>)

  const QUOTE: CodeUnit := 0x22
  const BACKSLASH: CodeUnit := 0x5C
  const COMMA: CodeUnit := 0x2C
  const COLON: CodeUnit := 0x3A
  const MINUS: CodeUnit := 0x2D
  const OPEN_BRACKET: CodeUnit := 0x5B
  const CLOSE_BRACKET: CodeUnit := 0x5D
  const OPEN_BRACE: CodeUnit := 0x7B
  const CLOSE_BRACE: CodeUnit := 0x7D
  const LETTER_U: CodeUnit := 0x75

  const NULL_TEXT: Text := [0x6E, 0x75, 0x6C, 0x6C]
  const TRUE_TEXT: Text := [0x74, 0x72, 0x75, 0x65]
  const FALSE_TEXT: Text := [0x66, 0x61, 0x6C, 0x73, 0x65]

  // ---- Strings ----

  predicate IsLead(u: CodeUnit) { 0xD800 <= u <= 0xDBFF }

  predicate IsTrail(u: CodeUnit) { 0xDC00 <= u <= 0xDFFF }

  /** The letter of a two-character escape, where there is one. */
  function ShortEscape(u: CodeUnit): Option<CodeUnit> {
    if u == 0x08 then Some(0x62)
    else if u == 0x09 then Some(0x74)
    else if u == 0x0A then Some(0x6E)
    else if u == 0x0C then Some(0x66)
    else if u == 0x0D then Some(0x72)
    else if u == QUOTE then Some(QUOTE)
    else if u == BACKSLASH then Some(BACKSLASH)
    else None
  }

  function FromShortEscape(letter: CodeUnit): Option<CodeUnit> {
    if letter == 0x62 then Some(0x08)
    else if letter == 0x74 then Some(0x09)
    else if letter == 0x6E then Some(0x0A)
    else if letter == 0x66 then Some(0x0C)
    else if letter == 0x72 then Some(0x0D)
    else if letter == QUOTE || letter == BACKSLASH || letter == 0x2F then Some(letter)
    else None
  }

  function HexDigit(d: int): CodeUnit
    requires 0 <= d < 16
  {
    if d < 10 then (48 + d) as CodeUnit else (87 + d) as CodeUnit
  }

  function HexValue(u: CodeUnit): (d: Option<int>)
    ensures d.Some? ==> 0 <= d.value < 16
  {
    if 48 <= u <= 57 then Some(u as int - 48)
    else if 97 <= u <= 102 then Some(u as int - 87)
    else if 65 <= u <= 70 then Some(u as int - 55)
    else None
  }

  function HexPair(n: int): Text
    requires 0 <= n < 256
  {
    [HexDigit(n / 16), HexDigit(n % 16)]
  }

  function UnicodeEscape(u: CodeUnit): Text {
    [BACKSLASH, LETTER_U] + HexPair(u as int / 256) + HexPair(u as int % 256)
  }

  /** One code unit that is not half of a surrogate pair. */
  function Escape(u: CodeUnit): (e: Text)
    ensures |e| > 0
  {
    if ShortEscape(u).Some? then [BACKSLASH, ShortEscape(u).value]
    else if u < 0x20 || IsLead(u) || IsTrail(u) then UnicodeEscape(u)
    else [u]
  }

  predicate StartsWithPair(s: Text) {
    |s| >= 2 && IsLead(s[0]) && IsTrail(s[1])
  }

  function EscapeAll(s: Text): Text {
    if s == [] then []
    else if StartsWithPair(s) then s[..2] + EscapeAll(s[2..])
    else Escape(s[0]) + EscapeAll(s[1..])
  }

  function Quoted(s: Text): Text {
    [QUOTE] + EscapeAll(s) + [QUOTE]
  }

  datatype Parsed<+T> = Parsed(result: T, rest: Text)

  /** One possibly escaped code unit. */
  function ParseUnit(t: Text): (p: Option<Parsed<CodeUnit>>)
    ensures p.Some? ==> |p.value.rest| < |t|
  {
    if t == [] then None
    else if t[0] != BACKSLASH then Some(Parsed(t[0], t[1..]))
    else if |t| < 2 then None
    else if t[1] != LETTER_U then
      if FromShortEscape(t[1]).Some? then Some(Parsed(FromShortEscape(t[1]).value, t[2..])) else None
    else if |t| < 6 then None
    else
      match ParseHex(t[2], t[3], t[4], t[5])
      case Some(u) => Some(Parsed(u, t[6..]))
      case None => None
  }

  function ParseHex(a: CodeUnit, b: CodeUnit, c: CodeUnit, d: CodeUnit): Option<CodeUnit> {
    var (high, low) := (ParseHexPair(a, b), ParseHexPair(c, d));
    if high.Some? && low.Some? then Some((high.value * 256 + low.value) as CodeUnit) else None
  }

  function ParseHexPair(a: CodeUnit, b: CodeUnit): (p: Option<int>)
    ensures p.Some? ==> 0 <= p.value < 256
  {
    if HexValue(a).Some? && HexValue(b).Some? then Some(HexValue(a).value * 16 + HexValue(b).value) else None
  }

  /** The inside of a string, through its closing quote. */
  function ParseChars(t: Text): (p: Option<Parsed<Text>>)
    ensures p.Some? ==> |p.value.rest| < |t|
    decreases |t|
  {
    if t == [] then None
    else if t[0] == QUOTE then Some(Parsed([], t[1..]))
    else
      match ParseUnit(t)
      case None => None
      case Some(first) =>
        match ParseChars(first.rest)
        case None => None
        case Some(more) => Some(Parsed([first.result] + more.result, more.rest))
  }

  lemma HexRoundTrip(n: int)
    requires 0 <= n < 256
    ensures ParseHexPair(HexPair(n)[0], HexPair(n)[1]) == Some(n)
  {
    var high, low := n / 16, n % 16;
    assert HexValue(HexDigit(high)) == Some(high);
    assert HexValue(HexDigit(low)) == Some(low);
  }

  lemma UnicodeEscapeRoundTrip(u: CodeUnit, rest: Text)
    ensures ParseUnit(UnicodeEscape(u) + rest) == Some(Parsed(u, rest))
  {
    var high, low := u as int / 256, u as int % 256;
    HexRoundTrip(high);
    HexRoundTrip(low);
    var t := UnicodeEscape(u) + rest;
    assert ParseHex(t[2], t[3], t[4], t[5]) == Some(u);
    assert t[6..] == rest;
  }

  lemma UnitRoundTrip(u: CodeUnit, rest: Text)
    ensures ParseUnit(Escape(u) + rest) == Some(Parsed(u, rest))
    ensures (Escape(u) + rest)[0] != QUOTE
  {
    if ShortEscape(u).Some? {
      assert (Escape(u) + rest)[2..] == rest;
    } else if u < 0x20 || IsLead(u) || IsTrail(u) {
      UnicodeEscapeRoundTrip(u, rest);
    } else {
      assert (Escape(u) + rest)[1..] == rest;
    }
  }

  /** A string that continues what parses as `more` with one more unit in front. */
  lemma CharsStep(u: CodeUnit, e: Text, more: Text, tail: Text, rest: Text)
    requires e != [] && e[0] != QUOTE && ParseUnit(e + tail) == Some(Parsed(u, tail))
    requires ParseChars(tail) == Some(Parsed(more, rest))
    ensures ParseChars(e + tail) == Some(Parsed([u] + more, rest))
  {
  }

  lemma PlainUnit(u: CodeUnit, rest: Text)
    requires u != BACKSLASH
    ensures ParseUnit([u] + rest) == Some(Parsed(u, rest))
  {
    assert ([u] + rest)[1..] == rest;
  }

  lemma {:induction false} CharsRoundTrip(s: Text, rest: Text)
    ensures ParseChars(EscapeAll(s) + [QUOTE] + rest) == Some(Parsed(s, rest))
    decreases |s|
  {
    if s == [] {
      assert EscapeAll(s) + [QUOTE] + rest == [QUOTE] + rest;
      assert ([QUOTE] + rest)[1..] == rest;
    } else if StartsWithPair(s) {
      PairRoundTrip(s, rest);
    } else {
      CharsRoundTrip(s[1..], rest);
      var tail := EscapeAll(s[1..]) + [QUOTE] + rest;
      UnitRoundTrip(s[0], tail);
      CharsStep(s[0], Escape(s[0]), s[1..], tail, rest);
      assert EscapeAll(s) + [QUOTE] + rest == Escape(s[0]) + tail;
      assert s == [s[0]] + s[1..];
    }
  }

  lemma {:induction false} PairRoundTrip(s: Text, rest: Text)
    requires StartsWithPair(s)
    ensures ParseChars(EscapeAll(s) + [QUOTE] + rest) == Some(Parsed(s, rest))
    decreases |s|, 0
  {
    CharsRoundTrip(s[2..], rest);
    var tail := EscapeAll(s[2..]) + [QUOTE] + rest;
    PlainUnit(s[1], tail);
    CharsStep(s[1], [s[1]], s[2..], tail, rest);
    PlainUnit(s[0], [s[1]] + tail);
    CharsStep(s[0], [s[0]], [s[1]] + s[2..], [s[1]] + tail, rest);
    assert EscapeAll(s) + [QUOTE] + rest == [s[0]] + ([s[1]] + tail);
    assert s == [s[0]] + ([s[1]] + s[2..]);
  }

  // ---- Numbers ----

  predicate IsDigit(u: CodeUnit) { 48 <= u <= 57 }

  function Digits(n: nat): (t: Text)
    ensures |t| > 0 && forall i :: 0 <= i < |t| ==> IsDigit(t[i])
  {
    if n < 10 then [(48 + n) as CodeUnit] else Digits(n / 10) + [(48 + n % 10) as CodeUnit]
  }

  function Decimal(n: int): Text {
    if n < 0 then [MINUS] + Digits(-n) else Digits(n)
  }

  /** Reads digits from the front, most significant first, onto what was read before. */
  function ParseDigits(read: nat, t: Text): (p: Parsed<nat>)
    ensures |p.rest| <= |t|
    decreases |t|
  {
    if t != [] && IsDigit(t[0]) then ParseDigits(read * 10 + (t[0] as int - 48), t[1..]) else Parsed(read, t)
  }

  ghost predicate StartsNoDigit(t: Text) {
    t == [] || !IsDigit(t[0])
  }

  lemma NextDigit(read: nat, digit: nat, rest: Text)
    requires digit < 10
    ensures ParseDigits(read, [(48 + digit) as CodeUnit] + rest) == ParseDigits(read * 10 + digit, rest)
  {
    var t := [(48 + digit) as CodeUnit] + rest;
    assert t[1..] == rest && t[0] as int - 48 == digit;
  }

  lemma {:induction false} DigitsRoundTrip(n: nat, rest: Text)
    ensures ParseDigits(0, Digits(n) + rest) == ParseDigits(n, rest)
    decreases n
  {
    if n < 10 {
      NextDigit(0, n, rest);
    } else {
      var q, r := n / 10, n % 10;
      var last := [(48 + r) as CodeUnit];
      DigitsRoundTrip(q, last + rest);
      assert Digits(n) + rest == Digits(q) + (last + rest);
      NextDigit(q, r, rest);
      assert q * 10 + r == n;
    }
  }

  // ---- The printer ----

  /** Keys in code unit order. */
  predicate KeyLe(a: Text, b: Text) {
    LexLe(a, b, UnitLess)
  }

  predicate UnitLess(x: CodeUnit, y: CodeUnit) {
    x < y
  }

  predicate FieldLe(a: Field, b: Field) {
    KeyLe(a.key, b.key)
  }

  predicate IsDefined(f: Field) {
    !f.value.Undefined?
  }

  /** The fields that are there, in the order they are printed. */
  function PrintedFields(fields: seq<Field>): (r: seq<Field>)
    ensures forall f :: f in r <==> f in fields && IsDefined(f)
  {
    var there := Filter(fields, IsDefined);
    SortKeepsMembers(there, FieldLe);
    Sort(there, FieldLe)
  }

  function Join(texts: seq<Text>): Text {
    if texts == [] then []
    else if |texts| == 1 then texts[0]
    else texts[0] + [COMMA] + Join(texts[1..])
  }

  function CanonicalJson(v: Value): Text
    decreases v
  {
    match v
    case Undefined => NULL_TEXT
    case Null => NULL_TEXT
    case Bool(truth) => if truth then TRUE_TEXT else FALSE_TEXT
    case Num(n) => Decimal(n)
    case Str(s) => Quoted(s)
    case Arr(items) => [OPEN_BRACKET] + Join(ItemTexts(v, items)) + [CLOSE_BRACKET]
    case Obj(fields) => [OPEN_BRACE] + Join(FieldTexts(v, PrintedFields(fields))) + [CLOSE_BRACE]
  }

  lemma ItemIsSmaller(v: Value, x: Value)
    requires v.Arr? && x in v.items
    ensures v decreases to x
  {
    var i :| 0 <= i < |v.items| && v.items[i] == x;
  }

  lemma FieldIsSmaller(v: Value, f: Field)
    requires v.Obj? && f in v.fields
    ensures v decreases to f
    ensures v decreases to f.value
  {
    var i :| 0 <= i < |v.fields| && v.fields[i] == f;
  }

  function ItemTexts(v: Value, items: seq<Value>): seq<Text>
    requires v.Arr? && forall x :: x in items ==> x in v.items
    decreases v, 0, |items|
  {
    if items == [] then []
    else
      ItemIsSmaller(v, items[0]);
      [CanonicalJson(items[0])] + ItemTexts(v, items[1..])
  }

  function FieldText(f: Field): Text
    decreases f
  {
    Quoted(f.key) + [COLON] + CanonicalJson(f.value)
  }

  function FieldTexts(v: Value, fields: seq<Field>): seq<Text>
    requires v.Obj? && forall x :: x in fields ==> x in v.fields
    decreases v, 0, |fields|
  {
    if fields == [] then []
    else
      FieldIsSmaller(v, fields[0]);
      [FieldText(fields[0])] + FieldTexts(v, fields[1..])
  }

  // ---- The parser ----

  predicate StartsWith(t: Text, prefix: Text) {
    |prefix| <= |t| && t[..|prefix|] == prefix
  }

  function ParseLiteral(t: Text): (p: Option<Parsed<Value>>)
    ensures p.Some? ==> |p.value.rest| < |t| && t[0] != CLOSE_BRACKET
  {
    if StartsWith(t, NULL_TEXT) then Some(Parsed(Null, t[4..]))
    else if StartsWith(t, TRUE_TEXT) then Some(Parsed(Bool(true), t[4..]))
    else if StartsWith(t, FALSE_TEXT) then Some(Parsed(Bool(false), t[5..]))
    else None
  }

  function ParseNumber(t: Text): (p: Option<Parsed<Value>>)
    ensures p.Some? ==> |p.value.rest| < |t| && t[0] != CLOSE_BRACKET
  {
    if t != [] && IsDigit(t[0]) then
      var p := ParseDigits(t[0] as int - 48, t[1..]);
      Some(Parsed(Num(p.result), p.rest))
    else if |t| > 1 && t[0] == MINUS && IsDigit(t[1]) then
      var p := ParseDigits(t[1] as int - 48, t[2..]);
      Some(Parsed(Num(0 - p.result), p.rest))
    else None
  }

  function ParseValue(t: Text): (p: Option<Parsed<Value>>)
    ensures p.Some? ==> |p.value.rest| < |t| && t[0] != CLOSE_BRACKET
    decreases |t|, 1
  {
    if t == [] then None
    else if t[0] == QUOTE then
      match ParseChars(t[1..])
      case Some(p) => Some(Parsed(Str(p.result), p.rest))
      case None => None
    else if t[0] == OPEN_BRACKET then
      if |t| > 1 && t[1] == CLOSE_BRACKET then Some(Parsed(Arr([]), t[2..]))
      else
        match ParseItems(t[1..])
        case Some(p) => Some(Parsed(Arr(p.result), p.rest))
        case None => None
    else if t[0] == OPEN_BRACE then
      if |t| > 1 && t[1] == CLOSE_BRACE then Some(Parsed(Obj([]), t[2..]))
      else
        match ParseFields(t[1..])
        case Some(p) => Some(Parsed(Obj(p.result), p.rest))
        case None => None
    else if t[0] == MINUS || IsDigit(t[0]) then ParseNumber(t)
    else ParseLiteral(t)
  }

  /** One item or more, through the closing bracket. */
  function ParseItems(t: Text): (p: Option<Parsed<seq<Value>>>)
    ensures p.Some? ==> |p.value.rest| < |t|
    decreases |t|, 2
  {
    match ParseValue(t)
    case None => None
    case Some(first) =>
      if first.rest == [] then None
      else if first.rest[0] == CLOSE_BRACKET then Some(Parsed([first.result], first.rest[1..]))
      else if first.rest[0] != COMMA then None
      else
        match ParseItems(first.rest[1..])
        case None => None
        case Some(more) => Some(Parsed([first.result] + more.result, more.rest))
  }

  function ParseField(t: Text): (p: Option<Parsed<Field>>)
    ensures p.Some? ==> |p.value.rest| < |t|
    decreases |t|, 2
  {
    if t == [] || t[0] != QUOTE then None
    else
      match ParseChars(t[1..])
      case None => None
      case Some(key) =>
        if key.rest == [] || key.rest[0] != COLON then None
        else
          match ParseValue(key.rest[1..])
          case None => None
          case Some(value) => Some(Parsed(Field(key.result, value.result), value.rest))
  }

  /** One field or more, through the closing brace. */
  function ParseFields(t: Text): (p: Option<Parsed<seq<Field>>>)
    ensures p.Some? ==> |p.value.rest| < |t|
    decreases |t|, 3
  {
    match ParseField(t)
    case None => None
    case Some(first) =>
      if first.rest == [] then None
      else if first.rest[0] == CLOSE_BRACE then Some(Parsed([first.result], first.rest[1..]))
      else if first.rest[0] != COMMA then None
      else
        match ParseFields(first.rest[1..])
        case None => None
        case Some(more) => Some(Parsed([first.result] + more.result, more.rest))
  }

  // ---- What parsing gives back ----

  /** The JSON value: fields in key order, nothing undefined. */
  function Normal(v: Value): Value
    decreases v
  {
    match v
    case Undefined => Null
    case Arr(items) => Arr(NormalItems(v, items))
    case Obj(fields) => Obj(NormalFields(v, PrintedFields(fields)))
    case _ => v
  }

  function NormalItems(v: Value, items: seq<Value>): (r: seq<Value>)
    requires v.Arr? && forall x :: x in items ==> x in v.items
    ensures |r| == |items|
    decreases v, 0, |items|
  {
    if items == [] then []
    else
      ItemIsSmaller(v, items[0]);
      [Normal(items[0])] + NormalItems(v, items[1..])
  }

  function NormalField(f: Field): Field
    decreases f
  {
    Field(f.key, Normal(f.value))
  }

  function NormalFields(v: Value, fields: seq<Field>): (r: seq<Field>)
    requires v.Obj? && forall x :: x in fields ==> x in v.fields
    ensures |r| == |fields|
    decreases v, 0, |fields|
  {
    if fields == [] then []
    else
      FieldIsSmaller(v, fields[0]);
      [NormalField(fields[0])] + NormalFields(v, fields[1..])
  }

  lemma LiteralRoundTrip(v: Value, rest: Text)
    requires v.Null? || v.Undefined? || v.Bool?
    ensures ParseValue(CanonicalJson(v) + rest) == Some(Parsed(Normal(v), rest))
  {
    var text := CanonicalJson(v);
    var t := text + rest;
    assert t[..|text|] == text && t[|text|..] == rest;
    assert t[0] == text[0];
    assert ParseValue(t) == ParseLiteral(t);
    if v == Bool(true) {
      assert t[..4][0] == 0x74 != NULL_TEXT[0];
      assert StartsWith(t, TRUE_TEXT);
    } else if v == Bool(false) {
      assert t[..4][0] == 0x66;
      assert !StartsWith(t, NULL_TEXT) && !StartsWith(t, TRUE_TEXT);
      assert StartsWith(t, FALSE_TEXT);
    } else {
      assert StartsWith(t, NULL_TEXT);
    }
  }

  lemma NumberRoundTrip(n: int, rest: Text)
    requires StartsNoDigit(rest)
    ensures ParseValue(Decimal(n) + rest) == Some(Parsed(Num(n), rest))
  {
    var size := if n < 0 then -n else n;
    var d := Digits(size) + rest;
    DigitsRoundTrip(size, rest);
    assert ParseDigits(0, d) == ParseDigits(d[0] as int - 48, d[1..]);
    if n < 0 {
      var t := Decimal(n) + rest;
      assert t == [MINUS] + d;
      assert t[1] == d[0] && t[2..] == d[1..];
      assert ParseNumber(t) == Some(Parsed(Num(n), rest));
    } else {
      assert ParseNumber(d) == Some(Parsed(Num(n), rest));
    }
  }

  lemma QuotedRoundTrip(s: Text, rest: Text)
    ensures (Quoted(s) + rest)[0] == QUOTE && ParseChars((Quoted(s) + rest)[1..]) == Some(Parsed(s, rest))
  {
    CharsRoundTrip(s, rest);
    QuotedTail([QUOTE], EscapeAll(s), [QUOTE], rest);
  }

  lemma QuotedTail(a: Text, b: Text, c: Text, d: Text)
    requires |a| == 1
    ensures ((a + b + c) + d)[0] == a[0] && ((a + b + c) + d)[1..] == b + c + d
  {
  }

  lemma StringRoundTrip(s: Text, rest: Text)
    ensures ParseValue(Quoted(s) + rest) == Some(Parsed(Str(s), rest))
    ensures (Quoted(s) + rest)[0] == QUOTE && ParseChars((Quoted(s) + rest)[1..]) == Some(Parsed(s, rest))
  {
    QuotedRoundTrip(s, rest);
  }

  /** The parser reads back exactly what was printed, and stops where it ends. */
  lemma {:induction false} ParseUndoesPrint(v: Value, rest: Text)
    requires StartsNoDigit(rest)
    ensures ParseValue(CanonicalJson(v) + rest) == Some(Parsed(Normal(v), rest))
    decreases v, 1
  {
    match v
    case Undefined => LiteralRoundTrip(v, rest);
    case Null => LiteralRoundTrip(v, rest);
    case Bool(_) => LiteralRoundTrip(v, rest);
    case Num(n) => NumberRoundTrip(n, rest);
    case Str(s) => StringRoundTrip(s, rest);
    case Arr(items) => ArrayRoundTrip(v, rest);
    case Obj(fields) => ObjectRoundTrip(v, rest);
  }

  /** The items and the closing bracket, with what comes after. */
  ghost function ItemsText(v: Value, items: seq<Value>, rest: Text): Text
    requires v.Arr? && forall x :: x in items ==> x in v.items
  {
    Join(ItemTexts(v, items)) + [CLOSE_BRACKET] + rest
  }

  lemma LastItemText(v: Value, items: seq<Value>, rest: Text)
    requires v.Arr? && |items| == 1 && items[0] in v.items
    ensures ItemsText(v, items, rest) == CanonicalJson(items[0]) + ([CLOSE_BRACKET] + rest)
    ensures NormalItems(v, items) == [Normal(items[0])]
  {
    assert items[1..] == [] && ItemTexts(v, items[1..]) == [] && NormalItems(v, items[1..]) == [];
    assert ItemTexts(v, items) == [CanonicalJson(items[0])] + ItemTexts(v, items[1..]);
    assert NormalItems(v, items) == [Normal(items[0])] + NormalItems(v, items[1..]);
  }

  lemma JoinMore(first: Text, rest: seq<Text>, close: Text, after: Text)
    requires rest != []
    ensures Join([first] + rest) + close + after == first + ([COMMA] + (Join(rest) + close + after))
  {
    assert ([first] + rest)[1..] == rest;
    Regroup(first, [COMMA], Join(rest), close, after);
  }

  lemma Regroup(a: Text, b: Text, c: Text, d: Text, e: Text)
    ensures a + b + c + d + e == a + (b + (c + d + e))
  {
  }

  lemma MoreItemsText(v: Value, items: seq<Value>, rest: Text)
    requires v.Arr? && |items| > 1 && forall x :: x in items ==> x in v.items
    ensures ItemsText(v, items, rest) == CanonicalJson(items[0]) + ([COMMA] + ItemsText(v, items[1..], rest))
    ensures NormalItems(v, items) == [Normal(items[0])] + NormalItems(v, items[1..])
  {
    var texts := ItemTexts(v, items[1..]);
    assert texts != [] by {
      assert items[1..] != [];
    }
    assert ItemTexts(v, items) == [CanonicalJson(items[0])] + texts;
    JoinMore(CanonicalJson(items[0]), texts, [CLOSE_BRACKET], rest);
  }

  lemma LastItem(t: Text, x: Value, rest: Text)
    requires ParseValue(t) == Some(Parsed(x, [CLOSE_BRACKET] + rest))
    ensures ParseItems(t) == Some(Parsed([x], rest))
  {
    assert ([CLOSE_BRACKET] + rest)[1..] == rest;
  }

  lemma MoreItems(t: Text, x: Value, tail: Text, items: seq<Value>, rest: Text)
    requires ParseValue(t) == Some(Parsed(x, [COMMA] + tail)) && ParseItems(tail) == Some(Parsed(items, rest))
    ensures ParseItems(t) == Some(Parsed([x] + items, rest))
  {
    assert ([COMMA] + tail)[1..] == tail;
  }

  lemma {:induction false} ArrayRoundTrip(v: Value, rest: Text)
    requires v.Arr?
    ensures ParseValue(CanonicalJson(v) + rest) == Some(Parsed(Normal(v), rest))
    decreases v, 0, |v.items| + 1
  {
    var t := CanonicalJson(v) + rest;
    if v.items == [] {
      assert ItemTexts(v, v.items) == [];
      assert t == [OPEN_BRACKET, CLOSE_BRACKET] + rest;
      assert t[2..] == rest;
    } else {
      ItemsRoundTrip(v, v.items, rest);
      assert t[1..] == ItemsText(v, v.items, rest);
      assert t[1] == t[1..][0];
    }
  }

  lemma {:induction false} ItemsRoundTrip(v: Value, items: seq<Value>, rest: Text)
    requires v.Arr? && items != [] && forall x :: x in items ==> x in v.items
    ensures var t := ItemsText(v, items, rest);
      t[0] != CLOSE_BRACKET && ParseItems(t) == Some(Parsed(NormalItems(v, items), rest))
    decreases v, 0, |items|
  {
    var t := ItemsText(v, items, rest);
    ItemIsSmaller(v, items[0]);
    if |items| == 1 {
      LastItemText(v, items, rest);
      ParseUndoesPrint(items[0], [CLOSE_BRACKET] + rest);
      LastItem(t, Normal(items[0]), rest);
    } else {
      var tail := ItemsText(v, items[1..], rest);
      MoreItemsText(v, items, rest);
      ParseUndoesPrint(items[0], [COMMA] + tail);
      ItemsRoundTrip(v, items[1..], rest);
      MoreItems(t, Normal(items[0]), tail, NormalItems(v, items[1..]), rest);
    }
  }

  lemma {:induction false} ObjectRoundTrip(v: Value, rest: Text)
    requires v.Obj?
    ensures ParseValue(CanonicalJson(v) + rest) == Some(Parsed(Normal(v), rest))
    decreases v, 0, |PrintedFields(v.fields)| + 1
  {
    var t := CanonicalJson(v) + rest;
    var printed := PrintedFields(v.fields);
    if printed == [] {
      assert FieldTexts(v, printed) == [];
      assert t == [OPEN_BRACE, CLOSE_BRACE] + rest;
      assert t[2..] == rest;
    } else {
      FieldsRoundTrip(v, printed, rest);
      assert t[1..] == FieldsText(v, printed, rest);
      assert t[1] == t[1..][0];
    }
  }

  lemma FieldStep(t: Text, key: Text, value: Value, valueText: Text, rest: Text)
    requires t != [] && t[0] == QUOTE && ParseChars(t[1..]) == Some(Parsed(key, [COLON] + valueText))
    requires ParseValue(valueText) == Some(Parsed(value, rest))
    ensures ParseField(t) == Some(Parsed(Field(key, value), rest))
  {
    assert ([COLON] + valueText)[1..] == valueText;
  }

  lemma LastField(t: Text, f: Field, rest: Text)
    requires ParseField(t) == Some(Parsed(f, [CLOSE_BRACE] + rest))
    ensures ParseFields(t) == Some(Parsed([f], rest))
  {
    assert ([CLOSE_BRACE] + rest)[1..] == rest;
  }

  lemma MoreFields(t: Text, f: Field, tail: Text, fields: seq<Field>, rest: Text)
    requires ParseField(t) == Some(Parsed(f, [COMMA] + tail)) && ParseFields(tail) == Some(Parsed(fields, rest))
    ensures ParseFields(t) == Some(Parsed([f] + fields, rest))
  {
    assert ([COMMA] + tail)[1..] == tail;
  }

  lemma {:induction false} FieldRoundTrip(v: Value, f: Field, rest: Text)
    requires v.Obj? && f in v.fields && StartsNoDigit(rest)
    ensures (FieldText(f) + rest)[0] == QUOTE
    ensures ParseField(FieldText(f) + rest) == Some(Parsed(NormalField(f), rest))
    decreases v, 0, 0
  {
    FieldIsSmaller(v, f);
    ParseUndoesPrint(f.value, rest);
    var valueText := CanonicalJson(f.value) + rest;
    StringRoundTrip(f.key, [COLON] + valueText);
    Regroup4(Quoted(f.key), [COLON], CanonicalJson(f.value), rest);
    FieldStep(Quoted(f.key) + ([COLON] + valueText), f.key, Normal(f.value), valueText, rest);
  }

  lemma Regroup4(a: Text, b: Text, c: Text, d: Text)
    ensures a + b + c + d == a + (b + (c + d))
  {
  }

  /** The fields and the closing brace, with what comes after. */
  ghost function FieldsText(v: Value, fields: seq<Field>, rest: Text): Text
    requires v.Obj? && forall x :: x in fields ==> x in v.fields
  {
    Join(FieldTexts(v, fields)) + [CLOSE_BRACE] + rest
  }

  lemma LastFieldText(v: Value, fields: seq<Field>, rest: Text)
    requires v.Obj? && |fields| == 1 && fields[0] in v.fields
    ensures FieldsText(v, fields, rest) == FieldText(fields[0]) + ([CLOSE_BRACE] + rest)
    ensures NormalFields(v, fields) == [NormalField(fields[0])]
  {
    assert fields[1..] == [] && FieldTexts(v, fields[1..]) == [] && NormalFields(v, fields[1..]) == [];
    assert FieldTexts(v, fields) == [FieldText(fields[0])] + FieldTexts(v, fields[1..]);
    assert NormalFields(v, fields) == [NormalField(fields[0])] + NormalFields(v, fields[1..]);
  }

  lemma MoreFieldsText(v: Value, fields: seq<Field>, rest: Text)
    requires v.Obj? && |fields| > 1 && forall x :: x in fields ==> x in v.fields
    ensures FieldsText(v, fields, rest) == FieldText(fields[0]) + ([COMMA] + FieldsText(v, fields[1..], rest))
    ensures NormalFields(v, fields) == [NormalField(fields[0])] + NormalFields(v, fields[1..])
  {
    var texts := FieldTexts(v, fields[1..]);
    assert texts != [] by {
      assert fields[1..] != [];
    }
    assert FieldTexts(v, fields) == [FieldText(fields[0])] + texts;
    JoinMore(FieldText(fields[0]), texts, [CLOSE_BRACE], rest);
  }

  lemma {:induction false} FieldsRoundTrip(v: Value, fields: seq<Field>, rest: Text)
    requires v.Obj? && fields != [] && forall x :: x in fields ==> x in v.fields
    ensures var t := FieldsText(v, fields, rest);
      t[0] == QUOTE && ParseFields(t) == Some(Parsed(NormalFields(v, fields), rest))
    decreases v, 0, |fields|
  {
    var t := FieldsText(v, fields, rest);
    if |fields| == 1 {
      LastFieldText(v, fields, rest);
      FieldRoundTrip(v, fields[0], [CLOSE_BRACE] + rest);
      LastField(t, NormalField(fields[0]), rest);
    } else {
      var tail := FieldsText(v, fields[1..], rest);
      MoreFieldsText(v, fields, rest);
      FieldRoundTrip(v, fields[0], [COMMA] + tail);
      FieldsRoundTrip(v, fields[1..], rest);
      MoreFields(t, NormalField(fields[0]), tail, NormalFields(v, fields[1..]), rest);
    }
  }

  // ---- The same JSON value ----

  /** No object repeats a key. */
  ghost predicate WellFormed(v: Value)
    decreases v
  {
    match v
    case Arr(items) => forall i :: 0 <= i < |items| ==> WellFormed(items[i])
    case Obj(fields) => DistinctKeys(fields) && forall i :: 0 <= i < |fields| ==> WellFormed(fields[i].value)
    case _ => true
  }

  ghost predicate DistinctKeys(fields: seq<Field>) {
    forall i, j :: 0 <= i < j < |fields| ==> fields[i].key != fields[j].key
  }

  /** Equal up to the order of keys, undefined fields dropped, and undefined elsewhere read as null. */
  ghost predicate Same(a: Value, b: Value)
    decreases a
  {
    match a
    case Undefined => b.Undefined? || b.Null?
    case Null => b.Undefined? || b.Null?
    case Arr(items) => b.Arr? && |items| == |b.items| && forall i :: 0 <= i < |items| ==> Same(items[i], b.items[i])
    case Obj(fields) =>
      && b.Obj?
      && KeysCovered(b.fields, fields)
      && (forall i :: 0 <= i < |fields| && IsDefined(fields[i]) ==> SameIn(fields[i], b.fields))
    case _ => a == b
  }

  ghost predicate SameIn(f: Field, others: seq<Field>)
    decreases f
  {
    exists j :: 0 <= j < |others| && IsDefined(others[j]) && others[j].key == f.key && Same(f.value, others[j].value)
  }

  ghost predicate KeysCovered(fields: seq<Field>, others: seq<Field>) {
    forall j :: 0 <= j < |fields| && IsDefined(fields[j]) ==> HasKey(others, fields[j].key)
  }

  ghost predicate HasKey(fields: seq<Field>, key: Text) {
    exists i :: 0 <= i < |fields| && IsDefined(fields[i]) && fields[i].key == key
  }

  // ---- Equal texts mean the same value ----

  lemma {:induction false} NormalItemsAt(v: Value, items: seq<Value>, i: nat)
    requires v.Arr? && (forall x :: x in items ==> x in v.items) && i < |items|
    ensures NormalItems(v, items)[i] == Normal(items[i])
    decreases i
  {
    if i > 0 {
      NormalItemsAt(v, items[1..], i - 1);
    }
  }

  lemma {:induction false} NormalFieldsAt(v: Value, fields: seq<Field>, i: nat)
    requires v.Obj? && (forall x :: x in fields ==> x in v.fields) && i < |fields|
    ensures NormalFields(v, fields)[i] == NormalField(fields[i])
    decreases i
  {
    if i > 0 {
      NormalFieldsAt(v, fields[1..], i - 1);
    }
  }

  lemma {:induction false} NormalEqualIsSame(a: Value, b: Value)
    requires Normal(a) == Normal(b)
    ensures Same(a, b)
    decreases a
  {
    match a
    case Arr(items) =>
      forall i | 0 <= i < |items|
        ensures Same(items[i], b.items[i])
      {
        NormalItemsAt(a, items, i);
        NormalItemsAt(b, b.items, i);
        NormalEqualIsSame(items[i], b.items[i]);
      }
    case Obj(fields) =>
      forall j | 0 <= j < |b.fields| && IsDefined(b.fields[j])
        ensures HasKey(fields, b.fields[j].key)
      {
        var i := Counterpart(b, a, j);
      }
      forall i | 0 <= i < |fields| && IsDefined(fields[i])
        ensures SameIn(fields[i], b.fields)
      {
        var j := Counterpart(a, b, i);
        NormalEqualIsSame(fields[i].value, b.fields[j].value);
      }
    case _ =>
  }

  /** Where the other object keeps the field. */
  lemma Counterpart(a: Value, b: Value, i: nat) returns (j: nat)
    requires a.Obj? && b.Obj? && Normal(a) == Normal(b) && i < |a.fields| && IsDefined(a.fields[i])
    ensures j < |b.fields| && IsDefined(b.fields[j]) && b.fields[j].key == a.fields[i].key
    ensures Normal(b.fields[j].value) == Normal(a.fields[i].value)
  {
    var fa, fb := PrintedFields(a.fields), PrintedFields(b.fields);
    assert NormalFields(a, fa) == NormalFields(b, fb);
    assert a.fields[i] in fa;
    var k :| 0 <= k < |fa| && fa[k] == a.fields[i];
    NormalFieldsAt(a, fa, k);
    NormalFieldsAt(b, fb, k);
    assert fb[k] in fb;
    j :| 0 <= j < |b.fields| && b.fields[j] == fb[k];
  }

  // ---- The same value gets equal texts ----

  lemma KeysCompare(a: Text, b: Text)
    ensures KeyLe(a, b) || KeyLe(b, a)
    ensures KeyLe(a, b) && KeyLe(b, a) ==> a == b
  {
    LexTotal(a, b, UnitLess);
  }

  lemma FieldOrder()
    ensures TotalPreorder(FieldLe)
  {
    forall x: Field, y: Field
      ensures FieldLe(x, y) || FieldLe(y, x)
    {
      KeysCompare(x.key, y.key);
    }
    forall x: Field, y: Field, z: Field | FieldLe(x, y) && FieldLe(y, z)
      ensures FieldLe(x, z)
    {
      LexTransitive(x.key, y.key, z.key, UnitLess);
    }
  }

  lemma {:induction false} FilterDistinct(fields: seq<Field>)
    requires DistinctKeys(fields)
    ensures DistinctKeys(Filter(fields, IsDefined))
  {
    if fields != [] {
      FilterDistinct(fields[1..]);
      var rest := Filter(fields[1..], IsDefined);
      forall j | 0 <= j < |rest|
        ensures rest[j].key != fields[0].key
      {
        assert rest[j] in fields[1..];
      }
    }
  }

  lemma {:induction false} InsertDistinct(x: Field, fields: seq<Field>)
    requires DistinctKeys([x] + fields)
    ensures DistinctKeys(InsertInto(x, fields, FieldLe))
  {
    if fields != [] && !FieldLe(x, fields[0]) {
      var all := [x] + fields;
      forall i, j | 0 <= i < j < |fields|
        ensures fields[i].key != fields[j].key
      {
        assert all[i + 1].key != all[j + 1].key;
      }
      forall j | 0 <= j < |fields|
        ensures x.key != fields[j].key
      {
        assert all[0].key != all[j + 1].key;
      }
      InsertDistinct(x, fields[1..]);
      var rest := InsertInto(x, fields[1..], FieldLe);
      InsertKeepsMembers(x, fields[1..], FieldLe);
      forall j | 0 <= j < |rest|
        ensures rest[j].key != fields[0].key
      {
        assert rest[j] in rest;
        assert rest[j] == x || rest[j] in fields[1..];
      }
    }
  }

  lemma {:induction false} SortDistinct(fields: seq<Field>)
    requires DistinctKeys(fields)
    ensures DistinctKeys(Sort(fields, FieldLe))
  {
    if fields != [] {
      SortDistinct(fields[1..]);
      var rest := Sort(fields[1..], FieldLe);
      SortKeepsMembers(fields[1..], FieldLe);
      forall j | 0 <= j < |rest|
        ensures rest[j].key != fields[0].key
      {
        assert rest[j] in rest;
        assert rest[j] in fields[1..];
      }
      InsertDistinct(fields[0], rest);
    }
  }

  lemma PrintedOrder(fields: seq<Field>)
    requires DistinctKeys(fields)
    ensures InKeyOrder(PrintedFields(fields))
  {
    FieldOrder();
    SortSorts(Filter(fields, IsDefined), FieldLe);
    FilterDistinct(fields);
    SortDistinct(Filter(fields, IsDefined));
  }

  ghost predicate KeysWithin(fa: seq<Field>, fb: seq<Field>) {
    forall i :: 0 <= i < |fa| ==> KeyAmong(fb, fa[i].key)
  }

  ghost predicate KeyAmong(fields: seq<Field>, key: Text) {
    exists j :: 0 <= j < |fields| && fields[j].key == key
  }

  ghost predicate SameKeys(fa: seq<Field>, fb: seq<Field>) {
    |fa| == |fb| && forall i :: 0 <= i < |fa| ==> fa[i].key == fb[i].key
  }

  lemma SameKeysCons(fa: seq<Field>, fb: seq<Field>)
    requires fa != [] && fb != [] && fa[0].key == fb[0].key && SameKeys(fa[1..], fb[1..])
    ensures SameKeys(fa, fb)
  {
    assert forall i :: 0 < i < |fa| ==> fa[i] == fa[1..][i - 1] && fb[i] == fb[1..][i - 1];
  }

  ghost predicate InKeyOrder(fields: seq<Field>) {
    Sorted(fields, FieldLe) && DistinctKeys(fields)
  }

  lemma TailInKeyOrder(fields: seq<Field>)
    requires InKeyOrder(fields) && fields != []
    ensures InKeyOrder(fields[1..])
  {
    TailSorted(fields, FieldLe);
  }

  /** In key order, the same keys stand in the same places. */
  lemma {:induction false} KeysAgree(fa: seq<Field>, fb: seq<Field>)
    requires InKeyOrder(fa) && InKeyOrder(fb) && KeysWithin(fa, fb) && KeysWithin(fb, fa)
    ensures SameKeys(fa, fb)
  {
    NoKeys(fa, fb);
    NoKeys(fb, fa);
    if fa != [] {
      FirstKeysAgree(fa, fb);
      TailKeys(fa, fb);
      TailKeys(fb, fa);
      TailInKeyOrder(fa);
      TailInKeyOrder(fb);
      KeysAgree(fa[1..], fb[1..]);
      SameKeysCons(fa, fb);
    }
  }

  lemma NoKeys(fa: seq<Field>, fb: seq<Field>)
    requires KeysWithin(fa, fb)
    ensures fb == [] ==> fa == []
  {
    if fa != [] {
      assert KeyAmong(fb, fa[0].key);
    }
  }

  lemma FirstKeysAgree(fa: seq<Field>, fb: seq<Field>)
    requires Sorted(fa, FieldLe) && Sorted(fb, FieldLe) && fa != [] && fb != []
    requires KeysWithin(fa, fb) && KeysWithin(fb, fa)
    ensures fa[0].key == fb[0].key
  {
    FirstKeyIsLeast(fa, fb);
    FirstKeyIsLeast(fb, fa);
    KeysCompare(fa[0].key, fb[0].key);
  }

  lemma FirstKeyIsLeast(fa: seq<Field>, fb: seq<Field>)
    requires Sorted(fa, FieldLe) && fa != [] && fb != [] && KeysWithin(fb, fa)
    ensures KeyLe(fa[0].key, fb[0].key)
  {
    assert KeyAmong(fa, fb[0].key);
    var i :| 0 <= i < |fa| && fa[i].key == fb[0].key;
    KeysCompare(fa[0].key, fa[0].key);
    assert i == 0 || FieldLe(fa[0], fa[i]);
  }

  lemma TailKeys(fa: seq<Field>, fb: seq<Field>)
    requires fa != [] && fb != [] && fa[0].key == fb[0].key && DistinctKeys(fa) && KeysWithin(fa, fb)
    ensures KeysWithin(fa[1..], fb[1..])
  {
    forall i | 0 <= i < |fa[1..]|
      ensures KeyAmong(fb[1..], fa[1..][i].key)
    {
      assert KeyAmong(fb, fa[i + 1].key);
      var j :| 0 <= j < |fb| && fb[j].key == fa[i + 1].key;
      assert fb[1..][j - 1].key == fa[1..][i].key;
    }
  }

  ghost predicate Corresponds(fa: seq<Field>, fb: seq<Field>) {
    && |fa| == |fb|
    && forall k :: 0 <= k < |fa| ==> fa[k].key == fb[k].key && Same(fa[k].value, fb[k].value)
  }

  /** The fields two objects print correspond one to one. */
  lemma FieldsCorrespond(a: Value, b: Value)
    requires a.Obj? && Same(a, b) && WellFormed(a) && WellFormed(b)
    ensures Corresponds(PrintedFields(a.fields), PrintedFields(b.fields))
  {
    var fa, fb := PrintedFields(a.fields), PrintedFields(b.fields);
    PrintedOrder(a.fields);
    PrintedOrder(b.fields);
    forall k | 0 <= k < |fa|
      ensures KeyAmong(fb, fa[k].key)
    {
      var l := SameField(a, b, k);
    }
    forall k | 0 <= k < |fb|
      ensures KeyAmong(fa, fb[k].key)
    {
      var l := KeyInPrinted(b.fields, a.fields, k);
    }
    KeysAgree(fa, fb);
    forall k | 0 <= k < |fa|
      ensures Same(fa[k].value, fb[k].value)
    {
      var l := SameField(a, b, k);
      assert l == k by {
        assert fb[l].key == fb[k].key;
      }
    }
  }

  lemma KeyInPrinted(fields: seq<Field>, others: seq<Field>, k: nat) returns (l: nat)
    requires KeysCovered(fields, others) && k < |PrintedFields(fields)|
    ensures l < |PrintedFields(others)| && PrintedFields(others)[l].key == PrintedFields(fields)[k].key
  {
    var printed := PrintedFields(fields);
    assert printed[k] in printed;
    var j :| 0 <= j < |fields| && fields[j] == printed[k];
    assert HasKey(others, fields[j].key);
    var i :| 0 <= i < |others| && IsDefined(others[i]) && others[i].key == printed[k].key;
    assert others[i] in PrintedFields(others);
    l :| 0 <= l < |PrintedFields(others)| && PrintedFields(others)[l] == others[i];
  }

  lemma SameField(a: Value, b: Value, k: nat) returns (l: nat)
    requires a.Obj? && Same(a, b) && k < |PrintedFields(a.fields)|
    ensures l < |PrintedFields(b.fields)| && PrintedFields(b.fields)[l].key == PrintedFields(a.fields)[k].key
    ensures Same(PrintedFields(a.fields)[k].value, PrintedFields(b.fields)[l].value)
  {
    var f := PrintedFields(a.fields)[k];
    assert f in PrintedFields(a.fields);
    var i :| 0 <= i < |a.fields| && a.fields[i] == f;
    assert SameIn(f, b.fields);
    l := InPrinted(f, b.fields);
  }

  lemma InPrinted(f: Field, others: seq<Field>) returns (l: nat)
    requires SameIn(f, others)
    ensures l < |PrintedFields(others)| && PrintedFields(others)[l].key == f.key
    ensures Same(f.value, PrintedFields(others)[l].value)
  {
    var j :| 0 <= j < |others| && IsDefined(others[j]) && others[j].key == f.key && Same(f.value, others[j].value);
    assert others[j] in PrintedFields(others);
    l :| 0 <= l < |PrintedFields(others)| && PrintedFields(others)[l] == others[j];
  }

  lemma {:induction false} SameTexts(a: Value, b: Value)
    requires Same(a, b) && WellFormed(a) && WellFormed(b)
    ensures CanonicalJson(a) == CanonicalJson(b)
    decreases a, 1
  {
    match a
    case Arr(items) => SameItemTexts(a, b, 0);
    case Obj(fields) =>
      FieldsCorrespond(a, b);
      SameFieldTexts(a, b, 0);
    case _ =>
  }

  lemma {:induction false} SameItemTexts(a: Value, b: Value, k: nat)
    requires a.Arr? && Same(a, b) && WellFormed(a) && WellFormed(b) && k <= |a.items|
    ensures ItemTexts(a, a.items[k..]) == ItemTexts(b, b.items[k..])
    decreases a, 0, |a.items| - k
  {
    if k < |a.items| {
      SameTexts(a.items[k], b.items[k]);
      SameItemTexts(a, b, k + 1);
      assert a.items[k..][1..] == a.items[k + 1..] && b.items[k..][1..] == b.items[k + 1..];
    }
  }

  lemma {:induction false} SameFieldTexts(a: Value, b: Value, k: nat)
    requires a.Obj? && Same(a, b) && WellFormed(a) && WellFormed(b) && k <= |PrintedFields(a.fields)|
    requires Corresponds(PrintedFields(a.fields), PrintedFields(b.fields))
    ensures FieldTexts(a, PrintedFields(a.fields)[k..]) == FieldTexts(b, PrintedFields(b.fields)[k..])
    decreases a, 0, |PrintedFields(a.fields)| - k
  {
    var fa, fb := PrintedFields(a.fields), PrintedFields(b.fields);
    if k < |fa| {
      assert fa[k] in fa && fb[k] in fb;
      FieldIsSmaller(a, fa[k]);
      SameTexts(fa[k].value, fb[k].value);
      SameFieldTexts(a, b, k + 1);
      assert fa[k..][1..] == fa[k + 1..] && fb[k..][1..] == fb[k + 1..];
    }
  }

  /** Canonical texts are equal exactly when the values are the same JSON value. */
  lemma CanonicalIffSame(a: Value, b: Value)
    requires WellFormed(a) && WellFormed(b)
    ensures CanonicalJson(a) == CanonicalJson(b) <==> Same(a, b)
  {
    if Same(a, b) {
      SameTexts(a, b);
    }
    if CanonicalJson(a) == CanonicalJson(b) {
      ParseUndoesPrint(a, []);
      ParseUndoesPrint(b, []);
      NormalEqualIsSame(a, b);
    }
  }

  // ---- The fingerprint ----

  const FNV_OFFSET: bv32 := 0x811c9dc5
  const FNV_PRIME: bv32 := 0x01000193

  function Fnv(text: Text): bv32 {
    if text == [] then FNV_OFFSET else FnvStep(Fnv(text[..|text| - 1]), text[|text| - 1])
  }

  function FnvStep(hash: bv32, unit: CodeUnit): bv32 {
    (hash ^ (unit as bv32)) * FNV_PRIME
  }

  /** The 32-bit digest, before it is written in hexadecimal. */
  method Fingerprint(value: Value) returns (hash: bv32)
    ensures hash == Fnv(CanonicalJson(value))
  {
    var text := CanonicalJson(value);
    hash := FNV_OFFSET;
    for i := 0 to |text|
      invariant hash == Fnv(text[..i])
    {
      hash := FnvStep(hash, text[i]);
      assert text[..i + 1][..i] == text[..i];
    }
    assert text[..|text|] == text;
  }
}
