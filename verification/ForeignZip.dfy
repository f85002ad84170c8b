/**
 Reading archives of other writers.

 An archive is described member by member, with every field another archiver may fill in as it likes: extra fields and
 comments of any length in the central directory, a name and an extra field of any length in the local header, bodies
 anywhere, and a comment after the end record. Signatures are given byte for byte. Reading such an archive gives what
 its description says, and refuses what the reader does not support.
 */
module ForeignZip {
  import opened Options
  import opened Zip

  /** One member: `made`, `stamp`, `crc` and `attributes` are not looked at, and neither is the front of the local header. */
  datatype Member = Member(
    made: Bytes, flags: nat, compression: nat, stamp: Bytes, crc: Bytes, size: nat, attributes: Bytes, localOffset: nat,
    name: Bytes, extra: Bytes, comment: Bytes,
    localFront: Bytes, localName: Bytes, localExtra: Bytes, body: Bytes)

  /** Each field has the width the format gives it. */
  ghost predicate FitsFields(m: Member) {
    && |m.made| == 4 && |m.stamp| == 4 && |m.crc| == 4 && |m.attributes| == 8 && |m.localFront| == 22
    && m.flags < 0x1_0000 && m.compression < 0x1_0000
    && m.size < 0x1_0000_0000 && m.localOffset < 0x1_0000_0000 && |m.body| < 0x1_0000_0000
    && |m.name| < 0x1_0000 && |m.extra| < 0x1_0000 && |m.comment| < 0x1_0000
    && |m.localName| < 0x1_0000 && |m.localExtra| < 0x1_0000
  }

  const CENTRAL_SIGNATURE: Bytes := [0x50, 0x4B, 0x01, 0x02]
  const LOCAL_SIGNATURE: Bytes := [0x50, 0x4B, 0x03, 0x04]
  const END_SIGNATURE: Bytes := [0x50, 0x4B, 0x05, 0x06]

  // ---- The bytes of a member ----

  /** Section 4.3.12 of APPNOTE.TXT. */
  function CentralBytes(m: Member): Bytes {
    CentralFirst(m) + (CentralSizes(m) + (CentralLengths(m) + (m.name + (m.extra + m.comment))))
  }

  function CentralFirst(m: Member): Bytes {
    CENTRAL_SIGNATURE + (m.made + (U16(m.flags) + (U16(m.compression) + m.stamp)))
  }

  function CentralSizes(m: Member): Bytes {
    m.crc + (U32(|m.body|) + U32(m.size))
  }

  function CentralLengths(m: Member): Bytes {
    U16(|m.name|) + (U16(|m.extra|) + (U16(|m.comment|) + (m.attributes + U32(m.localOffset))))
  }

  /** Section 4.3.7 of APPNOTE.TXT, and the body. */
  function LocalBytes(m: Member): Bytes {
    LOCAL_SIGNATURE + (m.localFront + (U16(|m.localName|) + (U16(|m.localExtra|) + (m.localName + (m.localExtra + m.body)))))
  }

  // ---- Signatures ----

  lemma Four(a: Bytes, i: nat, x: Bytes)
    requires |x| == 4 && i + 4 <= |a|
    ensures At(a, i, x) <==> a[i] == x[0] && a[i + 1] == x[1] && a[i + 2] == x[2] && a[i + 3] == x[3]
  {
    var w := a[i..i + 4];
    assert w[0] == a[i] && w[1] == a[i + 1] && w[2] == a[i + 2] && w[3] == a[i + 3];
  }

  /** A 32-bit field names its four bytes. */
  lemma FieldIsBytes(a: Bytes, i: nat, b0: Byte, b1: Byte, b2: Byte, b3: Byte)
    requires i + 4 <= |a|
    ensures Get32(a, i) == b0 as int + 256 * b1 as int + 65536 * (b2 as int + 256 * b3 as int) <==>
      a[i] == b0 && a[i + 1] == b1 && a[i + 2] == b2 && a[i + 3] == b3
  {
    assert Get16(a, i) == a[i] as int + 256 * a[i + 1] as int && Get16(a, i + 2) == a[i + 2] as int + 256 * a[i + 3] as int;
  }

  lemma CentralSignature(a: Bytes, i: nat)
    requires i + 4 <= |a|
    ensures Get32(a, i) == CENTRAL_FILE_HEADER <==> At(a, i, CENTRAL_SIGNATURE)
  {
    FieldIsBytes(a, i, 0x50, 0x4B, 0x01, 0x02);
    Four(a, i, CENTRAL_SIGNATURE);
  }

  lemma LocalSignature(a: Bytes, i: nat)
    requires i + 4 <= |a|
    ensures Get32(a, i) == LOCAL_FILE_HEADER <==> At(a, i, LOCAL_SIGNATURE)
  {
    FieldIsBytes(a, i, 0x50, 0x4B, 0x03, 0x04);
    Four(a, i, LOCAL_SIGNATURE);
  }

  lemma EndSignature(a: Bytes, i: int)
    ensures IsSignature(a, i) <==> i >= 0 && At(a, i, END_SIGNATURE)
  {
    if 0 <= i && i + 4 <= |a| {
      FieldIsBytes(a, i, 0x50, 0x4B, 0x05, 0x06);
      Four(a, i, END_SIGNATURE);
    }
  }

  // ---- Reading the fields ----

  lemma AtSplit5(a: Bytes, i: nat, x: Bytes, y: Bytes, z: Bytes, v: Bytes, w: Bytes)
    requires At(a, i, x + (y + (z + (v + w))))
    ensures At(a, i, x) && At(a, i + |x|, y) && At(a, i + |x| + |y|, z)
    ensures At(a, i + |x| + |y| + |z|, v) && At(a, i + |x| + |y| + |z| + |v|, w)
  {
    AtSplit3(a, i, x, y, z + (v + w));
    AtSplit3(a, i + |x| + |y|, z, v, w);
  }

  /** What the reader looks at of a central header. */
  ghost predicate HeaderSays(a: Bytes, o: nat, m: Member) {
    && o + 46 <= |a| && Get32(a, o) == CENTRAL_FILE_HEADER && Get16(a, o + 8) == m.flags && Get16(a, o + 10) == m.compression
    && Get32(a, o + 20) == |m.body| && Get32(a, o + 24) == m.size
    && Get16(a, o + 28) == |m.name| && Get16(a, o + 30) == |m.extra| && Get16(a, o + 32) == |m.comment|
    && Get32(a, o + 42) == m.localOffset && Sub(a, o + 46, o + 46 + |m.name|) == m.name
  }

  lemma FirstSays(a: Bytes, o: nat, m: Member)
    requires At(a, o, CentralFirst(m)) && FitsFields(m)
    ensures o + 16 <= |a| && Get32(a, o) == CENTRAL_FILE_HEADER && Get16(a, o + 8) == m.flags && Get16(a, o + 10) == m.compression
  {
    AtSplit5(a, o, CENTRAL_SIGNATURE, m.made, U16(m.flags), U16(m.compression), m.stamp);
    CentralSignature(a, o);
    Read16Exact(a, o + 8, m.flags);
    Read16Exact(a, o + 10, m.compression);
  }

  lemma LengthsSay(a: Bytes, i: nat, m: Member)
    requires At(a, i, CentralLengths(m)) && FitsFields(m)
    ensures i + 18 <= |a| && Get16(a, i) == |m.name| && Get16(a, i + 2) == |m.extra| && Get16(a, i + 4) == |m.comment|
    ensures Get32(a, i + 14) == m.localOffset
  {
    AtSplit5(a, i, U16(|m.name|), U16(|m.extra|), U16(|m.comment|), m.attributes, U32(m.localOffset));
    Read16Exact(a, i, |m.name|);
    Read16Exact(a, i + 2, |m.extra|);
    Read16Exact(a, i + 4, |m.comment|);
    Read32Exact(a, i + 14, m.localOffset);
  }

  lemma HeaderIsRead(a: Bytes, o: nat, m: Member)
    requires At(a, o, CentralBytes(m)) && FitsFields(m)
    ensures HeaderSays(a, o, m)
  {
    AtSplit5(a, o, CentralFirst(m), CentralSizes(m), CentralLengths(m), m.name, m.extra + m.comment);
    FirstSays(a, o, m);
    SizeFields(a, o + 16, m.crc, |m.body|, m.size);
    LengthsSay(a, o + 28, m);
    SubAt(a, o + 46, m.name);
  }

  lemma CentralSize(m: Member)
    requires FitsFields(m)
    ensures |CentralBytes(m)| == 46 + |m.name| + |m.extra| + |m.comment|
  {
  }

  /** The body is found behind the local header's own name and extra field. */
  ghost predicate BodyStands(a: Bytes, l: nat, nameLength: nat, extraLength: nat, body: Bytes) {
    && l + 30 <= |a| && Get32(a, l) == LOCAL_FILE_HEADER && Get16(a, l + 26) == nameLength && Get16(a, l + 28) == extraLength
    && var start := l + 30 + nameLength + extraLength; Sub(a, start, start + |body|) == body
  }

  lemma BodyIsFound(a: Bytes, m: Member)
    requires At(a, m.localOffset, LocalBytes(m)) && FitsFields(m)
    ensures BodyStands(a, m.localOffset, |m.localName|, |m.localExtra|, m.body)
  {
    var l := m.localOffset;
    LocalSplits(a, l, m.localFront, U16(|m.localName|), U16(|m.localExtra|), m.localName, m.localExtra, m.body);
    BehindNames(a, l, |m.localName|, |m.localExtra|, m.body);
  }

  lemma BehindNames(a: Bytes, l: nat, nameLength: nat, extraLength: nat, body: Bytes)
    requires At(a, l, LOCAL_SIGNATURE) && At(a, l + 26, U16(nameLength)) && At(a, l + 28, U16(extraLength))
    requires At(a, l + 30 + nameLength + extraLength, body) && nameLength < 0x1_0000 && extraLength < 0x1_0000
    ensures BodyStands(a, l, nameLength, extraLength, body)
  {
    LocalSignature(a, l);
    Read16Exact(a, l + 26, nameLength);
    Read16Exact(a, l + 28, extraLength);
    SubAt(a, l + 30 + nameLength + extraLength, body);
  }

  lemma LocalSplits(a: Bytes, l: nat, front: Bytes, nameLength: Bytes, extraLength: Bytes, name: Bytes, extra: Bytes, body: Bytes)
    requires At(a, l, LOCAL_SIGNATURE + (front + (nameLength + (extraLength + (name + (extra + body))))))
    requires |front| == 22 && |nameLength| == |extraLength| == 2
    ensures At(a, l, LOCAL_SIGNATURE) && At(a, l + 26, nameLength) && At(a, l + 28, extraLength) && At(a, l + 30 + |name| + |extra|, body)
  {
    AtSplit5(a, l, LOCAL_SIGNATURE, front, nameLength, extraLength, name + (extra + body));
    AtSplit3(a, l + 30, name, extra, body);
  }

  // ---- One member ----

  /** What the reader makes of a member: passed over, refused, or listed. */
  datatype Verdict = Passed | Refused(error: ZipError) | Given(entry: Entry)

  function VerdictOn(os: Platform, m: Member, maxEntryBytes: nat): Verdict {
    var path := os.decode(m.name);
    if path != [] && path[|path| - 1] == '/' then Passed
    else if m.flags % 2 == 1 then Refused(Encrypted(path))
    else if m.size > maxEntryBytes then Passed
    else if m.compression == 0 then Given(Entry(Slashes(path), m.size, m.body))
    else if m.compression != 8 then Refused(UnknownCompression(path))
    else if os.inflate(m.body).None? then Refused(BadDeflate)
    else Given(Entry(Slashes(path), m.size, os.inflate(m.body).value))
  }

  /** The turn that carries out a verdict: the next header starts after the name, the extra field and the comment. */
  function TurnFor(v: Verdict, o: nat, m: Member): Step {
    var next := o + 46 + |m.name| + |m.extra| + |m.comment|;
    match v
    case Passed => Skip(next)
    case Refused(error) => Fail(error)
    case Given(entry) => Take(next, entry)
  }

  /** The local header has to be there only if the reader gets as far as the body. */
  ghost predicate WantsBody(os: Platform, m: Member, maxEntryBytes: nat) {
    !EndsWithSlash(os.decode(m.name)) && m.flags % 2 == 0 && m.size <= maxEntryBytes
  }

  lemma BodyIsRead(os: Platform, a: Bytes, m: Member, path: string)
    requires BodyStands(a, m.localOffset, |m.localName|, |m.localExtra|, m.body)
    ensures ReadBody(os, a, m.localOffset, m.compression, |m.body|, path) ==
      if m.compression == 0 then Ok(m.body)
      else if m.compression != 8 then Err(UnknownCompression(path))
      else if os.inflate(m.body).None? then Err(BadDeflate)
      else Ok(os.inflate(m.body).value)
  {
  }

  /** Any central header with its local header and body, whatever the lengths of the names, extras and comment. */
  lemma MemberIsRead(os: Platform, a: Bytes, o: nat, m: Member, maxEntryBytes: nat)
    requires At(a, o, CentralBytes(m)) && FitsFields(m)
    requires WantsBody(os, m, maxEntryBytes) ==> At(a, m.localOffset, LocalBytes(m))
    ensures ReadEntry(os, a, o, maxEntryBytes) == TurnFor(VerdictOn(os, m, maxEntryBytes), o, m)
  {
    HeaderIsRead(a, o, m);
    if WantsBody(os, m, maxEntryBytes) {
      BodyIsFound(a, m);
      BodyIsRead(os, a, m, os.decode(m.name));
      WantedIsRead(os, a, o, m, maxEntryBytes);
    } else {
      UnwantedIsRead(os, a, o, m, maxEntryBytes);
    }
  }

  lemma UnwantedIsRead(os: Platform, a: Bytes, o: nat, m: Member, maxEntryBytes: nat)
    requires HeaderSays(a, o, m) && !WantsBody(os, m, maxEntryBytes)
    ensures ReadEntry(os, a, o, maxEntryBytes) == TurnFor(VerdictOn(os, m, maxEntryBytes), o, m)
  {
  }

  lemma WantedIsRead(os: Platform, a: Bytes, o: nat, m: Member, maxEntryBytes: nat)
    requires HeaderSays(a, o, m) && WantsBody(os, m, maxEntryBytes)
    ensures ReadEntry(os, a, o, maxEntryBytes) ==
      match ReadBody(os, a, m.localOffset, m.compression, |m.body|, os.decode(m.name))
      case Err(error) => Fail(error)
      case Ok(bytes) => Take(o + 46 + |m.name| + |m.extra| + |m.comment|, Entry(Slashes(os.decode(m.name)), m.size, bytes))
  {
  }

  // ---- Damage ----

  /** Where no whole central header with its signature stands, the directory is damaged. */
  lemma DamagedDirectory(os: Platform, a: Bytes, o: nat, maxEntryBytes: nat)
    requires o + 46 > |a| || !At(a, o, CENTRAL_SIGNATURE)
    ensures ReadEntry(os, a, o, maxEntryBytes) == Fail(Damaged)
  {
    if o + 46 <= |a| {
      CentralSignature(a, o);
    }
  }

  /** A member whose body is wanted, with no local signature at its offset: damaged, or outside the bytes. */
  lemma DamagedLocal(os: Platform, a: Bytes, o: nat, m: Member, maxEntryBytes: nat)
    requires At(a, o, CentralBytes(m)) && FitsFields(m) && WantsBody(os, m, maxEntryBytes) && !At(a, m.localOffset, LOCAL_SIGNATURE)
    ensures ReadEntry(os, a, o, maxEntryBytes) == Fail(if m.localOffset + 4 <= |a| then Damaged else OutOfRange)
  {
    HeaderIsRead(a, o, m);
    if m.localOffset + 4 <= |a| {
      LocalSignature(a, m.localOffset);
    }
    WantedIsRead(os, a, o, m, maxEntryBytes);
  }

  // ---- The whole archive ----

  function Centrals(ms: seq<Member>): seq<Bytes> {
    seq(|ms|, k requires 0 <= k < |ms| => CentralBytes(ms[k]))
  }

  /** Section 4.3.16 of APPNOTE.TXT: what the reader does not look at may be anything, and a comment may follow. */
  function EndBytes(disks: Bytes, count: nat, centralSize: Bytes, offset: nat, comment: Bytes): Bytes {
    (END_SIGNATURE + disks) + (U16(count) + (centralSize + (U32(offset) + (U16(|comment|) + comment))))
  }

  /** The end record with its comment closes the bytes, and no later place reads as an end signature. */
  ghost predicate ClosedBy(a: Bytes, end: nat, count: nat, offset: nat) {
    && (exists disks: Bytes, centralSize: Bytes, comment: Bytes :: Closes(a, end, count, offset, disks, centralSize, comment))
    && forall i :: end < i <= |a| - 22 ==> !At(a, i, END_SIGNATURE)
  }

  ghost predicate Closes(a: Bytes, end: nat, count: nat, offset: nat, disks: Bytes, centralSize: Bytes, comment: Bytes) {
    && |disks| == 6 && |centralSize| == 4 && |comment| < 0x1_0000 && end + 22 + |comment| == |a|
    && At(a, end, EndBytes(disks, count, centralSize, offset, comment))
  }

  /** Each member fits its fields, and its local part stands where its central header says. */
  ghost predicate AllInPlace(a: Bytes, ms: seq<Member>) {
    forall k :: 0 <= k < |ms| ==> InPlace(a, ms[k])
  }

  ghost predicate InPlace(a: Bytes, m: Member) {
    FitsFields(m) && At(a, m.localOffset, LocalBytes(m))
  }

  /** The bytes are an archive of these members: a directory of their headers, their local parts, and the end record. */
  ghost predicate IsArchiveOf(a: Bytes, ms: seq<Member>, directory: nat, end: nat) {
    && |ms| < 0xffff && directory < 0xffffffff && ClosedBy(a, end, |ms|, directory)
    && At(a, directory, Concat(Centrals(ms)))
    && AllInPlace(a, ms)
  }

  /** The entries in order up to the limit, or the first refusal met before it. */
  function Gathered(os: Platform, ms: seq<Member>, entries: seq<Entry>, limits: Limits): Result<seq<Entry>, ZipError> {
    if ms == [] || |entries| >= limits.maxEntries then Ok(entries)
    else
      match VerdictOn(os, ms[0], limits.maxEntryBytes)
      case Passed => Gathered(os, ms[1..], entries, limits)
      case Refused(error) => Err(error)
      case Given(entry) => Gathered(os, ms[1..], entries + [entry], limits)
  }

  lemma EndFieldsAt(a: Bytes, end: nat, count: nat, offset: nat, disks: Bytes, centralSize: Bytes, comment: Bytes)
    requires Closes(a, end, count, offset, disks, centralSize, comment) && count < 0x1_0000 && offset < 0x1_0000_0000
    ensures end + 22 <= |a| && At(a, end, END_SIGNATURE) && Get16(a, end + 10) == count && Get32(a, end + 16) == offset
  {
    AtSplit5(a, end, END_SIGNATURE + disks, U16(count), centralSize, U32(offset), U16(|comment|) + comment);
    AtSplit(a, end, END_SIGNATURE, disks);
    Read16Exact(a, end + 10, count);
    Read32Exact(a, end + 16, offset);
  }

  /** The scan passes over the comment and stops at the end record. */
  lemma EndIsReached(a: Bytes, end: nat, count: nat, offset: nat)
    requires ClosedBy(a, end, count, offset) && count < 0x1_0000 && offset < 0x1_0000_0000
    ensures end + 22 <= |a| && EndOf(a) == end && Get16(a, end + 10) == count && Get32(a, end + 16) == offset
  {
    var disks, centralSize, comment :| Closes(a, end, count, offset, disks, centralSize, comment);
    EndFieldsAt(a, end, count, offset, disks, centralSize, comment);
    EndSignature(a, end);
    EndOfIsLast(a);
    var found := EndOf(a);
    assert Max(0, |a| - 22 - 65535) <= end <= |a| - 22 && IsSignature(a, end);
    EndSignature(a, found);
  }

  /** Each turn carries out the next member's verdict. */
  ghost predicate Turns(os: Platform, ms: seq<Member>, turn: nat -> Step, o: nat, limits: Limits) {
    ms == [] ||
    (&& turn(o) == TurnFor(VerdictOn(os, ms[0], limits.maxEntryBytes), o, ms[0])
     && Turns(os, ms[1..], turn, o + 46 + |ms[0].name| + |ms[0].extra| + |ms[0].comment|, limits))
  }

  /** The turn at o meets this member, and ends at `next`. */
  ghost predicate Meets(os: Platform, m: Member, turn: nat -> Step, o: nat, next: nat, limits: Limits) {
    turn(o) == TurnFor(VerdictOn(os, m, limits.maxEntryBytes), o, m) && next == o + 46 + |m.name| + |m.extra| + |m.comment|
  }

  lemma MemberAt(os: Platform, a: Bytes, m: Member, o: nat, next: nat, turn: nat -> Step, limits: Limits)
    requires At(a, o, CentralBytes(m)) && InPlace(a, m) && next == o + |CentralBytes(m)| && turn == Turn(os, a, limits)
    ensures Meets(os, m, turn, o, next, limits)
  {
    CentralSize(m);
    MemberIsRead(os, a, o, m, limits.maxEntryBytes);
  }

  /** Every turn meets its member, and ends where the next header starts. */
  ghost predicate TurnsAt(os: Platform, ms: seq<Member>, turn: nat -> Step, at: seq<nat>, limits: Limits) {
    |at| == |ms| + 1 && forall k :: 0 <= k < |ms| ==> Meets(os, ms[k], turn, at[k], at[k + 1], limits)
  }

  lemma {:induction false} MembersInTurn(os: Platform, ms: seq<Member>, turn: nat -> Step, at: seq<nat>, k: nat, limits: Limits)
    requires k <= |ms| && TurnsAt(os, ms, turn, at, limits)
    ensures Turns(os, ms[k..], turn, at[k], limits)
    decreases |ms| - k
  {
    if k < |ms| {
      MembersInTurn(os, ms, turn, at, k + 1, limits);
      assert ms[k..][0] == ms[k] && ms[k..][1..] == ms[k + 1..];
      assert Meets(os, ms[k], turn, at[k], at[k + 1], limits);
    }
  }

  /** Where the central headers start. */
  ghost function Offsets(ms: seq<Member>, directory: nat): (at: seq<nat>)
    ensures |at| == |ms| + 1 && at[0] == directory
    ensures forall k :: 0 <= k <= |ms| ==> at[k] == directory + |Concat(Centrals(ms)[..k])|
  {
    assert Centrals(ms)[..0] == [];
    seq(|ms| + 1, k requires 0 <= k <= |ms| => directory + |Concat(Centrals(ms)[..k])|)
  }

  lemma MemberMeets(os: Platform, a: Bytes, ms: seq<Member>, directory: nat, turn: nat -> Step, at: seq<nat>, k: nat, limits: Limits)
    requires At(a, directory, Concat(Centrals(ms))) && k < |ms| && InPlace(a, ms[k])
    requires turn == Turn(os, a, limits) && at == Offsets(ms, directory)
    ensures Meets(os, ms[k], turn, at[k], at[k + 1], limits)
  {
    ConcatAt(a, directory, Centrals(ms), k);
    MemberAt(os, a, ms[k], at[k], at[k + 1], turn, limits);
  }

  lemma EveryMemberIsRead(os: Platform, a: Bytes, ms: seq<Member>, directory: nat, turn: nat -> Step, at: seq<nat>, limits: Limits)
    requires At(a, directory, Concat(Centrals(ms))) && AllInPlace(a, ms)
    requires turn == Turn(os, a, limits) && at == Offsets(ms, directory)
    ensures TurnsAt(os, ms, turn, at, limits)
  {
    forall k | 0 <= k < |ms|
      ensures Meets(os, ms[k], turn, at[k], at[k + 1], limits)
    {
      MemberMeets(os, a, ms, directory, turn, at, k, limits);
    }
  }

  lemma {:induction false} TurnsGather(os: Platform, ms: seq<Member>, turn: nat -> Step, o: nat, entries: seq<Entry>, limits: Limits)
    requires Turns(os, ms, turn, o, limits)
    ensures Walk(turn, o, |ms|, entries, limits.maxEntries) == Gathered(os, ms, entries, limits)
    decreases |ms|
  {
    if ms != [] && |entries| < limits.maxEntries {
      var next := o + 46 + |ms[0].name| + |ms[0].extra| + |ms[0].comment|;
      match VerdictOn(os, ms[0], limits.maxEntryBytes)
      case Passed => TurnsGather(os, ms[1..], turn, next, entries, limits);
      case Refused(_) =>
      case Given(entry) => TurnsGather(os, ms[1..], turn, next, entries + [entry], limits);
    }
  }

  lemma ReadFrom(turn: nat -> Step, a: Bytes, end: nat, limits: Limits)
    requires end + 22 <= |a| && EndOf(a) == end && Get16(a, end + 10) < 0xffff && Get32(a, end + 16) < 0xffffffff
    ensures ReadWith(turn, a, limits) == Walk(turn, Get32(a, end + 16), Get16(a, end + 10), [], limits.maxEntries)
  {
  }

  /** Reading any archive of these members, by whatever writer, gathers them as described. */
  lemma ArchiveIsRead(os: Platform, a: Bytes, ms: seq<Member>, directory: nat, end: nat, limits: Limits)
    requires IsArchiveOf(a, ms, directory, end)
    ensures Read(os, a, limits) == Gathered(os, ms, [], limits)
  {
    EndIsReached(a, end, |ms|, directory);
    ReadFrom(Turn(os, a, limits), a, end, limits);
    var turn, at := Turn(os, a, limits), Offsets(ms, directory);
    EveryMemberIsRead(os, a, ms, directory, turn, at, limits);
    MembersInTurn(os, ms, turn, at, 0, limits);
    assert ms[0..] == ms;
    TurnsGather(os, ms, turn, directory, [], limits);
  }

  // ---- What is gathered ----

  /** A file the reader lists: not a directory, not encrypted, within the limit, stored. */
  ghost predicate IsPlain(os: Platform, m: Member, limits: Limits) {
    m.flags % 2 == 0 && m.compression == 0 && m.size <= limits.maxEntryBytes && !EndsWithSlash(os.decode(m.name)) && '\\' !in os.decode(m.name)
  }

  lemma {:induction false} PlainGathered(os: Platform, ms: seq<Member>, entries: seq<Entry>, limits: Limits)
    requires forall k :: 0 <= k < |ms| ==> IsPlain(os, ms[k], limits)
    requires |entries| + |ms| <= limits.maxEntries
    ensures var r := Gathered(os, ms, entries, limits);
      && r.Ok? && |r.value| == |entries| + |ms| && r.value[..|entries|] == entries
      && forall k :: 0 <= k < |ms| ==> r.value[|entries| + k] == Entry(os.decode(ms[k].name), ms[k].size, ms[k].body)
    decreases |ms|
  {
    if ms != [] {
      assert IsPlain(os, ms[0], limits);
      PlainPath(os.decode(ms[0].name));
      var entry := Entry(os.decode(ms[0].name), ms[0].size, ms[0].body);
      PlainGathered(os, ms[1..], entries + [entry], limits);
      var r := Gathered(os, ms, entries, limits);
      assert r == Gathered(os, ms[1..], entries + [entry], limits);
      assert r.value[|entries|] == r.value[..|entries| + 1][|entries|] == entry;
      assert r.value[..|entries|] == r.value[..|entries| + 1][..|entries|];
      forall k | 0 <= k < |ms|
        ensures r.value[|entries| + k] == Entry(os.decode(ms[k].name), ms[k].size, ms[k].body)
      {
        if k > 0 {
          assert ms[1..][k - 1] == ms[k];
        }
      }
    }
  }

  /** Stored files come back one for one, whatever extras and comments stand around them. */
  lemma ExtrasDoNotMatter(os: Platform, a: Bytes, ms: seq<Member>, directory: nat, end: nat, limits: Limits)
    requires IsArchiveOf(a, ms, directory, end) && |ms| <= limits.maxEntries
    requires forall k :: 0 <= k < |ms| ==> IsPlain(os, ms[k], limits)
    ensures var r := Read(os, a, limits);
      && r.Ok? && |r.value| == |ms|
      && forall k :: 0 <= k < |ms| ==> r.value[k] == Entry(os.decode(ms[k].name), ms[k].size, ms[k].body)
  {
    ArchiveIsRead(os, a, ms, directory, end, limits);
    PlainGathered(os, ms, [], limits);
  }

  /** Member k is the first the reader refuses, and the limit is not reached before it. */
  ghost predicate FirstRefused(os: Platform, ms: seq<Member>, k: nat, limits: Limits) {
    && k < |ms| && k < limits.maxEntries && VerdictOn(os, ms[k], limits.maxEntryBytes).Refused?
    && forall i :: 0 <= i < k ==> !VerdictOn(os, ms[i], limits.maxEntryBytes).Refused?
  }

  lemma {:induction false} RefusalEndsGathering(os: Platform, ms: seq<Member>, k: nat, entries: seq<Entry>, limits: Limits)
    requires k < |ms| && |entries| + k < limits.maxEntries && VerdictOn(os, ms[k], limits.maxEntryBytes).Refused?
    requires forall i :: 0 <= i < k ==> !VerdictOn(os, ms[i], limits.maxEntryBytes).Refused?
    ensures Gathered(os, ms, entries, limits) == Err(VerdictOn(os, ms[k], limits.maxEntryBytes).error)
    decreases k
  {
    if k > 0 {
      assert ms[1..][k - 1] == ms[k];
      var v := VerdictOn(os, ms[0], limits.maxEntryBytes);
      RefusalEndsGathering(os, ms[1..], k - 1, if v.Given? then entries + [v.entry] else entries, limits);
    }
  }

  /** One encrypted, unknown or undecodable member within reach makes the whole archive refused, with its error. */
  lemma RefusalIsWhole(os: Platform, a: Bytes, ms: seq<Member>, directory: nat, end: nat, k: nat, limits: Limits)
    requires IsArchiveOf(a, ms, directory, end) && FirstRefused(os, ms, k, limits)
    ensures Read(os, a, limits) == Err(VerdictOn(os, ms[k], limits.maxEntryBytes).error)
  {
    ArchiveIsRead(os, a, ms, directory, end, limits);
    RefusalEndsGathering(os, ms, k, [], limits);
  }

  /** Bytes without an end signature where the reader looks are no archive. */
  lemma NoEndIsRefused(os: Platform, a: Bytes, limits: Limits)
    requires forall i :: Max(0, |a| - 22 - 65535) <= i <= |a| - 22 ==> !At(a, i, END_SIGNATURE)
    ensures Read(os, a, limits) == Err(NotAnArchive)
  {
    EndOfIsLast(a);
    if i :| Max(0, |a| - 22 - 65535) <= i <= |a| - 22 && IsSignature(a, i) {
      EndSignature(a, i);
    }
  }

  /** Names keep their length and everything but backslashes, which become slashes. */
  lemma BackslashesBecomeSlashes(path: string)
    ensures |Slashes(path)| == |path| && '\\' !in Slashes(path)
    ensures forall i :: 0 <= i < |path| ==> Slashes(path)[i] == path[i] || (path[i] == '\\' && Slashes(path)[i] == '/')
  {
    forall c | c in Slashes(path)
      ensures c != '\\'
    {
      var i :| 0 <= i < |path| && Slashes(path)[i] == c;
    }
  }

  // ---- The project's own writer ----

  /** A written file, as a member: no extra fields and no comments, UTF-8 names, and the checksum of the text. */
  function Written(os: Platform, f: File, offset: nat): Member {
    var name, compression := os.encode(f.path), if f.deflate then 8 else 0;
    var front := U16(20) + (U16(0x800) + (U16(compression) + (Zeros(4) + (U32(os.crc32(Data(os, f))) + (U32(|Body(os, f)|) + U32(|Data(os, f)|))))));
    Member(Zeros(4), 0x800, compression, Zeros(4), U32(os.crc32(Data(os, f))), |Data(os, f)|, Zeros(8), offset,
           name, [], [], front, name, [], Body(os, f))
  }

  lemma SignatureBytes()
    ensures U32(CENTRAL_FILE_HEADER) == CENTRAL_SIGNATURE && U32(LOCAL_FILE_HEADER) == LOCAL_SIGNATURE && U32(END_OF_CENTRAL_DIRECTORY) == END_SIGNATURE
  {
  }

  lemma CentralRegroups(x0: Bytes, x1: Bytes, x2: Bytes, x3: Bytes, x4: Bytes, sizes: Bytes, n: Bytes, z12: Bytes, z2: Bytes, z8: Bytes, l: Bytes, name: Bytes)
    requires z12 == z2 + (z2 + z8)
    ensures (x0 + (x1 + (x2 + (x3 + x4)))) + (sizes + (n + (z12 + (l + name))))
         == (x0 + (x1 + (x2 + (x3 + x4)))) + (sizes + ((n + (z2 + (z2 + (z8 + l)))) + (name + ([] + []))))
  {
    assert n + (z12 + (l + name)) == (n + (z2 + (z2 + (z8 + l)))) + name;
  }

  lemma WrittenCentral(os: Platform, f: File, offset: nat)
    ensures CentralHeader(os, f, offset) == CentralBytes(Written(os, f, offset))
  {
    SignatureBytes();
    var m := Written(os, f, offset);
    assert U16(0) == Zeros(2) && Zeros(12) == Zeros(2) + (Zeros(2) + Zeros(8));
    CentralRegroups(CENTRAL_SIGNATURE, m.made, U16(m.flags), U16(m.compression), m.stamp, CentralSizes(m), U16(|m.name|), Zeros(12), Zeros(2), Zeros(8), U32(offset), m.name);
  }

  lemma LocalRegroups(x0: Bytes, x1: Bytes, x2: Bytes, x3: Bytes, x4: Bytes, x5: Bytes, x6: Bytes, x7: Bytes, n: Bytes, z: Bytes, name: Bytes, body: Bytes)
    ensures ((x0 + (x1 + x2 + x3 + x4 + (x5 + (x6 + x7)))) + (n + (z + name))) + body
         == x0 + ((x1 + (x2 + (x3 + (x4 + (x5 + (x6 + x7)))))) + (n + (z + (name + ([] + body)))))
  {
    assert [] + body == body;
    assert x1 + x2 + x3 + x4 + (x5 + (x6 + x7)) == x1 + (x2 + (x3 + (x4 + (x5 + (x6 + x7)))));
    RightNested(x0, x1 + (x2 + (x3 + (x4 + (x5 + (x6 + x7))))), n + (z + name), body);
    assert (n + (z + name)) + body == n + (z + (name + body));
  }

  lemma RightNested(x: Bytes, y: Bytes, z: Bytes, w: Bytes)
    ensures ((x + y) + z) + w == x + (y + (z + w))
  {
  }

  lemma WrittenLocal(os: Platform, f: File, offset: nat)
    ensures LocalPart(os, f) == LocalBytes(Written(os, f, offset))
  {
    SignatureBytes();
    var m := Written(os, f, offset);
    LocalRegroups(LOCAL_SIGNATURE, U16(20), U16(0x800), U16(m.compression), Zeros(4), U32(os.crc32(Data(os, f))), U32(|Body(os, f)|), U32(|Data(os, f)|), U16(|m.name|), U16(0), m.name, m.body);
  }
}
