/**
 Zip archives: the byte-level writer and reader.

 Layouts are those of PKWARE APPNOTE.TXT: the local file header (section 4.3.7), the central directory header
 (section 4.3.12) and the end of central directory record (section 4.3.16). Reading what was written gives
 back the files, in order, for every list of files that fits the format's 16- and 32-bit fields.

 Text encoding, deflate and the checksum are parameters.
 */
module Zip {
  import opened Options

  newtype Byte = x: int | 0 <= x < 256

  type Bytes = seq<Byte>

  datatype Platform = Platform(
    encode: string -> Bytes, decode: Bytes -> string,
    deflate: Bytes -> Bytes, inflate: Bytes -> Option<Bytes>,
    crc32: Bytes -> nat)

  datatype File = File(path: string, text: string, deflate: bool)
  datatype Entry = Entry(path: string, size: nat, bytes: Bytes)
  datatype Limits = Limits(maxEntryBytes: nat, maxEntries: nat)

  datatype ZipError =
    | NotAnArchive
    | Zip64
    | Damaged
    | Encrypted(path: string)
    | UnknownCompression(path: string)
    | OutOfRange
    | BadDeflate

  const END_OF_CENTRAL_DIRECTORY: nat := 0x06054b50
  const CENTRAL_FILE_HEADER: nat := 0x02014b50
  const LOCAL_FILE_HEADER: nat := 0x04034b50
  const STORED: nat := 0
  const DEFLATED: nat := 8
  const UTF8_FLAG: nat := 0x800

  // ---- Little-endian fields ----

  function U16(v: nat): (b: Bytes)
    ensures |b| == 2
  {
    [(v % 256) as Byte, (v / 256 % 256) as Byte]
  }

  function U32(v: nat): (b: Bytes)
    ensures |b| == 4
  {
    U16(v % 65536) + U16(v / 65536 % 65536)
  }

  function Get16(a: Bytes, i: nat): (v: nat)
    requires i + 2 <= |a|
    ensures v < 65536
  {
    a[i] as int + 256 * a[i + 1] as int
  }

  function Get32(a: Bytes, i: nat): (v: nat)
    requires i + 4 <= |a|
    ensures v < 0x1_0000_0000
  {
    Get16(a, i) + 65536 * Get16(a, i + 2)
  }

  function Zeros(n: nat): (z: Bytes)
    ensures |z| == n
  {
    seq(n, _ => 0)
  }

  /** The bytes x stand at position i. */
  ghost predicate At(a: Bytes, i: nat, x: Bytes) {
    i + |x| <= |a| && a[i..i + |x|] == x
  }

  lemma AtSplit(a: Bytes, i: nat, x: Bytes, y: Bytes)
    requires At(a, i, x + y)
    ensures At(a, i, x) && At(a, i + |x|, y)
  {
    var w := a[i..i + |x + y|];
    assert w[..|x|] == x && w[|x|..] == y;
    assert w[..|x|] == a[i..i + |x|];
    assert w[|x|..] == a[i + |x|..i + |x| + |y|];
  }

  lemma BytesOf16(v: nat)
    ensures v % 256 + 256 * (v / 256 % 256) == v % 0x1_0000
  {
    var low, high := v % 256, v / 256;
    assert v == 0x1_0000 * (high / 256) + (low + 256 * (high % 256));
  }

  lemma Read16(a: Bytes, i: nat, v: nat)
    requires At(a, i, U16(v))
    ensures Get16(a, i) == v % 0x1_0000
  {
    var w := a[i..i + 2];
    assert w == U16(v);
    assert a[i] == w[0] && a[i + 1] == w[1];
    BytesOf16(v);
  }

  lemma Read16Exact(a: Bytes, i: nat, v: nat)
    requires At(a, i, U16(v)) && v < 0x1_0000
    ensures Get16(a, i) == v
  {
    Read16(a, i, v);
  }

  lemma Read32(a: Bytes, i: nat, v: nat)
    requires At(a, i, U32(v))
    ensures Get32(a, i) == v % 0x1_0000_0000
  {
    var low, high := v % 65536, v / 65536 % 65536;
    AtSplit(a, i, U16(low), U16(high));
    Read16Exact(a, i, low);
    Read16Exact(a, i + 2, high);
    Halves(v);
  }

  lemma Halves(v: nat)
    ensures v % 65536 + 65536 * (v / 65536 % 65536) == v % 0x1_0000_0000
  {
    var low, high := v % 65536, v / 65536;
    assert v == 0x1_0000_0000 * (high / 65536) + (low + 65536 * (high % 65536));
  }

  lemma AtSplit3(a: Bytes, i: nat, x: Bytes, y: Bytes, z: Bytes)
    requires At(a, i, x + (y + z))
    ensures At(a, i, x) && At(a, i + |x|, y) && At(a, i + |x| + |y|, z)
  {
    AtSplit(a, i, x, y + z);
    AtSplit(a, i + |x|, y, z);
  }

  // ---- What is written ----

  function Data(os: Platform, f: File): Bytes {
    os.encode(f.text)
  }

  function Body(os: Platform, f: File): Bytes {
    if f.deflate then os.deflate(Data(os, f)) else Data(os, f)
  }

  function Method(f: File): nat {
    if f.deflate then DEFLATED else STORED
  }

  /** Section 4.3.7. */
  function LocalHeader(os: Platform, f: File): Bytes {
    LocalFront(os, f) + LocalNames(os.encode(f.path))
  }

  function LocalFront(os: Platform, f: File): (b: Bytes)
    ensures |b| == 26
  {
    U32(LOCAL_FILE_HEADER) + (U16(20) + U16(UTF8_FLAG) + U16(Method(f)) + Zeros(4) + Sizes(os, f))
  }

  function LocalNames(name: Bytes): (b: Bytes)
    ensures |b| == 4 + |name|
  {
    U16(|name|) + (U16(0) + name)
  }

  /** Checksum, compressed size, size: both headers hold these three together. */
  function Sizes(os: Platform, f: File): (b: Bytes)
    ensures |b| == 12
  {
    U32(os.crc32(Data(os, f))) + (U32(|Body(os, f)|) + U32(|Data(os, f)|))
  }

  /** Section 4.3.12. */
  function CentralHeader(os: Platform, f: File, offset: nat): Bytes {
    CentralFront(f) + (Sizes(os, f) + CentralNames(os.encode(f.path), offset))
  }

  function CentralFront(f: File): (b: Bytes)
    ensures |b| == 16
  {
    U32(CENTRAL_FILE_HEADER) + (Zeros(4) + (U16(UTF8_FLAG) + (U16(Method(f)) + Zeros(4))))
  }

  function CentralNames(name: Bytes, offset: nat): (b: Bytes)
    ensures |b| == 18 + |name|
  {
    U16(|name|) + (Zeros(12) + (U32(offset) + name))
  }

  /** Section 4.3.16. */
  function EndRecord(count: nat, centralSize: nat, offset: nat): (e: Bytes)
    ensures |e| == 22
  {
    (U32(END_OF_CENTRAL_DIRECTORY) + (Zeros(4) + U16(count))) + (U16(count) + (U32(centralSize) + (U32(offset) + Zeros(2))))
  }

  function LocalPart(os: Platform, f: File): Bytes {
    LocalHeader(os, f) + Body(os, f)
  }

  function Concat(parts: seq<Bytes>): Bytes {
    if parts == [] then [] else Concat(parts[..|parts| - 1]) + parts[|parts| - 1]
  }

  function LocalParts(os: Platform, files: seq<File>): seq<Bytes> {
    seq(|files|, k requires 0 <= k < |files| => LocalPart(os, files[k]))
  }

  /** Where file k's local header starts. */
  function LocalOffset(os: Platform, files: seq<File>, k: nat): nat
    requires k <= |files|
  {
    |Concat(LocalParts(os, files)[..k])|
  }

  function PartsOf(part: nat -> Bytes, n: nat): (parts: seq<Bytes>)
    ensures |parts| == n
  {
    if n == 0 then [] else PartsOf(part, n - 1) + [part(n - 1)]
  }

  /** The central header of file k. */
  function HeaderOf(os: Platform, files: seq<File>): nat -> Bytes {
    (k: nat) => if k < |files| then CentralHeader(os, files[k], LocalOffset(os, files, k)) else []
  }

  /** The central headers of the first n files. */
  function CentralParts(os: Platform, files: seq<File>, n: nat): (parts: seq<Bytes>)
    requires n <= |files|
    ensures |parts| == n
  {
    PartsOf(HeaderOf(os, files), n)
  }

  function Archive(os: Platform, files: seq<File>): Bytes {
    var locals, centrals := Concat(LocalParts(os, files)), Concat(CentralParts(os, files, |files|));
    locals + centrals + EndRecord(|files|, |centrals|, |locals|)
  }

  // ---- Reading ----

  function Max(a: int, b: int): int {
    if a > b then a else b
  }

  /** `subarray`: both ends are clamped to the buffer. */
  function Sub(a: Bytes, from: nat, end: nat): Bytes {
    if from >= |a| || end <= from then [] else a[from..if end < |a| then end else |a|]
  }

  predicate EndsWithSlash(path: string) {
    path != [] && path[|path| - 1] == '/'
  }

  function Slashes(path: string): string {
    seq(|path|, i requires 0 <= i < |path| => if path[i] == '\\' then '/' else path[i])
  }

  datatype Step = Fail(error: ZipError) | Skip(next: nat) | Take(next: nat, entry: Entry)

  /** One turn of the reader's loop over the central directory. */
  function ReadEntry(os: Platform, a: Bytes, offset: nat, maxEntryBytes: nat): Step {
    if offset + 46 > |a| || Get32(a, offset) != CENTRAL_FILE_HEADER then Fail(Damaged)
    else
      var nameLength := Get16(a, offset + 28);
      var path := os.decode(Sub(a, offset + 46, offset + 46 + nameLength));
      var next := offset + 46 + nameLength + Get16(a, offset + 30) + Get16(a, offset + 32);
      var size := Get32(a, offset + 24);
      if EndsWithSlash(path) then Skip(next)
      else if Get16(a, offset + 8) % 2 != 0 then Fail(Encrypted(path))
      else if size > maxEntryBytes then Skip(next)
      else
        match ReadBody(os, a, Get32(a, offset + 42), Get16(a, offset + 10), Get32(a, offset + 20), path)
        case Err(error) => Fail(error)
        case Ok(bytes) => Take(next, Entry(Slashes(path), size, bytes))
  }

  function ReadBody(os: Platform, a: Bytes, localOffset: nat, compression: nat, compressedSize: nat, path: string): Result<Bytes, ZipError> {
    if localOffset + 4 > |a| then Err(OutOfRange)
    else if Get32(a, localOffset) != LOCAL_FILE_HEADER then Err(Damaged)
    else if localOffset + 30 > |a| then Err(OutOfRange)
    else
      var start := localOffset + 30 + Get16(a, localOffset + 26) + Get16(a, localOffset + 28);
      var raw := Sub(a, start, start + compressedSize);
      if compression == STORED then Ok(raw)
      else if compression == DEFLATED then
        if os.inflate(raw).Some? then Ok(os.inflate(raw).value) else Err(BadDeflate)
      else Err(UnknownCompression(path))
  }

  /** The reader's loop, over whatever one turn does at an offset. */
  function Walk(turn: nat -> Step, offset: nat, left: nat, entries: seq<Entry>, maxEntries: nat): Result<seq<Entry>, ZipError>
    decreases left
  {
    if left == 0 || |entries| >= maxEntries then Ok(entries)
    else
      match turn(offset)
      case Fail(error) => Err(error)
      case Skip(next) => Walk(turn, next, left - 1, entries, maxEntries)
      case Take(next, entry) => Walk(turn, next, left - 1, entries + [entry], maxEntries)
  }

  function Turn(os: Platform, a: Bytes, limits: Limits): nat -> Step {
    (offset: nat) => ReadEntry(os, a, offset, limits.maxEntryBytes)
  }

  /** The last place within reach of the comment limit where the end signature stands. */
  ghost predicate IsEnd(a: Bytes, end: int) {
    var n := |a|;
    if exists i :: Max(0, n - 22 - 65535) <= i <= n - 22 && IsSignature(a, i) then
      && Max(0, n - 22 - 65535) <= end <= n - 22 && IsSignature(a, end)
      && forall i :: end < i <= n - 22 ==> !IsSignature(a, i)
    else end == -1
  }

  predicate IsSignature(a: Bytes, i: int) {
    0 <= i && i + 4 <= |a| && Get32(a, i) == END_OF_CENTRAL_DIRECTORY
  }

  function ScanBack(a: Bytes, i: int, low: nat): int
    requires i <= |a| - 22
    decreases i
  {
    if i < low then -1 else if IsSignature(a, i) then i else ScanBack(a, i - 1, low)
  }

  function EndOf(a: Bytes): int {
    ScanBack(a, |a| - 22, Max(0, |a| - 22 - 65535))
  }

  /** What reading any bytes gives. */
  function Read(os: Platform, a: Bytes, limits: Limits): Result<seq<Entry>, ZipError> {
    ReadWith(Turn(os, a, limits), a, limits)
  }

  function ReadWith(turn: nat -> Step, a: Bytes, limits: Limits): Result<seq<Entry>, ZipError> {
    var end := EndOf(a);
    if end < 0 || end + 22 > |a| then Err(NotAnArchive)
    else if Get16(a, end + 10) == 0xffff || Get32(a, end + 16) == 0xffffffff then Err(Zip64)
    else Walk(turn, Get32(a, end + 16), Get16(a, end + 10), [], limits.maxEntries)
  }

  lemma {:induction false} ScanBackFindsLast(a: Bytes, i: int, low: nat)
    requires i <= |a| - 22
    ensures var end := ScanBack(a, i, low);
      && (end == -1 || (low <= end <= i && IsSignature(a, end)))
      && forall j :: low <= j <= i && end < j ==> !IsSignature(a, j)
    decreases i
  {
    if i >= low && !IsSignature(a, i) {
      ScanBackFindsLast(a, i - 1, low);
    }
  }

  /** The backward scan finds the last end signature a comment of the greatest length leaves within reach. */
  lemma EndOfIsLast(a: Bytes)
    ensures IsEnd(a, EndOf(a))
  {
    ScanBackFindsLast(a, |a| - 22, Max(0, |a| - 22 - 65535));
  }

  method FindEnd(a: Bytes) returns (end: int)
    ensures end == EndOf(a) && (end == -1 || 0 <= end <= |a| - 22)
  {
    var n := |a|;
    var low := Max(0, n - 22 - 65535);
    var i := n - 22;
    while i >= low
      invariant low - 1 <= i <= n - 22 || i == n - 22
      invariant EndOf(a) == ScanBack(a, i, low)
    {
      if Get32(a, i) == END_OF_CENTRAL_DIRECTORY {
        assert IsSignature(a, i);
        return i;
      }
      i := i - 1;
    }
    return -1;
  }

  method ReadNext(os: Platform, archive: Bytes, from: nat, limits: Limits) returns (step: Step)
    ensures step == ReadEntry(os, archive, from, limits.maxEntryBytes)
  {
    var offset := from;
    if offset + 46 > |archive| || Get32(archive, offset) != CENTRAL_FILE_HEADER {
      return Fail(Damaged);
    }
    var flags := Get16(archive, offset + 8);
    var compression := Get16(archive, offset + 10);
    var compressedSize := Get32(archive, offset + 20);
    var size := Get32(archive, offset + 24);
    var nameLength := Get16(archive, offset + 28);
    var extraLength := Get16(archive, offset + 30);
    var commentLength := Get16(archive, offset + 32);
    var localOffset := Get32(archive, offset + 42);
    var path := os.decode(Sub(archive, offset + 46, offset + 46 + nameLength));
    offset := offset + 46 + nameLength + extraLength + commentLength;
    if EndsWithSlash(path) {
      return Skip(offset);
    }
    if flags % 2 != 0 {
      return Fail(Encrypted(path));
    }
    if size > limits.maxEntryBytes {
      return Skip(offset);
    }
    var body := ReadBody(os, archive, localOffset, compression, compressedSize, path);
    if body.Err? {
      return Fail(body.error);
    }
    return Take(offset, Entry(Slashes(path), size, body.value));
  }

  method ReadZip(os: Platform, archive: Bytes, limits: Limits) returns (r: Result<seq<Entry>, ZipError>)
    ensures r == Read(os, archive, limits)
  {
    TurnDescribes(os, archive, limits);
    r := ReadArchive(os, archive, Turn(os, archive, limits), limits);
  }

  /** `readZip`, over what a turn of its loop does at each offset. */
  method ReadArchive(os: Platform, archive: Bytes, ghost turn: nat -> Step, limits: Limits) returns (r: Result<seq<Entry>, ZipError>)
    requires Describes(turn, os, archive, limits)
    ensures r == ReadWith(turn, archive, limits)
  {
    var end := FindEnd(archive);
    if end == -1 {
      return Err(NotAnArchive);
    }
    var count := Get16(archive, end + 10);
    var offset: nat := Get32(archive, end + 16);
    if count == 0xffff || offset == 0xffffffff {
      return Err(Zip64);
    }
    r := ReadDirectory(os, archive, turn, offset, count, limits);
  }

  ghost function TurnAt(turn: nat -> Step, offset: nat): Step {
    turn(offset)
  }

  /** The function says of every offset what a turn of the reader's loop does there. */
  ghost predicate Describes(turn: nat -> Step, os: Platform, a: Bytes, limits: Limits) {
    forall offset: nat :: TurnAt(turn, offset) == ReadEntry(os, a, offset, limits.maxEntryBytes)
  }

  lemma TurnDescribes(os: Platform, a: Bytes, limits: Limits)
    ensures Describes(Turn(os, a, limits), os, a, limits)
  {
  }

  method TakeTurn(os: Platform, archive: Bytes, ghost turn: nat -> Step, offset: nat, limits: Limits) returns (step: Step)
    requires Describes(turn, os, archive, limits)
    ensures step == turn(offset)
  {
    step := ReadNext(os, archive, offset, limits);
    assert TurnAt(turn, offset) == step;
  }

  /** The loop over the central directory. */
  method ReadDirectory(os: Platform, archive: Bytes, ghost turn: nat -> Step, from: nat, count: nat, limits: Limits) returns (r: Result<seq<Entry>, ZipError>)
    requires Describes(turn, os, archive, limits)
    ensures r == Walk(turn, from, count, [], limits.maxEntries)
  {
    var offset := from;
    var entries: seq<Entry> := [];
    var n := 0;
    while n < count && |entries| < limits.maxEntries
      invariant n <= count
      invariant Walk(turn, from, count, [], limits.maxEntries) == Walk(turn, offset, count - n, entries, limits.maxEntries)
      decreases count - n
    {
      var step := TakeTurn(os, archive, turn, offset, limits);
      if step.Fail? {
        return Err(step.error);
      }
      offset := step.next;
      n := n + 1;
      if step.Take? {
        entries := entries + [step.entry];
      }
    }
    r := Ok(entries);
  }

  // ---- Reading what was written ----

  /** The format's fields can hold these files. */
  ghost predicate Fits(os: Platform, files: seq<File>) {
    && |files| < 0xffff && LocalOffset(os, files, |files|) < 0xffffffff
    && forall f :: f in files ==> FileFits(os, f)
  }

  /** Decoding a name undoes encoding it, and inflating undoes deflating. */
  ghost predicate Faithful(os: Platform, files: seq<File>) {
    forall f :: f in files ==>
      && os.decode(os.encode(f.path)) == f.path
      && (f.deflate ==> os.inflate(os.deflate(Data(os, f))) == Some(Data(os, f)))
  }

  /** A directory is not listed, and neither is a file over the limit. */
  predicate IsListed(os: Platform, f: File, limits: Limits) {
    !EndsWithSlash(f.path) && |Data(os, f)| <= limits.maxEntryBytes
  }

  function EntryOf(os: Platform, f: File): Entry {
    Entry(Slashes(f.path), |Data(os, f)|, Data(os, f))
  }

  function Listed(os: Platform, files: seq<File>, limits: Limits): seq<Entry> {
    if files == [] then []
    else if IsListed(os, files[0], limits) then [EntryOf(os, files[0])] + Listed(os, files[1..], limits)
    else Listed(os, files[1..], limits)
  }

  function UpTo<T>(s: seq<T>, n: nat): seq<T> {
    if |s| <= n then s else s[..n]
  }

  lemma LocalFields(os: Platform, f: File, a: Bytes, l: nat)
    requires At(a, l, LocalPart(os, f)) && |os.encode(f.path)| < 0x1_0000
    ensures l + 30 + |os.encode(f.path)| + |Body(os, f)| <= |a|
    ensures Get32(a, l) == LOCAL_FILE_HEADER && Get16(a, l + 26) == |os.encode(f.path)| && Get16(a, l + 28) == 0
    ensures At(a, l + 30 + |os.encode(f.path)|, Body(os, f))
  {
    var name := os.encode(f.path);
    AtSplit(a, l, LocalHeader(os, f), Body(os, f));
    AtSplit(a, l, LocalFront(os, f), LocalNames(name));
    LocalSignature(os, f, a, l);
    LocalNameFields(a, l + 26, name);
  }

  lemma LocalSignature(os: Platform, f: File, a: Bytes, l: nat)
    requires At(a, l, LocalFront(os, f))
    ensures Get32(a, l) == LOCAL_FILE_HEADER
  {
    AtSplit(a, l, U32(LOCAL_FILE_HEADER), U16(20) + U16(UTF8_FLAG) + U16(Method(f)) + Zeros(4) + Sizes(os, f));
    Read32(a, l, LOCAL_FILE_HEADER);
  }

  lemma LocalNameFields(a: Bytes, i: nat, name: Bytes)
    requires At(a, i, LocalNames(name)) && |name| < 0x1_0000
    ensures Get16(a, i) == |name| && Get16(a, i + 2) == 0
  {
    AtSplit(a, i, U16(|name|), U16(0) + name);
    Read16(a, i, |name|);
    AtSplit(a, i + 2, U16(0), name);
    Read16(a, i + 2, 0);
  }

  lemma SubAt(a: Bytes, i: nat, x: Bytes)
    requires At(a, i, x)
    ensures Sub(a, i, i + |x|) == x
  {
  }

  lemma BodyReadBack(os: Platform, f: File, a: Bytes, l: nat, path: string)
    requires At(a, l, LocalPart(os, f)) && |os.encode(f.path)| < 0x1_0000
    requires f.deflate ==> os.inflate(os.deflate(Data(os, f))) == Some(Data(os, f))
    ensures ReadBody(os, a, l, Method(f), |Body(os, f)|, path) == Ok(Data(os, f))
  {
    LocalFields(os, f, a, l);
    BodyFound(a, l, |os.encode(f.path)|, Body(os, f));
    Decompressed(os, a, l, f, path);
  }

  ghost predicate LocalSays(a: Bytes, l: nat, n: nat, body: Bytes) {
    && l + 30 + n + |body| <= |a| && Get32(a, l) == LOCAL_FILE_HEADER && Get16(a, l + 26) == n && Get16(a, l + 28) == 0
    && Sub(a, l + 30 + n, l + 30 + n + |body|) == body
  }

  lemma BodyFound(a: Bytes, l: nat, n: nat, body: Bytes)
    requires l + 30 + n + |body| <= |a| && Get32(a, l) == LOCAL_FILE_HEADER && Get16(a, l + 26) == n && Get16(a, l + 28) == 0
    requires At(a, l + 30 + n, body)
    ensures LocalSays(a, l, n, body)
  {
    SubAt(a, l + 30 + n, body);
  }

  lemma Decompressed(os: Platform, a: Bytes, l: nat, f: File, path: string)
    requires LocalSays(a, l, |os.encode(f.path)|, Body(os, f))
    requires f.deflate ==> os.inflate(os.deflate(Data(os, f))) == Some(Data(os, f))
    ensures ReadBody(os, a, l, Method(f), |Body(os, f)|, path) == Ok(Data(os, f))
  {
  }

  ghost predicate CentralSays(os: Platform, f: File, a: Bytes, o: nat, l: nat) {
    && o + 46 + |os.encode(f.path)| <= |a| && At(a, o + 46, os.encode(f.path))
    && Get32(a, o) == CENTRAL_FILE_HEADER && Get16(a, o + 8) == UTF8_FLAG && Get16(a, o + 10) == Method(f)
    && Get32(a, o + 20) == |Body(os, f)| && Get32(a, o + 24) == |Data(os, f)|
    && Get16(a, o + 28) == |os.encode(f.path)| && Get16(a, o + 30) == 0 && Get16(a, o + 32) == 0 && Get32(a, o + 42) == l
  }

  lemma CentralFields(os: Platform, f: File, a: Bytes, o: nat, l: nat)
    requires At(a, o, CentralHeader(os, f, l)) && |os.encode(f.path)| < 0x1_0000
    requires |Body(os, f)| < 0x1_0000_0000 && |Data(os, f)| < 0x1_0000_0000 && l < 0x1_0000_0000
    ensures CentralSays(os, f, a, o, l)
  {
    var name := os.encode(f.path);
    AtSplit(a, o, CentralFront(f), Sizes(os, f) + CentralNames(name, l));
    AtSplit(a, o + 16, Sizes(os, f), CentralNames(name, l));
    FrontFields(f, a, o);
    SizeFields(a, o + 16, U32(os.crc32(Data(os, f))), |Body(os, f)|, |Data(os, f)|);
    NameFields(a, o + 28, l, name);
  }

  lemma FrontFields(f: File, a: Bytes, o: nat)
    requires At(a, o, CentralFront(f))
    ensures o + 12 <= |a|
    ensures Get32(a, o) == CENTRAL_FILE_HEADER && Get16(a, o + 8) == UTF8_FLAG && Get16(a, o + 10) == Method(f)
  {
    AtSplit(a, o, U32(CENTRAL_FILE_HEADER), Zeros(4) + (U16(UTF8_FLAG) + (U16(Method(f)) + Zeros(4))));
    AtSplit(a, o + 4, Zeros(4), U16(UTF8_FLAG) + (U16(Method(f)) + Zeros(4)));
    AtSplit(a, o + 8, U16(UTF8_FLAG), U16(Method(f)) + Zeros(4));
    AtSplit(a, o + 10, U16(Method(f)), Zeros(4));
    Read32(a, o, CENTRAL_FILE_HEADER);
    Read16(a, o + 8, UTF8_FLAG);
    Read16(a, o + 10, Method(f));
  }

  lemma Read32Exact(a: Bytes, i: nat, v: nat)
    requires At(a, i, U32(v)) && v < 0x1_0000_0000
    ensures Get32(a, i) == v
  {
    Read32(a, i, v);
  }

  lemma SizeFields(a: Bytes, i: nat, crc: Bytes, body: nat, data: nat)
    requires At(a, i, crc + (U32(body) + U32(data))) && body < 0x1_0000_0000 && data < 0x1_0000_0000
    ensures i + |crc| + 8 <= |a| && Get32(a, i + |crc|) == body && Get32(a, i + |crc| + 4) == data
  {
    AtSplit3(a, i, crc, U32(body), U32(data));
    Read32Exact(a, i + |crc|, body);
    Read32Exact(a, i + |crc| + 4, data);
  }

  lemma ZerosRead(a: Bytes, i: nat, n: nat)
    requires At(a, i, Zeros(n)) && n >= 4
    ensures Get16(a, i) == 0 && Get16(a, i + 2) == 0
  {
    var z := a[i..i + n];
    assert z == Zeros(n);
    assert a[i] == z[0] == 0 && a[i + 1] == z[1] == 0 && a[i + 2] == z[2] == 0 && a[i + 3] == z[3] == 0;
  }

  lemma NameFields(a: Bytes, i: nat, l: nat, name: Bytes)
    requires At(a, i, CentralNames(name, l)) && l < 0x1_0000_0000 && |name| < 0x1_0000
    ensures i + 18 + |name| <= |a| && Get16(a, i) == |name|
    ensures Get16(a, i + 2) == 0 && Get16(a, i + 4) == 0 && Get32(a, i + 14) == l && At(a, i + 18, name)
  {
    NameSplit(a, i, U16(|name|), Zeros(12), U32(l), name);
    Read16Exact(a, i, |name|);
    ZerosRead(a, i + 2, 12);
    Read32Exact(a, i + 14, l);
  }

  lemma NameSplit(a: Bytes, i: nat, x: Bytes, y: Bytes, z: Bytes, w: Bytes)
    requires At(a, i, x + (y + (z + w)))
    ensures At(a, i, x) && At(a, i + |x|, y) && At(a, i + |x| + |y|, z) && At(a, i + |x| + |y| + |z|, w)
  {
    AtSplit(a, i, x, y + (z + w));
    AtSplit3(a, i + |x|, y, z, w);
  }

  /** One written file, read back through its central header. */
  lemma EntryReadBack(os: Platform, f: File, a: Bytes, o: nat, l: nat, limits: Limits)
    requires At(a, o, CentralHeader(os, f, l)) && At(a, l, LocalPart(os, f)) && Faithful(os, [f])
    requires FileFits(os, f) && |Body(os, f)| < 0x1_0000_0000 && l < 0x1_0000_0000
    ensures ReadEntry(os, a, o, limits.maxEntryBytes) == StepFor(os, f, o, limits)
  {
    assert f in [f];
    CentralFields(os, f, a, o, l);
    BodyReadBack(os, f, a, l, f.path);
    StepReadBack(os, f, a, o, l, limits);
  }

  ghost function StepFor(os: Platform, f: File, o: nat, limits: Limits): Step {
    var next := o + 46 + |os.encode(f.path)|;
    if IsListed(os, f, limits) then Take(next, EntryOf(os, f)) else Skip(next)
  }

  lemma StepReadBack(os: Platform, f: File, a: Bytes, o: nat, l: nat, limits: Limits)
    requires CentralSays(os, f, a, o, l) && os.decode(os.encode(f.path)) == f.path
    requires ReadBody(os, a, l, Method(f), |Body(os, f)|, f.path) == Ok(Data(os, f))
    ensures ReadEntry(os, a, o, limits.maxEntryBytes) == StepFor(os, f, o, limits)
  {
    SubAt(a, o + 46, os.encode(f.path));
  }

  lemma {:induction false} ConcatAt(a: Bytes, i: nat, parts: seq<Bytes>, k: nat)
    requires At(a, i, Concat(parts)) && k < |parts|
    ensures At(a, i + |Concat(parts[..k])|, parts[k]) && |Concat(parts[..k + 1])| == |Concat(parts[..k])| + |parts[k]|
    ensures |Concat(parts[..k + 1])| <= |Concat(parts)|
    decreases |parts|
  {
    var n := |parts| - 1;
    assert parts[..k + 1][..k] == parts[..k];
    AtSplit(a, i, Concat(parts[..n]), parts[n]);
    if k < n {
      ConcatAt(a, i, parts[..n], k);
      assert parts[..n][..k] == parts[..k] && parts[..n][..k + 1] == parts[..k + 1];
    } else {
      assert parts[..k + 1] == parts;
    }
  }

  /** Where file k's central header starts. */
  ghost function CentralOffset(os: Platform, files: seq<File>, k: nat): nat
    requires k <= |files|
  {
    LocalOffset(os, files, |files|) + |Concat(CentralParts(os, files, |files|)[..k])|
  }

  ghost predicate Placed(os: Platform, files: seq<File>, a: Bytes) {
    && At(a, 0, Concat(LocalParts(os, files)))
    && At(a, LocalOffset(os, files, |files|), Concat(CentralParts(os, files, |files|)))
  }

  lemma ArchiveIsPlaced(os: Platform, files: seq<File>)
    ensures Placed(os, files, Archive(os, files))
  {
    var locals, centrals := Concat(LocalParts(os, files)), Concat(CentralParts(os, files, |files|));
    ThreeParts(locals, centrals, EndRecord(|files|, |centrals|, |locals|));
    assert LocalParts(os, files)[..|files|] == LocalParts(os, files);
  }

  lemma ThreeParts(x: Bytes, y: Bytes, z: Bytes)
    ensures At(x + y + z, 0, x) && At(x + y + z, |x|, y) && At(x + y + z, |x| + |y|, z)
  {
  }

  lemma LocalIsPlaced(os: Platform, files: seq<File>, a: Bytes, k: nat)
    requires At(a, 0, Concat(LocalParts(os, files))) && k < |files|
    ensures At(a, LocalOffset(os, files, k), LocalPart(os, files[k]))
    ensures LocalOffset(os, files, k) + |LocalPart(os, files[k])| <= LocalOffset(os, files, |files|)
  {
    assert LocalParts(os, files)[..|files|] == LocalParts(os, files);
    ConcatAt(a, 0, LocalParts(os, files), k);
  }

  lemma {:induction false} PartsAt(part: nat -> Bytes, n: nat, k: nat)
    requires k < n
    ensures PartsOf(part, n)[k] == part(k)
    decreases n
  {
    if k < n - 1 {
      PartsAt(part, n - 1, k);
    }
  }

  lemma CentralPartAt(os: Platform, files: seq<File>, n: nat, k: nat)
    requires k < n <= |files|
    ensures CentralParts(os, files, n)[k] == CentralHeader(os, files[k], LocalOffset(os, files, k))
  {
    PartsAt(HeaderOf(os, files), n, k);
  }

  lemma CentralIsPlaced(os: Platform, files: seq<File>, a: Bytes, k: nat)
    requires At(a, LocalOffset(os, files, |files|), Concat(CentralParts(os, files, |files|))) && k < |files|
    ensures At(a, CentralOffset(os, files, k), CentralParts(os, files, |files|)[k])
    ensures CentralOffset(os, files, k + 1) == CentralOffset(os, files, k) + |CentralParts(os, files, |files|)[k]|
  {
    ConcatAt(a, LocalOffset(os, files, |files|), CentralParts(os, files, |files|), k);
  }

  lemma CentralLength(os: Platform, f: File, offset: nat)
    ensures |CentralHeader(os, f, offset)| == 46 + |os.encode(f.path)| && |Body(os, f)| <= |LocalPart(os, f)|
  {
  }

  ghost predicate FileFits(os: Platform, f: File) {
    |os.encode(f.path)| < 0x1_0000 && |Data(os, f)| < 0x1_0000_0000
  }

  lemma FileReadBack(os: Platform, files: seq<File>, a: Bytes, k: nat, limits: Limits)
    requires Placed(os, files, a) && k < |files| && LocalOffset(os, files, |files|) < 0x1_0000_0000
    requires FileFits(os, files[k]) && Faithful(os, [files[k]])
    ensures ReadEntry(os, a, CentralOffset(os, files, k), limits.maxEntryBytes) == StepFor(os, files[k], CentralOffset(os, files, k), limits)
    ensures CentralOffset(os, files, k + 1) == CentralOffset(os, files, k) + 46 + |os.encode(files[k].path)|
  {
    var f, o, l := files[k], CentralOffset(os, files, k), LocalOffset(os, files, k);
    LocalIsPlaced(os, files, a, k);
    CentralIsPlaced(os, files, a, k);
    CentralPartAt(os, files, |files|, k);
    CentralLength(os, f, l);
    EntryReadBack(os, f, a, o, l, limits);
  }

  /** Walking the central directory from o, each turn meets the next file. */
  ghost predicate Walks(os: Platform, files: seq<File>, turn: nat -> Step, o: nat, limits: Limits) {
    files == [] ||
    (&& turn(o) == StepFor(os, files[0], o, limits)
     && Walks(os, files[1..], turn, o + 46 + |os.encode(files[0].path)|, limits))
  }

  /** Every turn meets its file, and ends where the next header starts. */
  ghost predicate EveryTurn(os: Platform, files: seq<File>, turn: nat -> Step, at: seq<nat>, limits: Limits) {
    && |at| == |files| + 1
    && (forall k :: 0 <= k < |files| ==> turn(at[k]) == StepFor(os, files[k], at[k], limits))
    && (forall k :: 0 <= k < |files| ==> at[k + 1] == at[k] + 46 + |os.encode(files[k].path)|)
  }

  lemma {:induction false} TurnsWalk(os: Platform, files: seq<File>, turn: nat -> Step, at: seq<nat>, k: nat, limits: Limits)
    requires k <= |files| && EveryTurn(os, files, turn, at, limits)
    ensures Walks(os, files[k..], turn, at[k], limits)
    decreases |files| - k
  {
    if k < |files| {
      TurnsWalk(os, files, turn, at, k + 1, limits);
      assert files[k..][1..] == files[k + 1..] && files[k..][0] == files[k];
      assert at[k + 1] == at[k] + 46 + |os.encode(files[k].path)|;
    }
  }

  ghost function CentralOffsets(os: Platform, files: seq<File>): (at: seq<nat>)
    ensures |at| == |files| + 1 && at[0] == LocalOffset(os, files, |files|)
    ensures forall k :: 0 <= k <= |files| ==> at[k] == CentralOffset(os, files, k)
  {
    assert CentralParts(os, files, |files|)[..0] == [];
    seq(|files| + 1, k requires 0 <= k <= |files| => CentralOffset(os, files, k))
  }

  lemma EveryFileReadBack(os: Platform, files: seq<File>, a: Bytes, limits: Limits)
    requires Placed(os, files, a) && Fits(os, files) && Faithful(os, files)
    ensures EveryTurn(os, files, Turn(os, a, limits), CentralOffsets(os, files), limits)
  {
    var at := CentralOffsets(os, files);
    forall k | 0 <= k < |files|
      ensures Turn(os, a, limits)(at[k]) == StepFor(os, files[k], at[k], limits)
      ensures at[k + 1] == at[k] + 46 + |os.encode(files[k].path)|
    {
      assert files[k] in files;
      assert Faithful(os, [files[k]]);
      FileReadBack(os, files, a, k, limits);
    }
  }

  lemma {:induction false} EntriesReadBack(os: Platform, files: seq<File>, turn: nat -> Step, o: nat, entries: seq<Entry>, limits: Limits)
    requires Walks(os, files, turn, o, limits) && |entries| <= limits.maxEntries
    ensures Walk(turn, o, |files|, entries, limits.maxEntries) == Ok(UpTo(entries + Listed(os, files, limits), limits.maxEntries))
    decreases |files|
  {
    if files == [] {
      assert entries + Listed(os, files, limits) == entries;
    } else if |entries| == limits.maxEntries {
      assert UpTo(entries + Listed(os, files, limits), |entries|) == entries;
    } else {
      var f, rest := files[0], files[1..];
      var next := o + 46 + |os.encode(f.path)|;
      if IsListed(os, f, limits) {
        EntriesReadBack(os, rest, turn, next, entries + [EntryOf(os, f)], limits);
        assert entries + [EntryOf(os, f)] + Listed(os, rest, limits) == entries + Listed(os, files, limits);
      } else {
        EntriesReadBack(os, rest, turn, next, entries, limits);
      }
    }
  }

  lemma EndFields(a: Bytes, e: nat, count: nat, centralSize: nat, offset: nat)
    requires At(a, e, EndRecord(count, centralSize, offset))
    ensures e + 22 <= |a| && Get32(a, e) == END_OF_CENTRAL_DIRECTORY
    ensures Get16(a, e + 10) == count % 0x1_0000 && Get32(a, e + 16) == offset % 0x1_0000_0000
  {
    AtSplit(a, e, U32(END_OF_CENTRAL_DIRECTORY) + (Zeros(4) + U16(count)), U16(count) + (U32(centralSize) + (U32(offset) + Zeros(2))));
    AtSplit(a, e, U32(END_OF_CENTRAL_DIRECTORY), Zeros(4) + U16(count));
    AtSplit(a, e + 10, U16(count), U32(centralSize) + (U32(offset) + Zeros(2)));
    AtSplit(a, e + 12, U32(centralSize), U32(offset) + Zeros(2));
    AtSplit(a, e + 16, U32(offset), Zeros(2));
    Read32(a, e, END_OF_CENTRAL_DIRECTORY);
    Read32(a, e + 16, offset);
    Read16(a, e + 10, count);
  }

  ghost predicate EndSays(a: Bytes, count: nat, offset: nat) {
    EndOf(a) == |a| - 22 >= 0 && Get16(a, |a| - 12) == count % 0x1_0000 && Get32(a, |a| - 6) == offset % 0x1_0000_0000
  }

  /** The end record is the last 22 bytes, so the scan stops at its first probe, whatever the files hold. */
  lemma EndIsFound(body: Bytes, count: nat, centralSize: nat, offset: nat)
    ensures EndSays(body + EndRecord(count, centralSize, offset), count, offset)
  {
    var a := body + EndRecord(count, centralSize, offset);
    assert At(a, |body|, EndRecord(count, centralSize, offset));
    EndFields(a, |body|, count, centralSize, offset);
    assert IsSignature(a, |body|);
  }

  lemma ArchiveEnd(os: Platform, files: seq<File>)
    ensures EndSays(Archive(os, files), |files|, LocalOffset(os, files, |files|))
  {
    var locals, centrals := Concat(LocalParts(os, files)), Concat(CentralParts(os, files, |files|));
    EndIsFound(locals + centrals, |files|, |centrals|, |locals|);
    assert LocalParts(os, files)[..|files|] == LocalParts(os, files);
  }

  lemma ReadFromEnd(turn: nat -> Step, a: Bytes, count: nat, offset: nat, limits: Limits)
    requires EndSays(a, count, offset) && count < 0xffff && offset < 0xffffffff
    ensures ReadWith(turn, a, limits) == Walk(turn, offset, count, [], limits.maxEntries)
  {
    assert EndOf(a) + 10 == |a| - 12 && EndOf(a) + 16 == |a| - 6;
  }

  lemma ReadPlaced(os: Platform, files: seq<File>, a: Bytes, turn: nat -> Step, at: seq<nat>, limits: Limits)
    requires |files| < 0xffff && EveryTurn(os, files, turn, at, limits) && at[0] < 0xffffffff && EndSays(a, |files|, at[0])
    ensures ReadWith(turn, a, limits) == Ok(UpTo(Listed(os, files, limits), limits.maxEntries))
  {
    ReadFromEnd(turn, a, |files|, at[0], limits);
    TurnsWalk(os, files, turn, at, 0, limits);
    assert files[0..] == files;
    EntriesReadBack(os, files, turn, at[0], [], limits);
    assert [] + Listed(os, files, limits) == Listed(os, files, limits);
  }

  /** Reading any archive that fits the format gives back exactly its listed files, in order. */
  lemma ReadUndoesWrite(os: Platform, files: seq<File>, limits: Limits)
    requires Fits(os, files) && Faithful(os, files)
    ensures Read(os, Archive(os, files), limits) == Ok(UpTo(Listed(os, files, limits), limits.maxEntries))
  {
    ArchiveIsPlaced(os, files);
    ArchiveEnd(os, files);
    EveryFileReadBack(os, files, Archive(os, files), limits);
    ReadPlaced(os, files, Archive(os, files), Turn(os, Archive(os, files), limits), CentralOffsets(os, files), limits);
  }

  lemma {:induction false} AllListed(os: Platform, files: seq<File>, limits: Limits)
    requires forall f :: f in files ==> IsListed(os, f, limits)
    ensures |Listed(os, files, limits)| == |files|
    ensures forall i :: 0 <= i < |files| ==> Listed(os, files, limits)[i] == EntryOf(os, files[i])
  {
    if files != [] {
      AllListed(os, files[1..], limits);
    }
  }

  lemma PlainPath(path: string)
    requires '\\' !in path
    ensures Slashes(path) == path
  {
  }

  /** Files with plain names within the limits come back one for one: same path, same size, same bytes. */
  lemma PlainFilesReadBack(os: Platform, files: seq<File>, limits: Limits)
    requires Fits(os, files) && Faithful(os, files) && |files| <= limits.maxEntries
    requires forall f :: f in files ==> !EndsWithSlash(f.path) && '\\' !in f.path && |Data(os, f)| <= limits.maxEntryBytes
    ensures var r := Read(os, Archive(os, files), limits);
      && r.Ok? && |r.value| == |files|
      && forall i :: 0 <= i < |files| ==> r.value[i] == Entry(files[i].path, |Data(os, files[i])|, Data(os, files[i]))
  {
    ReadUndoesWrite(os, files, limits);
    AllListed(os, files, limits);
    forall i | 0 <= i < |files|
      ensures Slashes(files[i].path) == files[i].path
    {
      PlainPath(files[i].path);
    }
  }

  // ---- ASCII names ----

  predicate IsAscii(s: string) {
    forall i :: 0 <= i < |s| ==> s[i] as int < 0x80
  }

  function AsciiBytes(s: string): Bytes
    requires IsAscii(s)
  {
    seq(|s|, i requires 0 <= i < |s| => s[i] as int as Byte)
  }

  function AsciiText(b: Bytes): string
    requires forall i :: 0 <= i < |b| ==> b[i] < 0x80
  {
    seq(|b|, i requires 0 <= i < |b| => b[i] as int as char)
  }

  /** On ASCII, UTF-8 is one byte per character, both ways. */
  ghost predicate Utf8OnAscii(os: Platform) {
    && (forall s :: IsAscii(s) ==> os.encode(s) == AsciiBytes(s))
    && (forall b: Bytes :: (forall i :: 0 <= i < |b| ==> b[i] < 0x80) ==> os.decode(b) == AsciiText(b))
  }

  lemma AsciiNameIsFaithful(os: Platform, path: string)
    requires Utf8OnAscii(os) && IsAscii(path)
    ensures os.decode(os.encode(path)) == path
  {
    var b := AsciiBytes(path);
    assert forall i :: 0 <= i < |b| ==> b[i] < 0x80;
    assert AsciiText(b) == path;
  }

  /** Files with plain ASCII names come back one for one, given only that inflating undoes deflating. */
  lemma AsciiFilesReadBack(os: Platform, files: seq<File>, limits: Limits)
    requires Utf8OnAscii(os) && Fits(os, files) && |files| <= limits.maxEntries
    requires forall f :: f in files ==> IsAscii(f.path) && !EndsWithSlash(f.path) && '\\' !in f.path && |Data(os, f)| <= limits.maxEntryBytes
    requires forall f :: f in files && f.deflate ==> os.inflate(os.deflate(Data(os, f))) == Some(Data(os, f))
    ensures var r := Read(os, Archive(os, files), limits);
      && r.Ok? && |r.value| == |files|
      && forall i :: 0 <= i < |files| ==> r.value[i] == Entry(files[i].path, |Data(os, files[i])|, Data(os, files[i]))
  {
    forall f | f in files
      ensures os.decode(os.encode(f.path)) == f.path
    {
      AsciiNameIsFaithful(os, f.path);
    }
    PlainFilesReadBack(os, files, limits);
  }

  lemma EndIsReserved(turn: nat -> Step, a: Bytes, count: nat, offset: nat, limits: Limits)
    requires EndSays(a, count, offset) && (count % 0x1_0000 == 0xffff || offset % 0x1_0000_0000 == 0xffffffff)
    ensures ReadWith(turn, a, limits) == Err(Zip64)
  {
    assert EndOf(a) + 10 == |a| - 12 && EndOf(a) + 16 == |a| - 6;
  }

  /** At the values zip64 reserves, what was written is refused. */
  lemma ReservedValuesAreRefused(os: Platform, files: seq<File>, limits: Limits)
    requires |files| % 0x1_0000 == 0xffff || LocalOffset(os, files, |files|) % 0x1_0000_0000 == 0xffffffff
    ensures Read(os, Archive(os, files), limits) == Err(Zip64)
  {
    ArchiveEnd(os, files);
    EndIsReserved(Turn(os, Archive(os, files), limits), Archive(os, files), |files|, LocalOffset(os, files, |files|), limits);
  }

  // ---- Writing ----

  function Patch(s: Bytes, i: nat, x: Bytes): Bytes
    requires i + |x| <= |s|
  {
    s[..i] + x + s[i + |x|..]
  }

  method SetBytes(buffer: array<Byte>, i: nat, x: Bytes)
    requires i + |x| <= buffer.Length
    modifies buffer
    ensures buffer[..] == Patch(old(buffer[..]), i, x)
  {
    for k := 0 to |x|
      invariant buffer[..i] == old(buffer[..i]) && buffer[i..i + k] == x[..k] && buffer[i + k..] == old(buffer[i + k..])
    {
      buffer[i + k] := x[k];
      assert buffer[i..i + k + 1] == buffer[i..i + k] + [x[k]];
      assert buffer[i + k + 1..] == old(buffer[i + k + 1..]);
    }
    assert buffer[..] == buffer[..i] + buffer[i..i + |x|] + buffer[i + |x|..];
  }

  /** What is filled in once the bytes x are put at i, with zeros left in between. */
  ghost function Filled(done: Bytes, i: nat, x: Bytes): Bytes
    requires |done| <= i
  {
    (if i == |done| then done else done + Zeros(i - |done|)) + x
  }

  /** Puts the next field into a buffer that is still zero after what was filled in before. */
  method SetNext(buffer: array<Byte>, i: nat, x: Bytes, ghost done: Bytes)
    requires |done| <= i && i + |x| <= buffer.Length && buffer[..] == done + Zeros(buffer.Length - |done|)
    modifies buffer
    ensures buffer[..] == Filled(done, i, x) + Zeros(buffer.Length - i - |x|)
  {
    ghost var zeros := Zeros(buffer.Length - |done|);
    SetBytes(buffer, i, x);
    PatchZeros(done, buffer.Length - |done|, i - |done|, x);
  }

  lemma PatchZeros(done: Bytes, left: nat, gap: nat, x: Bytes)
    requires gap + |x| <= left
    ensures Patch(done + Zeros(left), |done| + gap, x) == Filled(done, |done| + gap, x) + Zeros(left - gap - |x|)
  {
    assert (done + Zeros(left))[..|done| + gap] == done + Zeros(gap);
    assert (done + Zeros(left))[|done| + gap + |x|..] == Zeros(left - gap - |x|);
    assert gap == 0 ==> done + Zeros(gap) == done;
  }

  method WriteLocal(os: Platform, f: File) returns (local: array<Byte>)
    ensures fresh(local) && local[..] == LocalHeader(os, f)
  {
    var name := os.encode(f.path);
    var crc, body, data := U32(os.crc32(Data(os, f))), U32(|Body(os, f)|), U32(|Data(os, f)|);
    local := PutLocal(U32(LOCAL_FILE_HEADER), U16(20), U16(UTF8_FLAG), U16(Method(f)), crc, body, data, U16(|name|), U16(0), name);
  }

  method PutLocal(signature: Bytes, version: Bytes, flags: Bytes, compression: Bytes, crc: Bytes, body: Bytes, data: Bytes, nameLength: Bytes, extraLength: Bytes, name: Bytes)
    returns (local: array<Byte>)
    requires |signature| == 4 && |version| == |flags| == |compression| == 2 && |crc| == |body| == |data| == 4 && |nameLength| == |extraLength| == 2
    ensures fresh(local)
    ensures local[..] == (signature + (version + flags + compression + Zeros(4) + (crc + (body + data)))) + (nameLength + (extraLength + name))
  {
    local := new Byte[30 + |name|](_ => 0);
    ghost var done: Bytes := [];
    assert local[..] == done + Zeros(local.Length);
    SetNext(local, 0, signature, done);
    done := signature;
    SetNext(local, 4, version, done);
    done := done + version;
    SetNext(local, 6, flags, done);
    done := done + flags;
    SetNext(local, 8, compression, done);
    done := done + compression;
    SetNext(local, 14, crc, done);
    done := done + Zeros(4) + crc;
    SetNext(local, 18, body, done);
    done := done + body;
    SetNext(local, 22, data, done);
    done := done + data;
    SetNext(local, 26, nameLength, done);
    done := done + nameLength;
    SetNext(local, 28, extraLength, done);
    done := done + extraLength;
    SetNext(local, 30, name, done);
    done := done + name;
    assert local[..] == done;
    LocalLayout(signature, version, flags, compression, Zeros(4), crc, body, data, nameLength, extraLength, name);
  }

  lemma LocalLayout(x0: Bytes, x1: Bytes, x2: Bytes, x3: Bytes, z: Bytes, x4: Bytes, x5: Bytes, x6: Bytes, x7: Bytes, x8: Bytes, x9: Bytes)
    ensures x0 + x1 + x2 + x3 + z + x4 + x5 + x6 + x7 + x8 + x9 == (x0 + (x1 + x2 + x3 + z + (x4 + (x5 + x6)))) + (x7 + (x8 + x9))
  {
  }

  method WriteCentral(os: Platform, f: File, offset: nat) returns (central: array<Byte>)
    ensures fresh(central) && central[..] == CentralHeader(os, f, offset)
  {
    var name := os.encode(f.path);
    var crc, body, data := U32(os.crc32(Data(os, f))), U32(|Body(os, f)|), U32(|Data(os, f)|);
    central := PutCentral(U32(CENTRAL_FILE_HEADER), U16(UTF8_FLAG), U16(Method(f)), crc, body, data, U16(|name|), U32(offset), name);
  }

  method PutCentral(signature: Bytes, flags: Bytes, compression: Bytes, crc: Bytes, body: Bytes, data: Bytes, nameLength: Bytes, offset: Bytes, name: Bytes)
    returns (central: array<Byte>)
    requires |signature| == 4 && |flags| == |compression| == 2 && |crc| == |body| == |data| == 4 && |nameLength| == 2 && |offset| == 4
    ensures fresh(central)
    ensures central[..] == (signature + (Zeros(4) + (flags + (compression + Zeros(4))))) + ((crc + (body + data)) + (nameLength + (Zeros(12) + (offset + name))))
  {
    central := new Byte[46 + |name|](_ => 0);
    ghost var done: Bytes := [];
    assert central[..] == done + Zeros(central.Length);
    SetNext(central, 0, signature, done);
    done := signature;
    SetNext(central, 8, flags, done);
    done := done + Zeros(4) + flags;
    SetNext(central, 10, compression, done);
    done := done + compression;
    SetNext(central, 16, crc, done);
    done := done + Zeros(4) + crc;
    SetNext(central, 20, body, done);
    done := done + body;
    SetNext(central, 24, data, done);
    done := done + data;
    SetNext(central, 28, nameLength, done);
    done := done + nameLength;
    SetNext(central, 42, offset, done);
    done := done + Zeros(12) + offset;
    SetNext(central, 46, name, done);
    done := done + name;
    assert central[..] == done;
    CentralLayout(signature, Zeros(4), flags, compression, crc, body, data, nameLength, Zeros(12), offset, name);
  }

  lemma CentralLayout(x0: Bytes, z: Bytes, x1: Bytes, x2: Bytes, x3: Bytes, x4: Bytes, x5: Bytes, x6: Bytes, zz: Bytes, x7: Bytes, x8: Bytes)
    ensures x0 + z + x1 + x2 + z + x3 + x4 + x5 + x6 + zz + x7 + x8
         == (x0 + (z + (x1 + (x2 + z)))) + ((x3 + (x4 + x5)) + (x6 + (zz + (x7 + x8))))
  {
  }

  method WriteEnd(count: nat, centralSize: nat, offset: nat) returns (end: array<Byte>)
    ensures fresh(end) && end[..] == EndRecord(count, centralSize, offset)
  {
    end := PutEnd(U32(END_OF_CENTRAL_DIRECTORY), U16(count), U32(centralSize), U32(offset));
  }

  method PutEnd(signature: Bytes, count: Bytes, centralSize: Bytes, offset: Bytes) returns (end: array<Byte>)
    requires |signature| == 4 && |count| == 2 && |centralSize| == |offset| == 4
    ensures fresh(end) && end[..] == (signature + (Zeros(4) + count)) + (count + (centralSize + (offset + Zeros(2))))
  {
    end := new Byte[22](_ => 0);
    ghost var done: Bytes := [];
    assert end[..] == done + Zeros(22);
    SetNext(end, 0, signature, done);
    done := signature;
    SetNext(end, 8, count, done);
    done := done + Zeros(4) + count;
    SetNext(end, 10, count, done);
    done := done + count;
    SetNext(end, 12, centralSize, done);
    done := done + centralSize;
    SetNext(end, 16, offset, done);
    done := done + offset;
    assert end[..] == done + Zeros(2);
  }

  lemma {:induction false} ConcatAppend(a: seq<Bytes>, b: seq<Bytes>)
    ensures Concat(a + b) == Concat(a) + Concat(b)
    decreases |b|
  {
    if b == [] {
      assert a + b == a;
    } else {
      var n := |b| - 1;
      ConcatAppend(a, b[..n]);
      assert (a + b)[..|a + b| - 1] == a + b[..n];
    }
  }

  method TotalLength(parts: seq<Bytes>) returns (n: nat)
    ensures n == |Concat(parts)|
  {
    n := 0;
    for k := 0 to |parts|
      invariant n == |Concat(parts[..k])|
    {
      n := n + |parts[k]|;
      assert parts[..k + 1][..k] == parts[..k];
    }
    assert parts[..|parts|] == parts;
  }

  /** Copies the parts one after another into one buffer. */
  method Assemble(all: seq<Bytes>) returns (out: array<Byte>)
    ensures fresh(out) && out[..] == Concat(all)
  {
    var total := TotalLength(all);
    out := new Byte[total](_ => 0);
    var at := 0;
    for k := 0 to |all|
      invariant at == |Concat(all[..k])| <= total && out[..at] == Concat(all[..k])
    {
      assert all[..k + 1][..k] == all[..k];
      ConcatAppend(all[..k + 1], all[k + 1..]);
      assert all[..k + 1] + all[k + 1..] == all;
      ghost var before := out[..];
      SetBytes(out, at, all[k]);
      assert out[..at + |all[k]|] == before[..at] + all[k];
      at := at + |all[k]|;
    }
    assert all[..|all|] == all;
  }

  lemma NextPart(parts: seq<Bytes>, k: nat, written: seq<Bytes>, header: Bytes, body: Bytes)
    requires k < |parts| && Concat(written) == Concat(parts[..k]) && parts[k] == header + body
    ensures Concat(written + [header, body]) == Concat(parts[..k + 1])
    ensures |Concat(parts[..k + 1])| == |Concat(parts[..k])| + |header| + |body|
  {
    assert parts[..k + 1][..k] == parts[..k];
    assert (written + [header, body])[..|written| + 1] == written + [header];
    assert (written + [header])[..|written|] == written;
    assert Concat(written) + header + body == Concat(parts[..k]) + (header + body);
  }

  /** The loop over the files: headers and bodies on one list, central headers on the other. */
  method WriteParts(os: Platform, files: seq<File>) returns (parts: seq<Bytes>, central: seq<Bytes>, offset: nat)
    ensures Concat(parts) == Concat(LocalParts(os, files)) && offset == |Concat(parts)| && central == CentralParts(os, files, |files|)
  {
    parts, central, offset := [], [], 0;
    ghost var locals := LocalParts(os, files);
    for k := 0 to |files|
      invariant Concat(parts) == Concat(locals[..k]) && offset == |Concat(locals[..k])|
      invariant central == CentralParts(os, files, k)
    {
      var local := WriteLocal(os, files[k]);
      var body := Body(os, files[k]);
      NextPart(locals, k, parts, local[..], body);
      parts := parts + [local[..], body];
      var c := WriteCentral(os, files[k], offset);
      NextHeader(os, files, k, c[..]);
      central := central + [c[..]];
      offset := offset + local.Length + |body|;
    }
    assert locals[..|files|] == locals;
  }

  lemma NextHeader(os: Platform, files: seq<File>, k: nat, header: Bytes)
    requires k < |files| && header == CentralHeader(os, files[k], LocalOffset(os, files, k))
    ensures CentralParts(os, files, k + 1) == CentralParts(os, files, k) + [header]
  {
  }

  /** Writing: headers and bodies first, then the central directory, then the end record. */
  method WriteZip(os: Platform, files: seq<File>) returns (out: array<Byte>)
    ensures fresh(out) && out[..] == Archive(os, files)
  {
    var parts, central, offset := WriteParts(os, files);
    var centralSize := TotalLength(central);
    var end := WriteEnd(|files|, centralSize, offset);
    JoinThree(parts, central, end[..]);
    out := Assemble(parts + central + [end[..]]);
  }

  lemma JoinThree(a: seq<Bytes>, b: seq<Bytes>, last: Bytes)
    ensures Concat(a + b + [last]) == Concat(a) + Concat(b) + last
  {
    ConcatAppend(a, b);
    ConcatAppend(a + b, [last]);
    OnePart(last);
  }

  lemma OnePart(x: Bytes)
    ensures Concat([x]) == x
  {
    assert [x][..0] == [];
  }
}
