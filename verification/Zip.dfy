/** The deterministic package archive: the writer of the artifact store, a reader for the ZIP
    format written from PKWARE APPNOTE 6.3, and the proof that reading undoes writing. */
module Zip {
  import opened Wrappers
  import opened Order
  import opened Crc32
  import opened Blobs

  /** Paths and contents are the bytes of their UTF-8 strings. */
  datatype DraftFile = DraftFile(path: seq<byte>, content: seq<byte>)

  datatype ZipError = TooManyFiles | PathTooLong | FileTooLarge | ArchiveTooLarge

  const U16_LIMIT := 0x1_0000
  const U32_LIMIT := 0x1_0000_0000

  type u16 = n: int | 0 <= n < U16_LIMIT
  type u32 = n: int | 0 <= n < U32_LIMIT

  const LOCAL_SIGNATURE: u32 := 0x0403_4b50
  const CENTRAL_SIGNATURE: u32 := 0x0201_4b50
  const END_SIGNATURE: u32 := 0x0605_4b50

  predicate PathLeq(left: DraftFile, right: DraftFile) {
    Lexicographic(left.path, right.path) != Greater
  }

  /** The files in the order the writer puts them: a stable sort by path. */
  function ByPath(files: seq<DraftFile>): seq<DraftFile> {
    Sort(PathLeq, files)
  }

  // ---- Little-endian numbers ------------------------------------------------------------

  /** Byte `k` of `to_le_bytes`. */
  function ByteOf(n: nat, k: nat): byte {
    if k == 0 then n % 256
    else if k == 1 then n / 256 % 256
    else if k == 2 then n / 256 / 256 % 256
    else n / 256 / 256 / 256 % 256
  }

  function LittleEndian16(n: u16): seq<byte> {
    [ByteOf(n, 0), ByteOf(n, 1)]
  }

  function LittleEndian32(n: u32): seq<byte> {
    [ByteOf(n, 0), ByteOf(n, 1), ByteOf(n, 2), ByteOf(n, 3)]
  }

  function PushU16(output: seq<byte>, value: u16): seq<byte> {
    output + LittleEndian16(value)
  }

  function PushU32(output: seq<byte>, value: u32): seq<byte> {
    output + LittleEndian32(value)
  }

  // ---- What the writer lays out ---------------------------------------------------------

  /** A file with the checksum the archive records for it. */
  datatype Entry = Entry(file: DraftFile, crc: nat)

  /** Section 4.3.7 of the format document, for a stored file. By offset: signature 0, version
      needed 4, flags 6, method 8, time 10, date 12, CRC-32 14, sizes 18 and 22, name length 26,
      extra length 28. */
  function LocalByte(i: nat, crc: nat, size: nat, nameLength: nat): byte {
    if i < 4 then ByteOf(LOCAL_SIGNATURE, i)
    else if i < 6 then ByteOf(20, i - 4)
    else if i < 8 then ByteOf(0x0800, i - 6)
    else if i < 14 then 0
    else if i < 18 then ByteOf(crc, i - 14)
    else if i < 22 then ByteOf(size, i - 18)
    else if i < 26 then ByteOf(size, i - 22)
    else if i < 28 then ByteOf(nameLength, i - 26)
    else 0
  }

  function LocalHeader(crc: nat, size: nat, nameLength: nat): seq<byte> {
    seq(30, i requires 0 <= i => LocalByte(i, crc, size, nameLength))
  }

  /** Section 4.3.12. By offset: signature 0, version made by 4, version needed 6, flags 8, method
      10, time 12, date 14, CRC-32 16, sizes 20 and 24, name, extra and comment lengths 28, 30 and
      32, start disk 34, internal attributes 36, external attributes 38, local header offset 42. */
  function CentralByte(i: nat, crc: nat, size: nat, nameLength: nat, offset: nat): byte {
    if i < 4 then ByteOf(CENTRAL_SIGNATURE, i)
    else if i < 6 then ByteOf(20, i - 4)
    else if i < 8 then ByteOf(20, i - 6)
    else if i < 10 then ByteOf(0x0800, i - 8)
    else if i < 16 then 0
    else if i < 20 then ByteOf(crc, i - 16)
    else if i < 24 then ByteOf(size, i - 20)
    else if i < 28 then ByteOf(size, i - 24)
    else if i < 30 then ByteOf(nameLength, i - 28)
    else if i < 42 then 0
    else ByteOf(offset, i - 42)
  }

  function CentralHeader(crc: nat, size: nat, nameLength: nat, offset: nat): seq<byte> {
    seq(46, i requires 0 <= i => CentralByte(i, crc, size, nameLength, offset))
  }

  /** Section 4.3.16. By offset: signature 0, this disk 4, directory disk 6, entries here 8 and in
      all 10, directory size 12 and offset 16, comment length 20. */
  function EndByte(i: nat, count: nat, size: nat, offset: nat): byte {
    if i < 4 then ByteOf(END_SIGNATURE, i)
    else if i < 8 then 0
    else if i < 10 then ByteOf(count, i - 8)
    else if i < 12 then ByteOf(count, i - 10)
    else if i < 16 then ByteOf(size, i - 12)
    else if i < 20 then ByteOf(offset, i - 16)
    else 0
  }

  function EndRecord(count: nat, size: nat, offset: nat): seq<byte> {
    seq(22, i requires 0 <= i => EndByte(i, count, size, offset))
  }

  predicate FileFits(f: DraftFile) {
    |f.path| < U16_LIMIT && |f.content| < U32_LIMIT
  }

  function LocalRecord(e: Entry): seq<byte> {
    LocalHeader(e.crc, |e.file.content|, |e.file.path|) + e.file.path + e.file.content
  }

  function CentralRecord(e: Entry, offset: nat): seq<byte> {
    CentralHeader(e.crc, |e.file.content|, |e.file.path|, offset) + e.file.path
  }

  function LocalRecords(entries: seq<Entry>): (records: seq<seq<byte>>)
    ensures |records| == |entries|
  {
    seq(|entries|, i requires 0 <= i < |entries| => LocalRecord(entries[i]))
  }

  /** Where the local record of entry `i` starts. */
  function LocalOffset(entries: seq<Entry>, i: nat): nat
    requires i <= |entries|
  {
    Offset(LocalRecords(entries), i)
  }

  /** Directory records, each with the offset of its own local record. */
  function CentralRecords(entries: seq<Entry>): (records: seq<seq<byte>>)
    ensures |records| == |entries|
  {
    seq(|entries|, i requires 0 <= i < |entries| => CentralRecord(entries[i], LocalOffset(entries, i)))
  }

  /** What the writer finds wrong with entry `i`, in the order it looks. */
  function Refusal(entries: seq<Entry>, i: nat): Option<ZipError>
    requires i < |entries|
  {
    if |entries[i].file.path| >= U16_LIMIT then Some(PathTooLong)
    else if |entries[i].file.content| >= U32_LIMIT then Some(FileTooLarge)
    else if LocalOffset(entries, i) >= U32_LIMIT then Some(ArchiveTooLarge)
    else None
  }

  /** The first thing wrong with any of the first `n` entries. */
  function FirstRefusal(entries: seq<Entry>, n: nat): (error: Option<ZipError>)
    requires n <= |entries|
    ensures error.None? <==> forall i | 0 <= i < n :: Refusal(entries, i).None?
    ensures error.Some? ==> exists i | 0 <= i < n :: Refusal(entries, i) == error
  {
    if n == 0 then None
    else if FirstRefusal(entries, n - 1).Some? then FirstRefusal(entries, n - 1)
    else Refusal(entries, n - 1)
  }

  function Layout(entries: seq<Entry>): Result<seq<byte>, ZipError> {
    var locals, centrals := Concat(LocalRecords(entries)), Concat(CentralRecords(entries));
    if |entries| >= U16_LIMIT then Failure(TooManyFiles)
    else if FirstRefusal(entries, |entries|).Some? then Failure(FirstRefusal(entries, |entries|).value)
    else if |locals| >= U32_LIMIT || |centrals| >= U32_LIMIT then Failure(ArchiveTooLarge)
    else Success(locals + centrals + EndRecord(|entries|, |centrals|, |locals|))
  }

  /** The stored CRC-32 field of a file. */
  function StoredCrc(content: seq<byte>): u32 {
    WordFits(Checksum(content));
    ValueOf(Checksum(content))
  }

  function Entries(files: seq<DraftFile>): (entries: seq<Entry>)
    ensures |entries| == |files|
    ensures forall i | 0 <= i < |files| :: entries[i].file == files[i]
  {
    seq(|files|, i requires 0 <= i < |files| => Entry(files[i], StoredCrc(files[i].content)))
  }

  /** The archive of a list of files. */
  function Archive(files: seq<DraftFile>): Result<seq<byte>, ZipError> {
    Layout(Entries(ByPath(files)))
  }

  method DeterministicZip(unsorted: seq<DraftFile>) returns (r: Result<seq<byte>, ZipError>)
    ensures r == Archive(unsorted)
  {
    var files := ByPath(unsorted);
    ghost var entries := Entries(files);
    if |files| >= U16_LIMIT {
      return Failure(TooManyFiles);
    }
    var output: seq<byte> := [];
    var central: seq<byte> := [];
    for i := 0 to |files|
      invariant FirstRefusal(entries, i).None?
      invariant output == Concat(LocalRecords(entries)[..i])
      invariant central == Concat(CentralRecords(entries)[..i])
    {
      RefusalStays(entries, i + 1, |files|);
      if |files[i].path| >= U16_LIMIT {
        return Failure(PathTooLong);
      }
      if |files[i].content| >= U32_LIMIT {
        return Failure(FileTooLarge);
      }
      if |output| >= U32_LIMIT {
        return Failure(ArchiveTooLarge);
      }
      output, central := PushFile(entries[i], files[i], output, central);
      ConcatStep(LocalRecords(entries), i);
      ConcatStep(CentralRecords(entries), i);
    }
    ConcatAll(LocalRecords(entries));
    ConcatAll(CentralRecords(entries));
    if |output| >= U32_LIMIT || |central| >= U32_LIMIT {
      return Failure(ArchiveTooLarge);
    }
    var centralOffset, centralSize := |output|, |central|;
    output := output + central;
    output := PushEndRecord(output, |files|, centralSize, centralOffset);
    r := Success(output);
  }

  lemma {:induction false} RefusalStays(entries: seq<Entry>, n: nat, m: nat)
    requires n <= m <= |entries|
    ensures FirstRefusal(entries, n).Some? ==> FirstRefusal(entries, m) == FirstRefusal(entries, n)
    decreases m
  {
    if n < m {
      RefusalStays(entries, n, m - 1);
    }
  }

  method Crc(content: seq<byte>) returns (crc: u32)
    ensures crc == StoredCrc(content)
  {
    var checksum := Compute(content);
    WordFits(checksum);
    crc := ValueOf(checksum);
  }

  /** The pushes of one turn of the loop: both records of the file at hand. */
  method PushFile(ghost entry: Entry, file: DraftFile, output: seq<byte>, central: seq<byte>)
    returns (output': seq<byte>, central': seq<byte>)
    requires entry == Entry(file, StoredCrc(file.content))
    requires FileFits(file) && |output| < U32_LIMIT
    ensures output' == output + LocalRecord(entry)
    ensures central' == central + CentralRecord(entry, |output|)
  {
    var name, body, offset := file.path, file.content, |output|;
    var crc := Crc(body);

    output' := PushLocalHeader(output, crc, |body|, |name|);
    output' := output' + name;
    output' := output' + body;

    Regroup(output, LocalHeader(crc, |body|, |name|), name, body);

    central' := PushCentralHeader(central, crc, |body|, |name|, offset);
    central' := central' + name;
    Regroup(central, CentralHeader(crc, |body|, |name|, offset), name, []);
  }

  lemma {:induction false} Regroup(a: seq<byte>, b: seq<byte>, c: seq<byte>, d: seq<byte>)
    ensures ((a + b) + c) + d == a + (b + c + d)
    ensures d == [] ==> (a + b) + c == a + (b + c)
  {
  }

  /** Section 4.3.7 byte by byte: "PK", 3, 4, version 2.0, names in UTF-8, stored, no time. */
  predicate IsLocalHeader(h: seq<byte>, crc: u32, size: u32, nameLength: u16) {
    && |h| == 30 && h[..14] == [0x50, 0x4b, 0x03, 0x04, 20, 0, 0x00, 0x08, 0, 0, 0, 0, 0, 0]
    && h[14..18] == LittleEndian32(crc) && h[18..22] == LittleEndian32(size) && h[22..26] == LittleEndian32(size)
    && h[26..28] == LittleEndian16(nameLength) && h[28..] == [0, 0]
  }

  /** Section 4.3.12: "PK", 1, 2, both versions, and no comment, disk or attributes. */
  predicate IsCentralHeader(h: seq<byte>, crc: u32, size: u32, nameLength: u16, offset: u32) {
    && |h| == 46 && h[..16] == [0x50, 0x4b, 0x01, 0x02, 20, 0, 20, 0, 0x00, 0x08, 0, 0, 0, 0, 0, 0]
    && h[16..20] == LittleEndian32(crc) && h[20..24] == LittleEndian32(size) && h[24..28] == LittleEndian32(size)
    && h[28..30] == LittleEndian16(nameLength) && h[30..42] == [0, 0, 0, 0, 0, 0, 0, 0, 0, 0, 0, 0]
    && h[42..] == LittleEndian32(offset)
  }

  /** Section 4.3.16: "PK", 5, 6, one disk, and no comment. */
  predicate IsEndRecord(h: seq<byte>, count: u16, size: u32, offset: u32) {
    && |h| == 22 && h[..8] == [0x50, 0x4b, 0x05, 0x06, 0, 0, 0, 0]
    && h[8..10] == LittleEndian16(count) && h[10..12] == LittleEndian16(count)
    && h[12..16] == LittleEndian32(size) && h[16..20] == LittleEndian32(offset) && h[20..] == [0, 0]
  }

  lemma {:induction false} LittleEndianValue(n: nat)
    ensures n < U16_LIMIT ==> n == ByteOf(n, 0) + 0x100 * ByteOf(n, 1)
    ensures n < U32_LIMIT ==>
              n == ByteOf(n, 0) + 0x100 * ByteOf(n, 1) + 0x1_0000 * ByteOf(n, 2) + 0x100_0000 * ByteOf(n, 3)
  {
  }

  lemma {:induction false} LocalBytes(out: seq<byte>, before: seq<byte>, crc: u32, size: u32, nameLength: u16)
    requires out == before + LocalHeader(crc, size, nameLength)
    ensures IsLocalHeader(out[|before|..], crc, size, nameLength)
  {
    assert out[|before|..] == LocalHeader(crc, size, nameLength);
  }

  lemma {:induction false} CentralBytes(out: seq<byte>, before: seq<byte>, crc: u32, size: u32, nameLength: u16,
                                        offset: u32)
    requires out == before + CentralHeader(crc, size, nameLength, offset)
    ensures IsCentralHeader(out[|before|..], crc, size, nameLength, offset)
  {
    assert out[|before|..] == CentralHeader(crc, size, nameLength, offset);
  }

  lemma {:induction false} EndBytes(out: seq<byte>, before: seq<byte>, count: u16, size: u32, offset: u32)
    requires out == before + EndRecord(count, size, offset)
    ensures IsEndRecord(out[|before|..], count, size, offset)
  {
    assert out[|before|..] == EndRecord(count, size, offset);
  }

  method PushLocalHeader(output: seq<byte>, crc: u32, bodyLength: u32, nameLength: u16) returns (out: seq<byte>)
    ensures out == output + LocalHeader(crc, bodyLength, nameLength)
    ensures IsLocalHeader(out[|output|..], crc, bodyLength, nameLength)
  {
    out := PushU32(output, LOCAL_SIGNATURE);
    out := PushU16(out, 20);
    out := PushU16(out, 0x0800);
    out := PushU16(out, 0);
    out := PushU16(out, 0);
    out := PushU16(out, 0);
    out := PushU32(out, crc);
    out := PushU32(out, bodyLength);
    out := PushU32(out, bodyLength);
    out := PushU16(out, nameLength);
    out := PushU16(out, 0);
    LocalBytes(out, output, crc, bodyLength, nameLength);
  }

  method PushCentralHeader(central: seq<byte>, crc: u32, bodyLength: u32, nameLength: u16, offset: u32)
    returns (out: seq<byte>)
    ensures out == central + CentralHeader(crc, bodyLength, nameLength, offset)
    ensures IsCentralHeader(out[|central|..], crc, bodyLength, nameLength, offset)
  {
    out := PushU32(central, CENTRAL_SIGNATURE);
    out := PushU16(out, 20);
    out := PushU16(out, 20);
    out := PushU16(out, 0x0800);
    out := PushU16(out, 0);
    out := PushU16(out, 0);
    out := PushU16(out, 0);
    assert out == central + CentralHeader(crc, bodyLength, nameLength, offset)[..16];
    out := PushU32(out, crc);
    out := PushU32(out, bodyLength);
    out := PushU32(out, bodyLength);
    out := PushU16(out, nameLength);
    assert out == central + CentralHeader(crc, bodyLength, nameLength, offset)[..30];
    out := PushU16(out, 0);
    out := PushU16(out, 0);
    out := PushU16(out, 0);
    out := PushU16(out, 0);
    out := PushU32(out, 0);
    out := PushU32(out, offset);
    CentralBytes(out, central, crc, bodyLength, nameLength, offset);
  }

  method PushEndRecord(output: seq<byte>, count: u16, centralSize: u32, centralOffset: u32)
    returns (out: seq<byte>)
    ensures out == output + EndRecord(count, centralSize, centralOffset)
    ensures IsEndRecord(out[|output|..], count, centralSize, centralOffset)
  {
    out := PushU32(output, END_SIGNATURE);
    out := PushU16(out, 0);
    out := PushU16(out, 0);
    out := PushU16(out, count);
    out := PushU16(out, count);
    out := PushU32(out, centralSize);
    out := PushU32(out, centralOffset);
    out := PushU16(out, 0);
    EndBytes(out, output, count, centralSize, centralOffset);
  }

  // ---- A reader, from the format document -----------------------------------------------

  /** Reads the little-endian field of a given width at a given position. */
  type FieldReader = (nat, nat) -> nat

  function Number(bytes: seq<byte>): nat {
    if bytes == [] then 0
    else
      var low: int := bytes[0];
      low + 256 * Number(bytes[1..])
  }

  function FieldAt(bytes: seq<byte>, at: nat, width: nat): nat {
    if at + width <= |bytes| then Number(bytes[at..at + width]) else 0
  }

  function FieldsOf(bytes: seq<byte>): FieldReader {
    (at: nat, width: nat) => FieldAt(bytes, at, width)
  }

  /** The stored file whose local header (section 4.3.7) starts at `at`, provided it agrees with
      what its directory record says. */
  function ReadLocal(get: FieldReader, bytes: seq<byte>, at: nat, name: seq<byte>, crc: nat, size: nat): Option<Entry> {
    var nameStart := at + 30;
    var bodyStart := nameStart + get(at + 26, 2) + get(at + 28, 2);
    if |bytes| < bodyStart + size || get(at, 4) != LOCAL_SIGNATURE then None
    else if get(at + 8, 2) != 0 || get(at + 14, 4) != crc || get(at + 18, 4) != size
      || get(at + 22, 4) != size then None
    else if bytes[nameStart..nameStart + get(at + 26, 2)] != name then None
    else Some(Entry(DraftFile(name, bytes[bodyStart..bodyStart + size]), crc))
  }

  /** The directory record (section 4.3.12) that starts at `at`, and where the next one starts. */
  function ReadEntry(get: FieldReader, bytes: seq<byte>, at: nat, end: nat): Option<(Entry, nat)> {
    var nameLength := get(at + 28, 2);
    var next := at + 46 + nameLength + get(at + 30, 2) + get(at + 32, 2);
    if end < next || |bytes| < end || get(at, 4) != CENTRAL_SIGNATURE || get(at + 20, 4) != get(at + 24, 4) then None
    else
      var name := bytes[at + 46..at + 46 + nameLength];
      var entry := ReadLocal(get, bytes, get(at + 42, 4), name, get(at + 16, 4), get(at + 24, 4));
      if entry.Some? then Some((entry.value, next)) else None
  }

  function EntryReader(get: FieldReader, bytes: seq<byte>, end: nat): nat -> Option<(Entry, nat)> {
    (at: nat) => ReadEntry(get, bytes, at, end)
  }

  /** `count` items read one after another from `at`, ending exactly at `end`. */
  function ReadAll<T>(read: nat -> Option<(T, nat)>, at: nat, end: nat, count: nat): Option<seq<T>>
    decreases count
  {
    if count == 0 then if at == end then Some([]) else None
    else
      var item := read(at);
      if item.None? then None
      else
        var rest := ReadAll(read, item.value.1, end, count - 1);
        if rest.Some? then Some([item.value.0] + rest.value) else None
  }

  /** Start from the end record in the last 22 bytes (section 4.3.16) and follow the directory. */
  function ReadDirectory(get: FieldReader, bytes: seq<byte>): Option<seq<Entry>> {
    if |bytes| < 22 then None
    else
      var end := |bytes| - 22;
      var count, size, offset := get(end + 10, 2), get(end + 12, 4), get(end + 16, 4);
      if get(end, 4) != END_SIGNATURE || get(end + 4, 2) != 0 || get(end + 6, 2) != 0 then None
      else if get(end + 8, 2) != count || get(end + 20, 2) != 0 || offset + size != end then None
      else ReadAll(EntryReader(get, bytes, end), offset, end, count)
  }

  predicate Intact(entries: seq<Entry>) {
    forall i | 0 <= i < |entries| :: entries[i].crc == StoredCrc(entries[i].file.content)
  }

  function Files(entries: seq<Entry>): seq<DraftFile> {
    seq(|entries|, i requires 0 <= i < |entries| => entries[i].file)
  }

  /** The files of an archive, provided every body has its recorded checksum. */
  function ReadArchive(bytes: seq<byte>): Option<seq<DraftFile>> {
    var entries := ReadDirectory(FieldsOf(bytes), bytes);
    if entries.Some? && Intact(entries.value) then Some(Files(entries.value)) else None
  }

  // ---- Reading undoes writing -----------------------------------------------------------

  predicate LocalAt(get: FieldReader, bytes: seq<byte>, at: nat, e: Entry) {
    var name := at + 30;
    var body := name + |e.file.path|;
    && get(at, 4) == LOCAL_SIGNATURE && get(at + 8, 2) == 0 && get(at + 14, 4) == e.crc
    && get(at + 18, 4) == get(at + 22, 4) == |e.file.content|
    && get(at + 26, 2) == |e.file.path| && get(at + 28, 2) == 0
    && body + |e.file.content| <= |bytes|
    && bytes[name..body] == e.file.path && bytes[body..body + |e.file.content|] == e.file.content
  }

  predicate CentralAt(get: FieldReader, bytes: seq<byte>, at: nat, e: Entry, offset: nat) {
    && get(at, 4) == CENTRAL_SIGNATURE && get(at + 16, 4) == e.crc
    && get(at + 20, 4) == get(at + 24, 4) == |e.file.content|
    && get(at + 28, 2) == |e.file.path| && get(at + 30, 2) == get(at + 32, 2) == 0
    && get(at + 42, 4) == offset
    && at + 46 + |e.file.path| <= |bytes| && bytes[at + 46..at + 46 + |e.file.path|] == e.file.path
  }

  predicate EndAt(get: FieldReader, at: nat, count: nat, size: nat, offset: nat) {
    && get(at, 4) == END_SIGNATURE && get(at + 4, 2) == get(at + 6, 2) == 0
    && get(at + 8, 2) == get(at + 10, 2) == count
    && get(at + 12, 4) == size && get(at + 16, 4) == offset && get(at + 20, 2) == 0
  }

  lemma {:induction false} EntryReadsBack(get: FieldReader, bytes: seq<byte>, at: nat, end: nat, e: Entry, offset: nat)
    requires LocalAt(get, bytes, offset, e) && CentralAt(get, bytes, at, e, offset)
    requires at + 46 + |e.file.path| <= end <= |bytes|
    ensures EntryReader(get, bytes, end)(at) == Some((e, at + 46 + |e.file.path|))
  {
  }

  lemma {:induction false} AllReadBack<T>(read: nat -> Option<(T, nat)>, ats: seq<nat>, items: seq<T>, i: nat)
    requires |ats| == |items| + 1 && i <= |items|
    requires forall k | i <= k < |items| :: read(ats[k]) == Some((items[k], ats[k + 1]))
    ensures ReadAll(read, ats[i], ats[|items|], |items| - i) == Some(items[i..])
    decreases |items| - i
  {
    if i < |items| {
      AllReadBack(read, ats, items, i + 1);
      assert items[i..] == [items[i]] + items[i + 1..];
    }
  }

  /** Entry `k` has its directory record at `ats[k]` and its local record at `offsets[k]`. */
  predicate EntriesAt(get: FieldReader, bytes: seq<byte>, ats: seq<nat>, offsets: seq<nat>, entries: seq<Entry>) {
    && |ats| == |entries| + 1 && |offsets| == |entries| && ats[|entries|] <= |bytes|
    && (forall k | 0 <= k < |entries| :: EntryAt(get, bytes, ats, offsets, entries, k))
  }

  predicate EntryAt(get: FieldReader, bytes: seq<byte>, ats: seq<nat>, offsets: seq<nat>, entries: seq<Entry>, k: nat)
    requires |ats| == |entries| + 1 && |offsets| == |entries| && k < |entries|
  {
    && ats[k + 1] == ats[k] + 46 + |entries[k].file.path| <= ats[|entries|]
    && CentralAt(get, bytes, ats[k], entries[k], offsets[k])
    && LocalAt(get, bytes, offsets[k], entries[k])
  }

  lemma {:induction false} ListedEntryReadsBack(get: FieldReader, bytes: seq<byte>, ats: seq<nat>, offsets: seq<nat>,
                             entries: seq<Entry>, k: nat)
    requires EntriesAt(get, bytes, ats, offsets, entries) && k < |entries|
    ensures EntryReader(get, bytes, ats[|entries|])(ats[k]) == Some((entries[k], ats[k + 1]))
  {
    assert EntryAt(get, bytes, ats, offsets, entries, k);
    EntryReadsBack(get, bytes, ats[k], ats[|entries|], entries[k], offsets[k]);
  }

  lemma {:induction false} EntriesReadBack(get: FieldReader, bytes: seq<byte>, ats: seq<nat>, offsets: seq<nat>,
                                           entries: seq<Entry>)
    requires EntriesAt(get, bytes, ats, offsets, entries)
    ensures var end := ats[|entries|];
            ReadAll(EntryReader(get, bytes, end), ats[0], end, |entries|) == Some(entries)
  {
    forall k | 0 <= k < |entries|
      ensures EntryReader(get, bytes, ats[|entries|])(ats[k]) == Some((entries[k], ats[k + 1]))
    {
      ListedEntryReadsBack(get, bytes, ats, offsets, entries, k);
    }
    AllReadBack(EntryReader(get, bytes, ats[|entries|]), ats, entries, 0);
    assert entries[0..] == entries;
  }

  lemma {:induction false} DirectoryReadsBack(get: FieldReader, bytes: seq<byte>, ats: seq<nat>, offsets: seq<nat>,
                                              entries: seq<Entry>)
    requires EntriesAt(get, bytes, ats, offsets, entries) && ats[0] <= ats[|entries|] == |bytes| - 22
    requires EndAt(get, ats[|entries|], |entries|, ats[|entries|] - ats[0], ats[0])
    ensures ReadDirectory(get, bytes) == Some(entries)
  {
    EntriesReadBack(get, bytes, ats, offsets, entries);
  }

  lemma {:induction false} FieldIs(bytes: seq<byte>, at: nat, width: nat, n: nat)
    requires at + width <= |bytes| && forall k | 0 <= k < width :: bytes[at + k] == ByteOf(n, k)
    requires (width == 2 && n < U16_LIMIT) || (width == 4 && n < U32_LIMIT)
    ensures FieldsOf(bytes)(at, width) == n
  {
    var field := bytes[at..at + width];
    var n1 := n / 256;
    var n2 := n1 / 256;
    var n3 := n2 / 256;
    assert n == n % 256 + 256 * n1 && n1 == n1 % 256 + 256 * n2 && n2 == n2 % 256 + 256 * n3;
    assert forall k | 0 <= k < width :: field[k] == bytes[at + k] == ByteOf(n, k);
    if width == 2 {
      assert Number(field[1..]) == n1;
    } else {
      assert Number(field[3..]) == n3;
      assert field[2..][1..] == field[3..] && field[1..][1..] == field[2..];
      assert Number(field[2..]) == n2;
      assert Number(field[1..]) == n1;
    }
  }

  lemma {:induction false} LocalFields(bytes: seq<byte>, at: nat, e: Entry)
    requires FileFits(e.file) && e.crc < U32_LIMIT && at + 30 <= |bytes|
    requires bytes[at..at + 30] == LocalHeader(e.crc, |e.file.content|, |e.file.path|)
    ensures var get := FieldsOf(bytes);
            && get(at, 4) == LOCAL_SIGNATURE && get(at + 8, 2) == 0 && get(at + 14, 4) == e.crc
            && get(at + 18, 4) == get(at + 22, 4) == |e.file.content|
            && get(at + 26, 2) == |e.file.path| && get(at + 28, 2) == 0
  {
    forall i | 0 <= i < 30
      ensures bytes[at + i] == LocalByte(i, e.crc, |e.file.content|, |e.file.path|)
    {
      assert bytes[at + i] == bytes[at..at + 30][i];
    }
    FieldIs(bytes, at, 4, LOCAL_SIGNATURE);
    FieldIs(bytes, at + 8, 2, 0);
    FieldIs(bytes, at + 14, 4, e.crc);
    FieldIs(bytes, at + 18, 4, |e.file.content|);
    FieldIs(bytes, at + 22, 4, |e.file.content|);
    FieldIs(bytes, at + 26, 2, |e.file.path|);
    FieldIs(bytes, at + 28, 2, 0);
  }

  lemma {:induction false} CentralFields(bytes: seq<byte>, at: nat, e: Entry, offset: u32)
    requires FileFits(e.file) && e.crc < U32_LIMIT && at + 46 <= |bytes|
    requires bytes[at..at + 46] == CentralHeader(e.crc, |e.file.content|, |e.file.path|, offset)
    ensures var get := FieldsOf(bytes);
            && get(at, 4) == CENTRAL_SIGNATURE && get(at + 16, 4) == e.crc
            && get(at + 20, 4) == get(at + 24, 4) == |e.file.content|
            && get(at + 28, 2) == |e.file.path| && get(at + 30, 2) == get(at + 32, 2) == 0
            && get(at + 42, 4) == offset
  {
    forall i | 0 <= i < 46
      ensures bytes[at + i] == CentralByte(i, e.crc, |e.file.content|, |e.file.path|, offset)
    {
      assert bytes[at + i] == bytes[at..at + 46][i];
    }
    FieldIs(bytes, at, 4, CENTRAL_SIGNATURE);
    FieldIs(bytes, at + 16, 4, e.crc);
    FieldIs(bytes, at + 20, 4, |e.file.content|);
    FieldIs(bytes, at + 24, 4, |e.file.content|);
    FieldIs(bytes, at + 28, 2, |e.file.path|);
    FieldIs(bytes, at + 30, 2, 0);
    FieldIs(bytes, at + 32, 2, 0);
    FieldIs(bytes, at + 42, 4, offset);
  }

  lemma {:induction false} EndFields(bytes: seq<byte>, at: nat, count: u16, size: u32, offset: u32)
    requires at + 22 == |bytes| && bytes[at..] == EndRecord(count, size, offset)
    ensures EndAt(FieldsOf(bytes), at, count, size, offset)
  {
    forall i | 0 <= i < 22
      ensures bytes[at + i] == EndByte(i, count, size, offset)
    {
      assert bytes[at + i] == bytes[at..][i];
    }
    FieldIs(bytes, at, 4, END_SIGNATURE);
    FieldIs(bytes, at + 4, 2, 0);
    FieldIs(bytes, at + 6, 2, 0);
    FieldIs(bytes, at + 8, 2, count);
    FieldIs(bytes, at + 10, 2, count);
    FieldIs(bytes, at + 12, 4, size);
    FieldIs(bytes, at + 16, 4, offset);
    FieldIs(bytes, at + 20, 2, 0);
  }

  /** A local record stands wherever its bytes do. */
  lemma {:induction false} LocalLands(bytes: seq<byte>, at: nat, e: Entry)
    requires FileFits(e.file) && e.crc < U32_LIMIT
    requires at + |LocalRecord(e)| <= |bytes| && bytes[at..at + |LocalRecord(e)|] == LocalRecord(e)
    ensures LocalAt(FieldsOf(bytes), bytes, at, e)
  {
    SplitThree(bytes, at, LocalHeader(e.crc, |e.file.content|, |e.file.path|), e.file.path, e.file.content);
    LocalFields(bytes, at, e);
  }

  lemma {:induction false} CentralLands(bytes: seq<byte>, at: nat, e: Entry, offset: u32)
    requires FileFits(e.file) && e.crc < U32_LIMIT
    requires at + |CentralRecord(e, offset)| <= |bytes|
    requires bytes[at..at + |CentralRecord(e, offset)|] == CentralRecord(e, offset)
    ensures CentralAt(FieldsOf(bytes), bytes, at, e, offset)
  {
    var header := CentralHeader(e.crc, |e.file.content|, |e.file.path|, offset);
    assert header + e.file.path == header + e.file.path + [];
    SplitThree(bytes, at, header, e.file.path, []);
    CentralFields(bytes, at, e, offset);
  }

  /** Where the directory record of entry `i` starts in an archive of these entries. */
  function RecordOffset(entries: seq<Entry>, i: nat): nat
    requires i <= |entries|
  {
    |Concat(LocalRecords(entries))| + Offset(CentralRecords(entries), i)
  }

  lemma {:induction false} RecordLands(bytes: seq<byte>, entries: seq<Entry>, i: nat)
    requires i < |entries| && entries[i].crc < U32_LIMIT && Refusal(entries, i).None?
    requires Concat(LocalRecords(entries)) + Concat(CentralRecords(entries)) <= bytes
    ensures CentralAt(FieldsOf(bytes), bytes, RecordOffset(entries, i), entries[i], LocalOffset(entries, i))
    ensures RecordOffset(entries, i + 1) == RecordOffset(entries, i) + 46 + |entries[i].file.path|
    ensures RecordOffset(entries, i + 1) <= RecordOffset(entries, |entries|)
  {
    ConcatAll(CentralRecords(entries));
    PartAt(CentralRecords(entries), i, Concat(LocalRecords(entries)), bytes);
    CentralLands(bytes, RecordOffset(entries, i), entries[i], LocalOffset(entries, i));
  }

  /** Every offset the directory records lands on that entry's own local record. */
  lemma {:induction false} OffsetLands(bytes: seq<byte>, entries: seq<Entry>, i: nat)
    requires i < |entries| && entries[i].crc < U32_LIMIT && Refusal(entries, i).None?
    requires Concat(LocalRecords(entries)) <= bytes
    ensures LocalAt(FieldsOf(bytes), bytes, LocalOffset(entries, i), entries[i])
  {
    PartAt(LocalRecords(entries), i, [], bytes);
    LocalLands(bytes, LocalOffset(entries, i), entries[i]);
  }

  function RecordOffsets(entries: seq<Entry>): (ats: seq<nat>)
    ensures |ats| == |entries| + 1
  {
    seq(|entries| + 1, i requires 0 <= i <= |entries| => RecordOffset(entries, i))
  }

  function LocalOffsets(entries: seq<Entry>): (offsets: seq<nat>)
    ensures |offsets| == |entries|
  {
    seq(|entries|, i requires 0 <= i < |entries| => LocalOffset(entries, i))
  }

  lemma {:induction false} EntriesLand(bytes: seq<byte>, entries: seq<Entry>)
    requires forall i | 0 <= i < |entries| :: entries[i].crc < U32_LIMIT && Refusal(entries, i).None?
    requires Concat(LocalRecords(entries)) <= bytes
    requires Concat(LocalRecords(entries)) + Concat(CentralRecords(entries)) <= bytes
    ensures EntriesAt(FieldsOf(bytes), bytes, RecordOffsets(entries), LocalOffsets(entries), entries)
  {
    ConcatAll(CentralRecords(entries));
    forall k | 0 <= k < |entries|
      ensures EntryAt(FieldsOf(bytes), bytes, RecordOffsets(entries), LocalOffsets(entries), entries, k)
    {
      RecordLands(bytes, entries, k);
      OffsetLands(bytes, entries, k);
    }
  }

  lemma {:induction false} ThreeParts(bytes: seq<byte>, a: seq<byte>, b: seq<byte>, c: seq<byte>)
    requires bytes == a + b + c
    ensures a <= bytes && a + b <= bytes && bytes[|a| + |b|..] == c
  {
  }

  lemma {:induction false} EndLands(bytes: seq<byte>, entries: seq<Entry>)
    requires Layout(entries) == Success(bytes)
    ensures Concat(LocalRecords(entries)) <= bytes
    ensures Concat(LocalRecords(entries)) + Concat(CentralRecords(entries)) <= bytes
    ensures var start, end := RecordOffset(entries, 0), RecordOffset(entries, |entries|);
            start <= end == |bytes| - 22 && EndAt(FieldsOf(bytes), end, |entries|, end - start, start)
  {
    var locals, centrals := Concat(LocalRecords(entries)), Concat(CentralRecords(entries));
    var record := EndRecord(|entries|, |centrals|, |locals|);
    ThreeParts(bytes, locals, centrals, record);
    assert CentralRecords(entries)[..0] == [];
    ConcatAll(CentralRecords(entries));
    EndFields(bytes, |locals| + |centrals|, |entries|, |centrals|, |locals|);
  }

  lemma {:induction false} LayoutReadsBack(bytes: seq<byte>, entries: seq<Entry>)
    requires Layout(entries) == Success(bytes) && forall i | 0 <= i < |entries| :: entries[i].crc < U32_LIMIT
    ensures ReadDirectory(FieldsOf(bytes), bytes) == Some(entries)
  {
    EndLands(bytes, entries);
    EntriesLand(bytes, entries);
    DirectoryReadsBack(FieldsOf(bytes), bytes, RecordOffsets(entries), LocalOffsets(entries), entries);
  }

  /** Whatever list of files the writer accepts, the reader recovers exactly those files, sorted,
      every checksum intact. */
  lemma {:induction false} ReadingUndoesWriting(files: seq<DraftFile>)
    requires Archive(files).Success?
    ensures ReadArchive(Archive(files).value) == Some(ByPath(files))
  {
    ArchiveReadsBack(Archive(files).value, ByPath(files));
  }

  lemma {:induction false} EntriesAreIntact(files: seq<DraftFile>)
    ensures Intact(Entries(files)) && Files(Entries(files)) == files
  {
    assert Files(Entries(files)) == files;
  }

  lemma {:induction false} ArchiveReadsBack(bytes: seq<byte>, sorted: seq<DraftFile>)
    requires Layout(Entries(sorted)) == Success(bytes)
    ensures ReadArchive(bytes) == Some(sorted)
  {
    LayoutReadsBack(bytes, Entries(sorted));
    EntriesAreIntact(sorted);
  }

  // ---- Determinism ----------------------------------------------------------------------

  lemma {:induction false} PathOrder()
    ensures TotalPreorder(PathLeq)
  {
    forall x, y
      ensures PathLeq(x, y) || PathLeq(y, x)
    {
      LexicographicReverses(x.path, y.path);
    }
    forall x, y, z | PathLeq(x, y) && PathLeq(y, z)
      ensures PathLeq(x, z)
    {
      LexicographicTransitive(x.path, y.path, z.path);
    }
  }

  /** Any reordering of files with distinct paths has the same outcome, byte for byte. */
  lemma {:induction false} OrderOfFilesIsIrrelevant(files: seq<DraftFile>, reordered: seq<DraftFile>)
    requires multiset(files) == multiset(reordered)
    requires forall i, j | 0 <= i < j < |files| :: files[i].path != files[j].path
    ensures Archive(files) == Archive(reordered)
  {
    PathOrder();
    forall i, j | 0 <= i < j < |files|
      ensures !Equivalent(PathLeq, files[i], files[j])
    {
      LexicographicEquality(files[i].path, files[j].path);
      LexicographicReverses(files[i].path, files[j].path);
    }
    ReorderingSortsAlike(PathLeq, files, reordered);
  }

  /** For all lists, repeated paths included: two accepted lists give the same bytes exactly when,
      path by path, they hold the same files in the same order. */
  lemma {:induction false} SameBytesExactly(a: seq<DraftFile>, b: seq<DraftFile>)
    requires Archive(a).Success? && Archive(b).Success?
    ensures Archive(a) == Archive(b) <==> SameClasses(PathLeq, a, b)
  {
    ReadingUndoesWriting(a);
    ReadingUndoesWriting(b);
    PathOrder();
    SameSortExactly(PathLeq, a, b);
  }

  /** The list the archive holds is the given one, reordered so that paths ascend. */
  lemma {:induction false} ArchivedOrder(files: seq<DraftFile>)
    ensures multiset(ByPath(files)) == multiset(files)
    ensures forall i, j | 0 <= i < j < |ByPath(files)| ::
              Lexicographic(ByPath(files)[i].path, ByPath(files)[j].path) != Greater
  {
    PathOrder();
    SortFacts(PathLeq, files);
  }

  // ---- Acceptance -----------------------------------------------------------------------

  function LocalSize(entries: seq<Entry>): nat {
    if entries == [] then 0
    else LocalSize(entries[..|entries| - 1]) + 30 + |entries[|entries| - 1].file.path|
                                             + |entries[|entries| - 1].file.content|
  }

  function CentralSize(entries: seq<Entry>): nat {
    if entries == [] then 0
    else CentralSize(entries[..|entries| - 1]) + 46 + |entries[|entries| - 1].file.path|
  }

  lemma {:induction false} RecordSizes(entries: seq<Entry>, n: nat)
    requires n <= |entries|
    ensures Offset(LocalRecords(entries), n) == LocalSize(entries[..n])
    ensures Offset(CentralRecords(entries), n) == CentralSize(entries[..n])
  {
    if n > 0 {
      RecordSizes(entries, n - 1);
      ConcatStep(LocalRecords(entries), n - 1);
      ConcatStep(CentralRecords(entries), n - 1);
      assert entries[..n][..n - 1] == entries[..n - 1];
    }
  }

  lemma {:induction false} LocalSizeGrows(entries: seq<Entry>, n: nat)
    requires n <= |entries|
    ensures LocalSize(entries[..n]) <= LocalSize(entries)
    decreases |entries| - n
  {
    if n == |entries| {
      assert entries[..n] == entries;
    } else {
      LocalSizeGrows(entries, n + 1);
      assert entries[..n + 1][..n] == entries[..n];
    }
  }

  lemma {:induction false} NothingRefused(entries: seq<Entry>)
    requires forall i | 0 <= i < |entries| :: FileFits(entries[i].file)
    requires LocalSize(entries) < U32_LIMIT
    ensures FirstRefusal(entries, |entries|).None?
  {
    forall i | 0 <= i < |entries|
      ensures Refusal(entries, i).None?
    {
      NotRefused(entries, i);
    }
  }

  lemma {:induction false} NotRefused(entries: seq<Entry>, i: nat)
    requires i < |entries| && FileFits(entries[i].file) && LocalSize(entries) < U32_LIMIT
    ensures Refusal(entries, i).None?
  {
    RecordSizes(entries, i);
    LocalSizeGrows(entries, i);
  }

  lemma {:induction false} AllFit(entries: seq<Entry>)
    requires FirstRefusal(entries, |entries|).None?
    ensures forall i | 0 <= i < |entries| :: FileFits(entries[i].file)
  {
    forall i | 0 <= i < |entries|
      ensures FileFits(entries[i].file)
    {
      assert Refusal(entries, i).None?;
    }
  }

  lemma {:induction false} TotalSizes(entries: seq<Entry>)
    ensures |Concat(LocalRecords(entries))| == LocalSize(entries)
    ensures |Concat(CentralRecords(entries))| == CentralSize(entries)
  {
    assert entries[..|entries|] == entries;
    RecordSizes(entries, |entries|);
    ConcatAll(LocalRecords(entries));
    ConcatAll(CentralRecords(entries));
  }

  lemma {:induction false} RefusedExactly(entries: seq<Entry>)
    requires LocalSize(entries) < U32_LIMIT
    ensures FirstRefusal(entries, |entries|).None? <==> forall i | 0 <= i < |entries| :: FileFits(entries[i].file)
  {
    if FirstRefusal(entries, |entries|).None? {
      AllFit(entries);
    }
    if forall i | 0 <= i < |entries| :: FileFits(entries[i].file) {
      NothingRefused(entries);
    }
  }

  lemma {:induction false} LayoutAccepts(entries: seq<Entry>)
    ensures Layout(entries).Success? <==>
            && |entries| < U16_LIMIT
            && (forall i | 0 <= i < |entries| :: FileFits(entries[i].file))
            && LocalSize(entries) < U32_LIMIT && CentralSize(entries) < U32_LIMIT
  {
    TotalSizes(entries);
    if LocalSize(entries) < U32_LIMIT {
      RefusedExactly(entries);
    }
  }

  /** Exactly which lists are accepted: fewer than 65536 files, every path and body fits its
      length field, and both halves of the archive stay below 4 GiB. */
  lemma {:induction false} AcceptedExactly(files: seq<DraftFile>)
    ensures var entries := Entries(ByPath(files));
            Archive(files).Success? <==>
            && |ByPath(files)| < 65_536
            && (forall f | f in ByPath(files) :: |f.path| < 65_536 && |f.content| < 4_294_967_296)
            && LocalSize(entries) < 4_294_967_296 && CentralSize(entries) < 4_294_967_296
  {
    var entries := Entries(ByPath(files));
    LayoutAccepts(entries);
    assert forall i | 0 <= i < |entries| :: entries[i].file == ByPath(files)[i];
    if forall i | 0 <= i < |entries| :: FileFits(entries[i].file) {
      forall f | f in ByPath(files)
        ensures FileFits(f)
      {
        var i :| 0 <= i < |ByPath(files)| && ByPath(files)[i] == f;
        assert FileFits(entries[i].file);
      }
    }
  }

  /** What is wrong with a file, given the bytes of the records before it. */
  predicate Trouble(f: DraftFile, before: nat, e: ZipError) {
    match e
    case PathTooLong => |f.path| >= 65_536
    case FileTooLarge => |f.path| < 65_536 && |f.content| >= 4_294_967_296
    case ArchiveTooLarge => |f.path| < 65_536 && |f.content| < 4_294_967_296 && before >= 4_294_967_296
    case TooManyFiles => false
  }

  predicate TroubleAt(entries: seq<Entry>, i: nat, e: ZipError) {
    i < |entries| && Trouble(entries[i].file, LocalSize(entries[..i]), e)
  }

  lemma {:induction false} RefusalIsTrouble(entries: seq<Entry>, i: nat, e: ZipError)
    requires i < |entries|
    ensures Refusal(entries, i) == Some(e) <==> TroubleAt(entries, i, e)
  {
    RecordSizes(entries, i);
  }

  lemma {:induction false} FirstTrouble(entries: seq<Entry>, n: nat) returns (i: nat)
    requires n <= |entries|
    ensures i <= n && forall j, e | 0 <= j < i :: !TroubleAt(entries, j, e)
    ensures FirstRefusal(entries, n).Some? ==> i < n && TroubleAt(entries, i, FirstRefusal(entries, n).value)
    ensures FirstRefusal(entries, n).None? ==> i == n
  {
    if n == 0 {
      i := 0;
    } else {
      i := FirstTrouble(entries, n - 1);
      if FirstRefusal(entries, n - 1).None? {
        forall e
          ensures Refusal(entries, n - 1) == Some(e) <==> TroubleAt(entries, n - 1, e)
        {
          RefusalIsTrouble(entries, n - 1, e);
        }
        if FirstRefusal(entries, n).None? {
          i := n;
          forall j, e | 0 <= j < n
            ensures !TroubleAt(entries, j, e)
          {
            assert j == n - 1 ==> Refusal(entries, j) != Some(e);
          }
        }
      }
    }
  }

  /** Why a list is refused: too many files first, then what is wrong with the first file that something is wrong
      with, and last either half reaching 4 GiB. */
  lemma {:induction false} RefusedBecause(files: seq<DraftFile>) returns (i: nat)
    requires Archive(files).Failure?
    ensures var (entries, e) := (Entries(ByPath(files)), Archive(files).error);
            if |entries| >= 65_536 then e == TooManyFiles
            else
              && i <= |entries| && (forall j, f | 0 <= j < i :: !TroubleAt(entries, j, f))
              && if i < |entries| then TroubleAt(entries, i, e)
                 else
                   e == ArchiveTooLarge
                   && (LocalSize(entries) >= 4_294_967_296 || CentralSize(entries) >= 4_294_967_296)
  {
    var entries := Entries(ByPath(files));
    TotalSizes(entries);
    i := FirstTrouble(entries, |entries|);
  }
}
