/** The streaming ZIP writer: entries go out as they are read, their records at the end. */
module ZipWriter {
  import opened Bytes
  import opened ZipFormat
  import opened ZipReader
  import opened ZipProofs
  import opened ZipArchive
  import Crc

  const MAX_SAFE: nat := 0x1f_ffff_ffff_ffff
  const SAMPLE_BYTES := 65536

  const NO_CRC: Crc.Word := Crc.Zeros(32)

  /** The CRC of a whole content, as the 32-bit number the headers carry. */
  function CrcOf(data: bytes): nat
  {
    Crc.FromBits(Crc.Crc32Of(data, NO_CRC))
  }

  lemma CrcIsShort(data: bytes)
    ensures CrcOf(data) <= MAX32
  {
    hide Crc.Pow2;
    Crc.FromBitsBound(Crc.Crc32Of(data, NO_CRC));
    Crc.TwoToTheEight();
    EightTimesMore(8);
    EightTimesMore(16);
    EightTimesMore(24);
  }

  lemma EightTimesMore(n: nat)
    ensures Crc.Pow2(n + 8) == 256 * Crc.Pow2(n)
  {
    assert Crc.Pow2(n + 2) == 4 * Crc.Pow2(n);
    assert Crc.Pow2(n + 4) == 4 * Crc.Pow2(n + 2);
    assert Crc.Pow2(n + 6) == 4 * Crc.Pow2(n + 4);
  }

  lemma {:induction false} ZeroBitsMeanZero(s: seq<bool>)
    requires forall i :: 0 <= i < |s| ==> !s[i]
    ensures Crc.FromBits(s) == 0
    decreases |s|
  {
    if s != [] {
      ZeroBitsMeanZero(s[1..]);
    }
  }

  lemma CrcOfNothing()
    ensures CrcOf([]) == 0
  {
    Crc.NotNot(NO_CRC);
    ZeroBitsMeanZero(NO_CRC);
  }

  /**
   * What is taken of the library: inflating undoes deflating, both sides use the same CRC, and
   * deflating never grows a file below the ZIP64 margin past 32 bits.
   */
  ghost predicate IsSound(codec: Codec)
  {
    && (forall x :: codec.inflate(codec.deflate(x)) == Some(x))
    && (forall x :: codec.crc(x) == CrcOf(x))
    && (forall x :: |x| < MAX32 - ZIP64_MARGIN ==> |codec.deflate(x)| < MAX32)
    && (forall x :: |x| <= MAX_SAFE ==> |codec.deflate(x)| <= MAX64)
  }

  /** Permissions and times of an entry; an invalid date has no `seconds`. */
  datatype Meta = Meta(mode: nat, dosTime: nat, dosDate: nat, seconds: Option<int>)

  predicate MetaFits(meta: Meta)
  {
    meta.dosTime <= MAX16 && meta.dosDate <= MAX16
  }

  function UnixTime(meta: Meta): Option<nat>
  {
    if meta.seconds.Some? && 0 <= meta.seconds.value <= 0x7fffffff then Some(meta.seconds.value) else None
  }

  const S_IFDIR: nat := 16384
  const S_IFREG: nat := 32768

  function NewRecord(name: bytes, meta: Meta, kind: nat, compression: nat, flags: nat, offset: nat, zip64: bool): Record
  {
    Record(name, flags, compression, meta.dosTime, meta.dosDate, 0, 0, 0, offset,
           (kind + meta.mode % 4096) * 65536, UnixTime(meta), zip64)
  }

  function DirectoryEntry(name: bytes, meta: Meta, offset: nat): Entry
  {
    var r := NewRecord(name, meta, S_IFDIR, METHOD_STORE, FLAG_UTF8, offset, false);
    Entry(r.(externalAttrs := r.externalAttrs + 16), [], [])
  }

  /** ZIP64 is decided by the announced size, before the first byte. */
  function FileRecord(name: bytes, meta: Meta, compression: nat, size: nat, offset: nat): Record
  {
    NewRecord(name, meta, S_IFREG, compression, FLAG_UTF8 + FLAG_DESCRIPTOR, offset, size >= MAX32 - ZIP64_MARGIN)
  }

  function FileEntry(codec: Codec, name: bytes, meta: Meta, compression: nat, size: nat, offset: nat, content: bytes): Entry
  {
    var raw := if compression == METHOD_STORE then content else codec.deflate(content);
    var r := FileRecord(name, meta, compression, size, offset);
    Entry(r.(crc := CrcOf(content), uncompressed := |content|, compressed := |raw|), raw, content)
  }

  lemma DirectoryIsEntry(codec: Codec, name: bytes, meta: Meta, offset: nat)
    requires IsSound(codec) && |name| <= MAX16 && MetaFits(meta) && offset <= MAX_SAFE
    ensures IsEntry(codec, DirectoryEntry(name, meta, offset))
  {
    CrcOfNothing();
    hide CrcOf;
  }

  lemma FileIsEntry(codec: Codec, name: bytes, meta: Meta, compression: nat, size: nat, offset: nat, content: bytes)
    requires IsSound(codec) && |name| <= MAX16 && MetaFits(meta) && offset <= MAX_SAFE
    requires |content| <= size <= MAX_SAFE && (compression == METHOD_STORE || compression == METHOD_DEFLATE)
    ensures IsEntry(codec, FileEntry(codec, name, meta, compression, size, offset, content))
  {
    CrcIsShort(content);
    hide CrcOf;
    assert HasDescriptor(FLAG_UTF8 + FLAG_DESCRIPTOR);
  }

  function Flat(chunks: seq<bytes>): bytes
  {
    if chunks == [] then [] else chunks[0] + Flat(chunks[1..])
  }

  function RecordsOf(es: seq<Entry>): (s: seq<Record>)
    ensures |s| == |es|
  {
    seq(|es|, i requires 0 <= i < |es| => es[i].record)
  }

  lemma EntryAdded(codec: Codec, es: seq<Entry>, e: Entry)
    requires IsLaidOut(codec, es) && IsEntry(codec, e) && e.record.offset == |Cat(EntryPieces(es))|
    ensures IsLaidOut(codec, es + [e])
    ensures Cat(EntryPieces(es + [e])) == Cat(EntryPieces(es)) + EntryBytes(e)
    ensures RecordsOf(es + [e]) == RecordsOf(es) + [e.record]
  {
    hide IsEntry, EntryBytes;
    var more := es + [e];
    assert EntryPieces(more) == EntryPieces(es) + [EntryBytes(e)];
    forall i | 0 <= i < |more|
      ensures IsEntry(codec, more[i]) && more[i].record.offset == |Cat(EntryPieces(more)[..i])|
    {
      assert EntryPieces(more)[..i] == EntryPieces(es)[..i];
      if i == |es| {
        assert EntryPieces(es)[..i] == EntryPieces(es);
      }
    }
  }

  /** What the caller gives for one entry: a file's bytes, its mode, and its times. */
  datatype Given = Given(name: bytes, content: bytes, isDirectory: bool, mode: nat, unixTime: Option<nat>)

  /** What a reader is given back: Unix attributes are the upper half, kind and permissions. */
  function GivenBack(f: File): Given
  {
    var unix := f.central.externalAttrs / 65536;
    Given(f.central.name, f.content, unix / 4096 == 4, unix % 4096, f.central.mtime)
  }

  function AllGivenBack(files: seq<File>): (s: seq<Given>)
    ensures |s| == |files|
  {
    seq(|files|, i requires 0 <= i < |files| => GivenBack(files[i]))
  }

  /** The entries hold what was given. */
  ghost predicate Hold(entries: seq<Entry>, given: seq<Given>)
  {
    |entries| == |given| && forall i :: 0 <= i < |given| ==> GivenBack(FilesOf(entries)[i]) == given[i]
  }

  lemma HoldOneMore(entries: seq<Entry>, given: seq<Given>, e: Entry, g: Given)
    requires Hold(entries, given) && GivenBack(File(CentralOf(e.record), e.content)) == g
    ensures Hold(entries + [e], given + [g])
  {
    hide GivenBack, CentralOf;
    var more := entries + [e];
    forall i | 0 <= i < |more| ensures GivenBack(FilesOf(more)[i]) == (given + [g])[i] {
      if i < |entries| {
        assert FilesOf(more)[i] == FilesOf(entries)[i];
      }
    }
  }

  lemma ModeIsKept(kind: nat, mode: nat, low: nat)
    requires low < 65536
    ensures var unix := ((kind * 4096 + mode % 4096) * 65536 + low) / 65536;
            unix / 4096 == kind && unix % 4096 == mode % 4096
  {
  }

  /** The local header says nothing of the CRC and sizes, which are not known yet. */
  lemma SameLocalHeader(r: Record, s: Record)
    requires r == s.(crc := r.crc, compressed := r.compressed, uncompressed := r.uncompressed)
    ensures LocalHeader(r) == LocalHeader(s)
  {
    hide Pack, LE;
    assert LocalExtra(r) == LocalExtra(s);
    assert LocalValues(r) == LocalValues(s);
  }

  lemma Grouped(a: bytes, b: bytes, c: bytes, d: bytes)
    ensures a + b + c + d == a + (b + c + d)
  {
  }

  /** A file's entry: its header is known before its content, its record once it is written. */
  lemma FileEntryIs(codec: Codec, name: bytes, meta: Meta, compression: nat, size: nat, offset: nat, content: bytes)
    requires MetaFits(meta)
    ensures var r := FileRecord(name, meta, compression, size, offset);
            && r.name == name && r.offset == offset && r.compression == compression && r.flags == 2048 + 8
            && r.externalAttrs == (32768 + meta.mode % 4096) * 65536 && r.dosTime == meta.dosTime && r.dosDate == meta.dosDate
            && (r.zip64Sizes <==> size >= 0xffffffff - 64 * 1024 * 1024) && r.unixTime == UnixTime(meta)
    ensures var e := FileEntry(codec, name, meta, compression, size, offset, content);
            var before := FileRecord(name, meta, compression, size, offset);
            && e.record == before.(crc := CrcOf(content), uncompressed := |content|, compressed := |e.raw|)
            && e.content == content && e.raw == (if compression == METHOD_STORE then content else codec.deflate(content))
            && EntryBytes(e) == LocalHeader(before) + e.raw + Descriptor(e.record)
            && GivenBack(File(CentralOf(e.record), content)) == Given(name, content, false, meta.mode % 4096, UnixTime(meta))
  {
    hide CrcOf, LocalHeader, Descriptor;
    var e := FileEntry(codec, name, meta, compression, size, offset, content);
    SameLocalHeader(e.record, FileRecord(name, meta, compression, size, offset));
    assert HasDescriptor(FLAG_UTF8 + FLAG_DESCRIPTOR);
    ModeIsKept(8, meta.mode, 0);
  }

  /** The bytes read ahead of the header. */
  function SampleOf(head: bytes, body: seq<bytes>): bytes
    decreases |body|
  {
    if body == [] || |head| >= 65536 then head else SampleOf(head + body[0], body[1..])
  }

  class ZipWriter {
    const codec: Codec
    /** Whether to try deflating: by the name and the first bytes. */
    const shouldDeflate: (bytes, bytes) -> bool
    var sink: bytes
    var records: seq<Record>
    ghost var entries: seq<Entry>
    /** What was given so far, in order. */
    ghost var given: seq<Given>

    ghost predicate Valid()
      reads this
    {
      && IsSound(codec) && IsLaidOut(codec, entries)
      && sink == Cat(EntryPieces(entries)) && records == RecordsOf(entries)
      && Hold(entries, given)
    }

    constructor (codec: Codec, shouldDeflate: (bytes, bytes) -> bool)
      requires IsSound(codec)
      ensures Valid() && entries == [] && given == [] && this.codec == codec && this.shouldDeflate == shouldDeflate
    {
      this.codec := codec;
      this.shouldDeflate := shouldDeflate;
      sink, records, entries, given := [], [], [], [];
    }

    method AddDirectory(name: bytes, meta: Meta)
      requires Valid() && |name| <= MAX16 && MetaFits(meta) && |sink| <= MAX_SAFE
      modifies this
      ensures Valid() && entries == old(entries) + [DirectoryEntry(name, meta, |old(sink)|)]
      // The entry, field by field
      ensures var e := entries[|old(entries)|];
              var r := e.record;
              && e.content == [] && e.raw == [] && r.name == name && r.offset == |old(sink)|
              && r.crc == 0 && r.uncompressed == 0 && r.compressed == 0 && r.compression == 0 && r.flags == 2048
              && r.externalAttrs == (16384 + meta.mode % 4096) * 65536 + 16
              && r.dosTime == meta.dosTime && r.dosDate == meta.dosDate && !r.zip64Sizes
              && r.unixTime == match meta.seconds { case Some(t) => if 0 <= t <= 0x7fffffff then Some(t) else None case None => None }
      ensures given == old(given) + [Given(name, [], true, meta.mode % 4096, UnixTime(meta))]
    {
      hide IsSound, IsEntry, IsLaidOut, LocalHeader, Descriptor, EntryPieces, RecordsOf, Cat, Hold;
      var record := NewRecord(name, meta, S_IFDIR, METHOD_STORE, FLAG_UTF8, |sink|, false);
      record := record.(externalAttrs := record.externalAttrs + 16);
      ghost var e := DirectoryEntry(name, meta, |sink|);
      DirectoryIsEntry(codec, name, meta, |sink|);
      EntryAdded(codec, entries, e);
      sink := sink + LocalHeader(record);
      records := records + [record];
      ghost var g := Given(name, [], true, meta.mode % 4096, UnixTime(meta));
      ModeIsKept(4, meta.mode, 16);
      HoldOneMore(entries, given, e, g);
      entries, given := entries + [e], given + [g];
      assert EntryBytes(e) == LocalHeader(record);
    }

    /** The bytes read ahead: chunks until there are enough or no more. */
    method Sample(body: seq<bytes>) returns (head: bytes, next: nat)
      ensures next <= |body| && Flat(body) == head + Flat(body[next..])
      ensures next < |body| ==> |head| >= SAMPLE_BYTES
      ensures head == SampleOf([], body)
    {
      head, next := [], 0;
      assert body[0..] == body;
      while next < |body| && |head| < SAMPLE_BYTES
        invariant next <= |body| && Flat(body) == head + Flat(body[next..])
        invariant SampleOf([], body) == SampleOf(head, body[next..])
      {
        assert body[next..][1..] == body[next + 1..];
        head := head + body[next];
        next := next + 1;
      }
    }

    /** Stores the sampled bytes and the chunks after them, keeping the CRC of all of them. */
    method Store(head: bytes, rest: seq<bytes>) returns (crc: nat, bytesRead: nat)
      modifies this`sink
      ensures sink == old(sink) + (head + Flat(rest))
      ensures crc == CrcOf(head + Flat(rest)) && bytesRead == |head + Flat(rest)|
    {
      hide Crc.Crc32Of, Crc.FromBits;
      ghost var done := head;
      var c := Crc.Crc32Of(head, NO_CRC);
      sink := sink + head;
      bytesRead := |head|;
      assert rest[0..] == rest;
      for i := 0 to |rest|
        invariant done + Flat(rest[i..]) == head + Flat(rest)
        invariant sink == old(sink) + done && bytesRead == |done| && c == Crc.Crc32Of(done, NO_CRC)
      {
        Crc.Continues(done, rest[i], NO_CRC);
        c := Crc.Crc32Of(rest[i], c);
        sink := sink + rest[i];
        bytesRead := bytesRead + |rest[i]|;
        done := done + rest[i];
      }
      assert done == head + Flat(rest);
      crc := Crc.FromBits(c);
    }

    /** Deflates them instead; the CRC is of what went in. */
    method Deflate(head: bytes, rest: seq<bytes>) returns (crc: nat, bytesRead: nat)
      modifies this`sink
      ensures sink == old(sink) + codec.deflate(head + Flat(rest))
      ensures crc == CrcOf(head + Flat(rest)) && bytesRead == |head + Flat(rest)|
    {
      hide Crc.Crc32Of, Crc.FromBits;
      var fed := head;
      var c := Crc.Crc32Of(head, NO_CRC);
      bytesRead := |head|;
      assert rest[0..] == rest;
      for i := 0 to |rest|
        invariant fed + Flat(rest[i..]) == head + Flat(rest)
        invariant sink == old(sink) && bytesRead == |fed| && c == Crc.Crc32Of(fed, NO_CRC)
      {
        Crc.Continues(fed, rest[i], NO_CRC);
        c := Crc.Crc32Of(rest[i], c);
        bytesRead := bytesRead + |rest[i]|;
        fed := fed + rest[i];
      }
      assert fed == head + Flat(rest);
      sink := sink + codec.deflate(fed);
      crc := Crc.FromBits(c);
    }

    /** One file of at most `size` bytes, given as it was read. */
    method AddFile(name: bytes, meta: Meta, size: nat, body: seq<bytes>) returns (compression: nat, bytesRead: nat)
      requires Valid() && |name| <= MAX16 && MetaFits(meta) && |sink| <= MAX_SAFE
      requires |Flat(body)| <= size <= MAX_SAFE
      modifies this
      ensures Valid()
      ensures entries == old(entries) + [FileEntry(codec, name, meta, compression, size, |old(sink)|, Flat(body))]
      ensures bytesRead == |Flat(body)|
      // Deflated if the bytes read ahead say so
      ensures compression == if size > 0 && SampleOf([], body) != [] && shouldDeflate(name, SampleOf([], body)) then 8 else 0
      // The entry, field by field
      ensures var e := entries[|old(entries)|];
              var r := e.record;
              && e.content == Flat(body) && e.raw == (if compression == 0 then Flat(body) else codec.deflate(Flat(body)))
              && r.name == name && r.offset == |old(sink)| && r.compression == compression && r.flags == 2048 + 8
              && r.crc == CrcOf(Flat(body)) && r.uncompressed == |Flat(body)| && r.compressed == |e.raw|
              && r.externalAttrs == (32768 + meta.mode % 4096) * 65536
              && r.dosTime == meta.dosTime && r.dosDate == meta.dosDate
              && (r.zip64Sizes <==> size >= 0xffffffff - 64 * 1024 * 1024)
              && r.unixTime == match meta.seconds { case Some(t) => if 0 <= t <= 0x7fffffff then Some(t) else None case None => None }
      ensures given == old(given) + [Given(name, Flat(body), false, meta.mode % 4096, UnixTime(meta))]
    {
      hide IsSound, IsEntry, IsLaidOut, LocalHeader, Descriptor, EntryPieces, RecordsOf, Cat, CrcOf, Flat, Hold, SampleOf,
           FileEntry, FileRecord, EntryBytes, GivenBack, CentralOf;
      var head, next := Sample(body);
      compression := if size == 0 || head == [] || !shouldDeflate(name, head) then METHOD_STORE else METHOD_DEFLATE;
      var record := FileRecord(name, meta, compression, size, |sink|);
      ghost var before := sink;
      ghost var e := FileEntry(codec, name, meta, compression, size, |sink|, Flat(body));
      FileIsEntry(codec, name, meta, compression, size, |sink|, Flat(body));
      FileEntryIs(codec, name, meta, compression, size, |sink|, Flat(body));
      EntryAdded(codec, entries, e);
      sink := sink + LocalHeader(record);
      var start := |sink|;
      var crc;
      if compression == METHOD_STORE {
        crc, bytesRead := Store(head, body[next..]);
      } else {
        crc, bytesRead := Deflate(head, body[next..]);
      }
      record := record.(crc := crc, uncompressed := bytesRead, compressed := |sink| - start);
      sink := sink + Descriptor(record);
      records := records + [record];
      assert record == e.record;
      Grouped(before, LocalHeader(FileRecord(name, meta, compression, size, |before|)), e.raw, Descriptor(record));
      ghost var g := Given(name, Flat(body), false, meta.mode % 4096, UnixTime(meta));
      HoldOneMore(entries, given, e, g);
      entries, given := entries + [e], given + [g];
    }

    /** The central directory and the end records: an archive the reader gets every entry back from. */
    method Finish()
      requires Valid()
      modifies this
      ensures sink == Archive(old(entries)) && entries == old(entries) && given == old(given)
      // The names, contents, kinds, permissions and times that were given come back, in order
      ensures DirectoryFits(DirectoryOf(entries)) && !IsMisleading(entries) ==>
        match ReadZip(codec, sink) case None => false case Some(z) => AllGivenBack(z.files) == given
      ensures DirectoryFits(DirectoryOf(entries)) ==>
        (ReadZip(codec, sink) == Some(ZipRead(FilesOf(entries), NeedsZip64(DirectoryOf(entries)))) <==> !IsMisleading(entries))
    {
      hide DirectoryFits, NeedsZip64, IsMisleading, ReadZip, FilesOf, IsSound, IsLaidOut, EntryBytes, CentralHeader, EndRecords, Cat, EntryPieces, GivenBack;
      ghost var es := entries;
      assert AllGivenBack(FilesOf(es)) == given;
      var cdStart := |sink|;
      NothingYet(es);
      for i := 0 to |records|
        invariant records == RecordsOf(es) && entries == es && given == old(given)
        invariant sink == Cat(EntryPieces(es)) + Cat(CentralPieces(es)[..i])
      {
        ghost var tail := CatAt(CentralPieces(es), i);
        sink := sink + CentralHeader(records[i]);
      }
      assert CentralPieces(es)[..|es|] == CentralPieces(es);
      var cdSize := |sink| - cdStart;
      sink := sink + EndRecords(Directory(|records|, cdStart, cdSize));
      if DirectoryFits(DirectoryOf(es)) {
        ArchiveIsReadBack(codec, es);
      }
    }
  }

  // ── A misleading archive ───────────────────────────────────────────────────

  function ZerosOf(n: nat): bytes
  {
    seq(n, _ => 0)
  }

  /** The file before it ends where the signature of a ZIP64 locator, read as an offset, points. */
  function BigFile(codec: Codec): Entry
  {
    FileEntry(codec, [97], Meta(0, 0, 33, None), METHOD_STORE, SIG_ZIP64_LOCATOR - 47, 0, ZerosOf(SIG_ZIP64_LOCATOR - 47))
  }

  function NamedFile(codec: Codec): Entry
  {
    FileEntry(codec, [97, 98, 99, 100, 101, 102, 103], Meta(0, 0, 33, Some(1)), METHOD_STORE, 0, SIG_ZIP64_LOCATOR, [])
  }

  /** `a`, of 112 MB, and `abcdefg`, empty and with a time; both with the earliest DOS date. */
  function LookAlike(codec: Codec): seq<Entry>
  {
    [BigFile(codec)] + [NamedFile(codec)]
  }

  lemma LookAlikeLengths(codec: Codec)
    ensures |EntryBytes(BigFile(codec))| == SIG_ZIP64_LOCATOR && |EntryBytes(NamedFile(codec))| == 62
    ensures |CentralHeader(BigFile(codec).record)| == 47 && |CentralHeader(NamedFile(codec).record)| == 62
  {
    hide Pack, LE, CrcOf;
    Lengths(BigFile(codec).record, Directory(0, 0, 0));
    Lengths(NamedFile(codec).record, Directory(0, 0, 0));
  }

  lemma LookAlikeIsLaidOut(codec: Codec)
    requires IsSound(codec)
    ensures IsLaidOut(codec, LookAlike(codec))
    ensures |Cat(EntryPieces(LookAlike(codec)))| == SIG_ZIP64_LOCATOR + 62
  {
    hide CrcOf;
    var first, second := BigFile(codec), NamedFile(codec);
    FileIsEntry(codec, [97], Meta(0, 0, 33, None), METHOD_STORE, SIG_ZIP64_LOCATOR - 47, 0, ZerosOf(SIG_ZIP64_LOCATOR - 47));
    FileIsEntry(codec, [97, 98, 99, 100, 101, 102, 103], Meta(0, 0, 33, Some(1)), METHOD_STORE, 0, SIG_ZIP64_LOCATOR, []);
    assert first.record.offset == 0 && second.record.offset == SIG_ZIP64_LOCATOR;
    LookAlikeLengths(codec);
    hide IsSound, IsEntry, EntryBytes, BigFile, NamedFile;
    var none: seq<Entry> := [];
    assert |EntryPieces(none)| == 0 && |Cat(EntryPieces(none))| == 0;
    EntryAdded(codec, none, first);
    assert none + [first] == [first];
    EntryAdded(codec, [first], second);
  }

  lemma LookAlikeCentrals(codec: Codec)
    ensures |LookAlike(codec)| == 2
    ensures Cat(CentralPieces(LookAlike(codec))) == CentralHeader(BigFile(codec).record) + CentralHeader(NamedFile(codec).record)
  {
    hide BigFile, NamedFile, CentralHeader;
    var p := CentralPieces(LookAlike(codec));
    assert |Cat(p[..1][..0])| == 0;
    assert Cat(p[..1]) == p[0];
  }

  lemma {:induction false} TopByte(s: bytes)
    requires s != [] && s[|s| - 1] >= 1
    ensures FromLE(s) >= Pow256(|s| - 1)
  {
    if |s| > 1 {
      TopByte(s[1..]);
    }
  }

  lemma NamedFileValues(codec: Codec)
    ensures var r := NamedFile(codec).record;
            && |CENTRAL_WIDTHS| == 17 && CENTRAL_WIDTHS[16] == 4 && Offset(CENTRAL_WIDTHS, 16) == 42
            && CentralValues(r)[16] == SIG_ZIP64_LOCATOR < Pow256(CENTRAL_WIDTHS[16])
  {
    CentralOffsets();
    Powers();
    hide LE, CrcOf, Pow256, Offset, CentralExtra, Big;
  }

  lemma NamedFileHeader(codec: Codec)
    ensures var r := NamedFile(codec).record;
            var rest := r.name + CentralExtra(r);
            |Pack(CentralValues(r), CENTRAL_WIDTHS, 0)| == 46 && |rest| == 16 && rest[11] == 1
  {
    hide Pack;
    var r := NamedFile(codec).record;
    Lengths(r, Directory(0, 0, 0));
    assert r.name == [97, 98, 99, 100, 101, 102, 103] && Big(r) == [] && r.unixTime == Some(1);
    hide LE, NamedFile, CentralValues;
    assert CentralExtra(r) == TimeExtra(r);
    assert TimeExtra(r)[4] == 1;
  }

  lemma FieldIsU(buf: bytes, p: nat, n: nat)
    requires p + n <= |buf|
    ensures Field(buf, p, n) == Some(U(buf, p, n))
  {
  }

  lemma UIs(buf: bytes, p: nat)
    requires p + 8 <= |buf|
    ensures U(buf, p, 8) == FromLE(buf[p..p + 8])
  {
  }

  lemma HeaderParts(r: Record)
    ensures CentralHeader(r) == Pack(CentralValues(r), CENTRAL_WIDTHS, 0) + (r.name + CentralExtra(r))
  {
  }

  /** The last 62 bytes before the end records: the signature in the offset, and a large number behind it. */
  lemma LookAlikeEnd(codec: Codec, a: bytes)
    ensures var s := a + CentralHeader(NamedFile(codec).record);
            && |s| == |a| + 62 && U(s, |s| - 20, 4) == SIG_ZIP64_LOCATOR && U(s, |s| - 12, 8) >= Pow256(7)
  {
    LookAlikeLengths(codec);
    NamedFileHeader(codec);
    NamedFileValues(codec);
    var r := NamedFile(codec).record;
    hide *;
    var packed, rest := Pack(CentralValues(r), CENTRAL_WIDTHS, 0), r.name + CentralExtra(r);
    FieldIsRead(a, CentralValues(r), CENTRAL_WIDTHS, rest, 16);
    FieldIsU(a + packed + rest, |a| + 42, 4);
    var s := a + packed + rest;
    assert a + CentralHeader(r) == s by {
      HeaderParts(r);
    }
    var top := s[|s| - 12..|s| - 4];
    assert top[7] == rest[11];
    TopByte(top);
    UIs(s, |s| - 12);
  }

  /**
   * The writer can write a misleading archive of two files with plain names, and the reader refuses it:
   * the second one's offset is where a locator's signature would be.
   */
  lemma LookAlikeIsRefused(codec: Codec)
    requires IsSound(codec)
    ensures var es := LookAlike(codec);
            IsLaidOut(codec, es) && DirectoryFits(DirectoryOf(es)) && IsMisleading(es) && ReadZip(codec, Archive(es)).None?
  {
    hide IsSound, IsLaidOut, LookAlike, Cat, U, CentralHeader, EntryPieces, CentralPieces, ReadZip, Archive, Pow256, BigFile, NamedFile,
         DirectoryFits, NeedsZip64, DirectoryOf, BeforeEndRecords;
    var es := LookAlike(codec);
    LookAlikeIsLaidOut(codec);
    LookAlikeFits(codec);
    var a := Cat(EntryPieces(es)) + CentralHeader(BigFile(codec).record);
    LookAlikeEnd(codec, a);
    SevenBytes();
    PointingOutsideIsRefused(codec, es);
  }

  lemma LookAlikeFits(codec: Codec)
    requires |Cat(EntryPieces(LookAlike(codec)))| == SIG_ZIP64_LOCATOR + 62
    ensures var es := LookAlike(codec);
            && DirectoryFits(DirectoryOf(es)) && !NeedsZip64(DirectoryOf(es))
            && BeforeEndRecords(es) == Cat(EntryPieces(es)) + CentralHeader(BigFile(codec).record) + CentralHeader(NamedFile(codec).record)
            && |BeforeEndRecords(es)| + 22 < MAX32
  {
    hide BigFile, NamedFile, CentralHeader, EntryPieces, CentralPieces, Cat, LookAlike, EntryBytes, BeforeEndRecords;
    var es := LookAlike(codec);
    LookAlikeLengths(codec);
    LookAlikeCentrals(codec);
    BeforeEndIs(es);
    var one, two := CentralHeader(BigFile(codec).record), CentralHeader(NamedFile(codec).record);
    assert Cat(EntryPieces(es)) + (one + two) == Cat(EntryPieces(es)) + one + two;
  }

  lemma BeforeEndIs(es: seq<Entry>)
    ensures BeforeEndRecords(es) == Cat(EntryPieces(es)) + Cat(CentralPieces(es))
  {
    hide Cat, EntryPieces, CentralPieces;
  }

  lemma SevenBytes()
    ensures Pow256(7) > MAX32
  {
    assert Pow256(3) == 0x100_0000;
  }
}
