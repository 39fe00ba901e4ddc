/** What the reader makes of the structures the writer emits. */
module ZipProofs {
  import opened Bytes
  import opened ZipFormat
  import opened ZipReader

  // ── Records within their fields ────────────────────────────────────────────

  const MAX64: nat := 0xffff_ffff_ffff_ffff

  predicate Fits(r: Record)
  {
    && |r.name| <= MAX16 && r.flags <= MAX16 && r.compression <= MAX16 && r.dosTime <= MAX16 && r.dosDate <= MAX16
    && r.crc <= MAX32 && r.externalAttrs <= MAX32 && (r.unixTime.Some? ==> r.unixTime.value <= MAX32)
    && r.compressed <= MAX64 && r.uncompressed <= MAX64 && r.offset <= MAX64
    && (!r.zip64Sizes ==> r.compressed < MAX32 && r.uncompressed < MAX32)
  }

  lemma Powers()
    ensures Pow256(1) == 0x100 && Pow256(2) == MAX16 + 1 && Pow256(4) == MAX32 + 1 && Pow256(8) == MAX64 + 1
  {
    FieldSizes();
  }

  lemma CentralValuesFit(r: Record, i: nat)
    requires Fits(r) && i < |CENTRAL_WIDTHS|
    ensures CentralValues(r)[i] < Pow256(CENTRAL_WIDTHS[i])
  {
    Powers();
    hide Pow256, Big, CentralExtra, TimeExtra;
    ExtraLengths(r);
  }

  lemma LocalValuesFit(r: Record, i: nat)
    requires Fits(r) && i < |LOCAL_WIDTHS|
    ensures LocalValues(r)[i] < Pow256(LOCAL_WIDTHS[i])
  {
    Powers();
    hide Pow256, Big, LocalExtra, TimeExtra;
    ExtraLengths(r);
  }

  lemma ExtraLengths(r: Record)
    ensures |CentralExtra(r)| <= 37 && |LocalExtra(r)| <= 29
  {
    hide LE, Longs;
  }

  // ── Extra fields ───────────────────────────────────────────────────────────

  lemma OneExtra(id: nat, data: bytes, rest: bytes, m: map<nat, bytes>)
    requires id <= MAX16 && |data| <= MAX16
    ensures ParseExtras(LE(id, 2) + LE(|data|, 2) + data + rest, m) == ParseExtras(rest, m[id := data])
  {
    Powers();
    FromLEOfLE(id, 2);
    FromLEOfLE(|data|, 2);
    hide LE, FromLE, Pow256;
    var s := LE(id, 2) + LE(|data|, 2) + data + rest;
    assert s[..2] == LE(id, 2) && s[2..4] == LE(|data|, 2);
    assert Sub(s, 4, 4 + |data|) == data;
    assert Sub(s, 4 + |data|, |s|) == rest;
  }

  function TimeData(r: Record): bytes
  {
    if r.unixTime.None? then [] else [1] + LE(r.unixTime.value, 4)
  }

  function WithTime(r: Record, m: map<nat, bytes>): map<nat, bytes>
  {
    if r.unixTime.None? then m else m[EXTRA_TIME := TimeData(r)]
  }

  lemma TimeIsParsed(r: Record, m: map<nat, bytes>)
    ensures ParseExtras(TimeExtra(r), m) == WithTime(r, m)
  {
    if r.unixTime.Some? {
      var data := TimeData(r);
      OneExtra(EXTRA_TIME, data, [], m);
      hide LE;
      assert TimeExtra(r) == LE(EXTRA_TIME, 2) + LE(|data|, 2) + data + [];
    }
  }

  lemma CentralExtraIsParsed(r: Record)
    ensures ParseExtras(CentralExtra(r), map[])
         == WithTime(r, if Big(r) == [] then map[] else map[EXTRA_ZIP64 := Longs(Big(r))])
  {
    var none: map<nat, bytes> := map[];
    hide LE, Longs, TimeExtra, ParseExtras;
    if Big(r) == [] {
      assert CentralExtra(r) == TimeExtra(r);
      TimeIsParsed(r, none);
    } else {
      var data := Longs(Big(r));
      OneExtra(EXTRA_ZIP64, data, TimeExtra(r), none);
      assert CentralExtra(r) == LE(EXTRA_ZIP64, 2) + LE(|data|, 2) + data + TimeExtra(r);
      TimeIsParsed(r, none[EXTRA_ZIP64 := data]);
      assert none[EXTRA_ZIP64 := data] == map[EXTRA_ZIP64 := data];
    }
  }

  lemma LocalExtraIsParsed(r: Record)
    ensures EXTRA_ZIP64 in ParseExtras(LocalExtra(r), map[]) <==> r.zip64Sizes
  {
    var none: map<nat, bytes> := map[];
    hide LE, Longs, TimeExtra, ParseExtras, TimeData;
    if r.zip64Sizes {
      var data := LE(0, 8) + LE(0, 8);
      OneExtra(EXTRA_ZIP64, data, TimeExtra(r), none);
      assert LocalExtra(r) == LE(EXTRA_ZIP64, 2) + LE(|data|, 2) + data + TimeExtra(r);
      TimeIsParsed(r, none[EXTRA_ZIP64 := data]);
    } else {
      assert LocalExtra(r) == TimeExtra(r);
      TimeIsParsed(r, none);
    }
  }

  lemma TimeIsReadBack(r: Record)
    requires Fits(r)
    ensures Mtime(Get(WithTime(r, map[]), EXTRA_TIME)) == r.unixTime
  {
    if r.unixTime.Some? {
      Powers();
      FromLEOfLE(r.unixTime.value, 4);
      hide LE, FromLE, Pow256;
      assert TimeData(r)[1..5] == LE(r.unixTime.value, 4);
    }
  }

  lemma {:induction false} LongIsRead(values: seq<nat>, i: nat)
    requires i < |values| && values[i] <= MAX64
    ensures 8 * i + 8 <= |Longs(values)| && FromLE(Longs(values)[8 * i..8 * i + 8]) == values[i]
    decreases |values|
  {
    var first, rest := LE(values[0], 8), Longs(values[1..]);
    assert Longs(values) == first + rest;
    if i == 0 {
      Powers();
      FromLEOfLE(values[0], 8);
      SlicedEarlier(first, rest, 0, 8);
      assert first[0..8] == first;
    } else {
      LongIsRead(values[1..], i - 1);
      SlicedLater(first, rest, 8 * (i - 1), 8 * (i - 1) + 8);
    }
  }

  /** The 32-bit fields and the ZIP64 extra together give the sizes and the offset back. */
  lemma SizesAreReadBack(r: Record)
    requires Fits(r)
    ensures var z := if Big(r) == [] then None else Some(Longs(Big(r)));
            Sizes(z, if r.zip64Sizes then MAX32 else r.uncompressed, if r.zip64Sizes then MAX32 else r.compressed,
                  if r.offset >= MAX32 then MAX32 else r.offset)
              == Some((r.uncompressed, r.compressed, r.offset))
  {
    hide LE, FromLE, Longs;
    if r.zip64Sizes {
      LongIsRead(Big(r), 0);
      LongIsRead(Big(r), 1);
      if r.offset >= MAX32 {
        LongIsRead(Big(r), 2);
      }
    } else if r.offset >= MAX32 {
      LongIsRead(Big(r), 0);
    }
  }

  // ── Central headers ────────────────────────────────────────────────────────

  function CentralOf(r: Record): Central
  {
    Central(r.name, r.flags, r.compression, r.crc, r.compressed, r.uncompressed, r.offset, r.externalAttrs,
            MADE_BY, if Big(r) != [] then VERSION_ZIP64 else VERSION_DEFAULT, r.unixTime, Big(r) != [])
  }

  lemma CentralField(a: bytes, r: Record, c: bytes, i: nat)
    requires Fits(r) && i < |CENTRAL_WIDTHS|
    ensures Field(a + CentralHeader(r) + c, |a| + Offset(CENTRAL_WIDTHS, i), CENTRAL_WIDTHS[i]) == Some(CentralValues(r)[i])
  {
    hide Pack, CentralValues, CentralExtra, Field, Offset;
    CentralValuesFit(r, i);
    FieldIsRead(a, CentralValues(r), CENTRAL_WIDTHS, r.name + CentralExtra(r) + c, i);
    assert a + CentralHeader(r) + c == a + Pack(CentralValues(r), CENTRAL_WIDTHS, 0) + (r.name + CentralExtra(r) + c);
  }

  lemma CentralOffsets()
    ensures var w := CENTRAL_WIDTHS;
            && Offset(w, 0) == 0 && Offset(w, 1) == 4 && Offset(w, 2) == 6 && Offset(w, 3) == 8 && Offset(w, 4) == 10
            && Offset(w, 7) == 16 && Offset(w, 8) == 20 && Offset(w, 9) == 24 && Offset(w, 10) == 28
            && Offset(w, 11) == 30 && Offset(w, 12) == 32 && Offset(w, 15) == 38 && Offset(w, 16) == 42
  {
  }

  /** The numbers of a central header, wherever it lies. */
  lemma CentralNumbers(a: bytes, r: Record, c: bytes)
    requires Fits(r)
    ensures var buf, p := a + CentralHeader(r) + c, |a|;
            var v := CentralValues(r);
            && Field(buf, p, 4) == Some(SIG_CENTRAL) && Field(buf, p + 4, 2) == Some(MADE_BY)
            && Field(buf, p + 6, 2) == Some(v[2])
            && Field(buf, p + 8, 2) == Some(r.flags) && Field(buf, p + 10, 2) == Some(r.compression)
            && Field(buf, p + 16, 4) == Some(r.crc) && Field(buf, p + 20, 4) == Some(v[8]) && Field(buf, p + 24, 4) == Some(v[9])
            && Field(buf, p + 28, 2) == Some(|r.name|) && Field(buf, p + 30, 2) == Some(|CentralExtra(r)|)
            && Field(buf, p + 32, 2) == Some(0) && Field(buf, p + 38, 4) == Some(r.externalAttrs)
            && Field(buf, p + 42, 4) == Some(v[16])
  {
    hide Pack, Field, CentralHeader, CentralExtra, Offset, Big;
    CentralOffsets();
    CentralField(a, r, c, 0);
    CentralField(a, r, c, 1);
    CentralField(a, r, c, 2);
    CentralField(a, r, c, 3);
    CentralField(a, r, c, 4);
    CentralField(a, r, c, 7);
    CentralField(a, r, c, 8);
    CentralField(a, r, c, 9);
    CentralField(a, r, c, 10);
    CentralField(a, r, c, 11);
    CentralField(a, r, c, 12);
    CentralField(a, r, c, 15);
    CentralField(a, r, c, 16);
  }

  /** A name and extra fields behind a head of fixed size. */
  lemma HeadedTexts(a: bytes, head: bytes, name: bytes, extra: bytes, c: bytes)
    ensures var buf, p := a + (head + name + extra) + c, |a| + |head|;
            && Sub(buf, p, p + |name|) == name && Sub(buf, p + |name|, p + |name| + |extra|) == extra
  {
    var buf := a + (head + name + extra) + c;
    assert buf == (a + head) + name + (extra + c);
    assert buf == (a + head + name) + extra + c;
  }

  lemma HeaderParts(r: Record)
    ensures CentralHeader(r) == Pack(CentralValues(r), CENTRAL_WIDTHS, 0) + r.name + CentralExtra(r)
    ensures LocalHeader(r) == Pack(LocalValues(r), LOCAL_WIDTHS, 0) + r.name + LocalExtra(r)
    ensures |Pack(CentralValues(r), CENTRAL_WIDTHS, 0)| == 46 && |Pack(LocalValues(r), LOCAL_WIDTHS, 0)| == 30
  {
    Lengths(r, Directory(0, 0, 0));
  }

  lemma CentralTexts(a: bytes, r: Record, c: bytes)
    ensures var buf, p := a + CentralHeader(r) + c, |a| + 46;
            && |CentralHeader(r)| == 46 + |r.name| + |CentralExtra(r)|
            && Sub(buf, p, p + |r.name|) == r.name
            && Sub(buf, p + |r.name|, p + |r.name| + |CentralExtra(r)|) == CentralExtra(r)
            && |buf| >= p
  {
    hide *;
    HeaderParts(r);
    HeadedTexts(a, Pack(CentralValues(r), CENTRAL_WIDTHS, 0), r.name, CentralExtra(r), c);
  }

  /** What the reader makes of a central header whose fields are known. */
  lemma EntryOf(buf: bytes, p: nat, r: Record, n: nat, x: nat, extras: map<nat, bytes>, extra: bytes,
                version: nat, compressed: nat, uncompressed: nat, offset: nat)
    requires Field(buf, p, 4) == Some(SIG_CENTRAL) && p + 46 <= |buf|
    requires Field(buf, p + 4, 2) == Some(MADE_BY) && Field(buf, p + 6, 2) == Some(version)
    requires Field(buf, p + 8, 2) == Some(r.flags) && Field(buf, p + 10, 2) == Some(r.compression)
    requires Field(buf, p + 16, 4) == Some(r.crc) && Field(buf, p + 20, 4) == Some(compressed)
    requires Field(buf, p + 24, 4) == Some(uncompressed) && Field(buf, p + 28, 2) == Some(n)
    requires Field(buf, p + 30, 2) == Some(x) && Field(buf, p + 32, 2) == Some(0)
    requires Field(buf, p + 38, 4) == Some(r.externalAttrs) && Field(buf, p + 42, 4) == Some(offset)
    requires Sub(buf, p + 46, p + 46 + n) == r.name && Sub(buf, p + 46 + n, p + 46 + n + x) == extra
    requires ParseExtras(extra, map[]) == extras
    requires Sizes(Get(extras, EXTRA_ZIP64), uncompressed, compressed, offset) == Some((r.uncompressed, r.compressed, r.offset))
    ensures ReadEntry(buf, p) == Some(EntryRead(
              Central(r.name, r.flags, r.compression, r.crc, r.compressed, r.uncompressed, r.offset, r.externalAttrs,
                      MADE_BY, version, Mtime(Get(extras, EXTRA_TIME)), Get(extras, EXTRA_ZIP64).Some?),
              p + 46 + n + x))
  {
    hide Sub, ParseExtras, Sizes, Get, Mtime, FromLE;
  }

  /** The extra fields of a central header, by what the reader looks for. */
  lemma ExtrasAreReadBack(r: Record)
    requires Fits(r)
    ensures var extras := ParseExtras(CentralExtra(r), map[]);
            && Get(extras, EXTRA_ZIP64) == (if Big(r) == [] then None else Some(Longs(Big(r))))
            && Mtime(Get(extras, EXTRA_TIME)) == r.unixTime
  {
    CentralExtraIsParsed(r);
    TimeIsReadBack(r);
    hide Fits, Big, Longs, CentralExtra, ParseExtras, Mtime, TimeData;
  }

  /** A central header is read back whole, wherever it lies. */
  lemma CentralIsReadBack(a: bytes, r: Record, c: bytes)
    requires Fits(r)
    ensures ReadEntry(a + CentralHeader(r) + c, |a|) == Some(EntryRead(CentralOf(r), |a| + |CentralHeader(r)|))
  {
    hide CentralHeader, CentralExtra, ParseExtras, Sizes, Sub, Fits, Longs, FromLE, Mtime, Get, ReadEntry, Field;
    CentralNumbers(a, r, c);
    CentralTexts(a, r, c);
    ExtrasAreReadBack(r);
    SizesAreReadBack(r);
    var v := CentralValues(r);
    EntryOf(a + CentralHeader(r) + c, |a|, r, |r.name|, |CentralExtra(r)|, ParseExtras(CentralExtra(r), map[]),
            CentralExtra(r), v[2], v[8], v[9], v[16]);
  }

  // ── Local headers and descriptors ──────────────────────────────────────────

  lemma LocalField(a: bytes, r: Record, c: bytes, i: nat)
    requires Fits(r) && i < |LOCAL_WIDTHS|
    ensures Field(a + LocalHeader(r) + c, |a| + Offset(LOCAL_WIDTHS, i), LOCAL_WIDTHS[i]) == Some(LocalValues(r)[i])
  {
    hide Pack, LocalValues, LocalExtra, Field, Offset;
    LocalValuesFit(r, i);
    FieldIsRead(a, LocalValues(r), LOCAL_WIDTHS, r.name + LocalExtra(r) + c, i);
    assert a + LocalHeader(r) + c == a + Pack(LocalValues(r), LOCAL_WIDTHS, 0) + (r.name + LocalExtra(r) + c);
  }

  lemma LocalOffsets()
    ensures var w := LOCAL_WIDTHS;
            && Offset(w, 0) == 0 && Offset(w, 2) == 6 && Offset(w, 3) == 8 && Offset(w, 6) == 14
            && Offset(w, 9) == 26 && Offset(w, 10) == 28
  {
  }

  lemma LocalNumbers(a: bytes, r: Record, c: bytes)
    requires Fits(r)
    ensures var buf, p := a + LocalHeader(r) + c, |a|;
            && Field(buf, p, 4) == Some(SIG_LOCAL) && Field(buf, p + 6, 2) == Some(r.flags)
            && Field(buf, p + 8, 2) == Some(r.compression) && Field(buf, p + 14, 4) == Some(0)
            && Field(buf, p + 26, 2) == Some(|r.name|) && Field(buf, p + 28, 2) == Some(|LocalExtra(r)|)
  {
    hide Pack, Field, LocalHeader, LocalExtra, Offset;
    LocalOffsets();
    LocalField(a, r, c, 0);
    LocalField(a, r, c, 2);
    LocalField(a, r, c, 3);
    LocalField(a, r, c, 6);
    LocalField(a, r, c, 9);
    LocalField(a, r, c, 10);
  }

  /** The DOS times, which this reader passes over, are where others look for them (APPNOTE section 4.4.6). */
  lemma DosTimesAreWritten(a: bytes, r: Record, c: bytes)
    requires Fits(r)
    ensures Field(a + CentralHeader(r) + c, |a| + 12, 2) == Some(r.dosTime)
    ensures Field(a + CentralHeader(r) + c, |a| + 14, 2) == Some(r.dosDate)
    ensures Field(a + LocalHeader(r) + c, |a| + 10, 2) == Some(r.dosTime)
    ensures Field(a + LocalHeader(r) + c, |a| + 12, 2) == Some(r.dosDate)
  {
    DosOffsets();
    hide Pack, CentralExtra, LocalExtra, Field, Offset, Big;
    CentralField(a, r, c, 5);
    CentralField(a, r, c, 6);
    LocalField(a, r, c, 4);
    LocalField(a, r, c, 5);
  }

  lemma DosOffsets()
    ensures Offset(CENTRAL_WIDTHS, 5) == 12 && Offset(CENTRAL_WIDTHS, 6) == 14
    ensures Offset(LOCAL_WIDTHS, 4) == 10 && Offset(LOCAL_WIDTHS, 5) == 12
  {
  }

  lemma LocalTexts(a: bytes, r: Record, raw: bytes, c: bytes)
    ensures var buf, p := a + LocalHeader(r) + (raw + c), |a| + 30;
            var start := p + |r.name| + |LocalExtra(r)|;
            && |LocalHeader(r)| == 30 + |r.name| + |LocalExtra(r)|
            && Sub(buf, p, p + |r.name|) == r.name
            && Sub(buf, p + |r.name|, start) == LocalExtra(r)
            && Sub(buf, start, start + |raw|) == raw
            && |buf| >= p
  {
    hide *;
    HeaderParts(r);
    HeadedTexts(a, Pack(LocalValues(r), LOCAL_WIDTHS, 0), r.name, LocalExtra(r), raw + c);
    RawTexts(a, LocalHeader(r), raw, c);
  }

  lemma RawTexts(a: bytes, h: bytes, raw: bytes, c: bytes)
    ensures var start := |a| + |h|; Sub(a + h + (raw + c), start, start + |raw|) == raw
  {
    assert a + h + (raw + c) == (a + h) + raw + c;
  }

  lemma DescriptorOffsets()
    ensures var w, v := DESCRIPTOR_WIDTHS, DESCRIPTOR64_WIDTHS;
            && Offset(w, 0) == 0 && Offset(w, 1) == 4 && Offset(w, 2) == 8 && Offset(w, 3) == 12
            && Offset(v, 0) == 0 && Offset(v, 1) == 4 && Offset(v, 2) == 8 && Offset(v, 3) == 16
  {
  }

  lemma DescriptorOf(buf: bytes, q: nat, zip64: bool, e: Central)
    requires var n := if zip64 then 8 else 4;
             && Field(buf, q, 4) == Some(SIG_DESCRIPTOR) && Field(buf, q + 4, 4) == Some(e.crc)
             && Field(buf, q + 8, n) == Some(e.compressed) && Field(buf, q + 8 + n, n) == Some(e.uncompressed)
    ensures ReadDescriptor(buf, q, zip64, e) == Some(q + if zip64 then 24 else 16)
  {
  }

  lemma DescriptorField(a: bytes, r: Record, c: bytes, i: nat)
    requires Fits(r) && i < 4
    ensures var v := [SIG_DESCRIPTOR, r.crc, r.compressed, r.uncompressed];
            var w := DescriptorWidths(r.zip64Sizes);
            Field(a + Descriptor(r) + c, |a| + Offset(w, i), w[i]) == Some(v[i])
  {
    Powers();
    hide Pack, Field, Offset, Pow256;
    FieldIsRead(a, [SIG_DESCRIPTOR, r.crc, r.compressed, r.uncompressed], DescriptorWidths(r.zip64Sizes), c, i);
  }

  lemma DescriptorFields(a: bytes, r: Record, c: bytes)
    requires Fits(r)
    ensures var buf, p, n := a + Descriptor(r) + c, |a|, if r.zip64Sizes then 8 else 4;
            && Field(buf, p, 4) == Some(SIG_DESCRIPTOR) && Field(buf, p + 4, 4) == Some(r.crc)
            && Field(buf, p + 8, n) == Some(r.compressed) && Field(buf, p + 8 + n, n) == Some(r.uncompressed)
  {
    hide Fits, Field, Offset, Descriptor;
    DescriptorOffsets();
    DescriptorField(a, r, c, 0);
    DescriptorField(a, r, c, 1);
    DescriptorField(a, r, c, 2);
    DescriptorField(a, r, c, 3);
  }

  /** A descriptor agrees with the central header of its record. */
  lemma DescriptorIsReadBack(a: bytes, r: Record, c: bytes)
    requires Fits(r)
    ensures ReadDescriptor(a + Descriptor(r) + c, |a|, r.zip64Sizes, CentralOf(r)) == Some(|a| + |Descriptor(r)|)
  {
    hide Fits, Field, Offset, Big, Descriptor, ReadDescriptor;
    Lengths(r, Directory(0, 0, 0));
    DescriptorFields(a, r, c);
    DescriptorOf(a + Descriptor(r) + c, |a|, r.zip64Sizes, CentralOf(r));
  }

  // ── Entries ────────────────────────────────────────────────────────────────

  /** An entry: its record, the data as it lies in the archive, and the content it stands for. */
  datatype Entry = Entry(record: Record, raw: bytes, content: bytes)

  function EntryBytes(e: Entry): bytes
  {
    LocalHeader(e.record) + e.raw + if HasDescriptor(e.record.flags) then Descriptor(e.record) else []
  }

  predicate IsEntry(codec: Codec, e: Entry)
  {
    var r := e.record;
    && Fits(r) && |e.raw| == r.compressed && |e.content| == r.uncompressed
    && r.crc == codec.crc(e.content) && Content(codec, e.raw, r.compression) == Some(e.content)
    && (HasDescriptor(r.flags) || r.crc == 0)
  }

  /** What the reader makes of an entry whose parts are known. */
  lemma FileOf(codec: Codec, buf: bytes, e: Central, zip64: bool, n: nat, x: nat, extra: bytes, raw: bytes, content: bytes, q: nat)
    requires var p := e.offset;
             && Field(buf, p, 4) == Some(SIG_LOCAL) && p + 30 <= |buf|
             && Field(buf, p + 6, 2) == Some(e.flags) && Field(buf, p + 8, 2) == Some(e.compression)
             && Field(buf, p + 14, 4) == Some(0)
             && Field(buf, p + 26, 2) == Some(n) && Field(buf, p + 28, 2) == Some(x)
             && Sub(buf, p + 30, p + 30 + n) == e.name && Sub(buf, p + 30 + n, p + 30 + n + x) == extra
             && Sub(buf, p + 30 + n + x, p + 30 + n + x + e.compressed) == raw
    requires zip64 == (EXTRA_ZIP64 in ParseExtras(extra, map[]))
    requires Content(codec, raw, e.compression) == Some(content)
    requires |content| == e.uncompressed && codec.crc(content) == e.crc
    requires if HasDescriptor(e.flags)
             then ReadDescriptor(buf, e.offset + 30 + n + x + e.compressed, zip64, e) == Some(q)
             else e.crc == 0 && q == e.offset + 30 + n + x + e.compressed
    ensures ReadLocal(codec, buf, e) == Some(FileRead(content, q))
  {
    hide Sub, ParseExtras, Content, FromLE, ReadDescriptor, HasDescriptor;
  }

  /** The descriptor, when the flags announce one, is where the data ends. */
  lemma AfterData(a: bytes, e: Entry, c: bytes)
    requires Fits(e.record) && |e.raw| == e.record.compressed
    ensures var buf := a + EntryBytes(e) + c;
            var q := |a| + |LocalHeader(e.record)| + |e.raw|;
            if HasDescriptor(e.record.flags)
            then ReadDescriptor(buf, q, e.record.zip64Sizes, CentralOf(e.record)) == Some(|a| + |EntryBytes(e)|)
            else q == |a| + |EntryBytes(e)|
  {
    hide LocalHeader, Descriptor, ReadDescriptor, HasDescriptor, Fits, CentralOf;
    if HasDescriptor(e.record.flags) {
      var before := a + LocalHeader(e.record) + e.raw;
      assert a + EntryBytes(e) + c == before + Descriptor(e.record) + c;
      DescriptorIsReadBack(before, e.record, c);
    }
  }

  lemma EntryFollowed(a: bytes, e: Entry, c: bytes)
    ensures var tail := (if HasDescriptor(e.record.flags) then Descriptor(e.record) else []) + c;
            a + EntryBytes(e) + c == a + LocalHeader(e.record) + (e.raw + tail)
  {
    hide LocalHeader, Descriptor, HasDescriptor;
  }

  /** An entry is read back, checked against its central header, and the reader is left right after it. */
  lemma EntryIsReadBack(codec: Codec, a: bytes, e: Entry, c: bytes)
    requires IsEntry(codec, e) && e.record.offset == |a|
    ensures ReadLocal(codec, a + EntryBytes(e) + c, CentralOf(e.record)) == Some(FileRead(e.content, |a| + |EntryBytes(e)|))
  {
    hide LocalHeader, LocalExtra, Descriptor, ParseExtras, Sub, Fits, Big, FromLE, ReadDescriptor, HasDescriptor, EntryBytes,
         ReadLocal, Content, Field;
    var r := e.record;
    var tail := (if HasDescriptor(r.flags) then Descriptor(r) else []) + c;
    EntryFollowed(a, e, c);
    LocalNumbers(a, r, e.raw + tail);
    LocalTexts(a, r, e.raw, tail);
    LocalExtraIsParsed(r);
    AfterData(a, e, c);
    FileOf(codec, a + EntryBytes(e) + c, CentralOf(r), r.zip64Sizes, |r.name|, |LocalExtra(r)|, LocalExtra(r), e.raw,
           e.content, |a| + |EntryBytes(e)|);
  }
}
