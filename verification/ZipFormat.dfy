/**
 * The ZIP structures the streaming writer emits (PKWARE APPNOTE sections 4.3.7, 4.3.9, 4.3.12,
 * 4.3.14 to 4.3.16 and 4.5.3), as little-endian fields.
 */
module ZipFormat {
  import opened Bytes

  type bytes = seq<byte>

  datatype Option<T> = None | Some(value: T)

  // ── Packed fields ──────────────────────────────────────────────────────────

  /** Values in little-endian fields of the given widths, from the `k`-th on. */
  function Pack(values: seq<nat>, widths: seq<nat>, k: nat): bytes
    requires |values| == |widths| && k <= |values|
    decreases |values| - k
  {
    if k == |values| then [] else LE(values[k], widths[k]) + Pack(values, widths, k + 1)
  }

  /** Where the `k`-th field starts. */
  function Offset(widths: seq<nat>, k: nat): nat
    requires k <= |widths|
  {
    if k == 0 then 0 else Offset(widths, k - 1) + widths[k - 1]
  }

  lemma {:induction false} OffsetGrows(widths: seq<nat>, j: nat, k: nat)
    requires j <= k <= |widths|
    ensures Offset(widths, j) <= Offset(widths, k)
  {
    if j < k {
      OffsetGrows(widths, j, k - 1);
    }
  }

  lemma {:induction false} PackLength(values: seq<nat>, widths: seq<nat>, k: nat)
    requires |values| == |widths| && k <= |values|
    ensures |Pack(values, widths, k)| == Offset(widths, |widths|) - Offset(widths, k)
    decreases |values| - k
  {
    hide LE;
    if k < |values| {
      PackLength(values, widths, k + 1);
    }
  }

  lemma SlicedLater(a: bytes, s: bytes, i: nat, j: nat)
    requires i <= j <= |s|
    ensures (a + s)[|a| + i..|a| + j] == s[i..j]
  {
  }

  lemma SlicedEarlier(s: bytes, c: bytes, i: nat, j: nat)
    requires i <= j <= |s|
    ensures (s + c)[i..j] == s[i..j]
  {
  }

  /** Each field is found at its offset. */
  lemma {:induction false} PackAt(values: seq<nat>, widths: seq<nat>, k: nat, i: nat)
    requires |values| == |widths| && k <= i < |values|
    ensures var p := Pack(values, widths, k);
            var at := Offset(widths, i) - Offset(widths, k);
            && 0 <= at && at + widths[i] <= |p| && p[at..at + widths[i]] == LE(values[i], widths[i])
    decreases i - k
  {
    OffsetGrows(widths, k, i);
    OffsetGrows(widths, i + 1, |widths|);
    PackLength(values, widths, k);
    PackCons(values, widths, k);
    hide Pack, LE;
    var first := LE(values[k], widths[k]);
    var rest := Pack(values, widths, k + 1);
    if i == k {
      SlicedEarlier(first, rest, 0, |first|);
    } else {
      PackAt(values, widths, k + 1, i);
      var at := Offset(widths, i) - Offset(widths, k + 1);
      SlicedLater(first, rest, at, at + widths[i]);
    }
  }

  lemma PackCons(values: seq<nat>, widths: seq<nat>, k: nat)
    requires |values| == |widths| && k < |values|
    ensures Pack(values, widths, k) == LE(values[k], widths[k]) + Pack(values, widths, k + 1)
    ensures Offset(widths, k + 1) == Offset(widths, k) + widths[k]
  {
  }

  /** `readUInt…LE(p)`: the value of an `n`-byte field, when the buffer holds it. */
  function Field(buf: bytes, p: int, n: nat): Option<nat>
  {
    if 0 <= p && p + n <= |buf| then Some(FromLE(buf[p..p + n])) else None
  }

  /** A packed field is read back from wherever the structure lies. */
  lemma FieldIsRead(a: bytes, values: seq<nat>, widths: seq<nat>, c: bytes, i: nat)
    requires |values| == |widths| && i < |values| && values[i] < Pow256(widths[i])
    ensures Field(a + Pack(values, widths, 0) + c, |a| + Offset(widths, i), widths[i]) == Some(values[i])
  {
    hide *;
    PackAt(values, widths, 0, i);
    FieldWithin(a, Pack(values, widths, 0), c, Offset(widths, i) - Offset(widths, 0), widths[i]);
    FromLEOfLE(values[i], widths[i]);
    FirstOffset(widths);
  }

  lemma FirstOffset(widths: seq<nat>)
    ensures Offset(widths, 0) == 0
  {
  }

  lemma FieldWithin(a: bytes, s: bytes, c: bytes, at: nat, n: nat)
    requires at + n <= |s|
    ensures Field(a + s + c, |a| + at, n) == Some(FromLE(s[at..at + n]))
  {
    SlicedLater(a, s, at, at + n);
    SlicedEarlier(a + s, c, |a| + at, |a| + at + n);
  }

  // ── Structures ─────────────────────────────────────────────────────────────

  const SIG_LOCAL: nat := 0x04034b50
  const SIG_DESCRIPTOR: nat := 0x08074b50
  const SIG_CENTRAL: nat := 0x02014b50
  const SIG_ZIP64_END: nat := 0x06064b50
  const SIG_ZIP64_LOCATOR: nat := 0x07064b50
  const SIG_END: nat := 0x06054b50

  const FLAG_DESCRIPTOR: nat := 0x0008
  const FLAG_UTF8: nat := 0x0800
  const METHOD_STORE: nat := 0
  const METHOD_DEFLATE: nat := 8
  const VERSION_DEFAULT: nat := 20
  const VERSION_ZIP64: nat := 45
  /** Made by Unix, version 4.5. */
  const MADE_BY: nat := 3 * 256 + VERSION_ZIP64

  const MAX32: nat := 0xffffffff
  const MAX16: nat := 0xffff
  const ZIP64_MARGIN: nat := 64 * 1024 * 1024

  const EXTRA_ZIP64: nat := 1
  const EXTRA_TIME: nat := 0x5455

  /** What the central directory says of an entry. */
  datatype Record = Record(
    name: bytes, flags: nat, compression: nat, dosTime: nat, dosDate: nat, crc: nat,
    compressed: nat, uncompressed: nat, offset: nat, externalAttrs: nat, unixTime: Option<nat>, zip64Sizes: bool)

  function TimeExtra(r: Record): (s: bytes)
    ensures |s| == if r.unixTime.None? then 0 else 9
  {
    if r.unixTime.None? then [] else LE(EXTRA_TIME, 2) + LE(5, 2) + [1] + LE(r.unixTime.value, 4)
  }

  const LOCAL_WIDTHS: seq<nat> := [4, 2, 2, 2, 2, 2, 4, 4, 4, 2, 2]

  /** The local ZIP64 extra holds zeros: the sizes follow the data. */
  function LocalZip64(r: Record): (s: bytes)
    ensures |s| == if r.zip64Sizes then 20 else 0
  {
    if r.zip64Sizes then LE(EXTRA_ZIP64, 2) + LE(16, 2) + LE(0, 8) + LE(0, 8) else []
  }

  function LocalExtra(r: Record): bytes
  {
    LocalZip64(r) + TimeExtra(r)
  }

  function LocalValues(r: Record): (v: seq<nat>)
    ensures |v| == |LOCAL_WIDTHS|
  {
    var size := if r.zip64Sizes then MAX32 else 0;
    [SIG_LOCAL, if r.zip64Sizes then VERSION_ZIP64 else VERSION_DEFAULT, r.flags, r.compression, r.dosTime, r.dosDate,
     0, size, size, |r.name|, |LocalExtra(r)|]
  }

  function LocalHeader(r: Record): bytes
  {
    Pack(LocalValues(r), LOCAL_WIDTHS, 0) + r.name + LocalExtra(r)
  }

  const DESCRIPTOR_WIDTHS: seq<nat> := [4, 4, 4, 4]
  const DESCRIPTOR64_WIDTHS: seq<nat> := [4, 4, 8, 8]

  function DescriptorWidths(zip64: bool): (w: seq<nat>)
    ensures |w| == 4
  {
    if zip64 then DESCRIPTOR64_WIDTHS else DESCRIPTOR_WIDTHS
  }

  function Descriptor(r: Record): bytes
  {
    Pack([SIG_DESCRIPTOR, r.crc, r.compressed, r.uncompressed], DescriptorWidths(r.zip64Sizes), 0)
  }

  /** The values the central ZIP64 extra carries, in their order. */
  function Big(r: Record): seq<nat>
  {
    (if r.zip64Sizes then [r.uncompressed, r.compressed] else []) + (if r.offset >= MAX32 then [r.offset] else [])
  }

  function Longs(values: seq<nat>): (s: bytes)
    ensures |s| == 8 * |values|
  {
    if values == [] then [] else LE(values[0], 8) + Longs(values[1..])
  }

  function CentralZip64(r: Record): (s: bytes)
    ensures |s| == if Big(r) == [] then 0 else 4 + 8 * |Big(r)|
  {
    if Big(r) == [] then [] else LE(EXTRA_ZIP64, 2) + LE(8 * |Big(r)|, 2) + Longs(Big(r))
  }

  function CentralExtra(r: Record): bytes
  {
    CentralZip64(r) + TimeExtra(r)
  }

  const CENTRAL_WIDTHS: seq<nat> := [4, 2, 2, 2, 2, 2, 2, 4, 4, 4, 2, 2, 2, 2, 2, 4, 4]

  function CentralValues(r: Record): (v: seq<nat>)
    ensures |v| == |CENTRAL_WIDTHS|
  {
    [SIG_CENTRAL, MADE_BY, if Big(r) != [] then VERSION_ZIP64 else VERSION_DEFAULT,
     r.flags, r.compression, r.dosTime, r.dosDate, r.crc,
     if r.zip64Sizes then MAX32 else r.compressed, if r.zip64Sizes then MAX32 else r.uncompressed,
     |r.name|, |CentralExtra(r)|, 0, 0, 0, r.externalAttrs, if r.offset >= MAX32 then MAX32 else r.offset]
  }

  function CentralHeader(r: Record): bytes
  {
    Pack(CentralValues(r), CENTRAL_WIDTHS, 0) + r.name + CentralExtra(r)
  }

  const ZIP64_END_WIDTHS: seq<nat> := [4, 8, 2, 2, 4, 4, 8, 8, 8, 8]
  const LOCATOR_WIDTHS: seq<nat> := [4, 4, 8, 4]
  const END_WIDTHS: seq<nat> := [4, 2, 2, 2, 2, 4, 4, 2]

  function Min(a: nat, b: nat): nat
  {
    if a <= b then a else b
  }

  /** Where the central directory lies. */
  datatype Directory = Directory(count: nat, start: nat, size: nat)

  predicate NeedsZip64(d: Directory)
  {
    d.count >= MAX16 || d.start >= MAX32 || d.size >= MAX32
  }

  function Zip64EndValues(d: Directory): (v: seq<nat>)
    ensures |v| == |ZIP64_END_WIDTHS|
  {
    [SIG_ZIP64_END, 44, MADE_BY, VERSION_ZIP64, 0, 0, d.count, d.count, d.size, d.start]
  }

  function Zip64End(d: Directory): bytes
  {
    Pack(Zip64EndValues(d), ZIP64_END_WIDTHS, 0)
  }

  function LocatorValues(d: Directory): (v: seq<nat>)
    ensures |v| == |LOCATOR_WIDTHS|
  {
    [SIG_ZIP64_LOCATOR, 0, d.start + d.size, 1]
  }

  function Locator(d: Directory): bytes
  {
    Pack(LocatorValues(d), LOCATOR_WIDTHS, 0)
  }

  function EndValues(d: Directory): (v: seq<nat>)
    ensures |v| == |END_WIDTHS|
  {
    [SIG_END, 0, 0, Min(d.count, MAX16), Min(d.count, MAX16), Min(d.size, MAX32), Min(d.start, MAX32), 0]
  }

  function End(d: Directory): bytes
  {
    Pack(EndValues(d), END_WIDTHS, 0)
  }

  function EndRecords(d: Directory): bytes
  {
    (if NeedsZip64(d) then Zip64End(d) + Locator(d) else []) + End(d)
  }

  lemma WidthSums()
    ensures Offset(LOCAL_WIDTHS, 11) == 30 && Offset(CENTRAL_WIDTHS, 17) == 46
    ensures Offset(DESCRIPTOR_WIDTHS, 4) == 16 && Offset(DESCRIPTOR64_WIDTHS, 4) == 24
    ensures Offset(ZIP64_END_WIDTHS, 10) == 56 && Offset(LOCATOR_WIDTHS, 4) == 20 && Offset(END_WIDTHS, 8) == 22
  {
    assert Offset(LOCAL_WIDTHS, 5) == 12;
    assert Offset(CENTRAL_WIDTHS, 4) == 10;
    assert Offset(CENTRAL_WIDTHS, 8) == 20;
    assert Offset(CENTRAL_WIDTHS, 12) == 32;
    assert Offset(ZIP64_END_WIDTHS, 5) == 20;
    assert Offset(END_WIDTHS, 4) == 10;
  }

  lemma Lengths(r: Record, d: Directory)
    ensures |Pack(LocalValues(r), LOCAL_WIDTHS, 0)| == 30
    ensures |Pack(CentralValues(r), CENTRAL_WIDTHS, 0)| == 46
    ensures |Descriptor(r)| == if r.zip64Sizes then 24 else 16
    ensures |Zip64End(d)| == 56 && |Locator(d)| == 20 && |End(d)| == 22
  {
    hide LocalValues, CentralValues, Zip64EndValues, LocatorValues, EndValues, Pack;
    WidthSums();
    PackLength(LocalValues(r), LOCAL_WIDTHS, 0);
    PackLength(CentralValues(r), CENTRAL_WIDTHS, 0);
    PackLength([SIG_DESCRIPTOR, r.crc, r.compressed, r.uncompressed], DescriptorWidths(r.zip64Sizes), 0);
    PackLength(Zip64EndValues(d), ZIP64_END_WIDTHS, 0);
    PackLength(LocatorValues(d), LOCATOR_WIDTHS, 0);
    PackLength(EndValues(d), END_WIDTHS, 0);
  }
}
