/**
 * The streaming tar writer: headers with a PAX record where ustar cannot hold a name, link, size or
 * time, data padded to its announced size, and what a reader gets back from it.
 */
module TarWriter {
  import opened Bytes
  import opened Digits
  import opened Pax
  import opened TarHeader
  import P = TarPaths
  import opened TarRelay
  import opened TarRelaySafety

  /** `PaxHeader/` */
  const PAX_FOLDER: text := [80, 97, 120, 72, 101, 97, 100, 101, 114, 47]

  function SignedDecimal(v: int): text
  {
    if v < 0 then [45] + Decimal(-v) else Decimal(v)
  }

  function PathRecord(f: Fields): seq<Pax.Record>
  {
    if FitsUstar(f.name) then [] else [Pax.Record(PATH, f.name)]
  }

  function LinkRecord(f: Fields): seq<Pax.Record>
  {
    if f.link.Some? && !FitsUstar(f.link.value) then [Pax.Record(LINKPATH, f.link.value)] else []
  }

  function SizeRecord(f: Fields): seq<Pax.Record>
  {
    if f.size > MAX_OCTAL_11 then [Pax.Record(SIZE, Decimal(f.size))] else []
  }

  function MtimeRecord(f: Fields): seq<Pax.Record>
  {
    if f.mtime.Some? && FitsOctal(f.mtime.value) then []
    else [Pax.Record(MTIME, SignedDecimal(if f.mtime.Some? then f.mtime.value else 0))]
  }

  /** The fields ustar cannot hold, in the order they are recorded. */
  function PaxOf(f: Fields): seq<Pax.Record>
  {
    PathRecord(f) + (LinkRecord(f) + (SizeRecord(f) + MtimeRecord(f)))
  }

  /** The header of the PAX record block itself. */
  function PaxFields(f: Fields, size: nat): Fields
  {
    Fields(PAX_FOLDER + AsciiName(f.name), TYPE_PAX, size, f.mode, f.mtime, None)
  }

  function PreambleBytes(f: Fields): text
  {
    if PaxOf(f) == [] then []
    else
      var body := Records(PaxOf(f));
      UstarBlock(PaxFields(f, |body|)) + Filled(body)
  }

  function Cut(data: text, size: nat): (s: text)
    ensures |s| <= size
  {
    if |data| <= size then data else data[..size]
  }

  /** Data cut or filled with zeros to the announced size. */
  function Sized(data: text, size: nat): (s: text)
    ensures |s| == size
  {
    Cut(data, size) + Zeros(size - |Cut(data, size)|)
  }

  function EntryBytes(f: Fields, data: text): text
  {
    PreambleBytes(f) + UstarBlock(f) + Filled(Sized(data, f.size))
  }

  class TarWriter {
    var sink: seq<byte>

    constructor ()
      ensures sink == []
    {
      sink := [];
    }

    method Header(f: Fields)
      modifies this
      ensures sink == old(sink) + PreambleBytes(f) + UstarBlock(f)
    {
      hide PaxFields, PaxOf, WholeBlocks, AsciiName;
      var pax := PaxOf(f);
      if pax != [] {
        var body := Records(pax);
        var h := UstarHeader(PaxFields(f, |body|));
        sink := sink + h[..] + body + Zeros(WholeBlocks(|body|) - |body|);
      }
      var h := UstarHeader(f);
      sink := sink + h[..];
    }

    method AddDirectory(name: text, mode: nat, mtime: Option<int>)
      modifies this
      ensures sink == old(sink) + EntryBytes(Fields(name, TYPE_DIR, 0, mode, mtime, None), [])
      ensures |PreambleBytes(Fields(name, TYPE_DIR, 0, mode, mtime, None))| <= MAX_PREAMBLE_BYTES ==>
                Adds(old(sink), sink, name, 53, 0, [], [])
    {
      hide PreambleBytes, UstarBlock, Adds;
      Header(Fields(name, TYPE_DIR, 0, mode, mtime, None));
      assert Filled(Sized([], 0)) == [];
      EntryAdds(old(sink), Fields(name, TYPE_DIR, 0, mode, mtime, None), []);
    }

    method AddSymlink(name: text, target: text, mode: nat, mtime: Option<int>)
      modifies this
      ensures sink == old(sink) + EntryBytes(Fields(name, TYPE_SYMLINK, 0, mode, mtime, Some(target)), [])
      ensures |PreambleBytes(Fields(name, TYPE_SYMLINK, 0, mode, mtime, Some(target)))| <= MAX_PREAMBLE_BYTES ==>
                Adds(old(sink), sink, name, 50, 0, target, [])
    {
      hide PreambleBytes, UstarBlock, Adds;
      Header(Fields(name, TYPE_SYMLINK, 0, mode, mtime, Some(target)));
      assert Filled(Sized([], 0)) == [];
      EntryAdds(old(sink), Fields(name, TYPE_SYMLINK, 0, mode, mtime, Some(target)), []);
    }

    /** The chunks as far as they fit in `size`. */
    method Copy(size: nat, body: seq<seq<byte>>) returns (bytes: nat)
      modifies this
      ensures sink == old(sink) + Cut(Flat(body), size) && bytes == |Cut(Flat(body), size)|
    {
      hide Cut;
      ghost var start := sink;
      ghost var done: text := [];
      bytes := 0;
      var i := 0;
      assert body[0..] == body && done + Flat(body) == Flat(body);
      while i < |body|
        invariant 0 <= i <= |body| && bytes == |done| <= size && sink == start + done
        invariant Cut(done + Flat(body[i..]), size) == Cut(Flat(body), size)
      {
        var chunk := body[i];
        var take := if |chunk| > size - bytes then chunk[..size - bytes] else chunk;
        Taken(done, chunk, Flat(body[i + 1..]), size);
        assert body[i..][1..] == body[i + 1..];
        bytes := bytes + |take|;
        sink := sink + take;
        done := done + take;
        i := i + 1;
      }
      assert done + Flat(body[i..]) == done;
      CutShort(done, size);
    }

    /** The file's bytes as far as they go, never past `size`, then zeros up to it and to a whole block. */
    method AddFile(name: text, mode: nat, mtime: Option<int>, size: nat, body: seq<seq<byte>>) returns (bytes: nat)
      modifies this
      ensures bytes == |Cut(Flat(body), size)|
      ensures sink == old(sink) + EntryBytes(Fields(name, TYPE_FILE, size, mode, mtime, None), Flat(body))
      ensures size <= MAX_SAFE && |PreambleBytes(Fields(name, TYPE_FILE, size, mode, mtime, None))| <= MAX_PREAMBLE_BYTES ==>
                Adds(old(sink), sink, name, 48, size, [], Flat(body))
    {
      hide PreambleBytes, UstarBlock, Cut, Flat, Adds;
      Header(Fields(name, TYPE_FILE, size, mode, mtime, None));
      ghost var start := sink;
      bytes := Copy(size, body);
      sink := sink + Zeros(size - bytes);
      assert sink == start + Sized(Flat(body), size);
      sink := sink + Zeros(WholeBlocks(size) - size);
      assert sink == start + Filled(Sized(Flat(body), size));
      if size <= MAX_SAFE {
        EntryAdds(old(sink), Fields(name, TYPE_FILE, size, mode, mtime, None), Flat(body));
      }
    }

    method Finish()
      modifies this
      ensures sink == old(sink) + Zeros(1024)
    {
      sink := sink + Zeros(1024);
    }
  }

  /**
   * One member was appended that reads back whole, with this name, type, size and link and with the data
   * given, cut at its size, or filled with zeros up to it and to whole blocks.
   */
  ghost predicate Adds(before: text, after: text, name: text, typ: byte, size: nat, link: text, data: text)
  {
    exists i: Item :: IsWhole(Reader(), i) && after == before + ItemBytes(i) && IsOf(i, name, typ, size, link, data)
  }

  predicate IsOf(i: Item, name: text, typ: byte, size: nat, link: text, data: text)
  {
    && i.member.name == name && i.member.typ == typ && i.member.size == size && i.member.link == link && |i.body| >= size
    && forall k :: 0 <= k < |i.body| ==> i.body[k] == if k < size && k < |data| then data[k] else 0
  }

  lemma EntryAdds(before: text, f: Fields, data: text)
    requires f.typ != 0 && !IsRecord(f.typ) && f.size <= MAX_SAFE
    ensures |PreambleBytes(f)| <= MAX_PREAMBLE_BYTES ==>
      Adds(before, before + EntryBytes(f, data), f.name, f.typ, f.size, if f.link.Some? then f.link.value else [], data)
  {
    if |PreambleBytes(f)| <= MAX_PREAMBLE_BYTES {
      var i := EntryItem(f, data);
      EntryIsReadBack(f, data);
      EntryIsOf(f, data);
      hide EntryBytes, EntryItem, ItemBytes, IsWhole, IsOf, PreambleBytes;
    }
  }

  lemma EntryIsOf(f: Fields, data: text)
    ensures IsOf(EntryItem(f, data), f.name, f.typ, f.size, if f.link.Some? then f.link.value else [], data)
  {
    hide PreambleBytes, UstarBlock, WholeBlocks;
  }

  lemma CutShort(data: text, size: nat)
    ensures |data| <= size ==> Cut(data, size) == data
  {
  }

  lemma Taken(done: text, chunk: text, rest: text, size: nat)
    requires |done| <= size
    ensures var take := if |chunk| > size - |done| then chunk[..size - |done|] else chunk;
            Cut(done + take + rest, size) == Cut(done + (chunk + rest), size) && |done + take| <= size
  {
  }

  // ── What a reader gets back ────────────────────────────────────────────────

  /** The item an entry is read back as. */
  function EntryItem(f: Fields, data: text): Item
  {
    Item(Member(PreambleBytes(f), UstarBlock(f), f.name, if f.link.Some? then f.link.value else [], f.size, f.typ),
         Filled(Sized(data, f.size)))
  }

  /** What the PAX records say of an entry, read back as a map. */
  lemma PaxMeans(f: Fields)
    ensures var m := Meaning(map[], PaxOf(f));
            && (PATH in m <==> !FitsUstar(f.name)) && (PATH in m ==> m[PATH] == f.name)
            && (LINKPATH in m <==> f.link.Some? && !FitsUstar(f.link.value))
            && (LINKPATH in m ==> m[LINKPATH] == f.link.value)
            && (SIZE in m <==> f.size > MAX_OCTAL_11) && (SIZE in m ==> m[SIZE] == Decimal(f.size))
            && (MTIME in m <==> !(f.mtime.Some? && FitsOctal(f.mtime.value)))
            && (MTIME in m && f.mtime.Some? ==> m[MTIME] == SignedDecimal(f.mtime.value))
  {
    hide FitsUstar, Decimal, SignedDecimal, FitsOctal, IsKey, Meaning;
    var a, b, c, d := PathRecord(f), LinkRecord(f), SizeRecord(f), MtimeRecord(f);
    var none: map<text, text> := map[];
    OneMore(none, a, b + (c + d));
    OneMore(Meaning(none, a), b, c + d);
    OneMore(Meaning(Meaning(none, a), b), c, d);
    OneMore(Meaning(Meaning(Meaning(none, a), b), c), d, []);
    assert d + [] == d;
  }

  lemma OneMore(m: map<text, text>, a: seq<Pax.Record>, rest: seq<Pax.Record>)
    requires |a| <= 1
    ensures Meaning(m, a + rest) == Meaning(Meaning(m, a), rest)
    ensures Meaning(m, a) == if a == [] then m else m[a[0].key := a[0].value]
  {
    if a == [] {
      assert a + rest == rest;
    } else {
      assert (a + rest)[1..] == rest && a[1..] == [];
    }
  }

  lemma PaxKeys(f: Fields)
    ensures forall i :: 0 <= i < |PaxOf(f)| ==> IsKey(PaxOf(f)[i].key)
  {
  }

  /** The record block in front of an entry is learned whole. */
  lemma PreambleIsLearned(f: Fields)
    requires PaxOf(f) != [] && |PreambleBytes(f)| <= MAX_PREAMBLE_BYTES
    ensures OneHeader(ParseHeader, PreambleBytes(f) + UstarBlock(f), NO_PREAMBLE)
         == Described(Preamble(PreambleBytes(f), None, None, map[] + Meaning(map[], PaxOf(f))), UstarBlock(f))
  {
    var body := Records(PaxOf(f));
    var g := PaxFields(f, |body|);
    var b := UstarBlock(g);
    UstarIsReadBack(g);
    if IsZero(b) {
      ZeroHasNoHeader(b);
    }
    PaxKeys(f);
    RecordsAreReadBack(PaxOf(f), map[]);
    RecordBlock(ParseHeader, b, AsciiName(g.name), body, UstarBlock(f));
  }

  lemma RecordBlock(parse: Parser, b: Block, name: text, body: text, rest: text)
    requires parse(b) == Some(Header(name, TYPE_PAX, |body|, [])) && !IsZero(b)
    requires BLOCK + WholeBlocks(|body|) <= MAX_PREAMBLE_BYTES
    ensures OneHeader(parse, b + Filled(body) + rest, NO_PREAMBLE)
         == Described(Preamble(b + Filled(body), None, None, map[] + Parse(body)), rest)
  {
    var s := b + Filled(body) + rest;
    assert s[..BLOCK] == b && s[BLOCK..] == Filled(body) + rest;
    assert (Filled(body) + rest)[..WholeBlocks(|body|)] == Filled(body);
    assert (Filled(body) + rest)[WholeBlocks(|body|)..] == rest;
    assert [] + b + Filled(body) == b + Filled(body);
  }

  /** What an entry's own header and records together say. */
  lemma EntryMeans(f: Fields, p: Preamble)
    requires f.typ != 0 && f.size <= MAX_SAFE && p.longName.None? && p.longLink.None?
    requires p.pax == Meaning(map[], PaxOf(f))
    ensures var h := Header(AsciiName(f.name), f.typ, f.size, if f.link.Some? then AsciiName(f.link.value) else []);
            MemberOf(p, UstarBlock(f), h) == EntryItem(f, []).member.(held := p.held)
  {
    PaxMeans(f);
    DecimalIsReadBack(f.size);
  }

  lemma HeaderAlone(parse: Parser, b: Block, h: Header, p: Preamble)
    requires parse(b) == Some(h) && !IsZero(b) && !IsRecord(h.typ)
    ensures NextMember(parse, b, p) == Next(Found(MemberOf(p, b, h)), [])
  {
    assert b[..BLOCK] == b && b[BLOCK..] == [];
  }

  lemma AfterRecord(parse: Parser, s: text, p: Preamble, rest: text)
    requires OneHeader(parse, s, NO_PREAMBLE) == Described(p, rest)
    ensures NextMember(parse, s, NO_PREAMBLE) == NextMember(parse, rest, p)
  {
  }

  /**
   * Every entry the writer makes, whatever its name, link, size and time, is one whole member with
   * exactly that name, type, size and link, as long as its records stay within the relay's limit.
   */
  lemma EntryIsReadBack(f: Fields, data: text)
    requires f.typ != 0 && !IsRecord(f.typ) && f.size <= MAX_SAFE
    requires |PreambleBytes(f)| <= MAX_PREAMBLE_BYTES
    ensures EntryBytes(f, data) == ItemBytes(EntryItem(f, data))
    ensures IsWhole(Reader(), EntryItem(f, data))
  {
    hide UstarBlock, ReadNext, PreambleBytes, Sized;
    EntryIsNext(f, data);
    WholePreamble(f);
  }

  lemma WholePreamble(f: Fields)
    ensures |PreambleBytes(f)| % BLOCK == 0
  {
    hide UstarBlock, Records, PaxOf, PaxFields;
  }

  lemma EntryIsNext(f: Fields, data: text)
    requires f.typ != 0 && !IsRecord(f.typ) && f.size <= MAX_SAFE
    requires |PreambleBytes(f)| <= MAX_PREAMBLE_BYTES
    ensures ReadNext(PreambleBytes(f) + UstarBlock(f)) == Next(Found(EntryItem(f, data).member), [])
  {
    hide UstarBlock, ParseHeader, NextMember, OneHeader, MemberOf, Records, AsciiName, PaxOf, WholeBlocks, Sized, Filled;
    var b := UstarBlock(f);
    var h := Header(AsciiName(f.name), f.typ, f.size, if f.link.Some? then AsciiName(f.link.value) else []);
    UstarIsReadBack(f);
    if IsZero(b) {
      ZeroHasNoHeader(b);
    }
    if PaxOf(f) == [] {
      EntryMeans(f, NO_PREAMBLE);
      HeaderAlone(ParseHeader, b, h, NO_PREAMBLE);
      assert [] + b == b;
    } else {
      var p := Preamble(PreambleBytes(f), None, None, Meaning(map[], PaxOf(f)));
      assert map[] + p.pax == p.pax;
      PreambleIsLearned(f);
      EntryMeans(f, p);
      HeaderAlone(ParseHeader, b, h, p);
      AfterRecord(ParseHeader, PreambleBytes(f) + b, p, b);
    }
  }

  /** The bound is exact: with longer records the relay refuses the entry. */
  lemma LongerRecordsAreRefused(f: Fields, data: text)
    requires f.size <= MAX_SAFE && MAX_PREAMBLE_BYTES < |PreambleBytes(f)| <= MAX_SAFE
    ensures ReadNext(EntryBytes(f, data)).read == Oversized
  {
    hide UstarBlock, ParseHeader, Records, PaxOf, NextMember, OneHeader, Filled, Sized, AsciiName;
    var body := Records(PaxOf(f));
    var g := PaxFields(f, |body|);
    var b := UstarBlock(g);
    UstarIsReadBack(g);
    if IsZero(b) {
      ZeroHasNoHeader(b);
    }
    FirstOfFour(b, Filled(body), UstarBlock(f), Filled(Sized(data, f.size)));
    TooLong(ParseHeader, b, AsciiName(g.name), |body|, Filled(body) + UstarBlock(f) + Filled(Sized(data, f.size)));
  }

  lemma FirstOfFour(a: text, b: text, c: text, d: text)
    ensures a + b + c + d == a + (b + c + d)
  {
  }

  lemma TooLong(parse: Parser, b: Block, name: text, size: nat, rest: text)
    requires parse(b) == Some(Header(name, TYPE_PAX, size, [])) && !IsZero(b)
    requires BLOCK + WholeBlocks(size) > MAX_PREAMBLE_BYTES
    ensures NextMember(parse, b + rest, NO_PREAMBLE).read == Oversized
  {
    assert (b + rest)[..BLOCK] == b;
  }

  // ── What the byte limit of the relay does not count ────────────────────────

  /** A folder `d` whose header announces a body. */
  function FolderWithBody(size: nat): Fields
  {
    Fields([100], TYPE_DIR, size, 493, Some(0), None)
  }

  lemma FolderCounts(i: Item)
    requires i.member.typ == TYPE_DIR
    ensures ContentOf([i]) == 0 && CountFiles([i]) == 0 && AllBytes([i]) == ItemBytes(i)
  {
    assert [i][..0] == [];
    assert [] + ItemBytes(i) == ItemBytes(i);
  }

  lemma FolderIsSafe(i: Item)
    requires i.member.typ == TYPE_DIR && P.IsTopName(i.member.name)
    ensures IsSafe([i], 0)
  {
    P.TopNameIsItsPath(i.member.name);
  }

  lemma FolderIsClean(i: Item, maxFiles: nat)
    requires i.member.typ == TYPE_DIR && P.IsTopName(i.member.name) && maxFiles > 0
    requires IsWhole(Reader(), i) && WithoutSetId(i.member.block) == i.member.block
    ensures IsClean(Reader(), [i], Limits(0, maxFiles))
  {
    FolderIsSafe(i);
    FolderCounts(i);
    hide Reader, IsWhole, WithoutSetId, IsSafe, ContentOf;
  }

  /** The body of a folder goes through whatever the byte limit is, and is not in the summary. */
  lemma FolderBodyIsNotCounted(data: text, maxFiles: nat, notes: Notes)
    requires |data| <= MAX_OCTAL_11 && maxFiles > 0
    ensures var archive := EntryBytes(FolderWithBody(|data|), data) + Zeros(1024);
            && |archive| >= BLOCK + |data| + 1024
            && Relayed(archive, Limits(0, maxFiles), Remote(true, []), notes) == Finished(archive, Summary(0, 0, 0, false))
  {
    hide *;
    var f := FolderWithBody(|data|);
    var i := EntryItem(f, data);
    FolderFields(|data|);
    FolderEntry(f, data);
    EntryIsReadBack(f, data);
    PlainModeIsKept(f);
    FolderCounts(i);
    FolderIsClean(i, maxFiles);
    CleanArchivesPass([i], Limits(0, maxFiles), notes);
  }

  lemma FolderFields(size: nat)
    requires size <= MAX_OCTAL_11
    ensures var f := FolderWithBody(size);
            && f.typ == TYPE_DIR && f.typ != 0 && !IsRecord(f.typ) && f.size == size <= MAX_SAFE && f.mode < 1024
            && P.IsTopName(f.name) && PaxOf(f) == []
  {
  }

  lemma FolderEntry(f: Fields, data: text)
    requires PaxOf(f) == [] && f.size == |data|
    ensures |PreambleBytes(f)| <= MAX_PREAMBLE_BYTES && |EntryBytes(f, data)| >= BLOCK + |data|
    ensures var m := EntryItem(f, data).member; m.typ == f.typ && m.name == f.name && m.block == UstarBlock(f)
  {
    hide UstarBlock, PaxOf;
    assert |Filled(Sized(data, f.size))| >= |data| by { hide Sized, Filled; }
  }

  datatype Entry = Entry(fields: Fields, data: text)

  predicate IsWritable(e: Entry)
  {
    && e.fields.typ != 0 && !IsRecord(e.fields.typ) && e.fields.size <= MAX_SAFE
    && |PreambleBytes(e.fields)| <= MAX_PREAMBLE_BYTES
  }

  function Archive(es: seq<Entry>): text
  {
    if es == [] then [] else Archive(es[..|es| - 1]) + EntryBytes(es[|es| - 1].fields, es[|es| - 1].data)
  }

  function ItemsFor(es: seq<Entry>): (items: seq<Item>)
    ensures |items| == |es|
  {
    if es == [] then [] else ItemsFor(es[..|es| - 1]) + [EntryItem(es[|es| - 1].fields, es[|es| - 1].data)]
  }

  lemma {:induction false} EntriesAreItems(es: seq<Entry>)
    requires forall i :: 0 <= i < |es| ==> IsWritable(es[i])
    ensures Archive(es) == AllBytes(ItemsFor(es)) && AllWhole(Reader(), ItemsFor(es))
    decreases |es|
  {
    hide Reader, IsWhole, UstarBlock, PreambleBytes, EntryBytes, ItemBytes, EntryItem;
    if es != [] {
      var last := es[|es| - 1];
      EntriesAreItems(es[..|es| - 1]);
      EntryIsReadBack(last.fields, last.data);
    }
  }

  /** Every archive the writer finishes is read back entry for entry. */
  lemma ArchiveRoundTrip(es: seq<Entry>)
    requires forall i :: 0 <= i < |es| ==> IsWritable(es[i])
    ensures Items(Reader(), Archive(es) + Zeros(1024)) == Some(ItemsFor(es))
  {
    hide *;
    EntriesAreItems(es);
    ReadNextIsLocal();
    ArchiveIsReadBack(Reader(), ParseHeader, ItemsFor(es));
  }
}
