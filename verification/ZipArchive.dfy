/** Whole archives: what the writer emits, and that the reader gets every entry back from it. */
module ZipArchive {
  import opened Bytes
  import opened ZipFormat
  import opened ZipReader
  import opened ZipProofs
  import Crc

  // ── Pieces in a row ────────────────────────────────────────────────────────

  function Cat(pieces: seq<bytes>): bytes
  {
    if pieces == [] then [] else Cat(pieces[..|pieces| - 1]) + pieces[|pieces| - 1]
  }

  lemma {:induction false} CatAt(pieces: seq<bytes>, k: nat) returns (tail: bytes)
    requires k < |pieces|
    ensures Cat(pieces) == Cat(pieces[..k]) + pieces[k] + tail
    ensures Cat(pieces[..k + 1]) == Cat(pieces[..k]) + pieces[k]
    decreases |pieces|
  {
    assert pieces[..k + 1] == pieces[..k] + [pieces[k]];
    if k == |pieces| - 1 {
      tail := [];
    } else {
      var init := pieces[..|pieces| - 1];
      var some := CatAt(init, k);
      assert init[..k] == pieces[..k];
      tail := some + pieces[|pieces| - 1];
    }
  }

  function EntryPieces(es: seq<Entry>): (s: seq<bytes>)
    ensures |s| == |es|
  {
    seq(|es|, i requires 0 <= i < |es| => EntryBytes(es[i]))
  }

  function CentralPieces(es: seq<Entry>): (s: seq<bytes>)
    ensures |s| == |es|
  {
    seq(|es|, i requires 0 <= i < |es| => CentralHeader(es[i].record))
  }

  /** Every entry is well formed and starts where the ones before it end. */
  predicate IsLaidOut(codec: Codec, es: seq<Entry>)
  {
    forall i :: 0 <= i < |es| ==> IsEntry(codec, es[i]) && es[i].record.offset == |Cat(EntryPieces(es)[..i])|
  }

  function DirectoryOf(es: seq<Entry>): Directory
  {
    Directory(|es|, |Cat(EntryPieces(es))|, |Cat(CentralPieces(es))|)
  }

  function BeforeEndRecords(es: seq<Entry>): bytes
  {
    Cat(EntryPieces(es)) + Cat(CentralPieces(es))
  }

  function Archive(es: seq<Entry>): bytes
  {
    Cat(EntryPieces(es)) + Cat(CentralPieces(es)) + EndRecords(DirectoryOf(es))
  }

  // ── The end records ────────────────────────────────────────────────────────

  /** The four bytes 20 before the end record, where a reader looks for a ZIP64 locator. */
  predicate HasFakeLocator(s: bytes)
  {
    |s| >= 20 && U(s, |s| - 20, 4) == SIG_ZIP64_LOCATOR
  }

  predicate DirectoryFits(d: Directory)
  {
    d.count <= MAX64 && d.start <= MAX64 && d.size <= MAX64 && d.start + d.size <= MAX64
  }

  lemma EndOffsets()
    ensures var w, z, l := END_WIDTHS, ZIP64_END_WIDTHS, LOCATOR_WIDTHS;
            && Offset(w, 0) == 0 && Offset(w, 4) == 10 && Offset(w, 5) == 12 && Offset(w, 6) == 16
            && Offset(z, 0) == 0 && Offset(z, 6) == 24 && Offset(z, 7) == 32 && Offset(z, 8) == 40 && Offset(z, 9) == 48
            && Offset(l, 0) == 0 && Offset(l, 2) == 8
  {
  }

  lemma EndValuesFit(d: Directory, i: nat)
    requires DirectoryFits(d)
    ensures i < 8 ==> EndValues(d)[i] < Pow256(END_WIDTHS[i])
    ensures i < 10 ==> Zip64EndValues(d)[i] < Pow256(ZIP64_END_WIDTHS[i])
    ensures i < 4 ==> LocatorValues(d)[i] < Pow256(LOCATOR_WIDTHS[i])
  {
    Powers();
    hide Pow256;
  }

  lemma EndField(a: bytes, d: Directory, i: nat)
    requires DirectoryFits(d) && i < 8
    ensures Field(a + End(d), |a| + Offset(END_WIDTHS, i), END_WIDTHS[i]) == Some(EndValues(d)[i])
  {
    hide Pack, Field, Offset, Pow256, EndValues, DirectoryFits;
    EndValuesFit(d, i);
    FieldIsRead(a, EndValues(d), END_WIDTHS, [], i);
    assert a + End(d) + [] == a + End(d);
  }

  lemma EndFields(a: bytes, d: Directory)
    requires DirectoryFits(d)
    ensures var buf, p := a + End(d), |a|;
            && |buf| == p + 22 && Field(buf, p, 4) == Some(SIG_END) && Field(buf, p + 10, 2) == Some(Min(d.count, MAX16))
            && Field(buf, p + 12, 4) == Some(Min(d.size, MAX32)) && Field(buf, p + 16, 4) == Some(Min(d.start, MAX32))
  {
    hide End, Field, Offset, DirectoryFits;
    Lengths(Record([], 0, 0, 0, 0, 0, 0, 0, 0, 0, None, false), d);
    EndOffsets();
    EndField(a, d, 0);
    EndField(a, d, 4);
    EndField(a, d, 5);
    EndField(a, d, 6);
  }

  lemma Zip64EndField(a: bytes, d: Directory, c: bytes, i: nat)
    requires DirectoryFits(d) && i < 10
    ensures Field(a + Zip64End(d) + c, |a| + Offset(ZIP64_END_WIDTHS, i), ZIP64_END_WIDTHS[i]) == Some(Zip64EndValues(d)[i])
  {
    hide Pack, Field, Offset, Pow256, Zip64EndValues, DirectoryFits;
    EndValuesFit(d, i);
    FieldIsRead(a, Zip64EndValues(d), ZIP64_END_WIDTHS, c, i);
  }

  lemma Zip64EndFields(a: bytes, d: Directory, c: bytes)
    requires DirectoryFits(d)
    ensures var buf, p := a + Zip64End(d) + c, |a|;
            && |buf| == p + 56 + |c| && Field(buf, p, 4) == Some(SIG_ZIP64_END)
            && Field(buf, p + 24, 8) == Some(d.count) && Field(buf, p + 32, 8) == Some(d.count)
            && Field(buf, p + 40, 8) == Some(d.size) && Field(buf, p + 48, 8) == Some(d.start)
  {
    hide Zip64End, Field, Offset, DirectoryFits;
    Lengths(Record([], 0, 0, 0, 0, 0, 0, 0, 0, 0, None, false), d);
    EndOffsets();
    Zip64EndField(a, d, c, 0);
    Zip64EndField(a, d, c, 6);
    Zip64EndField(a, d, c, 7);
    Zip64EndField(a, d, c, 8);
    Zip64EndField(a, d, c, 9);
  }

  lemma LocatorField(a: bytes, d: Directory, c: bytes, i: nat)
    requires DirectoryFits(d) && i < 4
    ensures Field(a + Locator(d) + c, |a| + Offset(LOCATOR_WIDTHS, i), LOCATOR_WIDTHS[i]) == Some(LocatorValues(d)[i])
  {
    hide Pack, Field, Offset, Pow256, LocatorValues, DirectoryFits;
    EndValuesFit(d, i);
    FieldIsRead(a, LocatorValues(d), LOCATOR_WIDTHS, c, i);
  }

  lemma LocatorFields(a: bytes, d: Directory, c: bytes)
    requires DirectoryFits(d)
    ensures var buf, p := a + Locator(d) + c, |a|;
            && |buf| == p + 20 + |c| && Field(buf, p, 4) == Some(SIG_ZIP64_LOCATOR)
            && Field(buf, p + 8, 8) == Some(d.start + d.size)
  {
    hide Locator, Field, Offset, DirectoryFits;
    Lengths(Record([], 0, 0, 0, 0, 0, 0, 0, 0, 0, None, false), d);
    EndOffsets();
    LocatorField(a, d, c, 0);
    LocatorField(a, d, c, 2);
  }

  lemma BeforeEnd(a: bytes, end: bytes)
    requires |end| == 22 && |a| >= 20
    ensures U(a + end, |a| - 20, 4) == U(a, |a| - 20, 4)
  {
    SlicedEarlier(a, end, |a| - 20, |a| - 16);
  }

  /** The end records of a directory that lies right before them, with ZIP64 where it is needed. */
  lemma DirectoryIsReadBack(a: bytes, d: Directory)
    requires DirectoryFits(d) && d.start + d.size == |a|
    requires NeedsZip64(d) || !HasFakeLocator(a)
    ensures ReadDirectory(a + EndRecords(d)) == Some(DirectoryRead(d, NeedsZip64(d)))
  {
    if NeedsZip64(d) {
      Zip64DirectoryIsReadBack(a, d);
    } else {
      ShortDirectoryIsReadBack(a, d);
    }
  }

  lemma ShortDirectoryIsReadBack(a: bytes, d: Directory)
    requires DirectoryFits(d) && d.start + d.size == |a| && !NeedsZip64(d) && !HasFakeLocator(a)
    ensures ReadDirectory(a + EndRecords(d)) == Some(DirectoryRead(d, false))
  {
    hide Pack, End, FromLE;
    var buf := a + EndRecords(d);
    assert buf == a + End(d);
    EndFields(a, d);
    if |a| >= 20 {
      BeforeEnd(a, End(d));
    }
  }

  lemma Zip64DirectoryIsReadBack(a: bytes, d: Directory)
    requires DirectoryFits(d) && d.start + d.size == |a| && NeedsZip64(d)
    ensures ReadDirectory(a + EndRecords(d)) == Some(DirectoryRead(d, true))
  {
    hide Pack, End, Zip64End, Locator, FromLE;
    var buf := a + EndRecords(d);
    assert buf == (a + Zip64End(d) + Locator(d)) + End(d);
    EndFields(a + Zip64End(d) + Locator(d), d);
    assert buf == (a + Zip64End(d)) + Locator(d) + End(d);
    LocatorFields(a + Zip64End(d), d, End(d));
    assert buf == a + Zip64End(d) + (Locator(d) + End(d));
    Zip64EndFields(a, d, Locator(d) + End(d));
  }

  // ── The entries ────────────────────────────────────────────────────────────

  function CentralsOf(es: seq<Entry>): (s: seq<Central>)
    ensures |s| == |es|
  {
    seq(|es|, i requires 0 <= i < |es| => CentralOf(es[i].record))
  }

  function FilesOf(es: seq<Entry>): (s: seq<File>)
    ensures |s| == |es|
  {
    seq(|es|, i requires 0 <= i < |es| => File(CentralOf(es[i].record), es[i].content))
  }

  /** The reader's loop over the central headers, from the `k`-th on. */
  lemma {:induction false} CentralsAreReadBack(codec: Codec, es: seq<Entry>, k: nat, a: bytes, c: bytes)
    requires IsLaidOut(codec, es) && k <= |es|
    ensures var buf := a + Cat(CentralPieces(es)) + c;
            ReadEntries(buf, |a| + |Cat(CentralPieces(es)[..k])|, |es| - k, CentralsOf(es)[..k])
              == Some(EntriesRead(CentralsOf(es), |a| + |Cat(CentralPieces(es))|))
    decreases |es| - k
  {
    hide CentralHeader, ReadEntry, IsEntry, CentralOf, Cat;
    var pieces := CentralPieces(es);
    var buf := a + Cat(pieces) + c;
    if k == |es| {
      assert pieces[..k] == pieces && CentralsOf(es)[..k] == CentralsOf(es);
    } else {
      var tail := CatAt(pieces, k);
      var before := a + Cat(pieces[..k]);
      assert buf == before + pieces[k] + (tail + c);
      EntryFits(codec, es[k]);
      CentralIsReadBack(before, es[k].record, tail + c);
      assert CentralsOf(es)[..k] + [CentralOf(es[k].record)] == CentralsOf(es)[..k + 1];
      CentralsAreReadBack(codec, es, k + 1, a, c);
    }
  }

  lemma EntryFits(codec: Codec, e: Entry)
    requires IsEntry(codec, e)
    ensures Fits(e.record)
  {
  }

  /** The reader's loop over the entries, from the `k`-th on. */
  lemma {:induction false} FilesAreReadBack(codec: Codec, es: seq<Entry>, k: nat, c: bytes)
    requires IsLaidOut(codec, es) && k <= |es|
    ensures var buf := Cat(EntryPieces(es)) + c;
            ReadFiles(codec, buf, CentralsOf(es), k, |Cat(EntryPieces(es)[..k])|, FilesOf(es)[..k])
              == Some(FilesRead(FilesOf(es), |Cat(EntryPieces(es))|))
    decreases |es| - k
  {
    hide EntryBytes, ReadLocal, IsEntry, Cat, Big;
    var pieces := EntryPieces(es);
    var buf := Cat(pieces) + c;
    if k == |es| {
      assert pieces[..k] == pieces && FilesOf(es)[..k] == FilesOf(es);
    } else {
      var tail := CatAt(pieces, k);
      var before := Cat(pieces[..k]);
      assert buf == before + pieces[k] + (tail + c);
      EntryIsReadBack(codec, before, es[k], tail + c);
      assert FilesOf(es)[..k] + [File(CentralOf(es[k].record), es[k].content)] == FilesOf(es)[..k + 1];
      FilesAreReadBack(codec, es, k + 1, c);
    }
  }

  /** The one thing in the way: a short end record that looks as if a ZIP64 locator were before it. */
  predicate IsMisleading(es: seq<Entry>)
  {
    !NeedsZip64(DirectoryOf(es)) && HasFakeLocator(BeforeEndRecords(es))
  }

  /**
   * An archive whose entries are laid out one after the other is accepted by the reader, which gets back
   * each name, method, CRC, sizes, offset, attributes, time and content, with the entries back to back and
   * the central directory right after them, through ZIP64 exactly where it is used; unless it is misleading.
   */
  lemma ArchiveIsReadBack(codec: Codec, es: seq<Entry>)
    requires IsLaidOut(codec, es) && DirectoryFits(DirectoryOf(es))
    ensures ReadZip(codec, Archive(es)) == Some(ZipRead(FilesOf(es), NeedsZip64(DirectoryOf(es)))) <==> !IsMisleading(es)
  {
    hide BeforeEndRecords, ReadZip, IsLaidOut, FilesOf, HasFakeLocator;
    if IsMisleading(es) {
      MisleadingIsMisread(codec, es);
    } else {
      OthersAreReadBack(codec, es);
    }
  }

  lemma OthersAreReadBack(codec: Codec, es: seq<Entry>)
    requires IsLaidOut(codec, es) && DirectoryFits(DirectoryOf(es)) && !IsMisleading(es)
    ensures ReadZip(codec, Archive(es)) == Some(ZipRead(FilesOf(es), NeedsZip64(DirectoryOf(es))))
  {
    hide CentralPieces, EntryPieces, ReadDirectory, ReadEntries, ReadFiles, EndRecords, IsLaidOut, NeedsZip64, Cat,
         HasFakeLocator, CentralsOf, FilesOf;
    var d := DirectoryOf(es);
    var a, b := Cat(EntryPieces(es)), Cat(CentralPieces(es));
    DirectoryIsReadBack(a + b, d);
    CentralsAreReadBack(codec, es, 0, a, EndRecords(d));
    FilesAreReadBack(codec, es, 0, b + EndRecords(d));
    assert Archive(es) == a + (b + EndRecords(d));
    NothingYet(es);
  }

  lemma NothingYet(es: seq<Entry>)
    ensures Cat(CentralPieces(es)[..0]) == [] && Cat(EntryPieces(es)[..0]) == []
    ensures CentralsOf(es)[..0] == [] && FilesOf(es)[..0] == []
  {
  }

  /** The end of a misleading archive, as the reader looks at it. */
  lemma MisleadingEnd(es: seq<Entry>)
    requires DirectoryFits(DirectoryOf(es)) && IsMisleading(es)
    ensures var s, buf := BeforeEndRecords(es), Archive(es);
            && |s| >= 20 && |buf| == |s| + 22 && Field(buf, |s|, 4) == Some(SIG_END)
            && U(buf, |s| - 20, 4) == SIG_ZIP64_LOCATOR && U(buf, |s| - 12, 8) == U(s, |s| - 12, 8)
  {
    hide Pack, End, FromLE, Cat, CentralPieces, EntryPieces;
    var d := DirectoryOf(es);
    var s := BeforeEndRecords(es);
    EndFields(s, d);
    assert Archive(es) == s + End(d);
    BeforeEnd(s, End(d));
    SlicedEarlier(s, End(d), |s| - 12, |s| - 4);
  }

  /** The reader takes its ZIP64 branch: it refuses the archive, or says what is not so. */
  lemma MisleadingIsMisread(codec: Codec, es: seq<Entry>)
    requires DirectoryFits(DirectoryOf(es)) && IsMisleading(es)
    ensures match ReadZip(codec, Archive(es)) case None => true case Some(z) => z.zip64End
  {
    hide Archive, BeforeEndRecords, ReadEntries, ReadFiles, ReadDirectory, IsMisleading;
    MisleadingDirectory(es);
  }

  lemma MisleadingDirectory(es: seq<Entry>)
    requires DirectoryFits(DirectoryOf(es)) && IsMisleading(es)
    ensures match ReadDirectory(Archive(es)) case None => true case Some(r) => r.zip64End
  {
    hide Archive, BeforeEndRecords, Field, U, ReadZip64End, IsMisleading, DirectoryFits, DirectoryOf;
    MisleadingEnd(es);
  }

  /** If what it takes for the locator points outside, it refuses the archive. */
  lemma PointingOutsideIsRefused(codec: Codec, es: seq<Entry>)
    requires DirectoryFits(DirectoryOf(es)) && IsMisleading(es)
    requires var s := BeforeEndRecords(es); |s| >= 20 && U(s, |s| - 12, 8) > |s| + 22
    ensures ReadZip(codec, Archive(es)).None?
  {
    hide Archive, BeforeEndRecords, ReadEntries, ReadFiles, U, FromLE, IsMisleading;
    MisleadingEnd(es);
    var buf := Archive(es);
    assert ReadZip64End(buf, |buf| - 42).None?;
    assert ReadDirectory(buf).None?;
  }
}
