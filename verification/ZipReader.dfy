/** An independent ZIP reader that checks every structure against the others; `None` stands for a throw. */
module ZipReader {
  import opened Bytes
  import opened ZipFormat

  /** CRC, inflate and deflate, as functions of their whole input. */
  datatype Codec = Codec(crc: bytes -> nat, inflate: bytes -> Option<bytes>, deflate: bytes -> bytes)

  /** `subarray(a, b)`: what there is of that range. */
  function Sub(buf: bytes, a: nat, b: nat): bytes
  {
    var hi := if b <= |buf| then b else |buf|;
    if a <= hi then buf[a..hi] else []
  }

  /** `parseExtras`, over the extra bytes that are left. */
  function ParseExtras(extra: bytes, m: map<nat, bytes>): map<nat, bytes>
    decreases |extra|
  {
    if |extra| < 4 then m
    else
      var id := FromLE(extra[..2]);
      var len := FromLE(extra[2..4]);
      ParseExtras(Sub(extra, 4 + len, |extra|), m[id := Sub(extra, 4, 4 + len)])
  }

  function Get(m: map<nat, bytes>, id: nat): Option<bytes>
  {
    if id in m then Some(m[id]) else None
  }

  /** One 32-bit field, or the next ZIP64 value where it is all ones. */
  datatype Resolved = Resolved(value: nat, used: nat)

  function Resolve(z: Option<bytes>, used: nat, v: nat): Option<Resolved>
  {
    if v != MAX32 then Some(Resolved(v, used))
    else if z.None? || used + 8 > |z.value| then None
    else Some(Resolved(FromLE(z.value[used..used + 8]), used + 8))
  }

  /** What the central directory says of an entry, as read. */
  datatype Central = Central(
    name: bytes, flags: nat, compression: nat, crc: nat, compressed: nat, uncompressed: nat, offset: nat,
    externalAttrs: nat, madeBy: nat, versionNeeded: nat, mtime: Option<nat>, zip64: bool)

  /** A value of a field that is known to be there. */
  function U(buf: bytes, p: nat, n: nat): nat
    requires p + n <= |buf|
  {
    FromLE(buf[p..p + n])
  }

  datatype EntryRead = EntryRead(central: Central, end: nat)

  function Sizes(z: Option<bytes>, uncompressed: nat, compressed: nat, offset: nat): Option<(nat, nat, nat)>
  {
    var u := Resolve(z, 0, uncompressed);
    if u.None? then None
    else
      var c := Resolve(z, u.value.used, compressed);
      if c.None? then None
      else
        var o := Resolve(z, c.value.used, offset);
        if o.None? || (z.Some? && o.value.used != |z.value|) then None
        else Some((u.value.value, c.value.value, o.value.value))
  }

  function Mtime(ut: Option<bytes>): Option<nat>
  {
    if ut.Some? && |ut.value| >= 5 && ut.value[0] % 2 == 1 then Some(FromLE(ut.value[1..5])) else None
  }

  /** One central header. */
  function ReadEntry(buf: bytes, p: nat): (r: Option<EntryRead>)
    ensures r.Some? ==> p + 46 <= r.value.end
  {
    if Field(buf, p, 4) != Some(SIG_CENTRAL) || p + 46 > |buf| then None
    else
      var nameEnd := p + 46 + U(buf, p + 28, 2);
      var extraEnd := nameEnd + U(buf, p + 30, 2);
      var extras := ParseExtras(Sub(buf, nameEnd, extraEnd), map[]);
      var z := Get(extras, EXTRA_ZIP64);
      var sizes := Sizes(z, U(buf, p + 24, 4), U(buf, p + 20, 4), U(buf, p + 42, 4));
      if sizes.None? then None
      else
        Some(EntryRead(
          Central(Sub(buf, p + 46, nameEnd), U(buf, p + 8, 2), U(buf, p + 10, 2), U(buf, p + 16, 4),
                  sizes.value.1, sizes.value.0, sizes.value.2, U(buf, p + 38, 4), U(buf, p + 4, 2), U(buf, p + 6, 2),
                  Mtime(Get(extras, EXTRA_TIME)), z.Some?),
          extraEnd + U(buf, p + 32, 2)))
  }

  datatype EntriesRead = EntriesRead(centrals: seq<Central>, end: nat)

  /** The loop over the central headers, after those in `done`. */
  function ReadEntries(buf: bytes, p: nat, n: nat, done: seq<Central>): Option<EntriesRead>
    decreases n
  {
    if n == 0 then Some(EntriesRead(done, p))
    else
      match ReadEntry(buf, p)
      case None => None
      case Some(e) => ReadEntries(buf, e.end, n - 1, done + [e.central])
  }

  datatype DirectoryRead = DirectoryRead(directory: Directory, zip64End: bool)

  /** The ZIP64 end record its locator (right before the end record) points at. */
  function ReadZip64End(buf: bytes, locator: nat): Option<Directory>
    requires locator + 20 <= |buf|
  {
    var rec := U(buf, locator + 8, 8);
    if Field(buf, rec, 4) != Some(SIG_ZIP64_END) || rec + 56 != locator then None
    else
      var d := Directory(U(buf, rec + 32, 8), U(buf, rec + 48, 8), U(buf, rec + 40, 8));
      if U(buf, rec + 24, 8) != d.count || d.start + d.size != rec then None else Some(d)
  }

  function ReadDirectory(buf: bytes): Option<DirectoryRead>
  {
    var end := |buf| - 22;
    if Field(buf, end, 4) != Some(SIG_END) then None
    else if end >= 20 && U(buf, end - 20, 4) == SIG_ZIP64_LOCATOR then
      match ReadZip64End(buf, end - 20)
      case None => None
      case Some(d) => Some(DirectoryRead(d, true))
    else
      var d := Directory(U(buf, end + 10, 2), U(buf, end + 16, 4), U(buf, end + 12, 4));
      if d.start + d.size != end then None else Some(DirectoryRead(d, false))
  }

  datatype CentralRead = CentralRead(centrals: seq<Central>, zip64End: bool, start: nat)

  /** `readZipCentral` of a whole archive. */
  function ReadCentral(buf: bytes): Option<CentralRead>
  {
    match ReadDirectory(buf)
    case None => None
    case Some(r) =>
      match ReadEntries(buf, r.directory.start, r.directory.count, [])
      case None => None
      case Some(es) =>
        if es.end != r.directory.start + r.directory.size then None
        else Some(CentralRead(es.centrals, r.zip64End, r.directory.start))
  }

  /** `inflateCheck`: the content of stored or deflated data. */
  function Content(codec: Codec, data: bytes, compression: nat): Option<bytes>
  {
    if compression == METHOD_STORE then Some(data)
    else if compression == METHOD_DEFLATE then codec.inflate(data)
    else None
  }

  predicate HasDescriptor(flags: nat)
  {
    (flags / 8) % 2 == 1
  }

  datatype FileRead = FileRead(content: bytes, end: nat)

  /** The data descriptor after an entry's data, if it agrees with the central header. */
  function ReadDescriptor(buf: bytes, q: nat, zip64: bool, e: Central): Option<nat>
  {
    var n := if zip64 then 8 else 4;
    if && Field(buf, q, 4) == Some(SIG_DESCRIPTOR) && Field(buf, q + 4, 4) == Some(e.crc)
       && Field(buf, q + 8, n) == Some(e.compressed) && Field(buf, q + 8 + n, n) == Some(e.uncompressed)
    then Some(q + 8 + 2 * n) else None
  }

  /** One local header, its data and what follows, checked against the central header. */
  function ReadLocal(codec: Codec, buf: bytes, e: Central): Option<FileRead>
  {
    var p := e.offset;
    if Field(buf, p, 4) != Some(SIG_LOCAL) || p + 30 > |buf| then None
    else if U(buf, p + 6, 2) != e.flags || U(buf, p + 8, 2) != e.compression then None
    else
      var nameEnd := p + 30 + U(buf, p + 26, 2);
      var start := nameEnd + U(buf, p + 28, 2);
      if Sub(buf, p + 30, nameEnd) != e.name then None
      else
        var zip64 := EXTRA_ZIP64 in ParseExtras(Sub(buf, nameEnd, start), map[]);
        var content := Content(codec, Sub(buf, start, start + e.compressed), e.compression);
        if content.None? || |content.value| != e.uncompressed || codec.crc(content.value) != e.crc then None
        else if HasDescriptor(e.flags) then
          match ReadDescriptor(buf, start + e.compressed, zip64, e)
          case None => None
          case Some(q) => Some(FileRead(content.value, q))
        else if U(buf, p + 14, 4) != e.crc then None
        else Some(FileRead(content.value, start + e.compressed))
  }

  datatype File = File(central: Central, content: bytes)

  datatype FilesRead = FilesRead(files: seq<File>, end: nat)

  /** The loop over the entries, each starting where the one before ended. */
  function ReadFiles(codec: Codec, buf: bytes, centrals: seq<Central>, i: nat, expected: nat, done: seq<File>): Option<FilesRead>
    requires i <= |centrals|
    decreases |centrals| - i
  {
    if i == |centrals| then Some(FilesRead(done, expected))
    else if centrals[i].offset != expected then None
    else
      match ReadLocal(codec, buf, centrals[i])
      case None => None
      case Some(f) => ReadFiles(codec, buf, centrals, i + 1, f.end, done + [File(centrals[i], f.content)])
  }

  datatype ZipRead = ZipRead(files: seq<File>, zip64End: bool)

  /** `readZip` */
  function ReadZip(codec: Codec, buf: bytes): Option<ZipRead>
  {
    match ReadCentral(buf)
    case None => None
    case Some(c) =>
      match ReadFiles(codec, buf, c.centrals, 0, 0, [])
      case None => None
      case Some(fs) => if fs.end != c.start then None else Some(ZipRead(fs.files, c.zip64End))
  }

  // ── The loops ──────────────────────────────────────────────────────────────

  method ReadExtras(extra: bytes) returns (out: map<nat, bytes>)
    ensures out == ParseExtras(extra, map[])
  {
    hide FromLE;
    out := map[];
    var p := 0;
    assert Sub(extra, 0, |extra|) == extra;
    while p + 4 <= |extra|
      invariant p >= 0
      invariant ParseExtras(extra, map[]) == ParseExtras(Sub(extra, p, |extra|), out)
    {
      ghost var rest := Sub(extra, p, |extra|);
      var id := U(extra, p, 2);
      var len := U(extra, p + 2, 2);
      assert rest[..2] == extra[p..p + 2] && rest[2..4] == extra[p + 2..p + 4];
      assert Sub(rest, 4, 4 + len) == Sub(extra, p + 4, p + 4 + len);
      assert Sub(rest, 4 + len, |rest|) == Sub(extra, p + 4 + len, |extra|);
      out := out[id := Sub(extra, p + 4, p + 4 + len)];
      p := p + 4 + len;
    }
  }

  method ReadCentralHeaders(buf: bytes, start: nat, count: nat) returns (r: Option<EntriesRead>)
    ensures r == ReadEntries(buf, start, count, [])
  {
    hide ReadEntry;
    var entries: seq<Central> := [];
    var p := start;
    for i := 0 to count
      invariant ReadEntries(buf, start, count, []) == ReadEntries(buf, p, count - i, entries)
    {
      var e := ReadEntry(buf, p);
      if e.None? {
        return None;
      }
      entries := entries + [e.value.central];
      p := e.value.end;
    }
    return Some(EntriesRead(entries, p));
  }

  method ReadLocals(codec: Codec, buf: bytes, centrals: seq<Central>) returns (r: Option<FilesRead>)
    ensures r == ReadFiles(codec, buf, centrals, 0, 0, [])
  {
    hide ReadLocal;
    var files: seq<File> := [];
    var expected := 0;
    for i := 0 to |centrals|
      invariant ReadFiles(codec, buf, centrals, 0, 0, []) == ReadFiles(codec, buf, centrals, i, expected, files)
    {
      var e := centrals[i];
      if e.offset != expected {
        return None;
      }
      var f := ReadLocal(codec, buf, e);
      if f.None? {
        return None;
      }
      files := files + [File(e, f.value.content)];
      expected := f.value.end;
    }
    return Some(FilesRead(files, expected));
  }
}
