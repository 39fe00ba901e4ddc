/**
 * The relay of a tar stream made elsewhere: each member read with the records in front of it, judged,
 * and copied or left out. The specification is over the whole input; the loop reads it in chunks.
 */
module TarRelay {
  import opened Bytes
  import opened Digits
  import opened Pax
  import opened TarHeader
  import P = TarPaths

  const BLOCK := 512
  const MAX_PREAMBLE_BYTES := 1048576
  const MAX_SKIP_LINES := 10000

  const TYPE_GLOBAL: byte := 103
  const TYPE_LONG_LINK: byte := 75
  const TYPE_LONG_NAME: byte := 76

  const PATH: text := [112, 97, 116, 104]
  const LINKPATH: text := [108, 105, 110, 107, 112, 97, 116, 104]
  const SIZE: text := [115, 105, 122, 101]
  const MTIME: text := [109, 116, 105, 109, 101]

  /** A size rounded up to whole blocks. */
  function WholeBlocks(size: nat): (n: nat)
    ensures n % 512 == 0 && size <= n < size + 512
  {
    (size + 511) / 512 * 512
  }

  predicate IsZero(s: text)
  {
    forall i :: 0 <= i < |s| ==> s[i] == 0
  }

  // ── Members and the records in front of them ───────────────────────────────

  /** Records held until their member is decided, and what they said. */
  datatype Preamble = Preamble(held: text, longName: Option<text>, longLink: Option<text>, pax: map<text, text>)

  const NO_PREAMBLE := Preamble([], None, None, map[])

  datatype Member = Member(held: text, block: Block, name: text, link: text, size: nat, typ: byte)

  datatype Read =
    | EndOfInput
    | EndBlock
    | PartialBlock
    | Damaged
    | Oversized
    | InsideHeader
    | Found(member: Member)

  /** What was read, and the input after it. */
  datatype Next = Next(read: Read, rest: text)

  /** A record describing the next member: PAX, global PAX, or a GNU long name or link. */
  predicate IsRecord(typ: byte)
  {
    typ == TYPE_PAX || typ == TYPE_GLOBAL || typ == TYPE_LONG_NAME || typ == TYPE_LONG_LINK
  }

  /** What the record with header `b` and padded data says. */
  function Learned(p: Preamble, h: Header, b: Block, data: text): (r: Preamble)
    requires |data| == WholeBlocks(h.size)
    ensures r.held == p.held + b + data
  {
    var q := p.(held := p.held + b + data);
    var content := data[..h.size];
    if h.typ == TYPE_LONG_NAME then q.(longName := Some(CString(content)))
    else if h.typ == TYPE_LONG_LINK then q.(longLink := Some(CString(content)))
    else if h.typ == TYPE_PAX then q.(pax := p.pax + Parse(content))
    else q
  }

  function Or(first: Option<text>, m: map<text, text>, key: text, otherwise: text): text
  {
    if first.Some? then first.value else if key in m then m[key] else otherwise
  }

  function MemberOf(p: Preamble, b: Block, h: Header): Member
  {
    Member(p.held, b, Or(p.longName, p.pax, PATH, h.name), Or(p.longLink, p.pax, LINKPATH, h.link),
           if SIZE in p.pax && p.pax[SIZE] != [] && AllDigits(p.pax[SIZE]) then FromDecimal(p.pax[SIZE]) else h.size,
           h.typ)
  }

  /** A way to parse a header block. */
  type Parser = Block -> Option<Header>

  /** One header read: the end of the reading, or a record that adds to the preamble. */
  datatype Step = Stop(next: Next) | Described(preamble: Preamble, rest: text)

  function OneHeader(parse: Parser, s: text, p: Preamble): (r: Step)
    ensures r.Described? ==> |r.rest| + BLOCK <= |s|
    ensures r.Stop? && r.next.read.Found? ==> |r.next.rest| + BLOCK == |s|
  {
    if s == [] then Stop(Next(EndOfInput, []))
    else if |s| < BLOCK then Stop(Next(PartialBlock, []))
    else
      var b: Block := s[..BLOCK];
      var rest := s[BLOCK..];
      if IsZero(b) then Stop(Next(EndBlock, rest))
      else
        match parse(b)
        case None => Stop(Next(Damaged, rest))
        case Some(h) =>
          if IsRecord(h.typ) then
            var n := WholeBlocks(h.size);
            if |p.held| + BLOCK + n > MAX_PREAMBLE_BYTES then Stop(Next(Oversized, rest))
            else if |rest| < n then Stop(Next(InsideHeader, []))
            else Described(Learned(p, h, b, rest[..n]), rest[n..])
          else Stop(Next(Found(MemberOf(p, b, h)), rest))
  }

  /** Reads records until the member they describe. */
  function NextMember(parse: Parser, s: text, p: Preamble): (r: Next)
    ensures r.read.Found? ==> |r.rest| + BLOCK <= |s|
    decreases |s|
  {
    match OneHeader(parse, s, p)
    case Stop(next) => next
    case Described(q, rest) => NextMember(parse, rest, q)
  }

  /** The next member of an input, with the records in front of it. */
  function ReadNext(s: text): (r: Next)
    ensures r.read.Found? ==> |r.rest| < |s|
  {
    NextMember(ParseHeader, s, NO_PREAMBLE)
  }

  /** A way to read members that uses up input when it finds one. */
  ghost predicate Advances(f: text -> Next)
  {
    forall s :: f(s).read.Found? ==> |f(s).rest| < |s|
  }

  type MemberReader = f: text -> Next | Advances(f) witness s => Next(EndOfInput, [])

  /** The relay's own. */
  function Reader(): MemberReader
  {
    ReadNext
  }

  // ── Judging a member ───────────────────────────────────────────────────────

  datatype Reason = LeavesFolder | InsideLink(link: text) | NoSuchTarget | NotRegular

  datatype Verdict = Keep(path: text) | Folder | Skip(reason: Reason)

  datatype Skipped = Skipped(name: text, reason: Reason)

  datatype State = State(
    out: text, started: bool, files: nat, bytes: nat, entries: nat, skips: seq<Skipped>,
    keptFiles: set<text>, keptLinks: set<text>, names: set<text>)

  const START := State([], false, 0, 0, 0, [], {}, {}, {})

  /** Devices and pipes. */
  predicate IsSpecial(typ: byte)
  {
    typ == 51 || typ == 52 || typ == 54
  }

  /** Members whose data counts towards the byte limit. */
  predicate IsContent(typ: byte)
  {
    !(49 <= typ <= 54)
  }

  function Judge(m: Member, keptFiles: set<text>, keptLinks: set<text>): Verdict
  {
    var path := P.MemberPath(m.name);
    if path == Some([]) then Folder
    else if path.None? then Skip(LeavesFolder)
    else
      var through := P.LinkFrom(path.value, keptLinks, 0);
      var target := P.MemberPath(m.link);
      if through.Some? then Skip(InsideLink(through.value))
      else if m.typ == TYPE_HARDLINK && (target.None? || target.value !in keptFiles) then Skip(NoSuchTarget)
      else if IsSpecial(m.typ) then Skip(NotRegular)
      else Keep(path.value)
  }

  datatype Limits = Limits(maxBytes: nat, maxFiles: nat)

  datatype Limit = Bytes | Files

  /** The limit keeping a member would pass, bytes first. */
  function Passed(st: State, m: Member, lim: Limits): Option<Limit>
  {
    if IsContent(m.typ) && st.bytes + m.size > lim.maxBytes then Some(Bytes)
    else if st.entries >= lim.maxFiles then Some(Files)
    else None
  }

  function ClaimTop(names: set<text>, path: text, isDir: bool): set<text>
  {
    if P.SLASH in path then names else names + {P.Claimed(names, path, isDir)}
  }

  function Kept(st: State, m: Member, path: text, body: text): State
  {
    var isDir := m.typ == TYPE_DIR;
    State(st.out + m.held + WithoutSetId(m.block) + body, true,
          if isDir then st.files else st.files + 1,
          if IsContent(m.typ) then st.bytes + m.size else st.bytes,
          st.entries + 1, st.skips,
          if isDir then st.keptFiles else st.keptFiles + {path},
          if m.typ == TYPE_SYMLINK then st.keptLinks + {path} else st.keptLinks,
          ClaimTop(st.names, path, isDir))
  }

  function LeftOut(st: State, m: Member, v: Verdict): State
  {
    match v
    case Skip(reason) => st.(skips := st.skips + [Skipped(m.name, reason)])
    case _ => st
  }

  // ── The loop ───────────────────────────────────────────────────────────────

  datatype Failure = Unreadable | BadPreamble | InsideFile | NoEndBlocks | TarFailed

  /** How the loop over the members ends; `out` is what had been written. */
  datatype Outcome =
    | Ended(sawEnd: bool, st: State)
    | Truncated(st: State, limit: Limit)
    | NotStarted(why: Failure)
    | Broken(why: Failure, out: text)

  /** Failures before the first byte went out let the caller fall back. */
  function Unusable(st: State): Outcome
  {
    if st.started then Broken(Unreadable, st.out) else NotStarted(Unreadable)
  }

  function RelayFrom(f: MemberReader, s: text, st: State, lim: Limits): Outcome
    decreases |s|
  {
    var next := f(s);
    match next.read
    case EndOfInput => Ended(false, st)
    case EndBlock => Ended(true, st)
    case PartialBlock => Unusable(st)
    case Damaged => Unusable(st)
    case Oversized => Broken(BadPreamble, st.out)
    case InsideHeader => Broken(BadPreamble, st.out)
    case Found(m) =>
      var rest := next.rest;
      var n := WholeBlocks(m.size);
      var v := Judge(m, st.keptFiles, st.keptLinks);
      if v.Keep? && Passed(st, m, lim).Some? then Truncated(st, Passed(st, m, lim).value)
      else if |rest| < n then Broken(InsideFile, if v.Keep? then st.out + m.held + WithoutSetId(m.block) + rest else st.out)
      else RelayFrom(f, rest[n..], if v.Keep? then Kept(st, m, v.path, rest[..n]) else LeftOut(st, m, v), lim)
  }

  // ── The notes and the end ──────────────────────────────────────────────────

  /** What the remote command left: whether it exited with 0, and what it said. */
  datatype Remote = Remote(exitedWell: bool, messages: seq<text>)

  /** The texts of the notes, and the time they are dated. */
  datatype Notes = Notes(
    skipped: (seq<Skipped>, nat, seq<text>) -> text,
    truncated: (Limit, nat, nat) -> text,
    now: Option<int>)

  datatype Summary = Summary(files: nat, bytes: nat, skipped: nat, truncated: bool)

  datatype Result =
    | Finished(out: text, summary: Summary)
    | Fallback(why: Failure)
    | Failed(why: Failure, out: text)

  const SKIPPED_NOTE: text := [95, 115, 107, 105, 112, 112, 101, 100, 46, 116, 120, 116]
  const TRUNCATED_NOTE: text := [95, 84, 82, 85, 78, 67, 65, 84, 69, 68, 46, 116, 120, 116]

  function NoteFields(name: text, content: text, now: Option<int>): Fields
  {
    Fields(name, TYPE_FILE, |content|, 420, now, None)
  }

  /** Data filled up with zeros to whole blocks. */
  function Filled(data: text): (s: text)
    ensures |s| == WholeBlocks(|data|) && s[..|data|] == data
  {
    data + Zeros(WholeBlocks(|data|) - |data|)
  }

  /** `note` */
  function NoteBytes(name: text, content: text, now: Option<int>): text
  {
    UstarBlock(NoteFields(name, content, now)) + Filled(content)
  }

  function FirstOf(skips: seq<Skipped>): seq<Skipped>
  {
    if |skips| <= MAX_SKIP_LINES then skips else skips[..MAX_SKIP_LINES]
  }

  function WithNote(st: State, name: text, content: text, now: Option<int>): State
  {
    var claimed := P.Claimed(st.names, name, false);
    st.(out := st.out + NoteBytes(claimed, content, now), names := st.names + {claimed})
  }

  function WithNoteIf(wanted: bool, st: State, name: text, content: text, now: Option<int>): State
  {
    if wanted then WithNote(st, name, content, now) else st
  }

  function SkippedText(st: State, remote: Remote, notes: Notes): text
  {
    var lines := FirstOf(st.skips);
    notes.skipped(lines, |st.skips| - |lines|, remote.messages)
  }

  function WithSkippedNote(st: State, remote: Remote, notes: Notes): State
  {
    WithNoteIf(st.skips != [] || remote.messages != [], st, SKIPPED_NOTE, SkippedText(st, remote, notes), notes.now)
  }

  function TruncatedText(st: State, limit: Option<Limit>, notes: Notes): text
  {
    if limit.None? then [] else notes.truncated(limit.value, st.files, st.bytes)
  }

  function WithTruncatedNote(st: State, limit: Option<Limit>, notes: Notes): State
  {
    WithNoteIf(limit.Some?, st, TRUNCATED_NOTE, TruncatedText(st, limit, notes), notes.now)
  }

  /** The notes, two zero blocks, and the summary. */
  function Finish(st: State, limit: Option<Limit>, remote: Remote, notes: Notes): Result
  {
    var st2 := WithTruncatedNote(WithSkippedNote(st, remote, notes), limit, notes);
    Finished(st2.out + Zeros(1024), Summary(st.files, st.bytes, |st.skips| + |remote.messages|, limit.Some?))
  }

  function Conclude(o: Outcome, remote: Remote, notes: Notes): Result
  {
    match o
    case NotStarted(why) => Fallback(why)
    case Broken(why, out) => Failed(why, out)
    case Truncated(st, limit) => Finish(st, Some(limit), remote, notes)
    case Ended(sawEnd, st) =>
      if !st.started && !(sawEnd && remote.exitedWell) then Fallback(TarFailed)
      else if !sawEnd then Failed(NoEndBlocks, st.out)
      else Finish(st, None, remote, notes)
  }

  /** `relayTar` on the whole input. */
  function Relayed(input: text, lim: Limits, remote: Remote, notes: Notes): Result
  {
    Conclude(RelayFrom(Reader(), input, START, lim), remote, notes)
  }

  // ── Reading in chunks ──────────────────────────────────────────────────────

  function Flat(chunks: seq<text>): text
  {
    if chunks == [] then [] else chunks[0] + Flat(chunks[1..])
  }

  /** Takes a stream apart into headers and bodies; `Left` is what has not been handed out. */
  class BlockReader {
    var source: seq<seq<byte>>
    var buffered: seq<byte>

    ghost function Left(): text
      reads this
    {
      buffered + Flat(source)
    }

    constructor (chunks: seq<seq<byte>>)
      ensures Left() == Flat(chunks)
    {
      source, buffered := chunks, [];
    }

    method Fill() returns (more: bool)
      modifies this
      ensures Left() == old(Left())
      ensures more == (old(source) != [])
      ensures more ==> |source| < |old(source)|
      ensures !more ==> source == [] && buffered == old(buffered)
    {
      if source == [] {
        return false;
      }
      buffered, source := buffered + source[0], source[1..];
      return true;
    }

    /** The next `n` bytes of the input, or what is left of it. */
    method Read(n: nat) returns (out: seq<byte>)
      modifies this
      ensures var all := old(Left());
              var k := if n <= |all| then n else |all|;
              out == all[..k] && Left() == all[k..]
    {
      var more := true;
      while |buffered| < n && more
        invariant Left() == old(Left())
        invariant !more ==> source == []
        decreases |source|, more
      {
        more := Fill();
      }
      var k := if n <= |buffered| then n else |buffered|;
      ghost var all := Left();
      out, buffered := buffered[..k], buffered[k..];
      assert all == out + Left();
    }

    /** Up to `max` bytes, as soon as any are there; none at the end. */
    method Chunk(max: nat) returns (out: Option<seq<byte>>)
      modifies this
      ensures out.None? ==> old(Left()) == [] == Left()
      ensures out.Some? ==> |out.value| <= max && old(Left()) == out.value + Left()
      ensures out.Some? && max > 0 ==> |source| < |old(source)| || out.value != []
      ensures |source| <= |old(source)|
    {
      if buffered == [] {
        var more := Fill();
        if !more {
          return None;
        }
      }
      var k := if max <= |buffered| then max else |buffered|;
      ghost var all := Left();
      out := Some(buffered[..k]);
      buffered := buffered[k..];
      assert all == out.value + Left();
    }

    /** Reads and discards whatever is left. */
    method Drain()
      modifies this
      ensures Left() == []
    {
      buffered := [];
      var more := Fill();
      while more
        invariant !more ==> source == [] && buffered == []
        decreases |source|, more
      {
        buffered := [];
        more := Fill();
      }
    }
  }

  /** Copies (or discards) the data blocks of a member: those there are. */
  method Body(reader: BlockReader, size: nat) returns (whole: bool, copied: seq<byte>)
    modifies reader
    ensures var all := old(reader.Left());
            var n := WholeBlocks(size);
            && whole == (n <= |all|)
            && copied == (if whole then all[..n] else all)
            && (whole ==> reader.Left() == all[n..])
  {
    copied := [];
    var left := WholeBlocks(size);
    ghost var all := reader.Left();
    assert all == copied + reader.Left();
    while left > 0
      invariant all == copied + reader.Left()
      invariant left + |copied| == WholeBlocks(size) && left >= 0
      decreases |reader.source| + left
    {
      var chunk := reader.Chunk(left);
      if chunk.None? {
        return false, copied;
      }
      left := left - |chunk.value|;
      copied := copied + chunk.value;
    }
    return true, copied;
  }

  /** Reads records and the header of the member they describe. */
  method ReadMember(reader: BlockReader) returns (r: Read)
    modifies reader
    ensures ReadNext(old(reader.Left())) == Next(r, reader.Left())
  {
    var p := NO_PREAMBLE;
    ghost var all := NextMember(ParseHeader, reader.Left(), p);
    while true
      invariant NextMember(ParseHeader, reader.Left(), p) == all
      decreases |reader.Left()|
    {
      ghost var s := reader.Left();
      var b := reader.Read(BLOCK);
      if b == [] {
        return EndOfInput;
      }
      if |b| < BLOCK {
        return PartialBlock;
      }
      if IsZero(b) {
        return EndBlock;
      }
      var h := ParseHeader(b);
      if h.None? {
        return Damaged;
      }
      if !IsRecord(h.value.typ) {
        return Found(MemberOf(p, b, h.value));
      }
      var n := WholeBlocks(h.value.size);
      if |p.held| + BLOCK + n > MAX_PREAMBLE_BYTES {
        return Oversized;
      }
      var data := reader.Read(n);
      if |data| < n {
        return InsideHeader;
      }
      p := Learned(p, h.value, b, data);
    }
  }

  /** The loop over the members. */
  method RelayMembers(reader: BlockReader, lim: Limits) returns (o: Outcome)
    modifies reader
    ensures o == RelayFrom(Reader(), old(reader.Left()), START, lim)
  {
    var st := START;
    ghost var all := RelayFrom(Reader(), reader.Left(), st, lim);
    while true
      invariant RelayFrom(Reader(), reader.Left(), st, lim) == all
      decreases |reader.Left()|
    {
      var r := ReadMember(reader);
      match r
      case EndOfInput => return Ended(false, st);
      case EndBlock => return Ended(true, st);
      case PartialBlock => return Unusable(st);
      case Damaged => return Unusable(st);
      case Oversized => return Broken(BadPreamble, st.out);
      case InsideHeader => return Broken(BadPreamble, st.out);
      case Found(m) =>
        var v := Judge(m, st.keptFiles, st.keptLinks);
        if v.Keep? && Passed(st, m, lim).Some? {
          return Truncated(st, Passed(st, m, lim).value);
        }
        var whole, copied := Body(reader, m.size);
        if !whole {
          return Broken(InsideFile, if v.Keep? then st.out + m.held + WithoutSetId(m.block) + copied else st.out);
        }
        st := if v.Keep? then Kept(st, m, v.path, copied) else LeftOut(st, m, v);
    }
  }

  /** `relayTar`: whatever the chunks, what goes out depends only on their concatenation. */
  method RelayTar(chunks: seq<seq<byte>>, lim: Limits, remote: Remote, notes: Notes) returns (r: Result)
    ensures r == Relayed(Flat(chunks), lim, remote, notes)
  {
    var reader := new BlockReader(chunks);
    var o := RelayMembers(reader, lim);
    if o.Ended? {
      reader.Drain();
    }
    r := Conclude(o, remote, notes);
  }
}
