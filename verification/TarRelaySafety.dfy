/**
 * What the relay's output holds, read back by the same rules: only safe members, within the limits,
 * ended by two zero blocks; and a safe archive within the limits goes through member for member.
 */
module TarRelaySafety {
  import opened Bytes
  import opened Digits
  import opened Pax
  import opened TarHeader
  import opened TarRelay
  import P = TarPaths

  // ── Reading an archive back ────────────────────────────────────────────────

  /** A member and its data blocks. */
  datatype Item = Item(member: Member, body: text)

  /** Every member of an archive that ends with exactly two zero blocks. */
  function Items(f: MemberReader, s: text): Option<seq<Item>>
    decreases |s|
  {
    var next := f(s);
    match next.read
    case EndBlock => if next.rest == Zeros(BLOCK) then Some([]) else None
    case Found(m) =>
      var n := WholeBlocks(m.size);
      if |next.rest| < n then None
      else
        var tail := Items(f, next.rest[n..]);
        if tail.None? then None else Some([Item(m, next.rest[..n])] + tail.value)
    case _ => None
  }

  function ItemBytes(i: Item): text
  {
    i.member.held + i.member.block + i.body
  }

  function AllBytes(items: seq<Item>): text
  {
    if items == [] then [] else AllBytes(items[..|items| - 1]) + ItemBytes(items[|items| - 1])
  }

  /** The bytes of the item, read on their own, are this item. */
  predicate IsWhole(f: MemberReader, i: Item)
  {
    && |i.body| == WholeBlocks(i.member.size) && |i.member.held| % BLOCK == 0
    && f(i.member.held + i.member.block) == Next(Found(i.member), [])
  }

  predicate AllWhole(f: MemberReader, items: seq<Item>)
  {
    forall i :: 0 <= i < |items| ==> IsWhole(f, items[i])
  }

  // ── A member is read from its own bytes ────────────────────────────────────

  lemma ZeroHasNoHeader(b: Block)
    requires IsZero(b)
    ensures ParseHeader(b).None?
  {
    var field := b[148..156];
    assert field[0] == 0;
    IndexOfFirst(field, 0, 0);
    assert CString(field) == [];
  }

  /** A step that read a record from `used`, and the step on those bytes with something else after them. */
  predicate SameRecord(first: Step, again: Step, s: text, p: Preamble, used: text, rest: text)
  {
    && first.Described?
    && s == used + first.rest && first.preamble.held == p.held + used && |used| % BLOCK == 0
    && again == Described(first.preamble, rest)
  }

  /** A record is read from its own bytes, whatever follows. */
  lemma RecordIsLocal(parse: Parser, s: text, p: Preamble, rest: text) returns (used: text)
    requires OneHeader(parse, s, p).Described?
    ensures SameRecord(OneHeader(parse, s, p), OneHeader(parse, used + rest, p), s, p, used, rest)
  {
    hide Learned, IsZero, MemberOf;
    var b: Block := s[..BLOCK];
    var n := WholeBlocks(parse(b).value.size);
    var data := s[BLOCK..][..n];
    used := b + data;
    var t := used + rest;
    assert t[..BLOCK] == b && t[BLOCK..] == data + rest;
    assert (data + rest)[..n] == data && (data + rest)[n..] == rest;
  }

  /** What a whole reading shows: the bytes it used, and the member they give again with `c` for its header. */
  predicate SameReading(first: Next, again: Next, s: text, p: Preamble, used: text, c: Block, rest: text)
  {
    && first.read.Found?
    && var m := first.read.member;
    && s == used + m.block + first.rest && m.held == p.held + used && |used| % BLOCK == 0
    && again == Next(Found(m.(block := c)), rest)
  }

  lemma Prepended(first: Next, again: Next, s: text, p: Preamble, q: Preamble, tail: text,
                  a: text, used: text, c: Block, rest: text)
    requires SameReading(first, again, tail, q, used, c, rest)
    requires s == a + tail && q.held == p.held + a && |a| % BLOCK == 0
    ensures SameReading(first, again, s, p, a + used, c, rest)
    ensures a + used + c + rest == a + (used + c + rest)
  {
  }

  /**
   * The bytes a member was read from are the records it holds and its header. Read on their own, with
   * any header that parses alike and anything after it, they give the same member again.
   */
  lemma {:induction false} MemberIsLocal(parse: Parser, s: text, p: Preamble, c: Block, rest: text)
    returns (used: text)
    requires NextMember(parse, s, p).read.Found?
    requires parse(c) == parse(NextMember(parse, s, p).read.member.block)
    requires IsZero(c) ==> parse(c).None?
    ensures SameReading(NextMember(parse, s, p), NextMember(parse, used + c + rest, p), s, p, used, c, rest)
    decreases |s|
  {
    match OneHeader(parse, s, p)
    case Stop(next) =>
      used := [];
      assert used + c == c && p.held + used == p.held && used + next.read.member.block == next.read.member.block;
    case Described(q, tail) =>
      var inner := MemberIsLocal(parse, tail, q, c, rest);
      var first := RecordIsLocal(parse, s, p, inner + c + rest);
      Prepended(NextMember(parse, tail, q), NextMember(parse, inner + c + rest, q), s, p, q, tail, first, inner, c, rest);
      used := first + inner;
  }

  // ── A member reader that is local too ──────────────────────────────────────

  predicate ReadsMember(first: Next, again: Next, s: text, c: Block, rest: text)
  {
    && first.read.Found?
    && var m := first.read.member;
    && s == m.held + m.block + first.rest && |m.held| % BLOCK == 0
    && again == Next(Found(m.(block := c)), rest)
  }

  ghost predicate IsLocalReader(f: MemberReader, parse: Parser)
  {
    && (forall s, c: Block, rest :: f(s).read.Found? && parse(c) == parse(f(s).read.member.block) ==>
          ReadsMember(f(s), f(f(s).read.member.held + c + rest), s, c, rest))
    && f(Zeros(1024)) == Next(EndBlock, Zeros(BLOCK))
  }

  lemma FirstMemberIsLocal(parse: Parser, s: text, c: Block, rest: text)
    requires NextMember(parse, s, NO_PREAMBLE).read.Found?
    requires parse(c) == parse(NextMember(parse, s, NO_PREAMBLE).read.member.block)
    requires IsZero(c) ==> parse(c).None?
    ensures var first := NextMember(parse, s, NO_PREAMBLE);
            ReadsMember(first, NextMember(parse, first.read.member.held + c + rest, NO_PREAMBLE), s, c, rest)
  {
    var used := MemberIsLocal(parse, s, NO_PREAMBLE, c, rest);
    assert used == NextMember(parse, s, NO_PREAMBLE).read.member.held;
  }

  lemma ReadNextReadsMembers(s: text, c: Block, rest: text)
    requires ReadNext(s).read.Found? && ParseHeader(c) == ParseHeader(ReadNext(s).read.member.block)
    ensures ReadsMember(ReadNext(s), ReadNext(ReadNext(s).read.member.held + c + rest), s, c, rest)
  {
    if IsZero(c) {
      ZeroHasNoHeader(c);
    }
    FirstMemberIsLocal(ParseHeader, s, c, rest);
  }

  lemma ReadNextIsLocal()
    ensures IsLocalReader(Reader(), ParseHeader)
  {
    forall s, c: Block, rest | ReadNext(s).read.Found? && ParseHeader(c) == ParseHeader(ReadNext(s).read.member.block)
      ensures ReadsMember(ReadNext(s), ReadNext(ReadNext(s).read.member.held + c + rest), s, c, rest)
    {
      ReadNextReadsMembers(s, c, rest);
    }
  }

  // ── Whole items are read back ──────────────────────────────────────────────

  /** An item read from an input is whole, and so is it with a header that parses alike. */
  lemma ReadIsWhole(f: MemberReader, parse: Parser, s: text, c: Block, body: text)
    requires IsLocalReader(f, parse) && f(s).read.Found? && parse(c) == parse(f(s).read.member.block)
    requires |body| == WholeBlocks(f(s).read.member.size)
    ensures IsWhole(f, Item(f(s).read.member.(block := c), body))
  {
    var m := f(s).read.member;
    assert ReadsMember(f(s), f(m.held + c + []), s, c, []);
    assert m.held + c + [] == m.held + c;
  }

  lemma ItemInFront(f: MemberReader, parse: Parser, i: Item, rest: text)
    requires IsLocalReader(f, parse) && IsWhole(f, i)
    ensures f(ItemBytes(i) + rest) == Next(Found(i.member), i.body + rest)
  {
    var m := i.member;
    var s := m.held + m.block;
    assert ReadsMember(f(s), f(m.held + m.block + (i.body + rest)), s, m.block, i.body + rest);
    assert ItemBytes(i) + rest == m.held + m.block + (i.body + rest);
  }

  lemma ItemIsRead(f: MemberReader, parse: Parser, i: Item, rest: text)
    requires IsLocalReader(f, parse) && IsWhole(f, i) && Items(f, rest).Some?
    ensures Items(f, ItemBytes(i) + rest) == Some([i] + Items(f, rest).value)
  {
    ItemInFront(f, parse, i, rest);
    assert (i.body + rest)[..|i.body|] == i.body && (i.body + rest)[|i.body|..] == rest;
  }

  /** The last item of a list, moved in front of what follows it. */
  lemma LastInFront(items: seq<Item>, rest: text, more: seq<Item>)
    requires items != []
    ensures var init, last := items[..|items| - 1], items[|items| - 1];
            && AllBytes(items) + rest == AllBytes(init) + (ItemBytes(last) + rest)
            && items + more == init + ([last] + more)
  {
    assert items == items[..|items| - 1] + [items[|items| - 1]];
  }

  lemma {:induction false} ItemsAreRead(f: MemberReader, parse: Parser, items: seq<Item>, rest: text)
    requires IsLocalReader(f, parse) && AllWhole(f, items) && Items(f, rest).Some?
    ensures Items(f, AllBytes(items) + rest) == Some(items + Items(f, rest).value)
    decreases |items|
  {
    if items == [] {
      assert AllBytes(items) + rest == rest;
      assert items + Items(f, rest).value == Items(f, rest).value;
    } else {
      ItemIsRead(f, parse, items[|items| - 1], rest);
      ItemsAreRead(f, parse, items[..|items| - 1], ItemBytes(items[|items| - 1]) + rest);
      LastInFront(items, rest, Items(f, rest).value);
    }
  }

  /** Whole items and two zero blocks are read back item for item. */
  lemma ArchiveIsReadBack(f: MemberReader, parse: Parser, items: seq<Item>)
    requires IsLocalReader(f, parse) && AllWhole(f, items)
    ensures Items(f, AllBytes(items) + Zeros(1024)) == Some(items)
  {
    ItemsAreRead(f, parse, items, Zeros(1024));
    assert items + [] == items;
  }

  lemma {:induction false} AllBytesAreBlocks(f: MemberReader, items: seq<Item>)
    requires AllWhole(f, items)
    ensures |AllBytes(items)| % BLOCK == 0
    decreases |items|
  {
    hide IsWhole, ItemBytes;
    if items != [] {
      AllBytesAreBlocks(f, items[..|items| - 1]);
      ItemIsBlocks(f, items[|items| - 1]);
    }
  }

  lemma ItemIsBlocks(f: MemberReader, i: Item)
    requires IsWhole(f, i)
    ensures |ItemBytes(i)| % BLOCK == 0
  {
    hide WholeBlocks;
    assert |ItemBytes(i)| == |i.member.held| + BLOCK + WholeBlocks(i.member.size);
  }

  // ── What is kept ───────────────────────────────────────────────────────────

  function PathOf(i: Item): text
  {
    var path := P.MemberPath(i.member.name);
    if path.Some? then path.value else []
  }

  predicate IsFile(i: Item)
  {
    i.member.typ != TYPE_DIR
  }

  function FilesOf(items: seq<Item>): set<text>
  {
    set k | 0 <= k < |items| && IsFile(items[k]) :: PathOf(items[k])
  }

  function LinksOf(items: seq<Item>): set<text>
  {
    set k | 0 <= k < |items| && items[k].member.typ == TYPE_SYMLINK :: PathOf(items[k])
  }

  /** The sizes that count towards the limit. */
  function ContentOf(items: seq<Item>): nat
  {
    if items == [] then 0
    else
      var m := items[|items| - 1].member;
      ContentOf(items[..|items| - 1]) + if IsContent(m.typ) then m.size else 0
  }

  /** The sizes of all members, links and folders among them. */
  function SizesOf(items: seq<Item>): nat
  {
    if items == [] then 0 else SizesOf(items[..|items| - 1]) + items[|items| - 1].member.size
  }

  /** The byte limit bounds all bodies exactly when no link, device or folder has one. */
  lemma {:induction false} CountedBodies(items: seq<Item>)
    ensures ContentOf(items) <= SizesOf(items)
    ensures ContentOf(items) == SizesOf(items) <==>
      forall k :: 0 <= k < |items| && !IsContent(items[k].member.typ) ==> items[k].member.size == 0
    decreases |items|
  {
    if items != [] {
      var init := items[..|items| - 1];
      CountedBodies(init);
      assert forall k :: 0 <= k < |init| ==> init[k] == items[k];
    }
  }

  function CountFiles(items: seq<Item>): nat
  {
    if items == [] then 0
    else CountFiles(items[..|items| - 1]) + if IsFile(items[|items| - 1]) then 1 else 0
  }

  /**
   * The `k`-th member lands inside the folder, under no symbolic link stored before it; a hard link
   * names a member stored before it that is no folder; and it is no device or pipe.
   */
  predicate IsSafe(items: seq<Item>, k: nat)
    requires k < |items|
  {
    var m := items[k].member;
    && P.MemberPath(m.name).Some? && PathOf(items[k]) != [] && !IsSpecial(m.typ)
    && (forall j :: 0 <= j < k && items[j].member.typ == TYPE_SYMLINK ==> !P.IsAbove(PathOf(items[j]), PathOf(items[k])))
    && (m.typ == TYPE_HARDLINK ==>
          exists j :: 0 <= j < k && IsFile(items[j]) && P.MemberPath(m.link) == Some(PathOf(items[j])))
  }

  predicate AllSafe(items: seq<Item>)
  {
    forall k :: 0 <= k < |items| ==> IsSafe(items, k)
  }

  lemma SafeWithOneMore(items: seq<Item>, i: Item)
    requires AllSafe(items) && IsSafe(items + [i], |items|)
    ensures AllSafe(items + [i])
  {
    var more := items + [i];
    forall k | 0 <= k < |more|
      ensures IsSafe(more, k)
    {
      if k < |items| {
        assert IsSafe(items, k);
        var m := items[k].member;
        if m.typ == TYPE_HARDLINK {
          var j :| 0 <= j < k && IsFile(items[j]) && P.MemberPath(m.link) == Some(PathOf(items[j]));
          assert IsFile(more[j]);
        }
      }
    }
  }

  /** Judging by the sets the relay keeps is judging by the items before. */
  lemma JudgedSafe(items: seq<Item>, i: Item)
    requires Judge(i.member, FilesOf(items), LinksOf(items)).Keep?
    ensures IsSafe(items + [i], |items|)
    ensures Judge(i.member, FilesOf(items), LinksOf(items)).path == PathOf(i) != []
  {
    var more := items + [i];
    var path := PathOf(i);
    forall j | 0 <= j < |items| && more[j].member.typ == TYPE_SYMLINK
      ensures !P.IsAbove(PathOf(more[j]), path)
    {
      assert PathOf(items[j]) in LinksOf(items);
    }
    if i.member.typ == TYPE_HARDLINK {
      var j :| 0 <= j < |items| && IsFile(items[j]) && PathOf(items[j]) == P.MemberPath(i.member.link).value;
      assert IsFile(more[j]);
    }
  }

  lemma SafeIsJudged(items: seq<Item>, i: Item)
    requires IsSafe(items + [i], |items|)
    ensures Judge(i.member, FilesOf(items), LinksOf(items)) == Keep(PathOf(i))
  {
    var more := items + [i];
    var path := PathOf(i);
    assert forall j :: 0 <= j < |items| ==> more[j] == items[j];
    forall a | a in LinksOf(items)
      ensures !P.IsAbove(a, path)
    {
      var j :| 0 <= j < |items| && items[j].member.typ == TYPE_SYMLINK && PathOf(items[j]) == a;
    }
    if i.member.typ == TYPE_HARDLINK {
      var j :| 0 <= j < |items| && IsFile(more[j]) && P.MemberPath(i.member.link) == Some(PathOf(more[j]));
      assert items[j] == more[j];
    }
  }

  // ── The loop keeps it ──────────────────────────────────────────────────────

  /** What the relay has written and remembers, as a list of items. */
  ghost predicate Holds(f: MemberReader, st: State, items: seq<Item>, lim: Limits)
  {
    && st.out == AllBytes(items) && AllWhole(f, items) && AllSafe(items)
    && st.keptFiles == FilesOf(items) && st.keptLinks == LinksOf(items)
    && st.entries == |items| <= lim.maxFiles && st.bytes == ContentOf(items) <= lim.maxBytes
    && st.files == CountFiles(items) && st.started == (items != [])
    && |st.names| <= |items| && TopNamesIn(items, st.names)
  }

  predicate TopNamesIn(items: seq<Item>, names: set<text>)
  {
    forall k :: 0 <= k < |items| ==> P.SLASH in PathOf(items[k]) || PathOf(items[k]) in names
  }

  lemma SetsWithOneMore(items: seq<Item>, i: Item)
    ensures FilesOf(items + [i]) == if IsFile(i) then FilesOf(items) + {PathOf(i)} else FilesOf(items)
    ensures LinksOf(items + [i]) == if i.member.typ == TYPE_SYMLINK then LinksOf(items) + {PathOf(i)} else LinksOf(items)
  {
    var more := items + [i];
    assert forall k :: 0 <= k < |items| ==> more[k] == items[k];
    assert more[|items|] == i;
    forall p | p in FilesOf(items)
      ensures p in FilesOf(more)
    {
      var k :| 0 <= k < |items| && IsFile(items[k]) && PathOf(items[k]) == p;
      assert IsFile(more[k]);
    }
    forall p | p in LinksOf(items)
      ensures p in LinksOf(more)
    {
      var k :| 0 <= k < |items| && items[k].member.typ == TYPE_SYMLINK && PathOf(items[k]) == p;
      assert more[k].member.typ == TYPE_SYMLINK;
    }
  }

  /** The state with one more item. */
  function Added(st: State, i: Item): State
  {
    State(st.out + ItemBytes(i), true,
          st.files + (if IsFile(i) then 1 else 0),
          st.bytes + (if IsContent(i.member.typ) then i.member.size else 0),
          st.entries + 1, st.skips,
          if IsFile(i) then st.keptFiles + {PathOf(i)} else st.keptFiles,
          if i.member.typ == TYPE_SYMLINK then st.keptLinks + {PathOf(i)} else st.keptLinks,
          ClaimTop(st.names, PathOf(i), !IsFile(i)))
  }

  /** The item a kept member becomes. */
  function ItemOf(m: Member, body: text): Item
  {
    Item(m.(block := WithoutSetId(m.block)), body)
  }

  lemma KeptIsAdded(st: State, m: Member, body: text)
    ensures Kept(st, m, PathOf(ItemOf(m, body)), body) == Added(st, ItemOf(m, body))
  {
    assert st.out + m.held + WithoutSetId(m.block) + body == st.out + ItemBytes(ItemOf(m, body));
  }

  /** Adding a whole, safe item within the limits keeps everything. */
  lemma AddingHolds(f: MemberReader, st: State, items: seq<Item>, lim: Limits, i: Item)
    requires Holds(f, st, items, lim) && IsWhole(f, i) && IsSafe(items + [i], |items|)
    requires st.entries < lim.maxFiles && Added(st, i).bytes <= lim.maxBytes
    ensures Holds(f, Added(st, i), items + [i], lim)
  {
    hide IsWhole, IsContent, P.MemberPath;
    SafeWithOneMore(items, i);
    SetsWithOneMore(items, i);
  }

  lemma KeepingHolds(f: MemberReader, st: State, items: seq<Item>, lim: Limits, m: Member, body: text)
    requires Holds(f, st, items, lim) && IsWhole(f, ItemOf(m, body))
    requires Judge(m, st.keptFiles, st.keptLinks).Keep? && Passed(st, m, lim).None?
    ensures var path := Judge(m, st.keptFiles, st.keptLinks).path;
            Holds(f, Kept(st, m, path, body), items + [ItemOf(m, body)], lim)
  {
    var i := ItemOf(m, body);
    assert st.keptFiles == FilesOf(items) && st.keptLinks == LinksOf(items);
    assert Added(st, i).bytes <= lim.maxBytes && st.entries < lim.maxFiles;
    assert Judge(i.member, st.keptFiles, st.keptLinks) == Judge(m, st.keptFiles, st.keptLinks);
    hide Holds, IsWhole, Judge, Added, Kept, Passed;
    JudgedSafe(items, i);
    KeptIsAdded(st, m, body);
    AddingHolds(f, st, items, lim, i);
  }

  lemma ClearedWhole(s: text, body: text)
    requires ReadNext(s).read.Found? && |body| == WholeBlocks(ReadNext(s).read.member.size)
    ensures IsWhole(Reader(), ItemOf(ReadNext(s).read.member, body))
  {
    ReadNextIsLocal();
    FoundHasHeader(s, NO_PREAMBLE);
    ClearedIsReadBack(ReadNext(s).read.member.block);
    ReadIsWhole(Reader(), ParseHeader, s, WithoutSetId(ReadNext(s).read.member.block), body);
  }

  lemma {:induction false} FoundHasHeader(s: text, p: Preamble)
    requires NextMember(ParseHeader, s, p).read.Found?
    ensures ParseHeader(NextMember(ParseHeader, s, p).read.member.block).Some?
    decreases |s|
  {
    match OneHeader(ParseHeader, s, p)
    case Stop(next) =>
    case Described(q, rest) => FoundHasHeader(rest, q);
  }

  /** Whether the loop over the members ended where notes and end blocks may follow. */
  function StateOf(o: Outcome): Option<State>
  {
    match o
    case Ended(_, st) => Some(st)
    case Truncated(st, _) => Some(st)
    case _ => None
  }

  /** Whether the loop goes on after the member at the start of `s`, and the state it goes on with. */
  predicate GoesOn(f: MemberReader, s: text, st: State, lim: Limits)
  {
    && f(s).read.Found?
    && var m := f(s).read.member;
    && |f(s).rest| >= WholeBlocks(m.size)
    && !(Judge(m, st.keptFiles, st.keptLinks).Keep? && Passed(st, m, lim).Some?)
  }

  function StateAfter(f: MemberReader, s: text, st: State, lim: Limits): State
    requires GoesOn(f, s, st, lim)
  {
    var m := f(s).read.member;
    var v := Judge(m, st.keptFiles, st.keptLinks);
    if v.Keep? then Kept(st, m, v.path, f(s).rest[..WholeBlocks(m.size)]) else LeftOut(st, m, v)
  }

  function InputAfter(f: MemberReader, s: text, st: State, lim: Limits): text
    requires GoesOn(f, s, st, lim)
  {
    f(s).rest[WholeBlocks(f(s).read.member.size)..]
  }

  type Invariant = (State, seq<Item>) -> bool

  /** Going on keeps the invariant. */
  ghost predicate IsKept(inv: Invariant, f: MemberReader, lim: Limits)
  {
    forall s, st, items {:trigger GoesOn(f, s, st, lim), inv(st, items)} :: inv(st, items) && GoesOn(f, s, st, lim) ==>
      exists more :: inv(StateAfter(f, s, st, lim), more)
  }

  lemma {:induction false} LoopKeeps(inv: Invariant, f: MemberReader, s: text, st: State, items: seq<Item>, lim: Limits)
    returns (all: seq<Item>)
    requires IsKept(inv, f, lim) && inv(st, items)
    ensures var o := RelayFrom(f, s, st, lim);
            StateOf(o).Some? ==> inv(StateOf(o).value, all)
    decreases |s|
  {
    all := items;
    if GoesOn(f, s, st, lim) {
      var more :| inv(StateAfter(f, s, st, lim), more);
      all := LoopKeeps(inv, f, InputAfter(f, s, st, lim), StateAfter(f, s, st, lim), more, lim);
    }
  }

  lemma OneMemberKeeps(f: MemberReader, s: text, st: State, items: seq<Item>, lim: Limits) returns (more: seq<Item>)
    requires Holds(f, st, items, lim) && GoesOn(f, s, st, lim)
    requires var m := f(s).read.member; IsWhole(f, ItemOf(m, f(s).rest[..WholeBlocks(m.size)]))
    ensures Holds(f, StateAfter(f, s, st, lim), more, lim)
  {
    var m := f(s).read.member;
    var body := f(s).rest[..WholeBlocks(m.size)];
    var v := Judge(m, st.keptFiles, st.keptLinks);
    if v.Keep? {
      KeepingHolds(f, st, items, lim, m, body);
      more := items + [ItemOf(m, body)];
    } else {
      more := items;
    }
  }

  lemma HoldsIsKept(lim: Limits)
    ensures IsKept((st, items) => Holds(Reader(), st, items, lim), Reader(), lim)
  {
    var inv: Invariant := (st, items) => Holds(Reader(), st, items, lim);
    forall s, st, items {:trigger GoesOn(Reader(), s, st, lim), inv(st, items)} | inv(st, items) && GoesOn(Reader(), s, st, lim)
      ensures exists more :: inv(StateAfter(Reader(), s, st, lim), more)
    {
      ClearedWhole(s, ReadNext(s).rest[..WholeBlocks(ReadNext(s).read.member.size)]);
      var more := OneMemberKeeps(Reader(), s, st, items, lim);
      assert inv(StateAfter(Reader(), s, st, lim), more);
    }
  }

  /** Whatever the input, what was written when the loop ends is a list of whole, safe items within the limits. */
  lemma LoopIsSafe(input: text, lim: Limits) returns (items: seq<Item>)
    ensures var o := RelayFrom(Reader(), input, START, lim);
            StateOf(o).Some? ==> Holds(Reader(), StateOf(o).value, items, lim)
  {
    HoldsIsKept(lim);
    assert Holds(Reader(), START, [], lim);
    items := LoopKeeps((st, items) => Holds(Reader(), st, items, lim), Reader(), input, START, [], lim);
  }

  // ── The notes ──────────────────────────────────────────────────────────────

  function NoteItem(name: text, content: text, now: Option<int>): Item
  {
    var b := UstarBlock(NoteFields(name, content, now));
    Item(Member([], b, name, [], |content|, TYPE_FILE), Filled(content))
  }

  lemma NoteHeader(parse: Parser, b: Block, name: text, size: nat)
    requires parse(b) == Some(Header(name, TYPE_FILE, size, [])) && !IsZero(b)
    ensures NextMember(parse, b, NO_PREAMBLE) == Next(Found(Member([], b, name, [], size, TYPE_FILE)), [])
  {
    assert b[..BLOCK] == b && b[BLOCK..] == [];
  }

  lemma NoteIsWhole(name: text, content: text, now: Option<int>)
    requires FitsUstar(name) && |content| <= MAX_SAFE
    ensures IsWhole(Reader(), NoteItem(name, content, now))
  {
    hide UstarBlock, ParseHeader, NextMember;
    var f := NoteFields(name, content, now);
    var b := UstarBlock(f);
    UstarIsReadBack(f);
    if IsZero(b) {
      ZeroHasNoHeader(b);
    }
    NoteHeader(ParseHeader, b, name, |content|);
    assert [] + b == b;
  }

  /** A regular file at the top of the folder whose name no earlier member has. */
  predicate IsNote(items: seq<Item>, k: nat)
    requires k < |items|
  {
    var m := items[k].member;
    && m.typ == TYPE_FILE && P.IsTopName(m.name) && PathOf(items[k]) == m.name
    && forall j :: 0 <= j < k ==> PathOf(items[j]) != m.name
  }

  /** What is known once the notes are written as well; the first `k` items are the kept members. */
  ghost predicate HoldsWithNotes(f: MemberReader, out: text, names: set<text>, items: seq<Item>, k: nat)
  {
    && k <= |items| && out == AllBytes(items) && AllWhole(f, items) && AllSafe(items)
    && TopNamesIn(items, names) && |names| <= |items|
    && forall j :: k <= j < |items| ==> IsNote(items, j)
  }

  lemma NoteFitsUstar(segment: text, names: set<text>)
    requires P.IsTopName(segment) && FitsUstar(segment) && |segment| <= 14
    requires |names| <= MAX_SAFE + 1
    ensures var name := P.Claimed(names, segment, false); FitsUstar(name) && P.IsTopName(name)
  {
    var n := P.FreeFrom(names, segment, false, 1);
    P.FreeIsNear(names, segment, false);
    NumberedFits(segment, n);
  }

  lemma NumberedFits(segment: text, n: nat)
    requires P.IsTopName(segment) && FitsUstar(segment) && |segment| <= 14
    requires n <= MAX_SAFE + 2
    ensures FitsUstar(P.Candidate(segment, false, n)) && P.IsTopName(P.Candidate(segment, false, n))
  {
    P.CandidateIsTopName(segment, n);
    DecimalSizes();
    WidthBelow(n, 17);
    if n != 1 {
      DecimalIsReadBack(n);
      var cut := P.Cut(segment, false);
      assert P.Candidate(segment, false, n) == segment[..cut] + ([32, 40] + Decimal(n) + [41]) + segment[cut..];
    }
  }

  lemma AddingNoteHolds(f: MemberReader, out: text, names: set<text>, items: seq<Item>, k: nat, i: Item)
    requires HoldsWithNotes(f, out, names, items, k) && IsWhole(f, i)
    requires i.member.typ == TYPE_FILE && P.IsTopName(i.member.name)
    requires PathOf(i) == i.member.name && i.member.name !in names
    ensures HoldsWithNotes(f, out + ItemBytes(i), names + {i.member.name}, items + [i], k)
  {
    SafeWithOneMore(items, i);
    NotesWithOneMore(items, k, i);
  }

  /** Notes written by the relay are read back whole. */
  ghost predicate ReadsNotes(f: MemberReader)
  {
    forall name, content, now :: FitsUstar(name) && |content| <= MAX_SAFE ==> IsWhole(f, NoteItem(name, content, now))
  }

  lemma ReadNextReadsNotes()
    ensures ReadsNotes(Reader())
  {
    forall name, content, now | FitsUstar(name) && |content| <= MAX_SAFE
      ensures IsWhole(Reader(), NoteItem(name, content, now))
    {
      NoteIsWhole(name, content, now);
    }
  }

  lemma NoteItemBytes(name: text, content: text, now: Option<int>)
    ensures ItemBytes(NoteItem(name, content, now)) == NoteBytes(name, content, now)
  {
    var b := UstarBlock(NoteFields(name, content, now));
    assert [] + b == b;
  }

  lemma WithNoteHolds(f: MemberReader, st: State, items: seq<Item>, k: nat, segment: text, content: text, now: Option<int>)
    returns (i: Item)
    requires ReadsNotes(f) && HoldsWithNotes(f, st.out, st.names, items, k)
    requires P.IsTopName(segment) && FitsUstar(segment) && |segment| <= 14
    requires |items| <= MAX_SAFE + 1 && |content| <= MAX_SAFE
    ensures var after := WithNote(st, segment, content, now);
            HoldsWithNotes(f, after.out, after.names, items + [i], k)
    ensures Says(i, content)
  {
    var name := P.Claimed(st.names, segment, false);
    NoteFitsUstar(segment, st.names);
    i := NoteItem(name, content, now);
    assert IsWhole(f, i);
    P.TopNameIsItsPath(name);
    NoteItemBytes(name, content, now);
    AddingNoteHolds(f, st.out, st.names, items, k, i);
  }

  lemma NotesWithOneMore(items: seq<Item>, k: nat, i: Item)
    requires forall j :: k <= j < |items| ==> IsNote(items, j)
    ensures forall j :: k <= j < |items| ==> IsNote(items + [i], j)
  {
    forall j | k <= j < |items|
      ensures IsNote(items + [i], j)
    {
      assert IsNote(items, j);
    }
  }

  /** Notes small enough to be a member. */
  ghost predicate AreSmall(notes: Notes)
  {
    && (forall skips, extra, messages :: |notes.skipped(skips, extra, messages)| <= MAX_SAFE)
    && (forall limit, files, bytes :: |notes.truncated(limit, files, bytes)| <= MAX_SAFE)
  }

  lemma NoteNames()
    ensures P.IsTopName(SKIPPED_NOTE) && FitsUstar(SKIPPED_NOTE)
    ensures P.IsTopName(TRUNCATED_NOTE) && FitsUstar(TRUNCATED_NOTE)
  {
  }

  /** A file of just this content. */
  predicate Says(i: Item, content: text)
  {
    i.member.typ == TYPE_FILE && i.member.size == |content| && |content| <= |i.body| && i.body[..|content|] == content
  }

  /**
   * The items from the `k`-th on are the notes: one of what was left out and of the messages, if there is any,
   * and then one of the limit, if one was passed.
   */
  predicate NotesAre(all: seq<Item>, k: nat, st: State, limit: Option<Limit>, remote: Remote, notes: Notes)
  {
    var some := st.skips != [] || remote.messages != [];
    && |all| == k + (if some then 1 else 0) + (if limit.Some? then 1 else 0)
    && (some ==> Says(all[k], notes.skipped(FirstOf(st.skips), |st.skips| - |FirstOf(st.skips)|, remote.messages)))
    && (limit.Some? ==> Says(all[|all| - 1], notes.truncated(limit.value, st.files, st.bytes)))
  }

  lemma NoteIfHolds(f: MemberReader, wanted: bool, st: State, items: seq<Item>, k: nat,
                    segment: text, content: text, now: Option<int>) returns (all: seq<Item>)
    requires ReadsNotes(f) && HoldsWithNotes(f, st.out, st.names, items, k) && |items| <= MAX_SAFE + 1
    requires P.IsTopName(segment) && FitsUstar(segment) && |segment| <= 14 && |content| <= MAX_SAFE
    ensures var after := WithNoteIf(wanted, st, segment, content, now);
            HoldsWithNotes(f, after.out, after.names, all, k)
    ensures if wanted then |all| == |items| + 1 && all[..|items|] == items && Says(all[|items|], content) else all == items
  {
    all := items;
    if wanted {
      var i := WithNoteHolds(f, st, items, k, segment, content, now);
      all := items + [i];
    }
  }

  lemma TextsAreSmall(st: State, st1: State, limit: Option<Limit>, remote: Remote, notes: Notes)
    requires AreSmall(notes)
    ensures |SkippedText(st, remote, notes)| <= MAX_SAFE && |TruncatedText(st1, limit, notes)| <= MAX_SAFE
  {
  }

  lemma NotesHold(f: MemberReader, st: State, items: seq<Item>, limit: Option<Limit>, remote: Remote, notes: Notes)
    returns (all: seq<Item>)
    requires ReadsNotes(f) && HoldsWithNotes(f, st.out, st.names, items, |items|)
    requires |items| <= MAX_SAFE && AreSmall(notes)
    ensures var after := WithTruncatedNote(WithSkippedNote(st, remote, notes), limit, notes);
            HoldsWithNotes(f, after.out, after.names, all, |items|)
    ensures |items| <= |all| <= |items| + 2 && all[..|items|] == items
    ensures NotesAre(all, |items|, st, limit, remote, notes)
  {
    hide AreSmall, HoldsWithNotes, ReadsNotes, Says, NotesAre, SkippedText, TruncatedText, WithNoteIf;
    NoteNames();
    var st1 := WithSkippedNote(st, remote, notes);
    TextsAreSmall(st, st1, limit, remote, notes);
    var some := NoteIfHolds(f, st.skips != [] || remote.messages != [], st, items, |items|,
                            SKIPPED_NOTE, SkippedText(st, remote, notes), notes.now);
    all := NoteIfHolds(f, limit.Some?, st1, some, |items|, TRUNCATED_NOTE, TruncatedText(st1, limit, notes), notes.now);
    TheseAreNotes(items, some, all, st, limit, remote, notes);
  }

  lemma TheseAreNotes(items: seq<Item>, some: seq<Item>, all: seq<Item>, st: State, limit: Option<Limit>, remote: Remote, notes: Notes)
    requires if st.skips != [] || remote.messages != []
             then |some| == |items| + 1 && some[..|items|] == items && Says(some[|items|], SkippedText(st, remote, notes))
             else some == items
    requires var text := TruncatedText(WithSkippedNote(st, remote, notes), limit, notes);
             if limit.Some? then |all| == |some| + 1 && all[..|some|] == some && Says(all[|some|], text) else all == some
    ensures all[..|items|] == items && NotesAre(all, |items|, st, limit, remote, notes)
  {
    hide Says, NoteBytes, P.Claimed;
    assert |items| <= |some| <= |all| && all[..|some|] == some;
    assert all[..|items|] == some[..|items|];
    assert |some| > |items| ==> all[|items|] == some[|items|];
  }

  /** The whole archive, read back. */
  lemma EndedArchive(f: MemberReader, parse: Parser, out: text, names: set<text>, items: seq<Item>, k: nat)
    requires IsLocalReader(f, parse) && HoldsWithNotes(f, out, names, items, k)
    ensures var all := out + Zeros(1024);
            && |all| % BLOCK == 0 && all[|all| - 1024..] == Zeros(1024) && Items(f, all) == Some(items)
  {
    hide IsLocalReader, Items, AllWhole, AllSafe, AllBytes, IsNote, TopNamesIn;
    ArchiveIsReadBack(f, parse, items);
    AllBytesAreBlocks(f, items);
  }

  // ── The main results ───────────────────────────────────────────────────────

  /** An archive whose first `k` items are the kept members and whose others are notes. */
  ghost predicate IsSafeArchive(out: text, summary: Summary, items: seq<Item>, k: nat, lim: Limits)
  {
    && |out| % BLOCK == 0 && |out| >= 1024 && out[|out| - 1024..] == Zeros(1024)
    && Items(Reader(), out) == Some(items) && AllSafe(items)
    && k <= |items| <= k + 2 && k <= lim.maxFiles
    && summary.bytes == ContentOf(items[..k]) <= lim.maxBytes
    && summary.files == CountFiles(items[..k])
    && forall j :: k <= j < |items| ==> IsNote(items, j)
  }

  /**
   * For every input, what the relay sends on normal return is a whole archive of 512-byte blocks that
   * ends in two zero blocks. Read back, every member lands inside the folder, under no symbolic link
   * before it, and links only to a member before it; the kept members are within both limits, the bytes
   * as `ContentOf` counts them, and are what the summary counts; and the notes have names of their own.
   */
  lemma OutputIsSafe(input: text, lim: Limits, remote: Remote, notes: Notes) returns (items: seq<Item>, k: nat)
    requires Relayed(input, lim, remote, notes).Finished?
    requires lim.maxFiles <= MAX_SAFE && AreSmall(notes)
    ensures var r := Relayed(input, lim, remote, notes); IsSafeArchive(r.out, r.summary, items, k, lim)
  {
    hide Reader, RelayFrom, Holds, WithSkippedNote, WithTruncatedNote;
    var o := RelayFrom(Reader(), input, START, lim);
    var kept := LoopIsSafe(input, lim);
    var st := StateOf(o).value;
    var limit := if o.Truncated? then Some(o.limit) else None;
    ReadNextReadsNotes();
    items := NotesHold(Reader(), st, kept, limit, remote, notes);
    k := |kept|;
    var after := WithTruncatedNote(WithSkippedNote(st, remote, notes), limit, notes);
    ReadNextIsLocal();
    EndedArchive(Reader(), ParseHeader, after.out, after.names, items, k);
  }

  // ── Safe archives go through ───────────────────────────────────────────────

  lemma {:induction false} BytesOfConcat(a: seq<Item>, b: seq<Item>)
    ensures AllBytes(a + b) == AllBytes(a) + AllBytes(b)
    decreases |b|
  {
    hide ItemBytes;
    if b == [] {
      assert a + b == a;
    } else {
      var init, last := b[..|b| - 1], b[|b| - 1];
      BytesOfConcat(a, init);
      assert AllBytes(a) + AllBytes(init) + ItemBytes(last) == AllBytes(a) + (AllBytes(init) + ItemBytes(last));
      assert (a + b)[..|a + b| - 1] == a + init && (a + b)[|a + b| - 1] == last;
    }
  }

  lemma FirstInFront(items: seq<Item>)
    requires items != []
    ensures AllBytes(items) == ItemBytes(items[0]) + AllBytes(items[1..])
  {
    hide ItemBytes;
    BytesOfConcat([items[0]], items[1..]);
    assert [items[0]] + items[1..] == items;
    assert [items[0]][..0] == [] && AllBytes([items[0]]) == [] + ItemBytes(items[0]);
  }

  lemma {:induction false} ContentGrows(items: seq<Item>, k: nat)
    requires k <= |items|
    ensures ContentOf(items[..k]) <= ContentOf(items)
    decreases |items|
  {
    if k < |items| {
      ContentGrows(items[..|items| - 1], k);
      assert items[..|items| - 1][..k] == items[..k];
    } else {
      assert items[..k] == items;
    }
  }

  lemma SafeAtPrefix(items: seq<Item>, k: nat)
    requires k < |items| && IsSafe(items, k)
    ensures IsSafe(items[..k] + [items[k]], k)
  {
    var some := items[..k] + [items[k]];
    var m := items[k].member;
    assert forall j :: 0 <= j <= k ==> some[j] == items[j];
    if m.typ == TYPE_HARDLINK {
      var j :| 0 <= j < k && IsFile(items[j]) && P.MemberPath(m.link) == Some(PathOf(items[j]));
      assert IsFile(some[j]);
    }
  }

  /** An item that needs no clearing is kept as it is. */
  lemma KeptAsItIs(st: State, i: Item)
    requires WithoutSetId(i.member.block) == i.member.block
    ensures Kept(st, i.member, PathOf(i), i.body) == Added(st, i)
  {
    KeptIsAdded(st, i.member, i.body);
  }

  /** An archive the relay has nothing to change in. */
  ghost predicate IsClean(f: MemberReader, items: seq<Item>, lim: Limits)
  {
    && AllWhole(f, items) && AllSafe(items) && |items| <= lim.maxFiles && ContentOf(items) <= lim.maxBytes
    && forall k :: 0 <= k < |items| ==> WithoutSetId(items[k].member.block) == items[k].member.block
  }

  /** A member that is judged to be kept and passes no limit is kept. */
  lemma KeepingTurn(f: MemberReader, i: Item, st: State, lim: Limits, s: text, rest: text)
    requires f(s) == Next(Found(i.member), i.body + rest) && |i.body| == WholeBlocks(i.member.size)
    requires Judge(i.member, st.keptFiles, st.keptLinks) == Keep(PathOf(i)) && Passed(st, i.member, lim).None?
    ensures RelayFrom(f, s, st, lim) == RelayFrom(f, rest, Kept(st, i.member, PathOf(i), i.body), lim)
  {
    hide Judge, Kept, PathOf;
    assert (i.body + rest)[..|i.body|] == i.body && (i.body + rest)[|i.body|..] == rest;
  }

  /** One item of a clean archive is kept. */
  lemma CleanTurn(f: MemberReader, parse: Parser, items: seq<Item>, k: nat, st: State, lim: Limits, rest: text)
    requires IsLocalReader(f, parse) && IsClean(f, items, lim) && k < |items| && Holds(f, st, items[..k], lim)
    ensures Holds(f, Added(st, items[k]), items[..k + 1], lim)
    ensures RelayFrom(f, ItemBytes(items[k]) + rest, st, lim) == RelayFrom(f, rest, Added(st, items[k]), lim)
  {
    hide IsLocalReader, IsClean, Holds, RelayFrom, ItemBytes, Added, Judge, Passed, Kept, IsWhole, IsSafe, WholeBlocks;
    var i := items[k];
    assert items[..k + 1] == items[..k] + [i];
    ItemLength(f, items, k, lim);
    ItemInFront(f, parse, i, rest);
    CleanItem(f, items, k, st, lim);
    AddingHolds(f, st, items[..k], lim, i);
    KeepingTurn(f, i, st, lim, ItemBytes(i) + rest, rest);
  }

  lemma ItemLength(f: MemberReader, items: seq<Item>, k: nat, lim: Limits)
    requires IsClean(f, items, lim) && k < |items|
    ensures IsWhole(f, items[k]) && |items[k].body| == WholeBlocks(items[k].member.size)
  {
  }

  lemma CleanItem(f: MemberReader, items: seq<Item>, k: nat, st: State, lim: Limits)
    requires IsClean(f, items, lim) && k < |items| && Holds(f, st, items[..k], lim)
    ensures var i := items[k];
            && Judge(i.member, st.keptFiles, st.keptLinks) == Keep(PathOf(i)) && Passed(st, i.member, lim).None?
            && Kept(st, i.member, PathOf(i), i.body) == Added(st, i)
            && IsSafe(items[..k] + [i], k) && IsWhole(f, i)
            && st.entries < lim.maxFiles && Added(st, i).bytes <= lim.maxBytes
  {
    hide Judge, Kept, WithoutSetId, AllBytes, TopNamesIn, ClaimTop;
    var i := items[k];
    SafeAtPrefix(items, k);
    SafeIsJudged(items[..k], i);
    KeptAsItIs(st, i);
    ContentGrows(items, k + 1);
    assert items[..k + 1] == items[..k] + [i];
  }

  lemma {:induction false} CleanFrom(f: MemberReader, parse: Parser, items: seq<Item>, k: nat, st: State, lim: Limits)
    returns (end: State)
    requires IsLocalReader(f, parse) && IsClean(f, items, lim) && k <= |items| && Holds(f, st, items[..k], lim)
    ensures RelayFrom(f, AllBytes(items[k..]) + Zeros(1024), st, lim) == Ended(true, end)
    ensures Holds(f, end, items, lim) && end.skips == st.skips
    decreases |items| - k
  {
    if k == |items| {
      assert items[k..] == [] && items[..k] == items;
      assert AllBytes(items[k..]) + Zeros(1024) == Zeros(1024);
      end := st;
    } else {
      hide Holds, IsLocalReader, Added, ItemBytes, RelayFrom;
      var rest := AllBytes(items[k + 1..]) + Zeros(1024);
      FirstInFront(items[k..]);
      assert items[k..][1..] == items[k + 1..];
      assert AllBytes(items[k..]) + Zeros(1024) == ItemBytes(items[k]) + rest;
      CleanTurn(f, parse, items, k, st, lim, rest);
      end := CleanFrom(f, parse, items, k + 1, Added(st, items[k]), lim);
    }
  }

  /** An archive of safe members within the limits, without setuid or setgid, goes through byte for byte. */
  lemma CleanArchivesPass(items: seq<Item>, lim: Limits, notes: Notes)
    requires IsClean(Reader(), items, lim)
    ensures var archive := AllBytes(items) + Zeros(1024);
            Relayed(archive, lim, Remote(true, []), notes)
              == Finished(archive, Summary(CountFiles(items), ContentOf(items), 0, false))
  {
    hide Reader, IsClean;
    ReadNextIsLocal();
    assert items[..0] == [] && items[0..] == items;
    assert Holds(Reader(), START, items[..0], lim);
    var end := CleanFrom(Reader(), ParseHeader, items, 0, START, lim);
  }
}
