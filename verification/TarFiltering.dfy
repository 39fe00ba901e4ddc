/**
 * What the relay does with every archive, whatever it holds: what goes out is the input less the
 * members an independent rule leaves out, and each of those is reported.
 */
module TarFiltering {
  import opened Bytes
  import opened Digits
  import opened Pax
  import opened TarHeader
  import opened TarRelay
  import opened TarRelaySafety
  import P = TarPaths

  /** The member at the start of an input, when its data blocks are there too. */
  predicate HasWhole(s: text)
  {
    ReadNext(s).read.Found? && |ReadNext(s).rest| >= WholeBlocks(ReadNext(s).read.member.size)
  }

  function FirstWhole(s: text): Item
    requires HasWhole(s)
  {
    Item(ReadNext(s).read.member, ReadNext(s).rest[..WholeBlocks(ReadNext(s).read.member.size)])
  }

  function AfterWhole(s: text): text
    requires HasWhole(s)
  {
    ReadNext(s).rest[WholeBlocks(ReadNext(s).read.member.size)..]
  }

  /** The input `s` begins with these whole members, and `rest` follows them. */
  ghost predicate Leads(s: text, items: seq<Item>, rest: text)
    decreases |items|
  {
    if items == [] then s == rest
    else HasWhole(s) && FirstWhole(s) == items[0] && Leads(AfterWhole(s), items[1..], rest)
  }

  /** The member without setuid and setgid. */
  function Cleared(i: Item): Item
  {
    ItemOf(i.member, i.body)
  }

  /** The members kept: each one that is safe after those kept before it. */
  function Filtered(items: seq<Item>): (kept: seq<Item>)
    ensures |kept| <= |items|
  {
    if items == [] then []
    else
      var before, i := Filtered(items[..|items| - 1]), Cleared(items[|items| - 1]);
      if IsSafe(before + [i], |before|) then before + [i] else before
  }

  /** A kept symbolic link at `link`, above the path. */
  ghost predicate LinkAbove(kept: seq<Item>, link: text, path: text)
  {
    P.IsAbove(link, path) && exists j :: 0 <= j < |kept| && kept[j].member.typ == TYPE_SYMLINK && PathOf(kept[j]) == link
  }

  ghost predicate UnderLink(kept: seq<Item>, path: text)
  {
    exists link: text :: LinkAbove(kept, link, path)
  }

  /** Why a member is left out; the first of these that holds is given. */
  ghost predicate IsReason(kept: seq<Item>, i: Item, r: Reason)
  {
    var m := i.member;
    var path := PathOf(i);
    match r
    case LeavesFolder => P.MemberPath(m.name).None?
    case InsideLink(link) =>
      && P.MemberPath(m.name).Some? && path != [] && LinkAbove(kept, link, path)
      && forall other :: LinkAbove(kept, other, path) ==> |link| <= |other|
    case NoSuchTarget =>
      && P.MemberPath(m.name).Some? && path != [] && !UnderLink(kept, path) && m.typ == TYPE_HARDLINK
      && !exists j :: 0 <= j < |kept| && IsFile(kept[j]) && P.MemberPath(m.link) == Some(PathOf(kept[j]))
    case NotRegular =>
      P.MemberPath(m.name).Some? && path != [] && !UnderLink(kept, path) && IsSpecial(m.typ)
  }

  /** One report for each member that is neither kept nor the folder itself, in order. */
  ghost predicate SkipsAre(items: seq<Item>, skips: seq<Skipped>)
  {
    if items == [] then skips == []
    else
      var init, last := items[..|items| - 1], items[|items| - 1];
      if IsSafe(Filtered(init) + [Cleared(last)], |Filtered(init)|) || P.MemberPath(last.member.name) == Some([])
      then SkipsAre(init, skips)
      else
        && skips != [] && SkipsAre(init, skips[..|skips| - 1])
        && skips[|skips| - 1].name == last.member.name && IsReason(Filtered(init), last, skips[|skips| - 1].reason)
  }

  /** The relay after the members of `done`. */
  ghost predicate Follows(st: State, done: seq<Item>, lim: Limits)
  {
    Holds(Reader(), st, Filtered(done), lim) && SkipsAre(done, st.skips)
  }

  // ── One member ─────────────────────────────────────────────────────────────

  lemma KeepsIfSafe(kept: seq<Item>, i: Item)
    ensures Judge(i.member, FilesOf(kept), LinksOf(kept)).Keep? <==> IsSafe(kept + [Cleared(i)], |kept|)
    ensures Judge(i.member, FilesOf(kept), LinksOf(kept)).Keep? ==>
      Judge(i.member, FilesOf(kept), LinksOf(kept)) == Keep(PathOf(i))
    ensures Judge(i.member, FilesOf(kept), LinksOf(kept)).Folder? <==> P.MemberPath(i.member.name) == Some([])
  {
    var c := Cleared(i);
    assert Judge(i.member, FilesOf(kept), LinksOf(kept)) == Judge(c.member, FilesOf(kept), LinksOf(kept));
    hide Judge, IsSafe;
    if Judge(c.member, FilesOf(kept), LinksOf(kept)).Keep? {
      JudgedSafe(kept, c);
    }
    if IsSafe(kept + [c], |kept|) {
      SafeIsJudged(kept, c);
    }
    FolderIsFolder(i.member, FilesOf(kept), LinksOf(kept));
    assert PathOf(c) == PathOf(i);
  }

  lemma FolderIsFolder(m: Member, files: set<text>, links: set<text>)
    ensures Judge(m, files, links).Folder? <==> P.MemberPath(m.name) == Some([])
  {
    hide P.MemberPath, P.LinkFrom;
  }

  lemma LinksAbove(kept: seq<Item>, path: text, link: text)
    ensures link in LinksOf(kept) && P.IsAbove(link, path) <==> LinkAbove(kept, link, path)
  {
    hide PathOf;
  }

  lemma SkipHasReason(kept: seq<Item>, i: Item)
    requires Judge(i.member, FilesOf(kept), LinksOf(kept)).Skip?
    ensures IsReason(kept, i, Judge(i.member, FilesOf(kept), LinksOf(kept)).reason)
  {
    var m, path := i.member, PathOf(i);
    hide P.MemberPath, P.IsAbove, LinkAbove, LinksOf, FilesOf;
    forall link ensures link in LinksOf(kept) && P.IsAbove(link, path) <==> LinkAbove(kept, link, path) {
      LinksAbove(kept, path, link);
    }
    if P.MemberPath(m.name).Some? {
      P.LinkIsShortest(path, LinksOf(kept), 0);
      NoFileAt(kept, m);
    }
  }

  lemma NoFileAt(kept: seq<Item>, m: Member)
    ensures (P.MemberPath(m.link).Some? && P.MemberPath(m.link).value in FilesOf(kept)) <==>
      exists j :: 0 <= j < |kept| && IsFile(kept[j]) && P.MemberPath(m.link) == Some(PathOf(kept[j]))
  {
    hide P.MemberPath, PathOf;
  }

  lemma FilteredOne(done: seq<Item>, i: Item)
    ensures var kept := Filtered(done);
            Filtered(done + [i]) == if IsSafe(kept + [Cleared(i)], |kept|) then kept + [Cleared(i)] else kept
  {
    hide IsSafe, Cleared;
    assert (done + [i])[..|done|] == done;
  }

  lemma SkipsOne(done: seq<Item>, skips: seq<Skipped>, i: Item, v: Verdict)
    requires SkipsAre(done, skips) && v == Judge(i.member, FilesOf(Filtered(done)), LinksOf(Filtered(done)))
    ensures SkipsAre(done + [i], if v.Skip? then skips + [Skipped(i.member.name, v.reason)] else skips)
  {
    KeepsIfSafe(Filtered(done), i);
    if v.Skip? {
      SkipHasReason(Filtered(done), i);
    }
    hide IsSafe, Cleared, Judge, IsReason, Filtered, P.MemberPath;
    assert (done + [i])[..|done|] == done;
    if v.Skip? {
      assert (skips + [Skipped(i.member.name, v.reason)])[..|skips|] == skips;
    }
  }

  /** What keeping the member would pass, bytes first. */
  function Exceeds(kept: seq<Item>, m: Member, lim: Limits): Option<Limit>
  {
    if !(49 <= m.typ <= 54) && ContentOf(kept) + m.size > lim.maxBytes then Some(Limit.Bytes)
    else if |kept| + 1 > lim.maxFiles then Some(Limit.Files)
    else None
  }

  predicate SafeNext(kept: seq<Item>, m: Member)
  {
    IsSafe(kept + [Cleared(Item(m, []))], |kept|)
  }

  lemma BodyIsAside(kept: seq<Item>, i: Item)
    ensures SafeNext(kept, i.member) <==> IsSafe(kept + [Cleared(i)], |kept|)
  {
    KeepsIfSafe(kept, i);
    KeepsIfSafe(kept, Item(i.member, []));
  }

  lemma LimitIs(st: State, done: seq<Item>, lim: Limits, m: Member)
    requires Follows(st, done, lim)
    ensures Passed(st, m, lim) == Exceeds(Filtered(done), m, lim)
  {
    hide Filtered, SkipsAre, AllWhole, AllSafe, AllBytes, TopNamesIn;
  }

  /** A whole member is kept if it is safe and fits, and left out with its reason if it is not safe. */
  lemma OneFollows(s: text, st: State, done: seq<Item>, lim: Limits)
    requires Follows(st, done, lim) && HasWhole(s)
    requires SafeNext(Filtered(done), FirstWhole(s).member) ==> Exceeds(Filtered(done), FirstWhole(s).member, lim).None?
    ensures var i := FirstWhole(s);
            var v := Judge(i.member, st.keptFiles, st.keptLinks);
            && (v.Keep? ==> Passed(st, i.member, lim).None?)
            && Follows(if v.Keep? then Kept(st, i.member, v.path, i.body) else LeftOut(st, i.member, v), done + [i], lim)
  {
    var kept, i := Filtered(done), FirstWhole(s);
    var v := Judge(i.member, st.keptFiles, st.keptLinks);
    FilteredOne(done, i);
    KeepsIfSafe(kept, i);
    BodyIsAside(kept, i);
    SkipsOne(done, st.skips, i, v);
    LimitIs(st, done, lim, i.member);
    ClearedWhole(s, i.body);
    hide Judge, IsWhole, IsSafe, SafeNext, Filtered, Reader, SkipsAre, Kept, ReadNext, AllSafe, AllWhole, AllBytes, TopNamesIn, Exceeds, Passed;
    if v.Keep? {
      hide Holds;
      KeepingHolds(Reader(), st, kept, lim, i.member, i.body);
      KeptSkips(st, i.member, v.path, i.body);
    }
  }

  lemma KeptSkips(st: State, m: Member, path: text, body: text)
    ensures Kept(st, m, path, body).skips == st.skips
  {
  }

  /** The loop stops at `s`: there is no whole member, or it is safe but past a limit. */
  ghost predicate StopsAt(s: text, done: seq<Item>, lim: Limits)
  {
    HasWhole(s) ==> SafeNext(Filtered(done), FirstWhole(s).member) && Exceeds(Filtered(done), FirstWhole(s).member, lim).Some?
  }

  lemma OneTurn(s: text, st: State, lim: Limits)
    requires HasWhole(s)
    requires Judge(FirstWhole(s).member, st.keptFiles, st.keptLinks).Keep? ==> Passed(st, FirstWhole(s).member, lim).None?
    ensures var i := FirstWhole(s);
            var v := Judge(i.member, st.keptFiles, st.keptLinks);
            RelayFrom(Reader(), s, st, lim)
              == RelayFrom(Reader(), AfterWhole(s), if v.Keep? then Kept(st, i.member, v.path, i.body) else LeftOut(st, i.member, v), lim)
    ensures |AfterWhole(s)| < |s|
  {
    hide ReadNext, WholeBlocks, Judge, Kept, LeftOut, Passed;
  }

  lemma LeadsFirst(s: text, items: seq<Item>, rest: text)
    requires HasWhole(s) && Leads(AfterWhole(s), items, rest)
    ensures Leads(s, [FirstWhole(s)] + items, rest)
  {
    hide HasWhole, FirstWhole, AfterWhole;
    assert ([FirstWhole(s)] + items)[1..] == items;
  }

  /** The loop takes the members one by one until it stops. */
  lemma {:induction false} LoopFilters(s: text, st: State, done: seq<Item>, lim: Limits)
    returns (items: seq<Item>, rest: text, end: State)
    requires Follows(st, done, lim)
    ensures Leads(s, items, rest) && Follows(end, done + items, lim) && StopsAt(rest, done + items, lim)
    ensures RelayFrom(Reader(), s, st, lim) == RelayFrom(Reader(), rest, end, lim)
    decreases |s|
  {
    hide Follows, RelayFrom, Judge, Kept, LeftOut, HasWhole, FirstWhole, AfterWhole, SafeNext, Exceeds, Passed, Filtered;
    if StopsAt(s, done, lim) {
      items, rest, end := [], s, st;
      assert done + items == done;
    } else {
      var i := FirstWhole(s);
      var v := Judge(i.member, st.keptFiles, st.keptLinks);
      OneFollows(s, st, done, lim);
      OneTurn(s, st, lim);
      var more;
      more, rest, end := LoopFilters(AfterWhole(s), if v.Keep? then Kept(st, i.member, v.path, i.body) else LeftOut(st, i.member, v), done + [i], lim);
      LeadsFirst(s, more, rest);
      items := [i] + more;
      assert done + [i] + more == done + items;
    }
  }

  lemma StartFollows(lim: Limits)
    ensures Follows(START, [], lim)
  {
  }

  // ── The main result ────────────────────────────────────────────────────────

  /** A normal return: what goes out for the kept members, the notes after them, and the summary. */
  ghost predicate IsReport(r: Result, items: seq<Item>, out: seq<Item>, skips: seq<Skipped>, limit: Option<Limit>, remote: Remote, notes: Notes)
  {
    var kept := Filtered(items);
    && SkipsAre(items, skips) && r.Finished?
    && Items(Reader(), r.out) == Some(out) && |kept| <= |out| && out[..|kept|] == kept
    && r.summary == Summary(CountFiles(kept), ContentOf(kept), |skips| + |remote.messages|, limit.Some?)
    && var some := skips != [] || remote.messages != [];
    && |out| == |kept| + (if some then 1 else 0) + (if limit.Some? then 1 else 0)
    && (some ==> Says(out[|kept|], notes.skipped(FirstOf(skips), |skips| - |FirstOf(skips)|, remote.messages)))
    && (limit.Some? ==> Says(out[|out| - 1], notes.truncated(limit.value, CountFiles(kept), ContentOf(kept))))
  }

  lemma FinishedReport(st: State, items: seq<Item>, lim: Limits, limit: Option<Limit>, remote: Remote, notes: Notes) returns (out: seq<Item>)
    requires Follows(st, items, lim) && lim.maxFiles <= MAX_SAFE && AreSmall(notes)
    ensures IsReport(Finish(st, limit, remote, notes), items, out, st.skips, limit, remote, notes)
  {
    hide Reader, AreSmall, WithSkippedNote, WithTruncatedNote, AllBytes, AllWhole, AllSafe, Items, Says, Filtered, SkipsAre, TopNamesIn;
    ReadNextReadsNotes();
    ReadNextIsLocal();
    out := NotesHold(Reader(), st, Filtered(items), limit, remote, notes);
    var after := WithTruncatedNote(WithSkippedNote(st, remote, notes), limit, notes);
    EndedArchive(Reader(), ParseHeader, after.out, after.names, out, |Filtered(items)|);
  }

  lemma StateIs(st: State, items: seq<Item>, lim: Limits)
    requires Follows(st, items, lim)
    ensures st.started <==> Filtered(items) != []
    ensures st.out == AllBytes(Filtered(items))
  {
    hide Filtered, SkipsAre;
  }

  /** How the loop ends at what follows the members it took. */
  lemma LastTurn(rest: text, st: State, items: seq<Item>, lim: Limits)
    requires Follows(st, items, lim) && StopsAt(rest, items, lim)
    ensures var o, kept, next := RelayFrom(Reader(), rest, st, lim), Filtered(items), ReadNext(rest);
            var out := AllBytes(kept);
            match next.read
            case EndOfInput => o == Ended(false, st)
            case EndBlock => o == Ended(true, st)
            case PartialBlock => o == if kept == [] then NotStarted(Unreadable) else Broken(Unreadable, out)
            case Damaged => o == if kept == [] then NotStarted(Unreadable) else Broken(Unreadable, out)
            case Oversized => o == Broken(BadPreamble, out)
            case InsideHeader => o == Broken(BadPreamble, out)
            case Found(m) =>
              if SafeNext(kept, m) && Exceeds(kept, m, lim).Some? then o == Truncated(st, Exceeds(kept, m, lim).value)
              else !HasWhole(rest) && o == Broken(InsideFile, if SafeNext(kept, m) then out + m.held + WithoutSetId(m.block) + next.rest else out)
  {
    StateIs(st, items, lim);
    if ReadNext(rest).read.Found? {
      var m := ReadNext(rest).read.member;
      BodyIsAside(Filtered(items), Item(m, []));
      KeepsIfSafe(Filtered(items), Item(m, []));
      LimitIs(st, items, lim, m);
      SetsAre(st, items, lim);
      hide Judge, SafeNext, Exceeds, Passed, Filtered, Follows, ReadNext, AllBytes, WholeBlocks;
    } else {
      hide Filtered, Follows, ReadNext, AllBytes;
    }
  }

  lemma SetsAre(st: State, items: seq<Item>, lim: Limits)
    requires Follows(st, items, lim)
    ensures st.keptFiles == FilesOf(Filtered(items)) && st.keptLinks == LinksOf(Filtered(items))
  {
    hide Filtered, SkipsAre, FilesOf, LinksOf;
  }

  /**
   * What becomes of every input. It begins with some whole members, `items`; what goes out for them is
   * exactly those that an independent rule keeps, in order, and each other one that is not the folder
   * itself is reported once, with its reason. The relay takes members until a zero block, a member that is
   * safe but past a limit, or input it cannot read: only the first two are normal returns.
   */
  lemma RelayFilters(input: text, lim: Limits, remote: Remote, notes: Notes)
    returns (items: seq<Item>, rest: text, out: seq<Item>, skips: seq<Skipped>)
    requires lim.maxFiles <= MAX_SAFE && AreSmall(notes)
    ensures Leads(input, items, rest) && |Filtered(items)| <= lim.maxFiles && ContentOf(Filtered(items)) <= lim.maxBytes
    ensures var r, kept, next := Relayed(input, lim, remote, notes), Filtered(items), ReadNext(rest);
            match next.read
            case EndBlock =>
              if kept == [] && !remote.exitedWell then r == Fallback(TarFailed)
              else IsReport(r, items, out, skips, None, remote, notes)
            case EndOfInput => r == if kept == [] then Fallback(TarFailed) else Failed(NoEndBlocks, AllBytes(kept))
            case PartialBlock => r == if kept == [] then Fallback(Unreadable) else Failed(Unreadable, AllBytes(kept))
            case Damaged => r == if kept == [] then Fallback(Unreadable) else Failed(Unreadable, AllBytes(kept))
            case Oversized => r == Failed(BadPreamble, AllBytes(kept))
            case InsideHeader => r == Failed(BadPreamble, AllBytes(kept))
            case Found(m) =>
              if SafeNext(kept, m) && Exceeds(kept, m, lim).Some?
              then IsReport(r, items, out, skips, Exceeds(kept, m, lim), remote, notes)
              else !HasWhole(rest) && r == Failed(InsideFile,
                AllBytes(kept) + if SafeNext(kept, m) then m.held + WithoutSetId(m.block) + next.rest else [])
  {
    StartFollows(lim);
    hide RelayFrom, IsReport, Finish, AreSmall, Reader, Filtered, HasWhole, SafeNext, Exceeds, ReadNext, Leads, StopsAt, AllBytes;
    var end;
    items, rest, end := LoopFilters(input, START, [], lim);
    assert [] + items == items;
    LastTurn(rest, end, items, lim);
    StateIs(end, items, lim);
    skips := end.skips;
    var next := ReadNext(rest).read;
    var limit := if next.Found? then Exceeds(Filtered(items), next.member, lim) else None;
    out := FinishedReport(end, items, lim, limit, remote, notes);
    FollowersFit(end, items, lim);
    hide Follows;
    if next.Found? {
      Joined(AllBytes(Filtered(items)), next.member.held, WithoutSetId(next.member.block), ReadNext(rest).rest);
    }
    assert AllBytes(Filtered(items)) + [] == AllBytes(Filtered(items));
  }

  lemma FollowersFit(st: State, items: seq<Item>, lim: Limits)
    requires Follows(st, items, lim)
    ensures |Filtered(items)| <= lim.maxFiles && ContentOf(Filtered(items)) <= lim.maxBytes
  {
    hide Filtered, SkipsAre;
  }

  lemma Joined(a: text, b: text, c: text, d: text)
    ensures a + b + c + d == a + (b + c + d)
  {
  }
}
