/** Paths of archive members, as bytes: where a member would land, and through which link. */
module TarPaths {
  import opened Bytes
  import opened Digits
  import opened Pax

  const SLASH: byte := 47
  const BACKSLASH: byte := 92
  const DOT: byte := 46
  const COLON: byte := 58

  type Separator = byte -> bool

  predicate IsSlash(b: byte)
  {
    b == SLASH
  }

  predicate IsAnySlash(b: byte)
  {
    b == SLASH || b == BACKSLASH
  }

  /** `split`: the parts between separators, one more than there are separators. */
  function Split(s: text, sep: Separator): (parts: seq<text>)
    ensures parts != []
  {
    if s == [] then [[]]
    else
      var rest := Split(s[1..], sep);
      if sep(s[0]) then [[]] + rest else [[s[0]] + rest[0]] + rest[1..]
  }

  function Join(parts: seq<text>): text
  {
    if parts == [] then []
    else if |parts| == 1 then parts[0]
    else parts[0] + [SLASH] + Join(parts[1..])
  }

  /** A part that names something: not empty and not `.`. */
  predicate Names(part: text)
  {
    part != [] && part != [DOT]
  }

  function Named(parts: seq<text>): (r: seq<text>)
    ensures forall i :: 0 <= i < |r| ==> r[i] in parts && Names(r[i])
  {
    if parts == [] then []
    else (if Names(parts[0]) then [parts[0]] else []) + Named(parts[1..])
  }

  const UP: text := [DOT, DOT]

  predicate IsLetter(b: byte)
  {
    65 <= b <= 90 || 97 <= b <= 122
  }

  predicate HasDrive(path: text)
  {
    |path| >= 2 && IsLetter(path[0]) && path[1] == COLON
  }

  /** Absolute, or climbing out, to any extractor. */
  predicate Leaves(raw: text)
  {
    (raw != [] && IsAnySlash(raw[0])) || UP in Split(raw, IsAnySlash)
  }

  /** `memberPath`: the path inside the folder, empty for the folder itself. */
  function MemberPath(raw: text): Option<text>
  {
    if Leaves(raw) then None
    else
      var path := Join(Named(Split(raw, IsSlash)));
      if HasDrive(path) then None else Some(path)
  }

  // ── Member paths are clean ─────────────────────────────────────────────────

  predicate Within(part: text, sep: Separator)
  {
    forall i :: 0 <= i < |part| ==> !sep(part[i])
  }

  lemma {:induction false} PartsAreWithin(s: text, sep: Separator)
    ensures forall i :: 0 <= i < |Split(s, sep)| ==> Within(Split(s, sep)[i], sep)
  {
    if s != [] {
      PartsAreWithin(s[1..], sep);
    }
  }

  lemma {:induction false} SplitPart(part: text, sep: Separator)
    requires Within(part, sep)
    ensures Split(part, sep) == [part]
  {
    if part != [] {
      SplitPart(part[1..], sep);
      assert [part[0]] + part[1..] == part;
    }
  }

  lemma {:induction false} SplitAfter(part: text, rest: text)
    requires Within(part, IsSlash)
    ensures Split(part + [SLASH] + rest, IsSlash) == [part] + Split(rest, IsSlash)
    decreases |part|
  {
    var s := part + [SLASH] + rest;
    if part == [] {
      assert s[1..] == rest;
    } else {
      assert s[1..] == part[1..] + [SLASH] + rest;
      SplitAfter(part[1..], rest);
      assert [part[0]] + part[1..] == part;
    }
  }

  lemma {:induction false} SplitOfJoin(parts: seq<text>)
    requires parts != [] && forall i :: 0 <= i < |parts| ==> Within(parts[i], IsSlash)
    ensures Split(Join(parts), IsSlash) == parts
    decreases |parts|
  {
    if |parts| == 1 {
      SplitPart(parts[0], IsSlash);
    } else {
      SplitOfJoin(parts[1..]);
      SplitAfter(parts[0], Join(parts[1..]));
      assert [parts[0]] + parts[1..] == parts;
    }
  }

  /** A component of the coarser split without a backslash is a component of the finer one. */
  lemma {:induction false} UpIsUp(s: text)
    requires UP in Split(s, IsSlash)
    ensures UP in Split(s, IsAnySlash)
    decreases |s|
  {
    UpAt(s);
    var k :| 0 <= k < |Split(s, IsSlash)| && Split(s, IsSlash)[k] == UP;
    if k == 0 {
    } else {
      UpLater(s, k);
    }
  }

  /** The first component is that of the finer split too, if it has no backslash. */
  lemma {:induction false} UpAt(s: text)
    ensures Within(Split(s, IsSlash)[0], IsAnySlash) ==> Split(s, IsSlash)[0] == Split(s, IsAnySlash)[0]
    decreases |s|
  {
    if s != [] && !IsSlash(s[0]) {
      UpAt(s[1..]);
      var first := Split(s[1..], IsSlash)[0];
      if Within(Split(s, IsSlash)[0], IsAnySlash) {
        assert Split(s, IsSlash)[0][0] == s[0];
        assert forall i :: 0 <= i < |first| ==> Split(s, IsSlash)[0][i + 1] == first[i];
      }
    }
  }

  lemma {:induction false} UpLater(s: text, k: nat)
    requires 0 < k < |Split(s, IsSlash)| && Split(s, IsSlash)[k] == UP
    ensures UP in Split(s, IsAnySlash)[1..]
    decreases |s|
  {
    var rest := Split(s[1..], IsSlash);
    var fine := Split(s[1..], IsAnySlash);
    if IsSlash(s[0]) {
      if k == 1 {
        UpAt(s[1..]);
        assert rest[0] == UP && fine[0] == UP;
        assert Split(s, IsAnySlash)[1..] == fine;
      } else {
        UpLater(s[1..], k - 1);
        assert Split(s, IsAnySlash)[1..] == fine;
      }
    } else {
      UpLater(s[1..], k);
      if IsAnySlash(s[0]) {
        assert Split(s, IsAnySlash)[1..] == fine;
      } else {
        assert Split(s, IsAnySlash)[1..] == fine[1..];
      }
    }
  }

  /**
   * A member path is relative: its components are names, none of them `..`, it does not start with a
   * slash, a backslash start or drive is refused, and no component of the raw name climbs out.
   */
  lemma MemberPathsAreRelative(raw: text)
    requires MemberPath(raw).Some? && MemberPath(raw).value != []
    ensures var path := MemberPath(raw).value;
            var parts := Split(path, IsSlash);
            && (forall i :: 0 <= i < |parts| ==> Names(parts[i]) && parts[i] != UP)
            && path[0] != SLASH && !HasDrive(path)
            && raw != [] && !IsAnySlash(raw[0]) && UP !in Split(raw, IsAnySlash)
  {
    var parts := Named(Split(raw, IsSlash));
    var path := Join(parts);
    PartsAreWithin(raw, IsSlash);
    SplitOfJoin(parts);
    if UP in Split(raw, IsSlash) {
      UpIsUp(raw);
    }
  }

  lemma {:induction false} JoinOfSplit(s: text)
    ensures Join(Split(s, IsSlash)) == s
    decreases |s|
  {
    if s != [] {
      JoinOfSplit(s[1..]);
      var rest := Split(s[1..], IsSlash);
      if IsSlash(s[0]) {
        assert ([[]] + rest)[1..] == rest;
        assert s == [SLASH] + s[1..];
      } else {
        var first := [s[0]] + rest[0];
        assert ([first] + rest[1..])[1..] == rest[1..];
        assert s == [s[0]] + s[1..];
        assert |rest| > 1 ==> [s[0]] + (rest[0] + [SLASH] + Join(rest[1..])) == first + [SLASH] + Join(rest[1..]);
      }
    }
  }

  lemma {:induction false} AllNamed(parts: seq<text>)
    requires forall i :: 0 <= i < |parts| ==> Names(parts[i])
    ensures Named(parts) == parts
  {
    if parts != [] {
      AllNamed(parts[1..]);
    }
  }

  /**
   * Exactly the names that start with a slash or backslash, have a `..` between any of them, or come to
   * begin with a drive are refused; and a path that is clean already is kept as it is.
   */
  lemma PathsAreJudgedExactly(raw: text)
    ensures MemberPath(raw).None? <==>
      (raw != [] && raw[0] in {47, 92}) || [46, 46] in Split(raw, IsAnySlash) || HasDrive(Join(Named(Split(raw, IsSlash))))
    ensures MemberPath(raw).Some? && (forall i :: 0 <= i < |Split(raw, IsSlash)| ==> Split(raw, IsSlash)[i] != [] && Split(raw, IsSlash)[i] != [46])
      ==> MemberPath(raw) == Some(raw)
  {
    hide Split, Join, Named, HasDrive;
    if forall i :: 0 <= i < |Split(raw, IsSlash)| ==> Names(Split(raw, IsSlash)[i]) {
      AllNamed(Split(raw, IsSlash));
      JoinOfSplit(raw);
    }
  }

  // ── Links ──────────────────────────────────────────────────────────────────

  /** `dir` is a folder above `path`. */
  predicate IsAbove(dir: text, path: text)
  {
    |dir| < |path| && path[..|dir|] == dir && path[|dir|] == SLASH
  }

  /** `insideLink`: the shortest kept link above the path, from position `i` on. */
  function LinkFrom(path: text, links: set<text>, i: nat): (r: Option<text>)
    requires i <= |path|
    ensures r.Some? ==> r.value in links && IsAbove(r.value, path)
    ensures r.None? ==> forall a :: a in links && IsAbove(a, path) ==> |a| < i
    decreases |path| - i
  {
    if i == |path| then None
    else if path[i] == SLASH && path[..i] in links then Some(path[..i])
    else LinkFrom(path, links, i + 1)
  }

  /** It is the shortest. */
  lemma {:induction false} LinkIsShortest(path: text, links: set<text>, i: nat)
    requires i <= |path|
    ensures forall a :: a in links && IsAbove(a, path) && |a| >= i && LinkFrom(path, links, i).Some? ==>
              |LinkFrom(path, links, i).value| <= |a|
    decreases |path| - i
  {
    assert forall a :: IsAbove(a, path) && |a| == i ==> a == path[..i] && path[i] == SLASH;
    if i < |path| && !(path[i] == SLASH && path[..i] in links) {
      LinkIsShortest(path, links, i + 1);
    }
  }

  method InsideLink(path: text, links: set<text>) returns (r: Option<text>)
    ensures r == LinkFrom(path, links, 0)
    ensures r.None? <==> forall a :: a in links ==> !IsAbove(a, path)
  {
    if links == {} {
      return None;
    }
    var i := 0;
    while i < |path|
      invariant 0 <= i <= |path|
      invariant LinkFrom(path, links, 0) == LinkFrom(path, links, i)
    {
      if path[i] == SLASH && path[..i] in links {
        return Some(path[..i]);
      }
      i := i + 1;
    }
    return None;
  }

  // ── Free names for the notes ───────────────────────────────────────────────

  function LastDot(s: text): (i: int)
    ensures -1 <= i < |s|
  {
    if s == [] then -1 else if s[|s| - 1] == DOT then |s| - 1 else LastDot(s[..|s| - 1])
  }

  /** The name to try the `n`-th time: ` (2)`, ` (3)`… before the extension of a file. */
  function Candidate(segment: text, isDir: bool, n: nat): text
  {
    if n == 1 then segment
    else
      var cut := Cut(segment, isDir);
      segment[..cut] + [32, 40] + Decimal(n) + [41] + segment[cut..]
  }

  /** Where the suffix goes. */
  function Cut(segment: text, isDir: bool): (k: nat)
    ensures k <= |segment|
  {
    var dot := if isDir then -1 else LastDot(segment);
    if dot > 0 then dot else |segment|
  }

  lemma {:induction false} LastDotIs(s: text, i: nat)
    requires i < |s| && s[i] == DOT && forall j :: i < j < |s| ==> s[j] != DOT
    ensures LastDot(s) == i
    decreases |s|
  {
    if i < |s| - 1 {
      LastDotIs(s[..|s| - 1], i);
    }
  }

  lemma {:induction false} NoLaterDot(s: text)
    requires forall j :: 0 < j < |s| ==> s[j] != DOT
    ensures LastDot(s) <= 0
    decreases |s|
  {
    if s != [] && s[|s| - 1] != DOT {
      NoLaterDot(s[..|s| - 1]);
    }
  }

  /**
   * A second file of a name gets its number in front of the extension, which begins at the last dot unless that is
   * the first character; a folder's number comes last.
   */
  lemma NumberBeforeExtension(stem: text, ext: text, n: nat)
    requires stem != [] && n > 1
    requires if ext == [] then forall j :: 0 < j < |stem| ==> stem[j] != 46 else ext[0] == 46 && 46 !in ext[1..]
    ensures Candidate(stem + ext, false, 1) == stem + ext
    ensures Candidate(stem + ext, false, n) == stem + [32, 40] + Decimal(n) + [41] + ext
    ensures Candidate(stem + ext, true, n) == stem + ext + [32, 40] + Decimal(n) + [41]
  {
    var s := stem + ext;
    if ext == [] {
      assert s == stem;
      NoLaterDot(s);
    } else {
      assert forall j :: |stem| < j < |s| ==> s[j] == ext[1..][j - |stem| - 1];
      LastDotIs(s, |stem|);
    }
    assert s[..|stem|] == stem && s[|stem|..] == ext && s[..|s|] == s && s[|s|..] == [];
  }

  lemma CandidateShows(segment: text, isDir: bool, n: nat)
    requires n > 1
    ensures var c := Candidate(segment, isDir, n);
            var at := Cut(segment, isDir) + 2;
            |c| == |segment| + 3 + Width(n) && c[at..at + Width(n)] == Decimal(n)
  {
    var cut := Cut(segment, isDir);
    assert Candidate(segment, isDir, n) == (segment[..cut] + [32, 40]) + Decimal(n) + ([41] + segment[cut..]);
  }

  lemma DecimalsDiffer(m: nat, n: nat)
    requires m != n
    ensures Decimal(m) != Decimal(n)
  {
    DecimalIsReadBack(m);
    DecimalIsReadBack(n);
  }

  lemma CandidatesDiffer(segment: text, isDir: bool, m: nat, n: nat)
    requires 1 <= m < n
    ensures Candidate(segment, isDir, m) != Candidate(segment, isDir, n)
  {
    CandidateShows(segment, isDir, n);
    if m > 1 {
      CandidateShows(segment, isDir, m);
      DecimalsDiffer(m, n);
    }
  }

  /** The used names that are still to be met when trying from the `n`-th on. */
  ghost function Ahead(used: set<text>, segment: text, isDir: bool, n: nat): set<text>
  {
    set c | c in used && exists m: nat :: m >= n && c == Candidate(segment, isDir, m)
  }

  lemma AheadShrinks(used: set<text>, segment: text, isDir: bool, n: nat)
    requires n >= 1 && Candidate(segment, isDir, n) in used
    ensures |Ahead(used, segment, isDir, n + 1)| < |Ahead(used, segment, isDir, n)|
  {
    var c := Candidate(segment, isDir, n);
    var now, then_ := Ahead(used, segment, isDir, n), Ahead(used, segment, isDir, n + 1);
    assert c in now;
    assert c !in then_ by {
      if c in then_ {
        var m: nat :| m >= n + 1 && c == Candidate(segment, isDir, m);
        CandidatesDiffer(segment, isDir, n, m);
      }
    }
    assert then_ <= now - {c};
    Fewer(then_, now - {c});
  }

  lemma {:induction false} Fewer(a: set<text>, b: set<text>)
    requires a <= b
    ensures |a| <= |b|
    decreases |b|
  {
    if a != {} {
      var x :| x in a;
      Fewer(a - {x}, b - {x});
    }
  }

  /** The least number from `n` on whose name is free: there is one, since only finitely many are used. */
  function FreeFrom(used: set<text>, segment: text, isDir: bool, n: nat): (r: nat)
    requires n >= 1
    ensures r >= n && Candidate(segment, isDir, r) !in used
    ensures forall m :: n <= m < r ==> Candidate(segment, isDir, m) in used
    decreases |Ahead(used, segment, isDir, n)|
  {
    if Candidate(segment, isDir, n) !in used then n
    else
      AheadShrinks(used, segment, isDir, n);
      FreeFrom(used, segment, isDir, n + 1)
  }

  /** The name `NameRegistry.claim` hands out and marks as used, without a folder's slash. */
  function Claimed(used: set<text>, segment: text, isDir: bool): (name: text)
    ensures name !in used
  {
    Candidate(segment, isDir, FreeFrom(used, segment, isDir, 1))
  }

  /** The used names that are in the folder `dir`. */
  function UsedIn(used: set<text>, dir: text): set<text>
  {
    set c | c in used && dir <= c :: c[|dir|..]
  }

  lemma IsUsedIn(used: set<text>, dir: text, c: text)
    ensures c in UsedIn(used, dir) <==> dir + c in used
  {
    if dir + c in used {
      assert dir <= dir + c && (dir + c)[|dir|..] == c;
    }
    if c in UsedIn(used, dir) {
      var u :| u in used && dir <= u && u[|dir|..] == c;
      assert u == dir + c;
    }
  }

  /** The paths already handed out, a folder's without its slash. */
  class NameRegistry {
    var used: set<text>

    constructor ()
      ensures used == {}
    {
      used := {};
    }

    /** `dir` is empty or ends with a slash, and a segment has none. */
    method Claim(dir: text, segment: text, isDir: bool) returns (path: text)
      requires (dir != [] ==> dir[|dir| - 1] == SLASH) && SLASH !in segment
      modifies this
      ensures var key := dir + Claimed(UsedIn(old(used), dir), segment, isDir);
              && key !in old(used) && used == old(used) + {key}
              && path == if isDir then key + [SLASH] else key
    {
      var n := 1;
      ghost var here := UsedIn(used, dir);
      IsUsedIn(used, dir, Candidate(segment, isDir, n));
      while dir + Candidate(segment, isDir, n) in used
        invariant n >= 1 && used == old(used)
        invariant Candidate(segment, isDir, n) in here <==> dir + Candidate(segment, isDir, n) in used
        invariant FreeFrom(here, segment, isDir, 1) == FreeFrom(here, segment, isDir, n)
        decreases |Ahead(here, segment, isDir, n)|
      {
        AheadShrinks(here, segment, isDir, n);
        n := n + 1;
        IsUsedIn(used, dir, Candidate(segment, isDir, n));
      }
      assert Claimed(here, segment, isDir) == Candidate(segment, isDir, n);
      var key := dir + Candidate(segment, isDir, n);
      used := used + {key};
      path := if isDir then key + [SLASH] else key;
    }
  }

  /** Trying at most as many names as are used and one more finds a free one. */
  lemma FreeIsNear(used: set<text>, segment: text, isDir: bool)
    ensures FreeFrom(used, segment, isDir, 1) <= |used| + 1
  {
    var r := FreeFrom(used, segment, isDir, 1);
    TriedAreUsed(used, segment, isDir, r);
  }

  lemma {:induction false} TriedAreUsed(used: set<text>, segment: text, isDir: bool, r: nat)
    requires r >= 1 && forall m :: 1 <= m < r ==> Candidate(segment, isDir, m) in used
    ensures r <= |used| + 1
    decreases r
  {
    if r > 1 {
      var c := Candidate(segment, isDir, r - 1);
      forall m | 1 <= m < r - 1
        ensures Candidate(segment, isDir, m) in used - {c}
      {
        CandidatesDiffer(segment, isDir, m, r - 1);
      }
      TriedAreUsed(used - {c}, segment, isDir, r - 1);
    }
  }

  /** A plain name at the top of the folder. */
  predicate IsTopName(name: text)
  {
    name != [] && name[0] != DOT && forall i :: 0 <= i < |name| ==> !IsAnySlash(name[i]) && name[i] != COLON
  }

  lemma TopNameIsItsPath(name: text)
    requires IsTopName(name)
    ensures MemberPath(name) == Some(name)
  {
    SplitPart(name, IsSlash);
    SplitPart(name, IsAnySlash);
    assert name != UP && Names(name);
    assert Named([name]) == [name];
  }

  lemma CandidateIsTopName(segment: text, n: nat)
    requires IsTopName(segment)
    ensures IsTopName(Candidate(segment, false, n))
  {
    DecimalIsReadBack(n);
    var cut := Cut(segment, false);
    assert n != 1 ==> Candidate(segment, false, n) == segment[..cut] + ([32, 40] + Decimal(n) + [41]) + segment[cut..];
    assert cut > 0;
  }
}
