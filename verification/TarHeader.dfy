/** The 512-byte ustar header: as the archive engine writes it and as the relay parses it. */
module TarHeader {
  import opened Bytes
  import opened Digits
  import opened Pax

  type Block = b: seq<byte> | |b| == 512 witness seq(512, _ => 0)

  const MAX_OCTAL_11: nat := 8589934591
  const MAX_SAFE: nat := 9007199254740991
  const SLASH: byte := 47

  const TYPE_FILE: byte := 48
  const TYPE_HARDLINK: byte := 49
  const TYPE_SYMLINK: byte := 50
  const TYPE_DIR: byte := 53
  const TYPE_PAX: byte := 120

  function Zeros(n: nat): (z: text)
    ensures |z| == n && forall i :: 0 <= i < n ==> z[i] == 0
  {
    seq(n, _ => 0)
  }

  // ── Writing ────────────────────────────────────────────────────────────────

  /** What one entry's header holds; an invalid modification time is `None`. */
  datatype Fields = Fields(name: text, typ: byte, size: nat, mode: nat, mtime: Option<int>, link: Option<text>)

  predicate IsPlain(b: byte)
  {
    32 <= b <= 126
  }

  predicate AllPlain(s: text)
  {
    forall i :: 0 <= i < |s| ==> IsPlain(s[i])
  }

  /** Plain printable ASCII that fits the 100-byte field. */
  predicate FitsUstar(s: text)
  {
    |s| <= 100 && AllPlain(s)
  }

  function Printable(s: text): (t: text)
    ensures |t| == |s| && AllPlain(t)
    ensures AllPlain(s) ==> t == s
  {
    seq(|s|, i requires 0 <= i < |s| => if IsPlain(s[i]) then s[i] else 95)
  }

  /** The stand-in name when a PAX record carries the real one; a folder keeps its final slash. */
  function AsciiName(s: text): (t: text)
    ensures FitsUstar(t)
    ensures FitsUstar(s) ==> t == s
  {
    var out := Printable(s);
    if |out| <= 100 then out
    else if s[|s| - 1] == SLASH then out[..99] + [SLASH]
    else out[..100]
  }

  /** `s` in a field of `n` bytes, zeros after it. */
  function Padded(s: text, n: nat): (t: text)
    requires |s| <= n
    ensures |t| == n
  {
    s + Zeros(n - |s|)
  }

  /** The widths of the numeric fields, and the digits of the checksum. */
  function Short(): nat { 8 }

  function Long(): nat { 12 }

  function SumDigits(): nat { 6 }

  /** An octal field: digits and a NUL. */
  function OctalField(v: nat, n: nat): (t: text)
    requires n > 0
    ensures |t| == n
  {
    Octal(v, n - 1) + [0]
  }

  function SizeField(size: nat): (t: text)
    ensures |t| == 12
  {
    if size > MAX_OCTAL_11 then [128, 0, 0, 0] + BE(size, Short()) else OctalField(size, Long())
  }

  predicate FitsOctal(v: int)
  {
    0 <= v <= MAX_OCTAL_11
  }

  function MtimeField(mtime: Option<int>): (t: text)
    ensures |t| == 12
  {
    OctalField(if mtime.Some? && FitsOctal(mtime.value) then mtime.value else 0, Long())
  }

  /** The bytes before the checksum field. */
  function Left(f: Fields): (s: text)
    ensures |s| == 148
  {
    Padded(AsciiName(f.name), 100) + OctalField(f.mode % 4096, Short()) + OctalField(0, Short()) + OctalField(0, Short())
    + SizeField(f.size) + MtimeField(f.mtime)
  }

  const USTAR: text := [117, 115, 116, 97, 114, 0]
  const VERSION: text := [48, 48]

  function LinkField(link: Option<text>): (t: text)
    ensures |t| == 100
  {
    Padded(if link.Some? then AsciiName(link.value) else [], 100)
  }

  /** The bytes after the checksum field. */
  function Right(f: Fields): (s: text)
    ensures |s| == 356
  {
    [f.typ] + LinkField(f.link) + USTAR + VERSION + Zeros(247)
  }

  function Sum(s: text): nat
  {
    if s == [] then 0 else Sum(s[..|s| - 1]) + s[|s| - 1]
  }

  /** The stored checksum: six octal digits, a NUL and a space. */
  function SumField(sum: nat): (t: text)
    ensures |t| == 8
  {
    Octal(sum, SumDigits()) + [0, 32]
  }

  /** Eight blanks stand in for the checksum while it is computed. */
  const BLANKS := 256

  function UstarBlock(f: Fields): Block
  {
    Left(f) + SumField(Sum(Left(f)) + BLANKS + Sum(Right(f))) + Right(f)
  }

  // ── Parsing ────────────────────────────────────────────────────────────────

  datatype Header = Header(name: text, typ: byte, size: nat, link: text)

  /** The text before the first NUL. */
  function CString(s: text): text
  {
    s[..IndexOf(s, 0)]
  }

  function TrimEnd(s: text): text
  {
    if s != [] && IsBlank(s[|s| - 1]) then TrimEnd(s[..|s| - 1]) else s
  }

  function Trim(s: text): text
  {
    TrimEnd(TrimStart(s))
  }

  function LeadingOctal(s: text): (d: text)
    ensures AllOctal(d)
  {
    if s != [] && IsOctal(s[0]) then [s[0]] + LeadingOctal(s[1..]) else []
  }

  /** `parseInt(s, 8)`; a negative value can equal no checksum. */
  function ParseOctal(s: text): Option<int>
  {
    var t := TrimStart(s);
    var signed := t != [] && (t[0] == 43 || t[0] == 45);
    var digits := LeadingOctal(if signed then t[1..] else t);
    if digits == [] then None
    else
      var n: int := FromOctal(digits);
      Some(if signed && t[0] == 45 then -n else n)
  }

  function Checksum(b: Block): nat
  {
    Sum(b[..148]) + BLANKS + Sum(b[156..])
  }

  /** Octal, or base 256 when the top bit is set; past the safe integers it is refused. */
  function ParseNumber(field: text): Option<nat>
    requires field != []
  {
    if field[0] >= 128 then
      var n := FromBE(field[1..]);
      if n <= MAX_SAFE then Some(n) else None
    else
      var t := Trim(CString(field));
      if t == [] then Some(0) else if AllOctal(t) then Some(FromOctal(t)) else None
  }

  predicate SumIsRight(b: Block)
  {
    ParseOctal(Trim(CString(b[148..156]))) == Some(Checksum(b))
  }

  function NameOf(b: Block): text
  {
    var prefix := if b[257..263] == USTAR then CString(b[345..500]) else [];
    if prefix == [] then CString(b[..100]) else prefix + [SLASH] + CString(b[..100])
  }

  function ParseHeader(b: Block): Option<Header>
  {
    if !SumIsRight(b) then None
    else
      match ParseNumber(b[124..136])
      case None => None
      case Some(size) =>
        Some(Header(NameOf(b), if b[156] == 0 then TYPE_FILE else b[156], size, CString(b[157..257])))
  }

  // ── Fields are read back ───────────────────────────────────────────────────

  lemma {:induction false} SumOfConcat(a: text, b: text)
    ensures Sum(a + b) == Sum(a) + Sum(b)
    decreases |b|
  {
    if b == [] {
      assert a + b == a;
    } else {
      assert (a + b)[..|a + b| - 1] == a + b[..|b| - 1];
      SumOfConcat(a, b[..|b| - 1]);
    }
  }

  lemma {:induction false} SumIsBounded(s: text)
    ensures Sum(s) <= 255 * |s|
  {
    if s != [] {
      SumIsBounded(s[..|s| - 1]);
    }
  }

  lemma PaddedIsReadBack(s: text, n: nat)
    requires |s| <= n && forall i :: 0 <= i < |s| ==> s[i] != 0
    ensures CString(Padded(s, n)) == s
  {
    var t := Padded(s, n);
    if |s| < n {
      assert t[|s|] == 0;
      IndexOfFirst(t, |s|, 0);
    } else {
      assert t == s;
    }
  }

  lemma {:induction false} LeadingIsAllOctal(s: text)
    requires AllOctal(s)
    ensures LeadingOctal(s) == s
  {
    if s != [] {
      LeadingIsAllOctal(s[1..]);
    }
  }

  /** Digits and a NUL, with anything after it, trim to the digits. */
  lemma DigitsAreKept(v: nat, n: nat, rest: text)
    ensures CString(Octal(v, n) + [0] + rest) == Octal(v, n) && Trim(Octal(v, n)) == Octal(v, n)
  {
    var s := Octal(v, n) + [0] + rest;
    assert s[n] == 0;
    IndexOfFirst(s, n, 0);
  }

  lemma OctalFieldIsReadBack(v: nat, n: nat)
    requires n > 1 && v < Pow8(n - 1)
    ensures ParseNumber(OctalField(v, n)) == Some(v)
  {
    var digits := Octal(v, n - 1);
    assert IsOctal(digits[0]);
    hide Octal, FromOctal, Pow8, Trim, CString;
    DigitsAreKept(v, n - 1, []);
    assert OctalField(v, n) == digits + [0] + [] && OctalField(v, n)[0] == digits[0];
    OctalIsReadBack(v, n - 1);
  }

  lemma {:induction false} LeadingZeros(n: nat, s: text)
    ensures FromBE(Zeros(n) + s) == FromBE(s)
    decreases |s|, n
  {
    if s != [] {
      assert (Zeros(n) + s)[..n + |s| - 1] == Zeros(n) + s[..|s| - 1];
      LeadingZeros(n, s[..|s| - 1]);
    } else if n > 0 {
      assert Zeros(n) + s == Zeros(n) && Zeros(n)[..n - 1] == Zeros(n - 1) + s;
      LeadingZeros(n - 1, s);
    } else {
      assert Zeros(n) + s == s;
    }
  }

  /** Sizes beyond the octal field come back through the base-256 form. */
  lemma SizeIsReadBack(size: nat)
    requires size <= MAX_SAFE
    ensures ParseNumber(SizeField(size)) == Some(size)
  {
    OctalSizes();
    if size > MAX_OCTAL_11 {
      FieldSizes();
      FromBEOfBE(size, Short());
      LeadingZeros(3, BE(size, Short()));
      assert SizeField(size)[1..] == Zeros(3) + BE(size, Short());
    } else {
      OctalFieldIsReadBack(size, Long());
    }
  }

  lemma SumFieldIsReadBack(sum: nat)
    requires sum < Pow8(6)
    ensures ParseOctal(Trim(CString(SumField(sum)))) == Some(sum)
  {
    var digits := Octal(sum, SumDigits());
    assert SumField(sum) == digits + [0] + [32];
    DigitsAreKept(sum, SumDigits(), [32]);
    OctalIsReadBack(sum, SumDigits());
    LeadingIsAllOctal(digits);
    assert IsOctal(digits[0]);
    assert TrimStart(digits) == digits;
  }

  /** A block whose checksum field was written for its other bytes carries the right sum. */
  lemma SumIsWritten(left: text, right: text)
    requires |left| == 148 && |right| == 356
    ensures SumIsRight(left + SumField(Sum(left) + BLANKS + Sum(right)) + right)
  {
    var sum := Sum(left) + BLANKS + Sum(right);
    var b := left + SumField(sum) + right;
    SumIsBounded(left);
    SumIsBounded(right);
    OctalSizes();
    SumFieldIsReadBack(sum);
    assert b[..148] == left && b[148..156] == SumField(sum) && b[156..] == right;
  }

  lemma LeftParts(f: Fields)
    ensures Left(f)[..100] == Padded(AsciiName(f.name), 100)
    ensures Left(f)[100..108] == OctalField(f.mode % 4096, Short())
    ensures Left(f)[124..136] == SizeField(f.size)
  {
    var a := Padded(AsciiName(f.name), 100);
    var b := OctalField(f.mode % 4096, Short());
    var c := OctalField(0, Short()) + OctalField(0, Short());
    assert Left(f) == a + b + (c + SizeField(f.size) + MtimeField(f.mtime));
    assert Left(f) == (a + b + c) + SizeField(f.size) + MtimeField(f.mtime);
  }

  lemma RightParts(f: Fields)
    ensures Right(f)[0] == f.typ && Right(f)[1..101] == LinkField(f.link) && Right(f)[101..107] == USTAR
    ensures Right(f)[189..344] == Zeros(155)
  {
    var tail := USTAR + VERSION + Zeros(247);
    assert Right(f) == [f.typ] + LinkField(f.link) + tail;
    assert Right(f) == ([f.typ] + LinkField(f.link)) + USTAR + (VERSION + Zeros(247));
    assert Right(f)[189..344] == Zeros(155);
  }

  /** The parts of a block, through its two halves. */
  lemma Halves(left: text, mid: text, right: text)
    requires |left| == 148 && |mid| == 8 && |right| == 356
    ensures var b := left + mid + right;
            && b[..100] == left[..100] && b[124..136] == left[124..136] && b[156] == right[0]
            && b[157..257] == right[1..101] && b[257..263] == right[101..107] && b[345..500] == right[189..344]
            && b[100..108] == left[100..108]
  {
  }

  lemma NothingPadded()
    ensures Padded([], 155) == Zeros(155)
  {
  }

  /** Every header the engine writes is accepted, with the fields it was written for. */
  lemma UstarIsReadBack(f: Fields)
    requires f.typ != 0 && f.size <= MAX_SAFE
    ensures ParseHeader(UstarBlock(f))
         == Some(Header(AsciiName(f.name), f.typ, f.size, if f.link.Some? then AsciiName(f.link.value) else []))
  {
    hide Left, Right, SumField, SumIsRight, ParseNumber, SizeField, Padded, AsciiName, Sum, CString;
    var b := UstarBlock(f);
    SumIsWritten(Left(f), Right(f));
    Halves(Left(f), SumField(Sum(Left(f)) + BLANKS + Sum(Right(f))), Right(f));
    LeftParts(f);
    RightParts(f);
    PaddedIsReadBack(AsciiName(f.name), 100);
    PaddedIsReadBack(if f.link.Some? then AsciiName(f.link.value) else [], 100);
    PaddedIsReadBack([], 155);
    NothingPadded();
    SizeIsReadBack(f.size);
  }

  lemma SumWithout(s: text, i: nat, x: byte)
    requires i < |s|
    ensures Sum(s[i := x]) == Sum(s) - s[i] + x
  {
    SumOfConcat(s[..i] + [x], s[i + 1..]);
    SumOfConcat(s[..i], [x]);
    SumOfConcat(s[..i] + [s[i]], s[i + 1..]);
    SumOfConcat(s[..i], [s[i]]);
    assert Sum([x]) == Sum([]) + x && Sum([s[i]]) == Sum([]) + s[i];
    assert s[i := x] == s[..i] + [x] + s[i + 1..];
    assert s == s[..i] + [s[i]] + s[i + 1..];
  }

  lemma ChecksumWithout(b: Block, i: nat, x: byte)
    requires i < 148 || 156 <= i < 512
    ensures Checksum(b[i := x]) == Checksum(b) - b[i] + x && b[i := x][148..156] == b[148..156]
  {
    if i < 148 {
      SumWithout(b[..148], i, x);
      assert b[i := x][..148] == b[..148][i := x] && b[i := x][156..] == b[156..];
    } else {
      SumWithout(b[156..], i - 156, x);
      assert b[i := x][156..] == b[156..][i - 156 := x] && b[i := x][..148] == b[..148];
    }
  }

  /** Damage to any one byte of any accepted header, outside the checksum itself, is noticed: the header is refused. */
  lemma DamageIsRefused(b: Block, i: nat, x: byte)
    requires ParseHeader(b).Some? && (i < 148 || 156 <= i < 512) && x != b[i]
    ensures ParseHeader(b[i := x]).None?
  {
    ChecksumWithout(b, i, x);
  }

  lemma NameIsRead(field: text, s: text)
    requires |s| <= |field| && (forall j :: 0 <= j < |s| ==> field[j] == s[j])
    requires 0 !in s && (|s| < |field| ==> field[|s|] == 0)
    ensures CString(field) == s
  {
    assert forall j :: 0 <= j < |s| ==> field[j] == s[j] && s[j] in s;
    if |s| < |field| {
      IndexOfFirst(field, |s|, 0);
    } else {
      assert 0 !in field && IndexOf(field, 0) == |field|;
    }
  }

  /**
   * In an accepted header of another writer a long name is split over two fields, joined by a slash, if the header
   * is POSIX ustar, and the prefix is something else if it is not; a type byte of 0 is a plain file.
   */
  lemma SplitNameIsJoined(b: Block, prefix: text, name: text)
    requires ParseHeader(b).Some?
    requires |name| <= 100 && (forall j :: 0 <= j < |name| ==> b[j] == name[j]) && 0 !in name && (|name| < 100 ==> b[|name|] == 0)
    requires |prefix| <= 155 && forall j :: 0 <= j < |prefix| ==> b[345 + j] == prefix[j]
    requires 0 !in prefix && (|prefix| < 155 ==> b[345 + |prefix|] == 0)
    ensures var posix := b[257..263] == [117, 115, 116, 97, 114, 0];
            ParseHeader(b).value.name == if posix && prefix != [] then prefix + [47] + name else name
    ensures ParseHeader(b).value.typ == if b[156] == 0 then 48 else b[156]
  {
    var first, second := b[..100], b[345..500];
    assert forall j :: 0 <= j < 100 ==> first[j] == b[j];
    assert forall j :: 0 <= j < 155 ==> second[j] == b[345 + j];
    NameIsRead(first, name);
    NameIsRead(second, prefix);
  }

  lemma {:induction false} BlanksBefore(n: nat, s: text)
    ensures TrimStart(Spaces(n) + s) == TrimStart(s)
  {
    if n == 0 {
      assert Spaces(n) + s == s;
    } else {
      assert (Spaces(n) + s)[1..] == Spaces(n - 1) + s;
      BlanksBefore(n - 1, s);
    }
  }

  lemma {:induction false} BlanksAfter(s: text, n: nat)
    ensures TrimEnd(s + Spaces(n)) == TrimEnd(s)
  {
    if n == 0 {
      assert s + Spaces(n) == s;
    } else {
      assert (s + Spaces(n))[..|s| + n - 1] == s + Spaces(n - 1);
      BlanksAfter(s, n - 1);
    }
  }

  lemma {:induction false} BlanksAreNothing(n: nat)
    ensures TrimStart(Spaces(n)) == []
  {
    if n > 0 {
      assert Spaces(n)[1..] == Spaces(n - 1);
      BlanksAreNothing(n - 1);
    }
  }

  function Spaces(n: nat): text
  {
    seq(n, _ => 32)
  }

  lemma TrimmedDigits(before: nat, digits: text, after: nat)
    requires AllOctal(digits)
    ensures Trim(Spaces(before) + digits + Spaces(after)) == digits
  {
    assert Spaces(before) + digits + Spaces(after) == Spaces(before) + (digits + Spaces(after));
    BlanksBefore(before, digits + Spaces(after));
    if digits == [] {
      assert digits + Spaces(after) == Spaces(after);
      BlanksAreNothing(after);
    } else {
      assert TrimStart(digits + Spaces(after)) == digits + Spaces(after);
      BlanksAfter(digits, after);
    }
  }

  /**
   * A number another writer put into a header: octal digits, with spaces around them or none, up to a NUL or the
   * end of the field; no digits at all are 0.
   */
  lemma NumberIsRead(before: nat, digits: text, after: nat, rest: text)
    requires AllOctal(digits) && (rest != [] ==> rest[0] == 0)
    requires Spaces(before) + digits + Spaces(after) + rest != []
    ensures ParseNumber(Spaces(before) + digits + Spaces(after) + rest) == Some(FromOctal(digits))
  {
    var s := Spaces(before) + digits + Spaces(after);
    assert forall i :: 0 <= i < |s| ==> s[i] == 32 || s[i] in digits;
    assert forall c :: c in digits ==> IsOctal(c);
    NameIsRead(s + rest, s);
    TrimmedDigits(before, digits, after);
    assert s != [] ==> (s + rest)[0] == s[0];
  }

  lemma {:induction false} StaysInTrimmed(s: text, c: byte)
    requires c in s && !IsBlank(c)
    ensures c in TrimStart(s) && c in TrimEnd(s)
    decreases |s|
  {
    if IsBlank(s[0]) {
      StaysInTrimmed(s[1..], c);
    }
    if IsBlank(s[|s| - 1]) {
      StaysInTrimmed(s[..|s| - 1], c);
    }
  }

  /** Anything else in front of the NUL is refused. */
  lemma NoNumberIsRefused(s: text, rest: text, c: byte)
    requires 0 !in s && (rest != [] ==> rest[0] == 0) && c in s && !IsBlank(c) && !IsOctal(c) && s[0] < 128
    ensures ParseNumber(s + rest) == None
  {
    NameIsRead(s + rest, s);
    StaysInTrimmed(s, c);
    StaysInTrimmed(TrimStart(s), c);
  }

  /**
   * What readers other than the relay look at: permissions, owner and group, time, the ustar magic and the
   * version, each at its place in the header block (IEEE Std 1003.1, the ustar interchange format).
   */
  lemma OtherFieldsAreWritten(f: Fields)
    ensures var b := UstarBlock(f);
            && ParseNumber(b[100..108]) == Some(f.mode % 4096) && ParseNumber(b[108..116]) == Some(0) && ParseNumber(b[116..124]) == Some(0)
            && ParseNumber(b[136..148]) == Some(match f.mtime { case Some(t) => if 0 <= t <= 8589934591 then t else 0 case None => 0 })
            && b[257..265] == [117, 115, 116, 97, 114, 0, 48, 48]
  {
    hide Sum, SumField, OctalField, ParseNumber, SizeField, Padded, LinkField, AsciiName, Octal;
    OctalSizes();
    OctalFieldIsReadBack(f.mode % 4096, Short());
    OctalFieldIsReadBack(0, Short());
    OctalFieldIsReadBack(match f.mtime { case Some(t) => if 0 <= t <= 8589934591 then t else 0 case None => 0 }, Long());
    OtherParts(f);
    OtherHalves(Left(f), SumField(Sum(Left(f)) + BLANKS + Sum(Right(f))), Right(f));
  }

  lemma OtherParts(f: Fields)
    ensures Left(f)[100..108] == OctalField(f.mode % 4096, Short())
    ensures Left(f)[108..116] == OctalField(0, Short()) && Left(f)[116..124] == OctalField(0, Short())
    ensures Left(f)[136..148] == MtimeField(f.mtime)
    ensures Right(f)[101..109] == [117, 115, 116, 97, 114, 0, 48, 48]
  {
    hide OctalField, SizeField, MtimeField, Padded, LinkField;
    var a, m, o, s := Padded(AsciiName(f.name), 100), OctalField(f.mode % 4096, Short()), OctalField(0, Short()), SizeField(f.size);
    assert Left(f) == a + m + (o + o + s + MtimeField(f.mtime));
    assert Left(f) == (a + m) + o + (o + s + MtimeField(f.mtime));
    assert Left(f) == (a + m + o) + o + (s + MtimeField(f.mtime));
    assert Left(f) == (a + m + o + o + s) + MtimeField(f.mtime);
    assert Right(f) == ([f.typ] + LinkField(f.link)) + (USTAR + VERSION) + Zeros(247);
  }

  lemma OtherHalves(left: text, mid: text, right: text)
    requires |left| == 148 && |mid| == 8 && |right| == 356
    ensures var b := left + mid + right;
            && b[100..108] == left[100..108] && b[108..116] == left[108..116] && b[116..124] == left[116..124]
            && b[136..148] == left[136..148] && b[257..265] == right[101..109]
  {
  }

  // ── Clearing setuid and setgid ─────────────────────────────────────────────

  /** `s` written over `b` at `at`. */
  function Put(b: Block, at: nat, s: text): Block
    requires at + |s| <= 512
  {
    b[..at] + s + b[at + |s|..]
  }

  predicate HasSetId(mode: nat)
  {
    (mode / 1024) % 4 != 0
  }

  /** `withoutSetId`: only the mode and the checksum change, and only when a bit was set. */
  function WithoutSetId(b: Block): Block
  {
    var mode := ParseNumber(b[100..108]);
    if mode.None? || !HasSetId(mode.value) || b[100] >= 128 then b
    else
      var cleared := Put(b, 100, OctalField(mode.value % 1024, Short()));
      Put(cleared, 148, SumField(Checksum(cleared)))
  }

  /** The block with a new mode field and the checksum that goes with it. */
  function WithMode(b: Block, field: text): Block
    requires |field| == 8
  {
    var left := b[..100] + field + b[108..148];
    left + SumField(Sum(left) + BLANKS + Sum(b[156..])) + b[156..]
  }

  lemma ClearedShape(b: Block, field: text)
    requires |field| == 8
    ensures var cleared := Put(b, 100, field);
            Put(cleared, 148, SumField(Checksum(cleared))) == WithMode(b, field)
  {
    var cleared := Put(b, 100, field);
    var left := b[..100] + field + b[108..148];
    assert cleared[..148] == left && cleared[156..] == b[156..];
  }

  lemma ModeIsApart(b: Block, field: text)
    requires |field| == 8
    ensures var c := WithMode(b, field);
            && c[..100] == b[..100] && c[124..136] == b[124..136] && c[156] == b[156]
            && c[157..257] == b[157..257] && c[257..263] == b[257..263] && c[345..500] == b[345..500]
            && c[100..108] == field && c[156..] == b[156..]
  {
    var c := WithMode(b, field);
    var left := b[..100] + field + b[108..148];
    var mid := SumField(Sum(left) + BLANKS + Sum(b[156..]));
    hide SumField, Sum;
    assert c == left + mid + b[156..];
    assert forall i :: 108 <= i < 148 ==> left[i] == b[i];
    assert forall i :: 0 <= i < 148 ==> c[i] == left[i];
    assert forall i :: 156 <= i < 512 ==> c[i] == b[156..][i - 156];
  }

  lemma ModeIsRightSum(b: Block, field: text)
    requires |field| == 8
    ensures SumIsRight(WithMode(b, field))
  {
    SumIsWritten(b[..100] + field + b[108..148], b[156..]);
  }

  lemma SameHeader(b: Block, field: text)
    requires |field| == 8 && ParseHeader(b).Some?
    ensures ParseHeader(WithMode(b, field)) == ParseHeader(b)
  {
    ModeIsApart(b, field);
    ModeIsRightSum(b, field);
  }

  lemma NoSetIdLeft(mode: nat)
    ensures ParseNumber(OctalField(mode % 1024, Short())) == Some(mode % 1024) && !HasSetId(mode % 1024)
  {
    OctalSizes();
    OctalFieldIsReadBack(mode % 1024, Short());
  }

  lemma ClearedBlock(b: Block)
    ensures var mode := ParseNumber(b[100..108]);
            WithoutSetId(b) == if mode.None? || !HasSetId(mode.value) || b[100] >= 128 then b
                               else WithMode(b, OctalField(mode.value % 1024, Short()))
  {
    var mode := ParseNumber(b[100..108]);
    if mode.Some? {
      ClearedShape(b, OctalField(mode.value % 1024, Short()));
    }
  }

  /** A written header whose mode has no such bit is left alone. */
  lemma PlainModeIsKept(f: Fields)
    requires f.mode < 1024
    ensures WithoutSetId(UstarBlock(f)) == UstarBlock(f)
  {
    hide Left, Right, SumField, Sum, OctalField, ParseNumber;
    Halves(Left(f), SumField(Sum(Left(f)) + BLANKS + Sum(Right(f))), Right(f));
    LeftParts(f);
    NoSetIdLeft(f.mode);
  }

  /** The relay reads the same member from the cleared header, and the mode has no such bit left. */
  lemma ClearedIsReadBack(b: Block)
    requires ParseHeader(b).Some?
    ensures ParseHeader(WithoutSetId(b)) == ParseHeader(b)
    ensures b[100] < 128 ==> match ParseNumber(WithoutSetId(b)[100..108])
                             case None => WithoutSetId(b) == b
                             case Some(mode) => !HasSetId(mode)
    ensures WithoutSetId(b)[..100] == b[..100] && WithoutSetId(b)[156..] == b[156..]
  {
    var mode := ParseNumber(b[100..108]);
    ClearedBlock(b);
    if mode.Some? && HasSetId(mode.value) && b[100] < 128 {
      var field := OctalField(mode.value % 1024, Short());
      ModeIsApart(b, field);
      SameHeader(b, field);
      NoSetIdLeft(mode.value);
    }
  }

  // ── Filling the buffer ─────────────────────────────────────────────────────

  /** `h.write(s, at)`: the rest of the buffer is untouched. */
  method Write(h: array<byte>, at: nat, s: seq<byte>)
    requires at + |s| <= h.Length
    modifies h
    ensures h[..] == old(h[..at]) + s + old(h[at + |s|..])
  {
    var i := 0;
    while i < |s|
      invariant 0 <= i <= |s|
      invariant forall j :: 0 <= j < h.Length ==> h[j] == if at <= j < at + i then s[j - at] else old(h[j])
    {
      h[at + i] := s[i];
      i := i + 1;
    }
  }

  /** Writes the next field of a buffer that is still zero from there on. */
  method Append(h: array<byte>, ghost done: text, at: nat, s: seq<byte>)
    requires h.Length == 512 && |done| == at && at + |s| <= 512
    requires h[..] == done + Zeros(512 - at)
    modifies h
    ensures h[..] == done + s + Zeros(512 - at - |s|)
  {
    Write(h, at, s);
  }

  method SumOf(h: array<byte>) returns (sum: nat)
    ensures sum == Sum(h[..])
  {
    sum := 0;
    for i := 0 to h.Length
      invariant sum == Sum(h[..i])
    {
      assert h[..i + 1][..i] == h[..i];
      sum := sum + h[i];
    }
    assert h[..h.Length] == h[..];
  }

  const EIGHT_SPACES: text := [32, 32, 32, 32, 32, 32, 32, 32]

  lemma {:induction false} BlanksSum(s: text)
    requires forall i :: 0 <= i < |s| ==> s[i] == 32
    ensures Sum(s) == 32 * |s|
  {
    if s != [] {
      BlanksSum(s[..|s| - 1]);
    }
  }

  /** The fields before the checksum, in the order they are written. */
  method WriteLeft(h: array<byte>, f: Fields)
    requires h.Length == 512 && h[..] == Zeros(512)
    modifies h
    ensures h[..] == Left(f) + Zeros(364)
  {
    var name := AsciiName(f.name);
    Write(h, 0, name);
    ghost var done := Padded(name, 100);
    assert h[..] == done + Zeros(412);
    Append(h, done, 100, OctalField(f.mode % 4096, Short()));
    done := done + OctalField(f.mode % 4096, Short());
    Append(h, done, 108, OctalField(0, Short()));
    done := done + OctalField(0, Short());
    Append(h, done, 116, OctalField(0, Short()));
    done := done + OctalField(0, Short());
    Append(h, done, 124, SizeField(f.size));
    done := done + SizeField(f.size);
    Append(h, done, 136, MtimeField(f.mtime));
  }

  lemma LinkIsPadded(link: Option<text>)
    ensures LinkField(link) == (if link.Some? then AsciiName(link.value) + Zeros(100 - |AsciiName(link.value)|) else Zeros(100))
  {
  }

  /** The fields after it. */
  method WriteLink(h: array<byte>, link: Option<text>, ghost done: text)
    requires h.Length == 512 && |done| == 157 && h[..] == done + Zeros(355)
    modifies h
    ensures h[..] == done + LinkField(link) + Zeros(255)
  {
    hide AsciiName, LinkField;
    if link.Some? {
      Write(h, 157, AsciiName(link.value));
    }
    LinkIsPadded(link);
  }

  method WriteRight(h: array<byte>, f: Fields)
    requires h.Length == 512 && h[..] == Left(f) + Zeros(364)
    modifies h
    ensures h[..] == Left(f) + Zeros(8) + Right(f)
  {
    hide Left, AsciiName, LinkField;
    ghost var done := Left(f) + Zeros(8);
    assert Zeros(364) == Zeros(8) + Zeros(356);
    assert h[..] == done + Zeros(356);
    Append(h, done, 156, [f.typ]);
    done := done + [f.typ];
    WriteLink(h, f.link, done);
    done := done + LinkField(f.link);
    Append(h, done, 257, USTAR);
    done := done + USTAR;
    Append(h, done, 263, VERSION);
    assert done + VERSION + Zeros(247) == Left(f) + Zeros(8) + Right(f);
  }

  /** Sums the block with spaces for its checksum, and writes the sum there. */
  method WriteSum(h: array<byte>, ghost left: text, ghost right: text)
    requires h.Length == 512 && |left| == 148 && |right| == 356 && h[..] == left + Zeros(8) + right
    modifies h
    ensures h[..] == left + SumField(Sum(left) + BLANKS + Sum(right)) + right
  {
    Write(h, 148, EIGHT_SPACES);
    assert h[..] == left + EIGHT_SPACES + right;
    var sum := SumOf(h);
    SumOfConcat(left + EIGHT_SPACES, right);
    SumOfConcat(left, EIGHT_SPACES);
    BlanksSum(EIGHT_SPACES);
    Write(h, 148, SumField(sum));
  }

  /** `ustarHeader` */
  method UstarHeader(f: Fields) returns (h: array<byte>)
    ensures fresh(h) && h.Length == 512 && h[..] == UstarBlock(f)
  {
    hide Left, Right, SumField, Sum;
    h := new byte[512](_ => 0);
    assert h[..] == Zeros(512);
    WriteLeft(h, f);
    WriteRight(h, f);
    WriteSum(h, Left(f), Right(f));
  }
}
