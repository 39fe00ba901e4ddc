/** PAX extended header records, `"<len> key=value\n"`, whose length counts its own digits. */
module Pax {
  import opened Bytes
  import opened Digits

  const SPACE: byte := 32
  const EQUALS: byte := 61
  const NEWLINE: byte := 10

  // ── The length of a record ─────────────────────────────────────────────────

  /** A length that, written in front of `base` more bytes, counts itself too. */
  predicate CountsItself(len: nat, base: nat)
  {
    len == base + Width(len)
  }

  predicate IsLeastLength(len: nat, base: nat)
  {
    CountsItself(len, base) && forall k :: 0 <= k < len ==> !CountsItself(k, base)
  }

  /** `paxRecord` of the archive engine: one guess, corrected once. */
  function OneShotLength(base: nat): nat
  {
    var len := base + Width(base);
    if Width(len) != Width(base) then base + Width(len) else len
  }

  /** Adding a width to a number adds at most one digit, with room for one more. */
  lemma WidthOfSum(base: nat, more: nat)
    requires more <= Width(base) + 1
    ensures Width(base + more) <= Width(base) + 1
  {
    if base > 0 {
      assert Width(10 * base) == Width(base) + 1;
      WidthGrows(base + more, 10 * base);
    }
  }

  lemma OneShotIsLeast(base: nat)
    ensures IsLeastLength(OneShotLength(base), base)
  {
    hide Width;
    var len := OneShotLength(base);
    var w := Width(base);
    WidthGrows(base, base + w);
    WidthOfSum(base, w);
    WidthOfSum(base, w + 1);
    WidthGrows(base + w, base + w + 1);
    forall k: nat | CountsItself(k, base)
      ensures k >= len
    {
      WidthGrows(base, k);
      WidthGrows(base + w, if k < base + w then base + w else k);
    }
  }

  /** `paxRecord` of bastionctl: guess again until the guess counts itself. */
  method LoopingLength(base: nat) returns (len: nat)
    ensures len == OneShotLength(base)
  {
    hide OneShotLength;
    OneShotIsLeast(base);
    ghost var least := OneShotLength(base);
    len := base + 1;
    while Width(len) + base != len
      invariant base + 1 <= len <= least && len <= base + Width(len)
      decreases least - len
    {
      WidthGrows(len, least);
      WidthGrows(len, Width(len) + base);
      len := Width(len) + base;
    }
    assert CountsItself(len, base);
  }

  /** The least length is not the only one that counts itself. */
  lemma TwoLengths()
    ensures CountsItself(99, 97) && CountsItself(100, 97) && OneShotLength(97) == 99
  {
  }

  // ── Records ────────────────────────────────────────────────────────────────

  datatype Record = Record(key: text, value: text)

  predicate IsKey(key: text)
  {
    key != [] && EQUALS !in key
  }

  /** What follows the length. */
  function Body(r: Record): text
  {
    [SPACE] + r.key + [EQUALS] + r.value + [NEWLINE]
  }

  function RecordBytes(r: Record): (s: text)
    ensures |s| == OneShotLength(|Body(r)|)
  {
    OneShotIsLeast(|Body(r)|);
    Decimal(OneShotLength(|Body(r)|)) + Body(r)
  }

  function Records(rs: seq<Record>): text
  {
    if rs == [] then [] else RecordBytes(rs[0]) + Records(rs[1..])
  }

  /** Each key with its last value. */
  function Meaning(m: map<text, text>, rs: seq<Record>): map<text, text>
    decreases |rs|
  {
    if rs == [] then m else Meaning(m[rs[0].key := rs[0].value], rs[1..])
  }

  // ── Parsing ────────────────────────────────────────────────────────────────

  /** The first index of a byte, or the length. */
  function IndexOf(s: text, b: byte): (i: nat)
    ensures i <= |s|
    ensures i < |s| ==> s[i] == b
    ensures forall j :: 0 <= j < i ==> s[j] != b
  {
    if s == [] || s[0] == b then 0 else 1 + IndexOf(s[1..], b)
  }

  predicate IsBlank(b: byte)
  {
    9 <= b <= 13 || b == 32
  }

  function TrimStart(s: text): text
  {
    if s != [] && IsBlank(s[0]) then TrimStart(s[1..]) else s
  }

  function LeadingDigits(s: text): (d: text)
    ensures AllDigits(d)
  {
    if s != [] && IsDigit(s[0]) then [s[0]] + LeadingDigits(s[1..]) else []
  }

  datatype Option<T> = None | Some(value: T)

  /** A byte as ASCII decoding reads it: without its top bit. */
  function Ascii(s: text): (t: text)
    ensures |t| == |s| && forall i :: 0 <= i < |s| ==> t[i] == s[i] % 128
  {
    seq(|s|, i requires 0 <= i < |s| => s[i] % 128)
  }

  /** `parseInt(s, 10)`: blanks, a sign, digits, and whatever follows. */
  function ParseInt(s: text): Option<int>
  {
    var t := TrimStart(s);
    var signed := t != [] && (t[0] == 43 || t[0] == 45);
    var digits := LeadingDigits(if signed then t[1..] else t);
    if digits == [] then None
    else
      var n: int := FromDecimal(digits);
      Some(if signed && t[0] == 45 then -n else n)
  }

  /** The part of `s` from `a` to `b`, as `subarray` gives it. */
  function Between(s: text, a: nat, b: int): text
  {
    if a <= b <= |s| then s[a..b] else []
  }

  /** `out` with the record, if it has a key. */
  function WithRecord(m: map<text, text>, record: text): map<text, text>
  {
    var eq := IndexOf(record, EQUALS);
    if 0 < eq < |record| then m[record[..eq] := record[eq + 1..]] else m
  }

  /** How long the record at the start of the data says it is, and its `key=value`. */
  datatype RawRecord = RawRecord(len: int, record: text)

  function NextRecord(data: text): Option<RawRecord>
  {
    var space := IndexOf(data, SPACE);
    if space == |data| then None
    else
      match ParseInt(Ascii(data[..space]))
      case None => None
      case Some(len) => Some(RawRecord(len, Between(data, space + 1, len - 1)))
  }

  /** The loop of `parsePax`, over the data that is left. */
  function ParseFrom(next: text -> Option<RawRecord>, data: text, m: map<text, text>): map<text, text>
    decreases |data|
  {
    match next(data)
    case None => m
    case Some(s) =>
      if s.len <= 0 || s.len > |data| then m
      else ParseFrom(next, data[s.len..], WithRecord(m, s.record))
  }

  function Parse(data: text): map<text, text>
  {
    ParseFrom(NextRecord, data, map[])
  }

  method ParseRecords(next: text -> Option<RawRecord>, data: seq<byte>) returns (out: map<text, text>)
    requires next([]).None?
    ensures out == ParseFrom(next, data, map[])
  {
    out := map[];
    var p := 0;
    assert data[0..] == data;
    while p < |data|
      invariant 0 <= p <= |data|
      invariant ParseFrom(next, data, map[]) == ParseFrom(next, data[p..], out)
    {
      var r := next(data[p..]);
      if r.None? || r.value.len <= 0 || p + r.value.len > |data| {
        return;
      }
      assert data[p..][r.value.len..] == data[p + r.value.len..];
      out := WithRecord(out, r.value.record);
      p := p + r.value.len;
    }
  }

  method ParsePax(data: seq<byte>) returns (out: map<text, text>)
    ensures out == Parse(data)
  {
    out := ParseRecords(NextRecord, data);
  }

  // ── Records are read back ──────────────────────────────────────────────────

  lemma {:induction false} LeadingIsAll(s: text)
    requires AllDigits(s)
    ensures LeadingDigits(s) == s
  {
    if s != [] {
      LeadingIsAll(s[1..]);
    }
  }

  lemma IntIsReadBack(n: nat)
    ensures ParseInt(Ascii(Decimal(n))) == Some(n)
  {
    hide Decimal, FromDecimal, LeadingDigits;
    var s := Decimal(n);
    DecimalIsReadBack(n);
    assert Ascii(s) == s;
    LeadingIsAll(s);
    var signed := s[0] == 43 || s[0] == 45;
    assert IsDigit(s[0]) && !signed && TrimStart(s) == s;
  }

  lemma {:induction false} IndexOfFirst(s: text, i: nat, b: byte)
    requires i < |s| && s[i] == b && forall j :: 0 <= j < i ==> s[j] != b
    ensures IndexOf(s, b) == i
  {
  }

  lemma LengthIsReadBack(r: Record, rest: text)
    ensures var data := RecordBytes(r) + rest;
            var digits := Decimal(OneShotLength(|Body(r)|));
            IndexOf(data, SPACE) == |digits| && data[..|digits|] == digits
  {
    var len := OneShotLength(|Body(r)|);
    var digits := Decimal(len);
    var data := RecordBytes(r) + rest;
    DecimalIsReadBack(len);
    assert data == digits + (Body(r) + rest);
    assert forall j :: 0 <= j < |digits| ==> data[j] == digits[j] && IsDigit(digits[j]);
    IndexOfFirst(data, |digits|, SPACE);
  }

  lemma RecordIsNext(r: Record, rest: text)
    ensures NextRecord(RecordBytes(r) + rest) == Some(RawRecord(|RecordBytes(r)|, r.key + [EQUALS] + r.value))
  {
    var len := OneShotLength(|Body(r)|);
    var digits := Decimal(len);
    var data := RecordBytes(r) + rest;
    OneShotIsLeast(|Body(r)|);
    LengthIsReadBack(r, rest);
    IntIsReadBack(len);
    var record := r.key + [EQUALS] + r.value;
    assert data == (digits + [SPACE]) + record + ([NEWLINE] + rest);
  }

  lemma KeyIsSplit(r: Record, m: map<text, text>)
    requires IsKey(r.key)
    ensures WithRecord(m, r.key + [EQUALS] + r.value) == m[r.key := r.value]
  {
    var record := r.key + [EQUALS] + r.value;
    IndexOfFirst(record, |r.key|, EQUALS);
    assert record[..|r.key|] == r.key && record[|r.key| + 1..] == r.value;
  }

  lemma RecordIsReadBack(r: Record, rest: text, m: map<text, text>)
    requires IsKey(r.key)
    ensures ParseFrom(NextRecord, RecordBytes(r) + rest, m) == ParseFrom(NextRecord, rest, m[r.key := r.value])
  {
    RecordIsNext(r, rest);
    KeyIsSplit(r, m);
    assert (RecordBytes(r) + rest)[|RecordBytes(r)|..] == rest;
  }

  /** Written records, whatever follows them. */
  lemma {:induction false} RecordsThen(rs: seq<Record>, rest: text, m: map<text, text>)
    requires forall i :: 0 <= i < |rs| ==> IsKey(rs[i].key)
    ensures ParseFrom(NextRecord, Records(rs) + rest, m) == ParseFrom(NextRecord, rest, Meaning(m, rs))
    decreases |rs|
  {
    if rs == [] {
      assert Records(rs) + rest == rest;
    } else {
      assert Records(rs) + rest == RecordBytes(rs[0]) + (Records(rs[1..]) + rest);
      RecordIsReadBack(rs[0], Records(rs[1..]) + rest, m);
      RecordsThen(rs[1..], rest, m[rs[0].key := rs[0].value]);
    }
  }

  /** Parsing written records gives each key its last value, in whatever order and with whatever bytes as values. */
  lemma RecordsAreReadBack(rs: seq<Record>, m: map<text, text>)
    requires forall i :: 0 <= i < |rs| ==> IsKey(rs[i].key)
    ensures ParseFrom(NextRecord, Records(rs), m) == Meaning(m, rs)
  {
    assert Records(rs) + [] == Records(rs);
    RecordsThen(rs, [], m);
  }

  /** What is left of a record cut off anywhere counts for nothing. */
  lemma CutOffIsNothing(r: Record, n: nat, m: map<text, text>)
    requires n < |RecordBytes(r)|
    ensures ParseFrom(NextRecord, RecordBytes(r)[..n], m) == m
  {
    var len := OneShotLength(|Body(r)|);
    var digits := Decimal(len);
    var data := RecordBytes(r)[..n];
    DecimalIsReadBack(len);
    assert RecordBytes(r) == digits + Body(r);
    hide Decimal, ParseInt, Ascii, OneShotLength;
    if n <= |digits| {
      assert data == digits[..n];
      assert SPACE !in data && IndexOf(data, SPACE) == |data|;
    } else {
      assert data == digits + Body(r)[..n - |digits|] && data[|digits|] == SPACE;
      IndexOfFirst(data, |digits|, SPACE);
      IntIsReadBack(len);
    }
  }

  /** Records cut off anywhere in the last one give what the whole ones before it say. */
  lemma CutOffIsIgnored(rs: seq<Record>, r: Record, n: nat)
    requires (forall i :: 0 <= i < |rs| ==> IsKey(rs[i].key)) && n < |RecordBytes(r)|
    ensures Parse(Records(rs) + RecordBytes(r)[..n]) == Meaning(map[], rs)
  {
    RecordsThen(rs, RecordBytes(r)[..n], map[]);
    CutOffIsNothing(r, n, Meaning(map[], rs));
  }
}
