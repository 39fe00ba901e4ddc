/** What the lines of a hand-written `.env` mean: which variable a line sets, and to what. */
module EnvLines {
  import opened Env

  predicate AllSpace(s: string)
  {
    forall i :: 0 <= i < |s| ==> IsSpace(s[i])
  }

  predicate IsName(key: string)
  {
    key != [] && IsNameStart(key[0]) && forall i :: 0 <= i < |key| ==> IsNameChar(key[i])
  }

  /** `export` and spaces, or nothing. */
  predicate IsExport(s: string)
  {
    s == [] || (|s| > 6 && s[..6] == "export" && AllSpace(s[6..]))
  }

  /** Spaces, perhaps `export`, the name, spaces, an equals sign, and the value. */
  predicate Sets(raw: string, key: string, before: string, exporting: string, between: string, value: string)
  {
    && AllSpace(before) && IsExport(exporting) && IsName(key) && AllSpace(between)
    && raw == before + (exporting + (key + (between + ("=" + value))))
  }

  lemma {:induction false} SkipsSpaces(a: string, s: string)
    requires AllSpace(a)
    ensures SkipSpace(a + s) == SkipSpace(s)
  {
    if a == [] {
      assert a + s == s;
    } else {
      assert (a + s)[1..] == a[1..] + s;
      SkipsSpaces(a[1..], s);
    }
  }

  lemma {:induction false} SkipSpaceIs(s: string) returns (k: nat)
    ensures k <= |s| && SkipSpace(s) == s[k..] && AllSpace(s[..k]) && (k < |s| ==> !IsSpace(s[k]))
  {
    k := 0;
    if s != [] && IsSpace(s[0]) {
      k := SkipSpaceIs(s[1..]);
      assert s[1..][k..] == s[k + 1..] && forall i :: 0 < i <= k ==> s[i] == s[1..][..k][i - 1];
      k := k + 1;
    }
  }

  lemma {:induction false} NameEnds(key: string, rest: string)
    requires (forall i :: 0 <= i < |key| ==> IsNameChar(key[i])) && rest != [] && !IsNameChar(rest[0])
    ensures NameLength(key + rest) == |key|
  {
    if key == [] {
      assert key + rest == rest;
    } else {
      assert (key + rest)[1..] == key[1..] + rest;
      NameEnds(key[1..], rest);
    }
  }

  lemma NameIsFound(key: string, between: string, value: string)
    requires IsName(key) && AllSpace(between)
    ensures NameBeforeEquals(key + (between + ("=" + value))) == Some(key)
  {
    var rest := between + ("=" + value);
    assert rest[0] == if between == [] then '=' else between[0];
    NameEnds(key, rest);
    SkipsSpaces(between, "=" + value);
    assert (key + rest)[|key|..] == rest && (key + rest)[..|key|] == key;
    assert SkipSpace("=" + value) == "=" + value;
  }

  lemma {:induction false} ValueAfter(s: string, value: string)
    requires '=' !in s
    ensures AfterEquals(s + ("=" + value)) == value
  {
    if s == [] {
      assert s + ("=" + value) == "=" + value && ("=" + value)[1..] == value;
    } else {
      assert (s + ("=" + value))[1..] == s[1..] + ("=" + value);
      ValueAfter(s[1..], value);
    }
  }

  /** A variable called `export` is not an `export` of another. */
  lemma ExportIsAName(key: string, between: string, value: string)
    requires IsName(key) && AllSpace(between)
    ensures var s := key + (between + ("=" + value));
            |s| > 6 && s[..6] == "export" && IsSpace(s[6]) ==> NameBeforeEquals(SkipSpace(s[6..])).None?
  {
    var rest := between + ("=" + value);
    var s := key + rest;
    assert s[|key|] == rest[0] && (IsSpace(rest[0]) || rest[0] == '=');
    if |s| > 6 && s[..6] == "export" && IsSpace(s[6]) {
      assert forall i :: 0 <= i < 6 ==> s[i] == "export"[i];
      assert forall i :: 0 <= i < |key| ==> s[i] == key[i];
      assert |key| == 6 && s[6..] == rest;
      SkipsSpaces(between, "=" + value);
      assert SkipSpace("=" + value) == "=" + value && NameLength("=" + value) == 0;
    }
  }

  lemma PlainLineSets(key: string, between: string, value: string)
    requires IsName(key) && AllSpace(between)
    ensures var s := key + (between + ("=" + value)); SkipSpace(s) == s && LineKey(s) == Some(key)
  {
    var s := key + (between + ("=" + value));
    assert s[0] == key[0] && !IsSpace(key[0]) && SkipSpace(s) == s;
    NameIsFound(key, between, value);
    ExportIsAName(key, between, value);
    hide NameBeforeEquals, SkipSpace, IsSpace, IsName;
  }

  lemma ExportedLineSets(exporting: string, key: string, between: string, value: string)
    requires exporting != [] && IsExport(exporting) && IsName(key) && AllSpace(between)
    ensures var s := exporting + (key + (between + ("=" + value))); SkipSpace(s) == s && LineKey(s) == Some(key)
  {
    var rest := key + (between + ("=" + value));
    var s := exporting + rest;
    assert s[0] == exporting[..6][0] && s[..6] == exporting[..6] && s[6] == exporting[6..][0] && s[6..] == exporting[6..] + rest;
    SkipsSpaces(exporting[6..], rest);
    assert rest[0] == key[0] && SkipSpace(rest) == rest;
    NameIsFound(key, between, value);
  }

  lemma NoEqualsBefore(before: string, exporting: string, key: string, between: string)
    requires AllSpace(before) && IsExport(exporting) && IsName(key) && AllSpace(between)
    ensures '=' !in before + exporting + key + between
  {
    assert forall i :: 0 <= i < |exporting| ==> exporting[i] == if i < 6 then exporting[..6][i] else exporting[6..][i - 6];
    assert forall i :: 0 <= i < 6 ==> "export"[i] != '=';
    assert '=' !in exporting && '=' !in before && '=' !in key && '=' !in between;
  }

  /** A line of that form sets its variable, and what is after the equals sign is its value. */
  lemma LineSets(raw: string, key: string, before: string, exporting: string, between: string, value: string)
    requires Sets(raw, key, before, exporting, between, value)
    ensures LineKey(raw) == Some(key) && AfterEquals(raw) == value
  {
    hide SkipSpace, LineKey, IsExport, IsName, AfterEquals;
    var rest := exporting + (key + (between + ("=" + value)));
    if exporting == [] {
      assert rest == key + (between + ("=" + value));
      PlainLineSets(key, between, value);
    } else {
      ExportedLineSets(exporting, key, between, value);
    }
    SpacesBefore(before, rest);
    ValueIsLast(raw, key, before, exporting, between, value);
  }

  lemma SpacesBefore(before: string, rest: string)
    requires AllSpace(before) && SkipSpace(rest) == rest
    ensures LineKey(before + rest) == LineKey(rest)
  {
    SkipsSpaces(before, rest);
    hide SkipSpace, NameBeforeEquals;
  }

  lemma ValueIsLast(raw: string, key: string, before: string, exporting: string, between: string, value: string)
    requires Sets(raw, key, before, exporting, between, value)
    ensures AfterEquals(raw) == value
  {
    NoEqualsBefore(before, exporting, key, between);
    hide AfterEquals;
    var front := before + exporting + key + between;
    assert raw == front + ("=" + value);
    ValueAfter(front, value);
  }

  lemma NameForm(t: string) returns (between: string, value: string)
    requires NameBeforeEquals(t).Some?
    ensures IsName(NameBeforeEquals(t).value) && AllSpace(between)
    ensures t == NameBeforeEquals(t).value + (between + ("=" + value))
  {
    NameLengthBound(t);
    var n := NameLength(t);
    var m := SkipSpaceIs(t[n..]);
    between, value := t[n..][..m], t[n..][m + 1..];
    assert t == t[..n] + (between + ("=" + value));
  }

  /** And only a line of that form sets a variable. */
  lemma SetsIsTheForm(raw: string) returns (before: string, exporting: string, between: string, value: string)
    requires LineKey(raw).Some?
    ensures Sets(raw, LineKey(raw).value, before, exporting, between, value)
  {
    var k := SkipSpaceIs(raw);
    hide NameBeforeEquals, SkipSpace, IsName;
    var s := raw[k..];
    before, exporting := raw[..k], [];
    var t := s;
    if |s| > 6 && s[..6] == "export" && IsSpace(s[6]) && NameBeforeEquals(SkipSpace(s[6..])).Some? {
      var j := SkipSpaceIs(s[6..]);
      exporting, t := s[..6] + s[6..][..j], s[6..][j..];
      SpacesSkipped(s[6..], j);
      assert exporting[6..] == s[6..][..j] && exporting[..6] == s[..6];
    }
    between, value := NameForm(t);
    assert raw == before + (exporting + t);
  }

  lemma SpacesSkipped(s: string, j: nat)
    requires s != [] && IsSpace(s[0]) && j <= |s| && (j < |s| ==> !IsSpace(s[j])) && SkipSpace(s) == s[j..]
    ensures j > 0
  {
  }

  // ── The value ──────────────────────────────────────────────────────────────

  lemma {:induction false} ChopsSpaces(x: string, b: string)
    requires AllSpace(b)
    ensures ChopSpace(x + b) == ChopSpace(x)
  {
    if b == [] {
      assert x + b == x;
    } else {
      assert (x + b)[..|x + b| - 1] == x + b[..|b| - 1];
      ChopsSpaces(x, b[..|b| - 1]);
    }
  }

  predicate IsTrimmed(x: string)
  {
    x != [] && !IsSpace(x[0]) && !IsSpace(x[|x| - 1])
  }

  lemma TrimmedIs(a: string, x: string, b: string)
    requires AllSpace(a) && AllSpace(b) && IsTrimmed(x)
    ensures Trim(a + (x + b)) == x
  {
    SkipsSpaces(a, x + b);
    assert SkipSpace(x + b) == x + b;
    ChopsSpaces(x, b);
  }

  /** Between single quotes everything is the value as it stands. */
  lemma SingleQuotedIsLiteral(a: string, text: string, b: string)
    requires AllSpace(a) && AllSpace(b)
    ensures Unquote(a + ("'" + text + "'" + b)) == text
  {
    var x := "'" + text + "'";
    TrimmedIs(a, x, b);
    assert x[1..|x| - 1] == text;
  }

  /** No number sign right after a space. */
  predicate HasNoComment(v: string)
  {
    forall i :: 0 < i < |v| && v[i] == '#' ==> !IsSpace(v[i - 1])
  }

  lemma NoCommentYet(v: string, t: string)
    requires v != [] && !IsSpace(v[|v| - 1]) && HasNoComment(v)
    ensures !IsComment(v + t)
  {
    var k := SkipSpaceIs(v);
    assert forall i :: 0 <= i < k ==> v[i] == v[..k][i];
    assert k > 0 ==> IsSpace(v[k - 1]) && v[k] != '#';
    var before, rest := v[..k], v[k..] + t;
    assert rest[0] == v[k] && SkipSpace(rest) == rest;
    assert (v + t)[0] == v[0];
    assert v + t == before + rest by {
      assert v == before + v[k..];
    }
    SkipsSpaces(before, rest);
    hide SkipSpace;
  }

  lemma {:induction false} StripKeeps(v: string, t: string)
    requires (v != [] ==> !IsSpace(v[|v| - 1])) && HasNoComment(v) && (t == [] || IsComment(t))
    ensures StripComment(v + t) == v
  {
    if v == [] {
      assert v + t == t;
    } else {
      NoCommentYet(v, t);
      hide IsComment;
      assert (v + t)[1..] == v[1..] + t;
      StripKeeps(v[1..], t);
    }
  }

  /** What is not between quotes is the value without the spaces around it. */
  lemma BareIsKept(a: string, v: string, b: string)
    requires AllSpace(a) && AllSpace(b) && IsTrimmed(v) && HasNoComment(v) && !QuotedWith(v, '\"') && !QuotedWith(v, '\'')
    ensures Unquote(a + (v + b)) == v
  {
    TrimmedIs(a, v, b);
    assert v + [] == v;
    StripKeeps(v, []);
  }

  /**
   * And without a comment after it, for a value that is not empty. It is not unquoted then: a quoted value with a
   * comment after it keeps its quotes.
   */
  lemma CommentIsDropped(a: string, v: string, spaces: string, comment: string, b: string)
    requires AllSpace(a) && AllSpace(b) && AllSpace(spaces) && spaces != []
    requires IsTrimmed(v) && HasNoComment(v) && (forall i :: 0 <= i < |comment| ==> !IsTerminator(comment[i]))
    requires var x := v + (spaces + ("#" + comment)); IsTrimmed(x) && !QuotedWith(x, '\"') && !QuotedWith(x, '\'')
    ensures Unquote(a + (v + (spaces + ("#" + comment)) + b)) == v
  {
    var t := spaces + ("#" + comment);
    TrimmedIs(a, v + t, b);
    SkipsSpaces(spaces, "#" + comment);
    assert SkipSpace("#" + comment) == "#" + comment;
    assert t[0] == spaces[0] && IsComment(t);
    StripKeeps(v, t);
  }

  /** A comment after an empty value is the value: the space before it is trimmed first. */
  lemma CommentAloneIsTheValue(a: string, comment: string, b: string)
    requires AllSpace(a) && AllSpace(b) && IsTrimmed("#" + comment) && HasNoComment("#" + comment)
    ensures Unquote(a + ("#" + comment + b)) == "#" + comment
  {
    BareIsKept(a, "#" + comment, b);
  }

  /** A character between double quotes, as it stands or after a backslash. */
  datatype Piece = Plain(c: char) | Escaped(c: char)

  function Written(ps: seq<Piece>): string
  {
    if ps == [] then [] else (if ps[0].Plain? then [ps[0].c] else ['\\', ps[0].c]) + Written(ps[1..])
  }

  function Meant(ps: seq<Piece>): string
  {
    if ps == [] then []
    else
      var c := ps[0].c;
      [if ps[0].Plain? then c else if c == 'n' then '\n' else if c == 'r' then '\r' else if c == 't' then '\t' else c] + Meant(ps[1..])
  }

  /** No backslash stands for itself, and none is in front of a line's end. */
  predicate AreWritable(ps: seq<Piece>)
  {
    forall i :: 0 <= i < |ps| ==> if ps[i].Plain? then ps[i].c != '\\' else !IsTerminator(ps[i].c)
  }

  lemma {:induction false} WrittenIsMeant(ps: seq<Piece>)
    requires AreWritable(ps)
    ensures Unescape(Written(ps)) == Meant(ps)
  {
    if ps != [] {
      WrittenIsMeant(ps[1..]);
      var n := if ps[0].Plain? then 1 else 2;
      assert Written(ps)[n..] == Written(ps[1..]);
    }
  }

  /** Between double quotes `\n`, `\r` and `\t` are a line feed, a return and a tab; any other escaped character is itself. */
  lemma DoubleQuotedIsUnescaped(a: string, ps: seq<Piece>, b: string)
    requires AllSpace(a) && AllSpace(b) && AreWritable(ps)
    ensures Unquote(a + ("\"" + Written(ps) + "\"" + b)) == Meant(ps)
  {
    var x := "\"" + Written(ps) + "\"";
    TrimmedIs(a, x, b);
    WrittenIsMeant(ps);
    assert x[1..|x| - 1] == Written(ps);
  }
}
