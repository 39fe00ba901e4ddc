/** The app's `.env` file: reading it, and setting or removing one variable in its text. */
module Env {
  const MAX_VALUE_BYTES := 64 * 1024
  const MAX_KEY_LENGTH := 128

  datatype Option<T> = None | Some(value: T)

  datatype Result<T> = Ok(value: T) | Err(error: Error)

  datatype Error = InvalidName | ValueTooLarge | ValueHasNul

  // ── Characters ─────────────────────────────────────────────────────────────

  /** JavaScript's `\s` (and what `trim` removes). */
  predicate IsSpace(c: char)
  {
    || '\t' <= c <= '\r' || c == ' ' || c == '\U{a0}' || c == '\U{1680}' || '\U{2000}' <= c <= '\U{200a}'
    || c == '\U{2028}' || c == '\U{2029}' || c == '\U{202f}' || c == '\U{205f}' || c == '\U{3000}' || c == '\U{feff}'
  }

  /** What `.` does not match. */
  predicate IsTerminator(c: char)
  {
    c == '\n' || c == '\r' || c == '\U{2028}' || c == '\U{2029}'
  }

  predicate IsNameStart(c: char)
  {
    'A' <= c <= 'Z' || 'a' <= c <= 'z' || c == '_'
  }

  predicate IsNameChar(c: char)
  {
    IsNameStart(c) || '0' <= c <= '9'
  }

  predicate ValidKey(key: string)
  {
    1 <= |key| <= MAX_KEY_LENGTH && IsNameStart(key[0]) && forall i :: 0 <= i < |key| ==> IsNameChar(key[i])
  }

  function Utf8Length(s: string): nat
  {
    if s == [] then 0
    else (if s[0] < '\U{80}' then 1 else if s[0] < '\U{800}' then 2 else if s[0] < '\U{10000}' then 3 else 4) + Utf8Length(s[1..])
  }

  function SkipSpace(s: string): string
  {
    if s != [] && IsSpace(s[0]) then SkipSpace(s[1..]) else s
  }

  function ChopSpace(s: string): string
  {
    if s != [] && IsSpace(s[|s| - 1]) then ChopSpace(s[..|s| - 1]) else s
  }

  function Trim(s: string): string
  {
    ChopSpace(SkipSpace(s))
  }

  // ── Lines ──────────────────────────────────────────────────────────────────

  /** `replace(/\r\n/g, '\n')` */
  function NoCrLf(t: string): string
  {
    if t == [] then []
    else if |t| >= 2 && t[0] == '\r' && t[1] == '\n' then ['\n'] + NoCrLf(t[2..])
    else [t[0]] + NoCrLf(t[1..])
  }

  function ChopNewline(t: string): string
  {
    if t != [] && t[|t| - 1] == '\n' then t[..|t| - 1] else t
  }

  /** `split('\n')` */
  function Split(t: string): (lines: seq<string>)
    ensures lines != []
  {
    if t == [] then [[]]
    else
      var rest := Split(t[1..]);
      if t[0] == '\n' then [[]] + rest else [[t[0]] + rest[0]] + rest[1..]
  }

  function RawLines(text: string): seq<string>
  {
    if text == [] then [] else Split(ChopNewline(NoCrLf(text)))
  }

  /** `lines.join('\n')` */
  function Join(lines: seq<string>): string
  {
    if lines == [] then [] else if |lines| == 1 then lines[0] else lines[0] + "\n" + Join(lines[1..])
  }

  function NameLength(s: string): nat
  {
    if s != [] && IsNameChar(s[0]) then 1 + NameLength(s[1..]) else 0
  }

  lemma {:induction false} NameLengthBound(s: string)
    ensures NameLength(s) <= |s|
    ensures forall i :: 0 <= i < NameLength(s) ==> IsNameChar(s[i])
  {
    if s != [] && IsNameChar(s[0]) {
      NameLengthBound(s[1..]);
    }
  }

  /** A name, spaces and an `=`. */
  function NameBeforeEquals(s: string): Option<string>
  {
    NameLengthBound(s);
    var n := NameLength(s);
    if n == 0 || !IsNameStart(s[0]) then None
    else
      var rest := SkipSpace(s[n..]);
      if rest != [] && rest[0] == '=' then Some(s[..n]) else None
  }

  /** The variable a line sets, `export` before it or not. */
  function LineKey(raw: string): Option<string>
  {
    var s := SkipSpace(raw);
    var exported :=
      if |s| > 6 && s[..6] == "export" && IsSpace(s[6]) then NameBeforeEquals(SkipSpace(s[6..])) else None;
    if exported.Some? then exported else NameBeforeEquals(s)
  }

  datatype Line = Line(raw: string, key: Option<string>)

  function WithKeys(raws: seq<string>, keyOf: string -> Option<string>): seq<Line>
  {
    if raws == [] then [] else [Line(raws[0], keyOf(raws[0]))] + WithKeys(raws[1..], keyOf)
  }

  function SplitLines(text: string): seq<Line>
  {
    WithKeys(RawLines(text), LineKey)
  }

  function AfterEquals(raw: string): string
  {
    if raw == [] then [] else if raw[0] == '=' then raw[1..] else AfterEquals(raw[1..])
  }

  // ── Values ─────────────────────────────────────────────────────────────────

  function ReplaceAll(s: string, c: char, text: string): string
  {
    if s == [] then [] else (if s[0] == c then text else [s[0]]) + ReplaceAll(s[1..], c, text)
  }

  /** One replacement after another, backslashes first. */
  function Quote(value: string): string
  {
    var a := ReplaceAll(value, '\\', "\\\\");
    var b := ReplaceAll(a, '\"', "\\\"");
    var c := ReplaceAll(b, '\n', "\\n");
    var d := ReplaceAll(c, '\r', "\\r");
    "\"" + ReplaceAll(d, '\t', "\\t") + "\""
  }

  function Unescaped(c: char): char
  {
    if c == 'n' then '\n' else if c == 'r' then '\r' else if c == 't' then '\t' else c
  }

  /** `replace(/\\(.)/g, …)` */
  function Unescape(s: string): string
  {
    if s == [] then []
    else if s[0] == '\\' && |s| >= 2 && !IsTerminator(s[1]) then [Unescaped(s[1])] + Unescape(s[2..])
    else [s[0]] + Unescape(s[1..])
  }

  predicate IsComment(s: string)
  {
    var rest := SkipSpace(s);
    s != [] && IsSpace(s[0]) && rest != [] && rest[0] == '#' && forall i :: 0 <= i < |rest| ==> !IsTerminator(rest[i])
  }

  /** `replace(/\s+#.*$/, '')` */
  function StripComment(v: string): string
  {
    if v == [] || IsComment(v) then [] else [v[0]] + StripComment(v[1..])
  }

  predicate QuotedWith(v: string, q: char)
  {
    |v| >= 2 && v[0] == q && v[|v| - 1] == q
  }

  function Unquote(value: string): string
  {
    var v := Trim(value);
    if QuotedWith(v, '\"') then Unescape(v[1..|v| - 1])
    else if QuotedWith(v, '\'') then v[1..|v| - 1]
    else StripComment(v)
  }

  // ── Reading and editing ────────────────────────────────────────────────────

  function ValueOf(raw: string): string
  {
    Unquote(AfterEquals(raw))
  }

  /** The last value each key is given, `value` reading it from the line. */
  function Parsed(lines: seq<Line>, value: string -> string): map<string, string>
  {
    if lines == [] then map[]
    else
      var last := lines[|lines| - 1];
      var before := Parsed(lines[..|lines| - 1], value);
      if last.key.None? then before else before[last.key.value := value(last.raw)]
  }

  function Vars(text: string): map<string, string>
  {
    Parsed(SplitLines(text), ValueOf)
  }

  function Entry(key: string, value: string): string
  {
    key + "=" + Quote(value)
  }

  /** The lines with every one that sets `key` gone but the first, which becomes `entry`. */
  function Replaced(lines: seq<Line>, key: string, entry: string, replaced: bool): seq<string>
  {
    if lines == [] then (if replaced then [] else [entry])
    else if lines[0].key != Some(key) then [lines[0].raw] + Replaced(lines[1..], key, entry, replaced)
    else (if replaced then [] else [entry]) + Replaced(lines[1..], key, entry, true)
  }

  function SetText(text: string, key: string, value: string): string
  {
    Join(Replaced(SplitLines(text), key, Entry(key, value), false)) + "\n"
  }

  function Without(lines: seq<Line>, key: string): seq<string>
  {
    if lines == [] then []
    else (if lines[0].key != Some(key) then [lines[0].raw] else []) + Without(lines[1..], key)
  }

  /** `unsetEnv`, for a valid name. */
  function UnsetText(text: string, key: string): Option<string>
  {
    var lines := SplitLines(text);
    var kept := Without(lines, key);
    if !exists i :: 0 <= i < |lines| && lines[i].key == Some(key) then None
    else if kept == [] then Some([]) else Some(Join(kept) + "\n")
  }

  /** The loop of `parseEnv`: a repeated key keeps its last value. */
  method ParseLines(lines: seq<Line>, value: string -> string) returns (vars: map<string, string>)
    ensures vars == Parsed(lines, value)
  {
    vars := map[];
    for i := 0 to |lines|
      invariant vars == Parsed(lines[..i], value)
    {
      assert lines[..i + 1][..i] == lines[..i];
      var key := lines[i].key;
      if key.Some? {
        vars := vars - {key.value};
        vars := vars[key.value := value(lines[i].raw)];
      }
    }
    assert lines[..|lines|] == lines;
  }

  method ParseEnv(text: string) returns (vars: map<string, string>)
    ensures vars == Vars(text)
  {
    vars := ParseLines(SplitLines(text), ValueOf);
  }

  /** The loop of `setEnv`. */
  method ReplaceLines(lines: seq<Line>, key: string, entry: string) returns (out: seq<string>)
    ensures out == Replaced(lines, key, entry, false)
  {
    hide Replaced;
    var replaced := false;
    out := [];
    assert lines[0..] == lines;
    for i := 0 to |lines|
      invariant out + Replaced(lines[i..], key, entry, replaced) == Replaced(lines, key, entry, false)
    {
      OneLine(out, lines, i, key, entry, replaced);
      if lines[i].key != Some(key) {
        out := out + [lines[i].raw];
      } else if !replaced {
        out := out + [entry];
        replaced := true;
      }
    }
    NoLines(lines[|lines|..], key, entry, replaced);
    if !replaced {
      out := out + [entry];
    }
  }

  /** What one line adds to `out`. */
  lemma OneLine(out: seq<string>, lines: seq<Line>, i: nat, key: string, entry: string, replaced: bool)
    requires i < |lines|
    ensures var rest := Replaced(lines[i..], key, entry, replaced);
            out + rest ==
              if lines[i].key != Some(key) then (out + [lines[i].raw]) + Replaced(lines[i + 1..], key, entry, replaced)
              else if replaced then out + Replaced(lines[i + 1..], key, entry, true)
              else (out + [entry]) + Replaced(lines[i + 1..], key, entry, true)
  {
    assert lines[i..][1..] == lines[i + 1..];
  }

  lemma NoLines(lines: seq<Line>, key: string, entry: string, replaced: bool)
    requires lines == []
    ensures Replaced(lines, key, entry, replaced) == if replaced then [] else [entry]
  {
  }

  method SetEnv(text: string, key: string, value: string) returns (r: Result<string>)
    ensures r.Ok? <==> ValidKey(key) && Utf8Length(value) <= MAX_VALUE_BYTES && '\0' !in value
    ensures r.Ok? ==> r.value == SetText(text, key, value)
    ensures r.Err? ==> r.error == if !ValidKey(key) then InvalidName
                                  else if Utf8Length(value) > MAX_VALUE_BYTES then ValueTooLarge else ValueHasNul
  {
    if !ValidKey(key) {
      return Err(InvalidName);
    }
    if Utf8Length(value) > MAX_VALUE_BYTES {
      return Err(ValueTooLarge);
    }
    if '\0' in value {
      return Err(ValueHasNul);
    }
    var out := ReplaceLines(SplitLines(text), key, Entry(key, value));
    r := Ok(Join(out) + "\n");
  }

  /** `unsetEnv`; `None` when it was not set. */
  function UnsetEnv(text: string, key: string): (r: Result<Option<string>>)
  {
    if !ValidKey(key) then Err(InvalidName) else Ok(UnsetText(text, key))
  }

  // ── Quoting ────────────────────────────────────────────────────────────────

  /** What one character of a value is written as. */
  function Escape(c: char): string
  {
    if c == '\\' then "\\\\" else if c == '\"' then "\\\"" else if c == '\n' then "\\n"
    else if c == '\r' then "\\r" else if c == '\t' then "\\t" else [c]
  }

  function EscapeAll(s: string): string
  {
    if s == [] then [] else Escape(s[0]) + EscapeAll(s[1..])
  }

  lemma {:induction false} ReplaceAllAppend(a: string, b: string, c: char, text: string)
    ensures ReplaceAll(a + b, c, text) == ReplaceAll(a, c, text) + ReplaceAll(b, c, text)
  {
    if a == [] {
      assert a + b == b;
    } else {
      assert (a + b)[1..] == a[1..] + b;
      ReplaceAllAppend(a[1..], b, c, text);
    }
  }

  function Replacements(s: string): string
  {
    ReplaceAll(ReplaceAll(ReplaceAll(ReplaceAll(ReplaceAll(s, '\\', "\\\\"), '\"', "\\\""), '\n', "\\n"), '\r', "\\r"), '\t', "\\t")
  }

  lemma OneReplaced(x: char, c: char, text: string)
    ensures ReplaceAll([x], c, text) == if x == c then text else [x]
  {
    assert [x][1..] == [];
    assert text + [] == text;
  }

  lemma OneCharacter(c: char)
    ensures Replacements([c]) == Escape(c)
  {
    OneReplaced(c, '\\', "\\\\");
    OneReplaced(c, '\"', "\\\"");
    OneReplaced(c, '\n', "\\n");
    OneReplaced(c, '\r', "\\r");
    OneReplaced(c, '\t', "\\t");
    var a := ReplaceAll([c], '\\', "\\\\");
    assert a == if c == '\\' then "\\\\" else [c];
    if c == '\\' {
      TwoCharacters('\\', '\\', '\"', "\\\"");
      TwoCharacters('\\', '\\', '\n', "\\n");
      TwoCharacters('\\', '\\', '\r', "\\r");
      TwoCharacters('\\', '\\', '\t', "\\t");
    } else if c == '\"' {
      TwoCharacters('\\', '\"', '\n', "\\n");
      TwoCharacters('\\', '\"', '\r', "\\r");
      TwoCharacters('\\', '\"', '\t', "\\t");
    } else if c == '\n' {
      TwoCharacters('\\', 'n', '\r', "\\r");
      TwoCharacters('\\', 'n', '\t', "\\t");
    } else if c == '\r' {
      TwoCharacters('\\', 'r', '\t', "\\t");
    }
  }

  lemma TwoCharacters(x: char, y: char, c: char, text: string)
    requires x != c && y != c
    ensures ReplaceAll([x, y], c, text) == [x, y]
  {
    assert [x, y][1..] == [y];
    assert [y][1..] == [];
    assert ReplaceAll([y], c, text) == [y] + ReplaceAll([], c, text);
  }

  lemma {:induction false} ReplacementsEscape(s: string)
    ensures Replacements(s) == EscapeAll(s)
  {
    if s != [] {
      var h, t := [s[0]], s[1..];
      assert s == h + t;
      var a1, a2 := ReplaceAll(h, '\\', "\\\\"), ReplaceAll(t, '\\', "\\\\");
      var b1, b2 := ReplaceAll(a1, '\"', "\\\""), ReplaceAll(a2, '\"', "\\\"");
      var c1, c2 := ReplaceAll(b1, '\n', "\\n"), ReplaceAll(b2, '\n', "\\n");
      var d1, d2 := ReplaceAll(c1, '\r', "\\r"), ReplaceAll(c2, '\r', "\\r");
      ReplaceAllAppend(h, t, '\\', "\\\\");
      ReplaceAllAppend(a1, a2, '\"', "\\\"");
      ReplaceAllAppend(b1, b2, '\n', "\\n");
      ReplaceAllAppend(c1, c2, '\r', "\\r");
      ReplaceAllAppend(d1, d2, '\t', "\\t");
      OneCharacter(s[0]);
      ReplacementsEscape(t);
    }
  }

  lemma EscapeIsOne(c: char, t: string)
    ensures Unescape(Escape(c) + t) == [c] + Unescape(t)
  {
    var e := Escape(c);
    assert (e + t)[|e|..] == t;
    if |e| == 2 {
      assert (e + t)[0] == '\\' && !IsTerminator((e + t)[1]);
    }
  }

  lemma {:induction false} UnescapeEscape(s: string)
    ensures Unescape(EscapeAll(s)) == s
  {
    if s != [] {
      hide Escape;
      UnescapeEscape(s[1..]);
      EscapeIsOne(s[0], EscapeAll(s[1..]));
    }
  }

  lemma QuoteIs(value: string)
    ensures Quote(value) == "\"" + EscapeAll(value) + "\""
  {
    ReplacementsEscape(value);
  }

  /** `unquote` undoes `quote`, for every string. */
  lemma UnquoteOfQuote(value: string)
    ensures Unquote(Quote(value)) == value
  {
    QuoteIs(value);
    var q := Quote(value);
    assert q[0] == '\"' && q[|q| - 1] == '\"';
    assert Trim(q) == q;
    assert q[1..|q| - 1] == EscapeAll(value);
    UnescapeEscape(value);
  }

  // ── Lines written and read back ────────────────────────────────────────────

  /** A carriage return before the line break is taken for part of it the second time. */
  function DropCr(line: string): string
  {
    if line != [] && line[|line| - 1] == '\r' then line[..|line| - 1] else line
  }

  function DropCrs(lines: seq<string>): seq<string>
  {
    if lines == [] then [] else [DropCr(lines[0])] + DropCrs(lines[1..])
  }

  ghost predicate NoBreaks(s: string)
  {
    '\n' !in s
  }

  lemma {:induction false} SplitHasNoBreaks(t: string)
    ensures forall i :: 0 <= i < |Split(t)| ==> NoBreaks(Split(t)[i])
  {
    if t != [] {
      SplitHasNoBreaks(t[1..]);
    }
  }

  lemma {:induction false} BreakCrLf(line: string, rest: string)
    requires NoBreaks(line)
    ensures NoCrLf(line + "\n" + rest) == DropCr(line) + "\n" + NoCrLf(rest)
  {
    var t := line + "\n" + rest;
    if line == [] {
      assert t[1..] == rest;
    } else if line == "\r" {
      assert t[2..] == rest;
    } else {
      assert t[1..] == line[1..] + "\n" + rest;
      BreakCrLf(line[1..], rest);
      assert t[0] == line[0] && (|line| > 1 ==> t[1] == line[1]);
      assert NoCrLf(t) == [t[0]] + NoCrLf(t[1..]);
      assert [line[0]] + DropCr(line[1..]) == DropCr(line);
    }
  }

  lemma {:induction false} SplitLine(line: string, rest: string)
    requires NoBreaks(line)
    ensures Split(line + "\n" + rest) == [line] + Split(rest)
  {
    var t := line + "\n" + rest;
    if line == [] {
      assert t[1..] == rest;
    } else {
      assert t[1..] == line[1..] + "\n" + rest;
      SplitLine(line[1..], rest);
      assert line == [line[0]] + line[1..];
    }
  }

  lemma {:induction false} SplitWhole(line: string)
    requires NoBreaks(line)
    ensures Split(line) == [line]
  {
    if line != [] {
      SplitWhole(line[1..]);
      assert line == [line[0]] + line[1..];
    }
  }

  lemma {:induction false} JoinCrLf(lines: seq<string>)
    requires lines != [] && forall i :: 0 <= i < |lines| ==> NoBreaks(lines[i])
    ensures NoCrLf(Join(lines) + "\n") == Join(DropCrs(lines)) + "\n"
  {
    if |lines| == 1 {
      BreakCrLf(lines[0], "");
      assert lines[0] + "\n" + "" == lines[0] + "\n";
      assert DropCrs(lines) == [DropCr(lines[0])];
    } else {
      JoinCrLf(lines[1..]);
      BreakCrLf(lines[0], Join(lines[1..]) + "\n");
      assert Join(lines) + "\n" == lines[0] + "\n" + (Join(lines[1..]) + "\n");
      assert DropCrs(lines)[1..] == DropCrs(lines[1..]);
      assert |DropCrs(lines)| > 1;
    }
  }

  lemma {:induction false} SplitJoin(lines: seq<string>)
    requires lines != [] && forall i :: 0 <= i < |lines| ==> NoBreaks(lines[i])
    ensures Split(Join(lines)) == lines
  {
    if |lines| == 1 {
      SplitWhole(lines[0]);
    } else {
      SplitJoin(lines[1..]);
      SplitLine(lines[0], Join(lines[1..]));
    }
  }

  lemma {:induction false} DropCrsLines(lines: seq<string>)
    requires forall i :: 0 <= i < |lines| ==> NoBreaks(lines[i])
    ensures |DropCrs(lines)| == |lines|
    ensures forall i :: 0 <= i < |lines| ==> NoBreaks(DropCrs(lines)[i])
  {
    if lines != [] {
      DropCrsLines(lines[1..]);
    }
  }

  /** Lines joined and ended with a break are read back, but for carriage returns at their ends. */
  lemma LinesReadBack(lines: seq<string>)
    requires lines != [] && forall i :: 0 <= i < |lines| ==> NoBreaks(lines[i])
    ensures RawLines(Join(lines) + "\n") == DropCrs(lines)
  {
    JoinCrLf(lines);
    DropCrsLines(lines);
    SplitJoin(DropCrs(lines));
    var t := Join(DropCrs(lines)) + "\n";
    assert t[..|t| - 1] == Join(DropCrs(lines));
  }

  // ── A carriage return at the end of a line means nothing ───────────────────

  lemma {:induction false} SkipSpaceCr(s: string)
    ensures SkipSpace(s + "\r") == if SkipSpace(s) == [] then [] else SkipSpace(s) + "\r"
  {
    if s == [] {
      assert s + "\r" == "\r";
      assert "\r"[1..] == [];
    } else {
      assert (s + "\r")[1..] == s[1..] + "\r";
      SkipSpaceCr(s[1..]);
    }
  }

  lemma {:induction false} NameLengthCr(s: string)
    ensures NameLength(s + "\r") == NameLength(s)
  {
    if s == [] {
      assert s + "\r" == "\r";
    } else {
      assert (s + "\r")[1..] == s[1..] + "\r";
      NameLengthCr(s[1..]);
    }
  }

  lemma NameBeforeEqualsCr(s: string)
    ensures NameBeforeEquals(s + "\r") == NameBeforeEquals(s)
  {
    NameLengthBound(s);
    NameLengthCr(s);
    var n := NameLength(s);
    assert (s + "\r")[n..] == s[n..] + "\r";
    assert (s + "\r")[..n] == s[..n];
    SkipSpaceCr(s[n..]);
  }

  lemma LineKeyCr(raw: string)
    ensures LineKey(raw + "\r") == LineKey(raw)
  {
    var s := SkipSpace(raw);
    SkipSpaceCr(raw);
    if s != [] {
      NameBeforeEqualsCr(s);
      if |s| >= 6 && s[..6] == "export" {
        assert (s + "\r")[..6] == s[..6];
        assert (s + "\r")[6..] == s[6..] + "\r";
        SkipSpaceCr(s[6..]);
        NameBeforeEqualsCr(SkipSpace(s[6..]));
      } else if |s| >= 6 {
        assert (s + "\r")[..6] == s[..6];
      } else if |s| == 5 {
        assert (s + "\r")[..6][5] == '\r';
      }
    }
  }

  lemma {:induction false} AfterEqualsCr(raw: string)
    requires '=' in raw
    ensures AfterEquals(raw + "\r") == AfterEquals(raw) + "\r"
  {
    if raw[0] == '=' {
      assert (raw + "\r")[1..] == raw[1..] + "\r";
    } else {
      assert (raw + "\r")[1..] == raw[1..] + "\r";
      AfterEqualsCr(raw[1..]);
    }
  }

  lemma TrimCr(v: string)
    ensures Trim(v + "\r") == Trim(v)
  {
    SkipSpaceCr(v);
  }

  lemma {:induction false} SkipSpaceKeeps(s: string, c: char)
    requires c in SkipSpace(s)
    ensures c in s
  {
    if s != [] && IsSpace(s[0]) {
      SkipSpaceKeeps(s[1..], c);
    }
  }

  lemma KeyHasEquals(raw: string)
    requires LineKey(raw).Some?
    ensures '=' in raw
  {
    var s := SkipSpace(raw);
    var t := if |s| > 6 && s[..6] == "export" && IsSpace(s[6]) && NameBeforeEquals(SkipSpace(s[6..])).Some?
             then SkipSpace(s[6..]) else s;
    NameLengthBound(t);
    var rest := t[NameLength(t)..];
    assert SkipSpace(rest)[0] == '=';
    SkipSpaceKeeps(rest, '=');
    assert '=' in t;
    if t != s {
      SkipSpaceKeeps(s[6..], '=');
    }
    SkipSpaceKeeps(raw, '=');
  }

  lemma DropCrMeansNothing(raw: string)
    ensures LineKey(DropCr(raw)) == LineKey(raw)
    ensures LineKey(raw).Some? ==> ValueOf(DropCr(raw)) == ValueOf(raw)
  {
    var t := DropCr(raw);
    if t != raw {
      assert raw == t + "\r";
      LineKeyCr(t);
      if LineKey(raw).Some? {
        KeyHasEquals(t);
        AfterEqualsCr(t);
        TrimCr(AfterEquals(t));
      }
    }
  }

  // ── The edited text means the edited variables ─────────────────────────────

  lemma {:induction false} ParsedAppend(a: seq<Line>, b: seq<Line>, value: string -> string)
    ensures Parsed(a + b, value) == Parsed(a, value) + Parsed(b, value)
  {
    if b == [] {
      assert a + b == a;
    } else {
      assert (a + b)[..|a + b| - 1] == a + b[..|b| - 1];
      ParsedAppend(a, b[..|b| - 1], value);
    }
  }

  lemma ParsedFirst(lines: seq<Line>, value: string -> string)
    requires lines != []
    ensures Parsed(lines, value) == Parsed([lines[0]], value) + Parsed(lines[1..], value)
  {
    assert lines == [lines[0]] + lines[1..];
    ParsedAppend([lines[0]], lines[1..], value);
  }

  ghost predicate Alike(a: Line, b: Line, value: string -> string)
  {
    a.key == b.key && (a.key.Some? ==> value(a.raw) == value(b.raw))
  }

  lemma {:induction false} AlikeParsed(a: seq<Line>, b: seq<Line>, value: string -> string)
    requires |a| == |b| && forall i :: 0 <= i < |a| ==> Alike(a[i], b[i], value)
    ensures Parsed(a, value) == Parsed(b, value)
  {
    if a != [] {
      AlikeParsed(a[..|a| - 1], b[..|b| - 1], value);
      assert Alike(a[|a| - 1], b[|b| - 1], value);
    }
  }

  lemma {:induction false} WithKeysAt(raws: seq<string>, keyOf: string -> Option<string>)
    ensures |WithKeys(raws, keyOf)| == |raws|
    ensures forall i :: 0 <= i < |raws| ==> WithKeys(raws, keyOf)[i] == Line(raws[i], keyOf(raws[i]))
  {
    if raws != [] {
      WithKeysAt(raws[1..], keyOf);
    }
  }

  lemma {:induction false} DropCrsAt(raws: seq<string>)
    ensures |DropCrs(raws)| == |raws|
    ensures forall i :: 0 <= i < |raws| ==> DropCrs(raws)[i] == DropCr(raws[i])
  {
    if raws != [] {
      DropCrsAt(raws[1..]);
    }
  }

  /** Writing lines out and reading them back leaves the variables alone. */
  lemma VarsOfJoined(lines: seq<string>)
    requires lines != [] && forall i :: 0 <= i < |lines| ==> NoBreaks(lines[i])
    ensures Vars(Join(lines) + "\n") == Parsed(WithKeys(lines, LineKey), ValueOf)
  {
    LinesReadBack(lines);
    WithKeysAt(lines, LineKey);
    WithKeysAt(DropCrs(lines), LineKey);
    DropCrsAt(lines);
    var a, b := WithKeys(DropCrs(lines), LineKey), WithKeys(lines, LineKey);
    forall i | 0 <= i < |a| ensures Alike(a[i], b[i], ValueOf) {
      DropCrMeansNothing(lines[i]);
    }
    AlikeParsed(a, b, ValueOf);
  }

  /** Each line with the key found in it. */
  ghost predicate Keyed(lines: seq<Line>, keyOf: string -> Option<string>)
  {
    forall i :: 0 <= i < |lines| ==> lines[i].key == keyOf(lines[i].raw)
  }

  lemma FirstKept(line: Line, rest: seq<string>, keyOf: string -> Option<string>, value: string -> string)
    requires line.key == keyOf(line.raw)
    ensures Parsed(WithKeys([line.raw] + rest, keyOf), value)
         == OneOf(line, value) + Parsed(WithKeys(rest, keyOf), value)
  {
    var out := WithKeys([line.raw] + rest, keyOf);
    assert ([line.raw] + rest)[1..] == rest;
    assert out[0] == line && out[1..] == WithKeys(rest, keyOf);
    ParsedFirst(out, value);
  }

  lemma OtherKey(one: map<string, string>, rest: map<string, string>, key: string, v: string)
    requires key !in one
    ensures one + rest[key := v] == (one + rest)[key := v]
    ensures one + (rest - {key}) == (one + rest) - {key}
  {
  }

  lemma SameKey(former: string, rest: map<string, string>, key: string, v: string)
    ensures rest - {key} == (map[key := former] + rest) - {key}
    ensures map[key := v] + (rest - {key}) == (map[key := former] + rest)[key := v]
  {
  }

  function OneOf(line: Line, value: string -> string): map<string, string>
  {
    if line.key.None? then map[] else map[line.key.value := value(line.raw)]
  }

  lemma {:induction false} ReplacedParsed(
    lines: seq<Line>, key: string, entry: string, keyOf: string -> Option<string>, value: string -> string, replaced: bool)
    requires Keyed(lines, keyOf) && keyOf(entry) == Some(key)
    ensures Parsed(WithKeys(Replaced(lines, key, entry, replaced), keyOf), value)
         == if replaced then Parsed(lines, value) - {key} else Parsed(lines, value)[key := value(entry)]
  {
    var e := Line(entry, Some(key));
    if lines == [] {
      FirstKept(e, [], keyOf, value);
      assert [entry] + [] == [entry];
      assert map[key := value(entry)] + map[] == map[key := value(entry)];
    } else {
      ParsedFirst(lines, value);
      var rest := Parsed(lines[1..], value);
      if lines[0].key != Some(key) {
        ReplacedParsed(lines[1..], key, entry, keyOf, value, replaced);
        FirstKept(lines[0], Replaced(lines[1..], key, entry, replaced), keyOf, value);
        OtherKey(OneOf(lines[0], value), rest, key, value(entry));
      } else {
        var others := Replaced(lines[1..], key, entry, true);
        ReplacedParsed(lines[1..], key, entry, keyOf, value, true);
        SameKey(value(lines[0].raw), rest, key, value(entry));
        if replaced {
          assert [] + others == others;
        } else {
          FirstKept(e, others, keyOf, value);
        }
      }
    }
  }

  lemma {:induction false} WithoutParsed(
    lines: seq<Line>, key: string, keyOf: string -> Option<string>, value: string -> string)
    requires Keyed(lines, keyOf)
    ensures Parsed(WithKeys(Without(lines, key), keyOf), value) == Parsed(lines, value) - {key}
  {
    if lines != [] {
      ParsedFirst(lines, value);
      WithoutParsed(lines[1..], key, keyOf, value);
      var rest := Parsed(lines[1..], value);
      if lines[0].key != Some(key) {
        FirstKept(lines[0], Without(lines[1..], key), keyOf, value);
        OtherKey(OneOf(lines[0], value), rest, key, "");
      } else {
        assert [] + Without(lines[1..], key) == Without(lines[1..], key);
        SameKey(value(lines[0].raw), rest, key, "");
      }
    }
  }

  lemma {:induction false} ReplacedLines(lines: seq<Line>, key: string, entry: string, replaced: bool)
    requires NoBreaks(entry) && forall i :: 0 <= i < |lines| ==> NoBreaks(lines[i].raw)
    ensures var out := Replaced(lines, key, entry, replaced);
            (!replaced ==> out != []) && forall i :: 0 <= i < |out| ==> NoBreaks(out[i])
  {
    if lines != [] {
      ReplacedLines(lines[1..], key, entry, replaced || lines[0].key == Some(key));
    }
  }

  lemma {:induction false} WithoutLines(lines: seq<Line>, key: string)
    requires forall i :: 0 <= i < |lines| ==> NoBreaks(lines[i].raw)
    ensures forall i :: 0 <= i < |Without(lines, key)| ==> NoBreaks(Without(lines, key)[i])
  {
    if lines != [] {
      WithoutLines(lines[1..], key);
    }
  }

  lemma TextLines(text: string)
    ensures Keyed(SplitLines(text), LineKey) && forall i :: 0 <= i < |SplitLines(text)| ==> NoBreaks(SplitLines(text)[i].raw)
  {
    WithKeysAt(RawLines(text), LineKey);
    SplitHasNoBreaks(ChopNewline(NoCrLf(text)));
  }

  lemma {:induction false} EscapeHasNoBreaks(s: string)
    ensures '\n' !in EscapeAll(s)
  {
    if s != [] {
      EscapeHasNoBreaks(s[1..]);
    }
  }

  lemma {:induction false} NameOfEntry(key: string, rest: string)
    requires forall i :: 0 <= i < |key| ==> IsNameChar(key[i])
    requires rest != [] && rest[0] == '='
    ensures NameLength(key + rest) == |key|
    ensures AfterEquals(key + rest) == rest[1..]
  {
    if key == [] {
      assert key + rest == rest;
    } else {
      assert (key + rest)[1..] == key[1..] + rest;
      NameOfEntry(key[1..], rest);
    }
  }

  lemma EntryKey(key: string, rest: string)
    requires ValidKey(key) && rest != [] && rest[0] == '='
    ensures LineKey(key + rest) == Some(key)
  {
    var s := key + rest;
    NameOfEntry(key, rest);
    assert SkipSpace(s) == s;
    assert !(|s| > 6 && s[..6] == "export" && IsSpace(s[6])) by {
      if |key| > 6 {
        assert s[6] == key[6];
      } else if |key| < 6 && |s| > 6 {
        assert s[..6][|key|] == '=';
      }
    }
    assert s[..|key|] == key;
    assert s[|key|..] == rest;
    assert NameBeforeEquals(s) == Some(key);
  }

  /** The written line sets the key it is for, to the value given. */
  lemma EntryMeans(key: string, value: string)
    requires ValidKey(key)
    ensures LineKey(Entry(key, value)) == Some(key)
    ensures ValueOf(Entry(key, value)) == value
    ensures NoBreaks(Entry(key, value))
  {
    hide SkipSpace, NameBeforeEquals, Quote, EscapeAll, ReplaceAll, Unescape;
    var rest := "=" + Quote(value);
    assert Entry(key, value) == key + rest;
    EntryKey(key, rest);
    NameOfEntry(key, rest);
    assert rest[1..] == Quote(value);
    UnquoteOfQuote(value);
    QuoteIs(value);
    EscapeHasNoBreaks(value);
  }

  /** `setEnv` sets exactly that variable, to exactly that value, whatever the text. */
  lemma SetMeans(text: string, key: string, value: string)
    requires ValidKey(key)
    ensures Vars(SetText(text, key, value)) == Vars(text)[key := value]
  {
    var lines := SplitLines(text);
    var entry := Entry(key, value);
    TextLines(text);
    EntryMeans(key, value);
    ReplacedLines(lines, key, entry, false);
    VarsOfJoined(Replaced(lines, key, entry, false));
    ReplacedParsed(lines, key, entry, LineKey, ValueOf, false);
  }

  lemma {:induction false} ParsedHas(lines: seq<Line>, key: string, value: string -> string)
    ensures key in Parsed(lines, value) <==> exists i :: 0 <= i < |lines| && lines[i].key == Some(key)
  {
    if lines != [] {
      var before := lines[..|lines| - 1];
      ParsedHas(before, key, value);
      if exists i :: 0 <= i < |lines| && lines[i].key == Some(key) {
        var i :| 0 <= i < |lines| && lines[i].key == Some(key);
        if i < |before| {
          assert before[i].key == Some(key);
        }
      }
      if exists i :: 0 <= i < |before| && before[i].key == Some(key) {
        var i :| 0 <= i < |before| && before[i].key == Some(key);
        assert lines[i].key == Some(key);
      }
    }
  }

  /** `unsetEnv` refuses an invalid name, answers null exactly when it was not set, and else removes exactly that variable. */
  lemma UnsetMeans(text: string, key: string)
    ensures if !ValidKey(key) then UnsetEnv(text, key) == Err(InvalidName)
            else if key !in Vars(text) then UnsetEnv(text, key) == Ok(None)
            else UnsetEnv(text, key).Ok? && UnsetEnv(text, key).value.Some?
                 && Vars(UnsetEnv(text, key).value.value) == Vars(text) - {key}
  {
    var lines := SplitLines(text);
    TextLines(text);
    ParsedHas(lines, key, ValueOf);
    WithoutParsed(lines, key, LineKey, ValueOf);
    WithoutLines(lines, key);
    var kept := Without(lines, key);
    if kept != [] {
      VarsOfJoined(kept);
    } else {
      assert RawLines([]) == [];
    }
  }
}
