/**
 * The tokenizer behind the read-only command check: words, segments and redirections of a shell
 * command. What is left of the command stands for the source's index into it.
 */
module Shell {
  datatype Word = Word(text: string, glob: bool, expands: bool)

  datatype Result<T> = Ok(value: T) | Unsafe

  const SINKS := {"/dev/null", "/dev/stdout", "/dev/stderr"}

  predicate IsSeparator(c: char)
  {
    c == ';' || c == '&' || c == '|' || c == '(' || c == ')' || c == '\n'
  }

  predicate IsWordEnd(c: char)
  {
    c == ' ' || c == '\t' || IsSeparator(c) || c == '<' || c == '>'
  }

  predicate IsGlob(c: char)
  {
    c == '*' || c == '?' || c == '[' || c == '{' || c == '}'
  }

  predicate IsDigit(c: char)
  {
    '0' <= c <= '9'
  }

  predicate IsLetter(c: char)
  {
    'A' <= c <= 'Z' || 'a' <= c <= 'z' || c == '_'
  }

  /** Characters that make a `$` before them start a parameter expansion. */
  predicate StartsExpansion(s: string)
  {
    s != [] && (IsLetter(s[0]) || IsDigit(s[0]) || s[0] in {'{', '@', '*', '#', '?', '$', '!', '-'})
  }

  /** What after an unquoted `$` makes text the checker cannot see, the end of the command included. */
  predicate CannotFollow(s: string)
  {
    s == [] || s[0] == '\'' || s[0] == '\"' || s[0] == '['
  }

  /** Characters a backslash escapes inside double quotes. */
  predicate EscapableInDouble(c: char)
  {
    c == '\"' || c == '\\' || c == '$' || c == '`' || c == '\n'
  }

  predicate IsNumber(s: string)
  {
    s != [] && forall i :: 0 <= i < |s| ==> IsDigit(s[i])
  }

  /** A word so far, and what follows it. */
  datatype Read = Read(word: Word, rest: string)

  function AddText(w: Word, t: string): Word
  {
    w.(text := w.text + t)
  }

  /** The position of the next single quote, or the length. */
  function QuoteAt(s: string): (i: nat)
    ensures i <= |s|
  {
    if s == [] || s[0] == '\'' then 0 else 1 + QuoteAt(s[1..])
  }

  /** One step inside double quotes. */
  function DoublePiece(s: string, w: Word): (r: Read)
    requires s != []
    ensures |r.rest| < |s|
  {
    if s[0] == '\\' && |s| > 1 && EscapableInDouble(s[1]) then
      Read(if s[1] == '\n' then w else AddText(w, [s[1]]), s[2..])
    else
      Read(AddText(w, [s[0]]).(expands := w.expands || (s[0] == '$' && StartsExpansion(s[1..]))), s[1..])
  }

  /** Inside double quotes, up to the closing one (or the end). */
  function ReadDouble(s: string, w: Word): (r: Read)
    ensures |r.rest| <= |s|
    decreases |s|
  {
    if s == [] || s[0] == '\"' then Read(w, s)
    else var p := DoublePiece(s, w); ReadDouble(p.rest, p.word)
  }

  /** The word after an unquoted character that stands for itself. */
  function Passing(w: Word, c: char, rest: string): Word
  {
    Word(w.text + [c], w.glob || IsGlob(c), w.expands || (c == '$' && StartsExpansion(rest)))
  }

  /** One turn of the loop of `readWord`: an escape, a quoted part or one character. */
  function Piece(s: string, w: Word): (r: Result<Read>)
    requires s != [] && !IsWordEnd(s[0])
    ensures r.Ok? ==> |r.value.rest| < |s|
  {
    if s[0] == '\\' then
      if |s| > 1 && s[1] == '\n' then Ok(Read(w, s[2..]))
      else if |s| == 1 then Unsafe
      else Ok(Read(AddText(w, [s[1]]), s[2..]))
    else if s[0] == '\'' then
      var close := QuoteAt(s[1..]);
      if close == |s[1..]| then Unsafe
      else Ok(Read(AddText(w, s[1..][..close]), s[1..][close + 1..]))
    else if s[0] == '\"' then
      var d := ReadDouble(s[1..], w);
      if d.rest == [] then Unsafe else Ok(Read(d.word, d.rest[1..]))
    else if s[0] == '$' && CannotFollow(s[1..]) then Unsafe
    else Ok(Read(Passing(w, s[0], s[1..]), s[1..]))
  }

  /** The loop of `readWord`. */
  function ReadRest(s: string, w: Word): (r: Result<Read>)
    ensures r.Ok? ==> |r.value.rest| <= |s|
    ensures r.Ok? && s != [] && !IsWordEnd(s[0]) ==> |r.value.rest| < |s|
    decreases |s|
  {
    if s == [] || IsWordEnd(s[0]) then Ok(Read(w, s))
    else
      match Piece(s, w)
      case Unsafe => Unsafe
      case Ok(p) => ReadRest(p.rest, p.word)
  }

  const EMPTY := Word([], false, false)

  /** `readWord`: an unquoted `#` would begin a comment. */
  function ReadWord(s: string): (r: Result<Read>)
    ensures r.Ok? ==> |r.value.rest| <= |s|
    ensures r.Ok? && s != [] && !IsWordEnd(s[0]) ==> |r.value.rest| < |s|
  {
    if s != [] && s[0] == '#' then Unsafe else ReadRest(s, EMPTY)
  }

  function SkipBlanks(s: string): (t: string)
    ensures |t| <= |s|
  {
    if s != [] && (s[0] == ' ' || s[0] == '\t') then SkipBlanks(s[1..]) else s
  }

  function ReadTarget(s: string): (r: Result<Read>)
    ensures r.Ok? ==> |r.value.rest| < |s|
  {
    var t := SkipBlanks(s);
    if t == [] || IsWordEnd(t[0]) then Unsafe else ReadWord(t)
  }

  predicate IsSink(w: Word)
  {
    !w.glob && w.text in SINKS
  }

  predicate IsFd(w: Word)
  {
    IsNumber(w.text) || w.text == "-"
  }

  /** One redirection: where its operator starts and ends and its target ends (as what is left then), and the target. */
  datatype Redirect = Redirect(start: nat, opEnd: nat, end: nat, output: bool, duplicates: bool, target: Word)

  datatype Redirected = Redirected(redirect: Redirect, rest: string)

  /** A redirection whose operator `op` (of `s`) is followed by its target. */
  function Target(s: string, op: nat, output: bool, duplicates: bool): (r: Result<Redirected>)
    requires op <= |s|
    ensures r.Ok? ==> |r.value.rest| < |s|
  {
    match ReadTarget(s[op..])
    case Unsafe => Unsafe
    case Ok(t) => Ok(Redirected(Redirect(|s|, |s| - op, |t.rest|, output, duplicates, t.word), t.rest))
  }

  function OnlySinks(r: Result<Redirected>): (t: Result<Redirected>)
    ensures t.Ok? ==> t == r && IsSink(t.value.redirect.target)
  {
    if r.Ok? && IsSink(r.value.redirect.target) then r else Unsafe
  }

  function At(s: string, i: nat): string
  {
    if i < |s| then [s[i]] else []
  }

  /** `readRedirect` */
  function ReadRedirect(s: string): (r: Result<Redirected>)
    requires s != [] && (s[0] == '>' || s[0] == '<')
    ensures r.Ok? ==> |r.value.rest| < |s|
  {
    if s[0] == '>' then
      var i := if At(s, 1) == ">" || At(s, 1) == "|" then 2 else 1;
      if At(s, i) == "&" then
        var t := Target(s, i + 1, true, true);
        if t.Ok? && IsFd(t.value.redirect.target) then t else OnlySinks(t)
      else OnlySinks(Target(s, i, true, false))
    else if At(s, 1) == "<" then
      if At(s, 2) == "<" then Target(s, 3, false, false) else Unsafe
    else if At(s, 1) == ">" then Unsafe
    else if At(s, 1) == "&" then
      var t := Target(s, 2, false, true);
      if t.Ok? && IsFd(t.value.redirect.target) then t else Unsafe
    else Target(s, 1, false, false)
  }

  /** `&>` and `&>>` */
  function ReadBoth(s: string): (r: Result<Redirected>)
    requires |s| > 1 && s[0] == '&' && s[1] == '>'
    ensures r.Ok? ==> |r.value.rest| < |s|
  {
    OnlySinks(Target(s, if At(s, 2) == ">" then 3 else 2, true, false))
  }

  /** The segments found so far, the one being read, and every redirection passed. */
  datatype Scan = Scan(segments: seq<seq<Word>>, current: seq<Word>, redirects: seq<Redirect>)

  function EndSegment(c: Scan): Scan
  {
    if c.current == [] then c else Scan(c.segments + [c.current], [], c.redirects)
  }

  function Passed(c: Scan, r: Redirect): Scan
  {
    c.(redirects := c.redirects + [r])
  }

  /** The loop of `tokenize`. */
  function Tokens(s: string, c: Scan): Result<Scan>
    decreases |s|
  {
    if s == [] then Ok(EndSegment(c))
    else if s[0] == ' ' || s[0] == '\t' then Tokens(s[1..], c)
    else if s[0] == '\\' && |s| > 1 && s[1] == '\n' then Tokens(s[2..], c)
    else if s[0] == '&' && |s| > 1 && s[1] == '>' then
      match ReadBoth(s)
      case Unsafe => Unsafe
      case Ok(r) => Tokens(r.rest, Passed(c, r.redirect))
    else if s[0] == '>' || s[0] == '<' then
      match ReadRedirect(s)
      case Unsafe => Unsafe
      case Ok(r) => Tokens(r.rest, Passed(c, r.redirect))
    else if IsSeparator(s[0]) then Tokens(s[1..], EndSegment(c))
    else
      match ReadWord(s)
      case Unsafe => Unsafe
      case Ok(w) =>
        if w.rest != [] && (w.rest[0] == '>' || w.rest[0] == '<') && IsNumber(w.word.text) then
          match ReadRedirect(w.rest)
          case Unsafe => Unsafe
          case Ok(r) => Tokens(r.rest, Passed(c, r.redirect))
        else Tokens(w.rest, c.(current := c.current + [w.word]))
  }

  const START := Scan([], [], [])

  function Tokenized(src: string): Result<Scan>
  {
    Tokens(src, START)
  }

  // ── The loops ──────────────────────────────────────────────────────────────

  method FindQuote(src: string, start: nat) returns (close: nat)
    requires start <= |src|
    ensures start <= close <= |src| && close == start + QuoteAt(src[start..])
  {
    close := start;
    while close < |src| && src[close] != '\''
      invariant start <= close <= |src|
      invariant start + QuoteAt(src[start..]) == close + QuoteAt(src[close..])
    {
      assert src[close..][1..] == src[close + 1..];
      close := close + 1;
    }
  }

  method ReadDoubleFrom(src: string, start: nat, w: Word) returns (word: Word, i: nat)
    requires start <= |src|
    ensures start <= i <= |src| && ReadDouble(src[start..], w) == Read(word, src[i..])
  {
    hide EscapableInDouble, ReadDouble, StartsExpansion;
    i, word := start, w;
    while i < |src| && src[i] != '\"'
      invariant start <= i <= |src|
      invariant ReadDouble(src[start..], w) == ReadDouble(src[i..], word)
    {
      OneInDouble(src, i, word);
      if src[i] == '\\' && i + 1 < |src| && EscapableInDouble(src[i + 1]) {
        if src[i + 1] != '\n' {
          word := AddText(word, [src[i + 1]]);
        }
        i := i + 2;
      } else {
        if src[i] == '$' && StartsExpansion(src[i + 1..]) {
          word := word.(expands := true);
        }
        word := AddText(word, [src[i]]);
        i := i + 1;
      }
    }
    DoubleEnds(src[i..], word);
  }

  /** One turn of that loop. */
  lemma OneInDouble(src: string, i: nat, w: Word)
    requires i < |src| && src[i] != '\"'
    ensures ReadDouble(src[i..], w) ==
      if src[i] == '\\' && i + 1 < |src| && EscapableInDouble(src[i + 1])
      then ReadDouble(src[i + 2..], if src[i + 1] == '\n' then w else AddText(w, [src[i + 1]]))
      else ReadDouble(src[i + 1..], AddText(w, [src[i]]).(expands := w.expands || (src[i] == '$' && StartsExpansion(src[i + 1..]))))
  {
    hide EscapableInDouble, StartsExpansion;
    assert src[i..][1..] == src[i + 1..];
    assert i + 1 < |src| ==> src[i..][2..] == src[i + 2..];
  }

  lemma DoubleEnds(s: string, w: Word)
    requires s == [] || s[0] == '\"'
    ensures ReadDouble(s, w) == Read(w, s)
  {
  }

  /** One turn of the loop of `readWord`. */
  method ReadPiece(src: string, start: nat, w: Word) returns (r: Result<Word>, i: nat)
    requires start < |src| && !IsWordEnd(src[start])
    ensures r.Unsafe? <==> Piece(src[start..], w).Unsafe?
    ensures r.Ok? ==> start < i <= |src| && Piece(src[start..], w) == Ok(Read(r.value, src[i..]))
  {
    i := start;
    assert src[i..][1..] == src[i + 1..];
    if src[i] == '\\' {
      if i + 1 < |src| && src[i + 1] == '\n' {
        return Ok(w), i + 2;
      }
      if i + 1 >= |src| {
        return Unsafe, i;
      }
      return Ok(AddText(w, [src[i + 1]])), i + 2;
    } else if src[i] == '\'' {
      var close := FindQuote(src, i + 1);
      if close == |src| {
        return Unsafe, i;
      }
      assert src[i + 1..][..close - (i + 1)] == src[i + 1..close];
      assert src[i + 1..][close - i..] == src[close + 1..];
      return Ok(AddText(w, src[i + 1..close])), close + 1;
    } else if src[i] == '\"' {
      var word, j := ReadDoubleFrom(src, i + 1, w);
      if j >= |src| {
        return Unsafe, i;
      }
      return Ok(word), j + 1;
    } else {
      if src[i] == '$' && CannotFollow(src[i + 1..]) {
        return Unsafe, i;
      }
      return Ok(Passing(w, src[i], src[i + 1..])), i + 1;
    }
  }

  method ReadWordFrom(src: string, start: nat) returns (r: Result<Word>, i: nat)
    requires start < |src|
    ensures r.Unsafe? <==> ReadWord(src[start..]).Unsafe?
    ensures r.Ok? ==> start <= i <= |src| && ReadWord(src[start..]) == Ok(Read(r.value, src[i..]))
  {
    i := start;
    if src[start] == '#' {
      return Unsafe, i;
    }
    r := Ok(EMPTY);
    while i < |src| && !IsWordEnd(src[i])
      invariant start <= i <= |src| && r.Ok?
      invariant ReadRest(src[start..], EMPTY) == ReadRest(src[i..], r.value)
    {
      r, i := ReadPiece(src, i, r.value);
      if r.Unsafe? {
        return;
      }
    }
  }

  method ReadTargetFrom(src: string, start: nat) returns (r: Result<Word>, i: nat)
    requires start <= |src|
    ensures r.Unsafe? <==> ReadTarget(src[start..]).Unsafe?
    ensures r.Ok? ==> start < i <= |src| && ReadTarget(src[start..]) == Ok(Read(r.value, src[i..]))
  {
    i := start;
    while i < |src| && (src[i] == ' ' || src[i] == '\t')
      invariant start <= i <= |src|
      invariant SkipBlanks(src[start..]) == SkipBlanks(src[i..])
    {
      assert src[i..][1..] == src[i + 1..];
      i := i + 1;
    }
    if i >= |src| || IsWordEnd(src[i]) {
      return Unsafe, i;
    }
    r, i := ReadWordFrom(src, i);
  }

  /** Reads the target of the operator `src[start..op]` and records the redirection. */
  method ReadTargetOf(src: string, start: nat, op: nat, output: bool, duplicates: bool)
    returns (r: Result<Redirect>, i: nat)
    requires start <= op <= |src|
    ensures r.Unsafe? <==> Target(src[start..], op - start, output, duplicates).Unsafe?
    ensures r.Ok? ==> op < i <= |src|
    ensures r.Ok? ==> Target(src[start..], op - start, output, duplicates) == Ok(Redirected(r.value, src[i..]))
  {
    assert src[start..][op - start..] == src[op..];
    var target;
    target, i := ReadTargetFrom(src, op);
    r := match target
      case Unsafe => Unsafe
      case Ok(word) => Ok(Redirect(|src| - start, |src| - op, |src| - i, output, duplicates, word));
  }

  method ReadRedirectFrom(src: string, start: nat) returns (r: Result<Redirect>, i: nat)
    requires start < |src| && (src[start] == '>' || src[start] == '<')
    ensures r.Unsafe? <==> ReadRedirect(src[start..]).Unsafe?
    ensures r.Ok? ==> start < i <= |src| && ReadRedirect(src[start..]) == Ok(Redirected(r.value, src[i..]))
  {
    hide IsFd, IsSink, Target;
    if src[start] == '>' {
      i := start + 1;
      if i < |src| && (src[i] == '>' || src[i] == '|') {
        i := i + 1;
      }
      if i < |src| && src[i] == '&' {
        r, i := ReadTargetOf(src, start, i + 1, true, true);
        if r.Ok? && !IsFd(r.value.target) && !IsSink(r.value.target) {
          r := Unsafe;
        }
        return;
      }
      r, i := ReadTargetOf(src, start, i, true, false);
      if r.Ok? && !IsSink(r.value.target) {
        r := Unsafe;
      }
      return;
    }
    i := start + 1;
    if i < |src| && src[i] == '<' {
      if i + 1 < |src| && src[i + 1] == '<' {
        r, i := ReadTargetOf(src, start, i + 2, false, false);
      } else {
        r := Unsafe;
      }
    } else if i < |src| && src[i] == '>' {
      r := Unsafe;
    } else if i < |src| && src[i] == '&' {
      r, i := ReadTargetOf(src, start, i + 1, false, true);
      if r.Ok? && !IsFd(r.value.target) {
        r := Unsafe;
      }
    } else {
      r, i := ReadTargetOf(src, start, i, false, false);
    }
  }

  method ReadBothFrom(src: string, start: nat) returns (r: Result<Redirect>, i: nat)
    requires start + 1 < |src| && src[start] == '&' && src[start + 1] == '>'
    ensures r.Unsafe? <==> ReadBoth(src[start..]).Unsafe?
    ensures r.Ok? ==> start < i <= |src| && ReadBoth(src[start..]) == Ok(Redirected(r.value, src[i..]))
  {
    r, i := ReadTargetOf(src, start, if start + 2 < |src| && src[start + 2] == '>' then start + 3 else start + 2, true, false);
    if r.Ok? && !IsSink(r.value.target) {
      r := Unsafe;
    }
  }

  /** One turn of the loop of `tokenize`: what was read moves the scan and the index. */
  method ReadToken(src: string, start: nat, c: Scan) returns (r: Result<Scan>, i: nat)
    requires start < |src|
    ensures start <= i <= |src|
    ensures r.Unsafe? ==> Tokens(src[start..], c).Unsafe?
    ensures r.Ok? ==> start < i && Tokens(src[start..], c) == Tokens(src[i..], r.value)
  {
    var ch := src[start];
    if ch == ' ' || ch == '\t' {
      assert src[start..][1..] == src[start + 1..];
      return Ok(c), start + 1;
    } else if ch == '\\' && start + 1 < |src| && src[start + 1] == '\n' {
      assert src[start..][2..] == src[start + 2..];
      return Ok(c), start + 2;
    } else if ch == '&' && start + 1 < |src| && src[start + 1] == '>' {
      var redirect;
      redirect, i := ReadBothFrom(src, start);
      if redirect.Unsafe? {
        return Unsafe, start;
      }
      return Ok(Passed(c, redirect.value)), i;
    } else if ch == '>' || ch == '<' {
      var redirect;
      redirect, i := ReadRedirectFrom(src, start);
      if redirect.Unsafe? {
        return Unsafe, start;
      }
      return Ok(Passed(c, redirect.value)), i;
    } else if IsSeparator(ch) {
      assert src[start..][1..] == src[start + 1..];
      return Ok(EndSegment(c)), start + 1;
    } else {
      r, i := ReadWordOrNumber(src, start, c);
    }
  }

  /** A bare number directly before a redirection is a file descriptor, not a word. */
  method ReadWordOrNumber(src: string, start: nat, c: Scan) returns (r: Result<Scan>, i: nat)
    requires start < |src| && !IsWordEnd(src[start])
    requires src[start] == '\\' ==> start + 1 == |src| || src[start + 1] != '\n'
    ensures start <= i <= |src|
    ensures r.Unsafe? ==> Tokens(src[start..], c).Unsafe?
    ensures r.Ok? ==> start < i && Tokens(src[start..], c) == Tokens(src[i..], r.value)
  {
    var word;
    word, i := ReadWordFrom(src, start);
    if word.Unsafe? {
      return Unsafe, start;
    }
    if i < |src| && (src[i] == '>' || src[i] == '<') && IsNumber(word.value.text) {
      var redirect;
      redirect, i := ReadRedirectFrom(src, i);
      if redirect.Unsafe? {
        return Unsafe, start;
      }
      return Ok(Passed(c, redirect.value)), i;
    }
    return Ok(c.(current := c.current + [word.value])), i;
  }

  method Tokenize(src: string) returns (r: Result<seq<seq<Word>>>)
    ensures r == match Tokenized(src)
                 case Unsafe => Unsafe
                 case Ok(c) => Ok(c.segments)
  {
    var c, i := Ok(START), 0;
    assert src[0..] == src;
    while i < |src|
      invariant 0 <= i <= |src| && c.Ok?
      invariant Tokens(src, START) == Tokens(src[i..], c.value)
    {
      c, i := ReadToken(src, i, c.value);
      if c.Unsafe? {
        return Unsafe;
      }
    }
    r := Ok(EndSegment(c.value).segments);
  }
}
