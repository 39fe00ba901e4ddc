/**
 * How the tokenizer treats commands put together: joined by a separator they keep their segments,
 * and words printed with `shQuote` are read back exactly.
 */
module ShellJoining {
  import opened Shell
  import opened ShellQuoting

  // ── Text after the end of what was read changes nothing ────────────────────

  function Shifted(r: Redirect, n: nat): Redirect
  {
    Redirect(r.start + n, r.opEnd + n, r.end + n, r.output, r.duplicates, r.target)
  }

  function AllShifted(rs: seq<Redirect>, n: nat): seq<Redirect>
  {
    seq(|rs|, i requires 0 <= i < |rs| => Shifted(rs[i], n))
  }

  function ScanShifted(c: Scan, n: nat): Scan
  {
    Scan(c.segments, c.current, AllShifted(c.redirects, n))
  }

  /** A text that ends the segment before it. */
  predicate Ends(t: string)
  {
    t != [] && t[0] in SEPARATORS && (t[0] == '&' && |t| > 1 ==> t[1] != '>')
  }

  lemma {:induction false} WordBefore(m: Mode, s: string, w: Word, t: string)
    requires WordOf(m, s, w).Ok? && t != [] && t[0] in WORD_ENDS
    ensures WordOf(m, s + t, w) == Ok(Read(WordOf(m, s, w).value.word, WordOf(m, s, w).value.rest + t))
    decreases |s|
  {
    hide Emitted;
    if s == [] {
      assert s + t == t;
    } else if m == Plain && s[0] in WORD_ENDS {
    } else {
      assert (s + t)[1..] == s[1..] + t;
      if s[1..] == [] {
        assert WordOf(Turn(m, s[0]), s[1..], Emitted(m, s, w)).Ok?;
        assert Turn(m, s[0]) == Plain;
      }
      SameEmitted(m, s, w, t);
      WordBefore(Turn(m, s[0]), s[1..], Emitted(m, s, w), t);
    }
  }

  lemma SameEmitted(m: Mode, s: string, w: Word, t: string)
    requires s != [] && (|s| == 1 && Expanding(m) ==> s[0] != '$')
    ensures Emitted(m, s + t, w) == Emitted(m, s, w)
  {
    if |s| > 1 {
      assert (s + t)[1..][0] == s[1..][0];
    }
  }

  lemma ReadWordBefore(s: string, t: string)
    requires s != [] && ReadWord(s).Ok? && Ends(t)
    ensures ReadWord(s + t) == Ok(Read(ReadWord(s).value.word, ReadWord(s).value.rest + t))
  {
    ReadingIsTheAutomaton(s, EMPTY);
    ReadingIsTheAutomaton(s + t, EMPTY);
    WordBefore(Plain, s, EMPTY, t);
  }

  lemma {:induction false} BlanksBefore(s: string, t: string)
    requires SkipBlanks(s) != []
    ensures SkipBlanks(s + t) == SkipBlanks(s) + t
    decreases |s|
  {
    if s[0] == ' ' || s[0] == '\t' {
      assert (s + t)[1..] == s[1..] + t;
      BlanksBefore(s[1..], t);
    }
  }

  lemma TargetBefore(s: string, op: nat, output: bool, duplicates: bool, t: string)
    requires op <= |s| && Target(s, op, output, duplicates).Ok? && Ends(t)
    ensures var x := Target(s, op, output, duplicates).value;
            Target(s + t, op, output, duplicates) == Ok(Redirected(Shifted(x.redirect, |t|), x.rest + t))
  {
    assert (s + t)[op..] == s[op..] + t;
    BlanksBefore(s[op..], t);
    ReadWordBefore(SkipBlanks(s[op..]), t);
  }

  lemma RedirectBefore(s: string, t: string)
    requires s != [] && IsAngle(s[0]) && ReadRedirect(s).Ok? && Ends(t)
    ensures var x := ReadRedirect(s).value;
            ReadRedirect(s + t) == Ok(Redirected(Shifted(x.redirect, |t|), x.rest + t))
  {
    if s[0] == '>' {
      var i := if At(s, 1) == ">" || At(s, 1) == "|" then 2 else 1;
      if At(s, i) == "&" {
        TargetBefore(s, i + 1, true, true, t);
      } else {
        TargetBefore(s, i, true, false, t);
        assert |s| > i;
      }
    } else if At(s, 1) == "<" {
      TargetBefore(s, 3, false, false, t);
    } else if At(s, 1) == "&" {
      TargetBefore(s, 2, false, true, t);
    } else {
      TargetBefore(s, 1, false, false, t);
      assert |s| > 1;
    }
  }

  lemma BothBefore(s: string, t: string)
    requires |s| > 1 && s[0] == '&' && s[1] == '>' && ReadBoth(s).Ok? && Ends(t)
    ensures var x := ReadBoth(s).value;
            ReadBoth(s + t) == Ok(Redirected(Shifted(x.redirect, |t|), x.rest + t))
  {
    TargetBefore(s, if At(s, 2) == ">" then 3 else 2, true, false, t);
    assert |s| > 2;
  }

  lemma PassedShifted(c: Scan, r: Redirect, n: nat)
    ensures ScanShifted(Passed(c, r), n) == Passed(ScanShifted(c, n), Shifted(r, n))
  {
    assert AllShifted(c.redirects + [r], n) == AllShifted(c.redirects, n) + [Shifted(r, n)];
  }

  lemma EndsHere(t: string, c: Scan)
    requires Ends(t)
    ensures t != [] && t[0] != '>' && t[0] != '\\' && Tokens(t, c) == Tokens(t[1..], EndSegment(c))
  {
  }

  /** Tokenizing `s` and then a separator starts the text after it with what `s` alone gave. */
  lemma {:induction false} TokensBefore(s: string, c: Scan, t: string)
    requires Tokens(s, c).Ok? && Ends(t)
    ensures Tokens(s + t, ScanShifted(c, |t|)) == Tokens(t[1..], ScanShifted(Tokens(s, c).value, |t|))
    decreases |s|
  {
    var n := |t|;
    EndsHere(t, ScanShifted(c, n));
    hide Ends;
    if s == [] {
      assert s + t == t;
      assert ScanShifted(EndSegment(c), n) == EndSegment(ScanShifted(c, n));
    } else if s[0] == ' ' || s[0] == '\t' {
      assert (s + t)[1..] == s[1..] + t;
      TokensBefore(s[1..], c, t);
    } else if s[0] == '\\' && |s| > 1 && s[1] == '\n' {
      assert (s + t)[2..] == s[2..] + t;
      TokensBefore(s[2..], c, t);
    } else if s[0] == '&' && |s| > 1 && s[1] == '>' {
      var r := ReadBoth(s).value;
      BothBefore(s, t);
      PassedShifted(c, r.redirect, n);
      TokensBefore(r.rest, Passed(c, r.redirect), t);
    } else if IsAngle(s[0]) {
      var r := ReadRedirect(s).value;
      RedirectBefore(s, t);
      PassedShifted(c, r.redirect, n);
      TokensBefore(r.rest, Passed(c, r.redirect), t);
    } else if IsSeparator(s[0]) {
      assert (s + t)[1..] == s[1..] + t;
      assert ScanShifted(EndSegment(c), n) == EndSegment(ScanShifted(c, n));
      TokensBefore(s[1..], EndSegment(c), t);
    } else {
      WordTokenBefore(s, c, t);
    }
  }

  /** Neither a blank, a separator, a redirection nor a continued line: a word begins. */
  predicate BeginsWord(s: string)
  {
    s != [] && !IsWordEnd(s[0]) && (s[0] == '\\' ==> |s| == 1 || s[1] != '\n')
  }

  predicate IsDescriptor(w: Read)
  {
    w.rest != [] && IsAngle(w.rest[0]) && IsNumber(w.word.text)
  }

  /** One turn of the loop on a word that is no descriptor. */
  lemma WordToken(s: string, c: Scan)
    requires BeginsWord(s) && ReadWord(s).Ok? && !IsDescriptor(ReadWord(s).value)
    ensures var w := ReadWord(s).value; Tokens(s, c) == Tokens(w.rest, c.(current := c.current + [w.word]))
  {
    hide ReadWord, IsNumber;
  }

  lemma DescriptorToken(s: string, c: Scan)
    requires BeginsWord(s) && ReadWord(s).Ok? && IsDescriptor(ReadWord(s).value)
    ensures var t := ReadWord(s).value.rest;
            Tokens(s, c) == match ReadRedirect(t)
              case Unsafe => Unsafe
              case Ok(r) => Tokens(r.rest, Passed(c, r.redirect))
  {
    hide ReadWord, IsNumber, ReadRedirect;
  }

  lemma WordIsWhole(s: string, c: Scan)
    requires BeginsWord(s) && Tokens(s, c).Ok?
    ensures ReadWord(s).Ok? && (s[0] == '\\' ==> |s| > 1)
  {
  }

  lemma WordBeginsBefore(s: string, t: string)
    requires BeginsWord(s) && ReadWord(s).Ok? && (s[0] == '\\' ==> |s| > 1) && Ends(t)
    ensures var w := ReadWord(s).value; var v := Read(w.word, w.rest + t);
            BeginsWord(s + t) && ReadWord(s + t) == Ok(v) && IsDescriptor(v) == IsDescriptor(w)
  {
    ReadWordBefore(s, t);
    hide ReadWord, IsNumber;
  }

  lemma {:induction false} WordTokenBefore(s: string, c: Scan, t: string)
    requires Tokens(s, c).Ok? && Ends(t) && BeginsWord(s)
    ensures Tokens(s + t, ScanShifted(c, |t|)) == Tokens(t[1..], ScanShifted(Tokens(s, c).value, |t|))
    decreases |s|, 0
  {
    WordIsWhole(s, c);
    WordBeginsBefore(s, t);
    hide Tokens, ReadWord, ReadRedirect, IsNumber, BeginsWord, Ends, Passed;
    var n := |t|;
    var w := ReadWord(s).value;
    if IsDescriptor(w) {
      DescriptorToken(s, c);
      DescriptorToken(s + t, ScanShifted(c, n));
      var r := ReadRedirect(w.rest).value;
      RedirectBefore(w.rest, t);
      PassedShifted(c, r.redirect, n);
      TokensBefore(r.rest, Passed(c, r.redirect), t);
    } else {
      WordToken(s, c);
      WordToken(s + t, ScanShifted(c, n));
      var next := c.(current := c.current + [w.word]);
      assert ScanShifted(next, n) == ScanShifted(c, n).(current := c.current + [w.word]);
      TokensBefore(w.rest, next, t);
    }
  }

  // ── Segments already found stay in front ───────────────────────────────────

  function After(d: Scan, c: Scan): Scan
  {
    Scan(d.segments + c.segments, c.current, d.redirects + c.redirects)
  }

  function AfterResult(d: Scan, r: Result<Scan>): Result<Scan>
  {
    match r
    case Unsafe => Unsafe
    case Ok(c) => Ok(After(d, c))
  }

  lemma EndsAfter(d: Scan, c: Scan)
    ensures EndSegment(After(d, c)) == After(d, EndSegment(c))
  {
    assert (d.segments + c.segments) + [c.current] == d.segments + (c.segments + [c.current]);
  }

  lemma PassedAfter(d: Scan, c: Scan, r: Redirect)
    ensures Passed(After(d, c), r) == After(d, Passed(c, r))
  {
    assert (d.redirects + c.redirects) + [r] == d.redirects + (c.redirects + [r]);
  }

  lemma {:induction false} TokensAfter(s: string, c: Scan, d: Scan)
    ensures Tokens(s, After(d, c)) == AfterResult(d, Tokens(s, c))
    decreases |s|
  {
    EndsAfter(d, c);
    if s == [] {
    } else if s[0] == ' ' || s[0] == '\t' {
      TokensAfter(s[1..], c, d);
    } else if s[0] == '\\' && |s| > 1 && s[1] == '\n' {
      TokensAfter(s[2..], c, d);
    } else if s[0] == '&' && |s| > 1 && s[1] == '>' {
      if ReadBoth(s).Ok? {
        PassedAfter(d, c, ReadBoth(s).value.redirect);
        TokensAfter(ReadBoth(s).value.rest, Passed(c, ReadBoth(s).value.redirect), d);
      }
    } else if IsAngle(s[0]) {
      if ReadRedirect(s).Ok? {
        PassedAfter(d, c, ReadRedirect(s).value.redirect);
        TokensAfter(ReadRedirect(s).value.rest, Passed(c, ReadRedirect(s).value.redirect), d);
      }
    } else if IsSeparator(s[0]) {
      TokensAfter(s[1..], EndSegment(c), d);
    } else {
      WordTokenAfter(s, c, d);
    }
  }

  lemma {:induction false} WordTokenAfter(s: string, c: Scan, d: Scan)
    requires s != [] && !IsWordEnd(s[0])
    requires s[0] == '\\' ==> |s| == 1 || s[1] != '\n'
    ensures Tokens(s, After(d, c)) == AfterResult(d, Tokens(s, c))
    decreases |s|, 0
  {
    match ReadWord(s)
    case Unsafe =>
    case Ok(w) =>
      if w.rest != [] && IsAngle(w.rest[0]) && IsNumber(w.word.text) {
        if ReadRedirect(w.rest).Ok? {
          var r := ReadRedirect(w.rest).value;
          PassedAfter(d, c, r.redirect);
          TokensAfter(r.rest, Passed(c, r.redirect), d);
        }
      } else {
        TokensAfter(w.rest, c.(current := c.current + [w.word]), d);
      }
  }

  lemma {:induction false} EndsWithNoWords(s: string, c: Scan)
    requires Tokens(s, c).Ok?
    ensures Tokens(s, c).value.current == []
    decreases |s|
  {
    if s == [] {
    } else if s[0] == ' ' || s[0] == '\t' {
      EndsWithNoWords(s[1..], c);
    } else if s[0] == '\\' && |s| > 1 && s[1] == '\n' {
      EndsWithNoWords(s[2..], c);
    } else if s[0] == '&' && |s| > 1 && s[1] == '>' {
      EndsWithNoWords(ReadBoth(s).value.rest, Passed(c, ReadBoth(s).value.redirect));
    } else if IsAngle(s[0]) {
      EndsWithNoWords(ReadRedirect(s).value.rest, Passed(c, ReadRedirect(s).value.redirect));
    } else if IsSeparator(s[0]) {
      EndsWithNoWords(s[1..], EndSegment(c));
    } else {
      var w := ReadWord(s).value;
      if w.rest != [] && IsAngle(w.rest[0]) && IsNumber(w.word.text) {
        EndsWithNoWords(ReadRedirect(w.rest).value.rest, Passed(c, ReadRedirect(w.rest).value.redirect));
      } else {
        EndsWithNoWords(w.rest, c.(current := c.current + [w.word]));
      }
    }
  }

  /**
   * `a` joined to any `b` by one of the six separators (`&` only if `b` does not make it `&>`) tokenizes
   * exactly when `b` does, to the segments of `a` and then those of `b`, with the same redirections.
   */
  lemma JoinedBySeparator(a: string, sep: char, b: string)
    requires Tokenized(a).Ok?
    requires sep in {';', '&', '|', '(', ')', '\n'} && (sep == '&' && b != [] ==> b[0] != '>')
    ensures Tokenized(a + [sep] + b) == match Tokenized(b)
              case Unsafe => Unsafe
              case Ok(y) => Ok(Scan(Tokenized(a).value.segments + y.segments, [],
                                    AllShifted(Tokenized(a).value.redirects, |b| + 1) + y.redirects))
  {
    var t := [sep] + b;
    var d := ScanShifted(Tokenized(a).value, |t|);
    assert a + [sep] + b == a + t && t[1..] == b;
    assert ScanShifted(START, |t|) == START;
    TokensBefore(a, START, t);
    EndsWithNoWords(a, START);
    assert After(d, START) == d;
    TokensAfter(b, START, d);
    if Tokenized(b).Ok? {
      EndsWithNoWords(b, START);
    }
  }

  // ── Words printed for the shell are read back ──────────────────────────────

  /** The quoted text with each single quote written outside the quotes. */
  function Escape(s: string): string
  {
    if s == [] then [] else (if s[0] == '\'' then "'\\''" else [s[0]]) + Escape(s[1..])
  }

  /** `shQuote` */
  function ShQuote(s: string): string
  {
    "'" + Escape(s) + "'"
  }

  /** One character inside single quotes. */
  lemma SingleTurn(c: char, tail: string, w: Word)
    ensures WordOf(Single, [c] + tail, w)
         == if c == '\'' then WordOf(Plain, tail, w) else WordOf(Single, tail, AddText(w, [c]))
  {
    var s := [c] + tail;
    assert s[1..] == tail;
    assert Emitted(Single, s, w) == if c == '\'' then w else AddText(w, [c]);
  }

  lemma {:induction false} EscapedIsRead(s: string, w: Word, t: string)
    ensures WordOf(Single, Escape(s) + "'" + t, w) == WordOf(Plain, t, AddText(w, s))
    decreases |s|
  {
    hide WordOf;
    if s == [] {
      assert Escape(s) + "'" + t == ['\''] + t;
      assert AddText(w, s) == w;
      SingleTurn('\'', t, w);
    } else {
      var tail := Escape(s[1..]) + "'" + t;
      var next := AddText(w, [s[0]]);
      assert AddText(next, s[1..]) == AddText(w, s) by {
        assert [s[0]] + s[1..] == s;
      }
      EscapedIsRead(s[1..], next, t);
      if s[0] == '\'' {
        assert Escape(s) + "'" + t == "'\\''" + tail;
        EscapedQuote(w, tail);
      } else {
        assert Escape(s) + "'" + t == [s[0]] + tail;
        SingleTurn(s[0], tail, w);
      }
    }
  }

  lemma EscapedQuote(w: Word, tail: string)
    ensures WordOf(Single, "'\\''" + tail, w) == WordOf(Single, tail, AddText(w, "'"))
  {
    hide CannotFollow;
    var s := "'\\''" + tail;
    assert s[1..] == "\\''" + tail && s[1..][1..] == "''" + tail && s[1..][1..][1..] == "'" + tail;
    assert ("'" + tail)[1..] == tail;
    var escaped := AddText(w, "'");
    assert Emitted(Single, s, w) == w && Emitted(Plain, s[1..], w) == w;
    assert Emitted(Escaped, s[1..][1..], w) == escaped;
    assert Emitted(Plain, "'" + tail, escaped) == escaped;
    assert WordOf(Single, s, w) == WordOf(Plain, s[1..], w);
    assert WordOf(Plain, s[1..], w) == WordOf(Escaped, s[1..][1..], w);
    assert WordOf(Escaped, s[1..][1..], w) == WordOf(Plain, "'" + tail, escaped);
  }

  lemma QuoteOpens(s: string)
    requires s != [] && s[0] == '\''
    ensures WordOf(Plain, s, EMPTY) == WordOf(Single, s[1..], EMPTY)
  {
    assert Emitted(Plain, s, EMPTY) == EMPTY;
  }

  /** A quoted text is one word with exactly that text, which nothing in the shell rewrites. */
  lemma QuotedIsReadBack(s: string, t: string)
    requires t == [] || t[0] in WORD_ENDS
    ensures ReadWord(ShQuote(s) + t) == Ok(Read(Word(s, false, false), t))
  {
    var q := ShQuote(s) + t;
    var word := Word(s, false, false);
    assert q[1..] == Escape(s) + "'" + t && q[0] == '\'';
    ReadingIsTheAutomaton(q, EMPTY);
    QuoteOpens(q);
    hide WordOf, Escape;
    EscapedIsRead(s, EMPTY, t);
    assert AddText(EMPTY, s) == word;
    NothingLeft(t, word);
  }

  lemma NothingLeft(t: string, w: Word)
    requires t == [] || t[0] in WORD_ENDS
    ensures WordOf(Plain, t, w) == Ok(Read(w, t))
  {
  }

  /** Words on one line, a blank before each. */
  function Line(words: seq<string>): string
  {
    if words == [] then [] else " " + ShQuote(words[0]) + Line(words[1..])
  }

  function Plainly(words: seq<string>): seq<Word>
  {
    seq(|words|, i requires 0 <= i < |words| => Word(words[i], false, false))
  }

  lemma WordOfLine(word: string, t: string, c: Scan)
    requires t == [] || t[0] == ' '
    ensures Tokens(" " + ShQuote(word) + t, c) == Tokens(t, c.(current := c.current + [Word(word, false, false)]))
  {
    var s := ShQuote(word) + t;
    assert " " + ShQuote(word) + t == " " + s && (" " + s)[1..] == s && s[0] == '\'';
    QuotedIsReadBack(word, t);
  }

  lemma {:induction false} LineIsTokens(words: seq<string>, c: Scan)
    ensures Tokens(Line(words), c) == Ok(EndSegment(c.(current := c.current + Plainly(words))))
    decreases |words|
  {
    if words == [] {
      assert c.current + Plainly(words) == c.current;
    } else {
      var next := c.(current := c.current + [Word(words[0], false, false)]);
      WordOfLine(words[0], Line(words[1..]), c);
      LineIsTokens(words[1..], next);
      assert c.current + Plainly(words) == next.current + Plainly(words[1..]);
    }
  }

  /** One line for each segment, each ended by a `;`. */
  function Script(segments: seq<seq<string>>): string
  {
    if segments == [] then [] else Line(segments[0]) + ";" + Script(segments[1..])
  }

  function AllPlainly(segments: seq<seq<string>>): seq<seq<Word>>
  {
    seq(|segments|, i requires 0 <= i < |segments| => Plainly(segments[i]))
  }

  /** Every list of non-empty segments, printed and tokenized, comes back word for word. */
  lemma {:induction false} ScriptIsReadBack(segments: seq<seq<string>>)
    requires forall i :: 0 <= i < |segments| ==> segments[i] != []
    ensures Tokenized(Script(segments))
         == Ok(Scan(AllPlainly(segments), [], []))
    decreases |segments|
  {
    hide Line;
    if segments == [] {
      assert AllPlainly(segments) == [];
    } else {
      LineIsTokens(segments[0], START);
      ScriptIsReadBack(segments[1..]);
      JoinedBySeparator(Line(segments[0]), ';', Script(segments[1..]));
      assert START.current + Plainly(segments[0]) == Plainly(segments[0]);
      var x := Tokenized(Line(segments[0])).value;
      assert x.segments == [Plainly(segments[0])] && x.redirects == [];
      assert x.segments + AllPlainly(segments[1..]) == AllPlainly(segments);
      var none: seq<Redirect> := [];
      assert AllShifted(x.redirects, |Script(segments[1..])| + 1) + none == none;
      assert Script(segments) == Line(segments[0]) + [';'] + Script(segments[1..]);
    }
  }
}
