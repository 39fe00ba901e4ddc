/**
 * An independent reading of shell quoting, one character at a time, and what the tokenizer
 * therefore guarantees: it reads exactly the automaton's words, and every unquoted `<` or `>` of an
 * accepted command belongs to a redirection it checked.
 */
module ShellQuoting {
  import opened Shell

  /** How the shell treats the next character. */
  datatype Mode = Plain | Escaped | Single | Double | DoubleEscaped

  function Turn(m: Mode, c: char): Mode
  {
    match m
    case Plain => if c == '\\' then Escaped else if c == '\'' then Single else if c == '\"' then Double else Plain
    case Escaped => Plain
    case Single => if c == '\'' then Plain else Single
    case Double => if c == '\"' then Plain else if c == '\\' then DoubleEscaped else Double
    case DoubleEscaped => Double
  }

  // The character classes of the shell, stated apart from the tokenizer's own

  /** An unquoted one of these ends a word. */
  const WORD_ENDS: set<char> := {' ', '\t', '\n', ';', '&', '|', '(', ')', '<', '>'}

  /** An unquoted one of these ends a command. */
  const SEPARATORS: set<char> := {';', '&', '|', '(', ')', '\n'}

  const GLOBS: set<char> := {'*', '?', '[', '{', '}'}

  const ESCAPED_IN_DOUBLE: set<char> := {'\"', '\\', '$', '`', '\n'}

  const PARAMETERS: set<char> := {'_', '{', '@', '*', '#', '?', '$', '!', '-'}

  /** A `$` in front of this expands. */
  predicate IsParameter(s: string)
  {
    s != [] && (s[0] in PARAMETERS || 'A' <= s[0] <= 'Z' || 'a' <= s[0] <= 'z' || '0' <= s[0] <= '9')
  }

  /** A `$` in front of this builds text that is not on the command line, or ends the command. */
  predicate IsHidden(s: string)
  {
    s == [] || s[0] in {'\'', '\"', '['}
  }

  /** The text a character contributes after quote removal. */
  function Emits(m: Mode, c: char): string
  {
    match m
    case Plain => if c == '\\' || c == '\'' || c == '\"' then [] else [c]
    case Escaped => if c == '\n' then [] else [c]
    case Single => if c == '\'' then [] else [c]
    case Double => if c == '\"' || c == '\\' then [] else [c]
    case DoubleEscaped => if c == '\n' then [] else if c in ESCAPED_IN_DOUBLE then [c] else ['\\', c]
  }

  /** Whether the mode lets `$` expand. */
  predicate Expanding(m: Mode)
  {
    m == Plain || m == Double
  }

  function Emitted(m: Mode, s: string, w: Word): Word
    requires s != []
  {
    Word(w.text + Emits(m, s[0]),
         w.glob || (m == Plain && s[0] in GLOBS),
         w.expands || (Expanding(m) && s[0] == '$' && IsParameter(s[1..])))
  }

  /** The word the automaton reads: to the first unquoted word end, or the end of the text. */
  function WordOf(m: Mode, s: string, w: Word): Result<Read>
    decreases |s|
  {
    if s == [] then if m == Plain then Ok(Read(w, s)) else Unsafe
    else if m == Plain && s[0] in WORD_ENDS then Ok(Read(w, s))
    else if m == Plain && s[0] == '$' && IsHidden(s[1..]) then Unsafe
    else WordOf(Turn(m, s[0]), s[1..], Emitted(m, s, w))
  }

  // ── The word reader is the automaton ───────────────────────────────────────

  lemma {:induction false} SingleIsRead(s: string, w: Word)
    ensures WordOf(Single, s, w)
         == if QuoteAt(s) == |s| then Unsafe else WordOf(Plain, s[QuoteAt(s) + 1..], AddText(w, s[..QuoteAt(s)]))
    decreases |s|
  {
    if s == [] {
    } else if s[0] == '\'' {
      assert AddText(w, s[..0]) == w == Emitted(Single, s, w);
    } else {
      SingleIsRead(s[1..], Emitted(Single, s, w));
      var k := QuoteAt(s[1..]);
      if k < |s[1..]| {
        assert s[1..][k + 1..] == s[k + 2..];
        assert Emitted(Single, s, w).text + s[1..][..k] == w.text + s[..k + 1];
      }
    }
  }

  lemma DoublePieceIsRead(s: string, w: Word)
    requires s != [] && s[0] != '\"'
    requires s == ['\\'] ==> false
    ensures WordOf(Double, s, w) == WordOf(Double, DoublePiece(s, w).rest, DoublePiece(s, w).word)
  {
    if s[0] == '\\' {
      var v := Emitted(Double, s, w);
      assert v == w;
      assert s[1..][1..] == s[2..];
      assert WordOf(Double, s, w) == WordOf(DoubleEscaped, s[1..], w);
      assert WordOf(DoubleEscaped, s[1..], w) == WordOf(Double, s[2..], Emitted(DoubleEscaped, s[1..], w));
      if EscapableInDouble(s[1]) {
        assert Emitted(DoubleEscaped, s[1..], w) == DoublePiece(s, w).word;
      } else {
        AfterEscape(s[1..], AddText(w, ['\\']));
        assert w.text + ['\\', s[1]] == (w.text + ['\\']) + [s[1]];
      }
    }
  }

  /** A character a backslash does not escape reads the same after it as on its own. */
  lemma AfterEscape(s: string, w: Word)
    requires s != [] && !EscapableInDouble(s[0])
    ensures WordOf(Double, s, w) == WordOf(Double, s[1..], AddText(w, [s[0]]))
  {
  }

  lemma {:induction false} DoubleIsRead(s: string, w: Word)
    ensures var d := ReadDouble(s, w);
            WordOf(Double, s, w) == if d.rest == [] then Unsafe else WordOf(Plain, d.rest[1..], d.word)
    decreases |s|
  {
    if s == [] {
    } else if s[0] == '\"' {
      assert Emitted(Double, s, w) == w;
    } else if s == ['\\'] {
      assert s[1..] == [];
      assert WordOf(Double, s, w) == WordOf(DoubleEscaped, [], Emitted(Double, s, w));
    } else {
      DoublePieceIsRead(s, w);
      DoubleIsRead(DoublePiece(s, w).rest, DoublePiece(s, w).word);
    }
  }

  /** The automaton after a piece goes on where the reader does. */
  predicate PieceRead(s: string, w: Word)
    requires s != [] && !IsWordEnd(s[0])
  {
    WordOf(Plain, s, w) == match Piece(s, w) { case Unsafe => Unsafe case Ok(p) => WordOf(Plain, p.rest, p.word) }
  }

  lemma EscapeIsRead(s: string, w: Word)
    requires s != [] && s[0] == '\\'
    ensures PieceRead(s, w)
  {
    assert Emitted(Plain, s, w) == w;
    if |s| > 1 {
      assert s[1..][1..] == s[2..];
      assert Emitted(Escaped, s[1..], w) == if s[1] == '\n' then w else AddText(w, [s[1]]);
    }
  }

  lemma QuotedIsRead(s: string, w: Word)
    requires s != [] && s[0] in {'\'', '\"'}
    ensures PieceRead(s, w)
  {
    assert Emitted(Plain, s, w) == w;
    if s[0] == '\'' {
      SingleIsRead(s[1..], w);
    } else {
      DoubleIsRead(s[1..], w);
    }
  }

  lemma PassingIsRead(s: string, w: Word)
    requires s != [] && !IsWordEnd(s[0]) && s[0] !in {'\\', '\'', '\"'}
    ensures PieceRead(s, w)
  {
    assert Emitted(Plain, s, w) == Passing(w, s[0], s[1..]);
  }

  lemma PieceIsRead(s: string, w: Word)
    requires s != [] && !IsWordEnd(s[0])
    ensures PieceRead(s, w)
  {
    hide PieceRead;
    if s[0] == '\\' {
      EscapeIsRead(s, w);
    } else if s[0] in {'\'', '\"'} {
      QuotedIsRead(s, w);
    } else {
      PassingIsRead(s, w);
    }
  }

  /**
   * The word reader and the automaton agree on every text: the same word, the same flags, the same
   * end, and the same refusals (a quote or escape left open, `$'`, `$"`, `$[` or a bare last `$`).
   */
  lemma {:induction false} ReadingIsTheAutomaton(s: string, w: Word)
    ensures ReadRest(s, w) == WordOf(Plain, s, w)
    decreases |s|
  {
    if s != [] && !IsWordEnd(s[0]) {
      PieceIsRead(s, w);
      match Piece(s, w)
      case Unsafe =>
      case Ok(p) => ReadingIsTheAutomaton(p.rest, p.word);
    }
  }

  // ── Every unquoted redirection was checked ─────────────────────────────────

  function ModeAfter(m: Mode, s: string): Mode
    decreases |s|
  {
    if s == [] then m else ModeAfter(Turn(m, s[0]), s[1..])
  }

  predicate IsAngle(c: char)
  {
    c == '<' || c == '>'
  }

  predicate IsOperator(c: char)
  {
    IsAngle(c) || c == '&' || c == '|'
  }

  /** Output may only go to a sink or, after `>&`, to a descriptor. */
  predicate Harmless(r: Redirect)
  {
    || (!r.target.glob && r.target.text in {"/dev/null", "/dev/stdout", "/dev/stderr"})
    || (r.duplicates && (r.target.text == "-" || (r.target.text != [] && forall j :: 0 <= j < |r.target.text| ==> '0' <= r.target.text[j] <= '9')))
  }

  /** `s` starts inside the operator of `r`, whose target is the word written after the operator. */
  predicate CheckedBy(s: string, r: Redirect)
    requires s != []
  {
    && r.end <= r.opEnd < |s| <= r.start
    && (forall j :: 0 <= j < |s| - r.opEnd ==> IsOperator(s[j]))
    && WordOf(Plain, SkipBlanks(s[|s| - r.opEnd..]), EMPTY) == Ok(Read(r.target, s[|s| - r.end..]))
    && (s[0] == '>' ==> r.output && Harmless(r))
  }

  predicate Checked(s: string, rs: seq<Redirect>)
    requires s != []
  {
    exists r :: r in rs && CheckedBy(s, r)
  }

  /** Every angle bracket of `s` that a reader in mode `m` finds unquoted belongs to a checked redirection. */
  predicate AllChecked(m: Mode, s: string, rs: seq<Redirect>)
    decreases |s|
  {
    s == [] || ((m == Plain && IsAngle(s[0]) ==> Checked(s, rs)) && AllChecked(Turn(m, s[0]), s[1..], rs))
  }

  lemma {:induction false} CheckedAt(m: Mode, s: string, rs: seq<Redirect>, i: nat)
    requires AllChecked(m, s, rs) && i < |s| && ModeAfter(m, s[..i]) == Plain && IsAngle(s[i])
    ensures Checked(s[i..], rs)
    decreases i
  {
    if i == 0 {
      assert s[0..] == s;
    } else {
      assert s[..i][1..] == s[1..][..i - 1];
      assert s[1..][i - 1..] == s[i..];
      CheckedAt(Turn(m, s[0]), s[1..], rs, i - 1);
    }
  }

  lemma {:induction false} WordsHaveNone(m: Mode, s: string, w: Word, rs: seq<Redirect>)
    requires WordOf(m, s, w).Ok? && AllChecked(Plain, WordOf(m, s, w).value.rest, rs)
    ensures AllChecked(m, s, rs)
    ensures ModeAfter(m, s) == ModeAfter(Plain, WordOf(m, s, w).value.rest)
    decreases |s|
  {
    if s == [] || (m == Plain && s[0] in WORD_ENDS) {
    } else {
      WordsHaveNone(Turn(m, s[0]), s[1..], Emitted(m, s, w), rs);
    }
  }

  lemma {:induction false} BlanksHaveNone(s: string, rs: seq<Redirect>)
    requires AllChecked(Plain, SkipBlanks(s), rs)
    ensures AllChecked(Plain, s, rs)
    ensures ModeAfter(Plain, s) == ModeAfter(Plain, SkipBlanks(s))
    decreases |s|
  {
    if s != [] && (s[0] == ' ' || s[0] == '\t') {
      BlanksHaveNone(s[1..], rs);
    }
  }

  /** The first `k` characters are the rest of an operator that `r` checked. */
  lemma {:induction false} OperatorIsChecked(s: string, k: nat, r: Redirect, rs: seq<Redirect>)
    requires k <= |s| && r in rs
    requires r.end <= r.opEnd == |s| - k && |s| <= r.start
    requires forall j :: 0 <= j < k ==> IsOperator(s[j]) && (s[j] == '>' ==> r.output && Harmless(r))
    requires WordOf(Plain, SkipBlanks(s[k..]), EMPTY) == Ok(Read(r.target, s[|s| - r.end..]))
    requires AllChecked(Plain, s[k..], rs)
    ensures AllChecked(Plain, s, rs)
    ensures ModeAfter(Plain, s) == ModeAfter(Plain, s[k..])
    decreases k
  {
    hide WordOf, SkipBlanks, Harmless, CheckedBy, AllChecked, ModeAfter;
    if k == 0 {
      assert s[0..] == s;
    } else {
      OperatorStartsHere(s, k, r);
      assert s[1..][k - 1..] == s[k..];
      assert s[1..][|s[1..]| - r.end..] == s[|s| - r.end..];
      OperatorIsChecked(s[1..], k - 1, r, rs);
      CheckedOneMore(s, r, rs);
    }
  }

  lemma OperatorStartsHere(s: string, k: nat, r: Redirect)
    requires 0 < k <= |s| && r.end <= r.opEnd == |s| - k && |s| <= r.start
    requires forall j :: 0 <= j < k ==> IsOperator(s[j]) && (s[j] == '>' ==> r.output && Harmless(r))
    requires WordOf(Plain, SkipBlanks(s[k..]), EMPTY) == Ok(Read(r.target, s[|s| - r.end..]))
    ensures CheckedBy(s, r)
  {
    hide WordOf, SkipBlanks, Harmless;
  }

  lemma CheckedOneMore(s: string, r: Redirect, rs: seq<Redirect>)
    requires s != [] && r in rs && CheckedBy(s, r) && IsOperator(s[0]) && AllChecked(Plain, s[1..], rs)
    ensures AllChecked(Plain, s, rs) && ModeAfter(Plain, s) == ModeAfter(Plain, s[1..])
  {
    hide CheckedBy;
  }

  lemma TargetIsRead(s: string, rs: seq<Redirect>)
    requires ReadTarget(s).Ok?
    ensures WordOf(Plain, SkipBlanks(s), EMPTY) == ReadTarget(s)
    ensures AllChecked(Plain, ReadTarget(s).value.rest, rs) ==>
      AllChecked(Plain, s, rs) && ModeAfter(Plain, s) == ModeAfter(Plain, ReadTarget(s).value.rest)
  {
    var t := SkipBlanks(s);
    ReadingIsTheAutomaton(t, EMPTY);
    if AllChecked(Plain, ReadTarget(s).value.rest, rs) {
      WordsHaveNone(Plain, t, EMPTY, rs);
      BlanksHaveNone(s, rs);
    }
  }

  /** What a redirection leaves is what is left of the text. */
  predicate Leaves(s: string, t: string)
  {
    |t| <= |s| && t == s[|s| - |t|..]
  }

  lemma LeavesTwice(s: string, t: string, u: string)
    requires Leaves(s, t) && Leaves(t, u)
    ensures Leaves(s, u)
  {
  }

  lemma {:induction false} WordLeaves(m: Mode, s: string, w: Word)
    requires WordOf(m, s, w).Ok?
    ensures Leaves(s, WordOf(m, s, w).value.rest)
    decreases |s|
  {
    if s == [] || (m == Plain && s[0] in WORD_ENDS) {
    } else {
      WordLeaves(Turn(m, s[0]), s[1..], Emitted(m, s, w));
      LeavesTwice(s, s[1..], WordOf(m, s, w).value.rest);
    }
  }

  lemma {:induction false} BlanksLeave(s: string)
    ensures Leaves(s, SkipBlanks(s))
    decreases |s|
  {
    if s != [] && (s[0] == ' ' || s[0] == '\t') {
      BlanksLeave(s[1..]);
    }
  }

  lemma TargetLeaves(s: string, op: nat)
    requires op <= |s| && ReadTarget(s[op..]).Ok?
    ensures Leaves(s, ReadTarget(s[op..]).value.rest)
  {
    var t := s[op..];
    var rest := ReadTarget(t).value.rest;
    ReadingIsTheAutomaton(SkipBlanks(t), EMPTY);
    BlanksLeave(t);
    WordLeaves(Plain, SkipBlanks(t), EMPTY);
    LeavesTwice(t, SkipBlanks(t), rest);
    LeavesTwice(s, t, rest);
  }

  lemma TargetIsChecked(s: string, op: nat, output: bool, duplicates: bool, rs: seq<Redirect>)
    requires op <= |s|
    requires forall j :: 0 <= j < op ==> IsOperator(s[j])
    requires Target(s, op, output, duplicates).Ok?
    requires var x := Target(s, op, output, duplicates).value;
             && x.redirect in rs && AllChecked(Plain, x.rest, rs)
             && forall j :: 0 <= j < op && s[j] == '>' ==> output && Harmless(x.redirect)
    ensures AllChecked(Plain, s, rs)
    ensures ModeAfter(Plain, s) == ModeAfter(Plain, Target(s, op, output, duplicates).value.rest)
  {
    var x := Target(s, op, output, duplicates).value;
    TargetIsRead(s[op..], rs);
    TargetLeaves(s, op);
    OperatorIsChecked(s, op, x.redirect, rs);
  }

  lemma RedirectIsChecked(s: string, rs: seq<Redirect>)
    requires s != [] && IsAngle(s[0]) && ReadRedirect(s).Ok?
    requires ReadRedirect(s).value.redirect in rs && AllChecked(Plain, ReadRedirect(s).value.rest, rs)
    ensures AllChecked(Plain, s, rs)
    ensures ModeAfter(Plain, s) == ModeAfter(Plain, ReadRedirect(s).value.rest)
  {
    if s[0] == '>' {
      var i := if At(s, 1) == ">" || At(s, 1) == "|" then 2 else 1;
      if At(s, i) == "&" {
        TargetIsChecked(s, i + 1, true, true, rs);
      } else {
        TargetIsChecked(s, i, true, false, rs);
      }
    } else if At(s, 1) == "<" {
      TargetIsChecked(s, 3, false, false, rs);
    } else if At(s, 1) == "&" {
      TargetIsChecked(s, 2, false, true, rs);
    } else {
      TargetIsChecked(s, 1, false, false, rs);
    }
  }

  lemma BothIsChecked(s: string, rs: seq<Redirect>)
    requires |s| > 1 && s[0] == '&' && s[1] == '>' && ReadBoth(s).Ok?
    requires ReadBoth(s).value.redirect in rs && AllChecked(Plain, ReadBoth(s).value.rest, rs)
    ensures AllChecked(Plain, s, rs)
    ensures ModeAfter(Plain, s) == ModeAfter(Plain, ReadBoth(s).value.rest)
  {
    TargetIsChecked(s, if At(s, 2) == ">" then 3 else 2, true, false, rs);
  }

  lemma {:induction false} TokensAreChecked(s: string, c: Scan)
    requires Tokens(s, c).Ok?
    ensures var d := Tokens(s, c).value;
            && c.redirects <= d.redirects && AllChecked(Plain, s, d.redirects) && ModeAfter(Plain, s) == Plain
    decreases |s|
  {
    var rs := Tokens(s, c).value.redirects;
    if s == [] {
    } else if s[0] == ' ' || s[0] == '\t' {
      TokensAreChecked(s[1..], c);
    } else if s[0] == '\\' && |s| > 1 && s[1] == '\n' {
      TokensAreChecked(s[2..], c);
      assert s[1..][1..] == s[2..];
    } else if s[0] == '&' && |s| > 1 && s[1] == '>' {
      var r := ReadBoth(s).value;
      TokensAreChecked(r.rest, Passed(c, r.redirect));
      InPrefix(c, r.redirect, rs);
      BothIsChecked(s, rs);
    } else if IsAngle(s[0]) {
      var r := ReadRedirect(s).value;
      TokensAreChecked(r.rest, Passed(c, r.redirect));
      InPrefix(c, r.redirect, rs);
      RedirectIsChecked(s, rs);
    } else if IsSeparator(s[0]) {
      TokensAreChecked(s[1..], EndSegment(c));
    } else {
      WordIsChecked(s, c);
    }
  }

  lemma InPrefix(c: Scan, r: Redirect, rs: seq<Redirect>)
    requires Passed(c, r).redirects <= rs
    ensures r in rs && c.redirects <= rs
  {
    assert rs[|c.redirects|] == r;
  }

  lemma {:induction false} WordIsChecked(s: string, c: Scan)
    requires Tokens(s, c).Ok? && s != [] && !IsWordEnd(s[0])
    requires s[0] == '\\' ==> |s| == 1 || s[1] != '\n'
    ensures var d := Tokens(s, c).value;
            && c.redirects <= d.redirects && AllChecked(Plain, s, d.redirects) && ModeAfter(Plain, s) == Plain
    decreases |s|, 0
  {
    var rs := Tokens(s, c).value.redirects;
    var w := ReadWord(s).value;
    ReadingIsTheAutomaton(s, EMPTY);
    if w.rest != [] && IsAngle(w.rest[0]) && IsNumber(w.word.text) {
      var r := ReadRedirect(w.rest).value;
      TokensAreChecked(r.rest, Passed(c, r.redirect));
      InPrefix(c, r.redirect, rs);
      RedirectIsChecked(w.rest, rs);
    } else {
      TokensAreChecked(w.rest, c.(current := c.current + [w.word]));
    }
    WordsHaveNone(Plain, s, EMPTY, rs);
  }

  /**
   * In every command that tokenizes, no quote or escape is left open, and each `<` or `>` that the
   * automaton finds unquoted lies in the operator of a recorded redirection, whose recorded target
   * is the word written after that operator; for `>` that target is a sink, or a descriptor after `>&`.
   */
  lemma UnquotedRedirectionsAreChecked(src: string, i: nat)
    requires Tokenized(src).Ok?
    ensures ModeAfter(Plain, src) == Plain
    ensures i < |src| && ModeAfter(Plain, src[..i]) == Plain && IsAngle(src[i]) ==>
      Checked(src[i..], Tokenized(src).value.redirects)
  {
    TokensAreChecked(src, START);
    if i < |src| && ModeAfter(Plain, src[..i]) == Plain && IsAngle(src[i]) {
      CheckedAt(Plain, src, Tokenized(src).value.redirects, i);
    }
  }

  // ── A difference from the shell ────────────────────────────────────────────

  const TWO := Word("2", false, false)
  const ONE := Word("1", false, false)

  lemma TwoIsRead()
    ensures ReadWord("'2'>&1") == Ok(Read(TWO, ">&1"))
  {
    var s := "'2'>&1";
    assert s[1..] == "2'>&1" && s[1..][1..] == "'>&1" && QuoteAt(s[1..][1..]) == 0 && QuoteAt(s[1..]) == 1;
    assert s[1..][..1] == "2" && s[1..][2..] == ">&1";
    assert AddText(EMPTY, "2") == TWO;
    assert Piece(s, EMPTY) == Ok(Read(TWO, ">&1"));
    assert ReadRest(">&1", TWO) == Ok(Read(TWO, ">&1"));
  }

  lemma OneIsTheTarget()
    ensures ReadRedirect(">&1") == Ok(Redirected(Redirect(3, 1, 0, true, true, ONE), []))
  {
    var t := "1";
    assert ">&1"[2..] == t && SkipBlanks(t) == t;
    assert t[1..] == [] && t[0] == '1';
    assert EMPTY.text + [t[0]] == "1";
    assert t[0] != ';' && t[0] != '&' && t[0] != '|' && t[0] != '(' && t[0] != ')' && t[0] != '\n';
    assert Piece(t, EMPTY) == Ok(Read(ONE, []));
    assert ReadRest([], ONE) == Ok(Read(ONE, []));
    assert ReadWord(t) == Ok(Read(ONE, []));
    assert At(">&1", 1) == "&";
  }

  /** A number right before a redirection is taken for its descriptor, also when it is quoted and so an argument. */
  lemma QuotedNumberIsDropped()
    ensures Tokenized("'2'>&1").Ok? && Tokenized("'2'>&1").value.segments == []
  {
    hide ReadWord, ReadRedirect;
    TwoIsRead();
    OneIsTheTarget();
    var after := Passed(START, Redirect(3, 1, 0, true, true, ONE));
    assert IsNumber("2");
    assert Tokens([], after) == Ok(EndSegment(after));
    assert Tokens("'2'>&1", START) == Tokens([], after);
  }
}
