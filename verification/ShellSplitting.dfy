/**
 * Where a command ends: the unquoted separators, as the quoting automaton finds them, cut a command
 * into its segments, and nothing else does.
 */
module ShellSplitting {
  import opened Shell
  import opened ShellQuoting
  import opened ShellJoining

  /** The text left at the position lies in the operator of a redirection of `rs`. */
  predicate InOperator(left: nat, rs: seq<Redirect>)
  {
    exists r :: r in rs && r.opEnd < left <= r.start
  }

  /** The scan without its redirections. */
  function Words(c: Scan): Scan
  {
    Scan(c.segments, c.current, [])
  }

  // ── Cutting a text after a separator ───────────────────────────────────────

  lemma {:induction false} WordEndsBefore(m: Mode, s: string, w: Word, k: nat)
    requires WordOf(m, s, w).Ok? && k < |s| && ModeAfter(m, s[..k]) == Plain && s[k] in WORD_ENDS
    ensures |s| - |WordOf(m, s, w).value.rest| <= k
    decreases k
  {
    hide Emitted;
    if k == 0 {
    } else if m == Plain && s[0] in WORD_ENDS {
    } else {
      assert s[..k][1..] == s[1..][..k - 1];
      WordEndsBefore(Turn(m, s[0]), s[1..], Emitted(m, s, w), k - 1);
    }
  }

  lemma {:induction false} WordCut(m: Mode, s: string, w: Word, j: nat)
    requires WordOf(m, s, w).Ok? && j <= |s| && |s| - |WordOf(m, s, w).value.rest| < j
    ensures var x := WordOf(m, s, w).value;
            WordOf(m, s[..j], w) == Ok(Read(x.word, x.rest[..j - (|s| - |x.rest|)]))
    decreases |s|
  {
    hide Emitted, Turn;
    if m == Plain && s[0] in WORD_ENDS {
    } else {
      WordLeaves(Turn(m, s[0]), s[1..], Emitted(m, s, w));
      assert s[..j][1..] == s[1..][..j - 1];
      assert s[..j] + s[j..] == s && s[..j][1..][0] == s[1..][0];
      SameEmitted(m, s[..j], w, s[j..]);
      WordCut(Turn(m, s[0]), s[1..], Emitted(m, s, w), j - 1);
    }
  }

  /** What is left of the text `s[..j]` when `rest` is left of `s`. */
  function Left(s: string, rest: string, j: nat): string
    requires |s| - |rest| <= j <= |s|
  {
    if |rest| <= |s| then rest[..j - (|s| - |rest|)] else []
  }

  lemma ReadWordCut(s: string, j: nat)
    requires s != [] && ReadWord(s).Ok? && |s| - |ReadWord(s).value.rest| < j <= |s|
    ensures ReadWord(s[..j]) == Ok(Read(ReadWord(s).value.word, Left(s, ReadWord(s).value.rest, j)))
  {
    ReadingIsTheAutomaton(s, EMPTY);
    ReadingIsTheAutomaton(s[..j], EMPTY);
    hide WordOf;
    WordCut(Plain, s, EMPTY, j);
  }

  lemma {:induction false} BlanksCut(s: string, j: nat)
    requires |s| - |SkipBlanks(s)| < j <= |s|
    ensures SkipBlanks(s[..j]) == Left(s, SkipBlanks(s), j)
    decreases |s|
  {
    if s != [] && (s[0] == ' ' || s[0] == '\t') {
      assert s[..j][1..] == s[1..][..j - 1];
      BlanksCut(s[1..], j - 1);
    }
  }

  lemma ReadTargetCut(s: string, j: nat)
    requires ReadTarget(s).Ok? && |s| - |ReadTarget(s).value.rest| < j <= |s|
    ensures ReadTarget(s[..j]) == Ok(Read(ReadTarget(s).value.word, Left(s, ReadTarget(s).value.rest, j)))
  {
    var t := SkipBlanks(s);
    BlanksLeave(s);
    BlanksCut(s, j);
    hide SkipBlanks, ReadWord;
    ReadWordCut(t, j - (|s| - |t|));
  }

  /** The redirection read from `s[..j]`: the same but for where it stands. */
  predicate SameRedirected(s: string, j: nat, full: Result<Redirected>, cut: Result<Redirected>)
  {
    && full.Ok? && cut.Ok? && |s| - |full.value.rest| < j <= |s|
    && cut.value.rest == Left(s, full.value.rest, j)
    && cut.value.redirect.target == full.value.redirect.target
  }

  lemma TargetCut(s: string, op: nat, output: bool, duplicates: bool, j: nat)
    requires op <= |s| && Target(s, op, output, duplicates).Ok?
    requires |s| - |Target(s, op, output, duplicates).value.rest| < j <= |s|
    ensures op < j
    ensures SameRedirected(s, j, Target(s, op, output, duplicates), Target(s[..j], op, output, duplicates))
  {
    TargetLeaves(s, op);
    TargetEnds(s, op);
    assert s[..j][op..] == s[op..][..j - op];
    hide ReadTarget;
    ReadTargetCut(s[op..], j - op);
  }

  lemma TargetEnds(s: string, op: nat)
    requires op <= |s| && ReadTarget(s[op..]).Ok?
    ensures |ReadTarget(s[op..]).value.rest| < |s| - op
  {
  }

  lemma RedirectCut(s: string, j: nat)
    requires s != [] && IsAngle(s[0]) && ReadRedirect(s).Ok? && |s| - |ReadRedirect(s).value.rest| < j <= |s|
    ensures SameRedirected(s, j, ReadRedirect(s), ReadRedirect(s[..j]))
  {
    hide Target, IsFd, IsSink;
    if s[0] == '>' {
      var i := if At(s, 1) == ">" || At(s, 1) == "|" then 2 else 1;
      if At(s, i) == "&" {
        TargetCut(s, i + 1, true, true, j);
      } else {
        TargetCut(s, i, true, false, j);
      }
    } else if At(s, 1) == "<" {
      TargetCut(s, 3, false, false, j);
    } else if At(s, 1) == "&" {
      TargetCut(s, 2, false, true, j);
    } else {
      TargetCut(s, 1, false, false, j);
    }
  }

  lemma BothCut(s: string, j: nat)
    requires |s| > 1 && s[0] == '&' && s[1] == '>' && ReadBoth(s).Ok? && |s| - |ReadBoth(s).value.rest| < j <= |s|
    ensures j > 1 && SameRedirected(s, j, ReadBoth(s), ReadBoth(s[..j]))
  {
    hide Target, IsSink;
    TargetCut(s, if At(s, 2) == ">" then 3 else 2, true, false, j);
  }

  // ── A separator is past what was read before it ────────────────────────────

  /** The position is past what was read, and the automaton is there as if it had begun at what is left. */
  predicate IsPast(s: string, rest: string, k: nat)
  {
    && |rest| <= |s| && |s| - |rest| <= k < |s|
    && ModeAfter(Plain, rest[..k - (|s| - |rest|)]) == Plain && rest[k - (|s| - |rest|)] == s[k]
  }

  lemma {:induction false} WordMode(m: Mode, s: string, w: Word, k: nat)
    requires WordOf(m, s, w).Ok? && |s| - |WordOf(m, s, w).value.rest| <= k <= |s|
    ensures var rest := WordOf(m, s, w).value.rest;
            |rest| <= |s| && ModeAfter(m, s[..k]) == ModeAfter(Plain, rest[..k - (|s| - |rest|)])
    decreases |s|
  {
    hide Emitted;
    if s == [] || (m == Plain && s[0] in WORD_ENDS) {
    } else {
      WordLeaves(Turn(m, s[0]), s[1..], Emitted(m, s, w));
      assert s[..k][1..] == s[1..][..k - 1];
      WordMode(Turn(m, s[0]), s[1..], Emitted(m, s, w), k - 1);
    }
  }

  lemma WordIsPast(s: string, k: nat)
    requires s != [] && ReadWord(s).Ok? && k < |s| && ModeAfter(Plain, s[..k]) == Plain && s[k] in WORD_ENDS
    ensures IsPast(s, ReadWord(s).value.rest, k)
  {
    ReadingIsTheAutomaton(s, EMPTY);
    hide Emitted;
    WordEndsBefore(Plain, s, EMPTY, k);
    WordMode(Plain, s, EMPTY, k);
    WordLeaves(Plain, s, EMPTY);
  }

  predicate IsQuoting(c: char)
  {
    c == '\\' || c == '\'' || c == '\"'
  }

  lemma {:induction false} PlainOver(s: string, n: nat, k: nat)
    requires n <= k <= |s| && forall j :: 0 <= j < n ==> !IsQuoting(s[j])
    ensures ModeAfter(Plain, s[..k]) == ModeAfter(Plain, s[n..][..k - n])
    decreases n
  {
    if n == 0 {
      assert s[0..] == s;
    } else {
      assert s[..k][1..] == s[1..][..k - 1] && s[n..] == s[1..][n - 1..];
      PlainOver(s[1..], n - 1, k - 1);
    }
  }

  lemma {:induction false} BlanksArePlain(s: string)
    ensures |SkipBlanks(s)| <= |s| && forall j :: 0 <= j < |s| - |SkipBlanks(s)| ==> s[j] == ' ' || s[j] == '\t'
    decreases |s|
  {
    if s != [] && (s[0] == ' ' || s[0] == '\t') {
      BlanksArePlain(s[1..]);
      assert forall j :: 0 < j < |s| - |SkipBlanks(s)| ==> s[j] == s[1..][j - 1];
    }
  }

  lemma PastTwice(s: string, t: string, rest: string, k: nat)
    requires IsPast(s, t, k) && IsPast(t, rest, k - (|s| - |t|))
    ensures IsPast(s, rest, k)
  {
  }

  lemma TargetIsPast(s: string, k: nat)
    requires ReadTarget(s).Ok? && k < |s| && ModeAfter(Plain, s[..k]) == Plain && s[k] in SEPARATORS
    ensures IsPast(s, ReadTarget(s).value.rest, k)
  {
    hide ModeAfter, ReadWord;
    var t := SkipBlanks(s);
    BlanksArePlain(s);
    BlanksLeave(s);
    hide SkipBlanks;
    var n := |s| - |t|;
    assert n <= k;
    PlainOver(s, n, k);
    assert IsPast(s, t, k) && s[k] in WORD_ENDS;
    hide IsPast;
    WordIsPast(t, k - n);
    PastTwice(s, t, ReadTarget(s).value.rest, k);
  }

  lemma OperatorIsPast(s: string, op: nat, output: bool, duplicates: bool, k: nat)
    requires op <= |s| && Target(s, op, output, duplicates).Ok?
    requires forall j :: 0 <= j < op ==> IsOperator(s[j])
    requires k < |s| && ModeAfter(Plain, s[..k]) == Plain && s[k] in SEPARATORS
    requires var r := Target(s, op, output, duplicates).value.redirect; !(r.opEnd < |s| - k <= r.start)
    ensures IsPast(s, Target(s, op, output, duplicates).value.rest, k)
  {
    PlainOver(s, op, k);
    assert IsPast(s, s[op..], k);
    TargetIsPast(s[op..], k - op);
    PastTwice(s, s[op..], Target(s, op, output, duplicates).value.rest, k);
  }

  lemma RedirectIsPast(s: string, k: nat)
    requires s != [] && IsAngle(s[0]) && ReadRedirect(s).Ok?
    requires k < |s| && ModeAfter(Plain, s[..k]) == Plain && s[k] in SEPARATORS
    requires var r := ReadRedirect(s).value.redirect; !(r.opEnd < |s| - k <= r.start)
    ensures IsPast(s, ReadRedirect(s).value.rest, k)
  {
    hide IsFd, IsSink, ModeAfter, IsPast;
    if s[0] == '>' {
      var i := if At(s, 1) == ">" || At(s, 1) == "|" then 2 else 1;
      if At(s, i) == "&" {
        OperatorIsPast(s, i + 1, true, true, k);
      } else {
        OperatorIsPast(s, i, true, false, k);
      }
    } else if At(s, 1) == "<" {
      OperatorIsPast(s, 3, false, false, k);
    } else if At(s, 1) == "&" {
      OperatorIsPast(s, 2, false, true, k);
    } else {
      OperatorIsPast(s, 1, false, false, k);
    }
  }

  lemma BothIsPast(s: string, k: nat)
    requires |s| > 1 && s[0] == '&' && s[1] == '>' && ReadBoth(s).Ok?
    requires k < |s| && ModeAfter(Plain, s[..k]) == Plain && s[k] in SEPARATORS
    requires var r := ReadBoth(s).value.redirect; !(r.opEnd < |s| - k <= r.start)
    ensures IsPast(s, ReadBoth(s).value.rest, k)
  {
    hide IsSink, ModeAfter, IsPast;
    OperatorIsPast(s, if At(s, 2) == ">" then 3 else 2, true, false, k);
  }

  // ── The command is cut at a separator ──────────────────────────────────────

  /** Redirections change nothing about the words. */
  lemma RedirectsAside(s: string, c: Scan)
    ensures Tokens(s, c).Ok? <==> Tokens(s, Words(c)).Ok?
    ensures Tokens(s, c).Ok? ==> Words(Tokens(s, c).value) == Words(Tokens(s, Words(c)).value)
    ensures Tokens(s, c).Ok? ==> c.redirects <= Tokens(s, c).value.redirects
  {
    var d := Scan([], [], c.redirects);
    assert After(d, Words(c)) == c;
    TokensAfter(s, Words(c), d);
  }

  /** Where the text is cut: after the separator at `k`. */
  ghost predicate CutAt(s: string, c: Scan, k: nat, x: Scan)
    requires k < |s|
  {
    && Tokens(s, c) == Tokens(s[k + 1..], x)
    && Tokens(s[..k + 1], Words(c)).Ok? && Words(Tokens(s[..k + 1], Words(c)).value) == Words(x)
  }

  /** The first turn of the loop on `s` leaves `rest`, and on the part of `s` up to `k` what is left of that. */
  ghost predicate Goes(s: string, c: Scan, k: nat, rest: string, c2: Scan, cut: Scan)
  {
    && IsPast(s, rest, k) && Leaves(s, rest) && |rest| < |s|
    && Tokens(s, c) == Tokens(rest, c2)
    && Tokens(s[..k + 1], Words(c)) == Tokens(Left(s, rest, k + 1), cut) && Words(cut) == Words(c2)
  }

  lemma CutLater(s: string, c: Scan, k: nat, rest: string, c2: Scan, cut: Scan, x: Scan)
    requires Goes(s, c, k, rest, c2, cut) && CutAt(rest, c2, k - (|s| - |rest|), x)
    ensures CutAt(s, c, k, x)
  {
    hide Tokens;
    var i := k - (|s| - |rest|);
    assert Left(s, rest, k + 1) == rest[..i + 1];
    assert s[k + 1..] == rest[i + 1..];
    RedirectsAside(rest[..i + 1], cut);
    RedirectsAside(rest[..i + 1], c2);
  }

  lemma NotTheOperator(s: string, c: Scan, r: Redirect, rest: string, k: nat)
    requires Tokens(s, c).Ok? && Tokens(s, c) == Tokens(rest, Passed(c, r)) && k < |s|
    requires !InOperator(|s| - k, Tokens(s, c).value.redirects)
    ensures !(r.opEnd < |s| - k <= r.start)
  {
    RedirectsAside(rest, Passed(c, r));
    InPrefix(c, r, Tokens(s, c).value.redirects);
  }

  lemma CutHere(s: string, c: Scan) returns (x: Scan)
    requires Tokens(s, c).Ok? && s != [] && s[0] in SEPARATORS && !InOperator(|s|, Tokens(s, c).value.redirects)
    ensures CutAt(s, c, 0, x)
  {
    if s[0] == '&' && |s| > 1 && s[1] == '>' {
      NotTheOperator(s, c, ReadBoth(s).value.redirect, ReadBoth(s).value.rest, 0);
      assert false;
    } else {
      x := EndSegment(c);
      assert s[..1][1..] == [];
    }
  }

  /** A separator, and not the start of `&>`. */
  predicate IsSeparatorHere(s: string)
  {
    s != [] && s[0] in SEPARATORS && !(s[0] == '&' && |s| > 1 && s[1] == '>')
  }

  lemma BothLeaves(s: string)
    requires |s| > 1 && s[0] == '&' && s[1] == '>' && ReadBoth(s).Ok?
    ensures Leaves(s, ReadBoth(s).value.rest)
  {
    TargetLeaves(s, if At(s, 2) == ">" then 3 else 2);
  }

  lemma RedirectLeaves(s: string)
    requires s != [] && IsAngle(s[0]) && ReadRedirect(s).Ok?
    ensures Leaves(s, ReadRedirect(s).value.rest)
  {
    hide IsFd, IsSink, ReadTarget, Leaves;
    if s[0] == '>' {
      var i := if At(s, 1) == ">" || At(s, 1) == "|" then 2 else 1;
      TargetLeaves(s, if At(s, i) == "&" then i + 1 else i);
    } else if At(s, 1) == "<" {
      TargetLeaves(s, 3);
    } else {
      TargetLeaves(s, if At(s, 1) == "&" then 2 else 1);
    }
  }

  lemma WordTokenLeaves(s: string)
    requires s != [] && ReadWord(s).Ok?
    ensures Leaves(s, ReadWord(s).value.rest)
  {
    ReadingIsTheAutomaton(s, EMPTY);
    hide WordOf;
    WordLeaves(Plain, s, EMPTY);
  }

  /** A position of the text that is an unquoted separator outside the operators of `rs`. */
  ghost predicate Cuts(s: string, k: nat, rs: seq<Redirect>)
  {
    k < |s| && ModeAfter(Plain, s[..k]) == Plain && s[k] in SEPARATORS && !InOperator(|s| - k, rs)
  }

  lemma OneGoes(s: string, c: Scan, k: nat, c2: Scan)
    requires 0 < k < |s| && ModeAfter(Plain, s[..k]) == Plain && (s[0] == ' ' || s[0] == '\t' || IsSeparatorHere(s))
    requires c2 == if s[0] == ' ' || s[0] == '\t' then c else EndSegment(c)
    ensures Goes(s, c, k, s[1..], c2, Words(c2))
  {
    PlainOver(s, 1, k);
    assert s[..k + 1][1..] == s[1..][..k];
  }

  lemma ContinuationGoes(s: string, c: Scan, k: nat)
    requires 0 < k < |s| && s[0] == '\\' && s[1] == '\n' && ModeAfter(Plain, s[..k]) == Plain
    ensures Goes(s, c, k, s[2..], c, Words(c))
  {
    ContinuationIsPast(s, k);
    hide ModeAfter;
    assert s[..k + 1][2..] == s[2..][..k - 1];
  }

  lemma ContinuationIsPast(s: string, k: nat)
    requires 0 < k < |s| && s[0] == '\\' && s[1] == '\n' && ModeAfter(Plain, s[..k]) == Plain
    ensures k > 1 && IsPast(s, s[2..], k)
  {
    var one := ['\\'];
    assert one[1..] == [] && s[..1] == one && ModeAfter(Plain, one) == Escaped;
    if k > 1 {
      assert s[..k][1..] == s[1..][..k - 1] && s[1..][..k - 1][1..] == s[2..][..k - 2];
    }
  }

  lemma BothGoes(s: string, c: Scan, k: nat) returns (cut: Scan)
    requires |s| > 1 && s[0] == '&' && s[1] == '>' && Tokens(s, c).Ok? && Cuts(s, k, Tokens(s, c).value.redirects)
    ensures ReadBoth(s).Ok? && Goes(s, c, k, ReadBoth(s).value.rest, Passed(c, ReadBoth(s).value.redirect), cut)
  {
    var r := ReadBoth(s).value;
    NotTheOperator(s, c, r.redirect, r.rest, k);
    BothIsPast(s, k);
    BothCut(s, k + 1);
    BothLeaves(s);
    cut := Passed(Words(c), ReadBoth(s[..k + 1]).value.redirect);
    assert s[..k + 1][..2] == s[..2];
    hide ReadBoth, IsPast, Leaves, ModeAfter, InOperator;
  }

  lemma RedirectGoes(s: string, c: Scan, k: nat) returns (cut: Scan)
    requires s != [] && IsAngle(s[0]) && Tokens(s, c).Ok? && Cuts(s, k, Tokens(s, c).value.redirects)
    ensures ReadRedirect(s).Ok? && Goes(s, c, k, ReadRedirect(s).value.rest, Passed(c, ReadRedirect(s).value.redirect), cut)
  {
    var r := ReadRedirect(s).value;
    NotTheOperator(s, c, r.redirect, r.rest, k);
    RedirectIsPast(s, k);
    RedirectCut(s, k + 1);
    RedirectLeaves(s);
    cut := Passed(Words(c), ReadRedirect(s[..k + 1]).value.redirect);
    hide ReadRedirect, IsPast, Leaves, ModeAfter, InOperator;
  }

  /** A word is read whole from the part of the text that goes past it. */
  lemma WordBegins(s: string, k: nat)
    requires BeginsWord(s) && ReadWord(s).Ok? && k < |s| && ModeAfter(Plain, s[..k]) == Plain && s[k] in SEPARATORS
    ensures var w := ReadWord(s).value;
            && IsPast(s, w.rest, k) && Leaves(s, w.rest) && |w.rest| < |s| && BeginsWord(s[..k + 1])
            && ReadWord(s[..k + 1]) == Ok(Read(w.word, Left(s, w.rest, k + 1)))
            && Left(s, w.rest, k + 1) != [] && Left(s, w.rest, k + 1)[0] == w.rest[0]
  {
    var w := ReadWord(s).value;
    assert |w.rest| < |s| && s[k] in WORD_ENDS;
    WordIsPast(s, k);
    ReadWordCut(s, k + 1);
    WordTokenLeaves(s);
    hide ReadWord, ModeAfter;
    assert k > 0;
  }

  lemma WordGoes(s: string, c: Scan, k: nat)
    requires BeginsWord(s) && ReadWord(s).Ok? && !IsDescriptor(ReadWord(s).value)
    requires k < |s| && ModeAfter(Plain, s[..k]) == Plain && s[k] in SEPARATORS
    ensures var w := ReadWord(s).value; var c2 := c.(current := c.current + [w.word]); Goes(s, c, k, w.rest, c2, Words(c2))
  {
    WordBegins(s, k);
    hide ReadWord, ModeAfter, IsPast, Leaves, Left, IsNumber;
    WordToken(s, c);
    WordToken(s[..k + 1], Words(c));
  }

  /** The redirection after a number, read from the whole text and from the part of it. */
  lemma DescriptorCut(s: string, c: Scan, k: nat, t: string)
    requires BeginsWord(s) && ReadWord(s).Ok? && IsDescriptor(ReadWord(s).value) && t == ReadWord(s).value.rest
    requires Tokens(s, c).Ok? && Cuts(s, k, Tokens(s, c).value.redirects) && IsPast(s, t, k)
    ensures var i := k - (|s| - |t|);
            && ReadRedirect(t).Ok? && Tokens(s, c) == Tokens(ReadRedirect(t).value.rest, Passed(c, ReadRedirect(t).value.redirect))
            && IsPast(t, ReadRedirect(t).value.rest, i)
            && SameRedirected(t, i + 1, ReadRedirect(t), ReadRedirect(t[..i + 1]))
  {
    hide Tokens, ReadWord, ReadRedirect, IsNumber, ModeAfter, SameRedirected, BeginsWord, Passed;
    DescriptorToken(s, c);
    var i := k - (|s| - |t|);
    NotTheOperator(s, c, ReadRedirect(t).value.redirect, ReadRedirect(t).value.rest, k);
    RedirectIsPast(t, i);
    RedirectCut(t, i + 1);
  }

  lemma LeftTwice(s: string, t: string, rest: string, j: nat)
    requires |s| - |rest| <= j <= |s| && |rest| <= |t| <= |s|
    ensures Left(s, rest, j) == Left(t, rest, j - (|s| - |t|))
  {
  }

  lemma DescriptorGoes(s: string, c: Scan, k: nat, t: string) returns (cut: Scan)
    requires BeginsWord(s) && ReadWord(s).Ok? && IsDescriptor(ReadWord(s).value) && t == ReadWord(s).value.rest
    requires Tokens(s, c).Ok? && Cuts(s, k, Tokens(s, c).value.redirects)
    ensures ReadRedirect(t).Ok? && Goes(s, c, k, ReadRedirect(t).value.rest, Passed(c, ReadRedirect(t).value.redirect), cut)
  {
    WordBegins(s, k);
    DescriptorCut(s, c, k, t);
    hide Tokens, ReadWord, ReadRedirect, IsNumber, ModeAfter;
    var i := k - (|s| - |t|);
    var r := ReadRedirect(t).value;
    assert Left(s, t, k + 1) == t[..i + 1];
    PastTwice(s, t, r.rest, k);
    RedirectLeaves(t);
    LeavesTwice(s, t, r.rest);
    LeftTwice(s, t, r.rest, k + 1);
    hide IsPast, Leaves, Left;
    DescriptorToken(s[..k + 1], Words(c));
    cut := Passed(Words(c), ReadRedirect(t[..i + 1]).value.redirect);
  }

  /** The first turn of the loop. */
  lemma FirstTurn(s: string, c: Scan, k: nat) returns (rest: string, c2: Scan, cut: Scan)
    requires Tokens(s, c).Ok? && k > 0 && Cuts(s, k, Tokens(s, c).value.redirects)
    ensures Goes(s, c, k, rest, c2, cut)
  {
    if s[0] == ' ' || s[0] == '\t' || IsSeparatorHere(s) {
      rest, c2 := s[1..], if s[0] == ' ' || s[0] == '\t' then c else EndSegment(c);
      cut := Words(c2);
      OneGoes(s, c, k, c2);
    } else if s[0] == '\\' && |s| > 1 && s[1] == '\n' {
      rest, c2, cut := s[2..], c, Words(c);
      ContinuationGoes(s, c, k);
    } else if s[0] == '&' && |s| > 1 && s[1] == '>' {
      cut := BothGoes(s, c, k);
      rest, c2 := ReadBoth(s).value.rest, Passed(c, ReadBoth(s).value.redirect);
    } else if IsAngle(s[0]) {
      cut := RedirectGoes(s, c, k);
      rest, c2 := ReadRedirect(s).value.rest, Passed(c, ReadRedirect(s).value.redirect);
    } else {
      rest, c2, cut := WordTurn(s, c, k);
    }
  }

  lemma WordTurn(s: string, c: Scan, k: nat) returns (rest: string, c2: Scan, cut: Scan)
    requires BeginsWord(s) && Tokens(s, c).Ok? && Cuts(s, k, Tokens(s, c).value.redirects)
    ensures Goes(s, c, k, rest, c2, cut)
  {
    assert ReadWord(s).Ok?;
    hide Tokens, ReadWord, ReadRedirect, IsNumber, Goes;
    var w := ReadWord(s).value;
    if IsDescriptor(w) {
      cut := DescriptorGoes(s, c, k, w.rest);
      rest, c2 := ReadRedirect(w.rest).value.rest, Passed(c, ReadRedirect(w.rest).value.redirect);
    } else {
      WordGoes(s, c, k);
      rest, c2 := w.rest, c.(current := c.current + [w.word]);
      cut := Words(c2);
    }
  }

  lemma CutsLater(s: string, c: Scan, k: nat, rest: string, c2: Scan, cut: Scan)
    requires Tokens(s, c).Ok? && Cuts(s, k, Tokens(s, c).value.redirects) && Goes(s, c, k, rest, c2, cut)
    ensures Tokens(rest, c2).Ok? && Cuts(rest, k - (|s| - |rest|), Tokens(rest, c2).value.redirects) && |rest| < |s|
  {
    hide Tokens;
  }

  /** A separator that the automaton finds unquoted, outside the operators, cuts the scan. */
  lemma {:induction false} TokensAreCut(s: string, c: Scan, k: nat) returns (x: Scan)
    requires Tokens(s, c).Ok? && Cuts(s, k, Tokens(s, c).value.redirects)
    ensures CutAt(s, c, k, x)
    decreases |s|
  {
    if k == 0 {
      x := CutHere(s, c);
    } else {
      var rest, c2, cut := FirstTurn(s, c, k);
      CutsLater(s, c, k, rest, c2, cut);
      hide Tokens, Goes, CutAt, Cuts;
      x := TokensAreCut(rest, c2, k - (|s| - |rest|));
      CutLater(s, c, k, rest, c2, cut, x);
    }
  }

  /**
   * In every command that tokenizes, an unquoted `;`, `&`, `|`, parenthesis or newline outside the
   * redirection operators ends a segment: the segments are those of the text up to it and those of the
   * text after it.
   */
  lemma SplitAtSeparator(src: string, i: nat)
    requires Tokenized(src).Ok? && i < |src| && ModeAfter(Plain, src[..i]) == Plain
    requires src[i] in {';', '&', '|', '(', ')', '\n'} && !InOperator(|src| - i, Tokenized(src).value.redirects)
    ensures Tokenized(src[..i + 1]).Ok? && Tokenized(src[i + 1..]).Ok?
    ensures Tokenized(src).value.segments == Tokenized(src[..i + 1]).value.segments + Tokenized(src[i + 1..]).value.segments
  {
    var x := TokensAreCut(src, START, i);
    EndsWithNoWords(src[..i + 1], START);
    assert After(x, START) == x;
    hide Tokens;
    TokensAfter(src[i + 1..], START, x);
  }

  // ── Nothing else cuts it ───────────────────────────────────────────────────

  /** Every separator that a reader in mode `m` finds unquoted lies in the operator of a redirection. */
  predicate OnlyInOperators(m: Mode, s: string, rs: seq<Redirect>)
    decreases |s|
  {
    s == [] || ((m == Plain && s[0] in SEPARATORS ==> InOperator(|s|, rs)) && OnlyInOperators(Turn(m, s[0]), s[1..], rs))
  }

  lemma {:induction false} OnlyInOperatorsIf(m: Mode, s: string, rs: seq<Redirect>)
    requires forall i :: 0 <= i < |s| && ModeAfter(m, s[..i]) == Plain && s[i] in SEPARATORS ==> InOperator(|s| - i, rs)
    ensures OnlyInOperators(m, s, rs)
    decreases |s|
  {
    if s != [] {
      assert s[..0] == [];
      forall i | 0 <= i < |s[1..]| && ModeAfter(Turn(m, s[0]), s[1..][..i]) == Plain && s[1..][i] in SEPARATORS
        ensures InOperator(|s[1..]| - i, rs)
      {
        assert s[..i + 1][1..] == s[1..][..i] && s[i + 1] == s[1..][i];
      }
      OnlyInOperatorsIf(Turn(m, s[0]), s[1..], rs);
    }
  }

  lemma {:induction false} AfterWord(m: Mode, s: string, w: Word, rs: seq<Redirect>)
    requires OnlyInOperators(m, s, rs) && WordOf(m, s, w).Ok?
    ensures OnlyInOperators(Plain, WordOf(m, s, w).value.rest, rs)
    decreases |s|
  {
    hide Emitted;
    if s == [] || (m == Plain && s[0] in WORD_ENDS) {
    } else {
      AfterWord(Turn(m, s[0]), s[1..], Emitted(m, s, w), rs);
    }
  }

  lemma {:induction false} AfterPlain(s: string, n: nat, rs: seq<Redirect>)
    requires OnlyInOperators(Plain, s, rs) && n <= |s| && forall j :: 0 <= j < n ==> !IsQuoting(s[j])
    ensures OnlyInOperators(Plain, s[n..], rs)
    decreases n
  {
    if n == 0 {
      assert s[0..] == s;
    } else {
      assert s[n..] == s[1..][n - 1..];
      AfterPlain(s[1..], n - 1, rs);
    }
  }

  lemma AfterTarget(s: string, op: nat, output: bool, duplicates: bool, rs: seq<Redirect>)
    requires op <= |s| && Target(s, op, output, duplicates).Ok? && OnlyInOperators(Plain, s, rs)
    requires forall j :: 0 <= j < op ==> IsOperator(s[j])
    ensures OnlyInOperators(Plain, Target(s, op, output, duplicates).value.rest, rs)
  {
    var t := SkipBlanks(s[op..]);
    AfterPlain(s, op, rs);
    BlanksArePlain(s[op..]);
    BlanksLeave(s[op..]);
    AfterPlain(s[op..], |s[op..]| - |t|, rs);
    ReadingIsTheAutomaton(t, EMPTY);
    AfterWord(Plain, t, EMPTY, rs);
  }

  lemma AfterRedirect(s: string, rs: seq<Redirect>)
    requires s != [] && IsAngle(s[0]) && ReadRedirect(s).Ok? && OnlyInOperators(Plain, s, rs)
    ensures OnlyInOperators(Plain, ReadRedirect(s).value.rest, rs)
  {
    hide IsFd, IsSink, OnlyInOperators;
    if s[0] == '>' {
      var i := if At(s, 1) == ">" || At(s, 1) == "|" then 2 else 1;
      if At(s, i) == "&" {
        AfterTarget(s, i + 1, true, true, rs);
      } else {
        AfterTarget(s, i, true, false, rs);
      }
    } else if At(s, 1) == "<" {
      AfterTarget(s, 3, false, false, rs);
    } else if At(s, 1) == "&" {
      AfterTarget(s, 2, false, true, rs);
    } else {
      AfterTarget(s, 1, false, false, rs);
    }
  }

  lemma AfterBoth(s: string, rs: seq<Redirect>)
    requires |s| > 1 && s[0] == '&' && s[1] == '>' && ReadBoth(s).Ok? && OnlyInOperators(Plain, s, rs)
    ensures OnlyInOperators(Plain, ReadBoth(s).value.rest, rs)
  {
    AfterTarget(s, if At(s, 2) == ">" then 3 else 2, true, false, rs);
  }

  /** Redirections are recorded in the order they stand in, each ending before the next. */
  predicate AllEarlier(rs: seq<Redirect>, left: nat)
  {
    forall i :: 0 <= i < |rs| ==> rs[i].opEnd >= left
  }

  predicate AllLater(rs: seq<Redirect>, from: nat, left: nat)
  {
    forall i :: from <= i < |rs| ==> rs[i].start <= left
  }

  lemma {:induction false} LaterRedirects(s: string, c: Scan)
    requires Tokens(s, c).Ok?
    ensures |c.redirects| <= |Tokens(s, c).value.redirects| && AllLater(Tokens(s, c).value.redirects, |c.redirects|, |s|)
    ensures c.redirects <= Tokens(s, c).value.redirects
    decreases |s|
  {
    if s == [] {
    } else if s[0] == ' ' || s[0] == '\t' {
      LaterRedirects(s[1..], c);
    } else if s[0] == '\\' && |s| > 1 && s[1] == '\n' {
      LaterRedirects(s[2..], c);
    } else if s[0] == '&' && |s| > 1 && s[1] == '>' {
      LaterPassed(s, c, ReadBoth(s).value.redirect, ReadBoth(s).value.rest);
    } else if IsAngle(s[0]) {
      RedirectStands(s);
      LaterPassed(s, c, ReadRedirect(s).value.redirect, ReadRedirect(s).value.rest);
    } else if IsSeparator(s[0]) {
      LaterRedirects(s[1..], EndSegment(c));
    } else {
      var w := ReadWord(s).value;
      if IsDescriptor(w) {
        RedirectStands(w.rest);
        LaterPassed(s, c, ReadRedirect(w.rest).value.redirect, ReadRedirect(w.rest).value.rest);
      } else {
        LaterRedirects(w.rest, c.(current := c.current + [w.word]));
      }
    }
  }

  lemma RedirectStands(s: string)
    requires s != [] && IsAngle(s[0]) && ReadRedirect(s).Ok?
    ensures var r := ReadRedirect(s).value; r.redirect.start == |s| && |r.rest| <= r.redirect.opEnd && |r.rest| < |s|
  {
  }

  lemma {:induction false} LaterPassed(s: string, c: Scan, r: Redirect, rest: string)
    requires Tokens(s, c).Ok? && Tokens(s, c) == Tokens(rest, Passed(c, r)) && |rest| < |s| && r.start <= |s|
    ensures c.redirects <= Tokens(s, c).value.redirects && AllLater(Tokens(s, c).value.redirects, |c.redirects|, |s|)
    decreases |s|, 0
  {
    hide Tokens;
    LaterRedirects(rest, Passed(c, r));
    assert Tokens(s, c).value.redirects[|c.redirects|] == r;
  }

  lemma NoSeparatorHere(s: string, c: Scan)
    requires Tokens(s, c).Ok? && IsSeparatorHere(s) && AllEarlier(c.redirects, |s|)
    ensures !InOperator(|s|, Tokens(s, c).value.redirects)
  {
    var rs := Tokens(s, c).value.redirects;
    LaterRedirects(s[1..], EndSegment(c));
    assert c.redirects <= rs && AllLater(rs, |c.redirects|, |s| - 1);
    forall r | r in rs ensures !(r.opEnd < |s| <= r.start) {
      var i :| 0 <= i < |rs| && rs[i] == r;
      assert i < |c.redirects| ==> c.redirects[i] == r;
    }
  }

  lemma PassedEarlier(c: Scan, r: Redirect, s: string, rest: string)
    requires AllEarlier(c.redirects, |s|) && |rest| <= r.opEnd && |rest| <= |s|
    ensures AllEarlier(Passed(c, r).redirects, |rest|)
  {
  }

  lemma {:induction false} StaysOne(s: string, c: Scan)
    requires Tokens(s, c).Ok? && OnlyInOperators(Plain, s, Tokens(s, c).value.redirects) && AllEarlier(c.redirects, |s|)
    ensures |Tokens(s, c).value.segments| <= |c.segments| + 1
    decreases |s|
  {
    var rs := Tokens(s, c).value.redirects;
    if s == [] {
    } else if s[0] == ' ' || s[0] == '\t' {
      AfterPlain(s, 1, rs);
      StaysOne(s[1..], c);
    } else if s[0] == '\\' && |s| > 1 && s[1] == '\n' {
      assert s[1..][1..] == s[2..];
      StaysOne(s[2..], c);
    } else if s[0] == '&' && |s| > 1 && s[1] == '>' {
      AfterBoth(s, rs);
      PassedEarlier(c, ReadBoth(s).value.redirect, s, ReadBoth(s).value.rest);
      StaysOne(ReadBoth(s).value.rest, Passed(c, ReadBoth(s).value.redirect));
    } else if IsAngle(s[0]) {
      AfterRedirect(s, rs);
      RedirectStands(s);
      PassedEarlier(c, ReadRedirect(s).value.redirect, s, ReadRedirect(s).value.rest);
      StaysOne(ReadRedirect(s).value.rest, Passed(c, ReadRedirect(s).value.redirect));
    } else if IsSeparator(s[0]) {
      NoSeparatorHere(s, c);
    } else {
      WordStaysOne(s, c);
    }
  }

  lemma {:induction false} WordStaysOne(s: string, c: Scan)
    requires Tokens(s, c).Ok? && OnlyInOperators(Plain, s, Tokens(s, c).value.redirects) && AllEarlier(c.redirects, |s|)
    requires BeginsWord(s)
    ensures |Tokens(s, c).value.segments| <= |c.segments| + 1
    decreases |s|, 0
  {
    var rs := Tokens(s, c).value.redirects;
    var w := ReadWord(s).value;
    ReadingIsTheAutomaton(s, EMPTY);
    AfterWord(Plain, s, EMPTY, rs);
    if IsDescriptor(w) {
      var r := ReadRedirect(w.rest).value;
      AfterRedirect(w.rest, rs);
      RedirectStands(w.rest);
      PassedEarlier(c, r.redirect, s, r.rest);
      StaysOne(r.rest, Passed(c, r.redirect));
    } else {
      StaysOne(w.rest, c.(current := c.current + [w.word]));
    }
  }

  /** Without such a separator there is at most one segment. */
  lemma OneSegmentOtherwise(src: string)
    requires Tokenized(src).Ok?
    requires forall i :: 0 <= i < |src| && ModeAfter(Plain, src[..i]) == Plain && src[i] in {';', '&', '|', '(', ')', '\n'}
               ==> InOperator(|src| - i, Tokenized(src).value.redirects)
    ensures |Tokenized(src).value.segments| <= 1
  {
    OnlyInOperatorsIf(Plain, src, Tokenized(src).value.redirects);
    StaysOne(src, START);
  }
}
