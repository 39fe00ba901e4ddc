/**
 * The read-only check of a command: constructs refused on the raw text, then the tokenizer, then
 * one rule for the program of each segment. The rules of the individual programs are parameters.
 */
module ShellCheck {
  import opened Shell
  import opened ShellQuoting
  import opened ShellJoining

  /** `Always` is the rule of the plain programs; the others look at the arguments. */
  datatype Rule = Always | Inspects(readOnly: seq<Word> -> bool)

  datatype Policy = Policy(wrappers: set<string>, rules: map<string, Rule>)

  // ── Constructs refused on the raw text ─────────────────────────────────────

  predicate HasPair(s: string, first: set<char>, second: char)
  {
    exists i :: 0 <= i < |s| - 1 && s[i] in first && s[i + 1] == second
  }

  predicate IsName(s: string)
  {
    s != [] && IsLetter(s[0]) && forall i :: 0 <= i < |s| ==> IsLetter(s[i]) || IsDigit(s[i])
  }

  function BraceAt(s: string): (i: nat)
    ensures i <= |s|
    ensures i < |s| ==> s[i] == '}'
    ensures forall j :: 0 <= j < i ==> s[j] != '}'
  {
    if s == [] || s[0] == '}' then 0 else 1 + BraceAt(s[1..])
  }

  /** Every `${` is followed by a name and its closing brace. */
  predicate OnlyNamesExpand(s: string)
    decreases |s|
  {
    |s| < 2 ||
    if s[0] == '$' && s[1] == '{' then
      var close := BraceAt(s[2..]);
      close < |s| - 2 && IsName(s[2..][..close]) && OnlyNamesExpand(s[2..][close + 1..])
    else OnlyNamesExpand(s[1..])
  }

  /** `rejectExpansions` throws nothing. */
  predicate NothingHidden(s: string)
  {
    && '`' !in s && !HasPair(s, {'$'}, '(') && !HasPair(s, {'<', '>'}, '(')
    && OnlyNamesExpand(s)
  }

  // ── Segments ───────────────────────────────────────────────────────────────

  predicate IsAssignment(s: string)
  {
    exists i :: 0 < i < |s| && s[i] == '=' && IsName(s[..i])
  }

  /** The directories `SYSTEM_BIN` allows. */
  const SYSTEM_BIN := {"/bin/", "/sbin/", "/usr/bin/", "/usr/sbin/",
                       "/local/bin/", "/local/sbin/", "/usr/local/bin/", "/usr/local/sbin/"}

  function LastSlash(s: string): (i: int)
    ensures -1 <= i < |s|
    ensures i >= 0 ==> s[i] == '/'
    ensures forall j :: i < j < |s| ==> s[j] != '/'
  {
    if s == [] then -1 else if s[|s| - 1] == '/' then |s| - 1 else LastSlash(s[..|s| - 1])
  }

  /** The name a program is looked up by, unless it lies outside the system paths. */
  function ProgramName(s: string): Result<string>
  {
    if '/' !in s then Ok(s)
    else
      var k := LastSlash(s) + 1;
      if s[..k] in SYSTEM_BIN && k < |s| then Ok(s[k..]) else Unsafe
  }

  /** `checkSegment` throws nothing. */
  predicate SegmentIsReadOnly(words: seq<Word>, policy: Policy)
    requires words != []
  {
    && !words[0].glob && !IsAssignment(words[0].text)
    && ProgramName(words[0].text).Ok?
    && var program := ProgramName(words[0].text).value;
    && program !in policy.wrappers && program in policy.rules
    && (policy.rules[program].Inspects? ==>
          && (forall i :: 1 <= i < |words| ==> !words[i].expands)
          && policy.rules[program].readOnly(words[1..]))
  }

  predicate AllReadOnly(segments: seq<seq<Word>>, policy: Policy)
  {
    forall i :: 0 <= i < |segments| ==> segments[i] != [] && SegmentIsReadOnly(segments[i], policy)
  }

  /** Whether a trimmed, non-empty command counts as read-only. */
  predicate IsReadOnly(s: string, policy: Policy)
  {
    && NothingHidden(s) && Tokenized(s).Ok?
    && AllReadOnly(Tokenized(s).value.segments, policy)
  }

  function Trimmed(s: string, blank: char -> bool): string
    decreases |s|
  {
    if s == [] then s
    else if blank(s[0]) then Trimmed(s[1..], blank)
    else if blank(s[|s| - 1]) then Trimmed(s[..|s| - 1], blank)
    else s
  }

  // ── Every segment has a program ────────────────────────────────────────────

  predicate NoneEmpty(segments: seq<seq<Word>>)
  {
    forall i :: 0 <= i < |segments| ==> segments[i] != []
  }

  lemma {:induction false} SegmentsHaveWords(s: string, c: Scan)
    requires Tokens(s, c).Ok? && NoneEmpty(c.segments)
    ensures NoneEmpty(Tokens(s, c).value.segments)
    decreases |s|
  {
    if s == [] {
    } else if s[0] == ' ' || s[0] == '\t' {
      SegmentsHaveWords(s[1..], c);
    } else if s[0] == '\\' && |s| > 1 && s[1] == '\n' {
      SegmentsHaveWords(s[2..], c);
    } else if s[0] == '&' && |s| > 1 && s[1] == '>' {
      SegmentsHaveWords(ReadBoth(s).value.rest, Passed(c, ReadBoth(s).value.redirect));
    } else if IsAngle(s[0]) {
      SegmentsHaveWords(ReadRedirect(s).value.rest, Passed(c, ReadRedirect(s).value.redirect));
    } else if IsSeparator(s[0]) {
      SegmentsHaveWords(s[1..], EndSegment(c));
    } else {
      var w := ReadWord(s).value;
      if w.rest != [] && IsAngle(w.rest[0]) && IsNumber(w.word.text) {
        SegmentsHaveWords(ReadRedirect(w.rest).value.rest, Passed(c, ReadRedirect(w.rest).value.redirect));
      } else {
        SegmentsHaveWords(w.rest, c.(current := c.current + [w.word]));
      }
    }
  }

  /** `for (const words of segments) checkSegment(words)`, up to the first one that throws. */
  method CheckSegments(segments: seq<seq<Word>>, policy: Policy) returns (ok: bool)
    requires NoneEmpty(segments)
    ensures ok <==> forall i :: 0 <= i < |segments| ==> SegmentIsReadOnly(segments[i], policy)
  {
    for i := 0 to |segments|
      invariant forall j :: 0 <= j < i ==> SegmentIsReadOnly(segments[j], policy)
    {
      if !SegmentIsReadOnly(segments[i], policy) {
        return false;
      }
    }
    return true;
  }

  /** `classifyCommand`, by the loops of the tokenizer. */
  method Classify(command: string, blank: char -> bool, policy: Policy) returns (mutating: bool)
    ensures var s := Trimmed(command, blank); !mutating <==> s == [] || IsReadOnly(s, policy)
  {
    var s := Trimmed(command, blank);
    if s == [] {
      return false;
    }
    if !NothingHidden(s) {
      return true;
    }
    var segments := Tokenize(s);
    if segments.Unsafe? {
      return true;
    }
    SegmentsHaveWords(s, START);
    var ok := CheckSegments(segments.value, policy);
    return !ok;
  }

  // ── What an accepted command cannot do ─────────────────────────────────────

  /**
   * In a command that runs unasked, each angle bracket the quoting automaton finds unquoted belongs
   * to a checked redirection, and each segment starts with a program that has a rule, is no wrapper,
   * sets no variable and takes an expanded argument only if its rule ignores arguments.
   */
  lemma AcceptedIsHarmless(s: string, policy: Policy, i: nat, k: nat)
    requires IsReadOnly(s, policy)
    ensures ModeAfter(Plain, s) == Plain
    ensures i < |s| && ModeAfter(Plain, s[..i]) == Plain && IsAngle(s[i]) ==>
      Checked(s[i..], Tokenized(s).value.redirects) && (i + 1 < |s| ==> s[i + 1] != '(')
    ensures k < |Tokenized(s).value.segments| ==>
      var words := Tokenized(s).value.segments[k];
      && words != [] && ProgramName(words[0].text).Ok? && !IsAssignment(words[0].text)
      && var program := ProgramName(words[0].text).value;
      && '/' !in program && program in policy.rules && program !in policy.wrappers
      && (policy.rules[program].Always? || forall j :: 1 <= j < |words| ==> !words[j].expands)
  {
    UnquotedRedirectionsAreChecked(s, i);
    if i + 1 < |s| && IsAngle(s[i]) {
      NoPairAt(s, {'<', '>'}, '(', i);
    }
  }

  lemma NoPairAt(s: string, first: set<char>, second: char, i: nat)
    requires !HasPair(s, first, second) && i + 1 < |s| && s[i] in first
    ensures s[i + 1] != second
  {
  }

  // ── Exactly which commands run unasked ─────────────────────────────────────

  predicate IsNameStart(c: char)
  {
    c == '_' || 'A' <= c <= 'Z' || 'a' <= c <= 'z'
  }

  /** `s` begins with a name of `n` characters. */
  predicate HasName(s: string, n: nat)
  {
    0 < n <= |s| && IsNameStart(s[0]) && forall j :: 0 < j < n ==> IsNameStart(s[j]) || '0' <= s[j] <= '9'
  }

  lemma NameIs(s: string, n: nat)
    requires n <= |s|
    ensures IsName(s[..n]) <==> HasName(s, n)
  {
    if IsName(s[..n]) {
      assert forall j :: 0 <= j < n ==> s[..n][j] == s[j];
    }
  }

  /** Text up to the first brace: a name. */
  ghost predicate Braced(s: string)
  {
    exists n :: 0 < n < |s| && s[n] == '}' && HasName(s, n)
  }

  /** Each `${` of `s` opens a braced name. */
  ghost predicate AllBraced(s: string)
  {
    forall i :: 0 <= i < |s| - 1 && s[i] == '$' && s[i + 1] == '{' ==> Braced(s[i + 2..])
  }

  lemma BracedIs(s: string)
    ensures Braced(s) <==> BraceAt(s) < |s| && IsName(s[..BraceAt(s)])
  {
    var close := BraceAt(s);
    hide BraceAt;
    NameIs(s, close);
    if close < |s| && HasName(s, close) {
      assert 0 < close < |s| && s[close] == '}';
    }
    if Braced(s) {
      var n :| 0 < n < |s| && s[n] == '}' && HasName(s, n);
      assert n == close;
    }
  }

  lemma AllBracedFrom(s: string, n: nat)
    requires n <= |s| && forall i :: 0 <= i < n && i + 1 < |s| ==> !(s[i] == '$' && s[i + 1] == '{')
    ensures AllBraced(s) <==> AllBraced(s[n..])
  {
    if AllBraced(s) {
      forall i | 0 <= i < |s[n..]| - 1 && s[n..][i] == '$' && s[n..][i + 1] == '{' ensures Braced(s[n..][i + 2..]) {
        assert s[n + i] == '$' && s[n + i + 1] == '{' && s[n + i + 2..] == s[n..][i + 2..];
      }
    } else {
      var i :| 0 <= i < |s| - 1 && s[i] == '$' && s[i + 1] == '{' && !Braced(s[i + 2..]);
      assert s[n..][i - n] == '$' && s[n..][i - n + 1] == '{' && s[n..][i - n + 2..] == s[i + 2..];
    }
  }

  lemma {:induction false} OnlyNamesIs(s: string)
    ensures OnlyNamesExpand(s) <==> AllBraced(s)
    decreases |s|
  {
    if |s| >= 2 {
      if s[0] == '$' && s[1] == '{' {
        BracesIs(s);
      } else {
        OnlyNamesIs(s[1..]);
        AllBracedFrom(s, 1);
      }
    }
  }

  lemma {:induction false} BracesIs(s: string)
    requires |s| >= 2 && s[0] == '$' && s[1] == '{'
    ensures OnlyNamesExpand(s) <==> AllBraced(s)
    decreases |s|, 0
  {
    var t := s[2..];
    var close := BraceAt(t);
    NameFirst(s);
    BracedIs(t);
    hide BraceAt, IsName, Braced, OnlyNamesExpand;
    if close < |t| {
      var rest := t[close + 1..];
      OnlyNamesIs(rest);
      BracesAre(s, close);
    }
  }

  /** A braced name holds no other `${`. */
  lemma BracesAre(s: string, close: nat)
    requires |s| >= 2 && s[0] == '$' && s[1] == '{' && close < |s[2..]| && s[2..][close] == '}'
    requires Braced(s[2..]) <==> IsName(s[2..][..close])
    ensures AllBraced(s) <==> Braced(s[2..]) && AllBraced(s[2..][close + 1..])
  {
    var t := s[2..];
    assert s[1..][1..] == t;
    if IsName(t[..close]) {
      NameIs(t, close);
      forall i | 0 <= i < close + 1 && i + 1 < |t| ensures !(t[i] == '$' && t[i + 1] == '{') {
        assert t[i] != '$';
      }
      AllBracedFrom(t, close + 1);
      AllBracedFrom(s[1..], 1);
      if AllBraced(s[1..]) && Braced(t) {
        forall i | 0 <= i < |s| - 1 && s[i] == '$' && s[i + 1] == '{' ensures Braced(s[i + 2..]) {
          if i > 0 {
            assert s[1..][i - 1] == '$' && s[1..][i] == '{' && s[1..][i + 1..] == s[i + 2..];
          }
        }
      }
      if AllBraced(s) {
        forall i | 0 <= i < |s[1..]| - 1 && s[1..][i] == '$' && s[1..][i + 1] == '{' ensures Braced(s[1..][i + 2..]) {
          assert s[i + 1] == '$' && s[i + 2] == '{' && s[i + 3..] == s[1..][i + 2..];
        }
      }
    } else {
      assert s[0] == '$' && s[1] == '{' && !Braced(s[0 + 2..]);
    }
  }

  /** `program` is what `text` runs: a bare name, or a name in one of the system's directories. */
  ghost predicate Runs(text: string, program: string)
  {
    && '/' !in program
    && (text == program || (program != [] && exists dir: string :: IsSystemDirectory(dir) && text == dir + program))
  }

  predicate IsSystemDirectory(dir: string)
  {
    dir in {"/bin/", "/sbin/", "/usr/bin/", "/usr/sbin/", "/local/bin/", "/local/sbin/", "/usr/local/bin/", "/usr/local/sbin/"}
  }

  lemma LastSlashOf(dir: string, program: string)
    requires dir != [] && dir[|dir| - 1] == '/' && '/' !in program
    ensures LastSlash(dir + program) == |dir| - 1
  {
    var s := dir + program;
    var k := LastSlash(s);
    assert s[|dir| - 1] == '/';
    hide LastSlash;
    assert forall j :: |dir| <= j < |s| ==> s[j] == program[j - |dir|];
  }

  lemma SystemDirectory(dir: string)
    ensures dir in SYSTEM_BIN <==> IsSystemDirectory(dir)
    ensures IsSystemDirectory(dir) ==> dir != [] && dir[0] == '/' && dir[|dir| - 1] == '/'
  {
  }

  lemma NamedRuns(text: string, program: string)
    requires ProgramName(text) == Ok(program)
    ensures Runs(text, program)
  {
    hide IsSystemDirectory, LastSlash;
    if '/' in text {
      var k := LastSlash(text) + 1;
      SystemDirectory(text[..k]);
      assert text == text[..k] + program;
    }
  }

  lemma RunsNamed(text: string, program: string)
    requires Runs(text, program)
    ensures ProgramName(text) == Ok(program)
  {
    hide IsSystemDirectory, LastSlash;
    if text != program {
      var dir: string :| IsSystemDirectory(dir) && text == dir + program;
      SystemDirectory(dir);
      LastSlashOf(dir, program);
      assert text[0] == '/' && text[..|dir|] == dir && text[|dir|..] == program;
    }
  }

  lemma ProgramIs(text: string, program: string)
    ensures ProgramName(text) == Ok(program) <==> Runs(text, program)
  {
    if ProgramName(text) == Ok(program) {
      NamedRuns(text, program);
    }
    hide ProgramName;
    if Runs(text, program) {
      RunsNamed(text, program);
    }
  }

  /** What `checkSegment` accepts, condition by condition. */
  ghost predicate Allowed(words: seq<Word>, policy: Policy)
  {
    && words != [] && !words[0].glob
    && !(exists n :: 0 < n < |words[0].text| && words[0].text[n] == '=' && HasName(words[0].text, n))
    && exists program :: Runs(words[0].text, program) && program !in policy.wrappers && program in policy.rules
         && (policy.rules[program].Always?
             || ((forall j :: 1 <= j < |words| ==> !words[j].expands) && policy.rules[program].readOnly(words[1..])))
  }

  lemma AssignmentIs(s: string)
    ensures IsAssignment(s) <==> exists n :: 0 < n < |s| && s[n] == '=' && HasName(s, n)
  {
    forall n | 0 <= n <= |s| ensures IsName(s[..n]) <==> HasName(s, n) {
      NameIs(s, n);
    }
  }

  lemma AllowedIs(words: seq<Word>, policy: Policy)
    requires words != []
    ensures SegmentIsReadOnly(words, policy) <==> Allowed(words, policy)
  {
    var text := words[0].text;
    AssignmentIs(text);
    hide IsAssignment, HasName;
    if ProgramName(text).Ok? {
      ProgramIs(text, ProgramName(text).value);
    }
    forall program ensures ProgramName(text) == Ok(program) <==> Runs(text, program) {
      ProgramIs(text, program);
    }
    hide ProgramName, Runs;
  }

  /**
   * A command runs unasked exactly when: it tokenizes; it has no backtick, no `$(`, `<(` or `>(`, and no `${`
   * but around a name; and each segment starts with a plain program name, sets no variable, and has a program
   * that is no wrapper and whose rule takes any arguments or, none of them expanded, these.
   */
  lemma AcceptedExactly(s: string, policy: Policy)
    ensures IsReadOnly(s, policy) <==>
      && Tokenized(s).Ok? && '`' !in s
      && (forall i :: 0 <= i < |s| - 1 && s[i + 1] == '(' ==> s[i] !in {'$', '<', '>'})
      && (forall i :: 0 <= i < |s| - 1 && s[i] == '$' && s[i + 1] == '{' ==> Braced(s[i + 2..]))
      && forall k :: 0 <= k < |Tokenized(s).value.segments| ==> Allowed(Tokenized(s).value.segments[k], policy)
  {
    OnlyNamesIs(s);
    PairsAre(s);
    if Tokenized(s).Ok? {
      SegmentsHaveWords(s, START);
      forall k | 0 <= k < |Tokenized(s).value.segments|
        ensures SegmentIsReadOnly(Tokenized(s).value.segments[k], policy) <==> Allowed(Tokenized(s).value.segments[k], policy)
      {
        AllowedIs(Tokenized(s).value.segments[k], policy);
      }
    }
    hide Tokens, SegmentIsReadOnly, Allowed, OnlyNamesExpand, Braced, HasPair;
  }

  lemma PairsAre(s: string)
    ensures !HasPair(s, {'$'}, '(') && !HasPair(s, {'<', '>'}, '(') <==>
      forall i :: 0 <= i < |s| - 1 && s[i + 1] == '(' ==> s[i] !in {'$', '<', '>'}
  {
    if i :| 0 <= i < |s| - 1 && s[i + 1] == '(' && s[i] in {'$', '<', '>'} {
      assert s[i] in {'$'} || s[i] in {'<', '>'};
    }
  }

  // ── A command is judged piece by piece ─────────────────────────────────────

  lemma PairsApart(a: string, sep: char, b: string, first: set<char>)
    requires sep !in first && '(' !in first
    ensures HasPair(a + [sep] + b, first, '(') <==>
      HasPair(a, first, '(') || HasPair(b, first, '(') || (sep == '(' && a != [] && a[|a| - 1] in first)
  {
    var s := a + [sep] + b;
    if HasPair(a, first, '(') {
      var i :| 0 <= i < |a| - 1 && a[i] in first && a[i + 1] == '(';
      assert s[i] in first && s[i + 1] == '(';
    }
    if HasPair(b, first, '(') {
      var i :| 0 <= i < |b| - 1 && b[i] in first && b[i + 1] == '(';
      assert s[|a| + 1 + i] in first && s[|a| + 1 + i + 1] == '(';
    }
    if HasPair(s, first, '(') {
      var i :| 0 <= i < |s| - 1 && s[i] in first && s[i + 1] == '(';
      if i < |a| - 1 {
        assert a[i] in first && a[i + 1] == '(';
      } else if i > |a| {
        assert b[i - |a| - 1] in first && b[i - |a|] == '(';
      }
    }
    if sep == '(' && a != [] && a[|a| - 1] in first {
      assert s[|a| - 1] in first && s[|a|] == '(';
    }
  }

  lemma {:induction false} BraceBefore(a: string, t: string)
    ensures BraceAt(a) < |a| ==> BraceAt(a + t) == BraceAt(a)
    ensures BraceAt(a) == |a| ==> BraceAt(a + t) >= |a|
    decreases |a|
  {
    if a != [] && a[0] != '}' {
      assert (a + t)[1..] == a[1..] + t;
      BraceBefore(a[1..], t);
    }
  }

  lemma {:induction false} NamesApart(a: string, sep: char, b: string)
    requires sep in SEPARATORS
    ensures OnlyNamesExpand(a + [sep] + b) <==> OnlyNamesExpand(a) && OnlyNamesExpand(b)
    decreases |a|
  {
    hide IsName, BraceAt;
    var t := [sep] + b;
    var s := a + [sep] + b;
    assert s == a + t;
    if a == [] {
      assert s[1..] == b;
    } else if |a| >= 2 && a[0] == '$' && a[1] == '{' {
      NameApart(a, sep, b);
      var close := BraceAt(a[2..]);
      if close < |a| - 2 {
        NamesApart(a[2..][close + 1..], sep, b);
      }
    } else {
      assert s[1..] == a[1..] + [sep] + b;
      NamesApart(a[1..], sep, b);
    }
  }

  /** A `${` of `a` finds its closing brace in `a`, or what it encloses is no name. */
  lemma NameApart(a: string, sep: char, b: string)
    requires sep in SEPARATORS
    requires |a| >= 2 && a[0] == '$' && a[1] == '{'
    ensures var close := BraceAt(a[2..]);
            var s := a + [sep] + b;
            OnlyNamesExpand(s) <==> close < |a| - 2 && IsName(a[2..][..close]) && OnlyNamesExpand(a[2..][close + 1..] + [sep] + b)
  {
    hide BraceAt, IsName, OnlyNamesExpand;
    var t := [sep] + b;
    var s := a + t;
    assert a + [sep] + b == s && s[2..] == a[2..] + t;
    var close, end := BraceAt(a[2..]), BraceAt(s[2..]);
    BraceBefore(a[2..], t);
    NameFirst(s);
    if close < |a| - 2 {
      assert (a[2..] + t)[..close] == a[2..][..close];
      assert (a[2..] + t)[close + 1..] == a[2..][close + 1..] + t;
      assert a[2..][close + 1..] + t == a[2..][close + 1..] + [sep] + b;
    } else if end < |s| - 2 {
      assert end > |a| - 2 ==> (a[2..] + t)[..end][|a| - 2] == sep;
      SeparatorInName(s[2..][..end], |a| - 2);
    }
  }

  lemma NameFirst(s: string)
    requires |s| >= 2 && s[0] == '$' && s[1] == '{'
    ensures OnlyNamesExpand(s) <==>
      BraceAt(s[2..]) < |s| - 2 && IsName(s[2..][..BraceAt(s[2..])]) && OnlyNamesExpand(s[2..][BraceAt(s[2..]) + 1..])
  {
    hide BraceAt, IsName;
  }

  lemma SeparatorInName(s: string, i: nat)
    requires (i < |s| && s[i] in SEPARATORS) || s == []
    ensures !IsName(s)
  {
  }

  /**
   * When `a` tokenizes, `a` joined to `b` by one of the six separators (an `&` not made `&>` by `b`) runs
   * unasked exactly when both do; before a parenthesis `a` must not end in `$`, `<` or `>` either.
   */
  lemma JudgedPieceByPiece(a: string, sep: char, b: string, policy: Policy)
    requires sep in {';', '&', '|', '(', ')', '\n'} && (sep == '&' && b != [] ==> b[0] != '>')
    requires Tokenized(a).Ok?
    ensures IsReadOnly(a + [sep] + b, policy) <==>
      IsReadOnly(a, policy) && IsReadOnly(b, policy) && (sep == '(' && a != [] ==> a[|a| - 1] !in {'$', '<', '>'})
  {
    var s := a + [sep] + b;
    NamesApart(a, sep, b);
    PairsApart(a, sep, b, {'$'});
    PairsApart(a, sep, b, {'<', '>'});
    assert '`' in s <==> '`' in a || '`' in b;
    var apart := sep == '(' && a != [] ==> a[|a| - 1] !in {'$', '<', '>'};
    assert NothingHidden(s) <==> NothingHidden(a) && NothingHidden(b) && apart;
    hide NothingHidden, Tokens, AllReadOnly, HasPair, OnlyNamesExpand;
    JoinedBySeparator(a, sep, b);
    if Tokenized(b).Ok? {
      BothAreReadOnly(Tokenized(a).value.segments, Tokenized(b).value.segments, policy);
    }
  }

  lemma BothAreReadOnly(x: seq<seq<Word>>, y: seq<seq<Word>>, policy: Policy)
    ensures AllReadOnly(x + y, policy) <==> AllReadOnly(x, policy) && AllReadOnly(y, policy)
  {
    hide SegmentIsReadOnly;
    assert forall i :: 0 <= i < |x| ==> (x + y)[i] == x[i];
    assert forall i :: 0 <= i < |y| ==> (x + y)[|x| + i] == y[i];
  }

  lemma Listing(s: string) returns (found: seq<Word>)
    requires s == " 'ls' ';'"
    ensures found != [] && found[0] == Word("ls", false, false)
    ensures Tokenized(s).Ok? && Tokenized(s).value.segments == [found]
  {
    hide Tokens;
    var words := ["ls", ";"];
    found := Plainly(words);
    QuotedLine(words);
    LineIsTokens(words, START);
    assert START.current + found == found;
  }

  lemma QuotedLine(words: seq<string>)
    requires words == ["ls", ";"]
    ensures Line(words) == " 'ls' ';'"
  {
    assert Escape("s") == "s" && Escape("ls") == "ls" && Escape(";") == ";";
    assert words[1..] == [";"] && [";"][1..] == [];
    assert Line([";"]) == " " + ShQuote(";") + [];
  }

  lemma {:induction false} PlainText(s: string)
    requires forall i :: 0 <= i < |s| ==> s[i] !in {'`', '$', '<', '>'}
    ensures NothingHidden(s)
    decreases |s|
  {
    if s != [] {
      PlainText(s[1..]);
    }
  }

  lemma ListingIsReadOnly(words: seq<Word>, policy: Policy)
    requires words != [] && words[0] == Word("ls", false, false)
    requires "ls" in policy.rules && policy.rules["ls"].Always? && "ls" !in policy.wrappers
    ensures SegmentIsReadOnly(words, policy)
  {
  }

  lemma OpenQuote()
    ensures Tokenized("'").Unsafe?
  {
    assert QuoteAt([]) == 0;
    assert "'"[1..] == [];
    assert Piece("'", Word([], false, false)).Unsafe?;
    assert ReadWord("'").Unsafe?;
  }

  /** When `a` does not tokenize, both can fail alone and run unasked together: the separator is then quoted text. */
  lemma CutInQuotes(policy: Policy)
    requires "ls" in policy.rules && policy.rules["ls"].Always? && "ls" !in policy.wrappers
    ensures var a, b := " 'ls' '", "'";
            IsReadOnly(a + [';'] + b, policy) && !IsReadOnly(b, policy) && Tokenized(a).Unsafe?
  {
    hide Tokens, NothingHidden, SegmentIsReadOnly;
    var a, b := " 'ls' '", "'";
    var s := a + [';'] + b;
    assert s == " 'ls' ';'";
    var found := Listing(s);
    ListingIsReadOnly(found, policy);
    OpenQuote();
    PlainText(s);
    if Tokenized(a).Ok? {
      JudgedPieceByPiece(a, ';', b, policy);
    }
  }
}
