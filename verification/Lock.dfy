/**
 * Exclusive lock files with takeover of stale ones, as any number of runs interleaving one filesystem
 * call at a time. A run is one call of `acquireLock` and its release; what it writes into the file is
 * its own (holder, host, pid and time), so a lock file is identified by the run that created it.
 */
module Lock {
  type Run = nat

  datatype Option<T> = None | Some(value: T)

  /** The next filesystem call of a run. */
  datatype Pc =
    | Link(attempt: nat)                              // `createExclusive`: link the temporary file to the lock
    | ReadRaw(attempt: nat)                           // the lock exists: read its text
    | ReadInfo(attempt: nat, raw: Run)                // read it again, parsed
    | Judge(attempt: nat, raw: Run, held: Option<Run>) // is what was parsed stale?
    | Rename(raw: Run)                                // `removeStale`: rename the lock aside
    | Compare(raw: Run, moved: Run)                   // read what was moved
    | PutBack(raw: Run, moved: Run)                   // it is not what was judged: link it back
    | Holding
    | Unlink                                          // release: the lock was read as ours
    | Released
    | Failed

  /**
   * `file` is the run whose text the lock file holds. The two flags record whether, so far, a run created the
   * lock, or parsed it again after reading a lock, while a rename had a lock it did not judge set aside.
   */
  datatype State = State(
    file: Option<Run>, pcs: map<Run, Pc>, dead: set<Run>, createdInWindow: bool, rereadInWindow: bool)

  datatype Event = Call(run: Run, stale: bool) | Release(run: Run) | Die(run: Run)

  function At(s: State, r: Run): Pc
  {
    if r in s.pcs then s.pcs[r] else Link(0)
  }

  /** A run's rename holds a lock it did not judge, not put back yet (for good, when that run died meanwhile). */
  predicate SetsAside(pc: Pc)
  {
    (pc.Compare? || pc.PutBack?) && pc.raw != pc.moved
  }

  ghost predicate Window(s: State)
  {
    exists q :: q in s.pcs && SetsAside(s.pcs[q])
  }

  ghost predicate WindowOf(s: State, c: Run)
  {
    exists q :: q in s.pcs && SetsAside(s.pcs[q]) && s.pcs[q].moved == c
  }

  predicate Holds(pc: Pc)
  {
    pc.Holding? || pc.Unlink?
  }

  ghost predicate LiveHolder(s: State, r: Run)
  {
    Holds(At(s, r)) && r !in s.dead
  }

  /** The loop of `acquireLock`: two attempts. */
  function Retry(attempt: nat): Pc
  {
    if attempt + 1 < 2 then Link(attempt + 1) else Failed
  }

  ghost predicate Enabled(s: State, e: Event)
  {
    match e
    case Call(r, stale) =>
      r !in s.dead && !At(s, r).Holding? && !At(s, r).Released? && !At(s, r).Failed?
      // Unreadable counts as stale; only the first attempt asks
      && (At(s, r).Judge? && At(s, r).attempt == 0 && At(s, r).held.None? ==> stale)
    case Release(r) => r !in s.dead && At(s, r).Holding?
    case Die(r) => true
  }

  function Go(s: State, r: Run, pc: Pc): State
  {
    s.(pcs := s.pcs[r := pc])
  }

  ghost function Next(s: State, e: Event): State
    requires Enabled(s, e)
  {
    match e
    case Die(r) => s.(dead := s.dead + {r})
    case Release(r) => if s.file == Some(r) then Go(s, r, Unlink) else Go(s, r, Released)
    case Call(r, stale) =>
      match At(s, r)
      case Link(n) =>
        if s.file.Some? then Go(s, r, ReadRaw(n))
        else Go(s, r, Holding).(file := Some(r), createdInWindow := s.createdInWindow || Window(s))
      case ReadRaw(n) =>
        if s.file.None? then Go(s, r, Retry(n)) else Go(s, r, ReadInfo(n, s.file.value))
      case ReadInfo(n, raw) =>
        Go(s, r, Judge(n, raw, s.file)).(rereadInWindow := s.rereadInWindow || (s.file != Some(raw) && WindowOf(s, raw)))
      case Judge(n, raw, _) => Go(s, r, if n == 0 && stale then Rename(raw) else Failed)
      case Rename(raw) =>
        if s.file.None? then Go(s, r, Retry(0)) else Go(s, r, Compare(raw, s.file.value)).(file := None)
      case Compare(raw, moved) => Go(s, r, if moved != raw then PutBack(raw, moved) else Retry(0))
      case PutBack(_, moved) => Go(s, r, Retry(0)).(file := if s.file.None? then Some(moved) else s.file)
      case Unlink => Go(s, r, Released).(file := None)
      case _ => s
  }

  /** Only what a dead run wrote is judged stale. */
  ghost predicate OnlyDeadJudged(s: State, e: Event)
  {
    e.Call? && e.stale && At(s, e.run).Judge? && At(s, e.run).held.Some? ==> At(s, e.run).held.value in s.dead
  }

  ghost predicate Reaches(s: State, run: seq<Event>, z: State)
    decreases |run|
  {
    if run == [] then z == s
    else Enabled(s, run[0]) && OnlyDeadJudged(s, run[0]) && Reaches(Next(s, run[0]), run[1..], z)
  }

  // ── The invariant ──────────────────────────────────────────────────────────

  /** Has put its text under the lock's name at some time; stays so. */
  predicate Created(pc: Pc)
  {
    Holds(pc) || pc.Released?
  }

  ghost predicate Finished(s: State, r: Run)
  {
    Created(At(s, r)) && !LiveHolder(s, r)
  }

  /** What a run remembers of the lock: texts that were created, and once judged, of finished runs. */
  ghost predicate Remembers(s: State, pc: Pc)
  {
    match pc
    case ReadInfo(_, raw) => Created(At(s, raw))
    case Judge(_, raw, held) =>
      && Created(At(s, raw)) && (held.Some? ==> Created(At(s, held.value)))
      && (held != Some(raw) ==> Finished(s, raw))
    case Rename(raw) => Finished(s, raw)
    case Compare(raw, moved) => Finished(s, raw) && Created(At(s, moved))
    case PutBack(raw, moved) => Finished(s, raw) && Created(At(s, moved)) && raw != moved
    case _ => true
  }

  /** There is one lock: in place, or set aside by one run. */
  ghost predicate OneLock(s: State)
  {
    && (s.file.Some? ==> !Window(s) && Created(At(s, s.file.value)))
    && (forall q, p :: q in s.pcs && p in s.pcs && SetsAside(s.pcs[q]) && SetsAside(s.pcs[p]) ==> q == p)
  }

  ghost predicate HoldersHaveIt(s: State)
  {
    forall h :: h in s.pcs && LiveHolder(s, h) ==> s.file == Some(h) || WindowOf(s, h)
  }

  ghost predicate Inv(s: State)
  {
    && OneLock(s) && HoldersHaveIt(s)
    && (forall q :: q in s.pcs ==> Remembers(s, s.pcs[q]))
  }

  ghost predicate Initial(s: State)
  {
    s == State(None, map[], {}, false, false)
  }

  /** Moving run `r` on, without undoing what it created, keeps what the others remember. */
  lemma MemoriesKeep(s: State, z: State, r: Run)
    requires forall q :: q in s.pcs ==> Remembers(s, s.pcs[q])
    requires z.pcs == s.pcs[r := At(z, r)] && s.dead <= z.dead
    requires Created(At(s, r)) ==> Created(At(z, r)) && (LiveHolder(z, r) ==> LiveHolder(s, r))
    requires Remembers(z, At(z, r))
    ensures forall q :: q in z.pcs ==> Remembers(z, z.pcs[q])
  {
    forall q | q in z.pcs ensures Remembers(z, z.pcs[q]) {
      if q != r {
        assert q in s.pcs && Remembers(s, s.pcs[q]);
      }
    }
  }

  lemma NoNewWindow(s: State, z: State, r: Run)
    requires z.pcs == s.pcs || z.pcs == s.pcs[r := At(z, r)]
    requires SetsAside(At(z, r)) ==> r in s.pcs && SetsAside(s.pcs[r])
    ensures Window(z) ==> Window(s)
  {
    if Window(z) {
      var q :| q in z.pcs && SetsAside(z.pcs[q]);
      assert q in s.pcs && SetsAside(s.pcs[q]);
    }
  }

  /** A step that neither moves the lock nor changes who holds it. */
  lemma QuietStep(s: State, z: State, r: Run)
    requires Inv(s) && z.file == s.file && z.dead == s.dead && z.pcs == s.pcs[r := At(z, r)]
    requires !Holds(At(s, r)) && !Holds(At(z, r)) && Created(At(z, r)) == Created(At(s, r))
    requires SetsAside(At(z, r)) == SetsAside(At(s, r)) && (SetsAside(At(z, r)) ==> At(z, r).moved == At(s, r).moved)
    requires SetsAside(At(s, r)) ==> r in s.pcs
    requires Remembers(z, At(z, r))
    ensures Inv(z)
  {
    MemoriesKeep(s, z, r);
    forall h | h in z.pcs && LiveHolder(z, h) ensures z.file == Some(h) || WindowOf(z, h) {
      assert h != r && h in s.pcs && LiveHolder(s, h);
      if WindowOf(s, h) {
        var q :| q in s.pcs && SetsAside(s.pcs[q]) && s.pcs[q].moved == h;
        assert q in z.pcs && SetsAside(z.pcs[q]) && z.pcs[q].moved == h;
      }
    }
    NoNewWindow(s, z, r);
  }

  lemma CreateStep(s: State, e: Event)
    requires Inv(s) && Enabled(s, e) && e.Call? && At(s, e.run).Link? && s.file.None? && !Window(s)
    ensures Inv(Next(s, e))
  {
    var z := Next(s, e);
    var r := e.run;
    MemoriesKeep(s, z, r);
    forall h | h in z.pcs && h != r ensures !LiveHolder(z, h) {
      if LiveHolder(z, h) {
        assert LiveHolder(s, h);
      }
    }
  }

  lemma RenameStep(s: State, e: Event)
    requires Inv(s) && Enabled(s, e) && e.Call? && At(s, e.run).Rename? && s.file.Some?
    ensures Inv(Next(s, e))
  {
    var z := Next(s, e);
    var r := e.run;
    assert r in s.pcs;
    MemoriesKeep(s, z, r);
    forall h | h in z.pcs && LiveHolder(z, h) ensures WindowOf(z, h) {
      assert LiveHolder(s, h) && s.file == Some(h);
      assert r in z.pcs && z.pcs[r].moved == h;
    }
  }

  lemma PutBackStep(s: State, e: Event)
    requires Inv(s) && Enabled(s, e) && e.Call? && At(s, e.run).PutBack?
    ensures Inv(Next(s, e))
  {
    var z := Next(s, e);
    var r := e.run;
    assert r in s.pcs && SetsAside(s.pcs[r]);
    assert s.file.None?;
    MemoriesKeep(s, z, r);
    forall h | h in z.pcs && LiveHolder(z, h) ensures z.file == Some(h) {
      assert LiveHolder(s, h) && WindowOf(s, h);
    }
    forall q | q in z.pcs ensures !SetsAside(z.pcs[q]) {
      if q != r && SetsAside(s.pcs[q]) {
        assert false;
      }
    }
  }

  lemma ReleaseStep(s: State, z: State, r: Run)
    requires Inv(s) && z.dead == s.dead && r in s.pcs && Holds(At(s, r)) && r !in s.dead
    requires z.pcs == s.pcs[r := Released]
    requires z.file == (if At(s, r).Unlink? then None else s.file) && (At(s, r).Holding? ==> s.file != Some(r))
    ensures Inv(z)
  {
    MemoriesKeep(s, z, r);
    forall h | h in z.pcs ensures !LiveHolder(z, h) {
      if LiveHolder(z, h) {
        OneHolder(s, h, r);
      }
    }
    NoNewWindow(s, z, r);
  }

  lemma DieStep(s: State, r: Run)
    requires Inv(s)
    ensures Inv(Next(s, Die(r)))
  {
    var z := Next(s, Die(r));
    forall q | q in z.pcs ensures Remembers(z, z.pcs[q]) {
      assert Remembers(s, s.pcs[q]);
    }
    forall h | h in z.pcs && LiveHolder(z, h) ensures z.file == Some(h) || WindowOf(z, h) {
      assert LiveHolder(s, h);
      if WindowOf(s, h) {
        var q :| q in s.pcs && SetsAside(s.pcs[q]) && s.pcs[q].moved == h;
        assert q in z.pcs && SetsAside(z.pcs[q]) && z.pcs[q].moved == h;
      }
    }
    NoNewWindow(s, z, r);
  }

  lemma OneHolder(s: State, h: Run, g: Run)
    requires Inv(s) && h in s.pcs && g in s.pcs && LiveHolder(s, h) && LiveHolder(s, g)
    ensures h == g
  {
    if WindowOf(s, h) {
      assert Window(s);
    }
    if WindowOf(s, g) {
      assert Window(s);
    }
  }

  lemma StepKeeps(s: State, e: Event)
    requires Inv(s) && Enabled(s, e) && OnlyDeadJudged(s, e)
    requires !Next(s, e).createdInWindow && !Next(s, e).rereadInWindow
    ensures Inv(Next(s, e))
  {
    var z := Next(s, e);
    match e
    case Die(r) => DieStep(s, r);
    case Release(r) =>
      assert r in s.pcs;
      if s.file == Some(r) {
        MemoriesKeep(s, z, r);
        forall h | h in z.pcs && LiveHolder(z, h) ensures z.file == Some(h) {
          assert LiveHolder(s, h);
          OneHolder(s, h, r);
        }
        NoNewWindow(s, z, r);
      } else {
        ReleaseStep(s, z, r);
      }
    case Call(r, stale) =>
      if At(s, r).Link? && s.file.None? {
        CreateStep(s, e);
      } else if At(s, r).Rename? && s.file.Some? {
        RenameStep(s, e);
      } else if At(s, r).PutBack? {
        PutBackStep(s, e);
      } else if At(s, r).Unlink? {
        ReleaseStep(s, z, r);
      } else if At(s, r).ReadInfo? {
        ParseAgain(s, e);
      } else {
        QuietStep(s, z, r);
      }
  }

  /** A live holder's text, read once, is what the second read finds too, unless it was set aside in between. */
  lemma ParseAgain(s: State, e: Event)
    requires Inv(s) && Enabled(s, e) && e.Call? && At(s, e.run).ReadInfo? && !Next(s, e).rereadInWindow
    ensures Inv(Next(s, e))
  {
    var z := Next(s, e);
    var r := e.run;
    var raw := At(s, r).raw;
    assert r in s.pcs && Remembers(s, s.pcs[r]);
    assert LiveHolder(s, raw) ==> raw in s.pcs;
    assert s.file != Some(raw) ==> !LiveHolder(s, raw);
    QuietStep(s, z, r);
  }

  lemma FlagsStay(s: State, run: seq<Event>, z: State)
    requires Reaches(s, run, z)
    ensures s.createdInWindow ==> z.createdInWindow
    ensures s.rereadInWindow ==> z.rereadInWindow
    decreases |run|
  {
    if run != [] {
      FlagsStay(Next(s, run[0]), run[1..], z);
    }
  }

  lemma {:induction false} RunKeeps(s: State, run: seq<Event>, z: State)
    requires Inv(s) && Reaches(s, run, z) && !z.createdInWindow && !z.rereadInWindow
    ensures Inv(z)
    decreases |run|
  {
    if run != [] {
      FlagsStay(Next(s, run[0]), run[1..], z);
      StepKeeps(s, run[0]);
      RunKeeps(Next(s, run[0]), run[1..], z);
    }
  }

  /**
   * Mutual exclusion, over every run: when only dead runs are judged stale, two live runs hold the lock only if some
   * run created it, or parsed a lock it had just read, while a rename had a lock it did not judge set aside.
   */
  lemma Exclusion(s: State, run: seq<Event>, z: State, h: Run, g: Run)
    requires Initial(s) && Reaches(s, run, z)
    requires LiveHolder(z, h) && LiveHolder(z, g) && h != g
    ensures z.createdInWindow || z.rereadInWindow
  {
    if !z.createdInWindow && !z.rereadInWindow {
      RunKeeps(s, run, z);
      OneHolder(z, h, g);
    }
  }

  ghost predicate TwoHold(s: State)
  {
    exists h, g :: h != g && LiveHolder(s, h) && LiveHolder(s, g)
  }

  /** An event creates the lock while a live run's lock is set aside. */
  ghost predicate CreatesOver(s: State, e: Event)
  {
    e.Call? && At(s, e.run).Link? && s.file.None? && exists h :: LiveHolder(s, h) && WindowOf(s, h)
  }

  /** While no run has used a window, the next event breaks exclusion exactly if it creates the lock over a live run's. */
  lemma BrokenByCreating(s: State, run: seq<Event>, z: State, e: Event)
    requires Initial(s) && Reaches(s, run, z) && !z.createdInWindow && !z.rereadInWindow
    requires Enabled(z, e)
    ensures TwoHold(Next(z, e)) <==> CreatesOver(z, e)
  {
    RunKeeps(s, run, z);
    var y := Next(z, e);
    if TwoHold(y) {
      var h, g :| h != g && LiveHolder(y, h) && LiveHolder(y, g);
      HoldersComeFrom(z, e, h);
      HoldersComeFrom(z, e, g);
      if LiveHolder(z, h) && LiveHolder(z, g) {
        OneHolder(z, h, g);
      }
      var other := if LiveHolder(z, h) then h else g;
      assert other in z.pcs && WindowOf(z, other);
    }
    if CreatesOver(z, e) {
      var h :| LiveHolder(z, h) && WindowOf(z, h);
      assert h != e.run && LiveHolder(y, h) && LiveHolder(y, e.run);
    }
  }

  lemma HoldersComeFrom(s: State, e: Event, h: Run)
    requires Enabled(s, e) && LiveHolder(Next(s, e), h)
    ensures LiveHolder(s, h) || (e.Call? && e.run == h && At(s, h).Link? && s.file.None?)
  {
  }

  /** Outside those windows a release takes away no lock but the run's own. */
  lemma ReleaseRemovesOwn(s: State, run: seq<Event>, z: State, e: Event)
    requires Initial(s) && Reaches(s, run, z) && !z.createdInWindow && !z.rereadInWindow
    requires Enabled(z, e) && e.Call? && At(z, e.run).Unlink?
    ensures z.file == None || z.file == Some(e.run)
    ensures Next(z, e).file == None
  {
    RunKeeps(s, run, z);
    assert e.run in z.pcs;
    if WindowOf(z, e.run) {
      assert Window(z);
    }
  }

  /** And a live holder whose lock nobody set aside still has it in place. */
  lemma HolderHasTheLock(s: State, run: seq<Event>, z: State, h: Run)
    requires Initial(s) && Reaches(s, run, z) && !z.createdInWindow && !z.rereadInWindow
    requires LiveHolder(z, h)
    ensures z.file == Some(h) || (z.file == None && WindowOf(z, h))
  {
    RunKeeps(s, run, z);
    assert h in z.pcs;
    if WindowOf(z, h) {
      assert Window(z);
    }
  }

  // ── What a run does when the others stand still ────────────────────────────

  /** `n` calls of run `r` in a row take `s` to `z`; `stale` is what it judges the lock it finds to be. */
  ghost predicate Alone(s: State, r: Run, stale: bool, n: nat, z: State)
    decreases n
  {
    if n == 0 then z == s else Enabled(s, Call(r, stale)) && Alone(Next(s, Call(r, stale)), r, stale, n - 1, z)
  }

  /** One more call in front. */
  lemma OneCall(s: State, r: Run, stale: bool, n: nat, m: State, z: State)
    requires Enabled(s, Call(r, stale)) && Next(s, Call(r, stale)) == m && Alone(m, r, stale, n, z)
    ensures Alone(s, r, stale, n + 1, z)
  {
  }

  ghost predicate Begins(s: State, r: Run)
  {
    At(s, r) == Link(0) && r !in s.dead
  }

  /** With no lock there, the first call gets it. */
  lemma FreeLockIsTaken(s: State, r: Run, stale: bool)
    requires Begins(s, r) && s.file.None?
    ensures Enabled(s, Call(r, stale))
    ensures var z := Next(s, Call(r, stale)); z.file == Some(r) && LiveHolder(z, r) && z.pcs == s.pcs[r := Holding]
  {
  }

  /** A lock judged live is left alone, after four calls. */
  lemma LiveLockIsRefused(s: State, r: Run, d: Run) returns (z: State)
    requires Begins(s, r) && s.file == Some(d)
    ensures Alone(s, r, false, 4, z) && z == s.(pcs := s.pcs[r := Failed])
  {
    hide Window, WindowOf;
    var s1, s2 := Go(s, r, ReadRaw(0)), Go(s, r, ReadInfo(0, d));
    var s3 := Go(s, r, Judge(0, d, Some(d)));
    z := Go(s, r, Failed);
    assert s1.pcs[r := ReadInfo(0, d)] == s2.pcs && s2.pcs[r := Judge(0, d, Some(d))] == s3.pcs && s3.pcs[r := Failed] == z.pcs;
    OneCall(s3, r, false, 0, z, z);
    OneCall(s2, r, false, 1, s3, z);
    OneCall(s1, r, false, 2, s2, z);
    OneCall(s, r, false, 3, s1, z);
  }

  /** A stale one is removed and replaced, after seven; nobody else's place changes. */
  lemma StaleLockIsReplaced(s: State, r: Run, d: Run) returns (z: State)
    requires Begins(s, r) && s.file == Some(d) && !Window(s) && r != d
    ensures Alone(s, r, true, 7, z) && z == s.(file := Some(r), pcs := s.pcs[r := Holding])
  {
    var s4 := Go(s, r, Rename(d));
    z := Go(s, r, Holding).(file := Some(r));
    RemovedAndTaken(s, s4, r, d, z);
    hide Window, WindowOf;
    var s1, s2 := Go(s, r, ReadRaw(0)), Go(s, r, ReadInfo(0, d));
    var s3 := Go(s, r, Judge(0, d, Some(d)));
    assert s1.pcs[r := ReadInfo(0, d)] == s2.pcs && s2.pcs[r := Judge(0, d, Some(d))] == s3.pcs && s3.pcs[r := Rename(d)] == s4.pcs;
    OneCall(s3, r, true, 3, s4, z);
    OneCall(s2, r, true, 4, s3, z);
    OneCall(s1, r, true, 5, s2, z);
    OneCall(s, r, true, 6, s1, z);
  }

  lemma RemovedAndTaken(s: State, s4: State, r: Run, d: Run, z: State)
    requires s.file == Some(d) && !Window(s) && r !in s.dead && At(s, r) == Link(0)
    requires s4 == Go(s, r, Rename(d)) && z == Go(s, r, Holding).(file := Some(r))
    ensures Alone(s4, r, true, 3, z)
  {
    var s5 := Go(s, r, Compare(d, d)).(file := None);
    var s6 := Go(s, r, Link(1)).(file := None);
    assert s4.pcs[r := Compare(d, d)] == s5.pcs && s5.pcs[r := Link(1)] == s6.pcs && s6.pcs[r := Holding] == z.pcs;
    NoNewWindow(s, s6, r);
    hide Window, WindowOf;
    OneCall(s6, r, true, 0, z, z);
    OneCall(s5, r, true, 1, s6, z);
    OneCall(s4, r, true, 2, s5, z);
  }

  /** Released where nobody set it aside, a lock is gone after one call. */
  lemma ReleaseFrees(s: State, r: Run)
    requires At(s, r) == Holding && r !in s.dead && s.file == Some(r)
    ensures Enabled(s, Release(r)) && Enabled(Next(s, Release(r)), Call(r, false))
    ensures Next(Next(s, Release(r)), Call(r, false)) == s.(file := None, pcs := s.pcs[r := Released])
  {
    assert s.pcs[r := Unlink][r := Released] == s.pcs[r := Released];
  }

  // ── Both exceptions happen ─────────────────────────────────────────────────

  const START := State(None, map[], {}, false, false)

  /** The calls a run has yet to make at most. */
  function CallsLeft(pc: Pc): nat
  {
    match pc
    case Link(n) => if n == 0 then 11 else 4
    case ReadRaw(n) => if n == 0 then 10 else 3
    case ReadInfo(n, _) => if n == 0 then 9 else 2
    case Judge(n, _, _) => if n == 0 then 8 else 1
    case Rename(_) => 7
    case Compare(_, _) => 6
    case PutBack(_, _) => 5
    case Holding => 1
    case Unlink => 1
    case _ => 0
  }

  /** The calls of `r` in a run of events. */
  ghost function CallsOf(run: seq<Event>, r: Run): nat
  {
    if run == [] then 0 else (if IsCallOf(run[0], r) then 1 else 0) + CallsOf(run[1..], r)
  }

  predicate IsCallOf(e: Event, r: Run)
  {
    e.Call? && e.run == r
  }

  lemma CallIsCounted(s: State, e: Event, r: Run)
    requires Enabled(s, e)
    ensures CallsLeft(At(Next(s, e), r)) + (if IsCallOf(e, r) then 1 else 0) <= CallsLeft(At(s, r))
  {
    if IsCallOf(e, r) {
      var z := Next(s, e);
      assert At(z, r) == z.pcs[r];
    } else {
      OthersStand(s, e, r);
    }
  }

  lemma OthersStand(s: State, e: Event, r: Run)
    requires Enabled(s, e) && !IsCallOf(e, r)
    ensures At(Next(s, e), r) == At(s, r) || (At(s, r).Holding? && (At(Next(s, e), r).Unlink? || At(Next(s, e), r).Released?))
  {
  }

  lemma {:induction false} CallsRunOut(s: State, run: seq<Event>, z: State, r: Run)
    requires Reaches(s, run, z)
    ensures CallsOf(run, r) + CallsLeft(At(z, r)) <= CallsLeft(At(s, r))
    decreases |run|
  {
    if run != [] {
      CallIsCounted(s, run[0], r);
      hide Next, Enabled, CallsLeft, At;
      CallsRunOut(Next(s, run[0]), run[1..], z, r);
    }
  }

  /** Nobody waits or retries forever: whatever the others do, a run makes at most eleven calls, its release included. */
  lemma AcquiringEnds(s: State, run: seq<Event>, z: State, r: Run)
    requires Initial(s) && Reaches(s, run, z)
    ensures CallsOf(run, r) <= 11
  {
    CallsRunOut(s, run, z, r);
  }

  lemma {:induction false} Extend(s: State, run: seq<Event>, m: State, e: Event)
    requires Reaches(s, run, m) && Enabled(m, e) && OnlyDeadJudged(m, e)
    ensures Reaches(s, run + [e], Next(m, e))
    decreases |run|
  {
    if run == [] {
      assert (run + [e])[1..] == [];
    } else {
      Extend(Next(s, run[0]), run[1..], m, e);
      assert (run + [e])[1..] == run[1..] + [e];
    }
  }

  ghost predicate Reachable(z: State)
  {
    exists run :: Reaches(START, run, z)
  }

  lemma Then(m: State, e: Event, z: State)
    requires Reachable(m) && Enabled(m, e) && OnlyDeadJudged(m, e) && z == Next(m, e)
    ensures Reachable(z)
  {
    var run :| Reaches(START, run, m);
    Extend(START, run, m, e);
  }

  /** Run 0 died holding the lock; runs 1 and 2 judged it; run 2 took it over and run 1 has yet to rename it. */
  function TakenOver(): State
  {
    State(Some(2), map[0 := Holding, 1 := Rename(0), 2 := Holding], {0}, false, false)
  }

  lemma JudgesDead(m: State, r: Run, z: State)
    requires Reachable(m) && m.file == Some(0) && 0 in m.dead && r !in m.dead && r !in m.pcs
    requires z == m.(pcs := m.pcs[r := Rename(0)])
    ensures Reachable(z)
  {
    hide Reachable, Window, WindowOf;
    var m1 := m.(pcs := m.pcs[r := ReadRaw(0)]);
    var m2 := m.(pcs := m.pcs[r := ReadInfo(0, 0)]);
    var m3 := m.(pcs := m.pcs[r := Judge(0, 0, Some(0))]);
    Then(m, Call(r, false), m1);
    assert m1.pcs[r := ReadInfo(0, 0)] == m2.pcs;
    Then(m1, Call(r, false), m2);
    ParsesDead(m2, r, m3, z);
  }

  lemma ParsesDead(m: State, r: Run, n: State, z: State)
    requires Reachable(m) && m.file == Some(0) && 0 in m.dead && r !in m.dead && At(m, r) == ReadInfo(0, 0)
    requires n == m.(pcs := m.pcs[r := Judge(0, 0, Some(0))]) && z == m.(pcs := m.pcs[r := Rename(0)])
    ensures Reachable(z)
  {
    hide Reachable, Window, WindowOf;
    Then(m, Call(r, false), n);
    assert n.pcs[r := Rename(0)] == z.pcs;
    Then(n, Call(r, true), z);
  }

  lemma BothJudge() returns (z: State)
    ensures z == State(Some(0), map[0 := Holding, 1 := Rename(0), 2 := Rename(0)], {0}, false, false)
    ensures Reachable(z)
  {
    assert Reaches(START, [], START);
    var s1 := State(Some(0), map[0 := Holding], {}, false, false);
    Then(START, Call(0, false), s1);
    var s2 := s1.(dead := {0});
    Then(s1, Die(0), s2);
    var s3 := s2.(pcs := map[0 := Holding, 1 := Rename(0)]);
    JudgesDead(s2, 1, s3);
    z := s2.(pcs := map[0 := Holding, 1 := Rename(0), 2 := Rename(0)]);
    JudgesDead(s3, 2, z);
  }

  lemma TakenOverIsReached()
    ensures Reachable(TakenOver())
  {
    var s4 := BothJudge();
    hide Reachable;
    var s5 := s4.(file := None, pcs := map[0 := Holding, 1 := Rename(0), 2 := Compare(0, 0)]);
    Then(s4, Call(2, false), s5);
    var s6 := s4.(file := None, pcs := map[0 := Holding, 1 := Rename(0), 2 := Link(1)]);
    Then(s5, Call(2, false), s6);
    assert !Window(s6);
    Then(s6, Call(2, false), TakenOver());
  }

  /** Created in the window: run 1's late rename moves run 2's lock, and run 3 finds none. */
  lemma CreatingInTheWindow()
    ensures exists z :: Reachable(z) && LiveHolder(z, 2) && LiveHolder(z, 3) && z.createdInWindow && !z.rereadInWindow
  {
    TakenOverIsReached();
    var s := TakenOver();
    var s1 := s.(file := None, pcs := s.pcs[1 := Compare(0, 2)]);
    Then(s, Call(1, false), s1);
    assert 1 in s1.pcs && SetsAside(s1.pcs[1]);
    var z := s1.(file := Some(3), pcs := s1.pcs[3 := Holding], createdInWindow := true);
    Then(s1, Call(3, false), z);
  }

  /** Run 4 has judged run 2's lock, and run 1 is done with it again. */
  lemma LiveLockJudged() returns (z: State)
    ensures z == State(Some(2), map[0 := Holding, 1 := Link(1), 2 := Holding, 4 := Rename(2)], {0}, false, true)
    ensures Reachable(z)
  {
    TakenOverIsReached();
    var s := TakenOver();
    var s1 := s.(pcs := s.pcs[4 := ReadRaw(0)]);
    Then(s, Call(4, false), s1);
    var s2 := s.(pcs := map[0 := Holding, 1 := Rename(0), 2 := Holding, 4 := ReadInfo(0, 2)]);
    Then(s1, Call(4, false), s2);
    z := SetAsideRead(s2);
  }

  lemma SetAsideRead(s2: State) returns (z: State)
    requires s2 == TakenOver().(pcs := map[0 := Holding, 1 := Rename(0), 2 := Holding, 4 := ReadInfo(0, 2)]) && Reachable(s2)
    ensures z == State(Some(2), map[0 := Holding, 1 := Link(1), 2 := Holding, 4 := Rename(2)], {0}, false, true)
    ensures Reachable(z)
  {
    var s3 := s2.(file := None, pcs := map[0 := Holding, 1 := Compare(0, 2), 2 := Holding, 4 := ReadInfo(0, 2)]);
    Then(s2, Call(1, false), s3);
    assert 1 in s3.pcs && SetsAside(s3.pcs[1]) && s3.pcs[1].moved == 2;
    z := PutBackJudged(s3);
  }

  lemma PutBackJudged(s3: State) returns (z: State)
    requires s3 == State(None, map[0 := Holding, 1 := Compare(0, 2), 2 := Holding, 4 := ReadInfo(0, 2)], {0}, false, false)
    requires Reachable(s3) && WindowOf(s3, 2)
    ensures z == State(Some(2), map[0 := Holding, 1 := Link(1), 2 := Holding, 4 := Rename(2)], {0}, false, true)
    ensures Reachable(z)
  {
    hide Reachable, Window, WindowOf;
    var s4 := s3.(pcs := s3.pcs[4 := Judge(0, 2, None)], rereadInWindow := true);
    Then(s3, Call(4, false), s4);
    var s5 := s4.(pcs := s4.pcs[1 := PutBack(0, 2)]);
    Then(s4, Call(1, false), s5);
    z := PutBackRead(s5);
  }

  lemma PutBackRead(s5: State) returns (z: State)
    requires s5 == State(None, map[0 := Holding, 1 := PutBack(0, 2), 2 := Holding, 4 := Judge(0, 2, None)], {0}, false, true)
    requires Reachable(s5)
    ensures z == State(Some(2), map[0 := Holding, 1 := Link(1), 2 := Holding, 4 := Rename(2)], {0}, false, true)
    ensures Reachable(z)
  {
    var s6 := s5.(file := Some(2), pcs := s5.pcs[1 := Link(1)]);
    Then(s5, Call(1, false), s6);
    z := s6.(pcs := map[0 := Holding, 1 := Link(1), 2 := Holding, 4 := Rename(2)]);
    assert s6.pcs[4 := Rename(2)] == z.pcs;
    Then(s6, Call(4, true), z);
  }

  /**
   * No lock is ever created in the window, and yet two live runs hold it: run 4 reads run 2's text, finds no lock
   * when it parses it (it is set aside), so counts it as stale, and removes it once it is put back.
   */
  lemma ParsingInTheWindow()
    ensures exists z :: Reachable(z) && LiveHolder(z, 2) && LiveHolder(z, 4) && !z.createdInWindow
  {
    var s7 := LiveLockJudged();
    var s9 := LiveLockRemoved(s7);
    hide Reachable;
    var z := s9.(file := Some(4), pcs := s9.pcs[4 := Holding]);
    Then(s9, Call(4, false), z);
  }

  lemma LiveLockRemoved(s7: State) returns (s9: State)
    requires s7 == State(Some(2), map[0 := Holding, 1 := Link(1), 2 := Holding, 4 := Rename(2)], {0}, false, true)
    requires Reachable(s7)
    ensures s9 == State(None, map[0 := Holding, 1 := Link(1), 2 := Holding, 4 := Link(1)], {0}, false, true)
    ensures Reachable(s9) && !Window(s9)
  {
    hide Reachable;
    var s8 := s7.(file := None, pcs := s7.pcs[4 := Compare(2, 2)]);
    Then(s7, Call(4, false), s8);
    s9 := s8.(pcs := map[0 := Holding, 1 := Link(1), 2 := Holding, 4 := Link(1)]);
    assert s8.pcs[4 := Link(1)] == s9.pcs;
    Then(s8, Call(4, false), s9);
  }

  /** A lock released while it is set aside comes back: its run is done, the file is there again. */
  lemma ReleasedLockReturns()
    ensures exists z :: Reachable(z) && At(z, 2) == Released && z.file == Some(2) && !z.createdInWindow && !z.rereadInWindow
  {
    TakenOverIsReached();
    var s := TakenOver();
    var s1 := s.(file := None, pcs := s.pcs[1 := Compare(0, 2)]);
    Then(s, Call(1, false), s1);
    var s2 := s1.(pcs := s1.pcs[2 := Released]);
    Then(s1, Release(2), s2);
    var z := PutsBackReleased(s2);
  }

  lemma PutsBackReleased(s2: State) returns (z: State)
    requires s2 == State(None, TakenOver().pcs[1 := Compare(0, 2)][2 := Released], {0}, false, false) && Reachable(s2)
    ensures Reachable(z) && At(z, 2) == Released && z.file == Some(2) && !z.createdInWindow && !z.rereadInWindow
  {
    var s3 := s2.(pcs := s2.pcs[1 := PutBack(0, 2)]);
    Then(s2, Call(1, false), s3);
    z := s3.(file := Some(2), pcs := s3.pcs[1 := Link(1)]);
    Then(s3, Call(1, false), z);
  }
}
