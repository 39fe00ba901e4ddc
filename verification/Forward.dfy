/**
 * Audit forwarding: one org's log, its forwarder row and the delivery loop, with inserts, edits and the
 * clock moving between any two of the loop's steps. Times are milliseconds.
 */
module Forward {
  const BATCH_SIZE := 200
  const MAX_BATCHES_PER_TICK := 10
  const SETTLE_MS := 15000
  const BACKOFF_BASE_MS := 30000
  const BACKOFF_MAX_MS := 15 * 60000

  datatype Option<T> = None | Some(value: T)

  /** A position in the log's order: time of creation, then row id. */
  datatype Pos = Pos(createdAt: int, rowid: int)

  predicate Before(a: Pos, b: Pos)
  {
    a.createdAt < b.createdAt || (a.createdAt == b.createdAt && a.rowid < b.rowid)
  }

  /** The forwarder row; `config` stands for the encrypted text, new with every save. `start` is where it began. */
  datatype Forwarder = Forwarder(enabled: bool, config: nat, cursor: Pos, failed: bool, start: Pos)

  datatype Backoff = Backoff(failures: nat, until: int)

  datatype Loop =
    | Idle
    | Next(settledBefore: int, batch: nat, wait: Option<Backoff>, now: int)
    | Sending(settledBefore: int, batch: nat, wait: Option<Backoff>, now: int, config: nat, pending: seq<Pos>)

  /** `accepted` are the rows a target took, ever; `saves` counts the configurations used so far. */
  datatype State = State(
    now: int, log: seq<Pos>, row: Option<Forwarder>, saves: nat, backoff: Option<Backoff>, loop: Loop, accepted: set<Pos>)

  // ── The query ──────────────────────────────────────────────────────────────

  function Insert(p: Pos, s: seq<Pos>): seq<Pos>
  {
    if s == [] || Before(p, s[0]) then [p] + s else [s[0]] + Insert(p, s[1..])
  }

  function Matching(log: seq<Pos>, cursor: Pos, settledBefore: int): seq<Pos>
  {
    if log == [] then []
    else
      var rest := Matching(log[1..], cursor, settledBefore);
      if log[0].createdAt <= settledBefore && Before(cursor, log[0]) then Insert(log[0], rest) else rest
  }

  /** `pendingRows`: rows after the cursor and settled, in order, a batch of them. */
  function PendingRows(log: seq<Pos>, cursor: Pos, settledBefore: int): seq<Pos>
  {
    var all := Matching(log, cursor, settledBefore);
    if |all| <= BATCH_SIZE then all else all[..BATCH_SIZE]
  }

  ghost predicate Ordered(s: seq<Pos>)
  {
    forall i, j :: 0 <= i < j < |s| ==> !Before(s[j], s[i])
  }

  lemma {:induction false} InsertOrders(p: Pos, s: seq<Pos>)
    requires Ordered(s)
    ensures Ordered(Insert(p, s))
    ensures forall q :: q in Insert(p, s) <==> q == p || q in s
  {
    if s != [] && !Before(p, s[0]) {
      InsertOrders(p, s[1..]);
      var t := Insert(p, s[1..]);
      forall j | 0 <= j < |t| ensures !Before(t[j], s[0]) {
        assert t[j] in t;
        if t[j] != p {
          var i :| 0 <= i < |s[1..]| && s[1..][i] == t[j];
          assert s[i + 1] == t[j];
        }
      }
    } else {
      forall j | 0 <= j < |s| ensures !Before(s[j], p) {
      }
    }
  }

  lemma {:induction false} MatchingIs(log: seq<Pos>, cursor: Pos, settledBefore: int)
    ensures Ordered(Matching(log, cursor, settledBefore))
    ensures forall q :: q in Matching(log, cursor, settledBefore) <==>
              q in log && q.createdAt <= settledBefore && Before(cursor, q)
  {
    if log != [] {
      MatchingIs(log[1..], cursor, settledBefore);
      InsertOrders(log[0], Matching(log[1..], cursor, settledBefore));
      assert forall q :: q in log <==> q == log[0] || q in log[1..];
    }
  }

  /** A batch holds every settled row after the cursor up to its own last one. */
  lemma PendingIs(log: seq<Pos>, cursor: Pos, settledBefore: int)
    ensures var p := PendingRows(log, cursor, settledBefore);
            && (forall q :: q in p ==> q in log && q.createdAt <= settledBefore && Before(cursor, q))
            && (p != [] ==> forall q :: q in log && Before(cursor, q) && !Before(p[|p| - 1], q) ==> q in p)
            && (p == [] ==> forall q :: q in log && Before(cursor, q) ==> q.createdAt > settledBefore)
  {
    MatchingIs(log, cursor, settledBefore);
    var all := Matching(log, cursor, settledBefore);
    var p := PendingRows(log, cursor, settledBefore);
    forall q | q in p ensures q in all {
    }
    if p != [] {
      assert p[|p| - 1] in p;
      forall q | q in log && Before(cursor, q) && !Before(p[|p| - 1], q) ensures q in p {
        assert q in all;
        var i :| 0 <= i < |all| && all[i] == q;
        if i >= |p| {
          assert !Before(all[i], all[|p| - 1]);
          assert all[i] == all[|p| - 1];
        }
      }
    }
  }

  // ── Steps ──────────────────────────────────────────────────────────────────

  datatype Event =
    | Clock(now: int)
    | Commit(createdAt: int)
    | Save(enabled: bool)
    | Create(enabled: bool)
    | Remove
    | Start
    | Query
    | Delivered
    | Refused(taken: set<Pos>)

  /** Ids rise, and a row commits no later than the settle time after the time written in it. */
  ghost predicate Enabled(s: State, e: Event)
  {
    match e
    case Clock(now) => now >= s.now
    case Commit(createdAt) => createdAt <= s.now <= createdAt + SETTLE_MS
    case Save(_) => s.row.Some?
    case Create(_) => s.row.None?
    case Remove => true
    case Start => s.loop.Idle? && (s.backoff.Some? ==> s.now >= s.backoff.value.until)
    case Query => s.loop.Next?
    case Delivered => s.loop.Sending?
    case Refused(taken) => s.loop.Sending? && forall q :: q in taken ==> q in s.loop.pending
  }

  function NextRowid(log: seq<Pos>): int
  {
    |log| + 1
  }

  /** The last row in order: where a new forwarder starts. */
  function Last(log: seq<Pos>): Pos
  {
    if log == [] then Pos(-1, 0)
    else
      var l := Last(log[1..]);
      if log[1..] == [] || Before(l, log[0]) then log[0] else l
  }

  function Pow2(n: nat): nat
  {
    if n == 0 then 1 else 2 * Pow2(n - 1)
  }

  function BackoffAfter(wait: Option<Backoff>, now: int): Backoff
  {
    var failures := (if wait.Some? then wait.value.failures else 0) + 1;
    var ms := BACKOFF_BASE_MS * Pow2(failures - 1);
    Backoff(failures, now + if ms < BACKOFF_MAX_MS then ms else BACKOFF_MAX_MS)
  }

  function AfterQuery(s: State): State
    requires s.loop.Next?
  {
    var l := s.loop;
    if l.batch >= MAX_BATCHES_PER_TICK || s.row.None? || !s.row.value.enabled then s.(loop := Idle)
    else
      var pending := PendingRows(s.log, s.row.value.cursor, l.settledBefore);
      if pending == [] then s.(loop := Idle)
      else s.(loop := Sending(l.settledBefore, l.batch, l.wait, l.now, s.row.value.config, pending))
  }

  /** The cursor moves only if the configuration the batch was sent with is still the stored one. */
  function AfterDelivered(s: State): State
    requires s.loop.Sending? && s.loop.pending != []
  {
    var l := s.loop;
    var last := l.pending[|l.pending| - 1];
    s.(row := if s.row.Some? && s.row.value.config == l.config
              then Some(s.row.value.(cursor := last, failed := false)) else s.row,
       backoff := None,
       accepted := s.accepted + (set q | q in l.pending),
       loop := if |l.pending| < BATCH_SIZE then Idle else Next(l.settledBefore, l.batch + 1, l.wait, l.now))
  }

  function AfterRefused(s: State, taken: set<Pos>): State
    requires s.loop.Sending?
  {
    s.(row := if s.row.Some? then Some(s.row.value.(failed := true)) else None,
       backoff := Some(BackoffAfter(s.loop.wait, s.loop.now)),
       accepted := s.accepted + taken,
       loop := Idle)
  }

  function Step(s: State, e: Event): State
  {
    match e
    case Clock(now) => s.(now := now)
    case Commit(createdAt) => s.(log := s.log + [Pos(createdAt, NextRowid(s.log))])
    case Save(enabled) =>
      if s.row.Some? then s.(row := Some(s.row.value.(enabled := enabled, config := s.saves, failed := false)), saves := s.saves + 1, backoff := None)
      else s
    case Create(enabled) =>
      s.(row := Some(Forwarder(enabled, s.saves, Last(s.log), false, Last(s.log))), saves := s.saves + 1, backoff := None)
    case Remove => s.(row := None, backoff := None)
    case Start => s.(loop := Next(s.now - SETTLE_MS, 0, s.backoff, s.now))
    case Query => if s.loop.Next? then AfterQuery(s) else s
    case Delivered => if s.loop.Sending? && s.loop.pending != [] then AfterDelivered(s) else s
    case Refused(taken) => if s.loop.Sending? then AfterRefused(s, taken) else s
  }

  ghost predicate Reaches(s: State, run: seq<Event>, z: State)
    decreases |run|
  {
    if run == [] then z == s
    else Enabled(s, run[0]) && Reaches(Step(s, run[0]), run[1..], z)
  }

  ghost predicate Initial(s: State)
  {
    s.log == [] && s.row.None? && s.loop.Idle? && s.accepted == {} && s.backoff.None?
  }

  // ── Nothing is skipped ─────────────────────────────────────────────────────

  /** Every row between where the forwarder started and where it stands was taken by a target. */
  ghost predicate NothingSkipped(s: State)
  {
    s.row.Some? ==>
      forall q :: q in s.log && Before(s.row.value.start, q) && !Before(s.row.value.cursor, q) ==> q in s.accepted
  }

  /** Rows that may still commit come after `p`. */
  ghost predicate Settled(s: State, p: Pos)
  {
    p.createdAt <= s.now - SETTLE_MS && p.rowid <= |s.log|
  }

  ghost predicate Inv(s: State)
  {
    && NothingSkipped(s)
    && (forall q :: q in s.log ==> q.rowid <= |s.log|)
    && (s.row.Some? ==> s.row.value.config < s.saves
                        && (s.row.value.cursor == s.row.value.start || Settled(s, s.row.value.cursor)))
    && (s.loop.Next? ==> s.loop.settledBefore <= s.now - SETTLE_MS)
    && (s.loop.Sending? ==>
      && s.loop.settledBefore <= s.now - SETTLE_MS && s.loop.config < s.saves && s.loop.pending != []
      && (forall q :: q in s.loop.pending ==> q in s.log && q.createdAt <= s.loop.settledBefore)
      && (s.row.Some? && s.row.value.config == s.loop.config ==>
          forall q :: q in s.log && Before(s.row.value.cursor, q) && !Before(s.loop.pending[|s.loop.pending| - 1], q)
            ==> q in s.loop.pending))
  }

  lemma StepKeeps(s: State, e: Event)
    requires Inv(s) && Enabled(s, e)
    ensures Inv(Step(s, e))
  {
    match e
    case Query =>
      if s.row.Some? {
        PendingIs(s.log, s.row.value.cursor, s.loop.settledBefore);
      }
    case Delivered =>
      var l := s.loop;
      var last := l.pending[|l.pending| - 1];
      assert last in l.pending;
    case _ =>
  }

  lemma {:induction false} RunKeeps(s: State, run: seq<Event>, z: State)
    requires Inv(s) && Reaches(s, run, z)
    ensures Inv(z)
    decreases |run|
  {
    if run != [] {
      StepKeeps(s, run[0]);
      RunKeeps(Step(s, run[0]), run[1..], z);
    }
  }

  /**
   * At-least-once delivery, over every run: whatever commits, edits, failures and ticks interleave, no row between
   * the forwarder's start and its cursor was never accepted.
   */
  lemma ForwardingSkipsNothing(s: State, run: seq<Event>, z: State)
    requires Initial(s) && Reaches(s, run, z)
    ensures NothingSkipped(z)
  {
    RunKeeps(s, run, z);
  }

  /** And it gets there: an undisturbed tick that runs out of rows has sent everything settled. */
  lemma CaughtUp(s: State)
    requires Inv(s) && s.loop.Next? && s.row.Some? && s.row.value.enabled && s.loop.batch < MAX_BATCHES_PER_TICK
    requires Step(s, Query).loop.Idle?
    ensures forall q :: q in s.log && Before(s.row.value.start, q) && q.createdAt <= s.loop.settledBefore ==> q in s.accepted
  {
    PendingIs(s.log, s.row.value.cursor, s.loop.settledBefore);
  }

  // ── Nothing is sent twice for no reason ────────────────────────────────────

  /** No refusal, and nobody edits the forwarder. */
  predicate IsQuiet(run: seq<Event>)
  {
    forall i :: 0 <= i < |run| ==> run[i].Clock? || run[i].Commit? || run[i].Start? || run[i].Query? || run[i].Delivered?
  }

  /** What was accepted is not after the cursor, what is being sent is. */
  ghost predicate InTurn(s: State)
  {
    && s.row.Some? && (forall q :: q in s.accepted ==> !Before(s.row.value.cursor, q))
    && (s.loop.Sending? ==>
      && s.loop.config == s.row.value.config && Ordered(s.loop.pending) && s.loop.pending != []
      && forall q :: q in s.loop.pending ==> Before(s.row.value.cursor, q))
  }

  lemma PendingIsOrdered(s: State)
    requires s.loop.Next? && s.row.Some?
    ensures Ordered(PendingRows(s.log, s.row.value.cursor, s.loop.settledBefore))
  {
    MatchingIs(s.log, s.row.value.cursor, s.loop.settledBefore);
  }

  lemma DeliveredInTurn(s: State)
    requires InTurn(s) && s.loop.Sending?
    ensures InTurn(AfterDelivered(s))
  {
    var p := s.loop.pending;
    var last := p[|p| - 1];
    assert last in p;
    forall q | q in p ensures !Before(last, q) {
      var i :| 0 <= i < |p| && p[i] == q;
    }
  }

  lemma InTurnStep(s: State, e: Event)
    requires InTurn(s) && Enabled(s, e) && IsQuiet([e])
    ensures InTurn(Step(s, e))
  {
    assert [e][0] == e;
    if e.Query? {
      PendingIsOrdered(s);
      PendingIs(s.log, s.row.value.cursor, s.loop.settledBefore);
      hide Ordered, PendingRows;
    } else if e.Delivered? {
      DeliveredInTurn(s);
    }
  }

  lemma {:induction false} InTurnStays(s: State, run: seq<Event>, z: State)
    requires InTurn(s) && Reaches(s, run, z) && IsQuiet(run)
    ensures InTurn(z)
    decreases |run|
  {
    if run != [] {
      InTurnStep(s, run[0]);
      hide InTurn, Enabled, Step;
      assert forall i :: 0 <= i < |run[1..]| ==> run[1..][i] == run[i + 1];
      InTurnStays(Step(s, run[0]), run[1..], z);
    }
  }

  /**
   * At most once too, over every run in which no delivery fails and nobody edits the forwarder: no row that a
   * target took is ever in a batch again.
   */
  lemma SentOnce(s: State, run: seq<Event>, z: State)
    requires s.row.Some? && s.loop.Idle? && s.accepted == {} && Reaches(s, run, z) && IsQuiet(run)
    ensures z.loop.Sending? ==> forall q :: q in z.loop.pending ==> q !in z.accepted
  {
    InTurnStays(s, run, z);
  }

  /** The wait after failures in a row: half a minute, then double each time, at most a quarter of an hour. */
  lemma BackoffDoubles(wait: Option<Backoff>, now: int)
    requires wait.Some? ==> wait.value.failures > 0
    ensures BackoffAfter(None, now) == Backoff(1, now + 30000)
    ensures wait.Some? ==>
      var n := wait.value.failures;
      var b := BackoffAfter(wait, now);
      var before := BackoffAfter(if n == 1 then None else Some(Backoff(n - 1, 0)), now);
      && before.failures == n && b.failures == n + 1
      && b.until - now == if 2 * (before.until - now) < 900000 then 2 * (before.until - now) else 900000
  {
    assert Pow2(0) == 1;
    if wait.Some? {
      assert Pow2(wait.value.failures) == 2 * Pow2(wait.value.failures - 1);
    }
  }

  // ── Where it starts, and when it misses a row ──────────────────────────────

  lemma {:induction false} LastIsLast(log: seq<Pos>)
    ensures forall q :: q in log ==> !Before(Last(log), q)
    ensures log != [] ==> Last(log) in log
  {
    if log != [] {
      LastIsLast(log[1..]);
      assert forall q :: q in log ==> q == log[0] || q in log[1..];
    }
  }

  /** A row is out of a forwarder's reach: not fetched, not taken, and not past where it started. */
  ghost predicate OutOfReach(s: State, q: Pos)
  {
    && q !in s.accepted && (s.loop.Sending? ==> q !in s.loop.pending)
    && s.row.Some? && !Before(s.row.value.start, q) && !Before(s.row.value.cursor, s.row.value.start)
  }

  ghost predicate Reached(s: State)
  {
    && Inv(s) && (s.row.Some? ==> s.row.value.start.rowid <= |s.log| && !Before(s.row.value.cursor, s.row.value.start))
    && (forall q :: q in s.accepted ==> q.rowid <= |s.log|)
    && (s.loop.Sending? && s.row.Some? && s.row.value.config == s.loop.config ==>
          forall q :: q in s.loop.pending ==> Before(s.row.value.cursor, q))
  }

  lemma StepReaches(s: State, e: Event)
    requires Reached(s) && Enabled(s, e)
    ensures Reached(Step(s, e))
  {
    StepKeeps(s, e);
    LastIsLast(s.log);
    match e
    case Query =>
      if s.row.Some? {
        PendingIs(s.log, s.row.value.cursor, s.loop.settledBefore);
      }
    case Delivered =>
      var last := s.loop.pending[|s.loop.pending| - 1];
      assert last in s.loop.pending;
    case _ =>
  }

  lemma {:induction false} RunReaches(s: State, run: seq<Event>, z: State)
    requires Reached(s) && Reaches(s, run, z)
    ensures Reached(z)
    decreases |run|
  {
    if run != [] {
      StepReaches(s, run[0]);
      RunReaches(Step(s, run[0]), run[1..], z);
    }
  }

  ghost predicate KeepsForwarder(run: seq<Event>)
  {
    forall e :: e in run ==> !e.Create? && !e.Remove?
  }

  lemma {:induction false} StaysOutOfReach(s: State, q: Pos, run: seq<Event>, z: State)
    requires Reached(s) && OutOfReach(s, q) && Reaches(s, run, z)
    requires KeepsForwarder(run)
    ensures OutOfReach(z, q)
    decreases |run|
  {
    if run != [] {
      var e := run[0];
      StepReaches(s, e);
      if e.Query? {
        PendingIs(s.log, s.row.value.cursor, s.loop.settledBefore);
      }
      assert e.Delivered? ==> s.loop.pending[|s.loop.pending| - 1] in s.loop.pending;
      StaysOutOfReach(Step(s, e), q, run[1..], z);
    }
  }

  /**
   * Which of the rows that commit while a forwarder exists it will send, in every run: those not written
   * before the last row that was in the log when it began. An earlier one it never sends, though it
   * commits within the settle time; any other is one `ForwardingSkipsNothing` speaks of.
   */
  lemma CommittedIsCovered(first: State, before: seq<Event>, s: State, createdAt: int)
    requires Initial(first) && Reaches(first, before, s) && s.row.Some? && Enabled(s, Commit(createdAt))
    ensures var q := Pos(createdAt, NextRowid(s.log));
            && (Before(s.row.value.start, q) <==> createdAt >= s.row.value.start.createdAt)
            && (createdAt < s.row.value.start.createdAt ==>
                  forall run: seq<Event>, z: State | Reaches(Step(s, Commit(createdAt)), run, z) && KeepsForwarder(run)
                    :: q in z.log && q !in z.accepted)
  {
    RunReaches(first, before, s);
    var q, s1 := Pos(createdAt, NextRowid(s.log)), Step(s, Commit(createdAt));
    StepReaches(s, Commit(createdAt));
    if createdAt < s.row.value.start.createdAt {
      forall run: seq<Event>, z: State | Reaches(s1, run, z) && KeepsForwarder(run)
        ensures q in z.log && q !in z.accepted
      {
        assert OutOfReach(s1, q) by {
          assert s.loop.Sending? ==> forall p :: p in s.loop.pending ==> p in s.log;
        }
        StaysOutOfReach(s1, q, run, z);
        LogGrows(s1, run, z);
        assert s1.log[|s.log|] == q;
      }
    }
  }

  lemma {:induction false} LogGrows(s: State, run: seq<Event>, z: State)
    requires Reaches(s, run, z)
    ensures s.log <= z.log
    decreases |run|
  {
    if run != [] {
      LogGrows(Step(s, run[0]), run[1..], z);
    }
  }

  // ── What edits do, and what they do not ────────────────────────────────────

  predicate IsEdit(e: Event)
  {
    e.Save? || e.Create? || e.Remove?
  }

  function LastEdit(run: seq<Event>): (r: Option<Event>)
    ensures r.Some? ==> IsEdit(r.value)
  {
    if run == [] then None
    else
      var later := LastEdit(run[1..]);
      if later.None? && IsEdit(run[0]) then Some(run[0]) else later
  }

  /**
   * Over every run: whether there is a forwarder, and whether it is enabled, is what the last edit said, and no
   * delivery or failure changes it. Right after an edit nothing backs off.
   */
  lemma {:induction false} EditsDecide(s: State, run: seq<Event>, z: State)
    requires Reaches(s, run, z)
    ensures var e := LastEdit(run);
            && (e.None? ==> z.row.Some? == s.row.Some? && (s.row.Some? ==> z.row.value.enabled == s.row.value.enabled))
            && (e.Some? ==> z.row.Some? == !e.value.Remove?)
            && (e.Some? && !e.value.Remove? ==> z.row.value.enabled == e.value.enabled)
    ensures run != [] && IsEdit(run[|run| - 1]) ==> z.backoff.None? && (z.row.Some? ==> !z.row.value.failed)
    decreases |run|
  {
    if run != [] {
      EditsDecide(Step(s, run[0]), run[1..], z);
      assert |run| > 1 ==> run[1..][|run| - 2] == run[|run| - 1];
    }
  }

  lemma {:induction false} PlaceStays(s: State, run: seq<Event>, z: State)
    requires Reached(s) && s.row.Some? && Reaches(s, run, z) && KeepsForwarder(run)
    ensures z.row.Some? && z.row.value.start == s.row.value.start && s.accepted <= z.accepted
    ensures var c, d := s.row.value.cursor, z.row.value.cursor; d == c || (Before(c, d) && d in z.accepted && d in z.log)
    decreases |run|
  {
    if run != [] {
      var m := Step(s, run[0]);
      StepReaches(s, run[0]);
      assert run[0].Delivered? ==> s.loop.pending[|s.loop.pending| - 1] in s.loop.pending;
      assert run[0] in run && forall e :: e in run[1..] ==> e in run;
      PlaceStays(m, run[1..], z);
      LogGrows(m, run[1..], z);
    }
  }

  /**
   * Over every run in which the forwarder is neither removed nor created anew, saved or not: it began where it
   * began, and its place only moves on, to rows a target took.
   */
  lemma PlaceIsKept(first: State, before: seq<Event>, s: State, run: seq<Event>, z: State)
    requires Initial(first) && Reaches(first, before, s) && s.row.Some?
    requires Reaches(s, run, z) && KeepsForwarder(run)
    ensures z.row.Some? && z.row.value.start == s.row.value.start && s.accepted <= z.accepted
    ensures var c, d := s.row.value.cursor, z.row.value.cursor; d == c || (Before(c, d) && d in z.accepted && d in z.log)
  {
    RunReaches(first, before, s);
    PlaceStays(s, run, z);
  }

  /** Rows up to a new forwarder's start are not in a batch fetched with a configuration of its own. */
  ghost predicate IsHistory(s: State, q: Pos, config: nat)
  {
    && s.row.Some? && !Before(s.row.value.start, q) && !Before(s.row.value.cursor, s.row.value.start)
    && config <= s.row.value.config && config <= s.saves
    && (s.loop.Sending? && s.loop.config >= config ==> q !in s.loop.pending)
  }

  lemma {:induction false} StaysHistory(s: State, q: Pos, config: nat, run: seq<Event>, z: State)
    requires Reached(s) && IsHistory(s, q, config) && Reaches(s, run, z) && KeepsForwarder(run)
    ensures IsHistory(z, q, config)
    decreases |run|
  {
    if run != [] {
      var e := run[0];
      StepReaches(s, e);
      if e.Query? {
        PendingIs(s.log, s.row.value.cursor, s.loop.settledBefore);
      }
      assert e.Delivered? ==> s.loop.pending[|s.loop.pending| - 1] in s.loop.pending;
      StaysHistory(Step(s, e), q, config, run[1..], z);
    }
  }

  /**
   * History is not replayed: in every run after a forwarder's creation, nothing that was in the log then is in
   * a batch sent with its configuration, or with a later one.
   */
  lemma HistoryIsNotReplayed(first: State, before: seq<Event>, s: State, enabled: bool, run: seq<Event>, z: State)
    requires Initial(first) && Reaches(first, before, s) && Enabled(s, Create(enabled))
    requires Reaches(Step(s, Create(enabled)), run, z) && KeepsForwarder(run)
    ensures z.loop.Sending? && z.loop.config >= s.saves ==> forall q :: q in z.loop.pending ==> q !in s.log
  {
    RunReaches(first, before, s);
    StepReaches(s, Create(enabled));
    LastIsLast(s.log);
    forall q | q in s.log ensures IsHistory(z, q, s.saves) {
      StaysHistory(Step(s, Create(enabled)), q, s.saves, run, z);
    }
  }

  function Empty(): State
  {
    State(0, [], None, 0, None, Idle, {})
  }

  /** That happens: a row written before the last one logged, committing within the settle time but after the creation. */
  lemma CommitBehindStart() returns (run: seq<Event>, s: State)
    ensures Initial(Empty()) && Reaches(Empty(), run, s) && s.row.Some?
    ensures Enabled(s, Commit(95)) && 95 < s.row.value.start.createdAt
  {
    s, run := Empty(), [];
    assert Reaches(Empty(), run, s);
    run, s := Then(run, s, Clock(100));
    run, s := Then(run, s, Commit(100));
    assert Last([Pos(100, 1)]) == Pos(100, 1);
    run, s := Then(run, s, Create(true));
  }

  /** A commit later than the settle time can be skipped, at the end of such a run: the promise rests on that time. */
  lemma LateCommitIsSkipped() returns (run: seq<Event>, s: State)
    ensures Initial(Empty()) && Reaches(Empty(), run, s) && 5 + SETTLE_MS < s.now
    ensures !NothingSkipped(Step(s, Commit(5)))
  {
    var p, q := Pos(10, 1), Pos(5, 2);
    run, s := OneRowLogged();
    hide Reaches;
    run, s := Then(run, s, Start);
    assert Matching([p][1..], Pos(-1, 0), 15000) == [];
    assert PendingRows([p], Pos(-1, 0), 15000) == [p];
    run, s := Then(run, s, Query);
    run, s := Then(run, s, Delivered);
    assert Step(s, Commit(5)).log == [p, q] && q in [p, q] && q !in s.accepted;
  }

  lemma OneRowLogged() returns (run: seq<Event>, s: State)
    ensures s == State(30000, [Pos(10, 1)], Some(Forwarder(true, 0, Pos(-1, 0), false, Pos(-1, 0))), 1, None, Idle, {})
    ensures Initial(Empty()) && Reaches(Empty(), run, s)
  {
    s, run := Empty(), [];
    assert Reaches(Empty(), run, s);
    hide Reaches;
    run, s := Then(run, s, Create(true));
    run, s := Then(run, s, Clock(10));
    run, s := Then(run, s, Commit(10));
    run, s := Then(run, s, Clock(30000));
  }

  lemma Then(run: seq<Event>, s: State, e: Event) returns (more: seq<Event>, z: State)
    requires Reaches(Empty(), run, s) && Enabled(s, e)
    ensures more == run + [e] && z == Step(s, e) && Reaches(Empty(), more, z)
  {
    Extend(Empty(), run, s, e);
    more, z := run + [e], Step(s, e);
  }

  // ── The loop ───────────────────────────────────────────────────────────────

  lemma {:induction false} Extend(s: State, run: seq<Event>, m: State, e: Event)
    requires Reaches(s, run, m) && Enabled(m, e)
    ensures Reaches(s, run + [e], Step(m, e))
    decreases |run|
  {
    if run == [] {
      assert (run + [e])[1..] == [];
    } else {
      Extend(Step(s, run[0]), run[1..], m, e);
      assert (run + [e])[1..] == run[1..] + [e];
    }
  }

  /** The rows of the batches delivered in a run. */
  ghost function Sent(s: State, run: seq<Event>): nat
    decreases |run|
  {
    if run == [] then 0
    else (if run[0].Delivered? && s.loop.Sending? then |s.loop.pending| else 0) + Sent(Step(s, run[0]), run[1..])
  }

  lemma {:induction false} SentMore(s: State, run: seq<Event>, m: State, e: Event)
    requires Reaches(s, run, m)
    ensures Sent(s, run + [e]) == Sent(s, run) + if e.Delivered? && m.loop.Sending? then |m.loop.pending| else 0
    decreases |run|
  {
    if run == [] {
      assert (run + [e])[1..] == [];
    } else {
      SentMore(Step(s, run[0]), run[1..], m, e);
      assert (run + [e])[1..] == run[1..] + [e];
    }
  }

  /** How a tick ends: still backing off, no forwarder, nothing more, a short batch, a refusal, or after its share of batches. */
  datatype Ending = Waiting | Gone | NoMore | Short | Failed | ShareUsed

  predicate IsBackingOff(s: State)
  {
    s.backoff.Some? && s.now < s.backoff.value.until
  }

  /** The last step, from `m`, for each ending; no two can be of the same state. */
  ghost predicate EndsTick(ending: Ending, m: State, s: State)
  {
    match ending
    case Waiting => false
    case Gone => m.loop.Next? && m.loop.batch < MAX_BATCHES_PER_TICK && (m.row.None? || !m.row.value.enabled) && s == m.(loop := Idle)
    case NoMore =>
      && m.loop.Next? && m.loop.batch < MAX_BATCHES_PER_TICK && m.row.Some? && m.row.value.enabled && s == m.(loop := Idle)
      && PendingRows(m.log, m.row.value.cursor, m.loop.settledBefore) == []
    // The cursor moves to the last row sent, if the configuration is still the one it was sent with
    case Short =>
      && m.loop.Sending? && 0 < |m.loop.pending| < BATCH_SIZE
      && s == m.(row := if m.row.Some? && m.row.value.config == m.loop.config
                        then Some(m.row.value.(cursor := m.loop.pending[|m.loop.pending| - 1], failed := false)) else m.row,
                 backoff := None, accepted := m.accepted + (set q | q in m.loop.pending), loop := Idle)
    // Nothing moves, and the next ticks wait
    case Failed =>
      && m.loop.Sending?
      && s == m.(row := if m.row.Some? then Some(m.row.value.(failed := true)) else None,
                 backoff := Some(BackoffAfter(m.loop.wait, m.loop.now)), loop := Idle)
    case ShareUsed => m.loop.Next? && m.loop.batch == MAX_BATCHES_PER_TICK && s == m.(loop := Idle)
  }

  /** Every row after the forwarder's start and older than `settled` was accepted. */
  ghost predicate HasCaughtUp(s: State, settled: int)
  {
    s.row.Some? ==> forall q :: q in s.log && Before(s.row.value.start, q) && q.createdAt < settled ==> q in s.accepted
  }

  /** Every row past the forwarder's start, and older than what the batch asked for, was accepted or is in the batch. */
  ghost predicate HasFetched(s: State)
  {
    && s.loop.Sending? && s.loop.settledBefore <= s.now - SETTLE_MS
    && (s.row.Some? ==>
          forall q :: q in s.log && Before(s.row.value.start, q) && q.createdAt < s.loop.settledBefore ==>
            q in s.accepted || q in s.loop.pending)
  }

  lemma FetchesAll(m: State, s: State)
    requires Inv(m) && m.loop.Next? && s == AfterQuery(m) && s.loop.Sending? && |s.loop.pending| < BATCH_SIZE
    ensures HasFetched(s)
  {
    MatchingIs(m.log, m.row.value.cursor, m.loop.settledBefore);
  }

  lemma NothingLeft(m: State, s: State)
    requires Inv(m) && m.loop.Next? && EndsTick(NoMore, m, s)
    ensures HasCaughtUp(s, m.loop.settledBefore)
  {
    PendingIs(m.log, m.row.value.cursor, m.loop.settledBefore);
  }

  lemma ShortIsAll(m: State, s: State)
    requires HasFetched(m) && EndsTick(Short, m, s)
    ensures HasCaughtUp(s, m.loop.settledBefore)
  {
  }

  /** What comes meanwhile is newer, and a forwarder created meanwhile starts behind everything logged. */
  lemma StaysFetched(s: State, e: Event)
    requires HasFetched(s) && Elsewhere(e) && Enabled(s, e)
    ensures HasFetched(Step(s, e))
  {
    LastIsLast(s.log);
  }

  predicate Elsewhere(e: Event)
  {
    e.Clock? || e.Commit? || e.Save? || e.Create? || e.Remove?
  }

  /** The database and the delivery loop of `forwardOrg`. */
  class Forwarding {
    var s: State

    constructor (s: State)
      ensures this.s == s
    {
      this.s := s;
    }

    /** What everything else does while the loop awaits a delivery; `others` may be any such events. */
    method Await(others: seq<Event>, ghost from: State, ghost before: seq<Event>) returns (ghost run: seq<Event>)
      requires Reaches(from, before, s)
      requires forall e :: e in others ==> Elsewhere(e)
      modifies this
      ensures Reaches(from, run, s) && s.loop == old(s.loop) && before <= run && Sent(from, run) == Sent(from, before)
      ensures HasFetched(old(s)) ==> HasFetched(s)
    {
      run := before;
      for i := 0 to |others|
        invariant Reaches(from, run, s) && s.loop == old(s.loop) && before <= run && Sent(from, run) == Sent(from, before)
        invariant HasFetched(old(s)) ==> HasFetched(s)
      {
        var e := others[i];
        assert e in others;
        if CanHappen(s, e) {
          Extend(from, run, s, e);
          SentMore(from, run, s, e);
          if HasFetched(s) {
            StaysFetched(s, e);
          }
          run := run + [e];
          s := Step(s, e);
        }
      }
    }

    static predicate CanHappen(s: State, e: Event)
      requires Elsewhere(e)
      ensures CanHappen(s, e) == Enabled(s, e)
    {
      match e
      case Clock(now) => now >= s.now
      case Commit(createdAt) => createdAt <= s.now <= createdAt + SETTLE_MS
      case Save(_) => s.row.Some?
      case Create(_) => s.row.None?
      case Remove => true
    }

    /**
     * `forwardOrg`: batches until one is short, one is refused, the row is gone or disabled, or the tick's share is
     * used up. `accepts` and `others` are what the target and everything else do meanwhile; `run` are the events
     * up to the loop's last step, taken in state `m`.
     */
    method ForwardOrg(accepts: seq<bool>, others: seq<seq<Event>>)
      returns (sent: nat, ghost run: seq<Event>, ghost m: State, ghost ending: Ending)
      requires s.loop.Idle? && |accepts| == |others| == MAX_BATCHES_PER_TICK
      requires forall i, e :: 0 <= i < |others| && e in others[i] ==> Elsewhere(e)
      modifies this
      ensures ending.Waiting? <==> IsBackingOff(old(s))
      ensures ending.Waiting? ==> sent == 0 && s == old(s)
      ensures !ending.Waiting? ==>
        && run != [] && run[0] == Start && Reaches(old(s), run, m) && EndsTick(ending, m, s)
        && m.loop.settledBefore == old(s).now - SETTLE_MS && m.loop.wait == old(s).backoff && m.loop.now == old(s).now
      ensures sent == Sent(old(s), run) + if ending.Short? then |m.loop.pending| else 0
      ensures Inv(old(s)) && (ending.NoMore? || ending.Short?) ==> HasCaughtUp(s, old(s).now - SETTLE_MS)
    {
      sent, run, m, ending := 0, [], s, Waiting;
      if s.backoff.Some? && s.now < s.backoff.value.until {
        return;
      }
      ghost var start := s;
      s := Step(s, Start);
      run := [Start];
      assert Reaches(start, run, s) && Sent(start, run) == 0 by {
        assert run[1..] == [] && Reaches(s, [], s);
      }
      hide Inv, Reaches, Sent, HasFetched, HasCaughtUp, PendingRows;
      var batch := 0;
      while batch < MAX_BATCHES_PER_TICK
        invariant run != [] && run[0] == Start && Reaches(start, run, s) && sent == Sent(start, run)
        invariant s.loop == Next(start.now - SETTLE_MS, batch, start.backoff, start.now) && batch <= MAX_BATCHES_PER_TICK
      {
        ghost var end;
        var n;
        n, run, m, end := Batch(accepts[batch], others[batch], start, run);
        sent := sent + n;
        if !s.loop.Next? {
          ending := end;
          return;
        }
        batch := batch + 1;
      }
      m := s;
      s := AfterQuery(s);
      ending := ShareUsed;
    }

    /** One turn of the loop: the next batch fetched and delivered, or an end. */
    method Batch(accepts: bool, others: seq<Event>, ghost start: State, ghost before: seq<Event>)
      returns (n: nat, ghost run: seq<Event>, ghost m: State, ghost ending: Ending)
      requires s.loop.Next? && s.loop.batch < MAX_BATCHES_PER_TICK && Reaches(start, before, s)
      requires forall e :: e in others ==> Elsewhere(e)
      modifies this
      ensures before <= run
      ensures s.loop.Next? ==>
        && s.loop == Next(old(s).loop.settledBefore, old(s).loop.batch + 1, old(s).loop.wait, old(s).loop.now)
        && Reaches(start, run, s)
        && Sent(start, run) == Sent(start, before) + n
      ensures !s.loop.Next? ==>
        && Reaches(start, run, m) && EndsTick(ending, m, s)
        && m.loop.settledBefore == old(s).loop.settledBefore && m.loop.wait == old(s).loop.wait && m.loop.now == old(s).loop.now
        && Sent(start, before) + n == Sent(start, run) + if ending.Short? then |m.loop.pending| else 0
      ensures !s.loop.Next? && Inv(start) && (ending.NoMore? || ending.Short?) ==> HasCaughtUp(s, old(s).loop.settledBefore)
    {
      hide Inv, Reaches, Sent, HasFetched, HasCaughtUp, PendingRows;
      n, run, m, ending := 0, before, s, Waiting;
      s := AfterQuery(s);
      if s.loop.Idle? {
        ending := if m.row.None? || !m.row.value.enabled then Gone else NoMore;
        if Inv(start) && ending.NoMore? {
          RunKeeps(start, run, m);
          NothingLeft(m, s);
        }
        return;
      }
      var pending := s.loop.pending;
      if Inv(start) && |pending| < BATCH_SIZE {
        RunKeeps(start, run, m);
        FetchesAll(m, s);
      }
      Extend(start, run, m, Query);
      SentMore(start, run, m, Query);
      run := Await(others, start, run + [Query]);
      m := s;
      if !accepts {
        s := AfterRefused(s, {});
        ending := Failed;
        return;
      }
      s := AfterDelivered(s);
      n := |pending|;
      if |pending| < BATCH_SIZE {
        if Inv(start) {
          ShortIsAll(m, s);
        }
        ending := Short;
        return;
      }
      Extend(start, run, m, Delivered);
      SentMore(start, run, m, Delivered);
      run := run + [Delivered];
    }
  }
}
