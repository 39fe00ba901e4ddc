/** Failed password sign-ins: what pauses an account, and how fast guesses can be made at all. Times are milliseconds. */
module Lockout {
  const FAILED_LOGIN_THRESHOLD := 5
  const FAILED_LOGIN_WINDOW_MS := 15 * 60 * 1000
  const LOCKOUT_BASE_MS := 60 * 1000
  const LOCKOUT_MAX_MS := 15 * 60 * 1000
  const LOCKOUT_RESET_MS := 24 * 60 * 60 * 1000
  const LOCK_NOTICE_INTERVAL_MS := 60 * 60 * 1000

  type Time = int

  datatype Option<T> = None | Some(value: T)

  datatype Row = Row(
    failures: nat, windowStartedAt: Time, lockedUntil: Option<Time>, lockouts: nat, lastFailureAt: Time,
    notifiedAt: Option<Time>)

  datatype Locked = Locked(lockedUntil: Time, retryAfterSeconds: int, lockouts: nat)

  datatype Attempt = Attempt(failures: nat, locked: Option<Locked>, notify: bool)

  function Pow2(n: nat): nat
  {
    if n == 0 then 1 else 2 * Pow2(n - 1)
  }

  /** How long the pause after `i` earlier ones lasts. */
  function Pause(i: nat): Time
  {
    if LOCKOUT_BASE_MS * Pow2(i) < LOCKOUT_MAX_MS then LOCKOUT_BASE_MS * Pow2(i) else LOCKOUT_MAX_MS
  }

  function CeilSeconds(ms: int): int
  {
    (ms + 999) / 1000
  }

  predicate Quiet(row: Option<Row>, t: Time)
  {
    row.None? || t - row.value.lastFailureAt >= LOCKOUT_RESET_MS
  }

  predicate WindowOpen(row: Option<Row>, t: Time)
  {
    row.Some? && !Quiet(row, t) && t - row.value.windowStartedAt < FAILED_LOGIN_WINDOW_MS
  }

  /** The row after one more attempt at `t`. */
  function Recorded(row: Option<Row>, t: Time): Row
  {
    var failures := (if WindowOpen(row, t) then row.value.failures else 0) + 1;
    var lockouts := if Quiet(row, t) then 0 else row.value.lockouts;
    var notifiedAt := if row.Some? then row.value.notifiedAt else None;
    if failures >= FAILED_LOGIN_THRESHOLD then
      Row(0, t, Some(t + Pause(lockouts)), lockouts + 1, t, if Notifies(row, t) then Some(t) else notifiedAt)
    else
      Row(failures, if WindowOpen(row, t) then row.value.windowStartedAt else t,
          if Quiet(row, t) then None else row.value.lockedUntil, lockouts, t, notifiedAt)
  }

  predicate Notifies(row: Option<Row>, t: Time)
  {
    row.None? || row.value.notifiedAt.None? || t - row.value.notifiedAt.value >= LOCK_NOTICE_INTERVAL_MS
  }

  predicate Paused(row: Option<Row>, now: Time)
  {
    row.Some? && row.value.lockedUntil.Some? && row.value.lockedUntil.value > now
  }

  /** The table of failed sign-ins. */
  class LoginFailures<Key(==)> {
    var rows: map<Key, Row>

    constructor ()
      ensures rows == map[]
    {
      rows := map[];
    }

    function RowOf(key: Key): Option<Row>
      reads this
    {
      if key in rows then Some(rows[key]) else None
    }

    /** `lockoutStatus` */
    method Status(key: Key, now: Time) returns (lock: Option<Locked>)
      ensures lock.Some? <==> Paused(RowOf(key), now)
      ensures lock.Some? <==> key in rows && rows[key].lockedUntil.Some? && now < rows[key].lockedUntil.value
      ensures lock.Some? ==>
                && lock.value.lockedUntil == rows[key].lockedUntil.value
                && 1000 * (lock.value.retryAfterSeconds - 1) < lock.value.lockedUntil - now <= 1000 * lock.value.retryAfterSeconds
    {
      var row := RowOf(key);
      if row.None? || row.value.lockedUntil.None? {
        return None;
      }
      var ms := row.value.lockedUntil.value - now;
      if ms <= 0 {
        return None;
      }
      lock := Some(Locked(row.value.lockedUntil.value, CeilSeconds(ms), row.value.lockouts));
    }

    /** `recordFailedLogin` */
    method Record(key: Key, t: Time) returns (attempt: Attempt)
      modifies this
      ensures rows == old(rows)[key := Recorded(old(RowOf(key)), t)]
      // The row, field by field: a day without failures forgets all, a window lasts a quarter of an hour, five failures pause
      ensures var was, row := old(RowOf(key)), rows[key];
              var known := was.Some? && t - was.value.lastFailureAt < 24 * 3600000;
              var open := known && t - was.value.windowStartedAt < 900000;
              var n := (if open then was.value.failures else 0) + 1;
              var pauses := if known then was.value.lockouts else 0;
              && row.lastFailureAt == t && row.failures == (if n >= 5 then 0 else n)
              && row.windowStartedAt == (if open && n < 5 then was.value.windowStartedAt else t)
              && row.lockouts == (if n >= 5 then pauses + 1 else pauses)
              && row.lockedUntil == (if n >= 5 then Some(t + Pause(pauses)) else if known then was.value.lockedUntil else None)
              && row.notifiedAt == (if n >= 5 && (was.None? || was.value.notifiedAt.None? || t - was.value.notifiedAt.value >= 3600000)
                                    then Some(t) else if was.Some? then was.value.notifiedAt else None)
      ensures attempt.failures == rows[key].failures && (attempt.locked.Some? <==> rows[key].failures == 0)
      ensures attempt.locked.Some? <==> rows[key].lockouts > (if Quiet(old(RowOf(key)), t) then 0 else old(rows[key].lockouts))
      ensures attempt.locked.Some? ==>
                && rows[key].lockedUntil == Some(attempt.locked.value.lockedUntil)
                && attempt.locked.value.lockouts == rows[key].lockouts
                && attempt.locked.value.lockedUntil == t + Pause(rows[key].lockouts - 1)
                && var seconds := attempt.locked.value.retryAfterSeconds;
                   1000 * (seconds - 1) < attempt.locked.value.lockedUntil - t <= 1000 * seconds
      ensures attempt.notify <==> attempt.locked.Some? && Notifies(old(RowOf(key)), t)
    {
      var row := RowOf(key);
      var quiet := row.None? || t - row.value.lastFailureAt >= LOCKOUT_RESET_MS;
      var windowOpen := row.Some? && !quiet && t - row.value.windowStartedAt < FAILED_LOGIN_WINDOW_MS;
      var failures := (if windowOpen then row.value.failures else 0) + 1;
      var windowStartedAt := if windowOpen then row.value.windowStartedAt else t;
      var lockouts := if quiet then 0 else row.value.lockouts;
      var lockedUntil := if quiet then None else row.value.lockedUntil;
      var notifiedAt := if row.Some? then row.value.notifiedAt else None;
      var locked := None;
      var notify := false;
      if failures >= FAILED_LOGIN_THRESHOLD {
        var ms := if LOCKOUT_BASE_MS * Pow2(lockouts) < LOCKOUT_MAX_MS then LOCKOUT_BASE_MS * Pow2(lockouts) else LOCKOUT_MAX_MS;
        lockouts := lockouts + 1;
        lockedUntil := Some(t + ms);
        locked := Some(Locked(t + ms, CeilSeconds(ms), lockouts));
        failures := 0;
        windowStartedAt := t;
        notify := notifiedAt.None? || t - notifiedAt.value >= LOCK_NOTICE_INTERVAL_MS;
        if notify {
          notifiedAt := Some(t);
        }
      }
      rows := rows[key := Row(failures, windowStartedAt, lockedUntil, lockouts, t, notifiedAt)];
      attempt := Attempt(failures, locked, notify);
    }

    /** `clearLoginFailures` */
    method Clear(key: Key)
      modifies this
      ensures rows == old(rows) - {key}
    {
      rows := rows - {key};
    }

    /** `pruneLoginFailures`: only rows that pause nothing and whose backoff a next attempt would forget. */
    method Prune(now: Time) returns (removed: nat)
      modifies this
      // Kept: rows whose last failure is at most a day ago, or whose pause is not over
      ensures forall k :: k in rows <==>
                && k in old(rows)
                && var row := old(rows)[k]; row.lastFailureAt >= now - 86400000 || (row.lockedUntil.Some? && row.lockedUntil.value >= now)
      ensures forall k :: k in rows ==> rows[k] == old(rows)[k]
      ensures removed + |rows| == |old(rows)|
    {
      var kept := map k | k in rows && !Prunable(rows[k], now) :: rows[k];
      assert kept.Keys <= rows.Keys;
      Smaller(kept.Keys, rows.Keys);
      removed := |rows.Keys| - |kept.Keys|;
      rows := kept;
    }

    static lemma Smaller(a: set<Key>, b: set<Key>)
      requires a <= b
      ensures |a| <= |b|
    {
      assert b == a + (b - a);
    }
  }

  predicate Prunable(row: Row, now: Time)
  {
    row.lastFailureAt < now - LOCKOUT_RESET_MS && (row.lockedUntil.None? || row.lockedUntil.value < now)
  }

  /** Pruning changes nothing an account notices: neither a pause now or later, nor what the next attempt records. */
  lemma PruningIsInvisible(row: Row, now: Time, t: Time)
    requires Prunable(row, now) && t >= now
    ensures Paused(Some(row), t) == Paused(None, t)
    ensures Recorded(Some(row), t).(notifiedAt := None) == Recorded(None, t).(notifiedAt := None)
    ensures row.notifiedAt.None? || row.notifiedAt.value <= row.lastFailureAt ==> Notifies(Some(row), t) == Notifies(None, t)
  {
  }

  // ── How fast guesses can be made ───────────────────────────────────────────

  /** The row after attempts at `times`, from none. */
  function After(times: seq<Time>): Option<Row>
  {
    if times == [] then None else Some(Recorded(After(times[..|times| - 1]), times[|times| - 1]))
  }

  /** Attempts made only while not paused, in order, and never a whole day apart. */
  ghost predicate Attempts(times: seq<Time>)
  {
    times == [] || (
      && var before, t := times[..|times| - 1], times[|times| - 1];
      && Attempts(before)
      && !Paused(After(before), t)
      && (before != [] ==> before[|before| - 1] <= t < before[|before| - 1] + LOCKOUT_RESET_MS))
  }

  /** The failures left in each window that ran out before the threshold. */
  function Leftovers(times: seq<Time>): seq<nat>
  {
    if times == [] then []
    else
      var before, t := times[..|times| - 1], times[|times| - 1];
      Leftovers(before) + (if before != [] && !WindowOpen(After(before), t) then [After(before).value.failures] else [])
  }

  function Sum(s: seq<nat>): nat
  {
    if s == [] then 0 else Sum(s[..|s| - 1]) + s[|s| - 1]
  }

  function Pauses(times: seq<Time>): nat
  {
    if times == [] then 0 else After(times).value.lockouts
  }

  /** The first `n` pauses put end to end. */
  function PauseTime(n: nat): Time
  {
    if n == 0 then 0 else PauseTime(n - 1) + Pause(n - 1)
  }

  /** Every attempt is one of five before a pause, or left in a window that ran out or is still open. */
  lemma {:induction false} EveryAttemptCounts(times: seq<Time>)
    requires Attempts(times)
    ensures |times| == 5 * Pauses(times) + Sum(Leftovers(times)) + (if times == [] then 0 else After(times).value.failures)
    ensures times != [] ==> After(times).value.failures < 5
    ensures forall i :: 0 <= i < |Leftovers(times)| ==> Leftovers(times)[i] < 5
  {
    if times != [] {
      var before, t := times[..|times| - 1], times[|times| - 1];
      EveryAttemptCounts(before);
      var more := Leftovers(times);
      if before != [] && !WindowOpen(After(before), t) {
        assert more[..|more| - 1] == Leftovers(before);
      } else {
        assert more == Leftovers(before);
      }
    }
  }

  /** The windows that ran out, and the pauses but the last, each fit one after the other into the time taken. */
  lemma {:induction false} TimeTaken(times: seq<Time>)
    requires Attempts(times) && times != []
    ensures var row := After(times).value;
            && times[0] + FAILED_LOGIN_WINDOW_MS * |Leftovers(times)| <= row.windowStartedAt <= times[|times| - 1]
            && (row.lockouts == 0 ==> row.lockedUntil.None?)
            && (row.lockouts > 0 ==> row.lockedUntil.Some? && times[0] + PauseTime(row.lockouts) <= row.lockedUntil.value)
            && (row.lockouts > 0 ==> times[0] + PauseTime(row.lockouts - 1) <= times[|times| - 1])
    decreases |times|
  {
    var before, t := times[..|times| - 1], times[|times| - 1];
    if before == [] {
      assert Leftovers(times) == [];
    } else {
      TimeTaken(before);
    }
  }

  /** The rate of guessing: `n` attempts have paid for their pauses and for their windows. */
  lemma GuessingIsSlow(times: seq<Time>)
    requires Attempts(times) && times != []
    ensures var p, w, elapsed := Pauses(times), |Leftovers(times)|, times[|times| - 1] - times[0];
            && 5 * p <= |times| <= 5 * p + 4 * (w + 1)
            && w * FAILED_LOGIN_WINDOW_MS <= elapsed
            && (p > 0 ==> PauseTime(p - 1) <= elapsed)
  {
    EveryAttemptCounts(times);
    TimeTaken(times);
    SumBound(Leftovers(times));
  }

  lemma {:induction false} SumBound(s: seq<nat>)
    requires forall i :: 0 <= i < |s| ==> s[i] < 5
    ensures Sum(s) <= 4 * |s|
  {
    if s != [] {
      SumBound(s[..|s| - 1]);
    }
  }

  /** The first pause is a minute, each next one twice as long, at most a quarter of an hour. */
  lemma PausesDouble(i: nat)
    ensures Pause(0) == 60000
    ensures Pause(i + 1) == if 2 * Pause(i) < 900000 then 2 * Pause(i) else 900000
  {
    assert Pow2(0) == 1;
    assert Pow2(i + 1) == 2 * Pow2(i);
  }

  /** In closed form: the first four pauses take 15 minutes together, each later one as long again. */
  lemma {:induction false} PauseTimeIs(n: nat)
    requires n >= 4
    ensures PauseTime(n) == 15 * LOCKOUT_BASE_MS + (n - 4) * LOCKOUT_MAX_MS
  {
    if n == 4 {
      assert Pow2(3) == 8;
      assert PauseTime(3) == 7 * LOCKOUT_BASE_MS;
    } else {
      PauseTimeIs(n - 1);
      Pow2Grows(n - 1);
    }
  }

  lemma {:induction false} Pow2Grows(n: nat)
    requires n >= 4
    ensures Pow2(n) >= 16
  {
    if n == 4 {
      assert Pow2(3) == 8;
    } else {
      Pow2Grows(n - 1);
    }
  }
}
