/** internal/authfail/schedule.go and the transactions of
    internal/db/auth_backoff.go: the pause between login attempts while a provider
    rejects the credentials. Times are in milliseconds; a transaction is one step. */
module AuthBackoff {
  import opened Wrappers

  const MINUTE := 60_000
  const HOUR := 60 * MINUTE
  const STEPS: seq<int> := [1 * MINUTE, 5 * MINUTE, 15 * MINUTE, 60 * MINUTE]
  const LONG_REJECTION := 24 * HOUR
  const SLOW_STEP := 6 * HOUR
  const BURST_WINDOW := 30_000
  const MAX_ERROR_LEN := 500

  datatype Row = Row(user: int, failures: int, firstFailure: int, lastFailure: int, nextAttempt: int,
                     error: string, notified: int)

  function Delay(failures: int, sinceFirst: int): (d: int)
    ensures failures > 0 ==> MINUTE <= d <= SLOW_STEP
  {
    if failures <= 0 then 0
    else if sinceFirst >= LONG_REJECTION && failures > |STEPS| then SLOW_STEP
    else if failures > |STEPS| then STEPS[|STEPS| - 1]
    else STEPS[failures - 1]
  }

  /** More rejections, or older ones, never make the pause shorter. */
  lemma DelayIsMonotone(f: int, since: int, g: int, later: int)
    requires f <= g && since <= later
    ensures Delay(f, since) <= Delay(g, later)
  {
  }

  function Cut(msg: string): string {
    if |msg| > MAX_ERROR_LEN then msg[..MAX_ERROR_LEN] else msg
  }

  /** AfterFailure. */
  function AfterFailure(prev: Option<Row>, user: int, now: int, msg: string): Row {
    if prev.None? || prev.value.failures <= 0 then
      Row(user, 1, now, now, now + Delay(1, 0), Cut(msg), 0)
    else
      var p := prev.value.(error := Cut(msg), lastFailure := now);
      if now - prev.value.lastFailure < BURST_WINDOW then p
      else p.(failures := p.failures + 1,
              nextAttempt := now + Delay(p.failures + 1, now - p.firstFailure))
  }

  function RetryLease(r: Row, now: int): int {
    now + Delay(r.failures, now - r.firstFailure)
  }

  predicate Paused(r: Row, now: int) {
    r.nextAttempt > now
  }

  // ------------------------------------------------------------- transactions

  /** Whether an attempt is allowed, and the row afterwards. */
  function Acquired(row: Option<Row>, now: int): (bool, Option<Row>) {
    match row
    case None => (true, None)
    case Some(r) => if Paused(r, now) then (false, row) else (true, Some(r.(nextAttempt := RetryLease(r, now))))
  }

  /** The row after a rejection, and whether the rejection was counted. */
  function Recorded(row: Option<Row>, user: int, now: int, msg: string): (Row, bool) {
    var prev := if row.Some? then row.value else Row(user, 0, 0, 0, 0, "", 0);
    var st := AfterFailure(Some(prev), user, now, msg);
    (if prev.failures == 0 then st.(notified := 0) else st, prev.failures == 0 || st.failures != prev.failures)
  }

  datatype Key = Key(kind: string, id: int)

  class Table {
    var rows: map<Key, Row>

    constructor ()
      ensures rows == map[]
    {
      rows := map[];
    }

    function At(key: Key): Option<Row>
      reads this
    {
      if key in rows then Some(rows[key]) else None
    }

    method AcquireAuthAttempt(key: Key, now: int) returns (ok: bool, st: Option<Row>)
      modifies this
      ensures (ok, At(key)) == Acquired(old(At(key)), now)
      ensures st == At(key)
      ensures rows - {key} == old(rows) - {key}
    {
      if key !in rows { return true, None; }
      var r := rows[key];
      if Paused(r, now) { return false, Some(r); }
      r := r.(nextAttempt := RetryLease(r, now));
      rows := rows[key := r];
      return true, Some(r);
    }

    method RecordAuthFailure(key: Key, user: int, now: int, msg: string) returns (st: Row, counted: bool)
      modifies this
      ensures (st, counted) == Recorded(old(At(key)), user, now, msg)
      ensures At(key) == Some(st.(user := if old(At(key)).Some? then old(At(key)).value.user else user))
      ensures rows - {key} == old(rows) - {key}
    {
      if key !in rows { rows := rows[key := Row(user, 0, 0, 0, 0, "", 0)]; }
      var prev := rows[key];
      st := AfterFailure(Some(prev), user, now, msg);
      counted := prev.failures == 0 || st.failures != prev.failures;
      if prev.failures == 0 { st := st.(notified := 0); }
      rows := rows[key := rows[key].(failures := st.failures, firstFailure := st.firstFailure,
                                     lastFailure := st.lastFailure, nextAttempt := st.nextAttempt,
                                     error := st.error, notified := st.notified)];
    }

    method ClearAuthBackoff(key: Key) returns (st: Option<Row>)
      modifies this
      ensures rows == old(rows) - {key}
      ensures st == if old(At(key)).Some? && old(At(key)).value.failures != 0 then old(At(key)) else None
    {
      if key !in rows {
        assert rows == rows - {key};
        return None;
      }
      var r := rows[key];
      rows := rows - {key};
      if r.failures == 0 { return None; }
      return Some(r);
    }
  }
}
