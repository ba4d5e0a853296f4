/** How many failures any key can have counted in any stretch of time. */
module AuthWindow {
  import opened AuthLimit
  import opened AuthHistory

  /** The shorter of the window and the block. */
  function Span(cfg: Config): (n: int)
    requires cfg.Valid()
    ensures 0 < n <= cfg.window && n <= cfg.block
  {
    if cfg.window < cfg.block then cfg.window else cfg.block
  }

  predicate SortedLog(log: Log, t: int) {
    (forall i, j :: 0 <= i < j < |log| ==> log[i].at <= log[j].at) &&
    (forall i :: 0 <= i < |log| ==> log[i].at <= t)
  }

  /** Two failures counted less than a span apart have different fingerprints
      and fewer than max - 1 counted between them. */
  predicate Spread(cfg: Config, max: int, log: Log)
    requires cfg.Valid()
  {
    forall i, j :: 0 <= i < j < |log| && log[j].at < log[i].at + Span(cfg) ==>
      log[i].fp != log[j].fp && j - i < max
  }

  predicate GoodLog(cfg: Config, max: int, log: Log, t: Time)
    requires cfg.Valid()
  {
    SortedLog(log, t) && Spread(cfg, max, log) && |Recent(cfg, log, t)| < max
  }

  lemma {:induction false} RecentLength(cfg: Config, log: Log, now: int)
    ensures |Recent(cfg, log, now)| <= |log|
    decreases |log|
  {
    if log != [] && !log[|log| - 1].blocks {
      RecentLength(cfg, log[..|log| - 1], now);
    }
  }

  lemma {:induction false} RecentEmpty(cfg: Config, log: Log, now: int)
    requires forall i :: 0 <= i < |log| ==> log[i].at <= now - cfg.window
    ensures Recent(cfg, log, now) == []
    decreases |log|
  {
    if log != [] {
      RecentEmpty(cfg, log[..|log| - 1], now);
    }
  }

  /** The recent failures are the end of the log; what comes before has left the
      window or was counted before the last block. */
  lemma {:induction false} RecentIsTail(cfg: Config, log: Log, now: int)
    requires cfg.Valid() && SortedLog(log, now)
    ensures var r := Recent(cfg, log, now); var k := |log| - |r|;
            0 <= k &&
            (forall i :: 0 <= i < |r| ==> r[i] == Failed(log[k + i].at, log[k + i].fp)) &&
            (forall i :: 0 <= i < k ==> log[i].at <= now - cfg.window || log[i].at + cfg.block <= UnblockTime(cfg, log))
    decreases |log|
  {
    RecentLength(cfg, log, now);
    if log != [] {
      var init, e := log[..|log| - 1], log[|log| - 1];
      if e.at <= now - cfg.window {
        RecentEmpty(cfg, init, now);
      } else {
        RecentIsTail(cfg, init, now);
        RecentLength(cfg, init, now);
      }
    }
  }

  /** Counting one more failure keeps the log good. */
  lemma {:induction false} LoggedStaysGood(cfg: Config, max: int, log: Log, fp: int, t: Time, now: Time)
    requires cfg.Valid() && max > 0 && t <= now && GoodLog(cfg, max, log, t)
    ensures GoodLog(cfg, max, Logged(cfg, max, log, fp, now).0, now)
  {
    hide Recent, UnblockTime, Spread;
    RecentLater(cfg, log, t, now);
    var recent := Recent(cfg, log, now);
    var log' := Logged(cfg, max, log, fp, now).0;
    if log' != log {
      var e := Entry(now, fp, |recent| + 1 >= max);
      LogSnoc(cfg, log, e, now);
      LoggedIsApart(cfg, max, log, fp, now);
      SpreadSnoc(cfg, max, log, e, now);
    }
  }

  /** The failures less than a span older than the one now counted. */
  lemma LoggedIsApart(cfg: Config, max: int, log: Log, fp: int, now: Time)
    requires cfg.Valid() && SortedLog(log, now) && now >= UnblockTime(cfg, log)
    requires |Recent(cfg, log, now)| < max && !HasPrint(Recent(cfg, log, now), fp)
    ensures forall i :: 0 <= i < |log| && now < log[i].at + Span(cfg) ==> log[i].fp != fp && |log| - i < max
  {
    hide Recent, UnblockTime, SortedLog;
    var recent := Recent(cfg, log, now);
    var k := |log| - |recent|;
    RecentIsTail(cfg, log, now);
    forall i | 0 <= i < |log| && now < log[i].at + Span(cfg)
      ensures log[i].fp != fp && |log| - i < max
    {
      assert i >= k;
      assert recent[i - k] == Failed(log[i].at, log[i].fp);
      assert recent[i - k] in recent;
    }
  }

  lemma SpreadSnoc(cfg: Config, max: int, log: Log, e: Entry, now: Time)
    requires cfg.Valid() && SortedLog(log, now) && Spread(cfg, max, log) && e.at == now
    requires forall i :: 0 <= i < |log| && now < log[i].at + Span(cfg) ==> log[i].fp != e.fp && |log| - i < max
    ensures SortedLog(log + [e], now) && Spread(cfg, max, log + [e])
  {
  }

  // ------------------------------------------------------ what a limiter counts

  /** record counts the failure: there is room, the key is not blocked, and the
      fingerprint is not among the failures still in the window. */
  predicate Counts(cfg: Config, s: State, side: Side, key: Key, fp: int, now: Time) {
    var room := MakeRoom(cfg, s, side, key, now);
    var c := CounterOf(TableOf(room, side), key);
    !NoRoom(room, side, key) && now >= c.blockedUntil && !HasPrint(Live(c.fails, now - cfg.window), fp)
  }

  /** It shows: the key is blocked from now, or the failure is the last of its
      counter, one longer than what was still in the window. */
  lemma CountingShows(cfg: Config, s: State, side: Side, key: Key, fp: int, now: Time)
    requires cfg.Valid()
    ensures var (s', blocked) := RecordIn(cfg, s, side, key, fp, now);
            var before := CounterOf(TableOf(MakeRoom(cfg, s, side, key, now), side), key);
            var after := CounterOf(TableOf(s', side), key);
            Counts(cfg, s, side, key, fp, now) <==>
            blocked || (after.fails == Live(before.fails, now - cfg.window) + [Failed(now, fp)] && now >= before.blockedUntil)
  {
    hide Live, HasPrint;
  }

  /** The failures of a key that one record call counts. */
  function NewEntry(cfg: Config, s: State, side: Side, key: Key, fp: int, now: Time): Log
    requires cfg.Valid()
  {
    if Counts(cfg, s, side, key, fp, now) then [Entry(now, fp, RecordIn(cfg, s, side, key, fp, now).1)] else []
  }

  /** The failures of a key that one call of the limiter counts, and whether each
      was reported as a block. */
  function NewEntries(cfg: Config, s: State, call: Call, side: Side, key: Key): Log
    requires cfg.Valid()
  {
    match call.op
    case Fail(ip, user, fp) =>
      var s0 := MaybePruned(cfg, s, call.now);
      if side.ByIP? then (if ip == key then NewEntry(cfg, s0, ByIP, ip, fp, call.now) else [])
      else if user == "" || user != key then []
      else NewEntry(cfg, RecordIn(cfg, s0, ByIP, ip, fp, call.now).0, ByUser, user, fp, call.now)
    case _ => []
  }

  /** All failures of a key counted by a limiter from state s on. */
  function CountedBy(cfg: Config, s: State, calls: seq<Call>, side: Side, key: Key): Log
    requires cfg.Valid()
    decreases |calls|
  {
    if calls == [] then []
    else NewEntries(cfg, s, calls[0], side, key) + CountedBy(cfg, Step(cfg, s, calls[0]).0, calls[1..], side, key)
  }

  /** From time t on a key's counter answers as the log of what was counted. */
  predicate Follows(cfg: Config, s: State, side: Side, key: Key, log: Log, t: Time)
    requires cfg.Valid()
  {
    Represents(cfg, CounterOf(TableOf(s, side), key), log, t) && GoodLog(cfg, MaxOf(cfg, side), log, t)
  }

  lemma FollowsLater(cfg: Config, s: State, side: Side, key: Key, log: Log, t: Time, t2: Time)
    requires cfg.Valid() && t <= t2 && Follows(cfg, s, side, key, log, t)
    ensures Follows(cfg, s, side, key, log, t2)
  {
    RepresentsLater(cfg, CounterOf(TableOf(s, side), key), log, t, t2);
    RecentLater(cfg, log, t, t2);
  }

  lemma PrunedFollows(cfg: Config, s: State, side: Side, key: Key, log: Log, now: Time)
    requires cfg.Valid() && Follows(cfg, s, side, key, log, now)
    ensures Follows(cfg, Pruned(cfg, s, now), side, key, log, now)
  {
    hide Represents, Kept, GoodLog;
    var m := TableOf(s, side);
    if key in m && !Kept(cfg, m[key], now) { PrunedRepresents(cfg, m[key], log, now); }
  }

  /** record on any key of any side, whether the table has room or not. */
  lemma RecordFollows(cfg: Config, s: State, side: Side, key: Key, log: Log, side2: Side, key2: Key, fp: int, now: Time)
    requires cfg.Valid() && Follows(cfg, s, side, key, log, now)
    ensures var same := side2 == side && key2 == key;
            Follows(cfg, RecordIn(cfg, s, side2, key2, fp, now).0, side, key,
                    log + if same then NewEntry(cfg, s, side, key, fp, now) else [], now)
  {
    hide Follows, Recorded, Pruned, Counts;
    var room := MakeRoom(cfg, s, side2, key2, now);
    PrunedFollows(cfg, s, side, key, log, now);
    assert log + [] == log;
    if side2 == side && key2 == key {
      RoomFollows(cfg, s, room, side, key, log, fp, now);
    } else {
      OtherFollows(cfg, room, RecordIn(cfg, s, side2, key2, fp, now).0, side, key, log, now);
    }
  }

  lemma OtherFollows(cfg: Config, s: State, s2: State, side: Side, key: Key, log: Log, now: Time)
    requires cfg.Valid() && Follows(cfg, s, side, key, log, now)
    requires CounterOf(TableOf(s, side), key) == CounterOf(TableOf(s2, side), key)
    ensures Follows(cfg, s2, side, key, log, now)
  {
  }

  lemma RoomFollows(cfg: Config, s: State, room: State, side: Side, key: Key, log: Log, fp: int, now: Time)
    requires cfg.Valid() && room == MakeRoom(cfg, s, side, key, now) && Follows(cfg, room, side, key, log, now)
    ensures Follows(cfg, RecordIn(cfg, s, side, key, fp, now).0, side, key,
                    log + NewEntry(cfg, s, side, key, fp, now), now)
  {
    hide Live, Recent, HasPrint, UnblockTime, GoodLog, MakeRoom;
    assert log + [] == log;
    if !NoRoom(room, side, key) {
      var c := CounterOf(TableOf(room, side), key);
      RecordedRepresents(cfg, MaxOf(cfg, side), c, log, fp, now);
      LoggedStaysGood(cfg, MaxOf(cfg, side), log, fp, now, now);
      assert Live(c.fails, now - cfg.window) == Recent(cfg, log, now);
      assert Logged(cfg, MaxOf(cfg, side), log, fp, now).0 == log + NewEntry(cfg, s, side, key, fp, now);
    }
  }

  lemma StepFollows(cfg: Config, s: State, side: Side, key: Key, log: Log, t: Time, call: Call)
    requires cfg.Valid() && Follows(cfg, s, side, key, log, t) && t <= call.now
    ensures Follows(cfg, Step(cfg, s, call).0, side, key, log + NewEntries(cfg, s, call, side, key), call.now)
  {
    hide Follows, RecordIn, Pruned, NewEntry, AfterSuccess;
    var now := call.now;
    FollowsLater(cfg, s, side, key, log, t, now);
    PrunedFollows(cfg, s, side, key, log, now);
    assert log + [] == log;
    match call.op {
      case Fail(ip, user, fp) =>
        var s0 := MaybePruned(cfg, s, now);
        var s1 := RecordIn(cfg, s0, ByIP, ip, fp, now).0;
        RecordFollows(cfg, s0, side, key, log, ByIP, ip, fp, now);
        var log1 := log + if side.ByIP? && ip == key then NewEntry(cfg, s0, ByIP, ip, fp, now) else [];
        if user != "" {
          RecordFollows(cfg, s1, side, key, log1, ByUser, user, fp, now);
          assert log1 + [] == log1;
        }
      case Succeed(ip, user) => SuccessFollows(cfg, s, side, key, log, ip, user, now);
      case _ =>
    }
  }

  lemma SuccessFollows(cfg: Config, s: State, side: Side, key: Key, log: Log, ip: Key, user: Key, now: Time)
    requires cfg.Valid() && Follows(cfg, s, side, key, log, now)
    ensures Follows(cfg, AfterSuccess(cfg, s, ip, user, now), side, key, log, now)
  {
    hide Follows, Pruned;
    PrunedFollows(cfg, s, side, key, log, now);
    var room := if user != "" && (user, ip) !in s.known && |s.known| >= MAX_ENTRIES then Pruned(cfg, s, now) else s;
    OtherFollows(cfg, room, AfterSuccess(cfg, s, ip, user, now), side, key, log, now);
  }

  function StateAfter(cfg: Config, s: State, calls: seq<Call>): State
    requires cfg.Valid()
    decreases |calls|
  {
    if calls == [] then s else StateAfter(cfg, Step(cfg, s, calls[0]).0, calls[1..])
  }

  function TimeAfter(t: Time, calls: seq<Call>): Time {
    if calls == [] then t else calls[|calls| - 1].now
  }

  lemma {:induction false} RunFollows(cfg: Config, s: State, side: Side, key: Key, log: Log, t: Time, calls: seq<Call>)
    requires cfg.Valid() && Follows(cfg, s, side, key, log, t) && Ordered(calls, t)
    ensures Follows(cfg, StateAfter(cfg, s, calls), side, key, log + CountedBy(cfg, s, calls, side, key), TimeAfter(t, calls))
    decreases |calls|
  {
    hide Follows, Step, NewEntries;
    if calls == [] {
      assert log + [] == log;
    } else {
      var s', more := Step(cfg, s, calls[0]).0, NewEntries(cfg, s, calls[0], side, key);
      StepFollows(cfg, s, side, key, log, t, calls[0]);
      RunFollows(cfg, s', side, key, log + more, calls[0].now, calls[1..]);
      assert (log + more) + CountedBy(cfg, s', calls[1..], side, key) ==
             log + (more + CountedBy(cfg, s', calls[1..], side, key));
    }
  }

  lemma EmptyFollows(cfg: Config, side: Side, key: Key)
    requires cfg.Valid()
    ensures Follows(cfg, EMPTY, side, key, [], 0)
  {
  }

  /** The failures counted in the half-open interval [from, to). */
  function Within(log: Log, from: int, to: int): seq<Entry> {
    if log == [] then []
    else if from <= log[0].at < to then [log[0]] + Within(log[1..], from, to)
    else Within(log[1..], from, to)
  }

  /** In a sorted log they are consecutive. */
  lemma {:induction false} WithinIsSlice(log: Log, from: int, to: int, t: int) returns (lo: nat)
    requires SortedLog(log, t)
    ensures lo + |Within(log, from, to)| <= |log|
    ensures Within(log, from, to) == log[lo..lo + |Within(log, from, to)|]
    ensures Within(log, from, to) != [] ==> forall i :: 0 <= i < lo ==> log[i].at < from
    decreases |log|
  {
    hide SortedLog, Within;
    WithinStep(log, from, to);
    lo := 0;
    if log != [] {
      SortedTail(log, t);
      var rest := Within(log[1..], from, to);
      var tail := WithinIsSlice(log[1..], from, to, t);
      if from <= log[0].at < to {
        if rest != [] { SliceAtTheHead(log, from, tail, |rest|); }
        assert [log[0]] + rest == log[0..1 + |rest|];
      } else {
        lo := tail + 1;
        assert log[1..][tail..tail + |rest|] == log[lo..lo + |rest|];
        if rest != [] {
          WithinBounds(log[1..], from, to);
          HeadIsEarlier(log, from, to, tail, rest);
        }
      }
    }
  }

  lemma WithinStep(log: Log, from: int, to: int)
    ensures Within(log, from, to) ==
            if log == [] then []
            else if from <= log[0].at < to then [log[0]] + Within(log[1..], from, to)
            else Within(log[1..], from, to)
  {
  }

  lemma SortedTail(log: Log, t: int)
    requires SortedLog(log, t) && log != []
    ensures SortedLog(log[1..], t)
    ensures forall i :: 0 <= i < |log| ==> log[0].at <= log[i].at
  {
  }

  /** When the head lies in the interval, no later entry lies before it. */
  lemma SliceAtTheHead(log: Log, from: int, tail: nat, n: nat)
    requires log != [] && from <= log[0].at && tail + n < |log| && n > 0
    requires forall i :: 0 <= i < |log| ==> log[0].at <= log[i].at
    requires forall i :: 0 <= i < tail ==> log[1..][i].at < from
    ensures tail == 0
  {
    assert log[1..][0] == log[1];
  }

  lemma HeadIsEarlier(log: Log, from: int, to: int, tail: nat, rest: Log)
    requires tail + |rest| < |log| && rest != [] && rest == log[1..][tail..tail + |rest|]
    requires forall i :: 0 <= i < |log| ==> log[0].at <= log[i].at
    requires forall i :: 0 <= i < tail ==> log[1..][i].at < from
    requires !(from <= log[0].at < to) && from <= rest[0].at < to
    ensures forall i :: 0 <= i < tail + 1 ==> log[i].at < from
  {
    assert rest[0] == log[1 + tail];
    forall i | 0 <= i < tail + 1 ensures log[i].at < from {
      if i > 0 { assert log[1..][i - 1] == log[i]; }
    }
  }

  /** In any run of a limiter, full tables and sweeps included, no interval of at most
      a span holds more than max counted failures of one key, and their fingerprints
      all differ. */
  lemma AtMostMaxPerSpan(cfg: Config, calls: seq<Call>, side: Side, key: Key, from: int)
    requires cfg.Valid() && Ordered(calls, 0)
    ensures var counted := Within(CountedBy(cfg, EMPTY, calls, side, key), from, from + Span(cfg));
            |counted| <= MaxOf(cfg, side) &&
            forall i, j :: 0 <= i < j < |counted| ==> counted[i].fp != counted[j].fp
  {
    var log := CountedBy(cfg, EMPTY, calls, side, key);
    FollowsAfter(cfg, calls, side, key, TimeAfter(0, calls));
    InSpan(cfg, MaxOf(cfg, side), log, TimeAfter(0, calls), from);
  }

  lemma {:induction false} InSpan(cfg: Config, max: int, log: Log, t: Time, from: int)
    requires cfg.Valid() && max > 0 && GoodLog(cfg, max, log, t)
    ensures var counted := Within(log, from, from + Span(cfg));
            |counted| <= max && forall i, j :: 0 <= i < j < |counted| ==> counted[i].fp != counted[j].fp
  {
    var to := from + Span(cfg);
    var counted := Within(log, from, to);
    var lo := WithinIsSlice(log, from, to, t);
    WithinBounds(log, from, to);
    forall i, j | 0 <= i < j < |counted| ensures counted[i].fp != counted[j].fp && j - i < max {
      assert counted[i] == log[lo + i] && counted[j] == log[lo + j];
    }
    if |counted| > 1 {
      assert counted[0].fp != counted[|counted| - 1].fp;
    }
  }

  lemma {:induction false} WithinBounds(log: Log, from: int, to: int)
    ensures forall e :: e in Within(log, from, to) ==> from <= e.at < to
    decreases |log|
  {
    if log != [] { WithinBounds(log[1..], from, to); }
  }

  /** After any run, a failed login is reported to block the address, or the user,
      exactly when it is counted there and is the max-th counted since the last block
      inside the window. */
  lemma BlocksAtTheMax(cfg: Config, calls: seq<Call>, ip: Key, user: Key, fp: int, now: Time)
    requires cfg.Valid() && Ordered(calls, 0) && TimeAfter(0, calls) <= now
    ensures var s, call := StateAfter(cfg, EMPTY, calls), Call(Fail(ip, user, fp), now);
            && (Step(cfg, s, call).1.ipBlocked <==>
                NewEntries(cfg, s, call, ByIP, ip) != [] &&
                |Recent(cfg, CountedBy(cfg, EMPTY, calls, ByIP, ip), now)| + 1 == cfg.maxPerIP)
            && (Step(cfg, s, call).1.userBlocked <==>
                NewEntries(cfg, s, call, ByUser, user) != [] &&
                |Recent(cfg, CountedBy(cfg, EMPTY, calls, ByUser, user), now)| + 1 == cfg.maxPerUser)
  {
    hide Follows, RecordIn, Pruned, Recent, Counts, CountedBy;
    var s := StateAfter(cfg, EMPTY, calls);
    var ipLog, userLog := CountedBy(cfg, EMPTY, calls, ByIP, ip), CountedBy(cfg, EMPTY, calls, ByUser, user);
    FollowsAfter(cfg, calls, ByIP, ip, now);
    FollowsAfter(cfg, calls, ByUser, user, now);
    PrunedFollows(cfg, s, ByIP, ip, ipLog, now);
    PrunedFollows(cfg, s, ByUser, user, userLog, now);
    var s0 := MaybePruned(cfg, s, now);
    RecordFollows(cfg, s0, ByUser, user, userLog, ByIP, ip, fp, now);
    assert userLog + [] == userLog;
    BlockOfRecord(cfg, s0, ByIP, ip, ipLog, fp, now);
    BlockOfRecord(cfg, RecordIn(cfg, s0, ByIP, ip, fp, now).0, ByUser, user, userLog, fp, now);
  }

  lemma FollowsAfter(cfg: Config, calls: seq<Call>, side: Side, key: Key, now: Time)
    requires cfg.Valid() && Ordered(calls, 0) && TimeAfter(0, calls) <= now
    ensures Follows(cfg, StateAfter(cfg, EMPTY, calls), side, key, CountedBy(cfg, EMPTY, calls, side, key), now)
  {
    hide Follows, StateAfter, CountedBy;
    var s, log := StateAfter(cfg, EMPTY, calls), CountedBy(cfg, EMPTY, calls, side, key);
    EmptyFollows(cfg, side, key);
    RunFollows(cfg, EMPTY, side, key, [], 0, calls);
    assert [] + log == log;
    FollowsLater(cfg, s, side, key, log, TimeAfter(0, calls), now);
  }

  lemma BlockOfRecord(cfg: Config, s: State, side: Side, key: Key, log: Log, fp: int, now: Time)
    requires cfg.Valid() && Follows(cfg, s, side, key, log, now)
    ensures RecordIn(cfg, s, side, key, fp, now).1 <==>
            Counts(cfg, s, side, key, fp, now) && |Recent(cfg, log, now)| + 1 == MaxOf(cfg, side)
  {
    hide Live, Recent, HasPrint, UnblockTime, Pruned;
    PrunedFollows(cfg, s, side, key, log, now);
  }
}
