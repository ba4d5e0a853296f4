/** What the limiter promises, stated over a history that is never pruned: for
    every key the list of the failures that were counted. A counted failure may
    have started a block; the failures since the last block and inside the
    window decide the next one. */
module AuthHistory {
  import opened AuthLimit

  datatype Entry = Entry(at: Time, fp: int, blocks: bool)

  type Log = seq<Entry>

  /** When the last block of the key ends; 0 when there was none. */
  function UnblockTime(cfg: Config, log: Log): Time
    requires cfg.Valid()
  {
    if log == [] then 0
    else if log[|log| - 1].blocks then log[|log| - 1].at + cfg.block
    else UnblockTime(cfg, log[..|log| - 1])
  }

  /** The failures counted since the last block and still inside the window. */
  function Recent(cfg: Config, log: Log, now: int): seq<Failed> {
    if log == [] || log[|log| - 1].blocks then []
    else
      var e := log[|log| - 1];
      var earlier := Recent(cfg, log[..|log| - 1], now);
      if e.at > now - cfg.window then earlier + [Failed(e.at, e.fp)] else earlier
  }

  function Logged(cfg: Config, max: int, log: Log, fp: int, now: Time): (Log, bool)
    requires cfg.Valid()
  {
    if now < UnblockTime(cfg, log) then (log, false)
    else if HasPrint(Recent(cfg, log, now), fp) then (log, false)
    else
      var blocks := |Recent(cfg, log, now)| + 1 >= max;
      (log + [Entry(now, fp, blocks)], blocks)
  }

  // -------------------------------------------------- a counter and its log

  predicate SortedFails(fails: seq<Failed>, t: int) {
    (forall i, j :: 0 <= i < j < |fails| ==> fails[i].at <= fails[j].at) &&
    (forall i :: 0 <= i < |fails| ==> fails[i].at <= t)
  }

  /** From time t on, the counter answers as the log does. */
  predicate Represents(cfg: Config, c: Counter, log: Log, t: Time)
    requires cfg.Valid()
  {
    SortedFails(c.fails, t) &&
    Live(c.fails, t - cfg.window) == Recent(cfg, log, t) &&
    (c.blockedUntil == UnblockTime(cfg, log) || (c.blockedUntil <= t && UnblockTime(cfg, log) <= t))
  }

  lemma LiveSnoc(fails: seq<Failed>, f: Failed, cutoff: int)
    ensures Live(fails + [f], cutoff) == if f.at > cutoff then Live(fails, cutoff) + [f] else Live(fails, cutoff)
  {
    assert (fails + [f])[..|fails|] == fails;
  }

  lemma {:induction false} LiveTwice(fails: seq<Failed>, a: int, b: int)
    requires a <= b
    ensures Live(Live(fails, a), b) == Live(fails, b)
    decreases |fails|
  {
    if fails != [] {
      var last := |fails| - 1;
      LiveTwice(fails[..last], a, b);
      LiveSnoc(Live(fails[..last], a), fails[last], b);
    }
  }

  lemma {:induction false} RecentLater(cfg: Config, log: Log, t: int, t2: int)
    requires t <= t2
    ensures Recent(cfg, log, t2) == Live(Recent(cfg, log, t), t2 - cfg.window)
    ensures |Recent(cfg, log, t2)| <= |Recent(cfg, log, t)|
    decreases |log|
  {
    if log != [] && !log[|log| - 1].blocks {
      var init, e := log[..|log| - 1], log[|log| - 1];
      RecentLater(cfg, init, t, t2);
      LiveSnoc(Recent(cfg, init, t), Failed(e.at, e.fp), t2 - cfg.window);
    }
  }

  lemma {:induction false} RepresentsLater(cfg: Config, c: Counter, log: Log, t: Time, t2: Time)
    requires cfg.Valid() && t <= t2 && Represents(cfg, c, log, t)
    ensures Represents(cfg, c, log, t2)
  {
    hide Live, Recent, UnblockTime;
    LiveTwice(c.fails, t - cfg.window, t2 - cfg.window);
    RecentLater(cfg, log, t, t2);
  }

  lemma {:induction false} LiveSorted(fails: seq<Failed>, cutoff: int, t: int)
    requires SortedFails(fails, t)
    ensures SortedFails(Live(fails, cutoff), t)
    ensures forall f :: f in Live(fails, cutoff) ==> f in fails && f.at > cutoff
    decreases |fails|
  {
    hide SortedFails, Live;
    LiveNothing(cutoff);
    NothingSorted(t);
    if fails != [] {
      var init, f := fails[..|fails| - 1], fails[|fails| - 1];
      assert fails == init + [f];
      SortedInit(init, f, t);
      LiveSorted(init, cutoff, t);
      LiveSnoc(init, f, cutoff);
      if f.at > cutoff {
        SortedExtended(init, Live(init, cutoff), f, t);
      }
    }
  }

  lemma NothingSorted(t: int)
    ensures SortedFails([], t)
  {
  }

  lemma SortedInit(init: seq<Failed>, f: Failed, t: int)
    requires SortedFails(init + [f], t)
    ensures SortedFails(init, t)
  {
    var all := init + [f];
    assert forall i :: 0 <= i < |init| ==> all[i] == init[i];
  }

  lemma SortedExtended(init: seq<Failed>, some: seq<Failed>, f: Failed, t: int)
    requires SortedFails(init + [f], t) && SortedFails(some, t)
    requires forall g :: g in some ==> g in init
    ensures SortedFails(some + [f], t)
  {
    var all := init + [f];
    assert all[|init|] == f;
    forall i | 0 <= i < |some| ensures some[i].at <= f.at {
      assert some[i] in init;
      var k :| 0 <= k < |init| && init[k] == some[i];
      assert all[k] == init[k];
    }
  }

  lemma {:induction false} LiveIdle(fails: seq<Failed>, cutoff: int)
    requires forall i :: 0 <= i < |fails| ==> fails[i].at > cutoff
    ensures Live(fails, cutoff) == fails
    decreases |fails|
  {
    if fails != [] {
      LiveIdle(fails[..|fails| - 1], cutoff);
    }
  }

  lemma {:induction false} LiveDead(fails: seq<Failed>, cutoff: int)
    requires forall i :: 0 <= i < |fails| ==> fails[i].at <= cutoff
    ensures Live(fails, cutoff) == []
    decreases |fails|
  {
    if fails != [] {
      LiveDead(fails[..|fails| - 1], cutoff);
    }
  }

  lemma LogSnoc(cfg: Config, log: Log, e: Entry, now: int)
    requires cfg.Valid()
    ensures UnblockTime(cfg, log + [e]) == if e.blocks then e.at + cfg.block else UnblockTime(cfg, log)
    ensures Recent(cfg, log + [e], now) ==
            if e.blocks then []
            else if e.at > now - cfg.window then Recent(cfg, log, now) + [Failed(e.at, e.fp)]
            else Recent(cfg, log, now)
  {
    assert (log + [e])[..|log|] == log;
  }

  /** One failure keeps the representation and reports the same block. */
  lemma {:induction false} RecordedRepresents(cfg: Config, max: int, c: Counter, log: Log, fp: int, now: Time)
    requires cfg.Valid() && Represents(cfg, c, log, now)
    ensures Recorded(cfg, max, c, fp, now).1 == Logged(cfg, max, log, fp, now).1
    ensures Represents(cfg, Recorded(cfg, max, c, fp, now).0, Logged(cfg, max, log, fp, now).0, now)
  {
    hide Live, HasPrint, Recent, UnblockTime;
    var cutoff := now - cfg.window;
    var kept := Live(c.fails, cutoff);
    assert now < c.blockedUntil <==> now < UnblockTime(cfg, log);
    if now >= c.blockedUntil {
      LiveSorted(c.fails, cutoff, now);
      LiveTwice(c.fails, cutoff, cutoff);
      if !HasPrint(kept, fp) {
        CountedRepresents(cfg, max, c.(fails := kept), log, fp, now);
      }
    }
  }

  /** The same for a failure that is counted, on a counter already compacted. */
  lemma {:induction false} CountedRepresents(cfg: Config, max: int, c: Counter, log: Log, fp: int, now: Time)
    requires cfg.Valid() && SortedFails(c.fails, now) && c.fails == Recent(cfg, log, now)
    requires Live(c.fails, now - cfg.window) == c.fails
    requires c.blockedUntil == UnblockTime(cfg, log) || (c.blockedUntil <= now && UnblockTime(cfg, log) <= now)
    ensures var blocks := |c.fails| + 1 >= max;
            Represents(cfg, if blocks then Counter([], now + cfg.block) else c.(fails := c.fails + [Failed(now, fp)]),
                       log + [Entry(now, fp, blocks)], now)
  {
    hide Live, Recent, UnblockTime;
    LogSnoc(cfg, log, Entry(now, fp, |c.fails| + 1 >= max), now);
    LiveNothing(now - cfg.window);
    LiveSnoc(c.fails, Failed(now, fp), now - cfg.window);
    SortedSnoc(c.fails, fp, now);
  }

  lemma SortedSnoc(fails: seq<Failed>, fp: int, now: Time)
    requires SortedFails(fails, now)
    ensures SortedFails(fails + [Failed(now, fp)], now)
  {
  }

  lemma LiveNothing(cutoff: int)
    ensures Live([], cutoff) == [] && SortedFails([], 0)
    ensures forall t: Time :: SortedFails([], t)
  {
  }

  /** What pruning removes answers as a fresh counter from then on. */
  lemma PrunedRepresents(cfg: Config, c: Counter, log: Log, now: Time)
    requires cfg.Valid() && Represents(cfg, c, log, now) && !Kept(cfg, c, now)
    ensures Represents(cfg, FRESH, log, now)
  {
    LiveDead(c.fails, now - cfg.window);
  }

  // ---------------------------------------------------------------- whole runs

  datatype Op = Allow(ip: Key, user: Key) | Fail(ip: Key, user: Key, fp: int) | Succeed(ip: Key, user: Key) | Sweep

  datatype Call = Call(op: Op, now: Time)

  datatype Answer = Allowing(ok: bool) | Failing(ipBlocked: bool, userBlocked: bool) | Silent

  /** One call of the limiter; Sweep is a prune nobody asked for. */
  function Step(cfg: Config, s: State, call: Call): (State, Answer)
    requires cfg.Valid()
  {
    match call.op
    case Allow(ip, user) =>
      var s' := MaybePruned(cfg, s, call.now);
      (s', Allowing(Allowed(s', ip, user, call.now)))
    case Fail(ip, user, fp) =>
      var (s', ipBlocked, userBlocked) := AfterFailure(cfg, s, ip, user, fp, call.now);
      (s', Failing(ipBlocked, userBlocked))
    case Succeed(ip, user) => (AfterSuccess(cfg, s, ip, user, call.now), Silent)
    case Sweep => (Pruned(cfg, s, call.now), Silent)
  }

  /** The call finds a table that stays full after pruning, and is not recorded. */
  predicate Drops(cfg: Config, s: State, call: Call)
    requires cfg.Valid()
  {
    match call.op
    case Fail(ip, user, fp) =>
      var s0 := MaybePruned(cfg, s, call.now);
      NoRoom(MakeRoom(cfg, s0, ByIP, ip, call.now), ByIP, ip) ||
      (user != "" &&
       var s1 := RecordIn(cfg, s0, ByIP, ip, fp, call.now).0;
       NoRoom(MakeRoom(cfg, s1, ByUser, user, call.now), ByUser, user))
    case Succeed(ip, user) =>
      user != "" && (user, ip) !in s.known && |s.known| >= MAX_ENTRIES &&
      (user, ip) !in Pruned(cfg, s, call.now).known && |Pruned(cfg, s, call.now).known| >= MAX_ENTRIES
    case _ => false
  }

  /** The never-pruned record of everything: counted failures per key and the
      last success of every pair. */
  datatype History = History(byIP: map<Key, Log>, byUser: map<Key, Log>, seen: map<(Key, Key), Time>)

  const NOTHING := History(map[], map[], map[])

  function LogOf(m: map<Key, Log>, key: Key): Log {
    if key in m then m[key] else []
  }

  predicate LogBlocked(cfg: Config, log: Log, now: Time)
    requires cfg.Valid()
  {
    now < UnblockTime(cfg, log)
  }

  predicate RecentlySeen(cfg: Config, h: History, user: Key, ip: Key, now: Time) {
    (user, ip) in h.seen && now < h.seen[(user, ip)] + cfg.knownTTL
  }

  function HistoryStep(cfg: Config, h: History, call: Call): (History, Answer)
    requires cfg.Valid()
  {
    match call.op
    case Allow(ip, user) =>
      (h, Allowing(!LogBlocked(cfg, LogOf(h.byIP, ip), call.now) &&
                   (user == "" || !LogBlocked(cfg, LogOf(h.byUser, user), call.now) ||
                    RecentlySeen(cfg, h, user, ip, call.now))))
    case Fail(ip, user, fp) =>
      var (log, ipBlocked) := Logged(cfg, cfg.maxPerIP, LogOf(h.byIP, ip), fp, call.now);
      var h1 := h.(byIP := h.byIP[ip := log]);
      if user == "" then (h1, Failing(ipBlocked, false))
      else
        var (userLog, userBlocked) := Logged(cfg, cfg.maxPerUser, LogOf(h.byUser, user), fp, call.now);
        (h1.(byUser := h.byUser[user := userLog]), Failing(ipBlocked, userBlocked))
    case Succeed(ip, user) =>
      (if user == "" then h else h.(seen := h.seen[(user, ip) := call.now]), Silent)
    case Sweep => (h, Silent)
  }

  function Answers(cfg: Config, s: State, calls: seq<Call>): seq<Answer>
    requires cfg.Valid()
    decreases |calls|
  {
    if calls == [] then []
    else
      var (s', a) := Step(cfg, s, calls[0]);
      [a] + Answers(cfg, s', calls[1..])
  }

  function HistoryAnswers(cfg: Config, h: History, calls: seq<Call>): seq<Answer>
    requires cfg.Valid()
    decreases |calls|
  {
    if calls == [] then []
    else
      var (h', a) := HistoryStep(cfg, h, calls[0]);
      [a] + HistoryAnswers(cfg, h', calls[1..])
  }

  predicate NeverDrops(cfg: Config, s: State, calls: seq<Call>)
    requires cfg.Valid()
    decreases |calls|
  {
    calls == [] || (!Drops(cfg, s, calls[0]) && NeverDrops(cfg, Step(cfg, s, calls[0]).0, calls[1..]))
  }

  /** The clock readings do not decrease from t on. */
  predicate Ordered(calls: seq<Call>, t: Time) {
    calls == [] || (t <= calls[0].now && Ordered(calls[1..], calls[0].now))
  }

  ghost predicate TableTracks(cfg: Config, m: Table, logs: map<Key, Log>, t: Time)
    requires cfg.Valid()
  {
    forall k: Key :: Represents(cfg, CounterOf(m, k), LogOf(logs, k), t)
  }

  ghost predicate KnownTracks(cfg: Config, m: Known, seen: map<(Key, Key), Time>, t: Time) {
    forall p: (Key, Key) ::
      if p in m then p in seen && m[p] == seen[p] + cfg.knownTTL
      else p in seen ==> seen[p] + cfg.knownTTL <= t
  }

  ghost predicate Tracks(cfg: Config, s: State, h: History, t: Time)
    requires cfg.Valid()
  {
    TableTracks(cfg, s.byIP, h.byIP, t) && TableTracks(cfg, s.byUser, h.byUser, t) &&
    KnownTracks(cfg, s.known, h.seen, t)
  }

  lemma TracksLater(cfg: Config, s: State, h: History, t: Time, t2: Time)
    requires cfg.Valid() && t <= t2 && Tracks(cfg, s, h, t)
    ensures Tracks(cfg, s, h, t2)
  {
    forall k: Key
      ensures Represents(cfg, CounterOf(s.byIP, k), LogOf(h.byIP, k), t2)
      ensures Represents(cfg, CounterOf(s.byUser, k), LogOf(h.byUser, k), t2)
    {
      RepresentsLater(cfg, CounterOf(s.byIP, k), LogOf(h.byIP, k), t, t2);
      RepresentsLater(cfg, CounterOf(s.byUser, k), LogOf(h.byUser, k), t, t2);
    }
  }

  lemma PrunedTableTracks(cfg: Config, m: Table, logs: map<Key, Log>, now: Time)
    requires cfg.Valid() && TableTracks(cfg, m, logs, now)
    ensures TableTracks(cfg, PrunedTable(cfg, m, now), logs, now)
  {
    forall k: Key ensures Represents(cfg, CounterOf(PrunedTable(cfg, m, now), k), LogOf(logs, k), now) {
      assert Represents(cfg, CounterOf(m, k), LogOf(logs, k), now);
      if k in m && !Kept(cfg, m[k], now) {
        PrunedRepresents(cfg, m[k], LogOf(logs, k), now);
      }
    }
  }

  lemma PrunedTracks(cfg: Config, s: State, h: History, now: Time)
    requires cfg.Valid() && Tracks(cfg, s, h, now)
    ensures Tracks(cfg, Pruned(cfg, s, now), h, now)
  {
    PrunedTableTracks(cfg, s.byIP, h.byIP, now);
    PrunedTableTracks(cfg, s.byUser, h.byUser, now);
  }

  lemma TableRecord(cfg: Config, max: int, m: Table, logs: map<Key, Log>, key: Key, fp: int, now: Time)
    requires cfg.Valid() && TableTracks(cfg, m, logs, now)
    ensures var (c, blocked) := Recorded(cfg, max, CounterOf(m, key), fp, now);
            var (log, logBlocked) := Logged(cfg, max, LogOf(logs, key), fp, now);
            blocked == logBlocked && TableTracks(cfg, m[key := c], logs[key := log], now)
  {
    var c := Recorded(cfg, max, CounterOf(m, key), fp, now).0;
    var log := Logged(cfg, max, LogOf(logs, key), fp, now).0;
    var m', logs' := m[key := c], logs[key := log];
    assert Represents(cfg, CounterOf(m, key), LogOf(logs, key), now);
    RecordedRepresents(cfg, max, CounterOf(m, key), LogOf(logs, key), fp, now);
    hide Represents, Recorded, Logged;
    forall k: Key ensures Represents(cfg, CounterOf(m', k), LogOf(logs', k), now) {
      assert Represents(cfg, CounterOf(m, k), LogOf(logs, k), now);
    }
  }

  function LogsOf(h: History, side: Side): map<Key, Log> {
    if side.ByIP? then h.byIP else h.byUser
  }

  function WithLog(h: History, side: Side, key: Key, log: Log): History {
    if side.ByIP? then h.(byIP := h.byIP[key := log]) else h.(byUser := h.byUser[key := log])
  }

  /** One recorded failure on one side. */
  lemma RecordTracks(cfg: Config, s: State, h: History, side: Side, key: Key, fp: int, now: Time)
    requires cfg.Valid() && Tracks(cfg, s, h, now)
    requires !NoRoom(MakeRoom(cfg, s, side, key, now), side, key)
    ensures var (s', blocked) := RecordIn(cfg, s, side, key, fp, now);
            var (log, logBlocked) := Logged(cfg, MaxOf(cfg, side), LogOf(LogsOf(h, side), key), fp, now);
            blocked == logBlocked && Tracks(cfg, s', WithLog(h, side, key, log), now)
  {
    hide TableTracks, KnownTracks, Recorded, Logged, PrunedTable, PrunedKnown;
    var room := MakeRoom(cfg, s, side, key, now);
    PrunedTracks(cfg, s, h, now);
    TableRecord(cfg, MaxOf(cfg, side), TableOf(room, side), LogsOf(h, side), key, fp, now);
  }

  lemma FailTracks(cfg: Config, s: State, h: History, ip: Key, user: Key, fp: int, now: Time)
    requires cfg.Valid() && Tracks(cfg, MaybePruned(cfg, s, now), h, now)
    requires !Drops(cfg, s, Call(Fail(ip, user, fp), now))
    ensures Step(cfg, s, Call(Fail(ip, user, fp), now)).1 == HistoryStep(cfg, h, Call(Fail(ip, user, fp), now)).1
    ensures Tracks(cfg, Step(cfg, s, Call(Fail(ip, user, fp), now)).0, HistoryStep(cfg, h, Call(Fail(ip, user, fp), now)).0, now)
  {
    hide Tracks, Recorded, Logged, Pruned, RecordIn, NoRoom;
    var s0 := MaybePruned(cfg, s, now);
    RecordTracks(cfg, s0, h, ByIP, ip, fp, now);
    if user != "" {
      var s1 := RecordIn(cfg, s0, ByIP, ip, fp, now).0;
      var h1 := WithLog(h, ByIP, ip, Logged(cfg, cfg.maxPerIP, LogOf(h.byIP, ip), fp, now).0);
      RecordTracks(cfg, s1, h1, ByUser, user, fp, now);
    }
  }

  lemma SuccessTracks(cfg: Config, s: State, h: History, ip: Key, user: Key, now: Time)
    requires cfg.Valid() && Tracks(cfg, s, h, now) && !Drops(cfg, s, Call(Succeed(ip, user), now))
    ensures Tracks(cfg, AfterSuccess(cfg, s, ip, user, now), HistoryStep(cfg, h, Call(Succeed(ip, user), now)).0, now)
  {
    hide TableTracks, PrunedTable;
    if user != "" { PrunedTracks(cfg, s, h, now); }
  }

  /** One call answers as the history does and keeps the limiter in step with it. */
  lemma StepTracks(cfg: Config, s: State, h: History, t: Time, call: Call)
    requires cfg.Valid() && Tracks(cfg, s, h, t) && t <= call.now && !Drops(cfg, s, call)
    ensures Step(cfg, s, call).1 == HistoryStep(cfg, h, call).1
    ensures Tracks(cfg, Step(cfg, s, call).0, HistoryStep(cfg, h, call).0, call.now)
  {
    hide Tracks, Logged, RecordIn, Pruned, NoRoom, AfterSuccess;
    var now := call.now;
    TracksLater(cfg, s, h, t, now);
    PrunedTracks(cfg, s, h, now);
    match call.op {
      case Allow(ip, user) => AllowTracks(cfg, MaybePruned(cfg, s, now), h, ip, user, now);
      case Fail(ip, user, fp) => FailTracks(cfg, s, h, ip, user, fp, now);
      case Succeed(ip, user) => SuccessTracks(cfg, s, h, ip, user, now);
      case Sweep =>
    }
  }

  lemma AllowTracks(cfg: Config, s: State, h: History, ip: Key, user: Key, now: Time)
    requires cfg.Valid() && Tracks(cfg, s, h, now)
    ensures Allowing(Allowed(s, ip, user, now)) == HistoryStep(cfg, h, Call(Allow(ip, user), now)).1
  {
    assert Represents(cfg, CounterOf(s.byIP, ip), LogOf(h.byIP, ip), now);
    assert Represents(cfg, CounterOf(s.byUser, user), LogOf(h.byUser, user), now);
    var p := (user, ip);
    assert KnownIn(s.known, user, ip, now) <==> RecentlySeen(cfg, h, user, ip, now);
  }

  lemma {:induction false} RunTracks(cfg: Config, s: State, h: History, t: Time, calls: seq<Call>)
    requires cfg.Valid() && Tracks(cfg, s, h, t) && Ordered(calls, t) && NeverDrops(cfg, s, calls)
    ensures Answers(cfg, s, calls) == HistoryAnswers(cfg, h, calls)
    decreases |calls|
  {
    hide Represents, Step, HistoryStep, Drops;
    if calls != [] {
      StepTracks(cfg, s, h, t, calls[0]);
      RunTracks(cfg, Step(cfg, s, calls[0]).0, HistoryStep(cfg, h, calls[0]).0, calls[0].now, calls[1..]);
    }
  }

  /** Pruning and compaction are invisible: whatever is pruned and whenever, as
      long as no call is dropped by a full table, every answer is that of the
      history that forgets nothing. */
  lemma PruningIsInvisible(cfg: Config, calls: seq<Call>)
    requires cfg.Valid() && Ordered(calls, 0) && NeverDrops(cfg, EMPTY, calls)
    ensures Answers(cfg, EMPTY, calls) == HistoryAnswers(cfg, NOTHING, calls)
  {
    RunTracks(cfg, EMPTY, NOTHING, 0, calls);
  }
}
