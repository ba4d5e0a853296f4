/** When the limiter's tables are full, and what it does while they are not: which
    failures it drops, and that guessing is stopped. */
module AuthCapacity {
  import opened AuthLimit
  import opened AuthHistory
  import opened AuthWindow

  // ------------------------------------------------------------- what a run names

  /** The addresses, users and pairs a call would have the limiter remember are among
      those given. */
  predicate NamesOnly(call: Call, ips: set<Key>, users: set<Key>, pairs: set<(Key, Key)>) {
    match call.op
    case Fail(ip, user, _) => ip in ips && (user != "" ==> user in users)
    case Succeed(ip, user) => user != "" ==> (user, ip) in pairs
    case _ => true
  }

  predicate AllNameOnly(calls: seq<Call>, ips: set<Key>, users: set<Key>, pairs: set<(Key, Key)>) {
    forall i :: 0 <= i < |calls| ==> NamesOnly(calls[i], ips, users, pairs)
  }

  predicate HoldsOnly(s: State, ips: set<Key>, users: set<Key>, pairs: set<(Key, Key)>) {
    s.byIP.Keys <= ips && s.byUser.Keys <= users && s.known.Keys <= pairs
  }

  lemma SmallerSet<T>(a: set<T>, b: set<T>)
    requires a <= b
    ensures |a| <= |b|
  {
    assert b == a + (b - a);
  }

  /** One more name among few leaves room. */
  lemma RoomForOneMore<T>(have: set<T>, all: set<T>, x: T)
    requires have <= all && x in all && x !in have && |all| <= MAX_ENTRIES
    ensures |have| < MAX_ENTRIES
  {
    SmallerSet(have + {x}, all);
  }

  lemma PrunedHoldsLess(cfg: Config, s: State, now: Time)
    ensures var p := Pruned(cfg, s, now);
            p.byIP.Keys <= s.byIP.Keys && p.byUser.Keys <= s.byUser.Keys && p.known.Keys <= s.known.Keys
  {
  }

  lemma RecordHoldsOnly(cfg: Config, s: State, side: Side, key: Key, fp: int, now: Time,
                        ips: set<Key>, users: set<Key>, pairs: set<(Key, Key)>)
    requires cfg.Valid() && HoldsOnly(s, ips, users, pairs)
    requires if side.ByIP? then key in ips && |ips| <= MAX_ENTRIES else key in users && |users| <= MAX_ENTRIES
    ensures !NoRoom(MakeRoom(cfg, s, side, key, now), side, key)
    ensures HoldsOnly(RecordIn(cfg, s, side, key, fp, now).0, ips, users, pairs)
  {
    hide Pruned, Recorded;
    PrunedHoldsLess(cfg, s, now);
    var room := MakeRoom(cfg, s, side, key, now);
    if key !in TableOf(room, side) {
      RoomForOneMore(TableOf(room, side).Keys, if side.ByIP? then ips else users, key);
      assert |TableOf(room, side)| == |TableOf(room, side).Keys|;
    }
  }

  lemma SuccessHoldsOnly(cfg: Config, s: State, ip: Key, user: Key, now: Time,
                         ips: set<Key>, users: set<Key>, pairs: set<(Key, Key)>)
    requires cfg.Valid() && HoldsOnly(s, ips, users, pairs) && (user != "" ==> (user, ip) in pairs)
    requires |pairs| <= MAX_ENTRIES
    ensures !Drops(cfg, s, Call(Succeed(ip, user), now))
    ensures HoldsOnly(AfterSuccess(cfg, s, ip, user, now), ips, users, pairs)
  {
    hide Pruned;
    PrunedHoldsLess(cfg, s, now);
    if user != "" && (user, ip) !in s.known {
      RoomForOneMore(s.known.Keys, pairs, (user, ip));
      assert |s.known| == |s.known.Keys|;
    }
  }

  lemma StepHoldsOnly(cfg: Config, s: State, call: Call, ips: set<Key>, users: set<Key>, pairs: set<(Key, Key)>)
    requires cfg.Valid() && HoldsOnly(s, ips, users, pairs) && NamesOnly(call, ips, users, pairs)
    requires |ips| <= MAX_ENTRIES && |users| <= MAX_ENTRIES && |pairs| <= MAX_ENTRIES
    ensures !Drops(cfg, s, call) && HoldsOnly(Step(cfg, s, call).0, ips, users, pairs)
  {
    hide Pruned, RecordIn, NoRoom, MakeRoom, AfterSuccess;
    PrunedHoldsLess(cfg, s, call.now);
    match call.op
    case Fail(ip, user, fp) =>
      var s0 := MaybePruned(cfg, s, call.now);
      RecordHoldsOnly(cfg, s0, ByIP, ip, fp, call.now, ips, users, pairs);
      if user != "" {
        RecordHoldsOnly(cfg, RecordIn(cfg, s0, ByIP, ip, fp, call.now).0, ByUser, user, fp, call.now, ips, users, pairs);
      }
    case Succeed(ip, user) => SuccessHoldsOnly(cfg, s, ip, user, call.now, ips, users, pairs);
    case _ =>
  }

  lemma {:induction false} FewNeverDrop(cfg: Config, s: State, calls: seq<Call>,
                                        ips: set<Key>, users: set<Key>, pairs: set<(Key, Key)>)
    requires cfg.Valid() && HoldsOnly(s, ips, users, pairs) && AllNameOnly(calls, ips, users, pairs)
    requires |ips| <= 100000 && |users| <= 100000 && |pairs| <= 100000
    ensures NeverDrops(cfg, s, calls)
    decreases |calls|
  {
    hide Drops, Step, HoldsOnly, NamesOnly;
    if calls != [] {
      StepHoldsOnly(cfg, s, calls[0], ips, users, pairs);
      assert forall i :: 0 <= i < |calls[1..]| ==> calls[1..][i] == calls[i + 1];
      FewNeverDrop(cfg, Step(cfg, s, calls[0]).0, calls[1..], ips, users, pairs);
    }
  }

  /** As long as a run names at most 100000 addresses, users and pairs, every answer is
      that of the history that forgets nothing. */
  lemma FewAreRemembered(cfg: Config, calls: seq<Call>, ips: set<Key>, users: set<Key>, pairs: set<(Key, Key)>)
    requires cfg.Valid() && Ordered(calls, 0) && AllNameOnly(calls, ips, users, pairs)
    requires |ips| <= 100000 && |users| <= 100000 && |pairs| <= 100000
    ensures NeverDrops(cfg, EMPTY, calls)
    ensures Answers(cfg, EMPTY, calls) == HistoryAnswers(cfg, NOTHING, calls)
  {
    FewNeverDrop(cfg, EMPTY, calls, ips, users, pairs);
    PruningIsInvisible(cfg, calls);
  }

  // ------------------------------------------------------------- what a drop means

  /** Blocked, or with a failure inside the window. */
  predicate Busy(cfg: Config, c: Counter, now: Time) {
    now < c.blockedUntil || exists f :: f in c.fails && f.at > now - cfg.window
  }

  function BusyKeys(cfg: Config, m: Table, now: Time): set<Key> {
    set k | k in m && Busy(cfg, m[k], now)
  }

  predicate SortedTable(m: Table, now: Time) {
    forall k :: k in m ==> SortedFails(m[k].fails, now)
  }

  lemma KeptIsBusy(cfg: Config, c: Counter, now: Time)
    requires SortedFails(c.fails, now)
    ensures Kept(cfg, c, now) <==> Busy(cfg, c, now)
  {
    if c.fails != [] {
      var last := c.fails[|c.fails| - 1];
      assert last in c.fails;
      assert forall f :: f in c.fails ==> f.at <= last.at;
    }
  }

  lemma PrunedKeys(cfg: Config, m: Table, now: Time)
    requires SortedTable(m, now)
    ensures PrunedTable(cfg, m, now).Keys == BusyKeys(cfg, m, now)
    ensures SortedTable(PrunedTable(cfg, m, now), now)
  {
    hide Kept, Busy, SortedFails;
    forall k | k in m ensures Kept(cfg, m[k], now) <==> Busy(cfg, m[k], now) { KeptIsBusy(cfg, m[k], now); }
  }

  /** record drops a failure exactly when its key is new and at least 100000 others are
      blocked or have a failure inside the window. */
  lemma DroppedExactly(cfg: Config, s: State, side: Side, key: Key, now: Time)
    requires SortedTable(TableOf(s, side), now)
    ensures NoRoom(MakeRoom(cfg, s, side, key, now), side, key) <==>
            key !in TableOf(s, side) && |BusyKeys(cfg, TableOf(s, side), now)| >= 100000
  {
    hide SortedTable, BusyKeys, PrunedTable, PrunedKnown;
    var m := TableOf(s, side);
    PrunedKeys(cfg, m, now);
    BusyAreSome(cfg, m, now);
    SmallerSet(BusyKeys(cfg, m, now), m.Keys);
    assert |m| == |m.Keys|;
    assert |PrunedTable(cfg, m, now)| == |PrunedTable(cfg, m, now).Keys|;
  }

  lemma BusyAreSome(cfg: Config, m: Table, now: Time)
    ensures BusyKeys(cfg, m, now) <= m.Keys
  {
  }

  lemma PrunedKeepsBusy(cfg: Config, m: Table, now: Time)
    requires SortedTable(m, now)
    ensures BusyKeys(cfg, PrunedTable(cfg, m, now), now) == BusyKeys(cfg, m, now)
  {
    hide Kept, Busy, SortedFails;
    forall k | k in m ensures Kept(cfg, m[k], now) <==> Busy(cfg, m[k], now) { KeptIsBusy(cfg, m[k], now); }
  }

  lemma ReachedIsSorted(cfg: Config, calls: seq<Call>, now: Time)
    requires cfg.Valid() && Ordered(calls, 0) && TimeAfter(0, calls) <= now
    ensures SortedTable(StateAfter(cfg, EMPTY, calls).byIP, now) && SortedTable(StateAfter(cfg, EMPTY, calls).byUser, now)
  {
    hide SortedFails, StateAfter, CountedBy, GoodLog;
    var s := StateAfter(cfg, EMPTY, calls);
    forall k | k in s.byIP ensures SortedFails(s.byIP[k].fails, now) { FollowsAfter(cfg, calls, ByIP, k, now); }
    forall k | k in s.byUser ensures SortedFails(s.byUser[k].fails, now) { FollowsAfter(cfg, calls, ByUser, k, now); }
  }

  /** In any run: a failed login is left out only when at least 100000 other addresses, or
      users, are blocked or have a failure inside the window. */
  lemma DropMeansFull(cfg: Config, calls: seq<Call>, ip: Key, user: Key, fp: int, now: Time)
    requires cfg.Valid() && Ordered(calls, 0) && TimeAfter(0, calls) <= now
    requires Drops(cfg, StateAfter(cfg, EMPTY, calls), Call(Fail(ip, user, fp), now))
    ensures var s := StateAfter(cfg, EMPTY, calls);
            || |BusyKeys(cfg, s.byIP, now) - {ip}| >= 100000
            || (user != "" && |BusyKeys(cfg, s.byUser, now) - {user}| >= 100000)
  {
    hide SortedTable, BusyKeys, StateAfter, TimeAfter, Drops;
    var s := StateAfter(cfg, EMPTY, calls);
    ReachedIsSorted(cfg, calls, now);
    PruningKeepsBusy(cfg, s, now);
    DropIsCrowded(cfg, s, ip, user, fp, now);
  }

  lemma PruningKeepsBusy(cfg: Config, s: State, now: Time)
    requires SortedTable(s.byIP, now) && SortedTable(s.byUser, now)
    ensures var s0 := MaybePruned(cfg, s, now);
            && SortedTable(s0.byIP, now) && SortedTable(s0.byUser, now)
            && BusyKeys(cfg, s0.byIP, now) == BusyKeys(cfg, s.byIP, now)
            && BusyKeys(cfg, s0.byUser, now) == BusyKeys(cfg, s.byUser, now)
  {
    hide SortedTable, BusyKeys, PrunedTable, PrunedKnown;
    PrunedKeys(cfg, s.byIP, now);
    PrunedKeys(cfg, s.byUser, now);
    PrunedKeepsBusy(cfg, s.byIP, now);
    PrunedKeepsBusy(cfg, s.byUser, now);
  }

  lemma DropIsCrowded(cfg: Config, s: State, ip: Key, user: Key, fp: int, now: Time)
    requires cfg.Valid() && Drops(cfg, s, Call(Fail(ip, user, fp), now))
    requires var s0 := MaybePruned(cfg, s, now); SortedTable(s0.byIP, now) && SortedTable(s0.byUser, now)
    ensures var s0 := MaybePruned(cfg, s, now);
            || |BusyKeys(cfg, s0.byIP, now) - {ip}| >= 100000
            || (user != "" && |BusyKeys(cfg, s0.byUser, now) - {user}| >= 100000)
  {
    hide SortedTable, BusyKeys, Busy, MaybePruned, MakeRoom, NoRoom, RecordIn;
    var s0 := MaybePruned(cfg, s, now);
    DroppedExactly(cfg, s0, ByIP, ip, now);
    if NoRoom(MakeRoom(cfg, s0, ByIP, ip, now), ByIP, ip) {
      Others(cfg, s0.byIP, ip, now);
    } else {
      UserRoom(cfg, s0, ip, user, fp, now);
      Others(cfg, s0.byUser, user, now);
    }
  }

  lemma Others(cfg: Config, m: Table, key: Key, now: Time)
    requires key in m ==> !Busy(cfg, m[key], now)
    ensures BusyKeys(cfg, m, now) - {key} == BusyKeys(cfg, m, now)
  {
    hide Busy;
  }

  /** Recording the address first does not change which users are busy. */
  lemma UserRoom(cfg: Config, s: State, ip: Key, user: Key, fp: int, now: Time)
    requires cfg.Valid() && SortedTable(s.byUser, now)
    requires var s1 := RecordIn(cfg, s, ByIP, ip, fp, now).0; NoRoom(MakeRoom(cfg, s1, ByUser, user, now), ByUser, user)
    ensures |BusyKeys(cfg, s.byUser, now)| >= 100000
    ensures user in s.byUser ==> !Busy(cfg, s.byUser[user], now)
  {
    hide SortedTable, BusyKeys, PrunedTable, PrunedKnown, NoRoom, Recorded;
    var s1 := RecordIn(cfg, s, ByIP, ip, fp, now).0;
    PrunedKeys(cfg, s.byUser, now);
    PrunedKeepsBusy(cfg, s.byUser, now);
    DroppedExactly(cfg, s1, ByUser, user, now);
    IdleIsNot(cfg, s.byUser, user, now);
  }

  lemma IdleIsNot(cfg: Config, m: Table, key: Key, now: Time)
    ensures key in BusyKeys(cfg, m, now) <==> key in m && Busy(cfg, m[key], now)
  {
  }

  // ---------------------------------------------------------------- the tables

  predicate Bounded(s: State) {
    |s.byIP| <= 100000 && |s.byUser| <= 100000 && |s.known| <= 100000
  }

  lemma PrunedIsSmaller(cfg: Config, s: State, now: Time)
    ensures var p := Pruned(cfg, s, now);
            |p.byIP| <= |s.byIP| && |p.byUser| <= |s.byUser| && |p.known| <= |s.known|
  {
    var p := Pruned(cfg, s, now);
    PrunedHoldsLess(cfg, s, now);
    SmallerSet(p.byIP.Keys, s.byIP.Keys);
    SmallerSet(p.byUser.Keys, s.byUser.Keys);
    SmallerSet(p.known.Keys, s.known.Keys);
  }

  lemma OneMoreKey<K, V>(m: map<K, V>, k: K, v: V)
    ensures |m[k := v]| == |m| + (if k in m then 0 else 1)
  {
    var n := m[k := v];
    assert n.Keys == m.Keys + {k};
    assert |n| == |n.Keys| && |m| == |m.Keys|;
  }

  lemma RecordIsBounded(cfg: Config, s: State, side: Side, key: Key, fp: int, now: Time)
    requires cfg.Valid() && Bounded(s)
    ensures Bounded(RecordIn(cfg, s, side, key, fp, now).0)
  {
    hide Pruned, Recorded;
    PrunedIsSmaller(cfg, s, now);
    var room := MakeRoom(cfg, s, side, key, now);
    var m := TableOf(room, side);
    OneMoreKey(m, key, Recorded(cfg, MaxOf(cfg, side), CounterOf(m, key), fp, now).0);
  }

  lemma SuccessIsBounded(cfg: Config, s: State, ip: Key, user: Key, now: Time)
    requires cfg.Valid() && Bounded(s)
    ensures Bounded(AfterSuccess(cfg, s, ip, user, now))
  {
    hide Pruned;
    PrunedIsSmaller(cfg, s, now);
    OneMoreKey(s.known, (user, ip), now + cfg.knownTTL);
    OneMoreKey(Pruned(cfg, s, now).known, (user, ip), now + cfg.knownTTL);
  }

  lemma StepIsBounded(cfg: Config, s: State, call: Call)
    requires cfg.Valid() && Bounded(s)
    ensures Bounded(Step(cfg, s, call).0)
  {
    hide Pruned, RecordIn, AfterSuccess, Bounded;
    PrunedIsSmaller(cfg, s, call.now);
    BoundedPruned(cfg, s, call.now);
    match call.op
    case Fail(ip, user, fp) =>
      var s0 := MaybePruned(cfg, s, call.now);
      RecordIsBounded(cfg, s0, ByIP, ip, fp, call.now);
      if user != "" { RecordIsBounded(cfg, RecordIn(cfg, s0, ByIP, ip, fp, call.now).0, ByUser, user, fp, call.now); }
    case Succeed(ip, user) => SuccessIsBounded(cfg, s, ip, user, call.now);
    case _ =>
  }

  lemma BoundedPruned(cfg: Config, s: State, now: Time)
    requires Bounded(s)
    ensures Bounded(Pruned(cfg, s, now))
  {
    PrunedIsSmaller(cfg, s, now);
  }

  lemma {:induction false} RunIsBounded(cfg: Config, s: State, calls: seq<Call>)
    requires cfg.Valid() && Bounded(s)
    ensures Bounded(StateAfter(cfg, s, calls))
    decreases |calls|
  {
    hide Step, Bounded;
    if calls != [] {
      StepIsBounded(cfg, s, calls[0]);
      RunIsBounded(cfg, Step(cfg, s, calls[0]).0, calls[1..]);
    }
  }

  /** No run makes a table grow beyond 100000 entries. */
  lemma TablesStaySmall(cfg: Config, calls: seq<Call>)
    requires cfg.Valid()
    ensures var s := StateAfter(cfg, EMPTY, calls); |s.byIP| <= 100000 && |s.byUser| <= 100000 && |s.known| <= 100000
  {
    RunIsBounded(cfg, EMPTY, calls);
  }

  /** The first call a minute after the last sweep, or later, leaves only the busy keys and
      the known addresses not yet expired; a check that comes sooner changes nothing. */
  lemma SweepsEveryMinute(cfg: Config, calls: seq<Call>, ip: Key, user: Key, now: Time)
    requires cfg.Valid() && Ordered(calls, 0) && TimeAfter(0, calls) <= now
    ensures var s := StateAfter(cfg, EMPTY, calls); var t := Step(cfg, s, Call(Allow(ip, user), now)).0;
            if now - s.lastPrune >= 60_000_000_000 then
              && t.byIP.Keys == BusyKeys(cfg, s.byIP, now) && t.byUser.Keys == BusyKeys(cfg, s.byUser, now)
              && t.known.Keys == (set p | p in s.known && now < s.known[p]) && t.lastPrune == now
            else t == s
  {
    hide SortedTable, BusyKeys, StateAfter, PrunedTable, TimeAfter;
    ReachedIsSorted(cfg, calls, now);
    var s := StateAfter(cfg, EMPTY, calls);
    PrunedKeys(cfg, s.byIP, now);
    PrunedKeys(cfg, s.byUser, now);
    assert PrunedKnown(s.known, now).Keys == set p | p in s.known && now < s.known[p];
  }

  // ------------------------------------------------------------ guessing is stopped

  /** Failed logins from one address, each with its secret and time. */
  function Guesses(ip: Key, fails: seq<Failed>): (calls: seq<Call>)
    ensures |calls| == |fails|
    ensures forall i :: 0 <= i < |fails| ==> calls[i] == Call(Fail(ip, "", fails[i].fp), fails[i].at)
  {
    if fails == [] then [] else [Call(Fail(ip, "", fails[0].fp), fails[0].at)] + Guesses(ip, fails[1..])
  }

  /** Different secrets, in order, all within one window. */
  predicate InOneWindow(cfg: Config, fails: seq<Failed>) {
    forall i, j :: 0 <= i < j < |fails| ==>
      fails[i].at <= fails[j].at < fails[i].at + cfg.window && fails[i].fp != fails[j].fp
  }

  /** The limiter has seen these failures of one address and nothing else. */
  predicate HasSeen(s: State, ip: Key, fails: seq<Failed>) {
    && s.byIP == (if fails == [] then map[] else map[ip := Counter(fails, 0)])
    && s.byUser == map[] && s.known == map[]
  }

  lemma PruningKeepsGuesses(cfg: Config, s: State, ip: Key, fails: seq<Failed>, f: Failed)
    requires cfg.Valid() && HasSeen(s, ip, fails) && InOneWindow(cfg, fails + [f])
    ensures HasSeen(MaybePruned(cfg, s, f.at), ip, fails)
  {
    var all := fails + [f];
    if fails != [] {
      var last := |fails| - 1;
      assert all[last] == fails[last] && all[last + 1] == f;
      assert Kept(cfg, Counter(fails, 0), f.at);
    }
  }

  lemma GuessIsCounted(cfg: Config, s: State, ip: Key, fails: seq<Failed>, f: Failed)
    requires cfg.Valid() && HasSeen(s, ip, fails) && InOneWindow(cfg, fails + [f])
    ensures var (s', answer) := Step(cfg, s, Call(Fail(ip, "", f.fp), f.at));
            && answer == Failing(|fails| + 1 >= cfg.maxPerIP, false)
            && (if |fails| + 1 >= cfg.maxPerIP
                then s'.byIP == map[ip := Counter([], f.at + cfg.block)] && s'.byUser == map[]
                else HasSeen(s', ip, fails + [f]))
  {
    PruningKeepsGuesses(cfg, s, ip, fails, f);
    AllAreLive(cfg, fails, f);
    hide MaybePruned, Live, HasPrint, InOneWindow;
    var s0 := MaybePruned(cfg, s, f.at);
    NoneAmongNone(f);
    assert CounterOf(s0.byIP, ip) == Counter(fails, 0);
    assert s0.byIP[ip := Counter([], f.at + cfg.block)] == map[ip := Counter([], f.at + cfg.block)];
    assert s0.byIP[ip := Counter(fails + [f], 0)] == map[ip := Counter(fails + [f], 0)];
  }

  lemma NoneAmongNone(f: Failed)
    ensures Failed(f.at, f.fp) == f && FRESH == Counter([], 0)
  {
  }

  lemma AllAreLive(cfg: Config, fails: seq<Failed>, f: Failed)
    requires InOneWindow(cfg, fails + [f])
    ensures Live(fails, f.at - cfg.window) == fails && !HasPrint(fails, f.fp)
  {
    var all := fails + [f];
    forall i | 0 <= i < |fails| ensures fails[i].at > f.at - cfg.window && fails[i].fp != f.fp {
      assert all[i] == fails[i] && all[|fails|] == f;
    }
    LiveIdle(fails, f.at - cfg.window);
  }

  /** Only the last of the answers reports a block, and it stands. */
  predicate EndsInBlock(cfg: Config, answers: seq<Answer>, u: State, ip: Key, fails: seq<Failed>)
    requires cfg.Valid() && fails != []
  {
    && |answers| == |fails|
    && (forall i :: 0 <= i < |fails| ==> answers[i] == Failing(i == |fails| - 1, false))
    && u.byIP == map[ip := Counter([], fails[|fails| - 1].at + cfg.block)] && u.byUser == map[]
  }

  lemma {:induction false} GuessesAnswered(cfg: Config, s: State, ip: Key, before: seq<Failed>, fails: seq<Failed>)
    requires cfg.Valid() && HasSeen(s, ip, before) && InOneWindow(cfg, before + fails)
    requires fails != [] && |before| + |fails| == cfg.maxPerIP
    ensures EndsInBlock(cfg, Answers(cfg, s, Guesses(ip, fails)), StateAfter(cfg, s, Guesses(ip, fails)), ip, fails)
    decreases |fails|
  {
    hide Step, HasSeen, Answers, StateAfter, InOneWindow, EndsInBlock, Guesses;
    GuessesCons(ip, fails);
    var f, rest := fails[0], fails[1..];
    var calls := Guesses(ip, fails);
    FirstAnswer(cfg, s, calls);
    FrontInWindow(cfg, before, fails);
    GuessIsCounted(cfg, s, ip, before, f);
    var s' := Step(cfg, s, calls[0]).0;
    if rest == [] {
      NoAnswers(cfg, s');
      assert fails == [f];
      LastBlock(cfg, s', ip, f);
    } else {
      assert before + [f] + rest == before + fails && fails == [f] + rest;
      GuessesAnswered(cfg, s', ip, before + [f], rest);
      OneBefore(cfg, Answers(cfg, s', calls[1..]), StateAfter(cfg, s', calls[1..]), ip, f, rest);
    }
  }

  lemma GuessesCons(ip: Key, fails: seq<Failed>)
    requires fails != []
    ensures Guesses(ip, fails)[1..] == Guesses(ip, fails[1..])
  {
  }

  lemma LastBlock(cfg: Config, u: State, ip: Key, f: Failed)
    requires cfg.Valid() && u.byIP == map[ip := Counter([], f.at + cfg.block)] && u.byUser == map[]
    ensures EndsInBlock(cfg, [Failing(true, false)] + [], u, ip, [f])
  {
  }

  lemma OneBefore(cfg: Config, answers: seq<Answer>, u: State, ip: Key, f: Failed, rest: seq<Failed>)
    requires cfg.Valid() && rest != [] && EndsInBlock(cfg, answers, u, ip, rest)
    ensures EndsInBlock(cfg, [Failing(false, false)] + answers, u, ip, [f] + rest)
  {
    var all, fails := [Failing(false, false)] + answers, [f] + rest;
    assert fails[|fails| - 1] == rest[|rest| - 1];
    assert forall i :: 0 < i < |all| ==> all[i] == answers[i - 1];
  }

  lemma FirstAnswer(cfg: Config, s: State, calls: seq<Call>)
    requires cfg.Valid() && calls != []
    ensures var (s', answer) := Step(cfg, s, calls[0]);
            Answers(cfg, s, calls) == [answer] + Answers(cfg, s', calls[1..]) &&
            StateAfter(cfg, s, calls) == StateAfter(cfg, s', calls[1..])
  {
    hide Step;
  }

  lemma NoAnswers(cfg: Config, s: State)
    requires cfg.Valid()
    ensures Answers(cfg, s, []) == [] && StateAfter(cfg, s, []) == s
  {
  }

  lemma FrontInWindow(cfg: Config, before: seq<Failed>, fails: seq<Failed>)
    requires InOneWindow(cfg, before + fails) && fails != []
    ensures InOneWindow(cfg, before + [fails[0]])
  {
    var all, front := before + fails, before + [fails[0]];
    assert forall i :: 0 <= i < |front| ==> front[i] == all[i];
  }

  /** As many different secrets from one address within a window as the limit allows:
      the last is reported as a block and no other, and until the block ends nobody is
      allowed in from there, whoever they are; afterwards they are. */
  lemma GuessingIsStopped(cfg: Config, ip: Key, fails: seq<Failed>, user: Key, now: Time)
    requires cfg.Valid() && |fails| == cfg.maxPerIP && InOneWindow(cfg, fails) && now >= fails[|fails| - 1].at
    ensures var calls := Guesses(ip, fails); var u := StateAfter(cfg, EMPTY, calls);
            && EndsInBlock(cfg, Answers(cfg, EMPTY, calls), u, ip, fails)
            && Step(cfg, u, Call(Allow(ip, user), now)).1 == Allowing(now >= fails[|fails| - 1].at + cfg.block)
  {
    hide Guesses, StateAfter, Answers, InOneWindow, Step, EndsInBlock;
    StartsUnseen(cfg, ip, fails);
    GuessesAnswered(cfg, EMPTY, ip, [], fails);
    var calls := Guesses(ip, fails);
    BlockedUntil(cfg, Answers(cfg, EMPTY, calls), StateAfter(cfg, EMPTY, calls), ip, fails, user, now);
  }

  lemma StartsUnseen(cfg: Config, ip: Key, fails: seq<Failed>)
    ensures HasSeen(EMPTY, ip, []) && [] + fails == fails
  {
  }

  lemma BlockedUntil(cfg: Config, answers: seq<Answer>, u: State, ip: Key, fails: seq<Failed>, user: Key, now: Time)
    requires cfg.Valid() && fails != [] && EndsInBlock(cfg, answers, u, ip, fails)
    ensures Step(cfg, u, Call(Allow(ip, user), now)).1 == Allowing(now >= fails[|fails| - 1].at + cfg.block)
  {
    assert Kept(cfg, u.byIP[ip], now) <==> now < u.byIP[ip].blockedUntil;
  }
}
