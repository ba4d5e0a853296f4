/** The login limiter of internal/authlimit/authlimit.go. Times count from the
    zero time.Time, so a clock reading is never negative. Keys are the
    normalised client address and login name, fingerprints are abstract. */
module AuthLimit {
  type Time = nat
  type Key = string

  datatype Config = Config(maxPerIP: int, maxPerUser: int, window: int, block: int, knownTTL: int) {
    predicate Valid() {
      maxPerIP > 0 && maxPerUser > 0 && window > 0 && block > 0 && knownTTL > 0
    }
  }

  const SECOND := 1_000_000_000
  const MINUTE := 60 * SECOND
  const MAX_ENTRIES := 100000
  const PRUNE_EVERY := MINUTE
  const DEFAULTS := Config(10, 10, 15 * MINUTE, 15 * MINUTE, 7 * 24 * 60 * MINUTE)

  function WithDefaults(c: Config): (r: Config)
    ensures r.Valid()
    ensures c.Valid() ==> r == c
  {
    Config(if c.maxPerIP <= 0 then DEFAULTS.maxPerIP else c.maxPerIP,
           if c.maxPerUser <= 0 then DEFAULTS.maxPerUser else c.maxPerUser,
           if c.window <= 0 then DEFAULTS.window else c.window,
           if c.block <= 0 then DEFAULTS.block else c.block,
           if c.knownTTL <= 0 then DEFAULTS.knownTTL else c.knownTTL)
  }

  /** Unset limits are ten failures, a quarter of an hour and a week, in nanoseconds. */
  lemma DefaultsAre(c: Config)
    ensures var r := WithDefaults(c);
            && r.maxPerIP == (if c.maxPerIP > 0 then c.maxPerIP else 10)
            && r.maxPerUser == (if c.maxPerUser > 0 then c.maxPerUser else 10)
            && r.window == (if c.window > 0 then c.window else 900_000_000_000)
            && r.block == (if c.block > 0 then c.block else 900_000_000_000)
            && r.knownTTL == (if c.knownTTL > 0 then c.knownTTL else 604_800_000_000_000)
  {
  }

  datatype Failed = Failed(at: Time, fp: int)

  datatype Counter = Counter(fails: seq<Failed>, blockedUntil: Time)

  const FRESH := Counter([], 0)

  /** The failures after the cutoff, in order. */
  function Live(fails: seq<Failed>, cutoff: int): seq<Failed> {
    if fails == [] then []
    else
      var last := |fails| - 1;
      var earlier := Live(fails[..last], cutoff);
      if fails[last].at > cutoff then earlier + [fails[last]] else earlier
  }

  predicate HasPrint(fails: seq<Failed>, fp: int) {
    exists f :: f in fails && f.fp == fp
  }

  /** record, on the counter of a tracked key: the new counter and whether the
      key just became blocked. */
  function Recorded(cfg: Config, max: int, c: Counter, fp: int, now: Time): (Counter, bool)
    requires cfg.Valid()
  {
    if now < c.blockedUntil then (c, false)
    else
      var kept := Live(c.fails, now - cfg.window);
      if HasPrint(kept, fp) then (c.(fails := kept), false)
      else if |kept| + 1 >= max then (Counter([], now + cfg.block), true)
      else (c.(fails := kept + [Failed(now, fp)]), false)
  }

  /** Whether pruning leaves the counter in its table. */
  predicate Kept(cfg: Config, c: Counter, now: Time) {
    now < c.blockedUntil || (c.fails != [] && c.fails[|c.fails| - 1].at > now - cfg.window)
  }

  type Table = map<Key, Counter>
  type Known = map<(Key, Key), Time>

  datatype State = State(byIP: Table, byUser: Table, known: Known, lastPrune: Time, overflow: bool)

  const EMPTY := State(map[], map[], map[], 0, false)

  function PrunedTable(cfg: Config, m: Table, now: Time): Table {
    map k | k in m && Kept(cfg, m[k], now) :: m[k]
  }

  function PrunedKnown(m: Known, now: Time): Known {
    map k | k in m && now < m[k] :: m[k]
  }

  /** pruneLocked. */
  function Pruned(cfg: Config, s: State, now: Time): State {
    var byIP, byUser := PrunedTable(cfg, s.byIP, now), PrunedTable(cfg, s.byUser, now);
    State(byIP, byUser, PrunedKnown(s.known, now), now,
          if |byIP| < MAX_ENTRIES && |byUser| < MAX_ENTRIES then false else s.overflow)
  }

  function MaybePruned(cfg: Config, s: State, now: Time): State {
    if now - s.lastPrune >= PRUNE_EVERY then Pruned(cfg, s, now) else s
  }

  datatype Side = ByIP | ByUser

  function TableOf(s: State, side: Side): Table {
    if side.ByIP? then s.byIP else s.byUser
  }

  function WithTable(s: State, side: Side, m: Table): State {
    if side.ByIP? then s.(byIP := m) else s.(byUser := m)
  }

  function MaxOf(cfg: Config, side: Side): int {
    if side.ByIP? then cfg.maxPerIP else cfg.maxPerUser
  }

  /** The state in which record looks for room: pruned when the key is new and
      its table full. */
  function MakeRoom(cfg: Config, s: State, side: Side, key: Key, now: Time): State {
    if key !in TableOf(s, side) && |TableOf(s, side)| >= MAX_ENTRIES then Pruned(cfg, s, now) else s
  }

  /** A new key is dropped when its table stays full. */
  predicate NoRoom(s: State, side: Side, key: Key) {
    key !in TableOf(s, side) && |TableOf(s, side)| >= MAX_ENTRIES
  }

  function CounterOf(m: Table, key: Key): Counter {
    if key in m then m[key] else FRESH
  }

  /** record. */
  function RecordIn(cfg: Config, s: State, side: Side, key: Key, fp: int, now: Time): (State, bool)
    requires cfg.Valid()
  {
    var room := MakeRoom(cfg, s, side, key, now);
    if NoRoom(room, side, key) then (room.(overflow := true), false)
    else
      var m := TableOf(room, side);
      var (c, blocked) := Recorded(cfg, MaxOf(cfg, side), CounterOf(m, key), fp, now);
      (WithTable(room, side, m[key := c]), blocked)
  }

  predicate BlockedIn(m: Table, key: Key, now: Time) {
    key in m && now < m[key].blockedUntil
  }

  predicate KnownIn(m: Known, user: Key, ip: Key, now: Time) {
    (user, ip) in m && now < m[(user, ip)]
  }

  /** The answer of Allow. */
  predicate Allowed(s: State, ip: Key, user: Key, now: Time) {
    !BlockedIn(s.byIP, ip, now) &&
    (user == "" || !BlockedIn(s.byUser, user, now) || KnownIn(s.known, user, ip, now))
  }

  function AfterFailure(cfg: Config, s: State, ip: Key, user: Key, fp: int, now: Time): (State, bool, bool)
    requires cfg.Valid()
  {
    var (s1, ipBlocked) := RecordIn(cfg, MaybePruned(cfg, s, now), ByIP, ip, fp, now);
    if user == "" then (s1, ipBlocked, false)
    else
      var (s2, userBlocked) := RecordIn(cfg, s1, ByUser, user, fp, now);
      (s2, ipBlocked, userBlocked)
  }

  function AfterSuccess(cfg: Config, s: State, ip: Key, user: Key, now: Time): State
    requires cfg.Valid()
  {
    if user == "" then s
    else
      var room := if (user, ip) !in s.known && |s.known| >= MAX_ENTRIES then Pruned(cfg, s, now) else s;
      if (user, ip) !in room.known && |room.known| >= MAX_ENTRIES then room
      else room.(known := room.known[(user, ip) := now + cfg.knownTTL])
  }

  class Limiter {
    const cfg: Config
    var byIP: Table
    var byUser: Table
    var knownIP: Known
    var lastPrune: Time
    var overflow: bool

    constructor (cfg: Config)
      ensures this.cfg == WithDefaults(cfg) && Value() == EMPTY
    {
      this.cfg := WithDefaults(cfg);
      byIP, byUser, knownIP := map[], map[], map[];
      lastPrune, overflow := 0, false;
    }

    function Value(): State
      reads this
    {
      State(byIP, byUser, knownIP, lastPrune, overflow)
    }

    method Allow(ip: Key, user: Key, now: Time) returns (ok: bool)
      requires cfg.Valid()
      modifies this
      ensures Value() == MaybePruned(cfg, old(Value()), now)
      ensures ok == Allowed(Value(), ip, user, now)
    {
      MaybePrune(now);
      if ip in byIP && now < byIP[ip].blockedUntil { return false; }
      if user == "" { return true; }
      if user in byUser && now < byUser[user].blockedUntil {
        if (user, ip) in knownIP && now < knownIP[(user, ip)] { return true; }
        return false;
      }
      return true;
    }

    method Failure(ip: Key, user: Key, fp: int, now: Time) returns (ipBlocked: bool, userBlocked: bool)
      requires cfg.Valid()
      modifies this
      ensures (Value(), ipBlocked, userBlocked) == AfterFailure(cfg, old(Value()), ip, user, fp, now)
    {
      MaybePrune(now);
      userBlocked := false;
      ipBlocked := Record(ByIP, ip, fp, now);
      if user != "" {
        userBlocked := Record(ByUser, user, fp, now);
      }
    }

    method Success(ip: Key, user: Key, now: Time)
      requires cfg.Valid()
      modifies this
      ensures Value() == AfterSuccess(cfg, old(Value()), ip, user, now)
    {
      if user == "" { return; }
      if (user, ip) !in knownIP && |knownIP| >= MAX_ENTRIES {
        Prune(now);
        if (user, ip) !in knownIP && |knownIP| >= MAX_ENTRIES { return; }
      }
      knownIP := knownIP[(user, ip) := now + cfg.knownTTL];
    }

    method Record(side: Side, key: Key, fp: int, now: Time) returns (blocked: bool)
      requires cfg.Valid()
      modifies this
      ensures (Value(), blocked) == RecordIn(cfg, old(Value()), side, key, fp, now)
    {
      hide Recorded;
      var m := TableOf(Value(), side);
      if key !in m && |m| >= MAX_ENTRIES {
        Prune(now);
        m := TableOf(Value(), side);
        if |m| >= MAX_ENTRIES {
          overflow := true;
          return false;
        }
      }
      assert Value() == MakeRoom(cfg, old(Value()), side, key, now) && !NoRoom(Value(), side, key);
      hide MakeRoom, NoRoom, Pruned;
      var c;
      c, blocked := RecordOn(CounterOf(m, key), MaxOf(cfg, side), fp, now);
      Put(side, key, c);
    }

    /** record, from the point where the counter of the key is at hand. */
    method RecordOn(before: Counter, max: int, fp: int, now: Time) returns (c: Counter, blocked: bool)
      requires cfg.Valid()
      ensures (c, blocked) == Recorded(cfg, max, before, fp, now)
    {
      hide Live, HasPrint;
      c := before;
      if now < c.blockedUntil { return c, false; }
      var kept := Compact(c.fails, now);
      c := c.(fails := kept);
      var seen := Seen(c.fails, fp);
      if seen { return c, false; }
      c := c.(fails := c.fails + [Failed(now, fp)]);
      if |c.fails| >= max { return Counter([], now + cfg.block), true; }
      return c, false;
    }

    /** The failures still inside the window. */
    method Compact(fails: seq<Failed>, now: Time) returns (kept: seq<Failed>)
      ensures kept == Live(fails, now - cfg.window)
    {
      kept := [];
      for i := 0 to |fails|
        invariant kept == Live(fails[..i], now - cfg.window)
      {
        assert fails[..i + 1][..i] == fails[..i];
        if fails[i].at > now - cfg.window {
          kept := kept + [fails[i]];
        }
      }
      assert fails[..|fails|] == fails;
    }

    /** Whether the same secret was already counted. */
    method Seen(kept: seq<Failed>, fp: int) returns (seen: bool)
      ensures seen == HasPrint(kept, fp)
    {
      for i := 0 to |kept|
        invariant forall k :: 0 <= k < i ==> kept[k].fp != fp
      {
        if kept[i].fp == fp { return true; }
      }
      return false;
    }

    /** Stores a counter under its key. */
    method Put(side: Side, key: Key, c: Counter)
      modifies this`byIP, this`byUser
      ensures Value() == WithTable(old(Value()), side, TableOf(old(Value()), side)[key := c])
    {
      if side.ByIP? { byIP := byIP[key := c]; } else { byUser := byUser[key := c]; }
    }

    method MaybePrune(now: Time)
      modifies this
      ensures Value() == MaybePruned(cfg, old(Value()), now)
    {
      if now - lastPrune >= PRUNE_EVERY { Prune(now); }
    }

    method Prune(now: Time)
      modifies this
      ensures Value() == Pruned(cfg, old(Value()), now)
    {
      lastPrune := now;
      byIP := Sweep(byIP, now);
      byUser := Sweep(byUser, now);
      knownIP := SweepKnown(knownIP, now);
      if |byIP| < MAX_ENTRIES && |byUser| < MAX_ENTRIES { overflow := false; }
    }

    method SweepKnown(m: Known, now: Time) returns (r: Known)
      ensures r == PrunedKnown(m, now)
    {
      r := m;
      var rest := m.Keys;
      while rest != {}
        invariant rest <= m.Keys
        invariant r == map k | k in m && (k in rest || now < m[k]) :: m[k]
        decreases rest
      {
        var k :| k in rest;
        if now >= m[k] { r := r - {k}; }
        rest := rest - {k};
      }
    }

    /** The sweep over one table, in any order of its keys. */
    method Sweep(m: Table, now: Time) returns (r: Table)
      ensures r == PrunedTable(cfg, m, now)
    {
      r := m;
      var rest := m.Keys;
      while rest != {}
        invariant rest <= m.Keys
        invariant r == map k | k in m && (k in rest || Kept(cfg, m[k], now)) :: m[k]
        decreases rest
      {
        var k :| k in rest;
        var c := m[k];
        if now >= c.blockedUntil {
          if |c.fails| == 0 || c.fails[|c.fails| - 1].at <= now - cfg.window {
            r := r - {k};
          }
        }
        rest := rest - {k};
      }
    }
  }
}
