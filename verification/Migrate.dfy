/** internal/db/migrate.go: working out which migrations a database needs and
    applying them, each with its row of schema_migrations. */
module Migrate {
  import opened Wrappers

  /** "020a" is Version(20, 1): letters count from 1, no letter is 0. */
  datatype Version = Version(num: int, suffix: int)

  datatype Migration = Migration(version: Version, name: string, checksum: string, noTx: bool)

  datatype Row = Row(name: string, checksum: string, baseline: bool)

  /** How many tables there are, whether the schema has every mark of the baseline,
      the rows of schema_migrations if the table exists, and the versions whose body
      has been executed and kept. */
  datatype Db = Db(tables: nat, marked: bool, rows: Option<map<Version, Row>>, ran: seq<Version>)

  const BASELINE_VERSION := Version(50, 0)

  predicate Less(a: Version, b: Version) {
    if a.num != b.num then a.num < b.num else a.suffix < b.suffix
  }

  predicate AtMost(a: Version, b: Version) {
    if a.num != b.num then a.num < b.num else a.suffix <= b.suffix
  }

  /** less orders all versions, and versionAtMost is its reflexive closure. */
  lemma LessIsTotalOrder(a: Version, b: Version, c: Version)
    ensures !Less(a, a) && (Less(a, b) && Less(b, c) ==> Less(a, c)) && (a == b || Less(a, b) || Less(b, a))
    ensures AtMost(a, b) <==> Less(a, b) || a == b
    ensures (a.num < b.num ==> Less(a, b)) && (a.num == b.num && a.suffix < b.suffix ==> Less(a, b))
    ensures AtMost(a, BASELINE_VERSION) <==> a.num < 50 || (a.num == 50 && a.suffix <= 0)
  {
  }

  /** Some applied file is newer than m. */
  ghost predicate IsLate(all: seq<Migration>, rows: map<Version, Row>, m: Migration) {
    exists n :: n in all && n.version in rows && Less(m.version, n.version)
  }

  /** What LoadMigrations returns. */
  predicate InOrder(all: seq<Migration>) {
    forall i, j :: 0 <= i < j < |all| ==> Less(all[i].version, all[j].version)
  }

  datatype State = Empty | Adoptable | Tracked

  datatype Plan = Plan(state: State, applied: seq<Row>, baseline: seq<Migration>, pending: seq<Migration>,
                       unknown: set<Version>, modified: seq<Migration>, late: seq<Migration>)

  // ------------------------------------------------------------------- plans

  /** The migrations with a property, in order. */
  function Filter(all: seq<Migration>, p: Migration -> bool): seq<Migration> {
    if all == [] then [] else (if p(all[0]) then [all[0]] else []) + Filter(all[1..], p)
  }

  lemma {:induction false} FilterHolds(all: seq<Migration>, p: Migration -> bool)
    ensures forall m :: m in Filter(all, p) <==> m in all && p(m)
    decreases |all|
  {
    if all != [] { FilterHolds(all[1..], p); }
  }

  lemma EmptyFilter(none: seq<Migration>, p: Migration -> bool)
    requires none == []
    ensures Filter(none, p) == []
  {
  }

  lemma FilterStep(all: seq<Migration>, i: nat, p: Migration -> bool)
    requires i < |all|
    ensures Filter(all[i..], p) == (if p(all[i]) then [all[i]] else []) + Filter(all[i + 1..], p)
  {
  }

  function IsMissing(rows: map<Version, Row>): Migration -> bool {
    (m: Migration) => m.version !in rows
  }

  function IsChanged(rows: map<Version, Row>): Migration -> bool {
    (m: Migration) => m.version in rows && rows[m.version].checksum != m.checksum
  }

  function IsOld(v: Version): Migration -> bool {
    (m: Migration) => AtMost(m.version, v)
  }

  function IsNew(v: Version): Migration -> bool {
    (m: Migration) => !AtMost(m.version, v)
  }

  /** The rows of the files that have one, in order. */
  function RowsOf(all: seq<Migration>, rows: map<Version, Row>): seq<Row> {
    if all == [] then []
    else (if all[0].version in rows then [rows[all[0].version]] else []) + RowsOf(all[1..], rows)
  }

  /** The baseline is the front of the files and the rest is run. */
  lemma {:induction false} BaselineIsAPrefix(all: seq<Migration>, v: Version)
    requires InOrder(all)
    ensures Filter(all, IsOld(v)) + Filter(all, IsNew(v)) == all
    decreases |all|
  {
    if all != [] {
      hide Filter, InOrder, AtMost;
      RestInOrder(all);
      BaselineIsAPrefix(all[1..], v);
      FilterFirst(all, IsOld(v));
      FilterFirst(all, IsNew(v));
      if AtMost(all[0].version, v) {
        assert ([all[0]] + Filter(all[1..], IsOld(v))) + Filter(all[1..], IsNew(v)) == all;
      } else {
        RestIsNew(all, v);
      }
    }
  }

  lemma RestInOrder(all: seq<Migration>)
    requires all != [] && InOrder(all)
    ensures InOrder(all[1..])
  {
  }

  lemma RestIsNew(all: seq<Migration>, v: Version)
    requires all != [] && InOrder(all) && !AtMost(all[0].version, v)
    ensures Filter(all[1..], IsOld(v)) == []
  {
    InOrderRest(all);
    NothingOld(all[1..], v);
  }

  lemma FilterFirst(all: seq<Migration>, p: Migration -> bool)
    requires all != []
    ensures Filter(all, p) == if p(all[0]) then [all[0]] + Filter(all[1..], p) else Filter(all[1..], p)
  {
  }

  lemma {:induction false} NothingOld(all: seq<Migration>, v: Version)
    requires forall m :: m in all ==> !AtMost(m.version, v)
    ensures Filter(all, IsOld(v)) == []
    decreases |all|
  {
    if all != [] { NothingOld(all[1..], v); }
  }

  lemma InOrderRest(all: seq<Migration>)
    requires all != [] && InOrder(all)
    ensures InOrder(all[1..]) && forall m :: m in all[1..] ==> Less(all[0].version, m.version)
  {
  }

  /** What is picked out stays in version order. */
  lemma {:induction false} FilterInOrder(all: seq<Migration>, p: Migration -> bool)
    requires InOrder(all)
    ensures InOrder(Filter(all, p))
    decreases |all|
  {
    if all != [] {
      InOrderRest(all);
      FilterInOrder(all[1..], p);
      FilterHolds(all[1..], p);
      var rest := Filter(all[1..], p);
      forall i | 0 <= i < |rest| ensures Less(all[0].version, rest[i].version) { assert rest[i] in rest; }
    }
  }

  // ------------------------------------------------------------ transactions

  /** CREATE TABLE IF NOT EXISTS schema_migrations. */
  function Created(db: Db): Db {
    if db.rows.Some? then db else db.(rows := Some(map[]))
  }

  function BaselineRows(baseline: seq<Migration>): (rows: map<Version, Row>)
    ensures forall v :: v in rows <==> exists m :: m in baseline && m.version == v
    ensures forall v :: v in rows ==> rows[v].baseline
  {
    if baseline == [] then map[]
    else
      var m := baseline[|baseline| - 1];
      BaselineRows(baseline[..|baseline| - 1])[m.version := Row(m.name, m.checksum, true)]
  }

  function Adopted(db: Db, baseline: seq<Migration>): Db {
    db.(rows := Some(BaselineRows(baseline)))
  }

  function WithBody(db: Db, m: Migration): Db {
    db.(ran := db.ran + [m.version])
  }

  function WithRow(db: Db, m: Migration): Db
    requires db.rows.Some?
  {
    db.(rows := Some(db.rows.value[m.version := Row(m.name, m.checksum, false)]))
  }

  /** A database whose table exists, ready for the pending migrations. */
  function Prepared(db: Db, plan: Plan): Db {
    match plan.state
    case Empty => Created(db)
    case Adoptable => Adopted(db, plan.baseline)
    case Tracked => db
  }

  function AllApplied(db: Db, ms: seq<Migration>): (r: Db)
    requires db.rows.Some?
    ensures r.rows.Some?
    decreases |ms|
  {
    if ms == [] then db
    else
      var m := ms[|ms| - 1];
      WithRow(WithBody(AllApplied(db, ms[..|ms| - 1]), m), m)
  }

  /** Applying records what was recorded before and every migration applied. */
  lemma {:induction false} AppliedHolds(db: Db, ms: seq<Migration>)
    requires db.rows.Some?
    ensures forall v :: v in AllApplied(db, ms).rows.value <==>
                        v in db.rows.value || exists m :: m in ms && m.version == v
    decreases |ms|
  {
    if ms != [] {
      var init, m := ms[..|ms| - 1], ms[|ms| - 1];
      AppliedHolds(db, init);
      assert forall n :: n in ms <==> n in init || n == m;
    }
  }

  lemma AppliedNext(db: Db, ms: seq<Migration>, i: nat)
    requires db.rows.Some? && i < |ms|
    ensures AllApplied(db, ms[..i + 1]) == WithRow(WithBody(AllApplied(db, ms[..i]), ms[i]), ms[i])
  {
    assert ms[..i + 1][..i] == ms[..i];
  }

  /** How many migrations run before one fails. */
  function Good(ms: seq<Migration>, sqlOk: Migration -> bool): (n: nat)
    ensures n <= |ms|
    ensures forall i :: 0 <= i < n ==> sqlOk(ms[i])
    ensures n < |ms| ==> !sqlOk(ms[n])
  {
    if ms == [] || !sqlOk(ms[0]) then 0 else 1 + Good(ms[1..], sqlOk)
  }

  /** The plan of a database; None is the refusal of a schema that is not the
      baseline's. */
  ghost predicate IsPlan(db: Db, all: seq<Migration>, r: Option<Plan>) {
    if db.rows.Some? then
      && r.Some? && r.value.state == Tracked && r.value.baseline == []
      && InOrder(r.value.pending)
      && r.value.pending == Filter(all, IsMissing(db.rows.value))
      && r.value.applied == RowsOf(all, db.rows.value)
      && r.value.modified == Filter(all, IsChanged(db.rows.value))
      && r.value.unknown == (set v | v in db.rows.value && !(exists m :: m in all && m.version == v))
      && forall m :: m in r.value.late <==> m in r.value.pending && IsLate(all, db.rows.value, m)
    else if db.tables == 0 then r == Some(Plan(Empty, [], [], all, {}, [], []))
    else if !db.marked then r == None
    else
      && r.Some? && r.value.state == Adoptable
      && r.value.baseline == Filter(all, IsOld(BASELINE_VERSION)) && r.value.baseline + r.value.pending == all
      && r.value.applied == [] && r.value.unknown == {} && r.value.modified == [] && r.value.late == []
  }

  class Database {
    var db: Db

    constructor (initial: Db)
      ensures db == initial
    {
      db := initial;
    }

    method Inspect(all: seq<Migration>) returns (r: Option<Plan>)
      requires InOrder(all)
      ensures IsPlan(db, all, r)
    {
      if db.rows == None {
        if db.tables == 0 { return Some(Plan(Empty, [], [], all, {}, [], [])); }
        if !db.marked { return None; }
        var baseline, pending := Split(all);
        BaselineIsAPrefix(all, BASELINE_VERSION);
        return Some(Plan(Adoptable, [], baseline, pending, {}, [], []));
      }
      var plan := Compare(all, db.rows.value);
      FilterInOrder(all, IsMissing(db.rows.value));
      return Some(plan);
    }

    /** Table and baseline rows in one transaction. */
    method AdoptBaseline(baseline: seq<Migration>)
      requires db.rows == None
      modifies this
      ensures db == Adopted(old(db), baseline)
    {
      var rows := map[];
      assert baseline[..0] == [];
      for i := 0 to |baseline|
        invariant rows == BaselineRows(baseline[..i])
      {
        assert baseline[..i + 1][..i] == baseline[..i];
        rows := rows[baseline[i].version := Row(baseline[i].name, baseline[i].checksum, true)];
      }
      assert baseline[..|baseline|] == baseline;
      db := db.(rows := Some(rows));
    }

    /** Body and row; without a transaction they are two statements. */
    method ApplyMigration(m: Migration, sqlOk: bool) returns (ok: bool)
      requires db.rows.Some?
      modifies this
      ensures ok == sqlOk
      ensures db == if sqlOk then WithRow(WithBody(old(db), m), m) else old(db)
    {
      if !sqlOk { return false; }
      if m.noTx {
        db := db.(ran := db.ran + [m.version]);
        db := WithRow(db, m);
        return true;
      }
      db := db.(ran := db.ran + [m.version],
                rows := Some(db.rows.value[m.version := Row(m.name, m.checksum, false)]));
      return true;
    }

    /** The pending migrations one by one, up to the first that fails. */
    method ApplyPending(pending: seq<Migration>, sqlOk: Migration -> bool) returns (ok: bool)
      requires db.rows.Some?
      modifies this
      ensures db == AllApplied(old(db), pending[..Good(pending, sqlOk)])
      ensures ok <==> Good(pending, sqlOk) == |pending|
    {
      hide AllApplied, WithRow, WithBody;
      NothingApplied(db);
      for i := 0 to |pending|
        invariant i <= Good(pending, sqlOk)
        invariant db == AllApplied(old(db), pending[..i])
      {
        GoodFrom(pending, sqlOk, i);
        AppliedNext(old(db), pending, i);
        ok := ApplyMigration(pending[i], sqlOk(pending[i]));
        if !ok { return false; }
      }
      return true;
    }

    /** One instance that is not interrupted. */
    method RunMigrations(all: seq<Migration>, sqlOk: Migration -> bool) returns (ok: bool, plan: Option<Plan>)
      requires InOrder(all)
      modifies this
      ensures IsPlan(old(db), all, plan)
      ensures plan == None ==> !ok && db == old(db)
      ensures plan.Some? ==>
                var p := plan.value.pending; var start := Prepared(old(db), plan.value);
                && start.rows.Some?
                && db == AllApplied(start, p[..Good(p, sqlOk)])
                && (ok <==> Good(p, sqlOk) == |p|)
                && (ok ==> forall m :: m in all ==> m.version in db.rows.value)
                && (ok ==> Records(old(db).rows, db.rows.value, all, plan.value.baseline))
    {
      hide IsPlan, AllApplied, BaselineRows, Records;
      plan := Inspect(all);
      if plan == None { return false, None; }
      PlanFits(db, all, plan.value);
      match plan.value.state {
        case Empty => if db.rows == None { db := db.(rows := Some(map[])); }
        case Adoptable => AdoptBaseline(plan.value.baseline);
        case Tracked =>
      }
      var pending := plan.value.pending;
      ok := ApplyPending(pending, sqlOk);
      if ok {
        assert pending[..|pending|] == pending;
        AllAreRecorded(old(db), all, plan.value);
        RunRecords(old(db), all, plan.value);
      }
    }
  }

  /** What a plan needs of the database is there. */
  lemma PlanFits(db: Db, all: seq<Migration>, plan: Plan)
    requires IsPlan(db, all, Some(plan))
    ensures plan.state != Tracked ==> db.rows == None
    ensures Prepared(db, plan).rows.Some?
  {
  }

  lemma AllAreRecorded(db: Db, all: seq<Migration>, plan: Plan)
    requires IsPlan(db, all, Some(plan)) && Prepared(db, plan).rows.Some?
    ensures forall m :: m in all ==> m.version in AllApplied(Prepared(db, plan), plan.pending).rows.value
  {
    hide AllApplied, IsLate, RowsOf;
    var start := Prepared(db, plan);
    AppliedHolds(start, plan.pending);
    forall m | m in all ensures m.version in start.rows.value || m in plan.pending {
      if db.rows.Some? { FilterHolds(all, IsMissing(db.rows.value)); }
      else if plan.state == Adoptable { AdoptedHolds(plan.baseline, start); }
    }
  }

  // --------------------------------------------------------- what a run leaves behind

  lemma {:induction false} FilterSame(all: seq<Migration>, p: Migration -> bool, q: Migration -> bool)
    requires forall m :: m in all ==> p(m) == q(m)
    ensures Filter(all, p) == Filter(all, q)
    decreases |all|
  {
    if all != [] { FilterSame(all[1..], p, q); }
  }

  lemma NewestIsNew(ms: seq<Migration>)
    requires ms != [] && InOrder(ms)
    ensures InOrder(ms[..|ms| - 1])
    ensures forall m :: m in ms[..|ms| - 1] ==> m.version != ms[|ms| - 1].version
    ensures forall m :: m in ms <==> m in ms[..|ms| - 1] || m == ms[|ms| - 1]
  {
  }

  /** Every file is recorded with its own name and checksum. */
  lemma {:induction false} BaselineRecords(ms: seq<Migration>)
    requires InOrder(ms)
    ensures forall m :: m in ms ==>
              m.version in BaselineRows(ms) && BaselineRows(ms)[m.version] == Row(m.name, m.checksum, true)
    decreases |ms|
  {
    hide InOrder;
    if ms != [] {
      NewestIsNew(ms);
      BaselineRecords(ms[..|ms| - 1]);
    }
  }

  lemma {:induction false} AppliedRecords(db: Db, ms: seq<Migration>)
    requires db.rows.Some? && InOrder(ms)
    ensures var rows := AllApplied(db, ms).rows.value;
            && (forall m :: m in ms ==> m.version in rows && rows[m.version] == Row(m.name, m.checksum, false))
            && (forall v :: v in db.rows.value && (forall m :: m in ms ==> m.version != v) ==>
                  v in rows && rows[v] == db.rows.value[v])
    decreases |ms|
  {
    hide InOrder;
    if ms != [] {
      NewestIsNew(ms);
      AppliedRecords(db, ms[..|ms| - 1]);
    }
  }

  /** The rows after a run: every file that had none is recorded as what it is, and those
      of the baseline as baseline; a row that was there is untouched. */
  ghost predicate Records(was: Option<map<Version, Row>>, rows: map<Version, Row>, all: seq<Migration>,
                          baseline: seq<Migration>) {
    forall m :: m in all ==>
      && m.version in rows
      && (was.Some? && m.version in was.value ==> rows[m.version] == was.value[m.version])
      && (!(was.Some? && m.version in was.value) ==> rows[m.version] == Row(m.name, m.checksum, m in baseline))
  }

  /** Two files with one version are one file. */
  lemma SameVersion(all: seq<Migration>, m: Migration, n: Migration)
    requires InOrder(all) && m in all && n in all && m.version == n.version
    ensures m == n
  {
    var i :| 0 <= i < |all| && all[i] == m;
    var j :| 0 <= j < |all| && all[j] == n;
  }

  lemma RunRecords(db: Db, all: seq<Migration>, plan: Plan)
    requires InOrder(all) && IsPlan(db, all, Some(plan)) && Prepared(db, plan).rows.Some?
    ensures Records(db.rows, AllApplied(Prepared(db, plan), plan.pending).rows.value, all, plan.baseline)
  {
    hide AllApplied, BaselineRows, IsLate, RowsOf, InOrder, Filter;
    var start := Prepared(db, plan);
    PlanIsPart(db, all, plan);
    AppliedRecords(start, plan.pending);
    if plan.state == Adoptable { BaselineRecords(plan.baseline); }
    forall m | m in all
      ensures var rows := AllApplied(start, plan.pending).rows.value;
              && m.version in rows
              && (db.rows.Some? && m.version in db.rows.value ==> rows[m.version] == db.rows.value[m.version])
              && (!(db.rows.Some? && m.version in db.rows.value) ==> rows[m.version] == Row(m.name, m.checksum, m in plan.baseline))
    {
      if m !in plan.pending {
        forall n | n in plan.pending ensures n.version != m.version {
          if n.version == m.version { SameVersion(all, m, n); }
        }
      }
    }
  }

  /** Baseline and pending files are apart, in order, and all of the files not recorded. */
  lemma PlanIsPart(db: Db, all: seq<Migration>, plan: Plan)
    requires InOrder(all) && IsPlan(db, all, Some(plan))
    ensures InOrder(plan.pending) && InOrder(plan.baseline)
    ensures forall m :: m in plan.pending ==> m in all && m !in plan.baseline
    ensures forall m :: m in plan.baseline ==> m in all && db.rows == None
    ensures forall m :: m in all ==>
              (m in plan.pending || m in plan.baseline <==> !(db.rows.Some? && m.version in db.rows.value))
  {
    hide IsLate, RowsOf, Filter;
    if db.rows.Some? {
      FilterHolds(all, IsMissing(db.rows.value));
    } else if db.tables > 0 {
      FilterInOrder(all, IsOld(BASELINE_VERSION));
      Halves(all, plan.baseline, plan.pending);
    }
  }

  lemma Halves(all: seq<Migration>, a: seq<Migration>, b: seq<Migration>)
    requires InOrder(all) && a + b == all
    ensures InOrder(a) && InOrder(b)
    ensures forall m :: m in all <==> m in a || m in b
    ensures forall m :: m in a ==> m !in b
  {
    assert forall i :: 0 <= i < |a| ==> all[i] == a[i];
    assert forall i :: 0 <= i < |b| ==> all[|a| + i] == b[i];
    forall m | m in a ensures m !in b {
      var i :| 0 <= i < |a| && a[i] == m;
      forall j | 0 <= j < |b| ensures b[j] != m { assert Less(all[i].version, all[|a| + j].version); }
    }
  }

  lemma NoMembers(ms: seq<Migration>)
    ensures (forall m :: m !in ms) ==> ms == []
  {
    if ms != [] { assert ms[0] in ms; }
  }

  /** After a run that went through, the next inspection finds every file applied: nothing
      is pending or late, and nothing is modified or unknown that was not before. */
  lemma NothingIsLeft(db: Db, all: seq<Migration>, plan: Plan, next: Plan)
    requires InOrder(all) && IsPlan(db, all, Some(plan)) && Prepared(db, plan).rows.Some?
    requires IsPlan(AllApplied(Prepared(db, plan), plan.pending), all, Some(next))
    ensures next.state == Tracked && next.pending == [] && next.late == [] && next.modified == plan.modified
  {
    hide AllApplied, BaselineRows, RowsOf, InOrder, IsLate;
    RunRecords(db, all, plan);
    var rows := AllApplied(Prepared(db, plan), plan.pending).rows.value;
    FilterHolds(all, IsMissing(rows));
    NoMembers(next.pending);
    NoMembers(next.late);
    NoMembers(next.modified);
    if db.rows.Some? {
      FilterSame(all, IsChanged(rows), IsChanged(db.rows.value));
    } else {
      FilterHolds(all, IsChanged(rows));
    }
  }

  lemma NothingApplied(db: Db)
    requires db.rows.Some?
    ensures AllApplied(db, []) == db
  {
  }

  lemma AdoptedHolds(baseline: seq<Migration>, db: Db)
    requires db.rows == Some(BaselineRows(baseline))
    ensures forall m :: m in baseline ==> m.version in db.rows.value
  {
  }

  lemma {:induction false} GoodFrom(ms: seq<Migration>, sqlOk: Migration -> bool, i: nat)
    requires i < |ms| && i <= Good(ms, sqlOk)
    ensures i < Good(ms, sqlOk) <==> sqlOk(ms[i])
  {
  }

  method Compare(all: seq<Migration>, rows: map<Version, Row>) returns (plan: Plan)
    requires InOrder(all)
    ensures plan.state == Tracked && plan.baseline == []
    ensures plan.pending == Filter(all, IsMissing(rows)) && plan.applied == RowsOf(all, rows)
    ensures plan.modified == Filter(all, IsChanged(rows))
    ensures plan.unknown == set v | v in rows && !(exists m :: m in all && m.version == v)
    ensures forall m :: m in plan.late <==> m in plan.pending && IsLate(all, rows, m)
  {
    hide Filter, RowsOf, InOrder, Less, IsNewest, IsLate;
    var applied, modified, newest := ReadApplied(all, rows);
    var unknown := set v | v in rows && !(exists m :: m in all && m.version == v);
    var pending, late := ReadPending(all, rows, newest);
    LateMeans(all, rows, newest);
    plan := Plan(Tracked, applied, [], pending, unknown, modified, late);
  }

  predicate OlderThan(m: Migration, newest: Option<Migration>) {
    newest.Some? && Less(m.version, newest.value.version)
  }

  method ReadPending(all: seq<Migration>, rows: map<Version, Row>, newest: Option<Migration>)
    returns (pending: seq<Migration>, late: seq<Migration>)
    ensures pending == Filter(all, IsMissing(rows))
    ensures forall m :: m in late <==> m in pending && OlderThan(m, newest)
  {
    hide Filter, OlderThan;
    EmptyFilter(all[|all|..], IsMissing(rows));
    assert all[0..] == all;
    pending, late := [], [];
    for i := 0 to |all|
      invariant pending + Filter(all[i..], IsMissing(rows)) == Filter(all, IsMissing(rows))
      invariant forall m :: m in late <==> m in pending && OlderThan(m, newest)
    {
      FilterStep(all, i, IsMissing(rows));
      if all[i].version !in rows {
        pending := pending + [all[i]];
        if OlderThan(all[i], newest) { late := late + [all[i]]; }
      }
    }
  }

  /** The newest applied file of those given, if any. */
  ghost predicate IsNewest(all: seq<Migration>, rows: map<Version, Row>, newest: Option<Migration>) {
    match newest
    case None => forall j :: 0 <= j < |all| ==> all[j].version !in rows
    case Some(n) =>
      && n in all && n.version in rows
      && forall j :: 0 <= j < |all| && all[j].version in rows ==> all[j] == n || Less(all[j].version, n.version)
  }

  method ReadApplied(all: seq<Migration>, rows: map<Version, Row>)
    returns (applied: seq<Row>, modified: seq<Migration>, newest: Option<Migration>)
    requires InOrder(all)
    ensures applied == RowsOf(all, rows) && modified == Filter(all, IsChanged(rows)) && IsNewest(all, rows, newest)
  {
    hide Filter, RowsOf, InOrder, IsNewest;
    EmptyFilter(all[|all|..], IsChanged(rows));
    EmptyRows(all[|all|..], rows);
    NoneIsNewest(all[..0], rows);
    assert all[0..] == all && all[..|all|] == all;
    applied, modified, newest := [], [], None;
    for i := 0 to |all|
      invariant applied + RowsOf(all[i..], rows) == RowsOf(all, rows)
      invariant modified + Filter(all[i..], IsChanged(rows)) == Filter(all, IsChanged(rows))
      invariant IsNewest(all[..i], rows, newest)
    {
      FilterStep(all, i, IsChanged(rows));
      RowsStep(all, i, rows);
      NewestStep(all, i, rows, newest);
      if all[i].version in rows {
        var a := rows[all[i].version];
        applied := applied + [a];
        if a.checksum != all[i].checksum { modified := modified + [all[i]]; }
        newest := Some(all[i]);
      }
    }
  }

  lemma EmptyRows(none: seq<Migration>, rows: map<Version, Row>)
    requires none == []
    ensures RowsOf(none, rows) == []
  {
  }

  lemma RowsStep(all: seq<Migration>, i: nat, rows: map<Version, Row>)
    requires i < |all|
    ensures RowsOf(all[i..], rows) ==
            (if all[i].version in rows then [rows[all[i].version]] else []) + RowsOf(all[i + 1..], rows)
  {
  }

  lemma NoneIsNewest(all: seq<Migration>, rows: map<Version, Row>)
    requires all == []
    ensures IsNewest(all, rows, None)
  {
  }

  lemma NewestStep(all: seq<Migration>, i: nat, rows: map<Version, Row>, newest: Option<Migration>)
    requires InOrder(all) && i < |all| && IsNewest(all[..i], rows, newest)
    ensures IsNewest(all[..i + 1], rows, if all[i].version in rows then Some(all[i]) else newest)
  {
  }

  /** Older than the newest applied is older than some applied. */
  lemma LateMeans(all: seq<Migration>, rows: map<Version, Row>, newest: Option<Migration>)
    requires IsNewest(all, rows, newest)
    ensures forall m :: IsLate(all, rows, m) <==> OlderThan(m, newest)
  {
  }


  method Split(all: seq<Migration>) returns (baseline: seq<Migration>, pending: seq<Migration>)
    ensures baseline == Filter(all, IsOld(BASELINE_VERSION)) && pending == Filter(all, IsNew(BASELINE_VERSION))
  {
    hide AtMost, Filter;
    EmptyFilter(all[|all|..], IsOld(BASELINE_VERSION));
    EmptyFilter(all[|all|..], IsNew(BASELINE_VERSION));
    assert all[0..] == all;
    baseline, pending := [], [];
    for i := 0 to |all|
      invariant baseline + Filter(all[i..], IsOld(BASELINE_VERSION)) == Filter(all, IsOld(BASELINE_VERSION))
      invariant pending + Filter(all[i..], IsNew(BASELINE_VERSION)) == Filter(all, IsNew(BASELINE_VERSION))
    {
      FilterStep(all, i, IsOld(BASELINE_VERSION));
      FilterStep(all, i, IsNew(BASELINE_VERSION));
      if AtMost(all[i].version, BASELINE_VERSION) {
        baseline := baseline + [all[i]];
      } else {
        pending := pending + [all[i]];
      }
    }
  }
}
