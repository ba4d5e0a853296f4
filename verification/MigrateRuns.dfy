/** Any number of server instances migrating one database: they queue for the
    advisory lock, and any of them may fail or die between two statements, which
    frees the lock and rolls back what was not committed. */
module MigrateRuns {
  import opened Wrappers
  import opened Migrate

  /** Where an instance stands. Held has the lock but has not looked; Ready knows what
      is pending and still has to prepare the table; Applying works through the rest;
      Unrecorded has executed a body outside a transaction. */
  datatype Phase =
    | Waiting
    | Held
    | Ready(state: State, pending: seq<Migration>)
    | Applying(rest: seq<Migration>)
    | Unrecorded(rest: seq<Migration>)
    | Finished
    | Gone

  /** `did` is the order in which this instance applied migrations. */
  datatype Instance = Instance(files: seq<Migration>, phase: Phase, did: seq<Migration>)

  /** `plain` are the versions whose file asks for no transaction. */
  datatype World = World(db: Db, lock: Option<int>, instances: map<int, Instance>, plain: set<Version>)

  datatype Step =
    | Start(id: int, files: seq<Migration>)
    | TakeLock(id: int)
    | Look(id: int)
    | Prepare(id: int)
    | Apply(id: int)
    | Execute(id: int)
    | Record(id: int)
    | Finish(id: int)
    | Die(id: int)

  predicate Refused(db: Db) {
    db.rows == None && db.tables > 0 && !db.marked
  }

  function StateOf(db: Db): State {
    if db.rows.Some? then Tracked else if db.tables == 0 then Empty else Adoptable
  }

  function PendingOf(db: Db, files: seq<Migration>): seq<Migration> {
    match StateOf(db)
    case Empty => files
    case Adoptable => Filter(files, IsNew(BASELINE_VERSION))
    case Tracked => Filter(files, IsMissing(db.rows.value))
  }

  predicate At(w: World, id: int, phase: Phase) {
    id in w.instances && w.instances[id].phase == phase
  }

  predicate Possible(w: World, s: Step) {
    match s
    case Start(id, files) =>
      id !in w.instances && InOrder(files) && forall m :: m in files ==> (m.noTx <==> m.version in w.plain)
    case TakeLock(id) => At(w, id, Waiting) && w.lock == None
    case Look(id) => At(w, id, Held) && !Refused(w.db)
    case Prepare(id) => id in w.instances && w.instances[id].phase.Ready?
    case Apply(id) =>
      id in w.instances && w.instances[id].phase.Applying? && w.db.rows.Some? &&
      w.instances[id].phase.rest != [] && !w.instances[id].phase.rest[0].noTx
    case Execute(id) =>
      id in w.instances && w.instances[id].phase.Applying? &&
      w.instances[id].phase.rest != [] && w.instances[id].phase.rest[0].noTx
    case Record(id) =>
      id in w.instances && w.instances[id].phase.Unrecorded? && w.db.rows.Some? && w.instances[id].phase.rest != []
    case Finish(id) => At(w, id, Applying([]))
    case Die(id) => id in w.instances && !w.instances[id].phase.Finished? && !w.instances[id].phase.Gone?
  }

  function Moved(w: World, id: int, phase: Phase): World
    requires id in w.instances
  {
    w.(instances := w.instances[id := w.instances[id].(phase := phase)])
  }

  /** The first of the rest has been applied and recorded. */
  function Did(w: World, id: int, rest: seq<Migration>): World
    requires id in w.instances && rest != []
  {
    w.(instances := w.instances[id := w.instances[id].(phase := Applying(rest[1..]),
                                                       did := w.instances[id].did + [rest[0]])])
  }

  function Next(w: World, s: Step): World
    requires Possible(w, s)
  {
    match s
    case Start(id, files) => w.(instances := w.instances[id := Instance(files, Waiting, [])])
    case TakeLock(id) => Moved(w, id, Held).(lock := Some(id))
    case Look(id) => Moved(w, id, Ready(StateOf(w.db), PendingOf(w.db, w.instances[id].files)))
    case Prepare(id) =>
      var p := w.instances[id].phase;
      var v := Moved(w, id, Applying(p.pending));
      (match p.state
       case Empty => v.(db := Created(w.db))
       case Adoptable => v.(db := Adopted(w.db, Filter(w.instances[id].files, IsOld(BASELINE_VERSION))))
       case Tracked => v)
    case Apply(id) =>
      var rest := w.instances[id].phase.rest;
      Did(w, id, rest).(db := WithRow(WithBody(w.db, rest[0]), rest[0]))
    case Execute(id) =>
      var rest := w.instances[id].phase.rest;
      Moved(w, id, Unrecorded(rest)).(db := WithBody(w.db, rest[0]))
    case Record(id) =>
      var rest := w.instances[id].phase.rest;
      Did(w, id, rest).(db := WithRow(w.db, rest[0]))
    case Finish(id) => Moved(w, id, Finished).(lock := None)
    case Die(id) => Moved(w, id, Gone).(lock := if w.lock == Some(id) then None else w.lock)
  }

  // --------------------------------------------------------------- invariant

  function Count(vs: seq<Version>, v: Version): nat {
    if vs == [] then 0 else Count(vs[..|vs| - 1], v) + if vs[|vs| - 1] == v then 1 else 0
  }

  lemma CountSnoc(vs: seq<Version>, u: Version, v: Version)
    ensures Count(vs + [u], v) == Count(vs, v) + if u == v then 1 else 0
  {
  }

  predicate RecordedByRunning(db: Db, v: Version) {
    db.rows.Some? && v in db.rows.value && !db.rows.value[v].baseline
  }

  /** What the history of executed bodies has to do with the table. */
  predicate BodyOk(db: Db, plain: set<Version>, v: Version) {
    if v in plain then RecordedByRunning(db, v) ==> Count(db.ran, v) > 0
    else Count(db.ran, v) == if RecordedByRunning(db, v) then 1 else 0
  }

  /** A version recorded as baseline was not run. */
  predicate BaselineOk(db: Db, v: Version) {
    db.rows.Some? && v in db.rows.value && db.rows.value[v].baseline ==> Count(db.ran, v) == 0
  }

  ghost predicate DbOk(db: Db, plain: set<Version>) {
    && (forall v :: BodyOk(db, plain, v) && BaselineOk(db, v))
    && (db.rows == None ==> db.ran == [])
  }

  predicate Working(p: Phase) {
    p.Held? || p.Ready? || p.Applying? || p.Unrecorded?
  }

  /** The rest of a run is exactly the instance's files that have no row yet. */
  ghost predicate RestOk(db: Db, i: Instance, rest: seq<Migration>) {
    && db.rows.Some? && rest == Filter(i.files, IsMissing(db.rows.value))
    && InOrder(i.did + rest)
  }

  ghost predicate InstanceOk(w: World, i: Instance) {
    && InOrder(i.files) && (forall m :: m in i.files ==> (m.noTx <==> m.version in w.plain))
    && InOrder(i.did)
    && match i.phase
       case Held => i.did == []
       case Waiting => i.did == []
       case Ready(state, pending) =>
         i.did == [] && state == StateOf(w.db) && pending == PendingOf(w.db, i.files) && !Refused(w.db)
       case Applying(rest) => RestOk(w.db, i, rest)
       case Unrecorded(rest) =>
         RestOk(w.db, i, rest) && rest != [] && rest[0].noTx && Count(w.db.ran, rest[0].version) > 0
       case Finished => w.db.rows.Some? && forall m :: m in i.files ==> m.version in w.db.rows.value
       case Gone => true
  }

  ghost predicate Inv(w: World) {
    && DbOk(w.db, w.plain)
    && (forall id :: id in w.instances ==> InstanceOk(w, w.instances[id]))
    && (forall id :: id in w.instances && Working(w.instances[id].phase) ==> w.lock == Some(id))
  }

  lemma {:induction false} FilterSame(all: seq<Migration>, p: Migration -> bool, q: Migration -> bool)
    requires forall m :: m in all ==> p(m) == q(m)
    ensures Filter(all, p) == Filter(all, q)
    decreases |all|
  {
    if all != [] { FilterSame(all[1..], p, q); }
  }

  lemma {:induction false} FilterAll(all: seq<Migration>, p: Migration -> bool)
    requires forall m :: m in all ==> p(m)
    ensures Filter(all, p) == all
    decreases |all|
  {
    if all != [] { FilterAll(all[1..], p); }
  }

  /** Recording the first missing file leaves the others missing. */
  lemma {:induction false} FirstRecorded(files: seq<Migration>, rows: map<Version, Row>, row: Row)
    requires InOrder(files) && Filter(files, IsMissing(rows)) != []
    ensures var rest := Filter(files, IsMissing(rows));
            Filter(files, IsMissing(rows[rest[0].version := row])) == rest[1..]
    decreases |files|
  {
    InOrderRest(files);
    var rest := Filter(files, IsMissing(rows));
    if files[0].version !in rows {
      assert rest[0] == files[0] && rest[1..] == Filter(files[1..], IsMissing(rows));
      FilterSame(files[1..], IsMissing(rows), IsMissing(rows[files[0].version := row]));
    } else {
      assert rest == Filter(files[1..], IsMissing(rows));
      FirstRecorded(files[1..], rows, row);
      FilterHolds(files[1..], IsMissing(rows));
      assert rest[0] in rest;
    }
  }

  /** Adopting leaves exactly the files after the baseline missing. */
  lemma AdoptedRest(files: seq<Migration>)
    requires InOrder(files)
    ensures Filter(files, IsNew(BASELINE_VERSION)) ==
            Filter(files, IsMissing(BaselineRows(Filter(files, IsOld(BASELINE_VERSION)))))
  {
    var old_ := Filter(files, IsOld(BASELINE_VERSION));
    FilterHolds(files, IsOld(BASELINE_VERSION));
    forall m | m in files ensures IsNew(BASELINE_VERSION)(m) == IsMissing(BaselineRows(old_))(m) {
      if AtMost(m.version, BASELINE_VERSION) { assert m in old_; }
    }
    FilterSame(files, IsNew(BASELINE_VERSION), IsMissing(BaselineRows(old_)));
  }

  // ------------------------------------------------------------ steps on the database

  lemma BodyAndRow(db: Db, plain: set<Version>, m: Migration)
    requires DbOk(db, plain) && db.rows.Some? && m.version !in db.rows.value && m.version !in plain
    ensures DbOk(WithRow(WithBody(db, m), m), plain)
  {
    hide Count;
    var after := WithRow(WithBody(db, m), m);
    forall v ensures BodyOk(after, plain, v) && BaselineOk(after, v) {
      CountSnoc(db.ran, m.version, v);
      assert BodyOk(db, plain, v) && BaselineOk(db, v);
    }
  }

  lemma BodyAlone(db: Db, plain: set<Version>, m: Migration)
    requires DbOk(db, plain) && db.rows.Some? && m.version !in db.rows.value && m.version in plain
    ensures DbOk(WithBody(db, m), plain) && Count(WithBody(db, m).ran, m.version) > 0
  {
    hide Count;
    var after := WithBody(db, m);
    CountSnoc(db.ran, m.version, m.version);
    forall v ensures BodyOk(after, plain, v) && BaselineOk(after, v) {
      CountSnoc(db.ran, m.version, v);
      assert BodyOk(db, plain, v) && BaselineOk(db, v);
    }
  }

  lemma RowAlone(db: Db, plain: set<Version>, m: Migration)
    requires DbOk(db, plain) && db.rows.Some? && m.version !in db.rows.value && m.version in plain
    requires Count(db.ran, m.version) > 0
    ensures DbOk(WithRow(db, m), plain)
  {
    hide Count;
    var after := WithRow(db, m);
    forall v ensures BodyOk(after, plain, v) && BaselineOk(after, v) {
      assert BodyOk(db, plain, v) && BaselineOk(db, v);
    }
  }

  lemma TableMade(db: Db, plain: set<Version>, baseline: seq<Migration>)
    requires DbOk(db, plain) && db.rows == None
    ensures DbOk(Created(db), plain) && DbOk(Adopted(db, baseline), plain)
  {
  }

  /** Rows are never changed or removed. */
  predicate RowsKept(a: Db, b: Db) {
    a.rows.Some? ==> b.rows.Some? && forall v :: v in a.rows.value ==> v in b.rows.value && b.rows.value[v] == a.rows.value[v]
  }

  lemma OthersKeep(w: World, v: World, id: int)
    requires Inv(w) && id in w.instances && w.lock == Some(id) && RowsKept(w.db, v.db) && v.plain == w.plain
    requires v.instances.Keys == w.instances.Keys
    requires forall j :: j in w.instances && j != id ==> v.instances[j] == w.instances[j]
    requires DbOk(v.db, v.plain) && InstanceOk(v, v.instances[id])
    requires v.lock == w.lock || !Working(v.instances[id].phase)
    ensures Inv(v)
  {
  }

  // ----------------------------------------------------------------- every step

  lemma StepQueue(w: World, s: Step)
    requires Inv(w) && Possible(w, s) && (s.Start? || s.TakeLock? || s.Look?)
    ensures Inv(Next(w, s)) && RowsKept(w.db, Next(w, s).db)
  {
    hide DbOk, Filter;
    var v := Next(w, s);
    forall j | j in v.instances ensures InstanceOk(v, v.instances[j]) {
      if j in w.instances { assert InstanceOk(w, w.instances[j]); }
    }
  }

  lemma StepPrepare(w: World, s: Step)
    requires Inv(w) && Possible(w, s) && s.Prepare?
    ensures Inv(Next(w, s)) && RowsKept(w.db, Next(w, s).db)
  {
    hide DbOk, Filter;
    var v := Next(w, s);
    var i, j := w.instances[s.id], v.instances[s.id];
    var before := Filter(i.files, IsOld(BASELINE_VERSION));
    AdoptedRest(i.files);
    FilterAll(i.files, IsMissing(map[]));
    if w.db.rows == None { TableMade(w.db, w.plain, before); }
    FilterInOrder(i.files, IsMissing(v.db.rows.value));
    assert j.did + j.phase.rest == j.phase.rest;
    OthersKeep(w, v, s.id);
  }

  lemma StepApply(w: World, s: Step)
    requires Inv(w) && Possible(w, s) && (s.Apply? || s.Record?)
    ensures Inv(Next(w, s)) && RowsKept(w.db, Next(w, s).db)
  {
    hide DbOk, Filter, Count;
    var v := Next(w, s);
    var i, j := w.instances[s.id], v.instances[s.id];
    var rest, rows := i.phase.rest, w.db.rows.value;
    var m := rest[0];
    FilterHolds(i.files, IsMissing(rows));
    assert m in rest;
    FirstRecorded(i.files, rows, Row(m.name, m.checksum, false));
    if s.Apply? { BodyAndRow(w.db, w.plain, m); } else { RowAlone(w.db, w.plain, m); }
    DidInOrder(i.did, rest);
    OthersKeep(w, v, s.id);
  }

  lemma DidInOrder(did: seq<Migration>, rest: seq<Migration>)
    requires rest != [] && InOrder(did + rest)
    ensures (did + [rest[0]]) + rest[1..] == did + rest && InOrder((did + [rest[0]]) + rest[1..]) && InOrder(did + [rest[0]])
  {
    assert (did + [rest[0]]) + rest[1..] == did + rest;
    assert forall i :: 0 <= i <= |did| ==> (did + [rest[0]])[i] == (did + rest)[i];
  }

  lemma StepExecute(w: World, s: Step)
    requires Inv(w) && Possible(w, s) && s.Execute?
    ensures Inv(Next(w, s)) && RowsKept(w.db, Next(w, s).db)
  {
    hide DbOk, Filter, Count;
    var v := Next(w, s);
    var i := w.instances[s.id];
    var rest := i.phase.rest;
    FilterHolds(i.files, IsMissing(w.db.rows.value));
    assert rest[0] in rest;
    BodyAlone(w.db, w.plain, rest[0]);
    OthersKeep(w, v, s.id);
  }

  lemma StepEnd(w: World, s: Step)
    requires Inv(w) && Possible(w, s) && (s.Finish? || s.Die?)
    ensures Inv(Next(w, s)) && RowsKept(w.db, Next(w, s).db)
  {
    hide DbOk, Filter;
    var v := Next(w, s);
    var i := w.instances[s.id];
    if s.Finish? {
      FilterHolds(i.files, IsMissing(w.db.rows.value));
      forall m | m in i.files ensures m.version in v.db.rows.value {
        assert m !in Filter(i.files, IsMissing(w.db.rows.value));
      }
    }
    forall j | j in v.instances ensures InstanceOk(v, v.instances[j]) {
      assert InstanceOk(w, w.instances[j]);
    }
  }

  lemma InvStep(w: World, s: Step)
    requires Inv(w) && Possible(w, s)
    ensures Inv(Next(w, s)) && RowsKept(w.db, Next(w, s).db)
  {
    hide Inv, Possible, Next;
    match s
    case Prepare(_) => StepPrepare(w, s);
    case Apply(_) => StepApply(w, s);
    case Record(_) => StepApply(w, s);
    case Execute(_) => StepExecute(w, s);
    case Finish(_) => StepEnd(w, s);
    case Die(_) => StepEnd(w, s);
    case _ => StepQueue(w, s);
  }

  // ------------------------------------------------------------------- any run

  predicate CanRun(w: World, ss: seq<Step>)
    decreases |ss|
  {
    ss == [] || (Possible(w, ss[0]) && CanRun(Next(w, ss[0]), ss[1..]))
  }

  function Run(w: World, ss: seq<Step>): World
    requires CanRun(w, ss)
    decreases |ss|
  {
    if ss == [] then w else Run(Next(w, ss[0]), ss[1..])
  }

  lemma {:induction false} InvRun(w: World, ss: seq<Step>)
    requires Inv(w) && CanRun(w, ss)
    ensures Inv(Run(w, ss)) && RowsKept(w.db, Run(w, ss).db) && Run(w, ss).plain == w.plain
    decreases |ss|
  {
    if ss != [] {
      InvStep(w, ss[0]);
      PlainKept(w, ss[0]);
      hide Inv, Next;
      InvRun(Next(w, ss[0]), ss[1..]);
    }
  }

  lemma PlainKept(w: World, s: Step)
    requires Possible(w, s)
    ensures Next(w, s).plain == w.plain
  {
  }

  /** A database no instance has touched yet, whatever is in it. */
  predicate Untouched(w: World) {
    w.db.rows == None && w.db.ran == [] && w.lock == None && w.instances == map[]
  }

  lemma UntouchedOk(w: World)
    requires Untouched(w)
    ensures Inv(w)
  {
  }

  /** Whatever instances start, fail, die and take over: the body of a transactional
      migration has been kept exactly as often as it has a row that is not a baseline
      row, once or never; a baseline row's file has never run; each instance works in
      version order; and an instance that finished leaves every file recorded. */
  lemma MigrationsRunOnce(w: World, ss: seq<Step>)
    requires Untouched(w) && CanRun(w, ss)
    ensures var v := Run(w, ss);
            && (forall x :: x !in w.plain ==> Count(v.db.ran, x) == if RecordedByRunning(v.db, x) then 1 else 0)
            && (forall x :: v.db.rows.Some? && x in v.db.rows.value && v.db.rows.value[x].baseline ==> Count(v.db.ran, x) == 0)
            && (forall id :: id in v.instances ==> InOrder(v.instances[id].did))
            && forall id :: id in v.instances && v.instances[id].phase.Finished? ==>
                 v.db.rows.Some? && forall m :: m in v.instances[id].files ==> m.version in v.db.rows.value
  {
    UntouchedOk(w);
    InvRun(w, ss);
    hide InOrder, Count;
    var v := Run(w, ss);
    forall x | x !in w.plain ensures Count(v.db.ran, x) == if RecordedByRunning(v.db, x) then 1 else 0 {
      assert BodyOk(v.db, v.plain, x);
    }
    forall x | v.db.rows.Some? && x in v.db.rows.value && v.db.rows.value[x].baseline ensures Count(v.db.ran, x) == 0 {
      assert BaselineOk(v.db, x);
    }
  }

  /** A row, baseline or not, is final: whatever happens next leaves it as it is. */
  lemma RowsAreFinal(w: World, first: seq<Step>, more: seq<Step>)
    requires Untouched(w) && CanRun(w, first) && CanRun(Run(w, first), more)
    ensures RowsKept(Run(w, first).db, Run(Run(w, first), more).db)
  {
    UntouchedOk(w);
    InvRun(w, first);
    InvRun(Run(w, first), more);
  }

  lemma {:induction false} RunSnoc(w: World, ss: seq<Step>, s: Step)
    requires CanRun(w, ss) && Possible(Run(w, ss), s)
    ensures CanRun(w, ss + [s]) && Run(w, ss + [s]) == Next(Run(w, ss), s)
    decreases |ss|
  {
    hide Possible, Next;
    if ss == [] {
      assert ss + [s] == [s] && [s][1..] == [];
      assert Run(Next(w, s), []) == Next(w, s);
    } else {
      assert (ss + [s])[1..] == ss[1..] + [s];
      RunSnoc(Next(w, ss[0]), ss[1..], s);
    }
  }

  /** One instance working on the only file m, which needs no transaction. */
  function Toward(id: int, m: Migration): seq<Step> {
    [Start(id, [m]), TakeLock(id), Look(id), Prepare(id), Execute(id)]
  }

  lemma OneExecutes(w: World, id: int, m: Migration)
    requires m.noTx && w.plain == {m.version} && w.lock == None && id !in w.instances && !Refused(w.db)
    requires StateOf(w.db) != Adoptable && (w.db.rows.Some? ==> m.version !in w.db.rows.value)
    ensures CanRun(w, Toward(id, m))
    ensures var v := Run(w, Toward(id, m));
            && v.db == WithBody(Created(w.db), m) && v.plain == w.plain && v.lock == Some(id)
            && v.instances == w.instances[id := Instance([m], Unrecorded([m]), [])]
  {
    var all := [m];
    assert all[1..] == [] && Filter([], IsMissing(Created(w.db).rows.value)) == [];
    assert Filter(all, IsMissing(Created(w.db).rows.value)) == all;
    var w1 := Next(w, Start(id, all));
    var w2 := Next(w1, TakeLock(id));
    var w3 := Next(w2, Look(id));
    var w4 := Next(w3, Prepare(id));
    assert w4.instances[id].phase == Applying(all);
    var w5 := Next(w4, Execute(id));
    assert w5.instances == w.instances[id := Instance([m], Unrecorded([m]), [])];
    FiveSteps(w, Start(id, all), TakeLock(id), Look(id), Prepare(id), Execute(id));
  }

  lemma FiveSteps(w: World, a: Step, b: Step, c: Step, d: Step, e: Step)
    requires Possible(w, a) && Possible(Next(w, a), b) && Possible(Next(Next(w, a), b), c)
    requires Possible(Next(Next(Next(w, a), b), c), d) && Possible(Next(Next(Next(Next(w, a), b), c), d), e)
    ensures CanRun(w, [a, b, c, d, e])
    ensures Run(w, [a, b, c, d, e]) == Next(Next(Next(Next(Next(w, a), b), c), d), e)
  {
    hide Possible, Next;
    var w1 := Next(w, a);
    var w2 := Next(w1, b);
    var w3 := Next(w2, c);
    var w4 := Next(w3, d);
    assert [a, b, c, d, e][1..] == [b, c, d, e] && [b, c, d, e][1..] == [c, d, e];
    assert [c, d, e][1..] == [d, e] && [d, e][1..] == [e] && [e][1..] == [];
    assert CanRun(w4, [e]) && Run(w4, [e]) == Next(w4, e);
    assert CanRun(w2, [c, d, e]) && Run(w2, [c, d, e]) == Run(w4, [e]);
  }

  /** Without a transaction a body can be kept twice: the instance dies before
      recording it and the next one starts it again. */
  lemma PlainRunsTwice(m: Migration)
    requires m.noTx
    ensures var w := World(Db(0, false, None, []), None, map[], {m.version});
            Untouched(w) && exists ss :: CanRun(w, ss) && Run(w, ss).db.ran == [m.version, m.version]
  {
    var w := World(Db(0, false, None, []), None, map[], {m.version});
    OneExecutes(w, 1, m);
    var v := Run(w, Toward(1, m));
    hide Filter;
    RunSnoc(w, Toward(1, m), Die(1));
    var u := Next(v, Die(1));
    OneExecutes(u, 2, m);
    var ss := Toward(1, m) + [Die(1)];
    RunConcat(w, ss, Toward(2, m));
    assert Run(w, ss + Toward(2, m)).db.ran == [m.version, m.version];
  }

  lemma {:induction false} RunConcat(w: World, a: seq<Step>, b: seq<Step>)
    requires CanRun(w, a) && CanRun(Run(w, a), b)
    ensures CanRun(w, a + b) && Run(w, a + b) == Run(Run(w, a), b)
    decreases |a|
  {
    hide Possible, Next;
    if a == [] {
      assert a + b == b;
    } else {
      assert (a + b)[1..] == a[1..] + b;
      RunConcat(Next(w, a[0]), a[1..], b);
    }
  }
}
