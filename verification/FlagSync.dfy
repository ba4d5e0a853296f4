/** The life of one mirrored message under every interleaving of user changes, pulls
    and the push worker of internal/worker/flag_sync_task.go, which reads the queue
    row, stores upstream and deletes the row by id in three separate steps. The user
    steps are those of internal/service/messages/messages.go. */
module FlagSync {
  import opened Wrappers
  import opened FlagStore

  /** A row the worker has read. `untouched` says that no change was queued since,
      `stored` that upstream took it. */
  datatype Flight = Flight(entry: Entry, at: int, stored: bool, untouched: bool)

  /** `deleted` is the message's own \Deleted flag and `remote` the upstream copy, if
      it still exists. The last three are history: the flags of the user's last
      change, whether a change waits to be stored, whether a delete was asked for. */
  datatype World = World(
    msg: Message, deleted: bool, row: Option<Entry>, nextId: int, remote: Option<Upstream>,
    flight: Option<Flight>, clock: int, last: Flags, unpushed: bool, doomed: bool)

  datatype What =
    | SetFlags(flags: Flags, deleted: bool)
    | Delete
    | Elsewhere(flags: Flags)
    | Pull(seen: Upstream, downgrade: bool)
    | Fetch
    | StoreUp
    | Finish
    | Fail(msg: Octets)
    | Crash

  datatype Step = Step(at: int, what: What)

  const ACCOUNT := 1

  predicate SamePlace(a: Upstream, b: Upstream) {
    a.uid == b.uid && a.folder == b.folder
  }

  /** The entry leads to the upstream copy. */
  predicate LeadsTo(e: Entry, remote: Option<Upstream>) {
    remote.Some? ==> e.uid == remote.value.uid && e.folder == remote.value.folder
  }

  /** Where the message is upstream, as far as its row knows. */
  function FolderOf(m: Message): string {
    if m.remoteFolder.Some? then m.remoteFolder.value else "INBOX"
  }

  predicate PointsTo(m: Message, up: Upstream) {
    m.remoteUid == Some(up.uid) && FolderOf(m) == up.folder
  }

  predicate Possible(w: World, s: Step) {
    s.at >= w.clock &&
    match s.what
    case Fetch => w.flight == None && w.row.Some? && Due(w.row.value, ACCOUNT, s.at)
    case StoreUp => w.flight.Some? && !w.flight.value.stored
    case Finish => w.flight.Some? && w.flight.value.stored
    case Fail(_) => w.flight.Some?
    case Crash => w.flight.Some?
    case Pull(seen, _) => seen.uid > 0 && (w.remote.Some? ==> SamePlace(seen, w.remote.value))
    case _ => true
  }

  /** Only a message whose place upstream is known has anywhere to push to. */
  predicate Synced(m: Message) {
    m.account == Some(ACCOUNT) && m.remoteUid.Some? && m.remoteUid.value > 0
  }

  /** A change of the user: the row is upserted in the same transaction. */
  function Queued(w: World, flags: Flags, deleted: bool, now: int): World
    requires Synced(w.msg)
  {
    w.(row := Some(Upserted(w.row, NewRow(w.nextId, ACCOUNT, FolderOf(w.msg), w.msg.remoteUid.value, flags, deleted, now))),
       nextId := w.nextId + 1,
       flight := if w.flight.Some? then Some(w.flight.value.(untouched := false)) else None,
       last := flags, unpushed := true, doomed := w.doomed || deleted)
  }

  function Apply(w: World, s: Step): World
    requires Possible(w, s)
  {
    match s.what
    case SetFlags(flags, deleted) =>
      if flags == w.msg.flags && deleted == w.deleted then w
      else
        var v := w.(msg := w.msg.(flags := flags, updatedAt := s.at), deleted := deleted);
        if Synced(w.msg) then Queued(v, flags, deleted, s.at) else v
    case Delete => if Synced(w.msg) then Queued(w, w.msg.flags, true, s.at) else w
    case Elsewhere(flags) =>
      if w.remote.Some? then w.(remote := Some(w.remote.value.(flags := flags))) else w
    case Pull(seen, downgrade) => w.(msg := Refreshed(w.msg, w.row.Some?, seen, downgrade, s.at))
    case Fetch => w.(flight := Some(Flight(w.row.value, s.at, false, true)))
    case StoreUp =>
      var f := w.flight.value;
      w.(remote := Pushed(w.remote, f.entry),
         flight := Some(f.(stored := true)),
         unpushed := w.unpushed && !f.untouched)
    case Finish =>
      w.(row := WithoutRow(w.row, w.flight.value.entry.id), flight := None,
         unpushed := w.unpushed && !Harmless(w))
    case Fail(msg) =>
      w.(row := if w.row.Some? && w.row.value.id == w.flight.value.entry.id
                then Some(Failed(w.row.value, msg, s.at)) else w.row,
         flight := None)
    case Crash => w.(flight := None)
  }

  /** A store or delete by folder and UID reaches the copy only where it is. */
  function Pushed(remote: Option<Upstream>, e: Entry): Option<Upstream> {
    if remote.None? || !LeadsTo(e, remote) then remote
    else if e.deleted then None
    else Some(remote.value.(flags := e.flags))
  }

  /** What the worker stored covers the row as it is now: it was a delete, or the row has
      the flags stored and no delete. */
  predicate Harmless(w: World) {
    w.flight.Some? && w.row.Some? &&
    var e, r := w.flight.value.entry, w.row.value;
    e.deleted || (r.flags == e.flags && !r.deleted)
  }

  function WithoutRow(row: Option<Entry>, id: int): Option<Entry> {
    if row.Some? && row.value.id == id then None else row
  }

  function Next(w: World, s: Step): World
    requires Possible(w, s)
  {
    Apply(w, s).(clock := s.at)
  }

  // --------------------------------------------------------------- invariant

  predicate Inv(w: World) {
    // A pending row holds what the user sees, which is their last change.
    && (w.row.Some? ==> w.row.value.flags == w.msg.flags == w.last && w.row.value.account == ACCOUNT
                        && w.row.value.id < w.nextId && w.row.value.createdAt <= w.clock && Synced(w.msg))
    // Nothing unpushed is forgotten, and a delete is queued until it is done.
    && (w.unpushed ==> w.row.Some?)
    && (w.doomed && w.remote.Some? ==> w.row.Some? && w.row.value.deleted)
    && (w.row.Some? && w.row.value.deleted ==> w.doomed)
    // What is pushed is pushed to where the message is.
    && (w.remote.Some? && Synced(w.msg) ==> PointsTo(w.msg, w.remote.value))
    && (w.row.Some? ==> LeadsTo(w.row.value, w.remote))
    && (w.flight.Some? ==> FlightOk(w, w.flight.value))
  }

  predicate FlightOk(w: World, f: Flight) {
    && w.row.Some? && w.row.value.id == f.entry.id && f.entry.createdAt <= f.at <= w.clock
    && LeadsTo(f.entry, w.remote)
    && (f.untouched ==> w.row.value == f.entry)
    && (f.untouched && f.stored ==> !w.unpushed)
    && (f.stored && f.entry.deleted ==> w.remote == None)
    && (!f.untouched ==> w.unpushed && w.row.value.createdAt >= f.at)
  }

  /** A removal takes only what was stored: nobody changed the row since it was read, or
      the changes amount to nothing. */
  predicate Clean(w: World, s: Step) {
    s.what.Finish? ==> Harmless(w)
  }

  lemma UntouchedIsHarmless(w: World)
    requires Inv(w) && w.flight.Some? && w.flight.value.untouched
    ensures Harmless(w)
  {
  }

  predicate IsUser(s: Step) {
    s.what.SetFlags? || s.what.Delete?
  }

  predicate IsUpstream(s: Step) {
    s.what.Pull? || s.what.Elsewhere?
  }

  predicate IsStore(s: Step) {
    s.what.Fetch? || s.what.StoreUp?
  }

  lemma InvUser(w: World, s: Step)
    requires Inv(w) && Possible(w, s) && IsUser(s)
    ensures Inv(Next(w, s))
  {
  }

  lemma InvPull(w: World, s: Step)
    requires Inv(w) && Possible(w, s) && IsUpstream(s)
    ensures Inv(Next(w, s))
  {
  }

  lemma InvStore(w: World, s: Step)
    requires Inv(w) && Possible(w, s) && IsStore(s)
    ensures Inv(Next(w, s))
  {
    hide Clipped, Backoff;
  }

  lemma InvEnd(w: World, s: Step)
    requires Inv(w) && Possible(w, s) && Clean(w, s) && !IsUser(s) && !IsUpstream(s) && !IsStore(s)
    ensures Inv(Next(w, s))
  {
    hide Clipped, Backoff;
  }

  lemma InvStep(w: World, s: Step)
    requires Inv(w) && Possible(w, s) && Clean(w, s)
    ensures Inv(Next(w, s))
  {
    hide Inv, Next, Possible, Clean;
    if IsUser(s) { InvUser(w, s); }
    else if IsUpstream(s) { InvPull(w, s); }
    else if IsStore(s) { InvStore(w, s); }
    else { InvEnd(w, s); }
  }

  /** The invariant survives the removal of the row exactly when what was stored covers
      the row. */
  lemma FinishKeepsExactly(w: World, s: Step)
    requires Inv(w) && Possible(w, s) && s.what.Finish?
    ensures Inv(Next(w, s)) <==> Harmless(w)
  {
  }

  /** The row itself tells: comparing created_at with the value read would do, if the
      row was read later than it was queued. */
  lemma CreatedAtTells(w: World)
    requires Inv(w) && w.flight.Some? && w.flight.value.entry.createdAt < w.flight.value.at
    ensures w.flight.value.untouched <==> w.row.value.createdAt == w.flight.value.entry.createdAt
  {
  }

  // -------------------------------------------------------------------- runs

  predicate CanRun(w: World, ss: seq<Step>)
    decreases |ss|
  {
    ss == [] || (Possible(w, ss[0]) && CanRun(Next(w, ss[0]), ss[1..]))
  }

  function Run(w: World, ss: seq<Step>): World
    requires CanRun(w, ss)
    decreases |ss|
  {
    if ss == [] then w else Run(Next(w, ss[0]), ss[1..])
  }

  predicate AllClean(w: World, ss: seq<Step>)
    requires CanRun(w, ss)
    decreases |ss|
  {
    ss == [] || (Clean(w, ss[0]) && AllClean(Next(w, ss[0]), ss[1..]))
  }

  lemma {:induction false} InvRun(w: World, ss: seq<Step>)
    requires Inv(w) && CanRun(w, ss) && AllClean(w, ss)
    ensures Inv(Run(w, ss))
    decreases |ss|
  {
    hide Inv, Next, Clean;
    if ss != [] {
      InvStep(w, ss[0]);
      InvRun(Next(w, ss[0]), ss[1..]);
    }
  }

  /** A message just mirrored, nothing queued. */
  predicate Mirrored(w: World) {
    w.row == None && w.flight == None && !w.unpushed && !w.doomed &&
    (w.remote.Some? ==> PointsTo(w.msg, w.remote.value))
  }

  /** In every state of every run whose removals take only what was stored: a change not
      yet pushed is still queued, shown to the user as they made it and about to be sent;
      a delete asked for is queued as a delete or done. */
  lemma UserWins(w: World, ss: seq<Step>)
    requires Mirrored(w) && CanRun(w, ss) && AllClean(w, ss)
    ensures var v := Run(w, ss);
            && (v.unpushed ==> v.msg.flags == v.last && v.row.Some? && v.row.value.flags == v.last)
            && (v.doomed ==> v.remote == None || (v.row.Some? && v.row.value.deleted))
            && (v.row.Some? && v.remote.Some? ==>
                  v.row.value.folder == v.remote.value.folder && v.row.value.uid == v.remote.value.uid)
            && (v.flight.Some? && v.remote.Some? ==>
                  v.flight.value.entry.folder == v.remote.value.folder && v.flight.value.entry.uid == v.remote.value.uid)
  {
    InvRun(w, ss);
  }

  /** A change of a message whose place upstream is known is queued as the user made it,
      for that place, and due at once; a message without one queues nothing. */
  lemma ChangeIsQueued(w: World, s: Step)
    requires Possible(w, s) && (s.what.SetFlags? || s.what.Delete?)
    ensures var v := Next(w, s);
            var synced := w.msg.account == Some(ACCOUNT) && w.msg.remoteUid.Some? && w.msg.remoteUid.value > 0;
            var flags := if s.what.SetFlags? then s.what.flags else w.msg.flags;
            var deleted := if s.what.SetFlags? then s.what.deleted else true;
            var changes := s.what.Delete? || flags != w.msg.flags || deleted != w.deleted;
            && v.msg.flags == flags && (s.what.SetFlags? ==> v.deleted == deleted)
            && (if changes && synced
                then v.row.Some? && v.unpushed && v.last == flags && IsQueued(v.row.value, flags, deleted, s.at) &&
                     (w.row == None ==> IsPlaced(v.row.value, w.msg))
                else v.row == w.row)
  {
  }

  predicate IsQueued(e: Entry, flags: Flags, deleted: bool, now: int) {
    e.flags == flags && (deleted ==> e.deleted) && e.createdAt == now && e.nextAttempt == 0 && e.retries == 0
  }

  predicate IsPlaced(e: Entry, m: Message) {
    e.account == ACCOUNT && m.remoteUid == Some(e.uid) &&
    e.folder == (if m.remoteFolder.Some? then m.remoteFolder.value else "INBOX")
  }

  /** While a row is queued it stays for its place, and the worker takes it as it is. */
  lemma RowKeepsPlace(w: World, s: Step)
    requires Possible(w, s) && w.row.Some?
    ensures var v := Next(w, s); var was := w.row.value;
            && (v.row.Some? ==> (v.row.value.id, v.row.value.account, v.row.value.folder, v.row.value.uid) ==
                                (was.id, was.account, was.folder, was.uid))
            && (v.row.Some? && was.deleted ==> v.row.value.deleted)
            && (s.what.Fetch? ==> v.flight.Some? && v.flight.value.entry == was)
  {
    hide Clipped, Backoff, Refreshed;
  }

  /** What the worker stores, when nothing was queued meanwhile, is the last change. */
  lemma StoreDelivers(w: World, s: Step)
    requires Inv(w) && Possible(w, s) && s.what.StoreUp? && w.flight.value.untouched
    ensures var v := Next(w, s);
            !v.unpushed && (v.remote.Some? ==> v.remote.value.flags == w.last) && (w.doomed ==> v.remote == None)
  {
  }

  /** Nothing of the user's got lost on the way: upstream is gone if they asked for it,
      and otherwise has the flags of their last change. */
  predicate Arrived(w: World) {
    (w.doomed ==> w.remote == None) && (w.remote.Some? ==> w.remote.value.flags == w.last)
  }

  /** What users and pulls do while the worker waits. */
  predicate IsMeanwhile(s: Step) {
    IsUser(s) || s.what.Pull?
  }

  lemma {:induction false} MeanwhileKeeps(w: World, ss: seq<Step>)
    requires Inv(w) && w.flight.Some? && CanRun(w, ss) && forall i :: 0 <= i < |ss| ==> IsMeanwhile(ss[i])
    ensures var v := Run(w, ss);
            Inv(v) && v.remote == w.remote && v.flight.Some? && v.flight.value.entry == w.flight.value.entry &&
            v.flight.value.stored == w.flight.value.stored
    decreases |ss|
  {
    hide Inv, Refreshed, Upserted;
    if ss != [] {
      if IsUser(ss[0]) { InvUser(w, ss[0]); } else { InvPull(w, ss[0]); }
      assert forall i :: 0 <= i < |ss[1..]| ==> ss[1..][i] == ss[i + 1];
      MeanwhileKeeps(Next(w, ss[0]), ss[1..]);
    }
  }

  /** The worker stores the entry it read, users and pulls go on, and the worker removes
      the row: nothing is lost if and only if what was stored covers the row removed. A
      caller could compare them. */
  lemma RemovalLosesExactly(w: World, s: Step, meanwhile: seq<Step>, t: Step)
    requires Inv(w) && w.remote.Some? && Possible(w, s) && s.what.StoreUp?
    requires CanRun(Next(w, s), meanwhile) && forall i :: 0 <= i < |meanwhile| ==> IsMeanwhile(meanwhile[i])
    requires t.what.Finish? && Possible(Run(Next(w, s), meanwhile), t)
    ensures var u := Run(Next(w, s), meanwhile);
            Arrived(Next(u, t)) <==> Harmless(u)
  {
    InvStore(w, s);
    MeanwhileKeeps(Next(w, s), meanwhile);
    hide Run, CanRun, Refreshed, Upserted;
  }

  /** A queued delete stays set as long as the row stays. */
  lemma DeleteIsSticky(w: World, s: Step)
    requires Possible(w, s) && w.row.Some? && w.row.value.deleted
    ensures var v := Next(w, s);
            (v.row.Some? && v.row.value.id == w.row.value.id && v.row.value.deleted) || (v.row == None && s.what.Finish?)
  {
  }

  lemma {:induction false} DeleteStaysQueued(w: World, ss: seq<Step>)
    requires CanRun(w, ss) && w.row.Some? && w.row.value.deleted
    requires forall i :: 0 <= i < |ss| ==> !ss[i].what.Finish?
    ensures var v := Run(w, ss); v.row.Some? && v.row.value.id == w.row.value.id && v.row.value.deleted
    decreases |ss|
  {
    hide Next, Possible;
    if ss != [] {
      assert forall i :: 0 <= i < |ss[1..]| ==> ss[1..][i] == ss[i + 1];
      DeleteIsSticky(w, ss[0]);
      DeleteStaysQueued(Next(w, ss[0]), ss[1..]);
    }
  }

  // --------------------------------------------------------------- agreement

  /** An undisturbed push of the pending row, then a pull. */
  function Settled(w: World, now: int): World
    requires w.flight == None && w.clock <= now
    requires w.row.Some? ==> Due(w.row.value, ACCOUNT, now)
    requires w.remote.Some? ==> w.remote.value.uid > 0
  {
    var pushed :=
      if w.row.None? then w
      else Next(Next(Next(w, Step(now, Fetch)), Step(now, StoreUp)), Step(now, Finish));
    if pushed.remote.Some? then Next(pushed, Step(now, Pull(pushed.remote.value, true))) else pushed
  }

  /** Once nobody changes anything any more, one push and one pull make both sides
      agree: upstream is gone if a delete was asked for, otherwise both show the
      user's pending change, or upstream's flags when there was none. Pulling again
      changes nothing. */
  lemma SettledAgrees(w: World, now: int, later: int)
    requires Inv(w) && w.flight == None && w.clock <= now <= later
    requires w.row.Some? ==> Due(w.row.value, ACCOUNT, now)
    requires w.remote.Some? ==> w.remote.value.uid > 0
    ensures var v := Settled(w, now);
            && v.row == None && !v.unpushed
            && (w.doomed ==> v.remote == None)
            && (v.remote.Some? ==>
                  && v.msg.flags == v.remote.value.flags
                  && v.msg.flags == (if w.row.Some? then w.last else w.remote.value.flags)
                  && Refreshed(v.msg, false, v.remote.value, true, later) == v.msg)
  {
    if w.row.Some? {
      var a := Next(w, Step(now, Fetch));
      var b := Next(a, Step(now, StoreUp));
      InvStep(w, Step(now, Fetch));
      StoreDelivers(a, Step(now, StoreUp));
      InvStep(a, Step(now, StoreUp));
      InvStep(b, Step(now, Finish));
    }
  }

  /** The same after any history of users, pulls, crashes and failures in which every
      removal took only what was stored. */
  lemma AnyRunSettles(w: World, ss: seq<Step>, now: int, later: int)
    requires Mirrored(w) && CanRun(w, ss) && AllClean(w, ss)
    requires var u := Run(w, ss);
             && u.flight == None && u.clock <= now <= later
             && (u.row.Some? ==> Due(u.row.value, ACCOUNT, now))
             && (u.remote.Some? ==> u.remote.value.uid > 0)
    ensures var u := Run(w, ss); var v := Settled(u, now);
            && v.row == None && !v.unpushed && (u.doomed ==> v.remote == None)
            && (v.remote.Some? ==>
                  && v.msg.flags == v.remote.value.flags
                  && v.msg.flags == (if u.row.Some? then u.last else u.remote.value.flags)
                  && Refreshed(v.msg, false, v.remote.value, true, later) == v.msg)
  {
    hide Settled, Next;
    InvRun(w, ss);
    SettledAgrees(Run(w, ss), now, later);
  }

  // ----------------------------------------------------------------- backoff

  /** After a failure the row waits out the pause of its failure count; a change by
      the user makes it due at once. */
  lemma BackoffHolds(w: World, s: Step, t: Step)
    requires Possible(w, s) && s.what.Fail? && w.row.Some? && w.row.value.id == w.flight.value.entry.id
    requires t.at >= s.at
    ensures var v := Next(w, s);
            && (Possible(v, t) && t.what.Fetch? ==> t.at >= s.at + Backoff(w.row.value.retries + 1))
            && (Possible(v, t) && t.what.Delete? && Synced(w.msg) && w.row.value.account == ACCOUNT && t.at >= 0 ==>
                  Possible(Next(v, t), Step(t.at, Fetch)))
  {
  }

  lemma BackoffGrows(m: int, n: int)
    requires 1 <= m <= n
    ensures 60_000 <= Backoff(m) <= Backoff(n) <= 86_400_000
    ensures Backoff(1) == 60_000 && Backoff(2) == 5 * 60_000 && Backoff(3) == 30 * 60_000
    ensures Backoff(4) == 3 * 3_600_000 && Backoff(5) == 12 * 3_600_000 && (n > 5 ==> Backoff(n) == 24 * 3_600_000)
  {
  }

  // ------------------------------------------------ the race the row id allows

  /** A run in which the user's second change is lost: queued between the worker's
      reading and deleting the row, it goes with the row, and the next pull shows the
      first change again although nobody else touched the message. */
  lemma ChangeLost(w: World, up: Upstream)
    requires Mirrored(w) && w.clock == 0 && w.remote == Some(up) && w.msg.flags == up.flags == Flags(false, false, false)
    requires !w.deleted && Synced(w.msg) && up.uid > 0
    ensures var v := AfterRace(w);
            v.row == None && v.last == Flags(true, true, false) && v.remote.Some? && !v.doomed &&
            Next(v, Step(4, Pull(v.remote.value, true))).msg.flags == Flags(true, false, false)
  {
  }

  function AfterRace(w: World): World
    requires Mirrored(w) && w.clock == 0 && !w.deleted && w.msg.flags == Flags(false, false, false)
    requires Synced(w.msg)
  {
    var a := Next(w, Step(1, SetFlags(Flags(true, false, false), false)));
    var b := Next(a, Step(2, Fetch));
    var c := Next(b, Step(3, SetFlags(Flags(true, true, false), false)));
    Next(Next(c, Step(4, StoreUp)), Step(4, Finish))
  }
}
