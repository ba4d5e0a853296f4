/** Any number of workers logging in with one subject's credentials, some asked for by
    hand and so not waiting for a permission: what the pauses ration, run by run. */
module AuthRuns {
  import opened Wrappers
  import opened AuthBackoff

  datatype What =
    | Acquire(who: nat)
    | Rejected(who: nat, msg: string)
    | Accepted(who: nat)
    | GaveUp(who: nat)
    | Reset

  /** Something a worker or a user does, and when. */
  datatype Step = Step(at: int, what: What)

  /** The subject's row, the time of the last step, when each attempt in flight was
      allowed, when the rejections counted in the row were, and for each whether its
      verdict was late: a burst window or more after the attempt was allowed, or of an
      attempt nobody allowed, such as a sync started by hand. */
  datatype World = World(row: Option<Row>, clock: int, flying: map<nat, int>, counted: seq<int>, late: seq<bool>)

  const USER := 1

  predicate Possible(w: World, s: Step) {
    s.at >= w.clock && (s.what.Acquire? ==> s.what.who !in w.flying)
  }

  predicate Late(w: World, who: nat, at: int) {
    who !in w.flying || at - w.flying[who] >= BURST_WINDOW
  }

  function Next(w: World, s: Step): World
    requires Possible(w, s)
  {
    match s.what
    case Acquire(a) =>
      var (ok, row) := Acquired(w.row, s.at);
      w.(row := row, clock := s.at, flying := if ok then w.flying[a := s.at] else w.flying)
    case Rejected(a, msg) =>
      var (row, counted) := Recorded(w.row, USER, s.at, msg);
      World(Some(row), s.at, w.flying - {a}, if counted then w.counted + [s.at] else w.counted,
            if counted then w.late + [Late(w, a, s.at)] else w.late)
    case Accepted(a) => World(None, s.at, w.flying - {a}, [], [])
    case GaveUp(a) => w.(clock := s.at, flying := w.flying - {a})
    case Reset => World(None, s.at, w.flying, [], [])
  }

  /** A step that allows an attempt. */
  predicate Wins(w: World, s: Step) {
    s.what.Acquire? && Acquired(w.row, s.at).0
  }

  predicate Clears(s: Step) {
    s.what.Accepted? || s.what.Reset?
  }

  predicate CanRun(w: World, ss: seq<Step>)
    decreases |ss|
  {
    ss == [] || (Possible(w, ss[0]) && CanRun(Next(w, ss[0]), ss[1..]))
  }

  function Run(w: World, ss: seq<Step>): World
    requires CanRun(w, ss)
    decreases |ss|
  {
    if ss == [] then w else Run(Next(w, ss[0]), ss[1..])
  }

  predicate NeverCleared(ss: seq<Step>) {
    forall i :: 0 <= i < |ss| ==> !Clears(ss[i])
  }

  function Start(now: int): World {
    World(None, now, map[], [], [])
  }

  // ------------------------------------------------------ what any run keeps

  predicate RowOk(w: World) {
    match w.row
    case None => w.counted == []
    case Some(r) =>
      && r.failures == |w.counted| > 0 && r.firstFailure == w.counted[0]
      && w.counted[|w.counted| - 1] <= r.lastFailure <= w.clock
      && r.firstFailure <= w.clock
      && r.nextAttempt <= w.clock + Delay(r.failures, w.clock - r.firstFailure)
  }

  /** Counted rejections are a burst window apart. */
  predicate Spread(counted: seq<int>) {
    forall i :: 0 < i < |counted| ==> counted[i] >= counted[i - 1] + BURST_WINDOW
  }

  predicate Inv(w: World) {
    && RowOk(w) && Spread(w.counted) && |w.late| == |w.counted|
    && forall a :: a in w.flying ==> w.flying[a] <= w.clock
  }

  lemma InvStep(w: World, s: Step)
    requires Inv(w) && Possible(w, s)
    ensures Inv(Next(w, s))
  {
    if w.row.Some? {
      var r := w.row.value;
      DelayIsMonotone(r.failures, w.clock - r.firstFailure, r.failures, s.at - r.firstFailure);
    }
  }

  /** While the state is not cleared, the next attempt is never moved closer. */
  lemma NextStepNeverDecreases(w: World, s: Step)
    requires Inv(w) && Possible(w, s) && w.row.Some? && !Clears(s)
    ensures Next(w, s).row.Some?
    ensures Next(w, s).row.value.nextAttempt >= w.row.value.nextAttempt
    ensures Wins(w, s) ==>
              Next(w, s).row.value.nextAttempt == RetryLease(w.row.value, s.at) && w.row.value.nextAttempt <= s.at
  {
  }

  lemma {:induction false} NextAttemptNeverDecreases(w: World, ss: seq<Step>)
    requires Inv(w) && CanRun(w, ss) && w.row.Some? && NeverCleared(ss)
    ensures Inv(Run(w, ss)) && Run(w, ss).row.Some?
    ensures Run(w, ss).row.value.nextAttempt >= w.row.value.nextAttempt
    decreases |ss|
  {
    hide Next, Inv;
    if ss != [] {
      InvStep(w, ss[0]);
      NextStepNeverDecreases(w, ss[0]);
      assert forall i :: 0 <= i < |ss[1..]| ==> ss[1..][i] == ss[i + 1];
      NextAttemptNeverDecreases(Next(w, ss[0]), ss[1..]);
    }
  }

  /** Of all the workers waking up, one wins and the others wait out another whole
      pause: a later winner comes no sooner than the lease of the first. */
  lemma OneWinnerPerPause(w: World, first: Step, between: seq<Step>, second: Step)
    requires Inv(w) && w.row.Some? && Possible(w, first) && Wins(w, first)
    requires CanRun(Next(w, first), between) && NeverCleared(between)
    requires var v := Run(Next(w, first), between); Possible(v, second) && Wins(v, second)
    ensures second.at >= first.at + Delay(w.row.value.failures, first.at - w.row.value.firstFailure)
    ensures second.at >= first.at + MINUTE
  {
    InvStep(w, first);
    NextStepNeverDecreases(w, first);
    NextAttemptNeverDecreases(Next(w, first), between);
    var v := Run(Next(w, first), between);
    NextStepNeverDecreases(v, second);
  }

  // ------------------------------------------------------- what the pauses ration

  /** Each counted rejection whose verdict was not late waited out the pause of the one
      before. */
  predicate Paced(counted: seq<int>, late: seq<bool>)
    requires |late| == |counted|
  {
    forall i :: 0 < i < |counted| && !late[i] ==>
      counted[i] >= counted[i - 1] + Delay(i, counted[i - 1] - counted[0])
  }

  /** The end of the pause the last counted rejection earned. */
  function PauseEnd(counted: seq<int>): int
    requires counted != []
  {
    var last := counted[|counted| - 1];
    last + Delay(|counted|, last - counted[0])
  }

  /** An attempt in flight was allowed by the time of the last counted rejection, or
      after the pause that followed. */
  predicate RunInv(w: World) {
    && Inv(w) && Paced(w.counted, w.late)
    && (w.row.Some? ==>
          && w.row.value.nextAttempt >= PauseEnd(w.counted)
          && forall a :: a in w.flying ==>
               w.flying[a] <= w.counted[|w.counted| - 1] || w.flying[a] >= PauseEnd(w.counted))
  }

  /** One more counted rejection, by an attempt that waited unless its verdict is late. */
  lemma PacedSnoc(c: seq<int>, late: seq<bool>, now: int, isLate: bool)
    requires c != [] && |late| == |c| && Paced(c, late) && (isLate || now >= PauseEnd(c))
    ensures Paced(c + [now], late + [isLate])
  {
    hide Delay;
    var d, l := c + [now], late + [isLate];
    forall i | 0 < i < |d| && !l[i] ensures d[i] >= d[i - 1] + Delay(i, d[i - 1] - d[0]) {
      assert d[0] == c[0] && d[i - 1] == c[i - 1];
      if i < |c| { assert d[i] == c[i] && l[i] == late[i]; }
    }
  }

  lemma CountedRejection(w: World, s: Step)
    requires RunInv(w) && Possible(w, s) && s.what.Rejected? && w.row.Some?
    requires Recorded(w.row, USER, s.at, s.what.msg).1
    ensures Paced(Next(w, s).counted, Next(w, s).late)
    ensures Next(w, s).row.value.nextAttempt >= PauseEnd(Next(w, s).counted)
  {
    var isLate := Late(w, s.what.who, s.at);
    hide Delay, Paced, Spread;
    PacedSnoc(w.counted, w.late, s.at, isLate);
  }

  lemma FirstRejection(w: World, s: Step)
    requires RunInv(w) && Possible(w, s) && s.what.Rejected? && w.row == None
    ensures Paced(Next(w, s).counted, Next(w, s).late)
    ensures Next(w, s).row.value.nextAttempt >= PauseEnd(Next(w, s).counted)
  {
    assert w.counted == [] && w.late == [];
    hide Delay;
  }

  lemma RejectedStep(w: World, s: Step)
    requires RunInv(w) && Possible(w, s) && s.what.Rejected?
    ensures RunInv(Next(w, s))
  {
    InvStep(w, s);
    if w.row == None {
      FirstRejection(w, s);
    } else if Recorded(w.row, USER, s.at, s.what.msg).1 {
      CountedRejection(w, s);
    } else {
      NextStepNeverDecreases(w, s);
    }
    hide Delay, Spread, Paced;
  }

  lemma RunStep(w: World, s: Step)
    requires RunInv(w) && Possible(w, s)
    ensures RunInv(Next(w, s))
  {
    if s.what.Rejected? {
      RejectedStep(w, s);
    } else {
      InvStep(w, s);
      if w.row.Some? && !Clears(s) { NextStepNeverDecreases(w, s); }
      hide Delay, RowOk, Spread;
    }
  }

  lemma {:induction false} RunKeeps(w: World, ss: seq<Step>)
    requires RunInv(w) && CanRun(w, ss)
    ensures RunInv(Run(w, ss))
    decreases |ss|
  {
    hide Next, RunInv;
    if ss != [] {
      RunStep(w, ss[0]);
      RunKeeps(Next(w, ss[0]), ss[1..]);
    }
  }

  /** The earliest the k-th rejection in a row can be counted, after the first. */
  function Earliest(k: nat): int {
    if k <= 1 then 0
    else if k <= 5 then Earliest(k - 1) + STEPS[k - 2]
    else Earliest(k - 1) + HOUR
  }

  lemma {:induction false} EarliestValue(k: nat)
    requires k >= 4
    ensures Earliest(k) == 21 * MINUTE + (k - 4) * HOUR
  {
    if k == 4 {
      assert Earliest(3) == 6 * MINUTE;
    } else {
      EarliestValue(k - 1);
    }
  }

  function Lates(late: seq<bool>): nat {
    if late == [] then 0 else Lates(late[..|late| - 1]) + if late[|late| - 1] then 1 else 0
  }

  /** Leaving the late ones out of account, rejections keep to the schedule. */
  lemma {:induction false} KeepsTheSchedule(counted: seq<int>, late: seq<bool>, i: nat)
    requires |late| == |counted| && Paced(counted, late) && Spread(counted) && i < |counted|
    ensures counted[i] >= counted[0] + Earliest(if i >= Lates(late[..i + 1]) then i + 1 - Lates(late[..i + 1]) else 0)
    ensures Lates(late[..i + 1]) <= i + 1
  {
    assert late[..i + 1][..i] == late[..i];
    if i == 0 {
      assert Lates(late[..0]) == 0;
    } else {
      KeepsTheSchedule(counted, late, i - 1);
      var n := Lates(late[..i]);
      if !late[i] { NextEarliest(i - n, i, counted[i - 1] - counted[0]); }
    }
  }

  lemma NextEarliest(k: nat, i: nat, since: int)
    requires k <= i && 0 < i
    ensures Earliest(k + 1) <= Earliest(k) + Delay(i, since)
  {
    if k > 0 { DelayIsMonotone(k, 0, i, if since < 0 then 0 else since); }
  }

  /** In every run, of the rejections counted in the 24 hours after the first at most
      27 had verdicts that were not late; and once more than four were counted and a
      day has passed each of those is 6 hours after the one before. */
  lemma LoginsAreRationed(now: int, ss: seq<Step>)
    requires CanRun(Start(now), ss)
    ensures var w := Run(Start(now), ss); var c := w.counted;
            && |w.late| == |c|
            && (forall i :: 0 <= i < |c| && c[i] <= c[0] + LONG_REJECTION ==> i + 1 <= 27 + Lates(w.late[..i + 1]))
            && forall i :: 4 < i < |c| && !w.late[i] && c[i - 1] >= c[0] + LONG_REJECTION ==> c[i] >= c[i - 1] + SLOW_STEP
  {
    RunKeeps(Start(now), ss);
    var w := Run(Start(now), ss);
    var c := w.counted;
    forall i | 0 <= i < |c| && c[i] <= c[0] + LONG_REJECTION ensures i + 1 <= 27 + Lates(w.late[..i + 1]) {
      KeepsTheSchedule(c, w.late, i);
      var k := i + 1 - Lates(w.late[..i + 1]);
      if k > 27 { EarliestValue(k); }
    }
  }

  // -------------------------------------------------------------- composing runs

  lemma {:induction false} RunConcat(w: World, a: seq<Step>, b: seq<Step>)
    requires CanRun(w, a) && CanRun(Run(w, a), b)
    ensures CanRun(w, a + b) && Run(w, a + b) == Run(Run(w, a), b)
    decreases |a|
  {
    hide Next, Possible;
    if a == [] {
      assert a + b == b;
    } else {
      assert (a + b)[1..] == a[1..] + b;
      RunConcat(Next(w, a[0]), a[1..], b);
    }
  }
}
