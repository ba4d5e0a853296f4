/** How late a verdict may come after its attempt was allowed before the pauses stop
    bounding the logins of a day: less than two minutes, and not a millisecond more. */
module AuthLateness {
  import opened Wrappers
  import opened AuthBackoff
  import opened AuthRuns

  const LATEST := 4 * BURST_WINDOW

  /** A verdict of an attempt that was allowed less than `bound` before. */
  predicate Within(w: World, s: Step, bound: int) {
    s.what.Rejected? ==> s.what.who in w.flying && s.at - w.flying[s.what.who] < bound
  }

  predicate AllWithin(w: World, ss: seq<Step>, bound: int)
    requires CanRun(w, ss)
    decreases |ss|
  {
    ss == [] || (Within(w, ss[0], bound) && AllWithin(Next(w, ss[0]), ss[1..], bound))
  }

  /** No more than 27 in the 24 hours after the first. */
  predicate AtMost27(counted: seq<int>) {
    forall i :: 27 <= i < |counted| ==> counted[i] > counted[0] + LONG_REJECTION
  }

  /** From the fifth rejection on each waited out the pause of the one before. */
  predicate PacedFromFifth(counted: seq<int>) {
    forall i :: 4 <= i < |counted| ==> counted[i] >= counted[i - 1] + Delay(i, counted[i - 1] - counted[0])
  }

  // ------------------------------------------- attempts in flight at one moment

  /** Allowed so long ago that its verdict, if it comes in time, falls into the burst of
      the last counted rejection. */
  predicate Spent(c: seq<int>, x: int)
    requires c != []
  {
    x + LATEST <= c[|c| - 1] + BURST_WINDOW
  }

  /** Allowed after the last pause. */
  predicate IsFresh(c: seq<int>, x: int)
    requires c != []
  {
    x >= PauseEnd(c)
  }

  /** Allowed between the first and the second counted rejection. */
  predicate IsSecond(c: seq<int>, x: int)
    requires c != []
  {
    2 <= |c| <= 3 && c[0] + MINUTE <= x <= c[1]
  }

  function MinGap(k: nat): int {
    if k == 1 then MINUTE else 5 * MINUTE
  }

  predicate Apart(x: int, y: int, gap: int) {
    x + gap <= y || y + gap <= x
  }

  predicate FlightOk(c: seq<int>, next: int, x: int)
    requires c != []
  {
    (Spent(c, x) || IsFresh(c, x) || (|c| <= 3 && (x <= c[0] || IsSecond(c, x)))) &&
    (IsFresh(c, x) ==> x + MinGap(|c|) <= next)
  }

  predicate PairOk(c: seq<int>, x: int, y: int)
    requires c != []
  {
    (IsFresh(c, x) && IsFresh(c, y) ==> Apart(x, y, MinGap(|c|))) &&
    (IsSecond(c, x) && IsSecond(c, y) ==> Spent(c, x) || Spent(c, y))
  }

  predicate FlightsOk(c: seq<int>, next: int, flying: map<nat, int>)
    requires c != []
  {
    (forall a :: a in flying ==> FlightOk(c, next, flying[a])) &&
    forall a, b :: a in flying && b in flying && a != b ==> PairOk(c, flying[a], flying[b])
  }

  predicate LateInv(w: World) {
    && RunInv(w) && PacedFromFifth(w.counted)
    && (w.row.Some? ==> FlightsOk(w.counted, w.row.value.nextAttempt, w.flying))
  }

  // ------------------------------------------------------- one more is counted

  /** What happens to the others in flight when the verdict of an attempt allowed at x
      is counted at now. */
  lemma OthersAfterCount(c: seq<int>, next: int, x: int, y: int, now: int, next2: int)
    requires c != [] && Spread(c) && now >= c[|c| - 1] + BURST_WINDOW && x <= now < x + LATEST && y <= now
    requires FlightOk(c, next, x) && FlightOk(c, next, y) && PairOk(c, x, y) && PairOk(c, y, x)
    ensures FlightOk(c + [now], next2, y)
    ensures |c| >= 4 ==> IsFresh(c, x)
  {
    var d := c + [now];
    assert Delay(|c|, c[|c| - 1] - c[0]) >= MinGap(|c|);
    if |c| == 2 { assert c[1] >= c[0] + BURST_WINDOW; }
    if |c| == 3 { assert c[1] >= c[0] + BURST_WINDOW && c[2] >= c[1] + BURST_WINDOW; }
    assert Delay(|d|, now - d[0]) >= MINUTE;
  }

  /** Of three attempts in flight at the second counted rejection one is spent. */
  lemma SecondsAfterCount(c: seq<int>, next: int, x: int, y: int, z: int, now: int)
    requires c != [] && Spread(c) && now >= c[|c| - 1] + BURST_WINDOW && x <= now < x + LATEST && y <= now && z <= now
    requires FlightOk(c, next, x) && FlightOk(c, next, y) && FlightOk(c, next, z)
    requires PairOk(c, x, y) && PairOk(c, x, z) && PairOk(c, y, z)
    ensures PairOk(c + [now], y, z)
  {
    var d := c + [now];
    assert PauseEnd(d) >= now + MINUTE;
    if |c| == 1 {
      assert Delay(1, 0) == MINUTE;
    }
  }

  // ------------------------------------------------------------------ every step

  lemma CountedStep(w: World, s: Step)
    requires LateInv(w) && Possible(w, s) && Within(w, s, LATEST) && s.what.Rejected? && w.row.Some?
    requires Recorded(w.row, USER, s.at, s.what.msg).1
    ensures var v := Next(w, s); FlightsOk(v.counted, v.row.value.nextAttempt, v.flying) && PacedFromFifth(v.counted)
  {
    var v := Next(w, s);
    var c, x, next, next2 := w.counted, w.flying[s.what.who], w.row.value.nextAttempt, v.row.value.nextAttempt;
    assert v.counted == c + [s.at] && s.at >= c[|c| - 1] + BURST_WINDOW;
    hide FlightOk, PairOk, Delay, Spread, Paced, Recorded, IsFresh;
    forall b | b in v.flying ensures FlightOk(v.counted, next2, v.flying[b]) {
      OthersAfterCount(c, next, x, w.flying[b], s.at, next2);
    }
    forall a, b | a in v.flying && b in v.flying && a != b ensures PairOk(v.counted, v.flying[a], v.flying[b]) {
      SecondsAfterCount(c, next, x, w.flying[a], w.flying[b], s.at);
    }
    if |c| >= 4 { CountedIsFresh(c, next, x, s.at); }
  }

  lemma CountedIsFresh(c: seq<int>, next: int, x: int, now: int)
    requires |c| >= 4 && Spread(c) && now >= c[|c| - 1] + BURST_WINDOW && x <= now < x + LATEST
    requires FlightOk(c, next, x)
    ensures now >= PauseEnd(c)
  {
  }

  /** A verdict that is not counted. */
  lemma BurstStep(w: World, s: Step)
    requires LateInv(w) && Possible(w, s) && s.what.Rejected? && w.row.Some?
    requires !Recorded(w.row, USER, s.at, s.what.msg).1
    ensures var v := Next(w, s); FlightsOk(v.counted, v.row.value.nextAttempt, v.flying) && PacedFromFifth(v.counted)
  {
    hide FlightOk, PairOk, Delay, Spread, Paced;
  }

  lemma FirstStep(w: World, s: Step)
    requires LateInv(w) && Possible(w, s) && s.what.Rejected? && w.row.None?
    ensures var v := Next(w, s); FlightsOk(v.counted, v.row.value.nextAttempt, v.flying) && PacedFromFifth(v.counted)
  {
    assert w.counted == [] && Next(w, s).counted == [s.at];
  }

  lemma AcquireStep(w: World, s: Step)
    requires LateInv(w) && Possible(w, s) && s.what.Acquire? && w.row.Some?
    ensures var v := Next(w, s); FlightsOk(v.counted, v.row.value.nextAttempt, v.flying)
  {
    var c, next := w.counted, w.row.value.nextAttempt;
    if Wins(w, s) {
      var r := w.row.value;
      assert Delay(r.failures, s.at - r.firstFailure) >= MinGap(|c|);
      hide Delay;
      forall a | a in w.flying ensures FlightOk(c, RetryLease(r, s.at), w.flying[a]) && PairOk(c, w.flying[a], s.at)
                                      && PairOk(c, s.at, w.flying[a]) {
        assert FlightOk(c, next, w.flying[a]);
      }
    }
  }

  lemma LateStep(w: World, s: Step)
    requires LateInv(w) && Possible(w, s) && Within(w, s, LATEST)
    ensures LateInv(Next(w, s))
  {
    RunStep(w, s);
    if w.row.Some? && s.what.Acquire? {
      AcquireStep(w, s);
    } else if s.what.Rejected? {
      if w.row.None? { FirstStep(w, s); }
      else if Recorded(w.row, USER, s.at, s.what.msg).1 { CountedStep(w, s); }
      else { BurstStep(w, s); }
    }
    hide RunInv, FlightOk, PairOk, Recorded, Delay;
  }

  lemma {:induction false} LateRun(w: World, ss: seq<Step>)
    requires LateInv(w) && CanRun(w, ss) && AllWithin(w, ss, LATEST)
    ensures LateInv(Run(w, ss))
    decreases |ss|
  {
    hide Next, LateInv, Within;
    if ss != [] {
      LateStep(w, ss[0]);
      LateRun(Next(w, ss[0]), ss[1..]);
    }
  }

  lemma {:induction false} FifthIsLate(c: seq<int>, i: nat)
    requires PacedFromFifth(c) && Spread(c) && 4 <= i < |c|
    ensures c[i] > c[0] + (i - 3) * HOUR
    decreases i
  {
    if i == 4 {
      assert c[1] >= c[0] + BURST_WINDOW && c[2] >= c[1] + BURST_WINDOW && c[3] >= c[2] + BURST_WINDOW;
    } else {
      FifthIsLate(c, i - 1);
    }
  }

  /** In every run whose verdicts come within two minutes, at most 27 rejections are
      counted in the 24 hours after the first, and once more than four were counted and
      a day has passed each one is 6 hours after the one before. */
  lemma AtMost27ADay(now: int, ss: seq<Step>)
    requires CanRun(Start(now), ss) && AllWithin(Start(now), ss, LATEST)
    ensures var c := Run(Start(now), ss).counted;
            && AtMost27(c)
            && forall i :: 4 < i < |c| && c[i - 1] >= c[0] + LONG_REJECTION ==> c[i] >= c[i - 1] + SLOW_STEP
  {
    LateRun(Start(now), ss);
    var c := Run(Start(now), ss).counted;
    forall i | 27 <= i < |c| ensures c[i] > c[0] + LONG_REJECTION { FifthIsLate(c, i); }
  }

  // --------------------------------------------------------- both bounds are sharp

  /** A worker alone, right after its k-th rejection was counted at time t. */
  predicate Alone(w: World, k: nat, t: int) {
    && k > 0 && RunInv(w) && |w.counted| == k && w.flying == map[] && w.clock == t && w.row.Some?
    && w.counted[0] == 0 && w.counted[k - 1] == t == w.row.value.lastFailure
    && w.row.value.nextAttempt == t + Delay(k, t)
  }

  /** Logging in at once whenever the pause is over, n times. */
  function Eager(n: nat, k: nat, t: int): seq<Step> {
    if n == 0 then []
    else
      var u := t + Delay(k, t);
      [Step(u, Acquire(0)), Step(u, Rejected(0, "denied"))] + Eager(n - 1, k + 1, u)
  }

  function EagerTime(n: nat, k: nat, t: int): int {
    if n == 0 then t else EagerTime(n - 1, k + 1, t + Delay(k, t))
  }

  lemma OneStep(w: World, s: Step, bound: int)
    requires Possible(w, s) && Within(w, s, bound)
    ensures CanRun(w, [s]) && AllWithin(w, [s], bound) && Run(w, [s]) == Next(w, s)
  {
    hide Next, Possible, Within;
    var v := Next(w, s);
    assert [s][1..] == [];
    assert CanRun(v, []) && AllWithin(v, [], bound) && Run(v, []) == v;
  }

  lemma TwoSteps(w: World, s: Step, t: Step, bound: int)
    requires Possible(w, s) && Possible(Next(w, s), t) && Within(w, s, bound) && Within(Next(w, s), t, bound)
    ensures CanRun(w, [s, t]) && AllWithin(w, [s, t], bound) && Run(w, [s, t]) == Next(Next(w, s), t)
  {
    hide Next, Possible, Within;
    assert [s, t][1..] == [t];
    OneStep(Next(w, s), t, bound);
  }

  lemma EagerStep(w: World, k: nat, t: int, bound: int)
    requires Alone(w, k, t) && bound > 0
    ensures var u := t + Delay(k, t); var two := [Step(u, Acquire(0)), Step(u, Rejected(0, "denied"))];
            CanRun(w, two) && AllWithin(w, two, bound) && Alone(Run(w, two), k + 1, u)
  {
    var u := t + Delay(k, t);
    var a, b := Step(u, Acquire(0)), Step(u, Rejected(0, "denied"));
    hide Spread, Paced, Delay, Alone, Next, Possible, Within, CanRun, Run, AllWithin;
    EagerAllowed(w, k, t);
    EagerDenied(Next(w, a), k, t, u, bound);
    TwoSteps(w, a, b, bound);
  }

  /** Its next attempt has been allowed at time u. */
  predicate Attempting(w: World, k: nat, t: int, u: int) {
    && k > 0 && RunInv(w) && |w.counted| == k && w.flying == map[0 := u] && w.clock == u && w.row.Some?
    && w.counted[0] == 0 && w.row.value.lastFailure == t && u >= t + MINUTE
  }

  lemma EagerAllowed(w: World, k: nat, t: int)
    requires Alone(w, k, t)
    ensures var u := t + Delay(k, t); var a := Step(u, Acquire(0));
            Possible(w, a) && !a.what.Rejected? && Attempting(Next(w, a), k, t, u) && forall bound :: Within(w, a, bound)
  {
    RunStep(w, Step(t + Delay(k, t), Acquire(0)));
    hide Spread, Paced, Delay;
  }

  lemma EagerDenied(w: World, k: nat, t: int, u: int, bound: int)
    requires Attempting(w, k, t, u) && bound > 0
    ensures var b := Step(u, Rejected(0, "denied")); Possible(w, b) && Within(w, b, bound) && Alone(Next(w, b), k + 1, u)
  {
    RunStep(w, Step(u, Rejected(0, "denied")));
    hide Spread, Paced, Delay;
  }

  lemma {:induction false} ConcatWithin(w: World, a: seq<Step>, b: seq<Step>, bound: int)
    requires CanRun(w, a) && CanRun(Run(w, a), b) && AllWithin(w, a, bound) && AllWithin(Run(w, a), b, bound)
    ensures CanRun(w, a + b) && AllWithin(w, a + b, bound)
    decreases |a|
  {
    hide Next, Possible, Within;
    RunConcat(w, a, b);
    if a == [] {
      assert a + b == b;
    } else {
      assert (a + b)[1..] == a[1..] + b;
      ConcatWithin(Next(w, a[0]), a[1..], b, bound);
    }
  }

  lemma {:induction false} EagerRun(w: World, n: nat, k: nat, t: int, bound: int)
    requires Alone(w, k, t) && bound > 0
    ensures CanRun(w, Eager(n, k, t)) && AllWithin(w, Eager(n, k, t), bound)
    ensures Alone(Run(w, Eager(n, k, t)), k + n, EagerTime(n, k, t))
    decreases n
  {
    hide Next, Possible, Within, Alone, Delay;
    if n > 0 {
      var u := t + Delay(k, t);
      var two := [Step(u, Acquire(0)), Step(u, Rejected(0, "denied"))];
      EagerStep(w, k, t, bound);
      var v := Run(w, two);
      EagerRun(v, n - 1, k + 1, u, bound);
      RunConcat(w, two, Eager(n - 1, k + 1, u));
      ConcatWithin(w, two, Eager(n - 1, k + 1, u), bound);
    }
  }

  lemma {:induction false} EagerHours(n: nat, k: nat, t: int)
    requires k >= 4 && 0 <= t && (n > 0 ==> t + (n - 1) * HOUR < LONG_REJECTION)
    ensures EagerTime(n, k, t) == t + n * HOUR
    decreases n
  {
    if n > 0 { EagerHours(n - 1, k + 1, t + HOUR); }
  }

  /** A run that leaves a worker alone, gone on with. */
  lemma ThenEager(w: World, ss: seq<Step>, n: nat, k: nat, t: int, bound: int)
    requires CanRun(w, ss) && AllWithin(w, ss, bound) && Alone(Run(w, ss), k, t) && bound > 0
    ensures var more := ss + Eager(n, k, t); var u := EagerTime(n, k, t);
            CanRun(w, more) && AllWithin(w, more, bound) && Run(w, more).clock == u &&
            var c := Run(w, more).counted; |c| == k + n && c[0] == 0 && c[k + n - 1] == u
  {
    hide Next, Possible, Within, Alone, Eager, EagerTime;
    var v := Run(w, ss);
    EagerRun(v, n, k, t, bound);
    RunConcat(w, ss, Eager(n, k, t));
    ConcatWithin(w, ss, Eager(n, k, t), bound);
    AloneShows(Run(v, Eager(n, k, t)), k + n, EagerTime(n, k, t));
  }

  function OneDenied(): seq<Step> {
    [Step(0, Acquire(0)), Step(0, Rejected(0, "denied"))]
  }

  lemma OneDeniedRun(bound: int)
    requires bound > 0
    ensures CanRun(Start(0), OneDenied()) && AllWithin(Start(0), OneDenied(), bound)
    ensures Alone(Run(Start(0), OneDenied()), 1, 0)
  {
    var a, b := Step(0, Acquire(0)), Step(0, Rejected(0, "denied"));
    TwoSteps(Start(0), a, b, bound);
    StartInv(0);
    RunStep(Start(0), a);
    RunStep(Next(Start(0), a), b);
  }

  /** The bound of 27 is reached with verdicts that take no time at all. */
  lemma TwentySevenHappen(bound: int)
    requires bound > 0
    ensures var ss := OneDenied() + Eager(26, 1, 0);
            CanRun(Start(0), ss) && AllWithin(Start(0), ss, bound) &&
            var w := Run(Start(0), ss); |w.counted| == 27 && w.counted[0] == 0 && w.clock < LONG_REJECTION
  {
    OneDeniedRun(bound);
    FirstDay();
    hide *;
    ThenEager(Start(0), OneDenied(), 26, 1, 0, bound);
    assert 21 * MINUTE + 23 * HOUR < LONG_REJECTION by { DayInMinutes(); }
  }

  lemma DayInMinutes()
    ensures 21 * MINUTE + 23 * HOUR < LONG_REJECTION && LATEST + 23 * HOUR < LONG_REJECTION
  {
  }

  lemma StartInv(now: int)
    ensures RunInv(Start(now)) && LateInv(Start(now))
  {
  }

  lemma AloneShows(w: World, k: nat, t: int)
    requires Alone(w, k, t)
    ensures |w.counted| == k && w.counted[0] == 0 && w.counted[k - 1] == t == w.clock
  {
  }

  lemma FirstDay()
    ensures EagerTime(26, 1, 0) == 21 * MINUTE + 23 * HOUR
  {
    EagerHours(23, 4, 21 * MINUTE);
    assert EagerTime(24, 3, 6 * MINUTE) == EagerTime(23, 4, 21 * MINUTE);
    assert EagerTime(25, 2, MINUTE) == EagerTime(24, 3, 6 * MINUTE);
  }

  /** Five attempts allowed at once, before anything was rejected, and rejected a burst
      window apart: the last verdict takes exactly two minutes. */
  function Allowed(n: nat): seq<Step> {
    if n == 0 then [] else Allowed(n - 1) + [Step(0, Acquire(n))]
  }

  function Denied(n: nat): seq<Step> {
    if n == 0 then [] else Denied(n - 1) + [Step((n - 1) * BURST_WINDOW, Rejected(n, "denied"))]
  }

  lemma {:induction false} RunSnoc(w: World, ss: seq<Step>, s: Step, bound: int)
    requires CanRun(w, ss) && AllWithin(w, ss, bound) && Possible(Run(w, ss), s) && Within(Run(w, ss), s, bound)
    ensures CanRun(w, ss + [s]) && AllWithin(w, ss + [s], bound) && Run(w, ss + [s]) == Next(Run(w, ss), s)
  {
    hide Next, Possible, Within;
    OneStep(Run(w, ss), s, bound);
    RunConcat(w, ss, [s]);
    ConcatWithin(w, ss, [s], bound);
  }

  /** The attempts after lo, up to hi, are in flight since the start. */
  ghost predicate Waiting(flying: map<nat, int>, lo: nat, hi: nat) {
    (forall a :: a in flying <==> lo < a <= hi) && forall a :: a in flying ==> flying[a] == 0
  }

  lemma {:induction false} AllowedRun(n: nat, bound: int)
    ensures CanRun(Start(0), Allowed(n)) && AllWithin(Start(0), Allowed(n), bound)
    ensures var w := Run(Start(0), Allowed(n));
            && w.row == None && w.clock == 0 && w.counted == [] && w.late == []
            && Waiting(w.flying, 0, n)
    decreases n
  {
    if n > 0 {
      AllowedRun(n - 1, bound);
      RunSnoc(Start(0), Allowed(n - 1), Step(0, Acquire(n)), bound);
    }
  }

  /** The world in which n of m have been rejected. */
  ghost predicate Flooded(w: World, n: nat, m: nat) {
    && 0 < n <= m && RunInv(w) && w.row.Some? && |w.counted| == n && w.counted[0] == 0
    && w.counted[n - 1] == (n - 1) * BURST_WINDOW == w.clock == w.row.value.lastFailure
    && w.row.value.nextAttempt == w.clock + Delay(n, w.clock)
    && Waiting(w.flying, n, m)
  }

  lemma DeniedStep(w: World, n: nat, m: nat, bound: int)
    requires n < m && bound > (m - 1) * BURST_WINDOW
    requires n > 0 ==> Flooded(w, n, m)
    requires n == 0 ==> RunInv(w) && w.row == None && w.clock == 0 && Waiting(w.flying, 0, m)
    ensures var s := Step(n * BURST_WINDOW, Rejected(n + 1, "denied"));
            Possible(w, s) && Within(w, s, bound) && Flooded(Next(w, s), n + 1, m)
  {
    var s := Step(n * BURST_WINDOW, Rejected(n + 1, "denied"));
    RunStep(w, s);
    hide RunInv, Delay, Spread, Paced;
  }

  lemma {:induction false} DeniedRun(w: World, n: nat, m: nat, bound: int)
    requires n <= m && bound > (m - 1) * BURST_WINDOW && RunInv(w) && w.row == None && w.clock == 0
    requires Waiting(w.flying, 0, m)
    ensures CanRun(w, Denied(n)) && AllWithin(w, Denied(n), bound)
    ensures n == 0 ==> Run(w, Denied(n)) == w
    ensures n > 0 ==> Flooded(Run(w, Denied(n)), n, m)
    decreases n
  {
    if n > 0 {
      hide Next, Possible, Within, Flooded, RunInv, Waiting;
      DeniedRun(w, n - 1, m, bound);
      var v := Run(w, Denied(n - 1));
      DeniedStep(v, n - 1, m, bound);
      RunSnoc(w, Denied(n - 1), Step((n - 1) * BURST_WINDOW, Rejected(n, "denied")), bound);
    }
  }

  /** All of m rejected. */
  lemma FloodRun(m: nat, bound: int)
    requires m > 0 && bound > (m - 1) * BURST_WINDOW
    ensures var ss := Allowed(m) + Denied(m);
            CanRun(Start(0), ss) && AllWithin(Start(0), ss, bound) && Flooded(Run(Start(0), ss), m, m)
  {
    hide Next, Possible, Within, Flooded, RunInv, Allowed, Denied;
    AllowedRun(m, bound);
    var w := Run(Start(0), Allowed(m));
    StartInv(0);
    RunKeeps(Start(0), Allowed(m));
    DeniedRun(w, m, m, bound);
    RunConcat(Start(0), Allowed(m), Denied(m));
    ConcatWithin(Start(0), Allowed(m), Denied(m), bound);
  }

  /** With verdicts of exactly two minutes 28 rejections fit into a day. */
  lemma TwentyEightHappen(bound: int)
    requires bound > LATEST
    ensures var ss := Allowed(5) + Denied(5) + Eager(23, 5, LATEST);
            CanRun(Start(0), ss) && AllWithin(Start(0), ss, bound) &&
            var w := Run(Start(0), ss); |w.counted| == 28 && w.counted[0] == 0 && w.counted[27] < LONG_REJECTION
  {
    FloodRun(5, bound);
    FloodedIsAlone(Run(Start(0), Allowed(5) + Denied(5)));
    EagerHours(23, 5, LATEST);
    DayInMinutes();
    assert bound > 0;
    hide *;
    ThenEager(Start(0), Allowed(5) + Denied(5), 23, 5, LATEST, bound);
  }

  lemma FloodedIsAlone(w: World)
    requires Flooded(w, 5, 5)
    ensures Alone(w, 5, LATEST)
  {
    assert forall a :: a !in w.flying;
    assert w.flying == map[];
  }

  /** Every run whose verdicts come less than `bound` after the attempt was allowed
      counts at most 27 rejections in a day. */
  ghost predicate DayIsBounded(bound: int) {
    forall now, ss :: CanRun(Start(now), ss) && AllWithin(Start(now), ss, bound) ==> AtMost27(Run(Start(now), ss).counted)
  }

  lemma {:induction false} WithinLess(w: World, ss: seq<Step>, bound: int, more: int)
    requires bound <= more && CanRun(w, ss) && AllWithin(w, ss, bound)
    ensures AllWithin(w, ss, more)
    decreases |ss|
  {
    hide Next, Possible;
    if ss != [] { WithinLess(Next(w, ss[0]), ss[1..], bound, more); }
  }

  /** The bound of 27 holds exactly for verdicts within two minutes. */
  lemma TwoMinutesExactly(bound: int)
    ensures DayIsBounded(bound) <==> bound <= LATEST
  {
    if bound <= LATEST {
      forall now, ss | CanRun(Start(now), ss) && AllWithin(Start(now), ss, bound)
        ensures AtMost27(Run(Start(now), ss).counted)
      {
        WithinLess(Start(now), ss, bound, LATEST);
        AtMost27ADay(now, ss);
      }
    } else {
      TwentyEightHappen(bound);
      hide Eager, Allowed, Denied, Run, CanRun, AllWithin;
      var ss := Allowed(5) + Denied(5) + Eager(23, 5, LATEST);
      assert !AtMost27(Run(Start(0), ss).counted);
    }
  }

  /** Every counted rejection waited out the pause of the one before. */
  predicate AllPaced(counted: seq<int>) {
    forall i :: 0 < i < |counted| ==> counted[i] >= counted[i - 1] + Delay(i, counted[i - 1] - counted[0])
  }

  ghost predicate PauseIsKept(bound: int) {
    forall now, ss :: CanRun(Start(now), ss) && AllWithin(Start(now), ss, bound) ==> AllPaced(Run(Start(now), ss).counted)
  }

  lemma {:induction false} NoneIsLate(w: World, ss: seq<Step>)
    requires CanRun(w, ss) && AllWithin(w, ss, BURST_WINDOW) && true !in w.late
    ensures true !in Run(w, ss).late
    decreases |ss|
  {
    hide Possible, Recorded, Acquired;
    if ss != [] { NoneIsLate(Next(w, ss[0]), ss[1..]); }
  }

  /** The schedule itself is kept exactly for verdicts within the burst window. */
  lemma BurstWindowExactly(bound: int)
    ensures PauseIsKept(bound) <==> bound <= BURST_WINDOW
  {
    if bound <= BURST_WINDOW {
      forall now, ss | CanRun(Start(now), ss) && AllWithin(Start(now), ss, bound)
        ensures AllPaced(Run(Start(now), ss).counted)
      {
        WithinLess(Start(now), ss, bound, BURST_WINDOW);
        NoneIsLate(Start(now), ss);
        StartInv(now);
        RunKeeps(Start(now), ss);
      }
    } else {
      FloodRun(2, bound);
      var w := Run(Start(0), Allowed(2) + Denied(2));
      assert w.counted[1] < w.counted[0] + Delay(1, w.counted[0] - w.counted[0]);
    }
  }
}
