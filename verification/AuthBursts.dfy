/** Bursts of rejections: parallel workers of one account are rejected together, and such
    a burst counts once, however long it goes on. */
module AuthBursts {
  import opened Wrappers
  import opened AuthBackoff
  import opened AuthRuns

  /** When the latest rejection since the last clear came, counted or not. */
  function LatestAfter(latest: Option<int>, s: Step): Option<int> {
    if s.what.Rejected? then Some(s.at) else if Clears(s) then None else latest
  }

  function Latest(ss: seq<Step>, latest: Option<int>): Option<int>
    decreases |ss|
  {
    if ss == [] then latest else Latest(ss[1..], LatestAfter(latest, ss[0]))
  }

  /** The row dates from the latest rejection. */
  predicate Dated(w: World, latest: Option<int>) {
    Inv(w) && if w.row.Some? then latest == Some(w.row.value.lastFailure) else latest == None
  }

  lemma DatedStep(w: World, latest: Option<int>, s: Step)
    requires Dated(w, latest) && Possible(w, s)
    ensures Dated(Next(w, s), LatestAfter(latest, s))
  {
    InvStep(w, s);
    hide Inv, Delay;
  }

  lemma {:induction false} DatedRun(w: World, latest: Option<int>, ss: seq<Step>)
    requires Dated(w, latest) && CanRun(w, ss)
    ensures Dated(Run(w, ss), Latest(ss, latest))
    decreases |ss|
  {
    hide Next, Dated, LatestAfter;
    if ss != [] {
      DatedStep(w, latest, ss[0]);
      DatedRun(Next(w, ss[0]), LatestAfter(latest, ss[0]), ss[1..]);
    }
  }

  /** The pause, in milliseconds, that the k-th counted rejection earns so long after the
      first: 1, 5, 15 and 60 minutes, then an hour, and six once a day has passed. */
  function PauseOf(k: int, since: int): int {
    if k == 1 then 60_000
    else if k == 2 then 300_000
    else if k == 3 then 900_000
    else if k == 4 then 3_600_000
    else if since >= 86_400_000 then 21_600_000
    else 3_600_000
  }

  lemma PauseIsDelay(k: int, since: int)
    requires k > 0
    ensures Delay(k, since) == PauseOf(k, since)
  {
  }

  lemma AtOnce(now: int)
    ensures Dated(Start(now), None)
  {
  }

  /** What a rejection does to the state, in any run: it is counted if and only if it is
      the first since the state was last cleared or comes at least 30 seconds after the
      latest one, counted or not; then it earns its pause, and otherwise it leaves the
      next attempt alone. The row always shows its message, clipped. */
  lemma RejectionCounts(now: int, ss: seq<Step>, s: Step)
    requires CanRun(Start(now), ss) && Possible(Run(Start(now), ss), s) && s.what.Rejected?
    ensures var w := Run(Start(now), ss); var v := Next(w, s); var latest := Latest(ss, None);
            && v.row.Some? && v.row.value.failures == |v.counted|
            && v.row.value.error == (if |s.what.msg| > 500 then s.what.msg[..500] else s.what.msg)
            && v.row.value.notified == (if w.row == None then 0 else w.row.value.notified)
            && (if latest == None || s.at - latest.value >= 30_000 then
                  && v.counted == w.counted + [s.at]
                  && v.row.value.nextAttempt == s.at + PauseOf(|v.counted|, s.at - v.counted[0])
                else
                  v.counted == w.counted && w.row.Some? && v.row.value.nextAttempt == w.row.value.nextAttempt)
  {
    AtOnce(now);
    DatedRun(Start(now), None, ss);
    var w := Run(Start(now), ss);
    hide Latest, Run, CanRun;
    DatedStep(w, Latest(ss, None), s);
    OneRejection(w, Latest(ss, None), s);
  }

  lemma OneRejection(w: World, latest: Option<int>, s: Step)
    requires Dated(w, latest) && Possible(w, s) && s.what.Rejected?
    ensures var v := Next(w, s);
            && v.row.Some? && v.row.value.failures == |v.counted|
            && v.row.value.error == (if |s.what.msg| > 500 then s.what.msg[..500] else s.what.msg)
            && v.row.value.notified == (if w.row == None then 0 else w.row.value.notified)
            && (if latest == None || s.at - latest.value >= 30_000 then
                  && v.counted == w.counted + [s.at]
                  && v.row.value.nextAttempt == s.at + PauseOf(|v.counted|, s.at - v.counted[0])
                else
                  v.counted == w.counted && w.row.Some? && v.row.value.nextAttempt == w.row.value.nextAttempt)
  {
    PauseIsDelay(|w.counted| + 1, if w.row.Some? then s.at - w.counted[0] else 0);
    hide Delay, Spread;
    if w.row == None {
      assert w.counted + [s.at] == [s.at];
    } else {
      assert (w.counted + [s.at])[0] == w.counted[0];
    }
  }

  /** Rejections only, each less than 30 seconds after the one before. */
  predicate IsBurst(ss: seq<Step>) {
    && (forall i :: 0 <= i < |ss| ==> ss[i].what.Rejected?)
    && forall i :: 0 < i < |ss| ==> ss[i].at - ss[i - 1].at < 30_000
  }

  lemma {:induction false} BurstGoesOn(w: World, ss: seq<Step>)
    requires w.row.Some? && Dated(w, Some(w.row.value.lastFailure)) && CanRun(w, ss) && IsBurst(ss)
    requires ss != [] ==> ss[0].at - w.row.value.lastFailure < 30_000
    ensures var v := Run(w, ss);
            v.counted == w.counted && v.row.Some? && v.row.value.nextAttempt == w.row.value.nextAttempt
    decreases |ss|
  {
    hide Inv, Next, Possible;
    if ss != [] {
      var latest := Some(w.row.value.lastFailure);
      OneRejection(w, latest, ss[0]);
      DatedStep(w, latest, ss[0]);
      assert forall i :: 0 <= i < |ss[1..]| ==> ss[1..][i] == ss[i + 1];
      BurstGoesOn(Next(w, ss[0]), ss[1..]);
    }
  }

  /** A burst counts once, and the next attempt stays a minute after its first rejection. */
  lemma BurstCountsOnce(now: int, ss: seq<Step>)
    requires ss != [] && CanRun(Start(now), ss) && IsBurst(ss)
    ensures var v := Run(Start(now), ss);
            v.counted == [ss[0].at] && v.row.Some? && v.row.value.nextAttempt == ss[0].at + 60_000
  {
    var w := Start(now);
    AtOnce(now);
    OneRejection(w, None, ss[0]);
    DatedStep(w, None, ss[0]);
    hide Inv, Next, Possible;
    assert [] + [ss[0].at] == [ss[0].at];
    assert forall i :: 0 <= i < |ss[1..]| ==> ss[1..][i] == ss[i + 1];
    BurstGoesOn(Next(w, ss[0]), ss[1..]);
  }
}
