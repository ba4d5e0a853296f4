/** Clients of the change journal: what any mix of writes, compactions and polls
    leaves in the view of a client that resyncs when told to and otherwise advances
    page by page. */
module JournalClient {
  import opened Journal

  // ------------------------------------------------------------- the log

  /** Every change ever journaled, next to the log it was compacted to. */
  predicate LogOk(log: Log, history: seq<Change>) {
    && Ascending(history) && (forall c :: c in history ==> c.seq_ > 0)
    && (forall c :: c in log.rows ==> c in history)
    && (forall c :: c in history && c.seq_ > log.low ==> c in log.rows)
    && Ascending(log.rows) && 0 <= log.low && forall c :: c in log.rows ==> c.seq_ != log.low
  }

  /** The sequence numbers a tail is made of say which entries it has. */
  lemma {:induction false} TailMembers(a: seq<Change>, b: seq<Change>, user: int, since: int)
    requires Ascending(a) && Ascending(b)
    requires forall c: Change :: c.seq_ > since ==> (c in a <==> c in b)
    ensures Tail(a, user, since) == Tail(b, user, since)
    decreases |a| + |b|
  {
    if a != [] && a[0].seq_ <= since {
      SkipOld(a, b, since);
      TailMembers(a[1..], b, user, since);
    } else if b != [] && b[0].seq_ <= since {
      SkipOld(b, a, since);
      TailMembers(a, b[1..], user, since);
    } else {
      assert a != [] ==> a[0] in a;
      assert b != [] ==> b[0] in b;
      if a != [] {
        SameFirst(a, b, since);
        TailMembers(a[1..], b[1..], user, since);
      }
    }
  }

  lemma AscendingRest(a: seq<Change>)
    requires a != [] && Ascending(a)
    ensures Ascending(a[1..]) && a[0] !in a[1..]
    ensures forall c :: c in a <==> c == a[0] || c in a[1..]
    ensures forall c :: c in a[1..] ==> c.seq_ > a[0].seq_
  {
  }

  lemma SkipOld(a: seq<Change>, b: seq<Change>, since: int)
    requires a != [] && Ascending(a) && a[0].seq_ <= since
    requires forall c: Change :: c.seq_ > since ==> (c in a <==> c in b)
    ensures Ascending(a[1..]) && forall c: Change :: c.seq_ > since ==> (c in a[1..] <==> c in b)
  {
  }

  lemma SameFirst(a: seq<Change>, b: seq<Change>, since: int)
    requires a != [] && b != [] && Ascending(a) && Ascending(b) && a[0].seq_ > since && b[0].seq_ > since
    requires forall c: Change :: c.seq_ > since ==> (c in a <==> c in b)
    ensures a[0] == b[0] && Ascending(a[1..]) && Ascending(b[1..])
    ensures forall c: Change :: c.seq_ > since ==> (c in a[1..] <==> c in b[1..])
  {
  }

  /** At or above the watermark the log still has the exact tail of the history. */
  lemma TailSurvives(log: Log, history: seq<Change>, user: int, since: int)
    requires LogOk(log, history) && since >= log.low
    ensures Tail(log.rows, user, since) == Tail(history, user, since)
  {
    TailMembers(log.rows, history, user, since);
  }

  lemma CompactOk(log: Log, history: seq<Change>, cutoff: int)
    requires LogOk(log, history)
    ensures LogOk(Compacted(log, cutoff), history)
  {
    KeptIsAscending(log.rows, cutoff);
    KeptIsNotPruned(log.rows, cutoff);
    hide Ascending;
  }

  lemma KeptIsNotPruned(cs: seq<Change>, cutoff: int)
    requires Ascending(cs)
    ensures forall c, d :: c in Kept(cs, cutoff) && d in Pruned(cs, cutoff) ==> c.seq_ != d.seq_
  {
  }

  lemma AppendOk(log: Log, history: seq<Change>, c: Change)
    requires LogOk(log, history) && c.seq_ > 0 && c.seq_ > log.low
    requires forall d :: d in history ==> d.seq_ < c.seq_
    ensures LogOk(log.(rows := log.rows + [c]), history + [c])
  {
  }

  // ---------------------------------------------------------- views and clients

  function After(view: set<string>, c: Change): set<string> {
    if c.kind == UPSERT then view + {c.message} else view - {c.message}
  }

  function Replay(view: set<string>, cs: seq<Change>): set<string>
    decreases |cs|
  {
    if cs == [] then view else Replay(After(view, cs[0]), cs[1..])
  }

  lemma {:induction false} ReplayConcat(view: set<string>, a: seq<Change>, b: seq<Change>)
    ensures Replay(view, a + b) == Replay(Replay(view, a), b)
    decreases |a|
  {
    if a == [] {
      assert a + b == b;
    } else {
      assert (a + b)[1..] == a[1..] + b;
      ReplayConcat(After(view, a[0]), a[1..], b);
    }
  }

  datatype Client = Client(view: set<string>, cursor: int)

  /** One poll: resync on a reset, otherwise apply the page and move to its end, or to
      the head of the log when the page was the last. */
  function Polled(client: Client, r: Reply, limit: int, current: set<string>): Client {
    if Reset(client.cursor, r.low) then Client(current, r.latest)
    else
      var view := Replay(client.view, r.changes);
      if |r.changes| < PageSize(limit) then Client(view, Max(client.cursor, r.latest))
      else Client(view, r.changes[|r.changes| - 1].seq_)
  }

  // ---------------------------------------------------------------- the system

  /** Which messages of the table are visible, by owner and Message-ID. */
  datatype World = World(messages: map<(int, string), bool>, log: Log, history: seq<Change>, client: Client)

  const USER := 1

  datatype Step =
    | Write(user: int, message: string, visible: bool, number: int, ts: int)
    | Remove(user: int, message: string, number: int, ts: int)
    | Compact(cutoff: int)
    | Poll(limit: int)

  function Visible(messages: map<(int, string), bool>, user: int): set<string> {
    set id | id in messages && id.0 == user && messages[id] :: id.1
  }

  /** Sequence numbers become visible in increasing order. */
  predicate Possible(w: World, s: Step) {
    (s.Write? || s.Remove?) ==>
      s.message != "" && s.number > 0 && s.number > w.log.low && forall c :: c in w.history ==> c.seq_ < s.number
  }

  function Journaled(w: World, c: Change): World {
    w.(log := w.log.(rows := w.log.rows + [c]), history := w.history + [c])
  }

  function Next(w: World, s: Step): World {
    match s
    case Write(user, message, visible, number, ts) =>
      Journaled(w, Change(number, user, message, if visible then UPSERT else DELETE, ts))
      .(messages := w.messages[(user, message) := visible])
    case Remove(user, message, number, ts) =>
      Journaled(w, Change(number, user, message, DELETE, ts)).(messages := w.messages - {(user, message)})
    case Compact(cutoff) => w.(log := Compacted(w.log, cutoff))
    case Poll(limit) =>
      w.(client := Polled(w.client, Answer(w.log, USER, w.client.cursor, limit), limit, Visible(w.messages, USER)))
  }

  /** The view is what replaying the history up to the cursor gives. */
  predicate ClientOk(w: World) {
    !Reset(w.client.cursor, w.log.low) ==>
      w.client.view == Replay({}, UpTo(w.history, USER, w.client.cursor)) && w.client.cursor <= Head(w.history)
  }

  predicate Inv(w: World) {
    && LogOk(w.log, w.history) && w.log.low <= Head(w.history)
    && Visible(w.messages, USER) == Replay({}, Tail(w.history, USER, 0))
    && ClientOk(w)
  }

  // ----------------------------------------------------------- splitting a history

  lemma {:induction false} NothingUpTo(cs: seq<Change>, user: int, cursor: int)
    requires forall c :: c in cs ==> c.seq_ > cursor
    ensures UpTo(cs, user, cursor) == []
    decreases |cs|
  {
    if cs != [] { NothingUpTo(cs[1..], user, cursor); }
  }

  lemma {:induction false} AllAfter(cs: seq<Change>, user: int, a: int, b: int)
    requires forall c :: c in cs ==> c.seq_ > a && c.seq_ > b
    ensures Tail(cs, user, a) == Tail(cs, user, b)
    decreases |cs|
  {
    if cs != [] { AllAfter(cs[1..], user, a, b); }
  }

  /** Between two cursors lies the front of the tail. */
  lemma {:induction false} UpToGrows(h: seq<Change>, user: int, a: int, b: int)
    requires Ascending(h) && a <= b
    ensures UpTo(h, user, b) == UpTo(h, user, a) + UpTo(Tail(h, user, a), user, b)
    decreases |h|
  {
    if h != [] {
      AscendingRest(h);
      assert h == [h[0]] + h[1..];
      hide Ascending, UpTo, Tail;
      UpToGrows(h[1..], user, a, b);
      if h[0].user == user && h[0].seq_ > a {
        GrowNew(h[0], h[1..], user, a, b);
      } else {
        GrowOld(h[0], h[1..], user, a, b);
      }
    }
  }

  lemma GrowNew(c: Change, rest: seq<Change>, user: int, a: int, b: int)
    requires c.user == user && c.seq_ > a && forall d :: d in rest ==> d.seq_ > c.seq_
    requires UpTo(rest, user, b) == UpTo(rest, user, a) + UpTo(Tail(rest, user, a), user, b)
    ensures UpTo([c] + rest, user, b) == UpTo([c] + rest, user, a) + UpTo(Tail([c] + rest, user, a), user, b)
  {
    hide UpTo, Tail;
    NothingUpTo(rest, user, a);
    UpToFirst(c, rest, user, a);
    UpToFirst(c, rest, user, b);
    TailFirst(c, rest, user, a);
    UpToFirst(c, Tail(rest, user, a), user, b);
  }

  lemma GrowOld(c: Change, rest: seq<Change>, user: int, a: int, b: int)
    requires !(c.user == user && c.seq_ > a) && a <= b
    requires UpTo(rest, user, b) == UpTo(rest, user, a) + UpTo(Tail(rest, user, a), user, b)
    ensures UpTo([c] + rest, user, b) == UpTo([c] + rest, user, a) + UpTo(Tail([c] + rest, user, a), user, b)
  {
    hide UpTo, Tail;
    var first := if c.user == user then [c] else [];
    UpToFirst(c, rest, user, a);
    UpToFirst(c, rest, user, b);
    TailFirst(c, rest, user, a);
    assert Tail([c] + rest, user, a) == Tail(rest, user, a);
    assert first + (UpTo(rest, user, a) + UpTo(Tail(rest, user, a), user, b)) ==
           (first + UpTo(rest, user, a)) + UpTo(Tail(rest, user, a), user, b);
  }

  lemma TailFirst(c: Change, cs: seq<Change>, user: int, a: int)
    ensures Tail([c] + cs, user, a) == (if c.user == user && c.seq_ > a then [c] else []) + Tail(cs, user, a)
  {
  }

  lemma UpToFirst(c: Change, cs: seq<Change>, user: int, b: int)
    ensures UpTo([c] + cs, user, b) == (if c.user == user && c.seq_ <= b then [c] else []) + UpTo(cs, user, b)
  {
  }

  lemma {:induction false} UpToFront(t: seq<Change>, user: int, b: int, n: nat)
    requires n <= |t| && forall c :: c in t ==> c.user == user
    requires forall i :: 0 <= i < |t| ==> (i < n <==> t[i].seq_ <= b)
    ensures UpTo(t, user, b) == t[..n]
    decreases |t|
  {
    if n == 0 {
      forall c | c in t ensures c.seq_ > b { var i :| 0 <= i < |t| && t[i] == c; }
      NothingUpTo(t, user, b);
    } else {
      assert forall i :: 0 <= i < |t[1..]| ==> t[1..][i] == t[i + 1];
      UpToFront(t[1..], user, b, n - 1);
      assert t[..n] == [t[0]] + t[1..][..n - 1];
    }
  }

  /** The first n entries after a cursor complete the history up to the last of them. */
  lemma PageCompletes(h: seq<Change>, user: int, a: int, b: int, n: nat)
    requires Ascending(h) && n <= |Tail(h, user, a)| && a <= b
    requires forall i :: 0 <= i < |Tail(h, user, a)| ==> (i < n <==> Tail(h, user, a)[i].seq_ <= b)
    ensures UpTo(h, user, b) == UpTo(h, user, a) + Tail(h, user, a)[..n]
  {
    UpToGrows(h, user, a, b);
    TailHolds(h, user, a);
    UpToFront(Tail(h, user, a), user, b, n);
  }

  lemma {:induction false} TailAscends(h: seq<Change>, user: int, a: int)
    requires Ascending(h)
    ensures Ascending(Tail(h, user, a))
    decreases |h|
  {
    if h != [] {
      AscendingRest(h);
      TailAscends(h[1..], user, a);
      TailHolds(h[1..], user, a);
      var t := Tail(h[1..], user, a);
      forall i | 0 <= i < |t| ensures h[0].seq_ < t[i].seq_ { assert t[i] in t; }
    }
  }

  /** The whole history of a user, up to its head. */
  lemma UpToHead(h: seq<Change>, user: int, b: int)
    requires Ascending(h) && (forall c :: c in h ==> c.seq_ > 0) && b >= 0 && Tail(h, user, b) == []
    ensures UpTo(h, user, b) == Tail(h, user, 0)
  {
  }

  lemma {:induction false} UpToConcat(a: seq<Change>, b: seq<Change>, user: int, cursor: int)
    ensures UpTo(a + b, user, cursor) == UpTo(a, user, cursor) + UpTo(b, user, cursor)
    decreases |a|
  {
    if a == [] {
      assert a + b == b;
    } else {
      assert (a + b)[1..] == a[1..] + b;
      UpToConcat(a[1..], b, user, cursor);
    }
  }

  lemma {:induction false} SplitCount(h: seq<Change>, user: int, b: int)
    requires (forall c :: c in h ==> c.seq_ > 0) && b >= 0
    ensures |UpTo(h, user, b)| + |Tail(h, user, b)| == |Tail(h, user, 0)|
    decreases |h|
  {
    if h != [] { SplitCount(h[1..], user, b); }
  }

  // ------------------------------------------------------------------ one poll

  /** A page is the exact front of the full history's tail. */
  lemma PageIsExact(log: Log, h: seq<Change>, user: int, since: int, limit: int)
    requires LogOk(log, h) && !Reset(since, log.low)
    ensures Answer(log, user, since, limit).changes == Take(Tail(h, user, since), PageSize(limit))
  {
    TailSurvives(log, h, user, since);
  }

  /** The head of the log is past everything a short page holds. */
  lemma HeadPassesTail(log: Log, h: seq<Change>, user: int, since: int)
    requires LogOk(log, h) && since >= log.low
    ensures forall c :: c in Tail(h, user, since) ==> c.seq_ <= Head(log.rows)
    ensures Head(log.rows) <= Head(h)
  {
    TailSurvives(log, h, user, since);
    TailHolds(log.rows, user, since);
  }

  lemma HeadHasNoTail(log: Log, h: seq<Change>, user: int, b: int)
    requires LogOk(log, h) && b >= log.low && b >= Head(log.rows)
    ensures Tail(h, user, b) == []
  {
    HeadPassesTail(log, h, user, b);
    TailHolds(h, user, b);
    assert Tail(h, user, b) != [] ==> Tail(h, user, b)[0] in Tail(h, user, b);
  }

  /** Where a client is after applying a page that was not the last. */
  lemma FullPage(h: seq<Change>, user: int, since: int, n: nat)
    requires Ascending(h) && 0 < n <= |Tail(h, user, since)|
    ensures var b := Tail(h, user, since)[n - 1].seq_;
            b > since && UpTo(h, user, b) == UpTo(h, user, since) + Tail(h, user, since)[..n] && b <= Head(h)
  {
    var t := Tail(h, user, since);
    TailHolds(h, user, since);
    TailAscends(h, user, since);
    assert t[n - 1] in t;
    PageCompletes(h, user, since, t[n - 1].seq_, n);
  }

  lemma LastPage(h: seq<Change>, user: int, since: int, b: int)
    requires Ascending(h) && since <= b && Tail(h, user, b) == []
    ensures UpTo(h, user, b) == UpTo(h, user, since) + Tail(h, user, since)
  {
    var t := Tail(h, user, since);
    TailHolds(h, user, since);
    TailHolds(h, user, b);
    forall i | 0 <= i < |t| ensures t[i].seq_ <= b { assert t[i] in t && t[i] !in Tail(h, user, b); }
    PageCompletes(h, user, since, b, |t|);
    assert t[..|t|] == t;
  }

  /** The client has everything the user's history holds. */
  predicate CaughtUp(w: World) {
    && w.client.view == Visible(w.messages, USER)
    && (Reset(w.client.cursor, w.log.low) || Tail(w.history, USER, w.client.cursor) == [])
  }

  lemma PollResets(w: World, limit: int)
    requires Inv(w) && Reset(w.client.cursor, w.log.low)
    ensures var v := Next(w, Poll(limit)); Inv(v) && CaughtUp(v)
  {
    hide Visible, Tail, UpTo, Replay, Head;
    var latest := Head(w.log.rows);
    if !Reset(latest, w.log.low) {
      HeadHasNoTail(w.log, w.history, USER, latest);
      UpToHead(w.history, USER, latest);
      HeadPassesTail(w.log, w.history, USER, latest);
    }
  }

  lemma PollEnds(w: World, limit: int)
    requires Inv(w) && !Reset(w.client.cursor, w.log.low)
    requires |Tail(w.history, USER, w.client.cursor)| < PageSize(limit)
    ensures var v := Next(w, Poll(limit)); Inv(v) && CaughtUp(v)
  {
    hide Visible, Tail, UpTo, Replay, Head;
    var since, latest := w.client.cursor, Head(w.log.rows);
    var b := Max(since, latest);
    PageIsExact(w.log, w.history, USER, since, limit);
    HeadPassesTail(w.log, w.history, USER, since);
    HeadHasNoTail(w.log, w.history, USER, b);
    LastPage(w.history, USER, since, b);
    UpToHead(w.history, USER, b);
    ReplayConcat({}, UpTo(w.history, USER, since), Tail(w.history, USER, since));
  }

  lemma PollAdvances(w: World, limit: int)
    requires Inv(w) && !Reset(w.client.cursor, w.log.low)
    requires |Tail(w.history, USER, w.client.cursor)| >= PageSize(limit)
    ensures var v := Next(w, Poll(limit));
            && Inv(v) && !Reset(v.client.cursor, v.log.low)
            && |Tail(v.history, USER, v.client.cursor)| == |Tail(w.history, USER, w.client.cursor)| - PageSize(limit)
  {
    hide Visible, Tail, UpTo, Replay, Head;
    var since, n := w.client.cursor, PageSize(limit);
    var t := Tail(w.history, USER, since);
    PageIsExact(w.log, w.history, USER, since, limit);
    FullPage(w.history, USER, since, n);
    assert Take(t, n) == t[..n];
    ReplayConcat({}, UpTo(w.history, USER, since), t[..n]);
    SplitCount(w.history, USER, since);
    SplitCount(w.history, USER, t[n - 1].seq_);
  }

  // -------------------------------------------------------------------- any run

  lemma VisibleAfter(messages: map<(int, string), bool>, user: int, message: string, visible: bool)
    ensures Visible(messages[(user, message) := visible], USER) ==
            if user != USER then Visible(messages, USER)
            else if visible then Visible(messages, USER) + {message} else Visible(messages, USER) - {message}
    ensures Visible(messages - {(user, message)}, USER) ==
            if user != USER then Visible(messages, USER) else Visible(messages, USER) - {message}
  {
  }

  lemma JournaledOk(w: World, c: Change, messages: map<(int, string), bool>)
    requires Inv(w) && c.seq_ > 0 && c.seq_ > w.log.low && forall d :: d in w.history ==> d.seq_ < c.seq_
    requires Visible(messages, USER) ==
             if c.user == USER then After(Visible(w.messages, USER), c) else Visible(w.messages, USER)
    ensures Inv(Journaled(w, c).(messages := messages))
  {
    AppendOk(w.log, w.history, c);
    HeadGrows(w.history, c);
    HeadIsBelow(w.history, c);
    hide Visible, Replay, LogOk, Tail, UpTo, Head;
    AppendTail(w.history, c, Replay({}, Tail(w.history, USER, 0)));
    AppendUpTo(w.history, c, w.client.cursor);
  }

  lemma AppendTail(h: seq<Change>, c: Change, view: set<string>)
    requires c.seq_ > 0 && view == Replay({}, Tail(h, USER, 0))
    ensures Replay({}, Tail(h + [c], USER, 0)) == if c.user == USER then After(view, c) else view
  {
    hide Tail, Replay;
    TailConcat(h, [c], USER, 0);
    TailFirst(c, [], USER, 0);
    EmptyTail([], USER, 0);
    assert [c] + [] == [c];
    OneReplay(view, c);
    ReplayConcat({}, Tail(h, USER, 0), [c]);
    assert Tail(h, USER, 0) + [] == Tail(h, USER, 0);
  }

  lemma AppendUpTo(h: seq<Change>, c: Change, cursor: int)
    ensures cursor < c.seq_ ==> UpTo(h + [c], USER, cursor) == UpTo(h, USER, cursor)
  {
    if cursor < c.seq_ {
      UpToConcat(h, [c], USER, cursor);
      NothingUpTo([c], USER, cursor);
      assert UpTo(h, USER, cursor) + [] == UpTo(h, USER, cursor);
    }
  }

  lemma HeadIsBelow(h: seq<Change>, c: Change)
    requires c.seq_ > 0 && forall d :: d in h ==> d.seq_ < c.seq_
    ensures Head(h) < c.seq_
  {
  }

  lemma OneReplay(view: set<string>, c: Change)
    ensures Replay(view, [c]) == After(view, c)
  {
  }

  lemma HeadGrows(h: seq<Change>, c: Change)
    ensures Head(h + [c]) >= c.seq_ && Head(h) <= Head(h + [c])
  {
  }

  lemma InvStep(w: World, s: Step)
    requires Inv(w) && Possible(w, s)
    ensures Inv(Next(w, s))
  {
    match s
    case Write(user, message, visible, number, ts) =>
      VisibleAfter(w.messages, user, message, visible);
      hide Visible, LogOk, Replay;
      JournaledOk(w, Change(number, user, message, if visible then UPSERT else DELETE, ts),
                  w.messages[(user, message) := visible]);
    case Remove(user, message, number, ts) =>
      VisibleAfter(w.messages, user, message, true);
      hide Visible, LogOk, Replay;
      JournaledOk(w, Change(number, user, message, DELETE, ts), w.messages - {(user, message)});
    case Compact(cutoff) =>
      hide Visible, Replay, Tail, UpTo;
      CompactOk(w.log, w.history, cutoff);
    case Poll(limit) =>
      if Reset(w.client.cursor, w.log.low) { PollResets(w, limit); }
      else if |Tail(w.history, USER, w.client.cursor)| < PageSize(limit) { PollEnds(w, limit); }
      else { PollAdvances(w, limit); }
  }

  predicate CanRun(w: World, ss: seq<Step>)
    decreases |ss|
  {
    ss == [] || (Possible(w, ss[0]) && CanRun(Next(w, ss[0]), ss[1..]))
  }

  function Run(w: World, ss: seq<Step>): World
    decreases |ss|
  {
    if ss == [] then w else Run(Next(w, ss[0]), ss[1..])
  }

  const START: World := World(map[], Log([], 0), [], Client({}, 0))

  lemma {:induction false} InvRun(w: World, ss: seq<Step>)
    requires Inv(w) && CanRun(w, ss)
    ensures Inv(Run(w, ss))
    decreases |ss|
  {
    hide Next, Inv;
    if ss != [] {
      InvStep(w, ss[0]);
      InvRun(Next(w, ss[0]), ss[1..]);
    }
  }

  function Polls(limit: int, k: nat): seq<Step> {
    if k == 0 then [] else [Poll(limit)] + Polls(limit, k - 1)
  }

  lemma {:induction false} StaysCaughtUp(w: World, limit: int, k: nat)
    requires Inv(w) && CaughtUp(w)
    ensures CaughtUp(Run(w, Polls(limit, k)))
    decreases k
  {
    hide Next, Inv, CaughtUp;
    if k > 0 {
      CaughtUpPoll(w, limit);
      assert Polls(limit, k)[1..] == Polls(limit, k - 1);
      StaysCaughtUp(Next(w, Poll(limit)), limit, k - 1);
    }
  }

  lemma CaughtUpPoll(w: World, limit: int)
    requires Inv(w) && CaughtUp(w)
    ensures Inv(Next(w, Poll(limit))) && CaughtUp(Next(w, Poll(limit)))
  {
    hide Inv, Next, Visible;
    if Reset(w.client.cursor, w.log.low) { PollResets(w, limit); } else { PollEnds(w, limit); }
  }

  /** From any state, as many polls as the backlog has pages, and one more, bring the
      client's view to what the whole history says is visible. */
  lemma {:induction false} PollsCatchUp(w: World, limit: int, k: nat)
    requires Inv(w) && |Tail(w.history, USER, w.client.cursor)| < k * PageSize(limit)
    ensures CaughtUp(Run(w, Polls(limit, k)))
    decreases k
  {
    hide Next, Inv, CaughtUp, PageSize, Tail;
    assert Polls(limit, k)[1..] == Polls(limit, k - 1);
    var v := Next(w, Poll(limit));
    if Reset(w.client.cursor, w.log.low) {
      PollResets(w, limit);
      StaysCaughtUp(v, limit, k - 1);
    } else if |Tail(w.history, USER, w.client.cursor)| < PageSize(limit) {
      PollEnds(w, limit);
      StaysCaughtUp(v, limit, k - 1);
    } else {
      PollAdvances(w, limit);
      PollsCatchUp(v, limit, k - 1);
    }
  }

  /** Any run from the empty journal, then enough polls: the client sees what
      replaying every change ever journaled gives, and that is the visible mail. */
  lemma ClientConverges(ss: seq<Step>, limit: int, k: nat)
    requires CanRun(START, ss)
    requires var w := Run(START, ss); |Tail(w.history, USER, w.client.cursor)| < k * PageSize(limit)
    ensures var w := Run(START, ss); var v := Run(w, Polls(limit, k));
            v.client.view == Visible(w.messages, USER) == Replay({}, Tail(w.history, USER, 0))
  {
    StartOk();
    InvRun(START, ss);
    var w := Run(START, ss);
    PollsCatchUp(w, limit, k);
    PollsKeep(w, limit, k);
  }

  lemma StartOk()
    ensures Inv(START)
  {
  }

  lemma {:induction false} PollsKeep(w: World, limit: int, k: nat)
    ensures var v := Run(w, Polls(limit, k)); v.messages == w.messages && v.history == w.history && v.log == w.log
    decreases k
  {
    hide Polled, Answer, Visible;
    if k > 0 {
      assert Polls(limit, k)[1..] == Polls(limit, k - 1);
      PollsKeep(Next(w, Poll(limit)), limit, k - 1);
    }
  }

  // ---------------------------------------------------------- what it depends on

  /** Moving the cursor to the head of the log after every page is right exactly when
      the page held the whole backlog. */
  lemma AdoptingTheHead(log: Log, h: seq<Change>, user: int, since: int, limit: int)
    requires LogOk(log, h) && !Reset(since, log.low) && since <= Head(log.rows)
    ensures var r := Answer(log, user, since, limit);
            UpTo(h, user, r.latest) == UpTo(h, user, since) + r.changes <==>
            |Tail(h, user, since)| <= PageSize(limit)
  {
    hide UpTo, Tail, Head;
    var b, t, n := Head(log.rows), Tail(h, user, since), PageSize(limit);
    PageIsExact(log, h, user, since, limit);
    HeadHasNoTail(log, h, user, b);
    LastPage(h, user, since, b);
    assert |UpTo(h, user, since) + t| == |UpTo(h, user, since)| + |t|;
  }

  /** A client that adopts the head after every page, watching the same journal, and the
      entries it has received. */
  datatype Hasty = Hasty(got: seq<Change>, cursor: int)

  const NEWCOMER := Hasty([], 0)

  function HastyNext(w: World, x: Hasty, s: Step): Hasty {
    if !s.Poll? then x
    else
      var r := Answer(w.log, USER, x.cursor, s.limit);
      var cursor := if r.latest > 0 then r.latest else x.cursor;
      Hasty(if Reset(x.cursor, r.low) then UpTo(w.history, USER, cursor) else x.got + r.changes, cursor)
  }

  function HastyRun(w: World, x: Hasty, ss: seq<Step>): Hasty
    decreases |ss|
  {
    if ss == [] then x else HastyRun(Next(w, ss[0]), HastyNext(w, x, ss[0]), ss[1..])
  }

  /** The poll meets a backlog above a page. */
  predicate Overruns(w: World, x: Hasty, s: Step) {
    s.Poll? && |Tail(w.history, USER, x.cursor)| > PageSize(s.limit)
  }

  /** What a step makes of whether a poll since the last resync met a backlog above a page. */
  predicate OverranNext(w: World, x: Hasty, s: Step, overran: bool) {
    if s.Poll? && Reset(x.cursor, w.log.low) then false else overran || Overruns(w, x, s)
  }

  predicate Overran(w: World, x: Hasty, ss: seq<Step>, overran: bool)
    decreases |ss|
  {
    if ss == [] then overran
    else Overran(Next(w, ss[0]), HastyNext(w, x, ss[0]), ss[1..], OverranNext(w, x, ss[0], overran))
  }

  /** It has received the history up to its cursor, or fewer entries when it overran. */
  predicate HastyOk(w: World, x: Hasty, overran: bool) {
    !Reset(x.cursor, w.log.low) ==>
      && x.cursor <= Head(w.history)
      && (!overran ==> x.got == UpTo(w.history, USER, x.cursor))
      && (overran ==> |x.got| < |UpTo(w.history, USER, x.cursor)|)
  }

  /** A head behind the cursor is behind the watermark, too. */
  lemma HeadBehindCursor(log: Log, h: seq<Change>, cursor: int)
    requires LogOk(log, h) && log.low <= cursor <= Head(h) && Head(log.rows) < cursor
    ensures Head(log.rows) < log.low
  {
    var c :| c in h && c.seq_ == Head(h);
    assert c in log.rows ==> c.seq_ <= Head(log.rows);
  }

  lemma HastyPoll(w: World, x: Hasty, limit: int, overran: bool)
    requires Inv(w) && HastyOk(w, x, overran) && !Reset(x.cursor, w.log.low)
    ensures HastyOk(Next(w, Poll(limit)), HastyNext(w, x, Poll(limit)), OverranNext(w, x, Poll(limit), overran))
  {
    hide Visible, Tail, UpTo, Replay, Head, Polled;
    var since, latest := x.cursor, Head(w.log.rows);
    var t := Tail(w.history, USER, since);
    PageIsExact(w.log, w.history, USER, since, limit);
    HeadPassesTail(w.log, w.history, USER, since);
    if latest >= since {
      HeadHasNoTail(w.log, w.history, USER, latest);
      LastPage(w.history, USER, since, latest);
      assert |Take(t, PageSize(limit))| <= |t|;
    } else {
      HeadHasNoTail(w.log, w.history, USER, since);
      HeadBehindCursor(w.log, w.history, since);
      assert x.got + [] == x.got;
    }
  }

  lemma HastyResync(w: World, x: Hasty, limit: int, overran: bool)
    requires Inv(w) && Reset(x.cursor, w.log.low)
    ensures HastyOk(Next(w, Poll(limit)), HastyNext(w, x, Poll(limit)), false)
  {
    hide Visible, Tail, UpTo, Replay, Polled;
    if !Reset(Head(w.log.rows), w.log.low) { HeadPassesTail(w.log, w.history, USER, Head(w.log.rows)); }
  }

  lemma HastyAppend(w: World, x: Hasty, overran: bool, c: Change, messages: map<(int, string), bool>)
    requires HastyOk(w, x, overran) && c.seq_ > 0 && forall d :: d in w.history ==> d.seq_ < c.seq_
    ensures HastyOk(Journaled(w, c).(messages := messages), x, overran)
  {
    hide UpTo, Head;
    HeadGrows(w.history, c);
    HeadIsBelow(w.history, c);
    AppendUpTo(w.history, c, x.cursor);
  }

  lemma HastyStep(w: World, x: Hasty, s: Step, overran: bool)
    requires Inv(w) && Possible(w, s) && HastyOk(w, x, overran)
    ensures HastyOk(Next(w, s), HastyNext(w, x, s), OverranNext(w, x, s, overran))
  {
    hide Inv, HastyOk, UpTo, Head, Tail;
    match s
    case Write(user, message, visible, number, ts) =>
      HastyAppend(w, x, overran, Change(number, user, message, if visible then UPSERT else DELETE, ts),
                  w.messages[(user, message) := visible]);
    case Remove(user, message, number, ts) =>
      HastyAppend(w, x, overran, Change(number, user, message, DELETE, ts), w.messages - {(user, message)});
    case Compact(cutoff) => HastyCompact(w, x, overran, cutoff);
    case Poll(limit) =>
      if Reset(x.cursor, w.log.low) { HastyResync(w, x, limit, overran); } else { HastyPoll(w, x, limit, overran); }
  }

  lemma HastyCompact(w: World, x: Hasty, overran: bool, cutoff: int)
    requires HastyOk(w, x, overran)
    ensures HastyOk(w.(log := Compacted(w.log, cutoff)), x, overran)
  {
    hide UpTo, Head, Kept, Pruned;
  }

  lemma {:induction false} HastyKeeps(w: World, x: Hasty, ss: seq<Step>, overran: bool)
    requires Inv(w) && CanRun(w, ss) && HastyOk(w, x, overran)
    ensures HastyOk(Run(w, ss), HastyRun(w, x, ss), Overran(w, x, ss, overran))
    decreases |ss|
  {
    hide Next, Inv, HastyOk, HastyNext, OverranNext;
    if ss != [] {
      InvStep(w, ss[0]);
      HastyStep(w, x, ss[0], overran);
      HastyKeeps(Next(w, ss[0]), HastyNext(w, x, ss[0]), ss[1..], OverranNext(w, x, ss[0], overran));
    }
  }

  /** In any run such a client, while its cursor is good, has received exactly the history
      up to it if and only if no poll since its last resync met a backlog above a page. */
  lemma AlwaysAdoptingTheHead(ss: seq<Step>)
    requires CanRun(START, ss)
    ensures var w, x := Run(START, ss), HastyRun(START, NEWCOMER, ss);
            !Reset(x.cursor, w.log.low) ==>
              (x.got == UpTo(w.history, USER, x.cursor) <==> !Overran(START, NEWCOMER, ss, false))
  {
    StartOk();
    HastyKeeps(START, NEWCOMER, ss, false);
  }

  /** A client that resynced and took the head is told to resync again exactly as long
      as nothing has been journaled after the last pruned change. */
  lemma ResyncsAgain(log: Log, h: seq<Change>)
    requires LogOk(log, h)
    ensures Reset(Head(log.rows), log.low) <==> forall c :: c in h ==> c.seq_ <= log.low
  {
  }

  /** GetMessageChanges when something runs between its queries: head and watermark of
      one log, tail of a later one. */
  function ReadInParts(first: Log, later: Log, user: int, since: int, limit: int): Reply {
    Reply(if Reset(since, first.low) then [] else Take(Tail(later.rows, user, since), PageSize(limit)),
          Head(first.rows), first.low)
  }

  /** Pruning prunes a tail as it prunes the log. */
  lemma {:induction false} TailOfKept(cs: seq<Change>, user: int, since: int, cutoff: int)
    ensures Tail(Kept(cs, cutoff), user, since) == Kept(Tail(cs, user, since), cutoff)
    decreases |cs|
  {
    if cs != [] {
      var c, rest := cs[0], cs[1..];
      TailOfKept(rest, user, since, cutoff);
      hide Tail, Kept;
      assert cs == [c] + rest;
      TailFirst(c, rest, user, since);
      KeptFirst(c, rest, cutoff);
      TailFirst(c, Kept(rest, cutoff), user, since);
      KeptFirst(c, Tail(rest, user, since), cutoff);
      assert [] + Kept(rest, cutoff) == Kept(rest, cutoff) && [] + Tail(rest, user, since) == Tail(rest, user, since);
    }
  }

  lemma KeptFirst(c: Change, cs: seq<Change>, cutoff: int)
    ensures Kept([c] + cs, cutoff) == (if c.ts >= cutoff then [c] else []) + Kept(cs, cutoff)
  {
    assert ([c] + cs)[1..] == cs;
  }

  /** A page of what is kept is the page exactly when nothing on the page is pruned. */
  lemma {:induction false} PageOfKept(t: seq<Change>, cutoff: int, n: nat)
    requires Ascending(t)
    ensures Take(Kept(t, cutoff), n) == Take(t, n) <==> forall c :: c in Take(t, n) ==> c.ts >= cutoff
    decreases |t|
  {
    if t != [] && n > 0 {
      AscendingRest(t);
      var c, rest := t[0], t[1..];
      PageOfKept(rest, cutoff, n - 1);
      assert t == [c] + rest;
      KeptFirst(c, rest, cutoff);
      TakeFirst(c, rest, n);
      TakeFirst(c, Kept(rest, cutoff), n);
      hide Kept, Take, Ascending;
      assert c in [c] + Take(rest, n - 1);
      if c.ts < cutoff {
        TakeIsFrom(Kept(rest, cutoff), n);
        assert [] + Kept(rest, cutoff) == Kept(rest, cutoff);
        assert Take(t, n)[0] == c;
        assert Take(Kept(rest, cutoff), n) == Take(t, n) ==> c in Take(Kept(rest, cutoff), n);
      } else {
        SameTail(c, Take(Kept(rest, cutoff), n - 1), Take(rest, n - 1));
      }
    }
  }

  lemma SameTail(c: Change, a: seq<Change>, b: seq<Change>)
    ensures [c] + a == [c] + b <==> a == b
  {
    assert ([c] + a)[1..] == a && ([c] + b)[1..] == b;
  }

  lemma TakeFirst(c: Change, cs: seq<Change>, n: nat)
    requires n > 0
    ensures Take([c] + cs, n) == [c] + Take(cs, n - 1)
  {
  }

  lemma TakeIsFrom(cs: seq<Change>, n: nat)
    ensures forall c :: c in Take(cs, n) ==> c in cs
  {
  }

  /** With a compaction between its queries the reader still returns the exact page of
      the full history if and only if none of the page's rows is older than the cutoff;
      and a cursor at or above the watermark as it is afterwards would be safe. */
  lemma PartsAreExact(first: Log, before: Log, h: seq<Change>, user: int, since: int, limit: int, cutoff: int)
    requires LogOk(before, h) && first.low == before.low && !Reset(since, first.low)
    ensures var later := Compacted(before, cutoff);
            var got, page := ReadInParts(first, later, user, since, limit).changes, Take(Tail(h, user, since), PageSize(limit));
            && (got == page <==> forall c :: c in Take(Tail(before.rows, user, since), PageSize(limit)) ==> c.ts >= cutoff)
            && (since >= later.low ==> got == page)
  {
    hide Tail, Kept, Take, Pruned, Head;
    TailSurvives(before, h, user, since);
    TailOfKept(before.rows, user, since, cutoff);
    TailAscends(before.rows, user, since);
    PageOfKept(Tail(before.rows, user, since), cutoff, PageSize(limit));
    CompactOk(before, h, cutoff);
    if since >= Compacted(before, cutoff).low { TailSurvives(Compacted(before, cutoff), h, user, since); }
  }

  /** A tombstone lost that way: the reply says no reset, no changes. */
  lemma TombstoneLost()
    ensures var h := [Change(1, USER, "a", UPSERT, 10), Change(2, USER, "a", DELETE, 20)];
            var before, later := Log(h, 0), Compacted(Log(h, 0), 30);
            LogOk(before, h) && LogOk(later, h) && !Reset(1, before.low) &&
            ReadInParts(before, later, USER, 1, 0).changes == [] && Tail(h, USER, 1) == [h[1]]
  {
    var h := [Change(1, USER, "a", UPSERT, 10), Change(2, USER, "a", DELETE, 20)];
    assert h[1..] == [h[1]] && [h[1]][1..] == [];
    CompactOk(Log(h, 0), h, 30);
    assert Kept(h[1..], 30) == Kept([], 30) == [];
    assert Kept(h, 30) == [];
  }
}
