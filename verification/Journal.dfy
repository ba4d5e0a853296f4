/** internal/db/message_changes.go and the triggers of
    migrations/043_message_changes_journal.sql: the journal of message changes, its
    compaction and its reader. */
module Journal {
  /** kind: 1 visible, 2 gone. */
  datatype Change = Change(seq_: int, user: int, message: string, kind: int, ts: int)

  const UPSERT := 1
  const DELETE := 2
  const MAX_PAGE := 5000

  datatype Log = Log(rows: seq<Change>, low: int)

  datatype Reply = Reply(changes: seq<Change>, latest: int, low: int)

  /** The user's changes after a cursor, in order. */
  function Tail(cs: seq<Change>, user: int, since: int): (t: seq<Change>)
    ensures |t| <= |cs|
  {
    if cs == [] then []
    else (if cs[0].user == user && cs[0].seq_ > since then [cs[0]] else []) + Tail(cs[1..], user, since)
  }

  /** The user's changes up to a cursor, in order. */
  function UpTo(cs: seq<Change>, user: int, cursor: int): seq<Change> {
    if cs == [] then []
    else (if cs[0].user == user && cs[0].seq_ <= cursor then [cs[0]] else []) + UpTo(cs[1..], user, cursor)
  }

  /** COALESCE(MAX(seq), 0). */
  function Head(cs: seq<Change>): (h: int)
    ensures forall c :: c in cs ==> c.seq_ <= h
    ensures h == 0 || exists c :: c in cs && c.seq_ == h
    ensures h >= 0
  {
    if cs == [] then 0
    else
      var rest := Head(cs[1..]);
      if cs[0].seq_ > rest then cs[0].seq_ else rest
  }

  function Kept(cs: seq<Change>, cutoff: int): (k: seq<Change>)
    ensures forall c :: c in k <==> c in cs && c.ts >= cutoff
  {
    if cs == [] then []
    else (if cs[0].ts >= cutoff then [cs[0]] else []) + Kept(cs[1..], cutoff)
  }

  function Pruned(cs: seq<Change>, cutoff: int): (k: seq<Change>)
    ensures forall c :: c in k <==> c in cs && c.ts < cutoff
  {
    if cs == [] then []
    else (if cs[0].ts < cutoff then [cs[0]] else []) + Pruned(cs[1..], cutoff)
  }

  function Max(a: int, b: int): int {
    if a >= b then a else b
  }

  function Compacted(log: Log, cutoff: int): Log {
    Log(Kept(log.rows, cutoff), Max(log.low, Head(Pruned(log.rows, cutoff))))
  }

  function PageSize(limit: int): (n: nat)
    ensures 0 < n <= MAX_PAGE
  {
    if limit <= 0 || limit > MAX_PAGE then MAX_PAGE else limit
  }

  /** A cursor at or above the watermark is good, and its page holds no more than was asked
      for, at most 5000, and less only at the end. */
  lemma PageIsAsAsked(log: Log, user: int, since: int, limit: int)
    requires since > 0 && since >= log.low
    ensures var got, tail := Answer(log, user, since, limit).changes, Tail(log.rows, user, since);
            && got <= tail
            && |got| == (var n := if 1 <= limit <= 5000 then limit else 5000; if |tail| < n then |tail| else n)
  {
    hide Tail, Head;
  }

  function Take(cs: seq<Change>, n: nat): seq<Change> {
    if |cs| <= n then cs else cs[..n]
  }

  /** The cursor cannot be used: a new client, or one behind the watermark. */
  predicate Reset(since: int, low: int) {
    since <= 0 || since < low
  }

  function Answer(log: Log, user: int, since: int, limit: int): Reply {
    Reply(if Reset(since, log.low) then [] else Take(Tail(log.rows, user, since), PageSize(limit)),
          Head(log.rows), log.low)
  }

  predicate Ascending(cs: seq<Change>) {
    forall i, j :: 0 <= i < j < |cs| ==> cs[i].seq_ < cs[j].seq_
  }

  lemma {:induction false} TailHolds(cs: seq<Change>, user: int, since: int)
    ensures forall c :: c in Tail(cs, user, since) <==> c in cs && c.user == user && c.seq_ > since
    decreases |cs|
  {
    if cs != [] { TailHolds(cs[1..], user, since); }
  }

  lemma {:induction false} TailConcat(a: seq<Change>, b: seq<Change>, user: int, since: int)
    ensures Tail(a + b, user, since) == Tail(a, user, since) + Tail(b, user, since)
    decreases |a|
  {
    if a == [] {
      assert a + b == b;
    } else {
      assert (a + b)[1..] == a[1..] + b;
      TailConcat(a[1..], b, user, since);
    }
  }

  lemma EmptyTail(cs: seq<Change>, user: int, since: int)
    requires cs == []
    ensures Tail(cs, user, since) == []
  {
  }

  lemma TailSnoc(cs: seq<Change>, i: nat, user: int, since: int)
    requires i < |cs|
    ensures Tail(cs[..i + 1], user, since) ==
            Tail(cs[..i], user, since) + if cs[i].user == user && cs[i].seq_ > since then [cs[i]] else []
  {
    assert cs[..i + 1] == cs[..i] + [cs[i]] && [cs[i]][1..] == [];
    TailConcat(cs[..i], [cs[i]], user, since);
  }

  class MessageChanges {
    var rows: seq<Change>
    var low: int
    var nextSeq: int

    ghost predicate Valid()
      reads this
    {
      Ascending(rows) && nextSeq > 0 && low < nextSeq && forall c :: c in rows ==> 0 < c.seq_ < nextSeq
    }

    constructor ()
      ensures Valid() && rows == [] && low == 0
    {
      rows, low, nextSeq := [], 0, 1;
    }

    /** What the triggers insert; a sequence value may have been burnt by a
        transaction that was rolled back. */
    method Record(user: int, message: string, visible: bool, ts: int, burnt: nat)
      requires Valid()
      modifies this`rows, this`nextSeq
      ensures Valid()
      ensures message == "" ==> rows == old(rows)
      ensures message != "" ==>
                rows == old(rows) + [Change(old(nextSeq) + burnt, user, message, if visible then 1 else 2, ts)]
    {
      if message == "" { return; }
      rows := rows + [Change(nextSeq + burnt, user, message, if visible then UPSERT else DELETE, ts)];
      nextSeq := nextSeq + burnt + 1;
    }

    method GetMessageChanges(user: int, since: int, limit: int) returns (r: Reply)
      ensures r == Answer(Log(rows, low), user, since, limit)
    {
      hide Tail, Head;
      var n := PageSize(limit);
      var latest := Head(rows);
      if since <= 0 || since < low { return Reply([], latest, low); }
      var changes := [];
      EmptyTail(rows[..0], user, since);
      for i := 0 to |rows|
        invariant changes == Take(Tail(rows[..i], user, since), n)
      {
        TailSnoc(rows, i, user, since);
        if rows[i].user == user && rows[i].seq_ > since && |changes| < n {
          changes := changes + [rows[i]];
        }
      }
      assert rows[..|rows|] == rows;
      return Reply(changes, latest, low);
    }

    method CompactMessageChanges(olderThan: int)
      requires Valid()
      modifies this`rows, this`low
      ensures Valid()
      ensures Log(rows, low) == Compacted(old(Log(rows, low)), olderThan)
    {
      var pruned := Pruned(rows, olderThan);
      KeptIsAscending(rows, olderThan);
      rows := Kept(rows, olderThan);
      low := Max(low, Head(pruned));
    }
  }

  lemma {:induction false} KeptIsAscending(cs: seq<Change>, cutoff: int)
    requires Ascending(cs)
    ensures Ascending(Kept(cs, cutoff))
    decreases |cs|
  {
    if cs != [] {
      assert forall i :: 0 <= i < |cs[1..]| ==> cs[1..][i] == cs[i + 1];
      KeptIsAscending(cs[1..], cutoff);
      var k := Kept(cs[1..], cutoff);
      forall i | 0 <= i < |k| ensures cs[0].seq_ < k[i].seq_ { assert k[i] in k; }
    }
  }
}
