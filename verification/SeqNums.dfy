/** FolderClientSeqNums of internal/db/upstream_vanished.go: the sequence numbers IMAP
    clients know a folder's messages by, and what sending them as EXPUNGEs in
    descending order (internal/notify/hub.go) does to a client's list. */
module SeqNums {
  predicate Ascending(s: seq<int>) {
    forall i, j :: 0 <= i < j < |s| ==> s[i] < s[j]
  }

  predicate Disjoint(a: seq<int>, b: seq<int>) {
    forall x :: x in a ==> x !in b
  }

  /** The client's list: the union in UID order. */
  function Merged(a: seq<int>, b: seq<int>): seq<int>
    decreases |a| + |b|
  {
    if a == [] then b
    else if b == [] || a[0] < b[0] then [a[0]] + Merged(a[1..], b)
    else [b[0]] + Merged(a, b[1..])
  }

  lemma AscendingRest(a: seq<int>)
    requires a != [] && Ascending(a)
    ensures Ascending(a[1..]) && forall x :: x in a[1..] ==> x > a[0]
  {
    assert forall i :: 0 <= i < |a[1..]| ==> a[1..][i] == a[i + 1];
  }

  lemma {:induction false} MergedHolds(a: seq<int>, b: seq<int>)
    ensures forall x :: x in Merged(a, b) <==> x in a || x in b
    decreases |a| + |b|
  {
    if a != [] {
      if b == [] || a[0] < b[0] { MergedHolds(a[1..], b); } else { MergedHolds(a, b[1..]); }
    }
  }

  lemma {:induction false} MergedAscends(a: seq<int>, b: seq<int>)
    requires Ascending(a) && Ascending(b) && Disjoint(a, b)
    ensures Ascending(Merged(a, b))
    decreases |a| + |b|
  {
    if a != [] {
      AscendingRest(a);
      if b != [] { AscendingRest(b); }
      if b == [] || a[0] < b[0] {
        MergedAscends(a[1..], b);
        FirstIsLeast(a[0], Merged(a[1..], b), a[1..], b);
      } else {
        assert a[0] in a && b[0] in b;
        MergedAscends(a, b[1..]);
        FirstIsLeast(b[0], Merged(a, b[1..]), a, b[1..]);
      }
    }
  }

  lemma FirstIsLeast(x: int, m: seq<int>, a: seq<int>, b: seq<int>)
    requires Ascending(a) && Ascending(b) && m == Merged(a, b) && Ascending(m)
    requires (forall y :: y in a ==> y > x) && forall y :: y in b ==> y > x
    ensures Ascending([x] + m)
  {
    MergedHolds(a, b);
    forall i | 0 <= i < |m| ensures x < m[i] { assert m[i] in m; }
  }

  /** How many messages of the list come before a UID, counting itself. */
  function Rank(list: seq<int>, uid: int): nat {
    |set x | x in list && x < uid| + 1
  }

  function Elems(s: seq<int>): set<int> {
    set x | x in s
  }

  lemma RankAt(list: seq<int>, k: nat)
    requires Ascending(list) && k < |list|
    ensures Rank(list, list[k]) == k + 1
  {
    var below := set x | x in list && x < list[k];
    CountPrefix(list, k);
    forall x | x in below ensures x in list[..k] {
      var i :| 0 <= i < |list| && list[i] == x;
      assert list[..k][i] == x;
    }
    assert below == Elems(list[..k]);
  }

  lemma {:induction false} CountPrefix(list: seq<int>, k: nat)
    requires Ascending(list) && k <= |list|
    ensures |Elems(list[..k])| == k
    decreases k
  {
    if k == 0 {
      assert Elems(list[..k]) == {};
    } else {
      CountPrefix(list, k - 1);
      assert list[..k] == list[..k - 1] + [list[k - 1]];
      ElemsSnoc(list[..k - 1], list[k - 1]);
    }
  }

  lemma ElemsSnoc(s: seq<int>, x: int)
    requires x !in s
    ensures |Elems(s + [x])| == |Elems(s)| + 1
  {
    assert Elems(s + [x]) == Elems(s) + {x};
  }

  /** Every wanted UID of the view is mapped to its place in it, the others are left
      out. */
  method FolderClientSeqNums(visible: seq<int>, flagged: seq<int>, uids: seq<int>) returns (seqOf: map<int, int>)
    requires Ascending(visible) && Ascending(flagged) && Disjoint(visible, flagged)
    ensures forall u :: u in seqOf <==> u in uids && (u in visible || u in flagged)
    ensures forall u :: u in seqOf ==> seqOf[u] == Rank(Merged(visible, flagged), u)
  {
    hide Merged, Rank, Ascending;
    var want := set u | u in uids;
    ghost var list := Merged(visible, flagged);
    MergedAscends(visible, flagged);
    MergedHolds(visible, flagged);
    seqOf := map[];
    ghost var seen: seq<int> := [];
    var i, j, pos := 0, 0, 0;
    assert visible[0..] == visible && flagged[0..] == flagged;
    while i < |visible| || j < |flagged|
      decreases |visible| + |flagged| - pos
      invariant 0 <= i <= |visible| && 0 <= j <= |flagged| && pos == i + j == |seen|
      invariant list == seen + Merged(visible[i..], flagged[j..])
      invariant forall u :: u in seqOf <==> u in want && u in seen
      invariant forall u :: u in seqOf ==> seqOf[u] == Rank(list, u)
    {
      var uid;
      MergedStep(visible[i..], flagged[j..]);
      pos := pos + 1;
      if j >= |flagged| || (i < |visible| && visible[i] < flagged[j]) {
        uid := visible[i];
        i := i + 1;
      } else {
        uid := flagged[j];
        j := j + 1;
      }
      NextOfList(list, seen, uid, Merged(visible[i..], flagged[j..]));
      seen := seen + [uid];
      if uid in want { seqOf := seqOf[uid := pos]; }
    }
    NothingMerged(visible[i..], flagged[j..]);
  }

  lemma NothingMerged(a: seq<int>, b: seq<int>)
    requires a == [] && b == []
    ensures Merged(a, b) == []
  {
  }

  lemma MergedStep(a: seq<int>, b: seq<int>)
    requires a != [] || b != []
    ensures Merged(a, b) ==
            if b == [] || (a != [] && a[0] < b[0]) then [a[0]] + Merged(a[1..], b) else [b[0]] + Merged(a, b[1..])
  {
    if a == [] { assert Merged(a, b[1..]) == b[1..]; }
  }

  lemma NextOfList(list: seq<int>, seen: seq<int>, uid: int, rest: seq<int>)
    requires Ascending(list) && list == seen + ([uid] + rest)
    ensures list == (seen + [uid]) + rest
    ensures Rank(list, uid) == |seen| + 1
  {
    assert list[|seen|] == uid;
    RankAt(list, |seen|);
  }

  // ------------------------------------------------------------------- EXPUNGE

  /** RFC 3501 section 7.4.1: the message with that number goes and those after it
      move up by one. */
  function Expunge(list: seq<int>, n: int): seq<int>
    requires 1 <= n <= |list|
  {
    list[..n - 1] + list[n..]
  }

  predicate CanReplay(list: seq<int>, ns: seq<int>)
    decreases |ns|
  {
    ns == [] || (1 <= ns[0] <= |list| && CanReplay(Expunge(list, ns[0]), ns[1..]))
  }

  function Replay(list: seq<int>, ns: seq<int>): seq<int>
    requires CanReplay(list, ns)
    decreases |ns|
  {
    if ns == [] then list else Replay(Expunge(list, ns[0]), ns[1..])
  }

  function Without(list: seq<int>, gone: set<int>): seq<int> {
    if list == [] then []
    else (if list[0] in gone then [] else [list[0]]) + Without(list[1..], gone)
  }

  lemma {:induction false} WithoutConcat(a: seq<int>, b: seq<int>, gone: set<int>)
    ensures Without(a + b, gone) == Without(a, gone) + Without(b, gone)
    decreases |a|
  {
    if a == [] {
      assert a + b == b;
    } else {
      assert (a + b)[1..] == a[1..] + b;
      WithoutConcat(a[1..], b, gone);
    }
  }

  lemma {:induction false} WithoutSame(list: seq<int>, gone: set<int>, less: set<int>)
    requires forall x :: x in list ==> (x in gone <==> x in less)
    ensures Without(list, gone) == Without(list, less)
    decreases |list|
  {
    if list != [] {
      var x, rest := list[0], list[1..];
      assert x in list && list == [x] + rest;
      WithoutSame(rest, gone, less);
      WithoutFirst(x, rest, gone);
      WithoutFirst(x, rest, less);
    }
  }

  predicate Descending(ns: seq<int>) {
    forall i, j :: 0 <= i < j < |ns| ==> ns[i] > ns[j]
  }

  /** The numbers of the messages to remove, largest first. */
  predicate Numbers(list: seq<int>, gone: set<int>, ns: seq<int>) {
    && Descending(ns) && (forall i :: 0 <= i < |ns| ==> 1 <= ns[i] <= |list| && list[ns[i] - 1] in gone)
    && forall k :: 0 <= k < |list| && list[k] in gone ==> k + 1 in ns
  }

  /** Replayed largest first, the numbers remove exactly the messages they were taken
      for, though each EXPUNGE renumbers the rest. */
  lemma {:induction false} DescendingRemovesExactly(list: seq<int>, gone: set<int>, ns: seq<int>)
    requires Ascending(list) && Numbers(list, gone, ns)
    ensures CanReplay(list, ns) && Replay(list, ns) == Without(list, gone)
    decreases |ns|
  {
    if ns == [] {
      KeepAll(list, gone);
    } else {
      var n := ns[0];
      var x := list[n - 1];
      var less := gone - {x};
      OneExpunged(list, gone, ns);
      DescendingRemovesExactly(Expunge(list, n), less, ns[1..]);
      ExpungeOne(list, gone, n);
    }
  }

  lemma {:induction false} KeepAll(list: seq<int>, gone: set<int>)
    requires forall k :: 0 <= k < |list| ==> list[k] !in gone
    ensures Without(list, gone) == list
    decreases |list|
  {
    if list != [] {
      assert forall k :: 0 <= k < |list[1..]| ==> list[1..][k] == list[k + 1];
      KeepAll(list[1..], gone);
    }
  }

  /** Where a position of the shorter list was before. */
  function Before(k: int, n: int): int {
    if k < n - 1 then k else k + 1
  }

  lemma ExpungedAt(list: seq<int>, n: int)
    requires 1 <= n <= |list|
    ensures |Expunge(list, n)| == |list| - 1
    ensures forall k :: 0 <= k < |list| - 1 ==> Expunge(list, n)[k] == list[Before(k, n)]
  {
  }

  lemma ExpungedAscends(list: seq<int>, n: int)
    requires Ascending(list) && 1 <= n <= |list|
    ensures Ascending(Expunge(list, n))
  {
    ExpungedAt(list, n);
    hide Expunge;
  }

  lemma OneExpunged(list: seq<int>, gone: set<int>, ns: seq<int>)
    requires Ascending(list) && Numbers(list, gone, ns) && ns != []
    ensures var after, less := Expunge(list, ns[0]), gone - {list[ns[0] - 1]};
            Ascending(after) && Numbers(after, less, ns[1..])
  {
    ExpungedAscends(list, ns[0]);
    SmallerStay(list, gone, ns);
    OthersStay(list, gone, ns);
    assert Descending(ns[1..]);
  }

  lemma SmallerStay(list: seq<int>, gone: set<int>, ns: seq<int>)
    requires Ascending(list) && Numbers(list, gone, ns) && ns != []
    ensures var after, less := Expunge(list, ns[0]), gone - {list[ns[0] - 1]};
            forall i :: 0 <= i < |ns[1..]| ==> 1 <= ns[1..][i] <= |after| && after[ns[1..][i] - 1] in less
  {
    var n := ns[0];
    ExpungedAt(list, n);
    hide Expunge;
    forall i | 0 <= i < |ns[1..]|
      ensures 1 <= ns[1..][i] < n && list[ns[1..][i] - 1] in gone && list[ns[1..][i] - 1] < list[n - 1]
    {
      assert ns[1..][i] == ns[i + 1];
    }
  }

  lemma OthersStay(list: seq<int>, gone: set<int>, ns: seq<int>)
    requires Ascending(list) && Numbers(list, gone, ns) && ns != []
    ensures var after, less := Expunge(list, ns[0]), gone - {list[ns[0] - 1]};
            forall k :: 0 <= k < |after| && after[k] in less ==> k + 1 in ns[1..]
  {
    var n := ns[0];
    var after, less := Expunge(list, n), gone - {list[n - 1]};
    ExpungedAt(list, n);
    hide Expunge, Ascending;
    forall k | 0 <= k < |after| && after[k] in less ensures k + 1 in ns[1..] {
      var m := Before(k, n);
      assert list[m] in gone && m != n - 1;
      assert m + 1 in ns;
      var i :| 0 <= i < |ns| && ns[i] == m + 1;
      assert ns[1..][i - 1] == m + 1 <= n;
    }
  }

  lemma WithoutFirst(x: int, b: seq<int>, gone: set<int>)
    ensures Without([x] + b, gone) == if x in gone then Without(b, gone) else [x] + Without(b, gone)
  {
    assert ([x] + b)[1..] == b;
  }

  lemma ExpungeOne(list: seq<int>, gone: set<int>, n: int)
    requires Ascending(list) && 1 <= n <= |list| && list[n - 1] in gone
    ensures Without(Expunge(list, n), gone - {list[n - 1]}) == Without(list, gone)
  {
    var a, x, b := list[..n - 1], list[n - 1], list[n..];
    var less := gone - {x};
    assert list == a + ([x] + b) && x !in a && x !in b;
    hide Without, Ascending;
    WithoutConcat(a, [x] + b, gone);
    WithoutFirst(x, b, gone);
    WithoutConcat(a, b, less);
    WithoutSame(a, gone, less);
    WithoutSame(b, gone, less);
  }

  /** The numbers FolderClientSeqNums gives for messages that are then removed, sent
      largest first, leave the client with the view that is left. */
  lemma VanishedLeaveTheView(visible: seq<int>, flagged: seq<int>, seqOf: map<int, int>, ns: seq<int>)
    requires Ascending(visible) && Ascending(flagged) && Disjoint(visible, flagged)
    requires forall u :: u in seqOf ==> (u in visible || u in flagged) && seqOf[u] == Rank(Merged(visible, flagged), u)
    requires Descending(ns) && forall n :: n in ns <==> exists u :: u in seqOf && seqOf[u] == n
    ensures CanReplay(Merged(visible, flagged), ns)
    ensures Replay(Merged(visible, flagged), ns) == Without(Merged(visible, flagged), seqOf.Keys)
  {
    var list := Merged(visible, flagged);
    MergedAscends(visible, flagged);
    MergedHolds(visible, flagged);
    forall i | 0 <= i < |ns| ensures 1 <= ns[i] <= |list| && list[ns[i] - 1] in seqOf.Keys {
      assert ns[i] in ns;
      var u :| u in seqOf && seqOf[u] == ns[i];
      assert u in list;
      var k :| 0 <= k < |list| && list[k] == u;
      RankAt(list, k);
    }
    forall k | 0 <= k < |list| && list[k] in seqOf.Keys ensures k + 1 in ns {
      RankAt(list, k);
      assert seqOf[list[k]] == k + 1;
    }
    DescendingRemovesExactly(list, seqOf.Keys, ns);
  }

  /** Smallest first they would not: the second number has moved. */
  lemma AscendingRemovesOthers()
    ensures CanReplay([10, 20, 30], [1, 2]) && Replay([10, 20, 30], [1, 2]) == [20]
    ensures Without([10, 20, 30], {10, 20}) == [30]
  {
    assert [1, 2][1..] == [2] && [2][1..] == [];
    assert Expunge([10, 20, 30], 1) == [20, 30] && Expunge([20, 30], 2) == [20];
    assert Replay([20, 30], [2]) == Replay([20], []) == [20];
    assert [10, 20, 30][1..] == [20, 30] && [20, 30][1..] == [30] && [30][1..] == [];
  }
}
