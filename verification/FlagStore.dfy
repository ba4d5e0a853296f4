/** internal/db/flag_sync.go and RefreshExistingFromRemote of internal/db/messages.go:
    the queue of flag changes to push upstream, and the pull that mirrors upstream
    flags. Tables are maps, a statement is one method. */
module FlagStore {
  import opened Wrappers

  /** The bytes of a string. */
  type Octets = seq<nat>

  datatype Flags = Flags(seen: bool, flagged: bool, answered: bool)

  /** The columns of a message row the statements touch; None is NULL. */
  datatype Message = Message(
    user: int, account: Option<int>, messageId: string, remoteUid: Option<int>, remoteFolder: Option<string>,
    flags: Flags, isSpam: Option<bool>, spamStatus: string, spamReasons: string, spamRule: Option<int>,
    updatedAt: int)

  datatype Entry = Entry(
    id: int, account: int, folder: string, uid: int, flags: Flags, deleted: bool, createdAt: int,
    retries: int, lastError: Octets, lastAttempt: int, nextAttempt: int)

  /** What the pull saw of a message on the source server. */
  datatype Upstream = Upstream(uid: int, folder: string, flags: Flags)

  // ---------------------------------------------------------- single rows

  /** The upsert of queueFlagSync. */
  function Upserted(was: Option<Entry>, added: Entry): Entry {
    match was
    case None => added
    case Some(e) =>
      e.(flags := added.flags, deleted := e.deleted || added.deleted, createdAt := added.createdAt,
         retries := 0, lastError := [], nextAttempt := 0)
  }

  function NewRow(id: int, account: int, folder: string, uid: int, flags: Flags, deleted: bool, now: int): Entry {
    Entry(id, account, folder, uid, flags, deleted, now, 0, [], 0, 0)
  }

  /** The pause after the n-th failure in a row. */
  function Backoff(n: int): int {
    match n
    case 1 => 60_000
    case 2 => 300_000
    case 3 => 1_800_000
    case 4 => 10_800_000
    case 5 => 43_200_000
    case _ => 86_400_000
  }

  /** The UTF-8 of an ellipsis. */
  const ELLIPSIS: Octets := [0xE2, 0x80, 0xA6]

  /** Clipped by octets, even inside a character. */
  function Clipped(msg: Octets): Octets {
    if |msg| > 1024 then msg[..1024] + ELLIPSIS else msg
  }

  function Failed(e: Entry, msg: Octets, now: int): Entry {
    e.(retries := e.retries + 1, lastError := Clipped(msg), lastAttempt := now,
       nextAttempt := now + Backoff(e.retries + 1))
  }

  predicate Due(e: Entry, account: int, now: int) {
    e.account == account && e.nextAttempt <= now
  }

  /** The statement's own test that something would change. */
  predicate Differs(m: Message, pending: bool, up: Upstream, downgrade: bool) {
    || m.remoteUid != Some(up.uid) || m.remoteFolder != Some(up.folder)
    || (downgrade && m.isSpam != Some(false))
    || (!pending && m.flags != up.flags)
  }

  function Refreshed(m: Message, pending: bool, up: Upstream, downgrade: bool, now: int): Message {
    if !Differs(m, pending, up, downgrade) then m
    else
      var n := m.(remoteUid := Some(up.uid), remoteFolder := Some(up.folder),
                  flags := if pending then m.flags else up.flags, updatedAt := now);
      if downgrade then n.(isSpam := Some(false), spamStatus := "clean", spamReasons := "", spamRule := None) else n
  }

  /** A refreshed row shows what the pull saw, keeps the flags of a pending change,
      and differs from the old one exactly when the statement writes it. */
  lemma RefreshedShows(m: Message, pending: bool, up: Upstream, downgrade: bool, now: int)
    ensures var n := Refreshed(m, pending, up, downgrade, now);
            && n.remoteUid == Some(up.uid) && n.remoteFolder == Some(up.folder)
            && n.flags == (if pending then m.flags else up.flags)
            && (downgrade ==> n.isSpam == Some(false)) && (!downgrade ==> n.isSpam == m.isSpam)
            && (if downgrade && Differs(m, pending, up, downgrade)
                then n.spamStatus == "clean" && n.spamReasons == "" && n.spamRule == None
                else n.spamStatus == m.spamStatus && n.spamReasons == m.spamReasons && n.spamRule == m.spamRule)
            && (n.user, n.account, n.messageId) == (m.user, m.account, m.messageId)
            && (n.updatedAt == if Differs(m, pending, up, downgrade) then now else m.updatedAt)
            && (Differs(m, pending, up, downgrade) <==> n != m.(updatedAt := n.updatedAt))
            && !Differs(n, pending, up, downgrade)
  {
  }

  // ---------------------------------------------------------------- tables

  predicate Targeted(m: Message, user: int, account: int, messageId: string) {
    m.user == user && m.messageId == messageId && m.account == Some(account)
  }

  /** The messages after a pull of one upstream message. */
  function AllRefreshed(messages: map<int, Message>, pending: set<int>, user: int, account: int, messageId: string,
                        up: Upstream, downgrade: bool, now: int): map<int, Message> {
    map k | k in messages ::
      if Targeted(messages[k], user, account, messageId)
      then Refreshed(messages[k], k in pending, up, downgrade, now) else messages[k]
  }

  predicate AnyDiffers(messages: map<int, Message>, pending: set<int>, user: int, account: int, messageId: string,
                       up: Upstream, downgrade: bool) {
    exists k :: k in messages && Targeted(messages[k], user, account, messageId) &&
                Differs(messages[k], k in pending, up, downgrade)
  }

  /** Pulling the same upstream state again changes no row and reports no change. */
  lemma PullTwice(messages: map<int, Message>, pending: set<int>, user: int, account: int, messageId: string,
                  up: Upstream, downgrade: bool, now: int, later: int)
    ensures var once := AllRefreshed(messages, pending, user, account, messageId, up, downgrade, now);
            AllRefreshed(once, pending, user, account, messageId, up, downgrade, later) == once &&
            !AnyDiffers(once, pending, user, account, messageId, up, downgrade)
  {
    var once := AllRefreshed(messages, pending, user, account, messageId, up, downgrade, now);
    forall k | k in messages
      ensures Targeted(once[k], user, account, messageId) == Targeted(messages[k], user, account, messageId)
      ensures Targeted(once[k], user, account, messageId) ==> !Differs(once[k], k in pending, up, downgrade)
    {
      RefreshedShows(messages[k], k in pending, up, downgrade, now);
    }
    var twice := AllRefreshed(once, pending, user, account, messageId, up, downgrade, later);
    forall k | k in once ensures twice[k] == once[k] {
      assert k in messages;
    }
    assert twice.Keys == once.Keys;
    assert twice == once;
    assert !AnyDiffers(once, pending, user, account, messageId, up, downgrade) by {
      forall k | k in once && Targeted(once[k], user, account, messageId)
        ensures !Differs(once[k], k in pending, up, downgrade) { assert k in messages; }
    }
  }

  /** A pull by an account that does not own the row, or without a Message-ID match,
      leaves it alone; a pending change keeps its flags; and a reported change is a
      change of a row. */
  lemma PullRespects(messages: map<int, Message>, pending: set<int>, user: int, account: int, messageId: string,
                     up: Upstream, downgrade: bool, now: int)
    ensures var after := AllRefreshed(messages, pending, user, account, messageId, up, downgrade, now);
            && after.Keys == messages.Keys
            && (forall k :: k in messages && !Targeted(messages[k], user, account, messageId) ==> after[k] == messages[k])
            && (forall k :: k in messages && k in pending ==> after[k].flags == messages[k].flags)
            && (AnyDiffers(messages, pending, user, account, messageId, up, downgrade) <==>
                exists k :: k in messages && after[k] != messages[k].(updatedAt := after[k].updatedAt))
  {
    var after := AllRefreshed(messages, pending, user, account, messageId, up, downgrade, now);
    forall k | k in messages
      ensures after[k] != messages[k].(updatedAt := after[k].updatedAt) <==>
              Targeted(messages[k], user, account, messageId) && Differs(messages[k], k in pending, up, downgrade)
    {
      RefreshedShows(messages[k], k in pending, up, downgrade, now);
    }
    if k :| k in messages && after[k] != messages[k].(updatedAt := after[k].updatedAt) {
      assert Targeted(messages[k], user, account, messageId);
    }
    if AnyDiffers(messages, pending, user, account, messageId, up, downgrade) {
      var k :| k in messages && Targeted(messages[k], user, account, messageId) &&
               Differs(messages[k], k in pending, up, downgrade);
      assert after[k] != messages[k].(updatedAt := after[k].updatedAt);
    }
  }

  /** A pull reaches exactly the account's own rows of that user and Message-ID. */
  lemma PullReaches(messages: map<int, Message>, pending: set<int>, user: int, account: int, messageId: string,
                    up: Upstream, downgrade: bool, now: int, k: int)
    requires k in messages
    ensures var n, m := AllRefreshed(messages, pending, user, account, messageId, up, downgrade, now)[k], messages[k];
            if m.user == user && m.account == Some(account) && m.messageId == messageId then
              n.remoteUid == Some(up.uid) && n.remoteFolder == Some(up.folder) && (k !in pending ==> n.flags == up.flags)
            else n == m
  {
    RefreshedShows(messages[k], k in pending, up, downgrade, now);
  }

  predicate ByAge(es: seq<Entry>) {
    forall i, j :: 0 <= i < j < |es| ==> es[i].createdAt <= es[j].createdAt
  }

  lemma NothingByAge()
    ensures ByAge([])
  {
  }

  lemma ByAgeSnoc(es: seq<Entry>, e: Entry)
    requires ByAge(es) && forall x :: x in es ==> x.createdAt <= e.createdAt
    ensures ByAge(es + [e])
  {
  }

  lemma SomeElement(s: set<int>)
    requires s != {}
    ensures exists x :: x in s
  {
    assert (forall x :: x !in s) ==> s == {};
  }

  ghost predicate Listed(queue: map<int, Entry>, e: Entry) {
    exists k :: k in queue && queue[k] == e
  }

  /** A row that is not taken yet shares its id with none that is. */
  lemma NotYet(r: seq<Entry>, queue: map<int, Entry>, k: int)
    requires k in queue && queue[k] !in r
    requires forall i, j :: i in queue && j in queue && queue[i].id == queue[j].id ==> i == j
    requires forall e :: e in r ==> Listed(queue, e)
    ensures (forall e :: e in r ==> e.id != queue[k].id) && Listed(queue, queue[k])
  {
  }

  class Store {
    var messages: map<int, Message>
    /** Keyed by message: the table holds one row per message. */
    var queue: map<int, Entry>
    var nextId: int

    /** Row ids are not shared. */
    ghost predicate Valid()
      reads this
    {
      && (forall k :: k in queue ==> queue[k].id < nextId)
      && forall j, k :: j in queue && k in queue && queue[j].id == queue[k].id ==> j == k
    }

    constructor ()
      ensures Valid() && messages == map[] && queue == map[]
    {
      messages, queue, nextId := map[], map[], 1;
    }

    function Row(message: int): Option<Entry>
      reads this
    {
      if message in queue then Some(queue[message]) else None
    }

    method QueueFlagSync(message: int, account: int, folder: string, uid: int, flags: Flags, deleted: bool, now: int)
      requires Valid()
      modifies this`queue, this`nextId
      ensures Valid()
      ensures queue == old(queue)[message := Upserted(old(Row(message)),
                                                      NewRow(old(nextId), account, folder, uid, flags, deleted, now))]
      ensures var e := queue[message]; var was := old(Row(message));
              && e.flags == flags && e.createdAt == now && e.retries == 0 && e.lastError == [] && e.nextAttempt == 0
              && (was == None ==> e.id == old(nextId) && e.account == account && e.folder == folder && e.uid == uid &&
                                  e.deleted == deleted && e.lastAttempt == 0)
              && (was.Some? ==> e.id == was.value.id && e.account == was.value.account && e.folder == was.value.folder &&
                                e.uid == was.value.uid && e.deleted == (was.value.deleted || deleted))
    {
      var added := NewRow(nextId, account, folder, uid, flags, deleted, now);
      nextId := nextId + 1;
      if message in queue {
        var e := queue[message];
        queue := queue[message := e.(flags := flags, deleted := e.deleted || deleted, createdAt := now,
                                     retries := 0, lastError := [], nextAttempt := 0)];
      } else {
        queue := queue[message := added];
      }
    }

    /** The oldest due rows of an account. */
    method GetPendingFlagSync(account: int, limit: nat, now: int) returns (r: seq<Entry>)
      requires Valid()
      ensures |r| <= limit && ByAge(r)
      ensures forall e :: e in r ==> e.account == account && e.nextAttempt <= now && Listed(queue, e)
      ensures forall i, j :: 0 <= i < j < |r| ==> r[i].id != r[j].id
      ensures forall k :: k in queue && queue[k].account == account && queue[k].nextAttempt <= now && queue[k] !in r ==>
                |r| == limit && forall e :: e in r ==> e.createdAt <= queue[k].createdAt
    {
      hide Listed, ByAge;
      NothingByAge();
      r := [];
      var rest := set k | k in queue && Due(queue[k], account, now);
      while |r| < limit && rest != {}
        invariant |r| <= limit && ByAge(r)
        invariant forall k :: k in rest ==> k in queue && Due(queue[k], account, now) && queue[k] !in r
        invariant forall k :: k in queue && Due(queue[k], account, now) ==> k in rest || queue[k] in r
        invariant forall e :: e in r ==> Due(e, account, now) && Listed(queue, e)
        invariant forall e, k :: e in r && k in rest ==> e.createdAt <= queue[k].createdAt
        invariant forall i, j :: 0 <= i < j < |r| ==> r[i].id != r[j].id
        decreases rest
      {
        var k := Oldest(rest);
        NotYet(r, queue, k);
        ByAgeSnoc(r, queue[k]);
        hide Due;
        r := r + [queue[k]];
        rest := rest - {k};
      }
    }

    method Oldest(rest: set<int>) returns (k: int)
      requires rest != {} && forall j :: j in rest ==> j in queue
      ensures k in rest && forall j :: j in rest ==> queue[k].createdAt <= queue[j].createdAt
    {
      SomeElement(rest);
      k :| k in rest;
      var others := rest - {k};
      while others != {}
        invariant others <= rest && k in rest
        invariant forall j :: j in rest && j !in others ==> queue[k].createdAt <= queue[j].createdAt
        decreases others
      {
        SomeElement(others);
        var j :| j in others;
        if queue[j].createdAt < queue[k].createdAt { k := j; }
        others := others - {j};
      }
    }

    method MarkFlagSyncFailed(id: int, msg: Octets, now: int)
      requires Valid()
      modifies this`queue
      ensures Valid() && queue.Keys == old(queue).Keys
      ensures forall k :: k in queue ==>
                queue[k] == if old(queue[k]).id == id then Failed(old(queue[k]), msg, now) else old(queue[k])
      ensures forall k :: k in queue && queue[k].id == id ==>
                && queue[k].retries == old(queue[k]).retries + 1 && queue[k].lastAttempt == now
                && queue[k].nextAttempt == now + Backoff(old(queue[k]).retries + 1)
                && queue[k].lastError == (if |msg| <= 1024 then msg else msg[..1024] + [0xE2, 0x80, 0xA6])
    {
      queue := map k | k in queue :: if queue[k].id == id then Failed(queue[k], msg, now) else queue[k];
    }

    method DeleteFlagSyncEntry(id: int)
      requires Valid()
      modifies this`queue
      ensures Valid()
      ensures queue == map k | k in old(queue) && old(queue[k]).id != id :: old(queue[k])
    {
      queue := map k | k in queue && queue[k].id != id :: queue[k];
    }

    method RefreshExistingFromRemote(user: int, account: int, messageId: string, up: Upstream, downgrade: bool, now: int)
      returns (changed: bool)
      modifies this`messages
      ensures messageId == "" ==> !changed && messages == old(messages)
      ensures messageId != "" ==>
                && messages == AllRefreshed(old(messages), queue.Keys, user, account, messageId, up, downgrade, now)
                && changed == AnyDiffers(old(messages), queue.Keys, user, account, messageId, up, downgrade)
    {
      if messageId == "" { return false; }
      changed := exists k :: k in messages && Targeted(messages[k], user, account, messageId) &&
                             Differs(messages[k], k in queue, up, downgrade);
      messages := map k | k in messages ::
        if Targeted(messages[k], user, account, messageId)
        then Refreshed(messages[k], k in queue, up, downgrade, now) else messages[k];
      assert forall k :: k in queue.Keys <==> k in queue;
    }
  }
}
