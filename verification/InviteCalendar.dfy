/** chooseInviteCalendar of internal/calendar/incoming.go: the calendar an invite is
    filed into, or the refusal to guess. */
module InviteCalendar {
  import opened Wrappers
  import opened Strings

  datatype Calendar = Calendar(id: int, source: int, canWrite: bool, name: string)

  datatype Source = Source(id: int, account: Option<int>, username: string, kind: string, identity: string)

  datatype Outcome = Chosen(calendar: Calendar) | NoCalendar | Ambiguous(claims: nat)

  function IsInvited(address: string, invited: set<string>): bool {
    var a := ToLower(TrimSpace(address));
    a != "" && a in invited
  }

  /** Case and surrounding blanks of an address do not matter, and a blank one is nobody's. */
  lemma InvitedMeans(address: string, invited: set<string>)
    requires forall x :: x in invited ==> NoCapitals(x)
    ensures IsInvited(address, invited) <==>
            exists t, x :: Trims(address, t) && t != "" && x in invited && Spells(t, x)
  {
    hide TrimSpace, Trims, ToLower, Spells, NoCapitals;
    var t := TrimSpace(address);
    TrimSpaceTrims(address);
    forall u | Trims(address, u) ensures u == t { TrimsOnce(address, u, t); }
    forall x | x in invited ensures Spells(t, x) <==> ToLower(t) == x { LowerSpells(t, x); }
    if ToLower(t) in invited { assert Spells(t, ToLower(t)); }
  }

  // -------------------------------------------------------------- what is chosen

  /** The four tests a source can pass, strongest first. */
  function Delivering(account: int): Source -> bool {
    (s: Source) => account != 0 && s.account == Some(account)
  }

  function LogsInAs(invited: set<string>): Source -> bool {
    (s: Source) => IsInvited(s.username, invited)
  }

  function Local(): Source -> bool {
    (s: Source) => s.kind == "local"
  }

  function Claims(invited: set<string>): Source -> bool {
    (s: Source) => IsInvited(s.identity, invited)
  }

  predicate CanTake(cals: seq<Calendar>, c: Calendar, source: int) {
    c in cals && c.canWrite && c.source == source
  }

  ghost predicate Usable(cals: seq<Calendar>, s: Source) {
    exists c :: CanTake(cals, c, s.id)
  }

  /** The oldest writable calendar of a source. */
  ghost predicate IsFirst(cals: seq<Calendar>, source: int, c: Calendar) {
    CanTake(cals, c, source) && forall d :: CanTake(cals, d, source) ==> c.id <= d.id
  }

  /** A source that passes the test and has somewhere to write. */
  ghost predicate Candidate(cals: seq<Calendar>, sources: seq<Source>, test: Source -> bool, s: Source) {
    s in sources && test(s) && Usable(cals, s)
  }

  /** The first calendar of the oldest candidate. */
  ghost predicate TakenBy(cals: seq<Calendar>, sources: seq<Source>, test: Source -> bool, c: Calendar) {
    exists s :: Candidate(cals, sources, test, s) && IsFirst(cals, s.id, c) &&
                forall t :: Candidate(cals, sources, test, t) ==> s.id <= t.id
  }

  ghost predicate Nobody(cals: seq<Calendar>, sources: seq<Source>, test: Source -> bool) {
    forall s :: !Candidate(cals, sources, test, s)
  }

  ghost function Claimants(cals: seq<Calendar>, sources: seq<Source>, invited: set<string>): set<Source> {
    set s | s in sources && Candidate(cals, sources, Claims(invited), s)
  }

  /** The choice by priority; a tie on the declared identity alone is refused. */
  ghost predicate IsChoice(cals: seq<Calendar>, sources: seq<Source>, account: int, invited: set<string>, o: Outcome) {
    if !Nobody(cals, sources, Delivering(account)) then
      o.Chosen? && TakenBy(cals, sources, Delivering(account), o.calendar)
    else if !Nobody(cals, sources, LogsInAs(invited)) then
      o.Chosen? && TakenBy(cals, sources, LogsInAs(invited), o.calendar)
    else if !Nobody(cals, sources, Local()) then
      o.Chosen? && TakenBy(cals, sources, Local(), o.calendar)
    else
      var n := |Claimants(cals, sources, invited)|;
      if n == 0 then o == NoCalendar
      else if n == 1 then o.Chosen? && TakenBy(cals, sources, Claims(invited), o.calendar)
      else o == Ambiguous(n)
  }

  /** Ids are primary keys. */
  predicate DistinctCalendars(cals: seq<Calendar>) {
    forall i, j :: 0 <= i < j < |cals| ==> cals[i].id != cals[j].id
  }

  predicate DistinctSources(sources: seq<Source>) {
    forall i, j :: 0 <= i < j < |sources| ==> sources[i].id != sources[j].id
  }

  // --------------------------------------------------------------- its properties

  lemma ChoiceIsUnique(cals: seq<Calendar>, sources: seq<Source>, account: int, invited: set<string>, o: Outcome, p: Outcome)
    requires DistinctCalendars(cals)
    requires IsChoice(cals, sources, account, invited, o) && IsChoice(cals, sources, account, invited, p)
    ensures o == p
  {
  }

  /** A writable calendar of the source exists. */
  ghost predicate CanReceive(cals: seq<Calendar>, s: Source) {
    exists c :: c in cals && c.canWrite && c.source == s.id
  }

  ghost predicate SomeDelivers(cals: seq<Calendar>, sources: seq<Source>, account: int) {
    exists s :: s in sources && CanReceive(cals, s) && account != 0 && s.account == Some(account)
  }

  ghost predicate SomeLogsIn(cals: seq<Calendar>, sources: seq<Source>, invited: set<string>) {
    exists s :: s in sources && CanReceive(cals, s) && IsInvited(s.username, invited)
  }

  ghost predicate SomeLocal(cals: seq<Calendar>, sources: seq<Source>) {
    exists s :: s in sources && CanReceive(cals, s) && s.kind == "local"
  }

  /** Why a calendar is chosen: its source delivers the account's mail; or none does and it
      logs in as somebody invited; or none does that either and it is local; or its
      declared identity is invited. */
  lemma ChosenFor(cals: seq<Calendar>, sources: seq<Source>, account: int, invited: set<string>, o: Outcome)
    requires IsChoice(cals, sources, account, invited, o) && o.Chosen?
    ensures exists s :: s in sources && s.id == o.calendar.source && o.calendar in cals && o.calendar.canWrite &&
              if SomeDelivers(cals, sources, account) then account != 0 && s.account == Some(account)
              else if SomeLogsIn(cals, sources, invited) then IsInvited(s.username, invited)
              else if SomeLocal(cals, sources) then s.kind == "local"
              else IsInvited(s.identity, invited)
  {
    SomeMeans(cals, sources, account, invited);
    hide IsInvited, SomeDelivers, SomeLogsIn, SomeLocal, Usable, Nobody, CanReceive;
    var test := if SomeDelivers(cals, sources, account) then Delivering(account)
                else if SomeLogsIn(cals, sources, invited) then LogsInAs(invited)
                else if SomeLocal(cals, sources) then Local() else Claims(invited);
    assert TakenBy(cals, sources, test, o.calendar);
    var s :| Candidate(cals, sources, test, s) && IsFirst(cals, s.id, o.calendar);
  }

  lemma SomeMeans(cals: seq<Calendar>, sources: seq<Source>, account: int, invited: set<string>)
    ensures SomeDelivers(cals, sources, account) <==> !Nobody(cals, sources, Delivering(account))
    ensures SomeLogsIn(cals, sources, invited) <==> !Nobody(cals, sources, LogsInAs(invited))
    ensures SomeLocal(cals, sources) <==> !Nobody(cals, sources, Local())
  {
    forall t: Source ensures Usable(cals, t) <==> CanReceive(cals, t) { UsableMeans(cals, t); }
    hide IsInvited, Usable, CanReceive;
    if SomeDelivers(cals, sources, account) {
      var s :| s in sources && CanReceive(cals, s) && account != 0 && s.account == Some(account);
      assert Candidate(cals, sources, Delivering(account), s);
    }
    if SomeLogsIn(cals, sources, invited) {
      var s :| s in sources && CanReceive(cals, s) && IsInvited(s.username, invited);
      assert Candidate(cals, sources, LogsInAs(invited), s);
    }
    if SomeLocal(cals, sources) {
      var s :| s in sources && CanReceive(cals, s) && s.kind == "local";
      assert Candidate(cals, sources, Local(), s);
    }
  }

  lemma UsableMeans(cals: seq<Calendar>, s: Source)
    ensures Usable(cals, s) <==> CanReceive(cals, s)
  {
    if Usable(cals, s) {
      var c :| CanTake(cals, c, s.id);
    }
    if CanReceive(cals, s) {
      var c :| c in cals && c.canWrite && c.source == s.id;
      assert CanTake(cals, c, s.id);
    }
  }

  lemma SameCandidates(cals: seq<Calendar>, sources: seq<Source>, cals2: seq<Calendar>, sources2: seq<Source>)
    requires multiset(cals) == multiset(cals2) && multiset(sources) == multiset(sources2)
    ensures forall c, id :: CanTake(cals, c, id) == CanTake(cals2, c, id)
    ensures forall s :: s in sources <==> s in sources2
  {
    assert forall c :: c in cals <==> c in multiset(cals);
    assert forall c :: c in cals2 <==> c in multiset(cals2);
    assert forall s :: s in sources <==> s in multiset(sources);
    assert forall s :: s in sources2 <==> s in multiset(sources2);
  }

  lemma SameTest(cals: seq<Calendar>, sources: seq<Source>, cals2: seq<Calendar>, sources2: seq<Source>,
                 test: Source -> bool)
    requires forall c, id :: CanTake(cals, c, id) == CanTake(cals2, c, id)
    requires forall s :: s in sources <==> s in sources2
    ensures forall s :: Candidate(cals, sources, test, s) == Candidate(cals2, sources2, test, s)
    ensures Nobody(cals, sources, test) == Nobody(cals2, sources2, test)
    ensures forall c :: TakenBy(cals, sources, test, c) == TakenBy(cals2, sources2, test, c)
  {
  }

  /** Reordering the calendars and the sources never changes where an invite goes. */
  lemma OrderDoesNotMatter(cals: seq<Calendar>, sources: seq<Source>, cals2: seq<Calendar>, sources2: seq<Source>,
                           account: int, invited: set<string>, o: Outcome, p: Outcome)
    requires DistinctCalendars(cals)
    requires multiset(cals) == multiset(cals2) && multiset(sources) == multiset(sources2)
    requires IsChoice(cals, sources, account, invited, o) && IsChoice(cals2, sources2, account, invited, p)
    ensures o == p
  {
    SameCandidates(cals, sources, cals2, sources2);
    hide CanTake;
    SameTest(cals, sources, cals2, sources2, Delivering(account));
    SameTest(cals, sources, cals2, sources2, LogsInAs(invited));
    SameTest(cals, sources, cals2, sources2, Local());
    SameTest(cals, sources, cals2, sources2, Claims(invited));
    hide Nobody, TakenBy, Candidate;
    assert Claimants(cals, sources, invited) == Claimants(cals2, sources2, invited);
    assert IsChoice(cals, sources, account, invited, p);
    ChoiceIsUnique(cals, sources, account, invited, o, p);
  }

  /** What is chosen is one of the user's calendars and can be written. */
  lemma ChosenIsWritable(cals: seq<Calendar>, sources: seq<Source>, account: int, invited: set<string>, o: Outcome)
    requires IsChoice(cals, sources, account, invited, o) && o.Chosen?
    ensures o.calendar in cals && o.calendar.canWrite
    ensures exists s :: s in sources && s.id == o.calendar.source
  {
  }

  /** When nothing stronger than a declared identity speaks for a calendar, the choice
      is refused as a tie exactly when two sources with writable calendars declare an
      invited address. */
  lemma TieIsRefused(cals: seq<Calendar>, sources: seq<Source>, account: int, invited: set<string>, o: Outcome)
    requires IsChoice(cals, sources, account, invited, o)
    requires Nobody(cals, sources, Delivering(account)) && Nobody(cals, sources, LogsInAs(invited))
    requires Nobody(cals, sources, Local())
    ensures o.Ambiguous? <==> exists s, t :: s != t && Candidate(cals, sources, Claims(invited), s)
                                             && Candidate(cals, sources, Claims(invited), t)
    ensures o.NoCalendar? <==> Nobody(cals, sources, Claims(invited))
  {
    hide Candidate, Claims, Delivering, LogsInAs, Local, TakenBy;
    var cs := Claimants(cals, sources, invited);
    ClaimantsAre(cals, sources, invited);
    if |cs| >= 2 {
      var s :| s in cs;
      assert |cs - {s}| > 0;
      var t :| t in cs - {s};
    } else if |cs| == 1 {
      var s :| s in cs;
      assert |cs - {s}| == 0;
      forall t | t in cs ensures t == s { assert t !in cs - {s}; }
    }
  }

  lemma ClaimantsAre(cals: seq<Calendar>, sources: seq<Source>, invited: set<string>)
    ensures forall s :: s in Claimants(cals, sources, invited) <==> Candidate(cals, sources, Claims(invited), s)
  {
  }

  // -------------------------------------------------------------------- sorting

  /** sort.Slice by ascending id. */
  function Insert<T>(x: T, s: seq<T>, id: T -> int): seq<T> {
    if s == [] || id(x) <= id(s[0]) then [x] + s else [s[0]] + Insert(x, s[1..], id)
  }

  function SortedBy<T>(s: seq<T>, id: T -> int): seq<T> {
    if s == [] then [] else Insert(s[0], SortedBy(s[1..], id), id)
  }

  predicate InOrder<T>(s: seq<T>, id: T -> int) {
    forall i, j :: 0 <= i < j < |s| ==> id(s[i]) <= id(s[j])
  }

  lemma {:induction false} InsertAdds<T>(x: T, s: seq<T>, id: T -> int)
    ensures multiset(Insert(x, s, id)) == multiset(s) + multiset{x}
    decreases |s|
  {
    if s != [] && id(x) > id(s[0]) {
      InsertAdds(x, s[1..], id);
      assert s == [s[0]] + s[1..];
    }
  }

  lemma {:induction false} InsertKeepsOrder<T>(x: T, s: seq<T>, id: T -> int)
    requires InOrder(s, id)
    ensures InOrder(Insert(x, s, id), id)
    decreases |s|
  {
    if s != [] && id(x) > id(s[0]) {
      var rest := s[1..];
      assert forall i :: 0 <= i < |rest| ==> rest[i] == s[i + 1];
      InsertKeepsOrder(x, rest, id);
      InsertAdds(x, rest, id);
      Prepend(s[0], Insert(x, rest, id), x, rest, id);
    }
  }

  lemma Prepend<T>(first: T, t: seq<T>, x: T, rest: seq<T>, id: T -> int)
    requires InOrder(t, id) && multiset(t) == multiset(rest) + multiset{x}
    requires id(first) <= id(x) && forall i :: 0 <= i < |rest| ==> id(first) <= id(rest[i])
    ensures InOrder([first] + t, id)
  {
    forall i | 0 <= i < |t| ensures id(first) <= id(t[i]) {
      assert t[i] in multiset(t);
      if t[i] != x { assert t[i] in multiset(rest); }
    }
  }

  lemma {:induction false} SortingSorts<T>(s: seq<T>, id: T -> int)
    ensures InOrder(SortedBy(s, id), id) && multiset(SortedBy(s, id)) == multiset(s)
    decreases |s|
  {
    hide InOrder, Insert;
    if s == [] {
      NothingToSort<T>([], id);
    } else {
      SortingSorts(s[1..], id);
      InsertKeepsOrder(s[0], SortedBy(s[1..], id), id);
      InsertAdds(s[0], SortedBy(s[1..], id), id);
      assert s == [s[0]] + s[1..];
    }
  }

  lemma NothingToSort<T>(s: seq<T>, id: T -> int)
    requires s == []
    ensures InOrder(s, id)
  {
  }

  lemma SameMembers<T>(a: seq<T>, b: seq<T>)
    requires multiset(a) == multiset(b)
    ensures forall x :: x in a <==> x in b
  {
    assert forall x :: x in a <==> x in multiset(a);
    assert forall x :: x in b <==> x in multiset(b);
  }

  function CalendarId(): Calendar -> int {
    (c: Calendar) => c.id
  }

  function SourceId(): Source -> int {
    (s: Source) => s.id
  }

  // ------------------------------------------------------------------- the method

  /** The calendars by source: exactly the writable ones, no empty list. */
  ghost predicate Grouped(cals: seq<Calendar>, m: map<int, seq<Calendar>>) {
    && (forall id, c :: id in m ==> (c in m[id] <==> CanTake(cals, c, id)))
    && (forall id :: id in m ==> m[id] != [])
    && forall c, id :: CanTake(cals, c, id) ==> id in m
  }

  predicate Ordered(m: map<int, seq<Calendar>>) {
    forall id :: id in m ==> InOrder(m[id], CalendarId())
  }

  function FirstOf(m: map<int, seq<Calendar>>, source: int): Option<Calendar> {
    if source in m && |m[source]| > 0 then Some(m[source][0]) else None
  }

  lemma FirstIsOldest(cals: seq<Calendar>, m: map<int, seq<Calendar>>, s: Source)
    requires Grouped(cals, m) && Ordered(m)
    ensures FirstOf(m, s.id).Some? <==> Usable(cals, s)
    ensures FirstOf(m, s.id).Some? ==> IsFirst(cals, s.id, FirstOf(m, s.id).value)
  {
    if s.id in m {
      var list := m[s.id];
      assert list[0] in list;
      forall d | CanTake(cals, d, s.id) ensures list[0].id <= d.id {
        var i :| 0 <= i < |list| && list[i] == d;
        assert i > 0 ==> CalendarId()(list[0]) <= CalendarId()(list[i]);
      }
    }
  }

  method Group(cals: seq<Calendar>) returns (m: map<int, seq<Calendar>>)
    ensures Grouped(cals, m)
  {
    hide Grouped;
    m := map[];
    NoneGrouped(cals[..0]);
    for i := 0 to |cals|
      invariant Grouped(cals[..i], m)
    {
      var c := cals[i];
      OneGrouped(cals, i, m);
      if c.canWrite {
        m := m[c.source := (if c.source in m then m[c.source] else []) + [c]];
      }
    }
    assert cals[..|cals|] == cals;
  }

  lemma NoneGrouped(cals: seq<Calendar>)
    requires cals == []
    ensures Grouped(cals, map[])
  {
  }

  lemma OneGrouped(cals: seq<Calendar>, i: nat, m: map<int, seq<Calendar>>)
    requires i < |cals| && Grouped(cals[..i], m)
    ensures var c := cals[i];
            Grouped(cals[..i + 1],
                    if c.canWrite then m[c.source := (if c.source in m then m[c.source] else []) + [c]] else m)
  {
    var c, after := cals[i], cals[..i + 1];
    assert after == cals[..i] + [c];
    var n := if c.canWrite then m[c.source := (if c.source in m then m[c.source] else []) + [c]] else m;
    forall d: Calendar, id: int
      ensures CanTake(after, d, id) <==> CanTake(cals[..i], d, id) || (d == c && c.canWrite && c.source == id)
    {
      assert d in after <==> d in cals[..i] || d == c;
    }
    hide CanTake;
    forall id, d | id in n ensures d in n[id] <==> CanTake(after, d, id) {
      if c.canWrite && id == c.source {
        var was := if id in m then m[id] else [];
        assert n[id] == was + [c];
        assert d in n[id] <==> d in was || d == c;
        assert d in was <==> CanTake(cals[..i], d, id);
      } else {
        assert n[id] == m[id];
      }
    }
    forall d: Calendar, id: int ensures CanTake(after, d, id) ==> id in n {
      if CanTake(cals[..i], d, id) { assert id in m; }
    }
  }

  method Order(cals: seq<Calendar>, groups: map<int, seq<Calendar>>) returns (m: map<int, seq<Calendar>>)
    requires Grouped(cals, groups)
    ensures Grouped(cals, m) && Ordered(m) && m.Keys == groups.Keys
  {
    hide CanTake, SortedBy, InOrder, CalendarId;
    m := map id | id in groups :: SortedBy(groups[id], CalendarId());
    forall id | id in m ensures InOrder(m[id], CalendarId()) && forall c :: c in m[id] <==> c in groups[id] {
      SortingSorts(groups[id], CalendarId());
      SameMembers(groups[id], m[id]);
    }
    forall id | id in m ensures m[id] != [] {
      assert groups[id][0] in m[id];
    }
  }

  /** One pass over the sources in id order. */
  method Scan(cals: seq<Calendar>, sources: seq<Source>, m: map<int, seq<Calendar>>, test: Source -> bool)
    returns (r: Option<Calendar>)
    requires Grouped(cals, m) && Ordered(m) && InOrder(sources, SourceId())
    ensures r == None ==> Nobody(cals, sources, test)
    ensures r.Some? ==> TakenBy(cals, sources, test, r.value)
  {
    hide Grouped, Ordered, Usable, IsFirst, InOrder;
    for i := 0 to |sources|
      invariant forall j :: 0 <= j < i ==> !(test(sources[j]) && Usable(cals, sources[j]))
    {
      var s := sources[i];
      FirstIsOldest(cals, m, s);
      if test(s) && FirstOf(m, s.id).Some? {
        Lowest(cals, sources, test, i);
        return FirstOf(m, s.id);
      }
    }
    return None;
  }

  lemma Lowest(cals: seq<Calendar>, sources: seq<Source>, test: Source -> bool, i: nat)
    requires InOrder(sources, SourceId()) && i < |sources| && test(sources[i]) && Usable(cals, sources[i])
    requires forall j :: 0 <= j < i ==> !(test(sources[j]) && Usable(cals, sources[j]))
    ensures Candidate(cals, sources, test, sources[i])
    ensures forall t :: Candidate(cals, sources, test, t) ==> sources[i].id <= t.id
  {
  }

  /** Every source that declares an invited address and has somewhere to write. */
  method Collect(cals: seq<Calendar>, sources: seq<Source>, m: map<int, seq<Calendar>>, invited: set<string>)
    returns (found: seq<Calendar>)
    requires Grouped(cals, m) && Ordered(m) && InOrder(sources, SourceId()) && DistinctSources(sources)
    ensures |found| == |Claimants(cals, sources, invited)|
    ensures |found| == 1 ==> TakenBy(cals, sources, Claims(invited), found[0])
  {
    hide Grouped, Ordered, Usable, IsFirst, InOrder, IsInvited, FirstOf, Candidate, DistinctSources, Claimants;
    found := [];
    ghost var who: seq<Source> := [];
    NobodyClaims(cals, sources[..0], invited);
    for i := 0 to |sources|
      invariant |who| == |found| == |Claimants(cals, sources[..i], invited)|
      invariant forall s :: s in who <==> s in Claimants(cals, sources[..i], invited)
      invariant forall k :: 0 <= k < |found| ==> IsFirst(cals, who[k].id, found[k])
    {
      var s := sources[i];
      FirstIsOldest(cals, m, s);
      OneClaims(cals, sources, i, invited);
      if IsInvited(s.identity, invited) && FirstOf(m, s.id).Some? {
        found := found + [FirstOf(m, s.id).value];
        who := who + [s];
      }
    }
    assert sources[..|sources|] == sources;
    if |found| == 1 { OnlyClaim(cals, sources, invited, who[0], found[0]); }
  }

  lemma NobodyClaims(cals: seq<Calendar>, sources: seq<Source>, invited: set<string>)
    requires sources == []
    ensures Claimants(cals, sources, invited) == {}
  {
  }

  lemma OneClaims(cals: seq<Calendar>, sources: seq<Source>, i: nat, invited: set<string>)
    requires DistinctSources(sources) && i < |sources|
    ensures var s := sources[i]; var before := Claimants(cals, sources[..i], invited);
            s !in before &&
            Claimants(cals, sources[..i + 1], invited) ==
            if IsInvited(s.identity, invited) && Usable(cals, s) then before + {s} else before
  {
  }

  lemma OnlyClaim(cals: seq<Calendar>, sources: seq<Source>, invited: set<string>, s: Source, c: Calendar)
    requires |Claimants(cals, sources, invited)| == 1 && s in Claimants(cals, sources, invited) && IsFirst(cals, s.id, c)
    ensures TakenBy(cals, sources, Claims(invited), c)
  {
    hide IsFirst, Usable;
    var cs := Claimants(cals, sources, invited);
    assert |cs - {s}| == 0;
    forall t | Candidate(cals, sources, Claims(invited), t) ensures s.id <= t.id {
      assert t in cs && t !in cs - {s};
    }
  }

  /** chooseInviteCalendar, which sorts its caller's slice of sources; here a sorted copy
      is used. */
  method ChooseInviteCalendar(cals: seq<Calendar>, sources: seq<Source>, account: int, invited: set<string>)
    returns (o: Outcome)
    requires DistinctSources(sources)
    ensures IsChoice(cals, sources, account, invited, o)
  {
    hide Grouped, Ordered, Candidate, TakenBy, InOrder, SortedBy, DistinctSources, CanTake;
    var m := Group(cals);
    if m == map[] {
      NothingToTake(cals, m, sources, account, invited);
      return NoCalendar;
    }
    m := Order(cals, m);
    var sorted := SortedBy(sources, SourceId());
    SortingSorts(sources, SourceId());
    SameMembers(sources, sorted);
    StillDistinct(sources, sorted);
    SortedChoice(cals, sources, sorted, account, invited);
    var r;
    if account != 0 {
      r := Scan(cals, sorted, m, Delivering(account));
      if r.Some? { Taken(cals, sorted, Delivering(account), r.value); return Chosen(r.value); }
    }
    assert Nobody(cals, sorted, Delivering(account)) by { if account == 0 { NobodyDelivers(cals, sorted); } }
    r := Scan(cals, sorted, m, LogsInAs(invited));
    if r.Some? { Taken(cals, sorted, LogsInAs(invited), r.value); return Chosen(r.value); }
    r := Scan(cals, sorted, m, Local());
    if r.Some? { Taken(cals, sorted, Local(), r.value); return Chosen(r.value); }
    var found := Collect(cals, sorted, m, invited);
    if |found| == 0 { return NoCalendar; }
    if |found| == 1 { return Chosen(found[0]); }
    return Ambiguous(|found|);
  }

  lemma Taken(cals: seq<Calendar>, sources: seq<Source>, test: Source -> bool, c: Calendar)
    requires TakenBy(cals, sources, test, c)
    ensures !Nobody(cals, sources, test)
  {
  }

  lemma NobodyDelivers(cals: seq<Calendar>, sources: seq<Source>)
    ensures Nobody(cals, sources, Delivering(0))
  {
  }

  lemma NothingToTake(cals: seq<Calendar>, m: map<int, seq<Calendar>>, sources: seq<Source>, account: int, invited: set<string>)
    requires Grouped(cals, m) && m == map[]
    ensures IsChoice(cals, sources, account, invited, NoCalendar)
  {
  }

  lemma StillDistinct(sources: seq<Source>, sorted: seq<Source>)
    requires DistinctSources(sources) && multiset(sources) == multiset(sorted)
    ensures DistinctSources(sorted)
  {
    forall i, j | 0 <= i < j < |sorted| ensures sorted[i].id != sorted[j].id {
      PairIn(sorted, i, j);
      PairOf(sources, sorted[i], sorted[j]);
    }
  }

  lemma PairIn(s: seq<Source>, i: nat, j: nat)
    requires i < j < |s|
    ensures multiset{s[i], s[j]} <= multiset(s)
  {
    assert s == s[..i] + [s[i]] + s[i + 1..j] + [s[j]] + s[j + 1..];
  }

  /** Two members of a list with distinct ids have distinct ids. */
  lemma PairOf(s: seq<Source>, a: Source, b: Source)
    requires DistinctSources(s) && multiset{a, b} <= multiset(s)
    ensures a.id != b.id
  {
    assert multiset{a, b}[a] >= 1;
    var i :| 0 <= i < |s| && s[i] == a;
    var rest := s[..i] + s[i + 1..];
    Others(s, i);
    OneLeft(multiset(s), multiset(rest), a, b);
    var k :| 0 <= k < |rest| && rest[k] == b;
    assert s[if k < i then k else k + 1] == b;
  }

  lemma Others(s: seq<Source>, i: nat)
    requires i < |s|
    ensures multiset(s) == multiset(s[..i] + s[i + 1..]) + multiset{s[i]}
  {
    assert s == s[..i] + [s[i]] + s[i + 1..];
  }

  lemma OneLeft(all: multiset<Source>, rest: multiset<Source>, a: Source, b: Source)
    requires multiset{a, b} <= all == rest + multiset{a}
    ensures b in rest
  {
  }

  lemma SortedChoice(cals: seq<Calendar>, sources: seq<Source>, sorted: seq<Source>, account: int, invited: set<string>)
    requires forall s :: s in sources <==> s in sorted
    ensures forall o :: IsChoice(cals, sources, account, invited, o) <==> IsChoice(cals, sorted, account, invited, o)
  {
    SameTest(cals, sources, cals, sorted, Delivering(account));
    SameTest(cals, sources, cals, sorted, LogsInAs(invited));
    SameTest(cals, sources, cals, sorted, Local());
    SameTest(cals, sources, cals, sorted, Claims(invited));
    hide Nobody, TakenBy, Candidate;
    assert Claimants(cals, sources, invited) == Claimants(cals, sorted, invited);
  }
}
