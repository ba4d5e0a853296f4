/** What the check answers, said on the DNS content: which text is the policy of a
    domain, what single mechanisms compare, and where errors come from. */
module SpfAnswers {
  import opened Wrappers
  import opened Strings
  import opened SpfText
  import opened SpfPolicy
  import opened SpfBudget
  import opened SpfTheorems
  import opened SpfLeaves
  import opened SpfReading

  // ------------------------------------------------------------- leading bits

  /** Bit i from the right. */
  function Bit(a: nat, i: nat): nat {
    a / Pow2(i) % 2
  }

  /** Two addresses of the given width agree in their leading n bits. */
  predicate SameLeading(width: nat, n: nat, a: nat, b: nat)
    requires n <= width
  {
    forall i: nat :: width - n <= i < width ==> Bit(a, i) == Bit(b, i)
  }

  lemma DivUnique(a: nat, p: nat, q: nat)
    requires p > 0 && q * p <= a < q * p + p
    ensures a / p == q
  {
    var r := a / p;
    assert a == r * p + a % p;
    if r < q { SmallerTimes(r, q, p); }
    if r > q { SmallerTimes(q, r, p); }
  }

  lemma SmallerTimes(x: nat, y: nat, p: nat)
    requires x < y
    ensures x * p + p <= y * p
  {
    var k := y - x - 1;
    assert k * p >= 0;
    assert (x + 1 + k) * p == x * p + p + k * p;
  }

  lemma HalfQuotient(a: nat, p: nat)
    requires p > 0
    ensures a / (2 * p) == a / p / 2
  {
    var q, r := a / p, a % p;
    var h, b := q / 2, q % 2;
    TwoParts(h, b, p);
    DivUnique(a, 2 * p, h);
  }

  lemma TwoParts(h: nat, b: nat, p: nat)
    requires b <= 1
    ensures (2 * h + b) * p == h * (2 * p) + (if b == 1 then p else 0)
  {
  }

  /** Halving once more. */
  lemma Halves(a: nat, k: nat)
    ensures a / Pow2(k + 1) == a / Pow2(k) / 2
    ensures a / Pow2(k) == 2 * (a / Pow2(k + 1)) + Bit(a, k)
  {
    HalfQuotient(a, Pow2(k));
  }

  lemma LeadingGrows(width: nat, n: nat, a: nat, b: nat)
    requires 0 < n <= width
    ensures SameLeading(width, n, a, b) <==>
            Bit(a, width - n) == Bit(b, width - n) && SameLeading(width, n - 1, a, b)
  {
    hide Bit;
  }

  lemma {:induction false} LeadingQuotients(width: nat, n: nat, a: nat, b: nat)
    requires n <= width && a < Pow2(width) && b < Pow2(width)
    ensures a / Pow2(width - n) == b / Pow2(width - n) <==> SameLeading(width, n, a, b)
    decreases n
  {
    hide Pow2, Bit, SameLeading;
    NoLeading(width, a, b);
    if n == 0 {
      DivUnique(a, Pow2(width), 0);
      DivUnique(b, Pow2(width), 0);
    } else {
      var k := width - n;
      LeadingQuotients(width, n - 1, a, b);
      Halves(a, k);
      Halves(b, k);
      BitIsSmall(a, k);
      BitIsSmall(b, k);
      LeadingGrows(width, n, a, b);
    }
  }

  lemma NoLeading(width: nat, a: nat, b: nat)
    ensures SameLeading(width, 0, a, b)
  {
  }

  lemma BitIsSmall(a: nat, i: nat)
    ensures Bit(a, i) <= 1
  {
  }

  lemma {:induction false} Powers()
    ensures Pow2(32) == 0x1_0000_0000
    ensures Pow2(128) == 0x1_0000_0000_0000_0000_0000_0000_0000_0000
  {
    hide Pow2;
    PowerOfSum(8, 8);
    PowerOfSum(16, 16);
    PowerOfSum(32, 32);
    PowerOfSum(64, 64);
    PowerOfEight();
  }

  lemma PowerOfEight()
    ensures Pow2(8) == 256
  {
    assert Pow2(1) == 2 && Pow2(2) == 4 && Pow2(3) == 8 && Pow2(4) == 16;
    assert Pow2(5) == 32 && Pow2(6) == 64 && Pow2(7) == 128;
  }

  lemma {:induction false} PowerOfSum(m: nat, n: nat)
    ensures Pow2(m + n) == Pow2(m) * Pow2(n)
    decreases m
  {
    if m > 0 {
      PowerOfSum(m - 1, n);
      assert Pow2(m + n) == 2 * Pow2(m - 1 + n);
      assert 2 * (Pow2(m - 1) * Pow2(n)) == (2 * Pow2(m - 1)) * Pow2(n);
    }
  }

  /** An address is in a prefix when both are of one family and agree in the leading
      bits. */
  lemma InPrefixIsLeadingBits(addr: Address, ip: Address, cidr4: Cidr4, cidr6: Cidr6)
    ensures InPrefix(addr, ip, cidr4, cidr6) <==>
            match (addr, ip)
            case (V4(a), V4(b)) => SameLeading(32, cidr4, a, b)
            case (V6(a), V6(b)) => SameLeading(128, cidr6, a, b)
            case _ => false
  {
    hide Pow2, SameLeading;
    Powers();
    match (addr, ip)
    case (V4(a), V4(b)) => LeadingQuotients(32, cidr4, a, b);
    case (V6(a), V6(b)) => LeadingQuotients(128, cidr6, a, b);
    case _ =>
  }

  // -------------------------------------------------------- single mechanisms

  /** The sender is of the family the mechanism names and agrees in the leading bits. */
  predicate Covered(v6: bool, addr: Address, n: nat, ip: Address)
    requires n <= if v6 then 128 else 32
  {
    match (addr, ip)
    case (V4(a), V4(b)) => !v6 && SameLeading(32, n, a, b)
    case (V6(a), V6(b)) => v6 && SameLeading(128, n, a, b)
    case _ => false
  }

  /** ip4 and ip6, without and with a prefix length. */
  lemma NetDecides(rd: Readers, v6: bool, addr: string, len: Option<Length>, ip: Address)
    requires '/' !in addr && (len.Some? ==> TypedLength(rd, len.value, if v6 then 128 else 32))
    ensures var n := if len.Some? then len.value.n else if v6 then 128 else 32;
            MatchIPNet(rd, addr + LengthPart("/", len), v6, ip) ==
            match rd.parseIP(addr)
            case None => Check.Broken(BadInput)
            case Some(a) =>
              if a.V6? != v6 then Check.Broken(BadInput) else if Covered(v6, a, n, ip) then Match else NoMatch
  {
    hide InPrefix, SameLeading;
    var spec := addr + LengthPart("/", len);
    SlashBehind(addr, LengthPart("/", len));
    assert spec[..|addr|] == addr;
    if len.Some? {
      assert spec[|addr| + 1..] == len.value.typed;
    }
    if rd.parseIP(addr).Some? {
      var n := if len.Some? then len.value.n else if v6 then 128 else 32;
      if v6 { InPrefixIsLeadingBits(rd.parseIP(addr).value, ip, 32, n); }
      else { InPrefixIsLeadingBits(rd.parseIP(addr).value, ip, n, 128); }
    }
  }

  /** The addresses of a host in the family of the sender. */
  function Addresses(w: World, host: string): Answer<Address> {
    w.ips(w.sender.V6?, host)
  }

  predicate AnyCovers(w: World, addrs: seq<Address>, cidr4: Cidr4, cidr6: Cidr6) {
    exists a :: a in addrs && InPrefix(a, w.sender, cidr4, cidr6)
  }

  /** a matches exactly when an address of the target is in the prefix, and is an error
      exactly when they cannot be looked up; exists matches exactly when there is an
      IPv4 address. */
  lemma LookupsDecide(w: World, target: string, cidr4: Cidr4, cidr6: Cidr6)
    ensures RunLeaf(w, HostA(target, cidr4, cidr6)).check ==
            if Addresses(w, target).Failed? then Check.Broken(Unreachable)
            else if AnyCovers(w, AddressesOf(Addresses(w, target)), cidr4, cidr6) then Match else NoMatch
    ensures RunLeaf(w, Exists(target)).check ==
            if w.ips(false, target).Failed? then Check.Broken(Unreachable)
            else if AddressesOf(w.ips(false, target)) != [] then Match else NoMatch
  {
    hide InPrefix;
  }

  /** mx with at most ten hosts is decided by the first that hits or fails; with more it
      is an error, and without any it does not match. */
  lemma MxDecides(w: World, target: string, cidr4: Cidr4, cidr6: Cidr6)
    ensures var c := RunLeaf(w, HostMX(target, cidr4, cidr6)).check; var answer := w.mx(target);
            var hosts := if answer.Found? then answer.records else [];
            && (answer.Failed? ==> c == Check.Broken(Unreachable))
            && (|hosts| > 10 ==> c == Check.Broken(BadInput))
            && (!answer.Failed? && |hosts| <= 10 ==>
                  && (c == Match <==> exists k :: FirstAt(w, hosts, k, cidr4, cidr6) && HostHits(w, hosts[k], cidr4, cidr6))
                  && (c == Check.Broken(Unreachable) <==>
                        exists k :: FirstAt(w, hosts, k, cidr4, cidr6) && HostFails(w, hosts[k]))
                  && (c == Match || c == NoMatch || c == Check.Broken(Unreachable)))
  {
    hide HostHits, HostFails, RunMailHosts;
    var hosts := if w.mx(target).Found? then w.mx(target).records else [];
    MailHostsDecide(w, hosts, cidr4, cidr6);
    MailHostsPlain(w, hosts, cidr4, cidr6);
  }

  /** The target itself or a name below it. */
  ghost predicate IsUnder(name: string, target: string) {
    name == target || exists p :: name == p + ("." + target)
  }

  lemma UnderMeans(name: string, target: string)
    ensures NameUnder(name, target) <==> IsUnder(name, target)
  {
    var t := "." + target;
    if HasSuffix(name, t) { assert name == name[..|name| - |t|] + t; }
    if p :| name == p + t { assert name[|name| - |t|..] == t; }
  }

  /** ptr matches exactly when one of the first ten reverse names of the sender is the target
      or below it and leads back to the sender; it is never an error. */
  lemma PtrExactly(w: World, target: string)
    ensures var c := RunLeaf(w, Ptr(target)).check;
            var names := if w.names(w.sender).Found? then w.names(w.sender).records else [];
            c == (if exists k :: 0 <= k < |names| && k < 10 && IsUnder(NormalizeDomain(names[k]), target) &&
                              w.sender in AddressesOf(Addresses(w, NormalizeDomain(names[k])))
                  then Match else NoMatch)
  {
    hide NameUnder, IsUnder, NormalizeDomain, RunNames;
    PtrDecides(w, target);
    forall name ensures NameUnder(name, target) <==> IsUnder(name, target) { UnderMeans(name, target); }
    var names := if w.names(w.sender).Found? then w.names(w.sender).records else [];
    var first := FirstNames(names);
    assert forall k :: 0 <= k < |first| ==> first[k] == names[k];
    if k :| 0 <= k < |first| && Confirms(w, first[k], target) {
      assert k < 10 && IsUnder(NormalizeDomain(names[k]), target);
    }
    if k :| 0 <= k < |names| && k < 10 && IsUnder(NormalizeDomain(names[k]), target) &&
            w.sender in AddressesOf(Addresses(w, NormalizeDomain(names[k]))) {
      assert Confirms(w, first[k], target);
    }
  }

  /** A lookup answered without records. */
  predicate Empty<T>(a: Answer<T>) {
    a.NotFound? || (a.Found? && a.records == [])
  }

  /** Every mechanism but all, ip4 and ip6 counts one term; a void lookup is counted when
      the addresses of a or exists, or the hosts of mx, come back empty, and for nothing
      else. */
  lemma CountsAre(w: World, m: Mechanism)
    requires !m.Include?
    ensures Count(Term, RunLeaf(w, m).events) == if m.All? || m.IpNet? || m == Malformed(false) then 0 else 1
    ensures Count(Void, RunLeaf(w, m).events) ==
            if (m.HostA? && Empty(Addresses(w, m.target))) || (m.Exists? && Empty(w.ips(false, m.target))) ||
               (m.HostMX? && Empty(w.mx(m.target))) then 1 else 0
  {
    hide MatchIPNet, AnyInPrefix, RunMailHosts, RunNames;
    FewEvents();
    match m
    case HostMX(t, c4, c6) =>
      if w.mx(t).Found? {
        MailHostsPlain(w, w.mx(t).records, c4, c6);
        AfterQuery(RunMailHosts(w, w.mx(t).records, c4, c6).events);
      }
    case Ptr(t) =>
      if w.names(w.sender).Found? {
        var names := FirstNames(w.names(w.sender).records);
        NamesPlain(w, names, t);
        AfterQuery(RunNames(w, names, t).events);
      }
    case _ =>
  }

  lemma FewEvents()
    ensures forall e :: Count(e, []) == 0
    ensures forall e :: Count(e, [Term]) == if e.Term? then 1 else 0
    ensures forall e :: Count(e, [Term] + [Query]) == if e.Void? then 0 else 1
    ensures forall e :: Count(e, [Term] + [Query, Void]) == 1
  {
    assert ([Term] + [Query])[1..] == [Query] && [Query][1..] == [];
    assert ([Term] + [Query, Void])[1..] == [Query, Void] && [Query, Void][1..] == [Void] && [Void][1..] == [];
  }

  lemma AfterQuery(es: seq<Event>)
    ensures Count(Term, [Term] + ([Query] + es)) == 1 + Count(Term, es)
    ensures Count(Void, [Term] + ([Query] + es)) == Count(Void, es)
  {
    assert ([Term] + ([Query] + es))[1..] == [Query] + es && ([Query] + es)[1..] == es;
  }

  // ---------------------------------------------------------- terms not in order

  predicate IsDirectiveName(name: string) {
    || Spells(name, "all") || Spells(name, "ip4") || Spells(name, "ip6") || Spells(name, "include")
    || Spells(name, "a") || Spells(name, "mx") || Spells(name, "ptr") || Spells(name, "exists")
  }

  /** A name that is none of the eight, an all with an argument, an address without a
      colon, a domain that is missing and a length out of range are errors; the last two
      after the term has been counted. */
  lemma FaultyTerms(rd: Readers, name: string, arg: string, d: string)
    requires ':' !in name && '/' !in name && (arg == "" || arg[0] in {':', '/'})
    ensures !IsDirectiveName(name) ==> ReadMechanism(rd, name + arg, d) == Malformed(false)
    ensures Spells(name, "all") && arg != "" ==> ReadMechanism(rd, name + arg, d) == Malformed(false)
    ensures (Spells(name, "ip4") || Spells(name, "ip6")) && !HasPrefix(arg, ":") ==>
              ReadMechanism(rd, name + arg, d) == Malformed(false)
    ensures (Spells(name, "include") || Spells(name, "exists")) && !(HasPrefix(arg, ":") && |arg| >= 2) ==>
              ReadMechanism(rd, name + arg, d) == Malformed(true)
    ensures (Spells(name, "a") || Spells(name, "mx")) && ParseDomainCidr(rd, arg, d) == None ==>
              ReadMechanism(rd, name + arg, d) == Malformed(true)
  {
    NameEnds(name, arg);
    var s := name + arg;
    assert s[..|name|] == name && s[|name|..] == arg;
    LowerNames(name);
    FaultyNamed(rd, ToLower(name), arg, d);
    hide Spells, ToLower, FirstOf, ReadNamed, ParseDomainCidr, HasPrefix;
  }

  lemma FaultyNamed(rd: Readers, name: string, arg: string, d: string)
    ensures name !in {"all", "ip4", "ip6", "include", "a", "mx", "ptr", "exists"} ==>
              ReadNamed(rd, name, arg, d) == Malformed(false)
    ensures name == "all" && arg != "" ==> ReadNamed(rd, name, arg, d) == Malformed(false)
    ensures name in {"ip4", "ip6"} && !HasPrefix(arg, ":") ==> ReadNamed(rd, name, arg, d) == Malformed(false)
    ensures name in {"include", "exists"} && !(HasPrefix(arg, ":") && |arg| >= 2) ==>
              ReadNamed(rd, name, arg, d) == Malformed(true)
    ensures name in {"a", "mx"} && ParseDomainCidr(rd, arg, d) == None ==> ReadNamed(rd, name, arg, d) == Malformed(true)
  {
    hide HasPrefix, NormalizeDomain, ParseDomainCidr;
  }

  lemma LowerNames(name: string)
    ensures Spells(name, "all") <==> ToLower(name) == "all"
    ensures Spells(name, "ip4") <==> ToLower(name) == "ip4"
    ensures Spells(name, "ip6") <==> ToLower(name) == "ip6"
    ensures Spells(name, "include") <==> ToLower(name) == "include"
    ensures Spells(name, "a") <==> ToLower(name) == "a"
    ensures Spells(name, "mx") <==> ToLower(name) == "mx"
    ensures Spells(name, "ptr") <==> ToLower(name) == "ptr"
    ensures Spells(name, "exists") <==> ToLower(name) == "exists"
  {
    hide Spells, ToLower;
    LowerSpells(name, "all");
    LowerSpells(name, "ip4");
    LowerSpells(name, "ip6");
    LowerSpells(name, "include");
    LowerSpells(name, "a");
    LowerSpells(name, "mx");
    LowerSpells(name, "ptr");
    LowerSpells(name, "exists");
  }

  /** A length out of range, or one that is no number, is an error of a and mx. */
  lemma LengthOutOfRange(rd: Readers, typed: string, six: bool, d: string)
    requires typed != "" && '/' !in typed
    requires rd.atoi(typed) == None || rd.atoi(typed).value < 0 || rd.atoi(typed).value > (if six then 128 else 32)
    ensures ParseDomainCidr(rd, (if six then "//" else "/") + typed, d) == None
  {
    hide DoubleSlash;
    DoubleSlashBehind(typed, "");
    DoubleSlashAt("", typed);
    assert "" + "//" + typed == "//" + typed;
    assert ("/" + typed)[..1 + |typed|] == "/" + typed && ("/" + typed)[1..] == typed;
    assert ("//" + typed)[2..] == typed;
  }

  // ------------------------------------------------------------ the policy text

  /** rs[k] is the only policy among the texts. */
  predicate OnlyPolicy(rs: seq<string>, k: int) {
    0 <= k < |rs| && forall i :: 0 <= i < |rs| ==> (IsPolicyText(rs[i]) <==> i == k)
  }

  predicate NoPolicyAmong(rs: seq<string>) {
    forall i :: 0 <= i < |rs| ==> !IsPolicyText(rs[i])
  }

  lemma {:induction false} PoliciesAre(rs: seq<string>)
    ensures PolicyTexts(rs) == [] <==> NoPolicyAmong(rs)
    ensures forall k :: OnlyPolicy(rs, k) ==> PolicyTexts(rs) == [rs[k]]
    ensures |PolicyTexts(rs)| == 1 ==> exists k :: OnlyPolicy(rs, k)
    decreases |rs|
  {
    hide IsPolicyText, OnlyPolicy, NoPolicyAmong;
    NothingIsPolicy();
    if rs != [] {
      var init, x := rs[..|rs| - 1], rs[|rs| - 1];
      PoliciesAre(init);
      assert rs == init + [x];
      forall k ensures OnlyPolicy(rs, k) ==> 0 <= k < |rs| && PolicyTexts(rs) == [rs[k]] {
        OnlySnoc(init, x, k);
      }
      OnlySnoc(init, x, |init|);
      if |PolicyTexts(rs)| == 1 && !IsPolicyText(x) {
        var k :| OnlyPolicy(init, k);
        OnlySnoc(init, x, k);
      }
    }
  }

  lemma NothingIsPolicy()
    ensures NoPolicyAmong([]) && forall k :: !OnlyPolicy([], k)
  {
  }

  lemma OnlySnoc(init: seq<string>, x: string, k: int)
    ensures NoPolicyAmong(init + [x]) <==> NoPolicyAmong(init) && !IsPolicyText(x)
    ensures OnlyPolicy(init + [x], k) <==>
            if IsPolicyText(x) then k == |init| && NoPolicyAmong(init) else OnlyPolicy(init, k)
    ensures OnlyPolicy(init + [x], k) ==> 0 <= k <= |init|
    ensures OnlyPolicy(init, k) ==> 0 <= k < |init|
  {
    hide IsPolicyText;
    var all := init + [x];
    assert all[|init|] == x && forall i :: 0 <= i < |init| ==> all[i] == init[i];
  }

  /** A domain has a policy exactly when one text of its TXT record is a policy, is
      without one when none is, and is in error otherwise. */
  lemma RecordIs(rs: seq<string>)
    ensures forall k :: OnlyPolicy(rs, k) ==> RecordOf(Found(rs)) == Policy(rs[k])
    ensures NoPolicyAmong(rs) <==> RecordOf(Found(rs)) == Absent
    ensures RecordOf(Found(rs)).Policy? ==> exists k :: OnlyPolicy(rs, k)
    ensures (exists i, j :: 0 <= i < j < |rs| && IsPolicyText(rs[i]) && IsPolicyText(rs[j])) ==>
              RecordOf(Found(rs)) == Unusable(BadInput)
  {
    hide IsPolicyText, PolicyTexts;
    PoliciesAre(rs);
  }

  // ---------------------------------------------------------------- whole checks

  /** An all decides by its sign, whatever else is around: "v=spf1 -all" fails. */
  lemma AllDecides(w: World, guarded: bool, d: string, version: string, sign: Sign, name: string)
    requires ValidDomain(d) && Spells(version, "v=spf1") && Spells(name, "all")
    requires w.txt(d) == Found([version + " " + SignText(sign) + name])
    ensures CheckHost(w, guarded, d) == GradeOf(sign)
  {
    hide Steps, Redirects, TermsOf, Spells, SignText, TextOf, IsPolicyText, ValidDomain, CheckHost;
    var text := version + " " + SignText(sign) + name;
    AllIsRead(w.readers, version, sign, name, d);
    OneStepDecides(w, guarded, d, text, Step(GradeOf(sign), All));
  }

  lemma AllIsRead(rd: Readers, version: string, sign: Sign, name: string, d: string)
    requires Spells(version, "v=spf1") && Spells(name, "all")
    ensures var text := version + " " + SignText(sign) + name;
            && IsPolicyText(text) && Redirects(TermsOf(text)) == []
            && Steps(rd, TermsOf(text), d) == [Step(GradeOf(sign), All)]
  {
    hide Steps, Redirects, TermsOf, Spells, IsPolicyText, StepsWritten, RedirectsWritten, SignText, GradeOf;
    var item := Item.Directive(sign, name, Everyone);
    OneTerm(rd, version, item, d);
    assert name + "" == name;
    assert TextOf(item) == SignText(sign) + name;
    assert version + " " + SignText(sign) + name == version + (" " + (SignText(sign) + name));
  }

  /** A record of one step that always matches. */
  lemma OneStepDecides(w: World, guarded: bool, d: string, text: string, step: Step)
    requires ValidDomain(d) && w.txt(d) == Found([text]) && IsPolicyText(text)
    requires Redirects(TermsOf(text)) == [] && Steps(w.readers, TermsOf(text), d) == [step] && step.mechanism == All
    ensures CheckHost(w, guarded, d) == step.grade
  {
    hide Steps, Redirects, TermsOf, RecordOf, IsPolicyText, ValidDomain, EvalSteps;
    TheOnlyText(text);
    OneMatch(w, guarded, UNUSED.(queries := 1), {d}, 1, [step]);
    OneMatch(w, guarded, UNUSED.(queries := 1), {} + {d}, 1, [step]);
  }

  lemma OneTerm(rd: Readers, version: string, item: Item, d: string)
    requires Spells(version, "v=spf1") && Typed(rd, item)
    ensures var text := version + (" " + TextOf(item));
            && IsPolicyText(text)
            && Steps(rd, TermsOf(text), d) == StepsWritten(rd, [item], d)
            && Redirects(TermsOf(text)) == RedirectsWritten([item])
    ensures item.Directive? ==>
              StepsWritten(rd, [item], d) == [Step(GradeOf(item.sign), MechanismOf(rd, item.what, d))] &&
              RedirectsWritten([item]) == []
  {
    hide Steps, Redirects, TermsOf, Spells, Typed, TextOf, IsPolicyText, MechanismOf;
    var items, gaps := [item], [" "];
    assert items[1..] == [] && gaps[1..] == [];
    assert Body([], []) == "";
    assert Body(items, gaps) + "" == " " + TextOf(item);
    RecordIsRead(rd, version, items, gaps, "", d);
  }

  lemma TheOnlyText(text: string)
    requires IsPolicyText(text)
    ensures RecordOf(Found([text])) == Policy(text)
  {
    hide IsPolicyText, RecordOf;
    assert OnlyPolicy([text], 0);
    RecordIs([text]);
  }

  lemma OneMatch(w: World, guarded: bool, u: Usage, path: set<string>, depth: nat, steps: seq<Step>)
    requires steps != [] && steps[0].mechanism == All
    ensures EvalSteps(w, guarded, u, path, depth, steps, []) == (u, Verdict(steps[0].grade))
  {
  }

  /** What the TXT record of the domain itself decides: none without a policy, a
      temporary error when it cannot be read, a permanent one for two policies, for two
      redirects and for a domain that cannot be queried. */
  lemma RecordDecides(w: World, guarded: bool, d: string)
    ensures !CanBeQueried(d) ==> CheckHost(w, guarded, d) == PermError
    ensures CanBeQueried(d) && w.txt(d).Failed? ==> CheckHost(w, guarded, d) == TempError
    ensures CanBeQueried(d) && w.txt(d).NotFound? ==> CheckHost(w, guarded, d) == NoPolicy
    ensures CanBeQueried(d) && w.txt(d).Found? && NoPolicyAmong(w.txt(d).records) ==>
              CheckHost(w, guarded, d) == NoPolicy
    ensures CanBeQueried(d) && w.txt(d).Found? && RecordOf(w.txt(d)) == Unusable(BadInput) ==>
              CheckHost(w, guarded, d) == PermError
    ensures CanBeQueried(d) && RecordOf(w.txt(d)).Policy? && |Redirects(TermsOf(RecordOf(w.txt(d)).text))| > 1 ==>
              CheckHost(w, guarded, d) == PermError
  {
    ValidMeans(d);
    if w.txt(d).Found? { RecordIs(w.txt(d).records); }
    hide ValidDomain, CanBeQueried, IsPolicyText, Redirects, TermsOf, PolicyTexts;
  }

  predicate CanBeQueried(d: string) {
    1 <= |d| <= 253 && forall i :: 0 <= i < |d| ==> d[i] !in {' ', '/', '%'}
  }

  lemma ValidMeans(d: string)
    ensures ValidDomain(d) <==> CanBeQueried(d)
  {
  }

  // ------------------------------------------------------------ temporary errors

  /** Every lookup is answered. */
  ghost predicate Answering(w: World) {
    && (forall d :: !w.txt(d).Failed?) && (forall v6, d :: !w.ips(v6, d).Failed?)
    && (forall d :: !w.mx(d).Failed?)
  }

  lemma {:induction false} HostsAnswer(w: World, hosts: seq<string>, cidr4: Cidr4, cidr6: Cidr6)
    requires Answering(w)
    ensures !RunMailHosts(w, hosts, cidr4, cidr6).check.Broken?
    decreases |hosts|
  {
    hide AnyInPrefix, NormalizeDomain;
    if hosts != [] { HostsAnswer(w, hosts[1..], cidr4, cidr6); }
  }

  lemma LeafAnswers(w: World, m: Mechanism)
    requires Answering(w) && !m.Include?
    ensures RunLeaf(w, m).check != Check.Broken(Unreachable)
  {
    hide AnyInPrefix, RunMailHosts, RunNames, InPrefix;
    match m
    case HostMX(t, c4, c6) => if w.mx(t).Found? { HostsAnswer(w, w.mx(t).records, c4, c6); }
    case Ptr(t) => if w.names(w.sender).Found? { NamesPlain(w, FirstNames(w.names(w.sender).records), t); }
    case _ =>
  }

  lemma {:induction false} RunAnswers(w: World, height: nat, d: string)
    requires Answering(w)
    ensures DomainRun(w, height, d).out != Outcome.Fault(Unreachable)
    decreases height, 1, 0
  {
    hide TermsOf, PolicyTexts, Steps, Redirects, RunLeaf, ValidDomain;
    if height > 0 {
      match RecordOf(w.txt(d))
      case Policy(text) =>
        var terms := TermsOf(text);
        if |Redirects(terms)| <= 1 { StepsAnswer(w, height - 1, Steps(w.readers, terms, d), Redirects(terms)); }
      case _ =>
    }
  }

  lemma {:induction false} StepsAnswer(w: World, height: nat, steps: seq<Step>, redirects: seq<string>)
    requires Answering(w) && |redirects| <= 1
    ensures StepsRun(w, height, steps, redirects).out != Outcome.Fault(Unreachable)
    decreases height, 2, |steps|
  {
    hide Answering, TermsOf, RecordOf, Steps, Redirects, RunLeaf, NormalizeDomain, DomainRun;
    if steps == [] {
      if redirects != [] { RunAnswers(w, height, NormalizeDomain(redirects[0])); }
    } else {
      var m := steps[0].mechanism;
      if m.Include? { RunAnswers(w, height, m.target); } else { LeafAnswers(w, m); }
      StepsAnswer(w, height, steps[1..], redirects);
    }
  }

  /** A temporary error comes from a lookup that failed and from nothing else. */
  lemma OnlyFailuresAreTemporary(w: World, guarded: bool, d: string)
    requires CheckHost(w, guarded, d) == TempError
    ensures !Answering(w)
  {
    hide DomainRun, Eval, Answering;
    CheckHostIsCutRun(w, guarded, MAX_DEPTH, d);
    SpendCounts(UNUSED, DomainRun(w, MAX_DEPTH, d).events);
    if Answering(w) { RunAnswers(w, MAX_DEPTH, d); ResultsAreProper(w, MAX_DEPTH, d); }
  }

  lemma {:induction false} ResultsAreProper(w: World, height: nat, d: string)
    ensures DomainRun(w, height, d).out != Verdict(TempError)
    decreases height, 1, 0
  {
    hide TermsOf, RecordOf, Steps, Redirects, RunLeaf, ValidDomain;
    if height > 0 {
      match RecordOf(w.txt(d))
      case Policy(text) =>
        var terms := TermsOf(text);
        GradesAreProper(w.readers, terms, d);
        if |Redirects(terms)| <= 1 { StepsAreProper(w, height - 1, Steps(w.readers, terms, d), Redirects(terms)); }
      case _ =>
    }
  }

  lemma {:induction false} GradesAreProper(rd: Readers, terms: seq<Word>, d: string)
    ensures forall s :: s in Steps(rd, terms, d) ==> s.grade != TempError
    decreases |terms|
  {
    hide ReadMechanism, IsModifier;
    if terms != [] { GradesAreProper(rd, terms[1..], d); }
  }

  lemma {:induction false} StepsAreProper(w: World, height: nat, steps: seq<Step>, redirects: seq<string>)
    requires |redirects| <= 1 && forall s :: s in steps ==> s.grade != TempError
    ensures StepsRun(w, height, steps, redirects).out != Verdict(TempError)
    decreases height, 2, |steps|
  {
    hide TermsOf, RecordOf, Steps, Redirects, RunLeaf, NormalizeDomain, DomainRun;
    if steps == [] {
      if redirects != [] { ResultsAreProper(w, height, NormalizeDomain(redirects[0])); }
    } else {
      StepsAreProper(w, height, steps[1..], redirects);
    }
  }
}
