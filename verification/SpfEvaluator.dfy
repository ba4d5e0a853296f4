/** The evaluator of internal/parser/spf.go, with its mutable counters, path and
    depth. Every method is proved against the functions of SpfBudget; all of
    them leave path and depth as they found them. */
module SpfEvaluator {
  import opened Wrappers
  import opened SpfText
  import opened SpfPolicy
  import opened SpfBudget

  class Evaluation {
    const w: World
    var lookups: nat
    var voids: nat
    var path: set<string>
    var depth: nat
    ghost var queries: nat

    constructor (w: World)
      ensures this.w == w && Use() == UNUSED && path == {} && depth == 0
    {
      this.w := w;
      lookups, voids, path, depth := 0, 0, {}, 0;
      queries := 0;
    }

    ghost function Use(): Usage
      reads this
    {
      Usage(lookups, voids, queries)
    }

    method CountLookup() returns (fault: Option<Fault>)
      modifies this`lookups
      ensures Use() == Charge(old(Use()), Term).use
      ensures fault == if Charge(old(Use()), Term).Over? then Some(LookupLimit) else None
    {
      lookups := lookups + 1;
      fault := if lookups > MAX_LOOKUPS then Some(LookupLimit) else None;
    }

    method CountVoid() returns (fault: Option<Fault>)
      modifies this`voids
      ensures Use() == Charge(old(Use()), Void).use
      ensures fault == if Charge(old(Use()), Void).Over? then Some(VoidLimit) else None
    {
      voids := voids + 1;
      fault := if voids > MAX_VOIDS then Some(VoidLimit) else None;
    }

    /** fetchRecord. */
    method FetchRecord(domain: string) returns (r: Record)
      modifies this`queries
      ensures queries == old(queries) + 1 && r == RecordOf(w.txt(domain))
    {
      queries := queries + 1;
      match w.txt(domain)
      case Failed => return Unusable(Unreachable);
      case NotFound => return Absent;
      case Found(records) =>
        var found := [];
        for i := 0 to |records|
          invariant found == PolicyTexts(records[..i])
        {
          assert records[..i + 1][..i] == records[..i];
          if IsPolicyText(records[i]) {
            found := found + [records[i]];
          }
        }
        assert records[..|records|] == records;
        if |found| == 0 { return Absent; }
        if |found| == 1 { return Policy(found[0]); }
        return Unusable(BadInput);
    }

    /** lookupIP. */
    method LookupIP(v6: bool, host: string) returns (addrs: seq<Address>, fault: Option<Fault>)
      modifies this`voids, this`queries
      ensures addrs == AddressesOf(w.ips(v6, host))
      ensures var (u, check) := SpendLeaf(old(Use()), Resolve(w, v6, host));
              Use() == u &&
              fault == (if check.Broken? then Some(check.fault) else None) &&
              (check.Match? ==> addrs != []) && (check.NoMatch? ==> addrs == [])
    {
      queries := queries + 1;
      var answer := w.ips(v6, host);
      addrs, fault := AddressesOf(answer), None;
      assert [Query][1..] == [] && [Query, Void][1..] == [Void] && [Void][1..] == [];
      if answer.Failed? {
        fault := Some(Unreachable);
      } else if addrs == [] {
        fault := CountVoid();
      }
    }

    method AnyAddressInPrefix(addrs: seq<Address>, cidr4: Cidr4, cidr6: Cidr6) returns (hit: bool)
      ensures hit == AnyInPrefix(addrs, w.sender, cidr4, cidr6)
    {
      for i := 0 to |addrs|
        invariant forall k :: 0 <= k < i ==> !InPrefix(addrs[k], w.sender, cidr4, cidr6)
      {
        if InPrefix(addrs[i], w.sender, cidr4, cidr6) {
          return true;
        }
      }
      return false;
    }

    method IsSender(addrs: seq<Address>) returns (hit: bool)
      ensures hit == (w.sender in addrs)
    {
      for i := 0 to |addrs|
        invariant w.sender !in addrs[..i]
      {
        if addrs[i] == w.sender { return true; }
      }
      return false;
    }

    method MatchHostIP(host: string, cidr4: Cidr4, cidr6: Cidr6) returns (check: Check)
      modifies this`voids, this`queries
      ensures (Use(), check) == SpendLeaf(old(Use()), RunHostA(w, host, cidr4, cidr6))
    {
      var addrs, fault := LookupIP(w.sender.V6?, host);
      if fault.Some? { return Broken(fault.value); }
      var hit := AnyAddressInPrefix(addrs, cidr4, cidr6);
      check := if hit then Match else NoMatch;
    }

    method MatchMX(domain: string, cidr4: Cidr4, cidr6: Cidr6) returns (check: Check)
      modifies this`voids, this`queries
      ensures (Use(), check) == SpendLeaf(old(Use()), RunHostMX(w, domain, cidr4, cidr6))
    {
      hide RunMailHosts;
      queries := queries + 1;
      var answer := w.mx(domain);
      QueryThen(old(Use()), [], NoMatch);
      QueryThen(old(Use()), [Void], NoMatch);
      VoidAlone(Use());
      if answer.Failed? { return Broken(Unreachable); }
      if answer.NotFound? || answer.records == [] {
        var fault := CountVoid();
        return if fault.Some? then Broken(fault.value) else NoMatch;
      }
      if |answer.records| > MAX_NAMES { return Broken(BadInput); }
      ghost var scan := RunMailHosts(w, answer.records, cidr4, cidr6);
      QueryThen(old(Use()), scan.events, scan.check);
      check := ScanMailHosts(answer.records, cidr4, cidr6);
    }

    /** The host loop of matchMX. */
    method ScanMailHosts(hosts: seq<string>, cidr4: Cidr4, cidr6: Cidr6) returns (check: Check)
      modifies this`queries
      ensures (Use(), check) == SpendLeaf(old(Use()), RunMailHosts(w, hosts, cidr4, cidr6))
    {
      hide NormalizeDomain, AnyInPrefix;
      assert hosts[0..] == hosts;
      for i := 0 to |hosts|
        invariant SpendLeaf(Use(), RunMailHosts(w, hosts[i..], cidr4, cidr6)) ==
                  SpendLeaf(old(Use()), RunMailHosts(w, hosts, cidr4, cidr6))
      {
        assert hosts[i..][0] == hosts[i] && hosts[i..][1..] == hosts[i + 1..];
        ghost var rest := RunMailHosts(w, hosts[i + 1..], cidr4, cidr6);
        QueryThen(Use(), rest.events, rest.check);
        QueryAlone(Use());
        queries := queries + 1;
        var found := w.ips(w.sender.V6?, NormalizeDomain(hosts[i]));
        if found.Failed? { return Broken(Unreachable); }
        var hit := AnyAddressInPrefix(AddressesOf(found), cidr4, cidr6);
        if hit { return Match; }
      }
      return NoMatch;
    }

    method MatchPTR(target: string) returns (check: Check)
      modifies this`queries
      ensures (Use(), check) == SpendLeaf(old(Use()), RunPtr(w, target))
    {
      hide NameUnder, NormalizeDomain;
      queries := queries + 1;
      var answer := w.names(w.sender);
      QueryAlone(old(Use()));
      if !answer.Found? || answer.records == [] {
        assert answer.Found? ==> FirstNames(answer.records) == [];
        assert [Query] + [] == [Query];
        return NoMatch;
      }
      var names := answer.records;
      if |names| > MAX_NAMES { names := names[..MAX_NAMES]; }
      ghost var scan := RunNames(w, names, target);
      QueryThen(old(Use()), scan.events, scan.check);
      check := ScanNames(names, target);
    }

    /** The name loop of matchPTR. */
    method ScanNames(names: seq<string>, target: string) returns (check: Check)
      modifies this`queries
      ensures (Use(), check) == SpendLeaf(old(Use()), RunNames(w, names, target))
    {
      hide NormalizeDomain, NameUnder;
      assert names[0..] == names;
      for i := 0 to |names|
        invariant SpendLeaf(Use(), RunNames(w, names[i..], target)) ==
                  SpendLeaf(old(Use()), RunNames(w, names, target))
      {
        assert names[i..][0] == names[i] && names[i..][1..] == names[i + 1..];
        ghost var rest := RunNames(w, names[i + 1..], target);
        QueryThen(Use(), rest.events, rest.check);
        QueryAlone(Use());
        var n := NormalizeDomain(names[i]);
        if NameUnder(n, target) {
          queries := queries + 1;
          var hit := IsSender(AddressesOf(w.ips(w.sender.V6?, n)));
          if hit { return Match; }
        }
      }
      return NoMatch;
    }

    /** checkMechanism, on a mechanism already read. */
    method CheckMechanism(m: Mechanism) returns (check: Check)
      modifies this
      ensures (Use(), check) == EvalMechanism(w, true, old(Use()), old(path), old(depth), m)
      ensures path == old(path) && depth == old(depth)
      decreases if depth < MAX_DEPTH then MAX_DEPTH - depth else 0, 2, 0
    {
      hide MatchIPNet, Resolve, RunHostA, RunHostMX, RunPtr, Eval;
      ghost var u := Use();
      ghost var t := Charge(u, Term);
      var counted := !(m.All? || m.IpNet? || m == Malformed(false));
      if counted {
        var fault := CountLookup();
        if !m.Include? {
          ghost var leaf := RunLeaf(w, m);
          assert leaf.events[0] == Term;
          assert Spend(u, leaf.events) == if t.Over? then t else Spend(t.use, leaf.events[1..]);
        }
        if fault.Some? { return Broken(fault.value); }
      }
      match m
      case All => check := Match;
      case IpNet(v6, spec) => check := MatchIPNet(w.readers, spec, v6, w.sender);
      case Malformed(_) => check := Broken(BadInput);
      case Macro => check := NoMatch;
      case Include(target) =>
        var out := EvalDomain(target);
        check := IncludeCheck(out);
      case HostA(target, cidr4, cidr6) =>
        check := MatchHostIP(target, cidr4, cidr6);
        assert RunLeaf(w, m).events[1..] == RunHostA(w, target, cidr4, cidr6).events;
      case HostMX(target, cidr4, cidr6) =>
        check := MatchMX(target, cidr4, cidr6);
        assert RunLeaf(w, m).events[1..] == RunHostMX(w, target, cidr4, cidr6).events;
      case Ptr(target) =>
        check := MatchPTR(target);
        assert RunLeaf(w, m).events[1..] == RunPtr(w, target).events;
      case Exists(target) =>
        var addrs, fault := LookupIP(false, target);
        check := if fault.Some? then Broken(fault.value) else if |addrs| > 0 then Match else NoMatch;
        assert RunLeaf(w, m).events[1..] == Resolve(w, false, target).events;
    }

    /** The first loop of evaluateRecord: the redirect modifier, or that there
        is more than one. */
    method FindRedirect(terms: seq<Word>) returns (redirect: Option<string>, duplicate: bool)
      ensures duplicate <==> |Redirects(terms)| > 1
      ensures !duplicate ==> Redirects(terms) == if redirect.Some? then [redirect.value] else []
    {
      redirect, duplicate := None, false;
      for i := 0 to |terms|
        invariant Redirects(terms[..i]) == if redirect.Some? then [redirect.value] else []
      {
        assert terms[..i + 1][..i] == terms[..i];
        if IsRedirect(terms[i]) {
          if redirect.Some? {
            RedirectsGrow(terms, i + 1);
            return redirect, true;
          }
          redirect := Some(SplitModifier(terms[i]).value.1);
        }
      }
      assert terms[..|terms|] == terms;
    }

    /** evaluateRecord. */
    method EvaluateRecord(terms: seq<Word>, domain: string) returns (out: Outcome)
      modifies this
      ensures (Use(), out) == EvalRecord(w, true, old(Use()), old(path), old(depth), terms, domain)
      ensures path == old(path) && depth == old(depth)
      decreases if depth < MAX_DEPTH then MAX_DEPTH - depth else 0, 3, 0
    {
      hide ReadStep, SplitModifier, EvalMechanism, NormalizeDomain, Redirects;
      var redirect, duplicate := FindRedirect(terms);
      if duplicate { return Fault(BadInput); }
      ghost var redirects := Redirects(terms);
      ghost var want := EvalRecord(w, true, old(Use()), old(path), old(depth), terms, domain);
      assert terms[0..] == terms;
      for i := 0 to |terms|
        invariant EvalSteps(w, true, Use(), path, depth, Steps(w.readers, terms[i..], domain), redirects) == want
        invariant path == old(path) && depth == old(depth)
      {
        assert terms[i..][0] == terms[i] && terms[i..][1..] == terms[i + 1..];
        if !IsModifier(terms[i]) {
          var step := ReadStep(w.readers, terms[i], domain);
          assert Steps(w.readers, terms[i..], domain)[1..] == Steps(w.readers, terms[i + 1..], domain);
          var check := CheckMechanism(step.mechanism);
          if check.Broken? { return Fault(check.fault); }
          if check.Match? { return Verdict(step.grade); }
        }
      }
      assert Steps(w.readers, terms[|terms|..], domain) == [];
      out := FollowRedirect(redirect);
    }

    /** The end of evaluateRecord, when no mechanism matched. */
    method FollowRedirect(redirect: Option<string>) returns (out: Outcome)
      modifies this
      ensures (Use(), out) == EvalRedirect(w, true, old(Use()), old(path), old(depth),
                                           if redirect.Some? then [redirect.value] else [])
      ensures path == old(path) && depth == old(depth)
      decreases if depth < MAX_DEPTH then MAX_DEPTH - depth else 0, 2, 0
    {
      if redirect.None? { return Verdict(Neutral); }
      var fault := CountLookup();
      if fault.Some? { return Fault(fault.value); }
      var target := NormalizeDomain(redirect.value);
      if Contains(target, '%') { return Fault(BadInput); }
      out := EvalDomain(target);
      out := RedirectOutcome(out);
    }

    /** evalDomain. */
    method EvalDomain(domain: string) returns (out: Outcome)
      modifies this
      ensures (Use(), out) == Eval(w, true, old(Use()), old(path), old(depth), domain)
      ensures path == old(path) && depth == old(depth)
      decreases if depth < MAX_DEPTH then MAX_DEPTH - depth else 0, 1, 0
    {
      hide EvalRecord, TermsOf, RecordOf;
      if !ValidDomain(domain) { return Fault(BadInput); }
      if depth >= MAX_DEPTH { return Fault(TooDeep); }
      if domain in path { return Fault(Loop); }
      path := path + {domain};
      depth := depth + 1;
      var record := FetchRecord(domain);
      match record {
        case Unusable(f) => out := Fault(f);
        case Absent => out := Verdict(NoPolicy);
        case Policy(text) => out := EvaluateRecord(TermsOf(text), domain);
      }
      path := path - {domain};
      depth := depth - 1;
    }
  }

  lemma QueryThen(u: Usage, rest: seq<Event>, check: Check)
    ensures SpendLeaf(u, Leaf([Query] + rest, check)) == SpendLeaf(u.(queries := u.queries + 1), Leaf(rest, check))
  {
  }

  lemma QueryAlone(u: Usage)
    ensures forall check :: SpendLeaf(u, Leaf([Query], check)) == (u.(queries := u.queries + 1), check)
  {
  }

  lemma VoidAlone(u: Usage)
    ensures Spend(u, [Void]) == Charge(u, Void)
    ensures [Query] + [] == [Query] && [Query] + [Void] == [Query, Void]
  {
  }

  lemma {:induction false} RedirectsGrow(terms: seq<Word>, n: nat)
    requires n <= |terms|
    ensures |Redirects(terms[..n])| <= |Redirects(terms)|
    decreases |terms|
  {
    if n == |terms| {
      assert terms[..n] == terms;
    } else {
      var last := |terms| - 1;
      RedirectsGrow(terms[..last], n);
      assert terms[..last][..n] == terms[..n];
    }
  }

  /** checkHost on a fresh evaluation. */
  method Check(w: World, domain: string) returns (r: AuthResult)
    ensures r == CheckHost(w, true, domain)
  {
    var ev := new Evaluation(w);
    var out := ev.EvalDomain(domain);
    r := ResultOf(out);
  }
}
