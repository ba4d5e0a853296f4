/** Reference semantics of RFC 7208 check_host over a fixed DNS content, with no
    limit on lookups, no loop check and no depth check. An evaluation is a run:
    the ordered list of what it spends, and how it ends. The DNS graph may be
    cyclic, so a run is cut after a given number of nested domains. */
module SpfPolicy {
  import opened Wrappers
  import opened Strings
  import opened SpfText

  datatype AuthResult = Pass | Fail | SoftFail | Neutral | NoPolicy | PermError | TempError

  datatype Fault = Unreachable | BadInput | LookupLimit | VoidLimit | Loop | TooDeep

  datatype Answer<+T> = Found(records: seq<T>) | NotFound | Failed

  /** The DNS content, fixed for the whole evaluation, and the sender. */
  datatype World = World(
    txt: string -> Answer<string>,
    ips: (bool, string) -> Answer<Address>,
    mx: string -> Answer<string>,
    names: Address -> Answer<string>,
    readers: Readers,
    sender: Address)

  /** Term: a counted term; Void: a lookup without records; Query: a resolver call. */
  datatype Event = Term | Void | Query

  datatype Check = Match | NoMatch | Broken(fault: Fault)

  datatype Outcome = Verdict(result: AuthResult) | Fault(fault: Fault) | Open

  datatype Run = Run(events: seq<Event>, out: Outcome)

  datatype Leaf = Leaf(events: seq<Event>, check: Check)

  datatype Step = Step(grade: AuthResult, mechanism: Mechanism)

  datatype Record = Absent | Unusable(fault: Fault) | Policy(text: string)

  const MAX_NAMES := 10

  // ---------------------------------------------------------------- records

  predicate ValidDomain(d: string) {
    d != "" && |d| <= 253 && ' ' !in d && '/' !in d && '%' !in d
  }

  predicate IsPolicyText(r: string) {
    var lr := ToLower(r);
    lr == "v=spf1" || HasPrefix(lr, "v=spf1 ")
  }

  function PolicyTexts(records: seq<string>): (r: seq<string>)
    ensures forall x :: x in r ==> IsPolicyText(x)
  {
    if records == [] then []
    else
      var last := |records| - 1;
      PolicyTexts(records[..last]) + (if IsPolicyText(records[last]) then [records[last]] else [])
  }

  function RecordOf(a: Answer<string>): (r: Record)
    ensures r.Policy? ==> IsPolicyText(r.text)
  {
    match a
    case Failed => Unusable(Unreachable)
    case NotFound => Absent
    case Found(rs) =>
      var found := PolicyTexts(rs);
      if |found| == 0 then Absent else if |found| == 1 then Policy(found[0]) else Unusable(BadInput)
  }

  /** The terms after the version. */
  function TermsOf(text: string): seq<Word>
    requires IsPolicyText(text)
  {
    assert ToLower(text)[0] == LowerChar(text[0]);
    assert text[0] == 'v' || text[0] == 'V' by {
      assert ToLower(text)[..6] == "v=spf1";
      assert ToLower(text)[0] == 'v';
      LowerIsV(text[0]);
    }
    Fields(text)[1..]
  }

  lemma LowerIsV(c: char)
    requires LowerChar(c) == 'v'
    ensures c == 'v' || c == 'V'
  {
    if 'A' <= c <= 'Z' {
      assert c as int + 32 == 'v' as int;
    }
  }

  function Redirects(terms: seq<Word>): seq<string> {
    if terms == [] then []
    else
      var last := |terms| - 1;
      Redirects(terms[..last]) +
      (if IsRedirect(terms[last]) then [SplitModifier(terms[last]).value.1] else [])
  }

  function Steps(rd: Readers, terms: seq<Word>, domain: string): seq<Step>
  {
    if terms == [] then []
    else if IsModifier(terms[0]) then Steps(rd, terms[1..], domain)
    else [ReadStep(rd, terms[0], domain)] + Steps(rd, terms[1..], domain)
  }

  function ReadStep(rd: Readers, term: Word, domain: string): Step
  {
    var signed := term[0] in {'+', '-', '~', '?'};
    var grade := match term[0] case '-' => Fail case '~' => SoftFail case '?' => Neutral case _ => Pass;
    Step(grade, ReadMechanism(rd, if signed then term[1..] else term, domain))
  }

  // ------------------------------------------- mechanisms without recursion

  function Pow2(n: nat): (p: nat)
    ensures p > 0
  {
    if n == 0 then 1 else 2 * Pow2(n - 1)
  }

  predicate InPrefix(addr: Address, ip: Address, cidr4: Cidr4, cidr6: Cidr6) {
    match (addr, ip)
    case (V4(a), V4(b)) => a / Pow2(32 - cidr4) == b / Pow2(32 - cidr4)
    case (V6(a), V6(b)) => a / Pow2(128 - cidr6) == b / Pow2(128 - cidr6)
    case _ => false
  }

  function MatchIPNet(rd: Readers, spec: string, v6: bool, ip: Address): Check {
    var bits := if v6 then 128 else 32;
    var i := FirstOf(spec, {'/'});
    var prefix := if i < |spec| then InRange(rd.atoi(spec[i + 1..]), bits) else Some(bits);
    if prefix.None? then Broken(BadInput)
    else
      match rd.parseIP(spec[..i])
      case None => Broken(BadInput)
      case Some(addr) =>
        if addr.V4? == v6 then Broken(BadInput)
        else if v6 && InPrefix(addr, ip, 32, prefix.value) then Match
        else if !v6 && InPrefix(addr, ip, prefix.value, 128) then Match
        else NoMatch
  }

  function AddressesOf(a: Answer<Address>): seq<Address> {
    if a.Found? then a.records else []
  }

  predicate AnyInPrefix(addrs: seq<Address>, ip: Address, cidr4: Cidr4, cidr6: Cidr6) {
    exists a :: a in addrs && InPrefix(a, ip, cidr4, cidr6)
  }

  /** One address lookup whose empty answer is a void lookup. */
  function Resolve(w: World, v6: bool, host: string): Leaf {
    var answer := w.ips(v6, host);
    if answer.Failed? then Leaf([Query], Broken(Unreachable))
    else if AddressesOf(answer) == [] then Leaf([Query, Void], NoMatch)
    else Leaf([Query], Match)
  }

  function RunHostA(w: World, target: string, cidr4: Cidr4, cidr6: Cidr6): Leaf {
    var v6 := w.sender.V6?;
    var found := Resolve(w, v6, target);
    if found.check.Match? && !AnyInPrefix(AddressesOf(w.ips(v6, target)), w.sender, cidr4, cidr6)
    then Leaf(found.events, NoMatch)
    else found
  }

  /** The mail hosts in order: the first that is unreachable or has an address
      in the prefix decides. */
  function RunMailHosts(w: World, hosts: seq<string>, cidr4: Cidr4, cidr6: Cidr6): Leaf {
    if hosts == [] then Leaf([], NoMatch)
    else
      var answer := w.ips(w.sender.V6?, NormalizeDomain(hosts[0]));
      if answer.Failed? then Leaf([Query], Broken(Unreachable))
      else if AnyInPrefix(AddressesOf(answer), w.sender, cidr4, cidr6) then Leaf([Query], Match)
      else
        var rest := RunMailHosts(w, hosts[1..], cidr4, cidr6);
        Leaf([Query] + rest.events, rest.check)
  }

  function RunHostMX(w: World, target: string, cidr4: Cidr4, cidr6: Cidr6): Leaf {
    match w.mx(target)
    case Failed => Leaf([Query], Broken(Unreachable))
    case NotFound => Leaf([Query, Void], NoMatch)
    case Found(hosts) =>
      if hosts == [] then Leaf([Query, Void], NoMatch)
      else if |hosts| > MAX_NAMES then Leaf([Query], Broken(BadInput))
      else
        var scan := RunMailHosts(w, hosts, cidr4, cidr6);
        Leaf([Query] + scan.events, scan.check)
  }

  predicate NameUnder(name: string, target: string) {
    name == target || HasSuffix(name, "." + target)
  }

  /** The reverse names in order: a name under the target that resolves back to
      the sender matches; failed lookups are skipped. */
  function RunNames(w: World, names: seq<string>, target: string): Leaf {
    if names == [] then Leaf([], NoMatch)
    else
      var n := NormalizeDomain(names[0]);
      if !NameUnder(n, target) then RunNames(w, names[1..], target)
      else if w.sender in AddressesOf(w.ips(w.sender.V6?, n)) then Leaf([Query], Match)
      else
        var rest := RunNames(w, names[1..], target);
        Leaf([Query] + rest.events, rest.check)
  }

  function FirstNames(names: seq<string>): seq<string> {
    if |names| > MAX_NAMES then names[..MAX_NAMES] else names
  }

  function RunPtr(w: World, target: string): Leaf {
    match w.names(w.sender)
    case Found(names) =>
      var scan := RunNames(w, FirstNames(names), target);
      Leaf([Query] + scan.events, scan.check)
    case _ => Leaf([Query], NoMatch)
  }

  /** Every mechanism but include. */
  function RunLeaf(w: World, m: Mechanism): Leaf
    requires !m.Include?
  {
    match m
    case All => Leaf([], Match)
    case IpNet(v6, spec) => Leaf([], MatchIPNet(w.readers, spec, v6, w.sender))
    case Malformed(counted) => Leaf(if counted then [Term] else [], Broken(BadInput))
    case Macro => Leaf([Term], NoMatch)
    case HostA(t, c4, c6) => var l := RunHostA(w, t, c4, c6); Leaf([Term] + l.events, l.check)
    case HostMX(t, c4, c6) => var l := RunHostMX(w, t, c4, c6); Leaf([Term] + l.events, l.check)
    case Ptr(t) => var l := RunPtr(w, t); Leaf([Term] + l.events, l.check)
    case Exists(t) => var l := Resolve(w, false, t); Leaf([Term] + l.events, l.check)
  }

  // ------------------------------------------------------- nested evaluation

  /** What an include makes of the outcome of its target. */
  function IncludeCheck(out: Outcome): Check
    requires !out.Open?
  {
    match out
    case Fault(f) => Broken(f)
    case Verdict(r) =>
      if r == Pass then Match else if r == NoPolicy then Broken(BadInput) else NoMatch
  }

  /** What a redirect makes of the outcome of its target. */
  function RedirectOutcome(out: Outcome): Outcome {
    if out == Verdict(NoPolicy) then Fault(BadInput) else out
  }

  /** The run of check_host on d, open when it nests more than height domains. */
  function DomainRun(w: World, height: nat, d: string): Run
    decreases height, 1, 0
  {
    if !ValidDomain(d) then Run([], Fault(BadInput))
    else if height == 0 then Run([], Open)
    else
      match RecordOf(w.txt(d))
      case Unusable(f) => Run([Query], Fault(f))
      case Absent => Run([Query], Verdict(NoPolicy))
      case Policy(text) =>
        var rest := RecordRun(w, height - 1, TermsOf(text), d);
        Run([Query] + rest.events, rest.out)
  }

  function RecordRun(w: World, height: nat, terms: seq<Word>, d: string): Run
    decreases height, 3, 0
  {
    var redirects := Redirects(terms);
    if |redirects| > 1 then Run([], Fault(BadInput))
    else StepsRun(w, height, Steps(w.readers, terms, d), redirects)
  }

  function StepsRun(w: World, height: nat, steps: seq<Step>, redirects: seq<string>): Run
    requires |redirects| <= 1
    decreases height, 2, |steps|
  {
    if steps == [] then
      if redirects == [] then Run([], Verdict(Neutral))
      else
        var target := NormalizeDomain(redirects[0]);
        if Contains(target, '%') then Run([Term], Fault(BadInput))
        else
          var sub := DomainRun(w, height, target);
          Run([Term] + sub.events, RedirectOutcome(sub.out))
    else
      var m := steps[0].mechanism;
      if m.Include? && DomainRun(w, height, m.target).out.Open? then
        Run([Term] + DomainRun(w, height, m.target).events, Open)
      else
        var head := if m.Include? then
                      var sub := DomainRun(w, height, m.target);
                      Leaf([Term] + sub.events, IncludeCheck(sub.out))
                    else RunLeaf(w, m);
        match head.check
        case Broken(f) => Run(head.events, Fault(f))
        case Match => Run(head.events, Verdict(steps[0].grade))
        case NoMatch =>
          var rest := StepsRun(w, height, steps[1..], redirects);
          Run(head.events + rest.events, rest.out)
  }
}
