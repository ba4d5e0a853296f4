/** The evaluation as internal/parser/spf.go performs it: budgets shared by all
    nested evaluations, the set of domains on the current chain, and a nesting
    depth. `guarded` says whether the include/redirect loop check is made. */
module SpfBudget {
  import opened SpfText
  import opened SpfPolicy

  const MAX_LOOKUPS := 10
  const MAX_VOIDS := 2
  const MAX_DEPTH := MAX_LOOKUPS + 1

  datatype Usage = Usage(terms: nat, voids: nat, queries: nat)

  datatype Meter = Within(use: Usage) | Over(use: Usage, fault: Fault)

  const UNUSED := Usage(0, 0, 0)

  predicate InBudget(u: Usage) {
    u.terms <= MAX_LOOKUPS && u.voids <= MAX_VOIDS
  }

  function Charge(u: Usage, e: Event): Meter {
    match e
    case Query => Within(u.(queries := u.queries + 1))
    case Term =>
      var v := u.(terms := u.terms + 1);
      if v.terms > MAX_LOOKUPS then Over(v, LookupLimit) else Within(v)
    case Void =>
      var v := u.(voids := u.voids + 1);
      if v.voids > MAX_VOIDS then Over(v, VoidLimit) else Within(v)
  }

  /** Spends the events in order, stopping at the first that breaks a limit. */
  function Spend(u: Usage, es: seq<Event>): Meter
    decreases |es|
  {
    if es == [] then Within(u)
    else
      var m := Charge(u, es[0]);
      if m.Over? then m else Spend(m.use, es[1..])
  }

  function Count(e: Event, es: seq<Event>): nat {
    if es == [] then 0 else (if es[0] == e then 1 else 0) + Count(e, es[1..])
  }

  /** A run paid for from a budget: cut at the event that breaks a limit. */
  function Cut(u: Usage, run: Run): (Usage, Outcome) {
    match Spend(u, run.events)
    case Within(v) => (v, run.out)
    case Over(v, f) => (v, Fault(f))
  }

  /** evalDomain. */
  function Eval(w: World, guarded: bool, u: Usage, path: set<string>, depth: nat, d: string): (r: (Usage, Outcome))
    ensures !r.1.Open?
    decreases if depth < MAX_DEPTH then MAX_DEPTH - depth else 0, 1, 0
  {
    if !ValidDomain(d) then (u, Fault(BadInput))
    else if depth >= MAX_DEPTH then (u, Fault(TooDeep))
    else if guarded && d in path then (u, Fault(Loop))
    else
      var v := u.(queries := u.queries + 1);
      match RecordOf(w.txt(d))
      case Unusable(f) => (v, Fault(f))
      case Absent => (v, Verdict(NoPolicy))
      case Policy(text) => EvalRecord(w, guarded, v, path + {d}, depth + 1, TermsOf(text), d)
  }

  /** evaluateRecord. */
  function EvalRecord(w: World, guarded: bool, u: Usage, path: set<string>, depth: nat,
                      terms: seq<Word>, d: string): (r: (Usage, Outcome))
    ensures !r.1.Open?
    decreases if depth < MAX_DEPTH then MAX_DEPTH - depth else 0, 3, 0
  {
    var redirects := Redirects(terms);
    if |redirects| > 1 then (u, Fault(BadInput))
    else EvalSteps(w, guarded, u, path, depth, Steps(w.readers, terms, d), redirects)
  }

  /** The mechanism loop of evaluateRecord, then the redirect. */
  function EvalSteps(w: World, guarded: bool, u: Usage, path: set<string>, depth: nat,
                     steps: seq<Step>, redirects: seq<string>): (r: (Usage, Outcome))
    requires |redirects| <= 1
    ensures !r.1.Open?
    decreases if depth < MAX_DEPTH then MAX_DEPTH - depth else 0, 2, |steps| + 1
  {
    if steps == [] then EvalRedirect(w, guarded, u, path, depth, redirects)
    else
      var (v, check) := EvalMechanism(w, guarded, u, path, depth, steps[0].mechanism);
      match check
      case Broken(f) => (v, Fault(f))
      case Match => (v, Verdict(steps[0].grade))
      case NoMatch => EvalSteps(w, guarded, v, path, depth, steps[1..], redirects)
  }

  function EvalRedirect(w: World, guarded: bool, u: Usage, path: set<string>, depth: nat,
                        redirects: seq<string>): (r: (Usage, Outcome))
    requires |redirects| <= 1
    ensures !r.1.Open?
    decreases if depth < MAX_DEPTH then MAX_DEPTH - depth else 0, 2, 0
  {
    if redirects == [] then (u, Verdict(Neutral))
    else
      match Charge(u, Term)
      case Over(v, f) => (v, Fault(f))
      case Within(v) =>
        var target := NormalizeDomain(redirects[0]);
        if Contains(target, '%') then (v, Fault(BadInput))
        else
          var (x, out) := Eval(w, guarded, v, path, depth, target);
          (x, RedirectOutcome(out))
  }

  /** checkMechanism. */
  function EvalMechanism(w: World, guarded: bool, u: Usage, path: set<string>, depth: nat,
                         m: Mechanism): (Usage, Check)
    decreases if depth < MAX_DEPTH then MAX_DEPTH - depth else 0, 2, 0
  {
    if m.Include? then
      match Charge(u, Term)
      case Over(v, f) => (v, Broken(f))
      case Within(v) =>
        var (x, out) := Eval(w, guarded, v, path, depth, m.target);
        (x, IncludeCheck(out))
    else
      SpendLeaf(u, RunLeaf(w, m))
  }

  function SpendLeaf(u: Usage, leaf: Leaf): (Usage, Check) {
    match Spend(u, leaf.events)
    case Over(v, f) => (v, Broken(f))
    case Within(v) => (v, leaf.check)
  }

  /** checkHost: errors become results. */
  function ResultOf(out: Outcome): AuthResult {
    match out
    case Verdict(r) => r
    case Fault(f) => if f == Unreachable then TempError else PermError
    case Open => PermError
  }

  function CheckHost(w: World, guarded: bool, d: string): AuthResult {
    ResultOf(Eval(w, guarded, UNUSED, {}, 0, d).1)
  }

  // ------------------------------------------------------------- spending

  lemma {:induction false} SpendConcat(u: Usage, a: seq<Event>, b: seq<Event>)
    ensures Spend(u, a + b) == if Spend(u, a).Over? then Spend(u, a) else Spend(Spend(u, a).use, b)
    decreases |a|
  {
    if a == [] {
      assert a + b == b;
    } else {
      assert (a + b)[1..] == a[1..] + b;
      if Charge(u, a[0]).Within? {
        SpendConcat(Charge(u, a[0]).use, a[1..], b);
      }
    }
  }

  lemma {:induction false} CountConcat(e: Event, a: seq<Event>, b: seq<Event>)
    ensures Count(e, a + b) == Count(e, a) + Count(e, b)
    decreases |a|
  {
    if a == [] {
      assert a + b == b;
    } else {
      assert (a + b)[1..] == a[1..] + b;
      CountConcat(e, a[1..], b);
    }
  }

  /** A list of events can be paid for exactly when its terms and voids fit. */
  lemma {:induction false} SpendCounts(u: Usage, es: seq<Event>)
    requires InBudget(u)
    ensures Spend(u, es).Within? <==>
            u.terms + Count(Term, es) <= MAX_LOOKUPS && u.voids + Count(Void, es) <= MAX_VOIDS
    ensures Spend(u, es).Within? ==>
              Spend(u, es).use == Usage(u.terms + Count(Term, es), u.voids + Count(Void, es), u.queries + Count(Query, es))
    ensures Spend(u, es).Over? ==> Spend(u, es).fault in {LookupLimit, VoidLimit}
    decreases |es|
  {
    if es != [] {
      if Charge(u, es[0]).Within? {
        SpendCounts(Charge(u, es[0]).use, es[1..]);
      }
    }
  }

  /** Spending never lowers the count of terms, nor leaves it over the limit. */
  lemma {:induction false} SpendGrows(u: Usage, es: seq<Event>)
    requires u.terms <= MAX_LOOKUPS
    ensures Spend(u, es).use.terms >= u.terms
    ensures Spend(u, es).Within? ==> Spend(u, es).use.terms <= MAX_LOOKUPS
    decreases |es|
  {
    if es != [] && Charge(u, es[0]).Within? {
      SpendGrows(Charge(u, es[0]).use, es[1..]);
    }
  }
}
