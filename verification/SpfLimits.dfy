/** Resource bounds of one evaluation, and the position of modifiers. */
module SpfLimits {
  import opened Wrappers
  import opened SpfText
  import opened SpfPolicy
  import opened SpfBudget
  import opened SpfTheorems

  const QUERIES_PER_TERM := 1 + MAX_NAMES
  const MAX_QUERIES := 1 + MAX_LOOKUPS * QUERIES_PER_TERM

  function Counted(u: Usage): nat {
    if u.terms > MAX_LOOKUPS then MAX_LOOKUPS else u.terms
  }

  /** One query for the first record, eleven for every term let past the limit. */
  predicate Bounded(u: Usage) {
    u.queries <= 1 + QUERIES_PER_TERM * Counted(u)
  }

  /** A limit is broken by one at most, and only by the error that reports it. */
  predicate StoppedAtLimit(u: Usage, fault: Option<Fault>) {
    match fault
    case Some(LookupLimit) => u.terms == MAX_LOOKUPS + 1 && u.voids <= MAX_VOIDS
    case Some(VoidLimit) => u.voids == MAX_VOIDS + 1 && u.terms <= MAX_LOOKUPS
    case _ => InBudget(u)
  }

  function FaultOf(out: Outcome): Option<Fault> {
    if out.Fault? then Some(out.fault) else None
  }

  function FaultOfCheck(c: Check): Option<Fault> {
    if c.Broken? then Some(c.fault) else None
  }

  lemma {:induction false} SpendBounds(u: Usage, es: seq<Event>)
    requires InBudget(u) && Count(Term, es) == 0
    ensures var m := Spend(u, es);
            m.use.terms == u.terms && m.use.queries <= u.queries + Count(Query, es) &&
            StoppedAtLimit(m.use, if m.Over? then Some(m.fault) else None)
    decreases |es|
  {
    if es != [] && Charge(u, es[0]).Within? {
      SpendBounds(Charge(u, es[0]).use, es[1..]);
    }
  }

  lemma LeafBounds(w: World, u: Usage, m: Mechanism)
    requires !m.Include? && InBudget(u) && Bounded(u)
    ensures var (v, check) := SpendLeaf(u, RunLeaf(w, m));
            Bounded(v) && StoppedAtLimit(v, FaultOfCheck(check))
  {
    hide RunLeaf;
    LeafPlain(w, m);
    var es := RunLeaf(w, m).events;
    if es != [] {
      var t := Charge(u, Term);
      if t.Within? { SpendBounds(t.use, es[1..]); }
    }
  }

  lemma {:induction false} EvalBounds(w: World, guarded: bool, u: Usage, path: set<string>, depth: nat, d: string)
    requires InBudget(u) && u.queries <= QUERIES_PER_TERM * u.terms
    ensures var (v, out) := Eval(w, guarded, u, path, depth, d);
            Bounded(v) && StoppedAtLimit(v, FaultOf(out))
    decreases if depth < MAX_DEPTH then MAX_DEPTH - depth else 0, 1, 0
  {
    hide TermsOf, RecordOf, Steps, Redirects, RunLeaf;
    if ValidDomain(d) && depth < MAX_DEPTH && !(guarded && d in path) {
      RecordFaults(w.txt(d));
      if RecordOf(w.txt(d)).Policy? {
        RecordBounds(w, guarded, u.(queries := u.queries + 1), path + {d}, depth + 1,
                     TermsOf(RecordOf(w.txt(d)).text), d);
      }
    }
  }

  lemma RecordFaults(a: Answer<string>)
    ensures RecordOf(a).Unusable? ==> RecordOf(a).fault in {Unreachable, BadInput}
  {
  }

  lemma {:induction false} RecordBounds(w: World, guarded: bool, u: Usage, path: set<string>, depth: nat,
                                        terms: seq<Word>, d: string)
    requires InBudget(u) && Bounded(u)
    ensures var (v, out) := EvalRecord(w, guarded, u, path, depth, terms, d);
            Bounded(v) && StoppedAtLimit(v, FaultOf(out))
    decreases if depth < MAX_DEPTH then MAX_DEPTH - depth else 0, 3, 0
  {
    hide TermsOf, RecordOf, Steps, Redirects, RunLeaf;
    if |Redirects(terms)| <= 1 {
      StepsBounds(w, guarded, u, path, depth, Steps(w.readers, terms, d), Redirects(terms));
    }
  }

  lemma {:induction false} StepsBounds(w: World, guarded: bool, u: Usage, path: set<string>, depth: nat,
                                       steps: seq<Step>, redirects: seq<string>)
    requires |redirects| <= 1 && InBudget(u) && Bounded(u)
    ensures var (v, out) := EvalSteps(w, guarded, u, path, depth, steps, redirects);
            Bounded(v) && StoppedAtLimit(v, FaultOf(out))
    decreases if depth < MAX_DEPTH then MAX_DEPTH - depth else 0, 2, |steps| + 1
  {
    hide TermsOf, RecordOf, Steps, Redirects, RunLeaf;
    var t := Charge(u, Term);
    if steps == [] {
      if redirects != [] && t.Within? {
        EvalBounds(w, guarded, t.use, path, depth, NormalizeDomain(redirects[0]));
      }
    } else {
      var m := steps[0].mechanism;
      if m.Include? {
        if t.Within? { EvalBounds(w, guarded, t.use, path, depth, m.target); }
      } else {
        LeafBounds(w, u, m);
      }
      var (v, check) := EvalMechanism(w, guarded, u, path, depth, m);
      if check.NoMatch? {
        StepsBounds(w, guarded, v, path, depth, steps[1..], redirects);
      }
    }
  }

  /** One evaluation makes at most 111 queries, lets at most ten counted terms
      past the limit and breaks a limit at most once. */
  lemma EvaluationIsBounded(w: World, guarded: bool, d: string)
    ensures var (v, out) := Eval(w, guarded, UNUSED, {}, 0, d);
            v.queries <= MAX_QUERIES && StoppedAtLimit(v, FaultOf(out)) && MAX_QUERIES == 111
  {
    hide Eval;
    EvalBounds(w, guarded, UNUSED, {}, 0, d);
  }

  // ---------------------------------------------------------------- modifiers

  lemma {:induction false} StepsConcat(rd: Readers, a: seq<Word>, b: seq<Word>, d: string)
    ensures Steps(rd, a + b, d) == Steps(rd, a, d) + Steps(rd, b, d)
    decreases |a|
  {
    hide ReadStep, IsModifier;
    if a == [] {
      assert a + b == b;
    } else {
      assert (a + b)[1..] == a[1..] + b;
      StepsConcat(rd, a[1..], b, d);
    }
  }

  lemma {:induction false} RedirectsConcat(a: seq<Word>, b: seq<Word>)
    ensures Redirects(a + b) == Redirects(a) + Redirects(b)
    decreases |b|
  {
    hide IsRedirect, SplitModifier;
    if b == [] {
      assert a + b == a;
    } else {
      var last := |b| - 1;
      assert (a + b)[..|a| + last] == a + b[..last];
      RedirectsConcat(a, b[..last]);
    }
  }

  lemma {:induction false} StepsSkipModifier(rd: Readers, a: seq<Word>, x: Word, b: seq<Word>, d: string)
    requires IsModifier(x)
    ensures Steps(rd, a + [x] + b, d) == Steps(rd, a, d) + Steps(rd, b, d)
    decreases |a|
  {
    hide ReadStep, IsModifier;
    if a == [] {
      assert a + [x] + b == [x] + b;
      assert ([x] + b)[1..] == b;
    } else {
      assert (a + [x] + b)[1..] == a[1..] + [x] + b;
      StepsSkipModifier(rd, a[1..], x, b, d);
    }
  }

  /** A record has the same redirect, or too many of them, wherever x stands. */
  lemma {:induction false} RedirectMoves(a: seq<Word>, x: Word, b: seq<Word>)
    ensures var before, after := Redirects(a + [x] + b), Redirects([x] + a + b);
            before == after || (|before| > 1 && |after| > 1)
  {
    hide Redirects;
    var ra, rx, rb := Redirects(a), Redirects([x]), Redirects(b);
    RedirectsConcat(a + [x], b);
    RedirectsConcat(a, [x]);
    RedirectsConcat([x] + a, b);
    RedirectsConcat([x], a);
    if ra == [] {
      assert ra + rx + rb == rx + ra + rb;
    } else if rx == [] {
      assert ra + rx + rb == rx + ra + rb;
    }
  }

  lemma StepsNothing(rd: Readers, d: string)
    ensures Steps(rd, [], d) == []
  {
  }

  /** A modifier may stand anywhere in a record. */
  lemma {:induction false} ModifierMayMove(w: World, guarded: bool, u: Usage, path: set<string>, depth: nat,
                        a: seq<Word>, x: Word, b: seq<Word>, d: string)
    requires IsModifier(x)
    ensures EvalRecord(w, guarded, u, path, depth, a + [x] + b, d) ==
            EvalRecord(w, guarded, u, path, depth, [x] + a + b, d)
  {
    hide EvalSteps, Redirects, Steps, IsModifier;
    StepsSkipModifier(w.readers, a, x, b, d);
    StepsSkipModifier(w.readers, [], x, a + b, d);
    StepsConcat(w.readers, a, b, d);
    assert [] + [x] + (a + b) == [x] + a + b;
    StepsNothing(w.readers, d);
    assert [] + Steps(w.readers, a + b, d) == Steps(w.readers, a + b, d);
    assert Steps(w.readers, a + [x] + b, d) == Steps(w.readers, [x] + a + b, d);
    RedirectMoves(a, x, b);
  }
}
