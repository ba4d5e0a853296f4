/** The budgeted evaluation refines the unlimited one. */
module SpfTheorems {
  import opened SpfText
  import opened SpfPolicy
  import opened SpfBudget

  // -------------------------------------------------- shape of unlimited runs

  /** What a run can fail with. */
  predicate PlainOutcome(out: Outcome) {
    out.Fault? ==> out.fault in {Unreachable, BadInput}
  }

  lemma {:induction false} MailHostsPlain(w: World, hosts: seq<string>, c4: Cidr4, c6: Cidr6)
    ensures var s := RunMailHosts(w, hosts, c4, c6);
            (s.check.Broken? ==> s.check.fault == Unreachable) &&
            Count(Term, s.events) == 0 && Count(Void, s.events) == 0 && Count(Query, s.events) <= |hosts|
    decreases |hosts|
  {
    if hosts != [] {
      MailHostsPlain(w, hosts[1..], c4, c6);
      CountConcat(Term, [Query], RunMailHosts(w, hosts[1..], c4, c6).events);
      CountConcat(Void, [Query], RunMailHosts(w, hosts[1..], c4, c6).events);
      CountConcat(Query, [Query], RunMailHosts(w, hosts[1..], c4, c6).events);
    }
  }

  lemma {:induction false} NamesPlain(w: World, names: seq<string>, target: string)
    ensures var s := RunNames(w, names, target);
            !s.check.Broken? &&
            Count(Term, s.events) == 0 && Count(Void, s.events) == 0 && Count(Query, s.events) <= |names|
    decreases |names|
  {
    if names != [] {
      NamesPlain(w, names[1..], target);
      var rest := RunNames(w, names[1..], target).events;
      CountConcat(Term, [Query], rest);
      CountConcat(Void, [Query], rest);
      CountConcat(Query, [Query], rest);
    }
  }

  /** A mechanism on its own counts at most one term, first, and makes at most
      eleven queries, none of them without a counted term. */
  lemma LeafPlain(w: World, m: Mechanism)
    requires !m.Include?
    ensures var l := RunLeaf(w, m);
            (l.check.Broken? ==> l.check.fault in {Unreachable, BadInput}) &&
            (l.events == [] || (l.events[0] == Term && Count(Term, l.events[1..]) == 0 &&
                                Count(Query, l.events[1..]) <= 1 + MAX_NAMES))
  {
    hide MatchIPNet, AnyInPrefix, RunMailHosts, RunNames;
    match m
    case HostA(t, c4, c6) => ResolvePlain(w, w.sender.V6?, t);
    case Exists(t) => ResolvePlain(w, false, t);
    case HostMX(t, c4, c6) =>
      QueryVoidPlain();
      if w.mx(t).Found? {
        var scan := RunMailHosts(w, w.mx(t).records, c4, c6).events;
        MailHostsPlain(w, w.mx(t).records, c4, c6);
        CountConcat(Term, [Query], scan);
        CountConcat(Query, [Query], scan);
      }
    case Ptr(t) =>
      QueryVoidPlain();
      if w.names(w.sender).Found? {
        var names := FirstNames(w.names(w.sender).records);
        var scan := RunNames(w, names, t).events;
        NamesPlain(w, names, t);
        CountConcat(Term, [Query], scan);
        CountConcat(Query, [Query], scan);
      }
    case _ => IpNetPlain(w, m);
  }

  lemma QueryVoidPlain()
    ensures Count(Term, [Query]) == Count(Term, [Query, Void]) == 0
    ensures Count(Query, [Query]) == Count(Query, [Query, Void]) == 1
  {
  }

  lemma ResolvePlain(w: World, v6: bool, host: string)
    ensures var l := Resolve(w, v6, host);
            (l.check.Broken? ==> l.check.fault == Unreachable) &&
            Count(Term, l.events) == 0 && Count(Query, l.events) == 1
  {
  }

  lemma IpNetPlain(w: World, m: Mechanism)
    ensures m.IpNet? ==> var c := MatchIPNet(w.readers, m.spec, m.v6, w.sender); c.Broken? ==> c.fault == BadInput
  {
  }

  // ------------------------------------------- the evaluation and its reference

  /** The run of one step, as StepsRun composes it. */
  function StepLeaf(w: World, height: nat, m: Mechanism): Leaf
    requires m.Include? ==> !DomainRun(w, height, m.target).out.Open?
  {
    if m.Include? then
      var sub := DomainRun(w, height, m.target);
      Leaf([Term] + sub.events, IncludeCheck(sub.out))
    else RunLeaf(w, m)
  }

  lemma {:induction false} DomainPlain(w: World, height: nat, d: string)
    ensures PlainOutcome(DomainRun(w, height, d).out)
    decreases height, 1, 0
  {
    hide TermsOf, Steps, Redirects, RunLeaf;
    if ValidDomain(d) && height > 0 && RecordOf(w.txt(d)).Policy? {
      var terms := TermsOf(RecordOf(w.txt(d)).text);
      if |Redirects(terms)| <= 1 {
        StepsPlain(w, height - 1, Steps(w.readers, terms, d), Redirects(terms));
      }
    }
  }

  lemma {:induction false} StepsPlain(w: World, height: nat, steps: seq<Step>, redirects: seq<string>)
    requires |redirects| <= 1
    ensures PlainOutcome(StepsRun(w, height, steps, redirects).out)
    decreases height, 2, |steps|
  {
    hide TermsOf, RecordOf, Steps, Redirects, RunLeaf;
    if steps == [] {
      if redirects != [] { DomainPlain(w, height, NormalizeDomain(redirects[0])); }
    } else {
      var m := steps[0].mechanism;
      if m.Include? { DomainPlain(w, height, m.target); } else { LeafPlain(w, m); }
      StepsPlain(w, height, steps[1..], redirects);
    }
  }

  /** An open run has counted a term for every domain it nests. */
  lemma {:induction false} OpenCosts(w: World, height: nat, d: string)
    requires DomainRun(w, height, d).out.Open?
    ensures Count(Term, DomainRun(w, height, d).events) >= height
    decreases height, 1, 0
  {
    hide TermsOf, RecordOf, Steps, Redirects, RunLeaf;
    if height > 0 {
      var terms := TermsOf(RecordOf(w.txt(d)).text);
      OpenStepsCost(w, height - 1, Steps(w.readers, terms, d), Redirects(terms));
      CountConcat(Term, [Query], RecordRun(w, height - 1, terms, d).events);
    }
  }

  lemma {:induction false} OpenStepsCost(w: World, height: nat, steps: seq<Step>, redirects: seq<string>)
    requires |redirects| <= 1 && StepsRun(w, height, steps, redirects).out.Open?
    ensures Count(Term, StepsRun(w, height, steps, redirects).events) >= height + 1
    decreases height, 2, |steps|
  {
    hide TermsOf, RecordOf, Steps, Redirects, RunLeaf;
    if steps == [] {
      var target := NormalizeDomain(redirects[0]);
      OpenCosts(w, height, target);
      CountConcat(Term, [Term], DomainRun(w, height, target).events);
    } else {
      var m := steps[0].mechanism;
      if m.Include? && DomainRun(w, height, m.target).out.Open? {
        OpenCosts(w, height, m.target);
        CountConcat(Term, [Term], DomainRun(w, height, m.target).events);
      } else {
        OpenStepsCost(w, height, steps[1..], redirects);
        CountConcat(Term, StepLeaf(w, height, m).events, StepsRun(w, height, steps[1..], redirects).events);
      }
    }
  }

  /** The outcome of the evaluation against that of the metered run. */
  predicate Agrees(guarded: bool, got: (Usage, Outcome), want: (Usage, Outcome)) {
    got == want || (guarded && got.1 == Fault(Loop))
  }

  /** With enough height to use up the lookup budget, the evaluation is the
      unlimited run cut at its budget, except that the loop check may fire. */
  lemma {:induction false} EvalIsCut(w: World, guarded: bool, u: Usage, path: set<string>, depth: nat,
                                     height: nat, d: string)
    requires u.terms <= MAX_LOOKUPS && depth <= u.terms && height + u.terms > MAX_LOOKUPS
    ensures Agrees(guarded, Eval(w, guarded, u, path, depth, d), Cut(u, DomainRun(w, height, d)))
    decreases height, 1, 0
  {
    hide TermsOf, RecordOf, Steps, Redirects, RunLeaf;
    if ValidDomain(d) && !(guarded && d in path) {
      QueryFirst(u);
      match RecordOf(w.txt(d)) {
        case Policy(text) =>
          var terms := TermsOf(text);
          var v := u.(queries := u.queries + 1);
          var rest := RecordRun(w, height - 1, terms, d);
          SpendConcat(u, [Query], rest.events);
          if |Redirects(terms)| <= 1 {
            StepsIsCut(w, guarded, v, path + {d}, depth + 1, height - 1,
                       Steps(w.readers, terms, d), Redirects(terms));
          }
        case _ =>
      }
    }
  }

  lemma QueryFirst(u: Usage)
    ensures Spend(u, [Query]) == Within(u.(queries := u.queries + 1))
  {
  }

  lemma {:induction false} StepsIsCut(w: World, guarded: bool, u: Usage, path: set<string>, depth: nat,
                                      height: nat, steps: seq<Step>, redirects: seq<string>)
    requires |redirects| <= 1
    requires u.terms <= MAX_LOOKUPS && depth <= u.terms + 1 && height + u.terms >= MAX_LOOKUPS
    ensures Agrees(guarded, EvalSteps(w, guarded, u, path, depth, steps, redirects),
                   Cut(u, StepsRun(w, height, steps, redirects)))
    decreases height, 2, |steps|
  {
    hide TermsOf, RecordOf, Steps, Redirects, RunLeaf, NormalizeDomain, Eval, DomainRun;
    var t := Charge(u, Term);
    if steps == [] {
      if redirects != [] {
        var target := NormalizeDomain(redirects[0]);
        if t.Within? {
          EvalIsCut(w, guarded, t.use, path, depth, height, target);
        }
        SpendConcat(u, [Term], DomainRun(w, height, target).events);
      }
    } else {
      var m := steps[0].mechanism;
      if m.Include? {
        if t.Within? {
          EvalIsCut(w, guarded, t.use, path, depth, height, m.target);
        }
        SpendConcat(u, [Term], DomainRun(w, height, m.target).events);
      }
      if !(m.Include? && DomainRun(w, height, m.target).out.Open?) {
        var head := StepLeaf(w, height, m);
        if Spend(u, head.events).Within? && head.check.NoMatch? {
          var v := Spend(u, head.events).use;
          SpendGrows(u, head.events);
          StepsIsCut(w, guarded, v, path, depth, height, steps[1..], redirects);
        }
        SpendConcat(u, head.events, StepsRun(w, height, steps[1..], redirects).events);
      }
    }
  }

  // ------------------------------------------------------------ the loop check

  /** A run that closed is the same at every greater height. */
  lemma {:induction false} ClosedIsStable(w: World, low: nat, high: nat, d: string)
    requires low <= high && !DomainRun(w, low, d).out.Open?
    ensures DomainRun(w, high, d) == DomainRun(w, low, d)
    decreases low, 1, 0
  {
    hide TermsOf, RecordOf, Steps, Redirects, RunLeaf;
    if ValidDomain(d) && RecordOf(w.txt(d)).Policy? {
      ClosedRecordStable(w, low - 1, high - 1, TermsOf(RecordOf(w.txt(d)).text), d);
    }
  }

  lemma {:induction false} ClosedRecordStable(w: World, low: nat, high: nat, terms: seq<Word>, d: string)
    requires low <= high && !RecordRun(w, low, terms, d).out.Open?
    ensures RecordRun(w, high, terms, d) == RecordRun(w, low, terms, d)
    decreases low, 3, 0
  {
    hide TermsOf, RecordOf, Steps, Redirects, RunLeaf;
    if |Redirects(terms)| <= 1 {
      ClosedStepsStable(w, low, high, Steps(w.readers, terms, d), Redirects(terms));
    }
  }

  lemma {:induction false} ClosedStepsStable(w: World, low: nat, high: nat, steps: seq<Step>, redirects: seq<string>)
    requires |redirects| <= 1 && low <= high && !StepsRun(w, low, steps, redirects).out.Open?
    ensures StepsRun(w, high, steps, redirects) == StepsRun(w, low, steps, redirects)
    decreases low, 2, |steps|
  {
    hide TermsOf, RecordOf, Steps, Redirects, RunLeaf;
    if steps == [] {
      if redirects != [] && !Contains(NormalizeDomain(redirects[0]), '%') {
        ClosedIsStable(w, low, high, NormalizeDomain(redirects[0]));
      }
    } else {
      var m := steps[0].mechanism;
      if m.Include? { ClosedIsStable(w, low, high, m.target); }
      if StepLeaf(w, low, m).check.NoMatch? {
        ClosedStepsStable(w, low, high, steps[1..], redirects);
      }
    }
  }

  lemma {:induction false} LeastHeight(w: World, height: nat, d: string) returns (least: nat)
    requires !DomainRun(w, height, d).out.Open?
    ensures least <= height && !DomainRun(w, least, d).out.Open?
    ensures least > 0 ==> DomainRun(w, least - 1, d).out.Open?
  {
    hide TermsOf, RecordOf, Steps, Redirects, RunLeaf;
    least := height;
    if height > 0 && !DomainRun(w, height - 1, d).out.Open? {
      least := LeastHeight(w, height - 1, d);
    }
  }

  /** Every domain of the set has an open run at this height. */
  predicate AllOpen(w: World, height: nat, path: set<string>) {
    forall p :: p in path ==> DomainRun(w, height, p).out.Open?
  }

  lemma {:induction false} OpenBelow(w: World, low: nat, high: nat, d: string)
    requires low <= high && DomainRun(w, high, d).out.Open?
    ensures DomainRun(w, low, d).out.Open?
  {
    hide TermsOf, RecordOf, Steps, Redirects, RunLeaf;
    if !DomainRun(w, low, d).out.Open? { ClosedIsStable(w, low, high, d); }
  }

  /** At the height below the least one that closes d, d and the open domains
      above it are all open. */
  lemma {:induction false} OpenBelowLeast(w: World, height: nat, path: set<string>, d: string) returns (least: nat)
    requires ValidDomain(d) && !DomainRun(w, height, d).out.Open? && AllOpen(w, height, path)
    ensures 0 < least <= height && DomainRun(w, least, d) == DomainRun(w, height, d)
    ensures d !in path && AllOpen(w, least - 1, path + {d})
  {
    hide TermsOf, RecordOf, Steps, Redirects, RunLeaf;
    least := LeastHeight(w, height, d);
    ClosedIsStable(w, least, height, d);
    if d in path { assert false; }
    forall p | p in path ensures DomainRun(w, least - 1, p).out.Open? {
      OpenBelow(w, least - 1, height, p);
    }
  }

  /** A run that closes never re-enters a domain: each nested domain closes at a
      smaller height than the domains above it. So the loop check never fires. */
  lemma {:induction false} ClosedNeverLoops(w: World, u: Usage, path: set<string>, depth: nat, height: nat, d: string)
    requires u.terms <= MAX_LOOKUPS && depth <= u.terms
    requires !DomainRun(w, height, d).out.Open? && AllOpen(w, height, path)
    ensures Eval(w, true, u, path, depth, d) == Cut(u, DomainRun(w, height, d))
    decreases height, 1, 0
  {
    hide TermsOf, RecordOf, Steps, Redirects, RunLeaf;
    if ValidDomain(d) {
      var least := OpenBelowLeast(w, height, path, d);
      QueryFirst(u);
      match RecordOf(w.txt(d)) {
        case Policy(text) =>
          var terms := TermsOf(text);
          var rest := RecordRun(w, least - 1, terms, d);
          assert DomainRun(w, least, d) == Run([Query] + rest.events, rest.out);
          SpendConcat(u, [Query], rest.events);
          ClosedRecordNeverLoops(w, u.(queries := u.queries + 1), path + {d}, depth + 1, least - 1, terms, d);
        case _ =>
      }
    }
  }

  lemma {:induction false} ClosedRecordNeverLoops(w: World, u: Usage, path: set<string>, depth: nat, height: nat,
                                                  terms: seq<Word>, d: string)
    requires u.terms <= MAX_LOOKUPS && depth <= u.terms + 1
    requires !RecordRun(w, height, terms, d).out.Open? && AllOpen(w, height, path)
    ensures EvalRecord(w, true, u, path, depth, terms, d) == Cut(u, RecordRun(w, height, terms, d))
    decreases height, 3, 0
  {
    hide TermsOf, RecordOf, Steps, Redirects, RunLeaf;
    if |Redirects(terms)| <= 1 {
      ClosedStepsNeverLoop(w, u, path, depth, height, Steps(w.readers, terms, d), Redirects(terms));
    }
  }

  lemma {:induction false} ClosedStepsNeverLoop(w: World, u: Usage, path: set<string>, depth: nat, height: nat,
                                                steps: seq<Step>, redirects: seq<string>)
    requires |redirects| <= 1
    requires u.terms <= MAX_LOOKUPS && depth <= u.terms + 1
    requires !StepsRun(w, height, steps, redirects).out.Open? && AllOpen(w, height, path)
    ensures EvalSteps(w, true, u, path, depth, steps, redirects) == Cut(u, StepsRun(w, height, steps, redirects))
    decreases height, 2, |steps|
  {
    hide TermsOf, RecordOf, Steps, Redirects, RunLeaf;
    var t := Charge(u, Term);
    if steps == [] {
      if redirects != [] {
        var target := NormalizeDomain(redirects[0]);
        if t.Within? && !Contains(target, '%') {
          ClosedNeverLoops(w, t.use, path, depth, height, target);
        }
        SpendConcat(u, [Term], DomainRun(w, height, target).events);
      }
    } else {
      var m := steps[0].mechanism;
      if m.Include? {
        if t.Within? { ClosedNeverLoops(w, t.use, path, depth, height, m.target); }
        SpendConcat(u, [Term], DomainRun(w, height, m.target).events);
      }
      var head := StepLeaf(w, height, m);
      if head.check.NoMatch? {
        if Spend(u, head.events).Within? {
          SpendGrows(u, head.events);
          ClosedStepsNeverLoop(w, Spend(u, head.events).use, path, depth, height, steps[1..], redirects);
        }
        SpendConcat(u, head.events, StepsRun(w, height, steps[1..], redirects).events);
      }
    }
  }

  // --------------------------------------------------------------- main results

  /** The evaluation returns what the unlimited run cut at the budget returns,
      with or without the loop check. */
  lemma CheckHostIsCutRun(w: World, guarded: bool, height: nat, d: string)
    requires height > MAX_LOOKUPS
    ensures CheckHost(w, guarded, d) == ResultOf(Cut(UNUSED, DomainRun(w, height, d)).1)
  {
    EvalIsCut(w, guarded, UNUSED, {}, 0, height, d);
    var run := DomainRun(w, height, d);
    if run.out.Open? {
      OpenCosts(w, height, d);
      SpendCounts(UNUSED, run.events);
    } else {
      ClosedNeverLoops(w, UNUSED, {}, 0, height, d);
    }
  }

  /** Deleting the loop check changes no result. */
  lemma LoopCheckIsRedundant(w: World, d: string)
    ensures CheckHost(w, true, d) == CheckHost(w, false, d)
  {
    CheckHostIsCutRun(w, true, MAX_DEPTH, d);
    CheckHostIsCutRun(w, false, MAX_DEPTH, d);
  }

  /** The nesting check never fires: the depth stays at most the lookups counted. */
  lemma NeverTooDeep(w: World, guarded: bool, u: Usage, path: set<string>, depth: nat, d: string)
    requires InBudget(u) && depth <= u.terms
    ensures Eval(w, guarded, u, path, depth, d).1 != Fault(TooDeep)
  {
    EvalIsCut(w, guarded, u, path, depth, MAX_DEPTH, d);
    DomainPlain(w, MAX_DEPTH, d);
    SpendCounts(u, DomainRun(w, MAX_DEPTH, d).events);
  }
}
