/** check_host as RFC 7208 states it (sections 4.6.2, 5.2 and 6.1): a relation
    between a domain and a result, with no limits, order of evaluation or state.
    Evidence is what the derivation spends. There are two readings. The strict one
    gives none for a malformed domain (section 4.3); a mechanism that cannot be read,
    wherever it stands, spoils its record (section 4.6), and so does a second exp
    (section 6); and as macros (section 7) are not expanded, nothing is derived past
    one. The lenient one is that of internal/parser/spf.go: any domain it would query
    will do, a term is looked at only when its turn comes, exp is ignored, and a
    mechanism with a macro does not match. The evaluation of SpfBudget returns a result
    that is not an error exactly when the lenient reading derives it within the limits
    of section 4.6.4, and for a domain in due form the strict one derives it too exactly
    when the evaluation overlooked none of these. Both count a void lookup where the
    code does. */
module SpfRfc {
  import opened Strings
  import opened SpfText
  import opened SpfPolicy
  import opened SpfBudget
  import opened SpfTheorems

  /** No term is a syntax error. */
  predicate WellFormed(w: World, steps: seq<Step>) {
    forall s :: s in steps ==>
      !s.mechanism.Malformed? &&
      (s.mechanism.IpNet? ==> !MatchIPNet(w.readers, s.mechanism.spec, s.mechanism.v6, w.sender).Broken?)
  }

  predicate IsExplanation(term: string) {
    IsModifier(term) && ToLower(SplitModifier(term).value.0) == "exp"
  }

  /** What section 4.6 and section 6 ask of a record before it is evaluated. */
  predicate Faultless(w: World, terms: seq<Word>, d: string) {
    WellFormed(w, Steps(w.readers, terms, d)) &&
    forall i, j :: 0 <= i < j < |terms| ==> !(IsExplanation(terms[i]) && IsExplanation(terms[j]))
  }

  predicate IsLabel(d: string, i: nat, j: nat)
    requires i <= j <= |d|
  {
    (i == 0 || d[i - 1] == '.') && (j == |d| || d[j] == '.') && '.' !in d[i..j]
  }

  /** A domain section 4.3 does not call malformed: at most 253 characters that a query
      can hold, in several labels of 1 to 63 each. */
  predicate InDueForm(d: string) {
    ValidDomain(d) && Contains(d, '.') &&
    forall i: nat, j: nat :: i <= j <= |d| && IsLabel(d, i, j) ==> 1 <= j - i <= 63
  }

  /** d has result r, derived with at most `height` nested domains. */
  ghost predicate Decides(w: World, strict: bool, height: nat, d: string, r: AuthResult, es: seq<Event>)
    decreases height, 1
  {
    if strict && !InDueForm(d) then r == NoPolicy && es == []
    else
      ValidDomain(d) && height > 0 &&
      match RecordOf(w.txt(d))
      case Unusable(_) => false
      case Absent => r == NoPolicy && es == [Query]
      case Policy(text) =>
        |Redirects(TermsOf(text))| <= 1 && (strict ==> Faultless(w, TermsOf(text), d)) &&
        exists rest :: es == [Query] + rest &&
          RecordDecides(w, strict, height - 1, Steps(w.readers, TermsOf(text), d), Redirects(TermsOf(text)), r, rest)
  }

  /** The first mechanism that matches decides; when none does, the target of
      redirect decides, and without one the result is neutral. */
  ghost predicate RecordDecides(w: World, strict: bool, height: nat, steps: seq<Step>,
                                redirects: seq<string>, r: AuthResult, es: seq<Event>)
    requires |redirects| <= 1
    decreases height, 4
  {
    exists passed: seq<seq<Event>>, last: seq<Event> ::
      DecidedAfter(w, strict, height, steps, redirects, r, es, passed, last)
  }

  /** The first |passed| mechanisms do not match, and the next one, the redirect
      or the default decides. */
  ghost predicate DecidedAfter(w: World, strict: bool, height: nat, steps: seq<Step>,
                               redirects: seq<string>, r: AuthResult, es: seq<Event>, passed: seq<seq<Event>>, last: seq<Event>)
    requires |redirects| <= 1
    decreases height, 3
  {
    |passed| <= |steps| && es == Flat(passed) + last &&
    (forall i :: 0 <= i < |passed| ==> Passes(w, strict, height, steps[i].mechanism, passed[i])) &&
    if |passed| < |steps| then
      Matches(w, strict, height, steps[|passed|].mechanism, last) && r == steps[|passed|].grade
    else if redirects == [] then
      last == [] && r == Neutral
    else
      RedirectsTo(w, strict, height, NormalizeDomain(redirects[0]), r, last)
  }

  ghost predicate Matches(w: World, strict: bool, height: nat, m: Mechanism, es: seq<Event>)
    decreases height, 2
  {
    if m.Include? then
      exists sub :: es == [Term] + sub && Decides(w, strict, height, m.target, Pass, sub)
    else RunLeaf(w, m) == Leaf(es, Match)
  }

  ghost predicate Passes(w: World, strict: bool, height: nat, m: Mechanism, es: seq<Event>)
    decreases height, 2
  {
    if m.Include? then
      exists sub, r :: es == [Term] + sub && r in {Fail, SoftFail, Neutral} && Decides(w, strict, height, m.target, r, sub)
    else RunLeaf(w, m) == Leaf(es, NoMatch) && (strict ==> !m.Macro?)
  }

  ghost predicate RedirectsTo(w: World, strict: bool, height: nat, target: string, r: AuthResult, es: seq<Event>)
    decreases height, 2
  {
    !Contains(target, '%') && r != NoPolicy &&
    exists sub :: es == [Term] + sub && Decides(w, strict, height, target, r, sub)
  }

  function Flat(parts: seq<seq<Event>>): seq<Event> {
    if parts == [] then [] else parts[0] + Flat(parts[1..])
  }

  // --------------------------------------- the relation and the unlimited run

  lemma MacroPasses(w: World)
    ensures RunLeaf(w, Macro).check == NoMatch
  {
  }

  /** The evaluation of d queries a malformed domain, reads a record with a fault or
      passes over a macro. */
  predicate Overlooks(w: World, height: nat, d: string)
    decreases height, 1, 0
  {
    ValidDomain(d) &&
    (!InDueForm(d) ||
     (height > 0 &&
      match RecordOf(w.txt(d))
      case Policy(text) =>
        var redirects, steps := Redirects(TermsOf(text)), Steps(w.readers, TermsOf(text), d);
        |redirects| <= 1 && (!Faultless(w, TermsOf(text), d) || OverlooksAfter(w, height - 1, steps, redirects))
      case _ => false))
  }

  predicate OverlooksAfter(w: World, height: nat, steps: seq<Step>, redirects: seq<string>)
    requires |redirects| <= 1
    decreases height, 2, |steps|
  {
    if steps == [] then
      redirects != [] && !Contains(NormalizeDomain(redirects[0]), '%') &&
      Overlooks(w, height, NormalizeDomain(redirects[0]))
    else
      var m := steps[0].mechanism;
      if m.Include? then
        var sub := DomainRun(w, height, m.target);
        Overlooks(w, height, m.target) ||
        (!sub.out.Open? && IncludeCheck(sub.out).NoMatch? && OverlooksAfter(w, height, steps[1..], redirects))
      else m.Macro? || (RunLeaf(w, m).check.NoMatch? && OverlooksAfter(w, height, steps[1..], redirects))
  }

  predicate Proper(r: AuthResult) {
    r in {Pass, Fail, SoftFail, Neutral, NoPolicy}
  }

  lemma {:induction false} RunDecides(w: World, strict: bool, height: nat, d: string)
    requires DomainRun(w, height, d).out.Verdict? && (strict ==> !Overlooks(w, height, d))
    ensures var run := DomainRun(w, height, d);
            Proper(run.out.result) && Decides(w, strict, height, d, run.out.result, run.events)
    decreases height, 1, 0
  {
    hide TermsOf, RecordOf, Steps, Redirects, RunLeaf, InDueForm, Faultless;
    var run := DomainRun(w, height, d);
    match RecordOf(w.txt(d)) {
      case Policy(text) =>
        var terms := TermsOf(text);
        RecordRunDecides(w, strict, height - 1, terms, d);
        assert run.events == [Query] + RecordRun(w, height - 1, terms, d).events;
      case _ =>
    }
  }

  lemma {:induction false} RecordRunDecides(w: World, strict: bool, height: nat, terms: seq<Word>, d: string)
    requires RecordRun(w, height, terms, d).out.Verdict?
    requires strict && |Redirects(terms)| <= 1 ==>
               !OverlooksAfter(w, height, Steps(w.readers, terms, d), Redirects(terms))
    ensures var run := RecordRun(w, height, terms, d);
            |Redirects(terms)| <= 1 && Proper(run.out.result) &&
            RecordDecides(w, strict, height, Steps(w.readers, terms, d), Redirects(terms), run.out.result, run.events)
    decreases height, 3, 0
  {
    hide TermsOf, RecordOf, Steps, Redirects, RunLeaf;
    StepsGraded(w.readers, terms, d);
    var _, _ := StepsRunDecides(w, strict, height, Steps(w.readers, terms, d), Redirects(terms));
  }

  predicate Graded(steps: seq<Step>) {
    forall s :: s in steps ==> s.grade in {Pass, Fail, SoftFail, Neutral}
  }

  lemma {:induction false} StepsGraded(rd: Readers, terms: seq<Word>, d: string)
    ensures Graded(Steps(rd, terms, d))
    decreases |terms|
  {
    if terms != [] { StepsGraded(rd, terms[1..], d); }
  }

  lemma {:induction false} StepsRunDecides(w: World, strict: bool, height: nat, steps: seq<Step>, redirects: seq<string>)
    returns (passed: seq<seq<Event>>, last: seq<Event>)
    requires |redirects| <= 1 && Graded(steps) && StepsRun(w, height, steps, redirects).out.Verdict?
    requires strict ==> !OverlooksAfter(w, height, steps, redirects)
    ensures var run := StepsRun(w, height, steps, redirects);
            Proper(run.out.result) &&
            DecidedAfter(w, strict, height, steps, redirects, run.out.result, run.events, passed, last)
    decreases height, 2, |steps|
  {
    hide TermsOf, RecordOf, Steps, Redirects, RunLeaf, Decides, DecidedAfter, Overlooks, DomainRun, NormalizeDomain;
    var run := StepsRun(w, height, steps, redirects);
    if steps == [] {
      passed, last := [], run.events;
      if redirects != [] {
        RunDecides(w, strict, height, NormalizeDomain(redirects[0]));
      }
      DecidedAtOnce(w, strict, height, steps, redirects, run.out.result, last);
    } else {
      var m := steps[0].mechanism;
      var head := StepLeaf(w, height, m);
      if m.Include? { RunDecides(w, strict, height, m.target); }
      if head.check.Match? {
        passed, last := [], run.events;
        DecidedAtOnce(w, strict, height, steps, redirects, run.out.result, last);
      } else {
        var passed', last' := StepsRunDecides(w, strict, height, steps[1..], redirects);
        passed, last := [head.events] + passed', last';
        DecidedLater(w, strict, height, steps, redirects, run.out.result, head.events,
                     StepsRun(w, height, steps[1..], redirects).events, passed', last');
      }
    }
  }

  /** The first mechanism matches, or there is none. */
  lemma DecidedAtOnce(w: World, strict: bool, height: nat, steps: seq<Step>, redirects: seq<string>, r: AuthResult, es: seq<Event>)
    requires |redirects| <= 1
    requires steps != [] ==> Matches(w, strict, height, steps[0].mechanism, es) && r == steps[0].grade
    requires steps == [] && redirects == [] ==> es == [] && r == Neutral
    requires steps == [] && redirects != [] ==> RedirectsTo(w, strict, height, NormalizeDomain(redirects[0]), r, es)
    ensures DecidedAfter(w, strict, height, steps, redirects, r, es, [], es)
  {
    hide Matches, RedirectsTo;
    assert Flat([]) + es == es;
  }

  /** The first mechanism does not match. */
  lemma DecidedLater(w: World, strict: bool, height: nat, steps: seq<Step>, redirects: seq<string>, r: AuthResult,
                     head: seq<Event>, es: seq<Event>, passed: seq<seq<Event>>, last: seq<Event>)
    requires |redirects| <= 1 && steps != [] && Passes(w, strict, height, steps[0].mechanism, head)
    requires DecidedAfter(w, strict, height, steps[1..], redirects, r, es, passed, last)
    ensures DecidedAfter(w, strict, height, steps, redirects, r, head + es, [head] + passed, last)
  {
    hide Passes, Matches, RedirectsTo, Flat;
    var all := [head] + passed;
    FlatCons(head, passed, last);
    forall i | 0 <= i < |all| ensures Passes(w, strict, height, steps[i].mechanism, all[i]) {
      if i > 0 { assert steps[i] == steps[1..][i - 1] && all[i] == passed[i - 1]; }
    }
    if |passed| < |steps| - 1 { assert steps[1..][|passed|] == steps[|all|]; }
  }

  lemma FlatCons(head: seq<Event>, passed: seq<seq<Event>>, last: seq<Event>)
    ensures Flat([head] + passed) + last == head + (Flat(passed) + last)
  {
    assert ([head] + passed)[1..] == passed;
  }

  lemma {:induction false} DecidesRun(w: World, strict: bool, height: nat, d: string, r: AuthResult, es: seq<Event>)
    requires Decides(w, strict, height, d, r, es)
    ensures strict && !InDueForm(d) ==> r == NoPolicy && es == []
    ensures !strict || InDueForm(d) ==>
              DomainRun(w, height, d) == Run(es, Verdict(r)) && (strict ==> !Overlooks(w, height, d))
    decreases height, 1, 0
  {
    hide TermsOf, RecordOf, Steps, Redirects, RunLeaf, InDueForm, Faultless;
    if !strict || InDueForm(d) {
      match RecordOf(w.txt(d)) {
        case Policy(text) =>
          var terms := TermsOf(text);
          var steps, redirects := Steps(w.readers, terms, d), Redirects(terms);
          var rest :| es == [Query] + rest && RecordDecides(w, strict, height - 1, steps, redirects, r, rest);
          var passed, last :| DecidedAfter(w, strict, height - 1, steps, redirects, r, rest, passed, last);
          DecidedStepsRun(w, strict, height - 1, steps, redirects, r, rest, passed, last);
        case _ =>
      }
    }
  }

  lemma {:induction false} DecidedStepsRun(w: World, strict: bool, height: nat, steps: seq<Step>, redirects: seq<string>,
                                           r: AuthResult, es: seq<Event>, passed: seq<seq<Event>>, last: seq<Event>)
    requires |redirects| <= 1 && DecidedAfter(w, strict, height, steps, redirects, r, es, passed, last)
    ensures StepsRun(w, height, steps, redirects) == Run(es, Verdict(r))
    ensures strict ==> !OverlooksAfter(w, height, steps, redirects)
    decreases height, 2, |steps|
  {
    hide TermsOf, RecordOf, Steps, Redirects, RunLeaf, Decides, Overlooks, DomainRun, NormalizeDomain, InDueForm;
    if passed == [] {
      assert es == last;
      if steps == [] {
        if redirects != [] {
          var sub :| es == [Term] + sub && Decides(w, strict, height, NormalizeDomain(redirects[0]), r, sub);
          DecidesRun(w, strict, height, NormalizeDomain(redirects[0]), r, sub);
        }
      } else {
        var m := steps[0].mechanism;
        assert Matches(w, strict, height, m, last);
        MacroPasses(w);
        if m.Include? {
          var sub :| es == [Term] + sub && Decides(w, strict, height, m.target, Pass, sub);
          DecidesRun(w, strict, height, m.target, Pass, sub);
        }
      }
    } else {
      DecidedRest(w, strict, height, steps, redirects, r, es, passed, last);
      DecidedStepsRun(w, strict, height, steps[1..], redirects, r, Flat(passed[1..]) + last, passed[1..], last);
      var m := steps[0].mechanism;
      if m.Include? {
        var sub, r' :| passed[0] == [Term] + sub && r' in {Fail, SoftFail, Neutral} && Decides(w, strict, height, m.target, r', sub);
        DecidesRun(w, strict, height, m.target, r', sub);
      }
    }
  }

  /** Past the first mechanism, which does not match. */
  lemma DecidedRest(w: World, strict: bool, height: nat, steps: seq<Step>, redirects: seq<string>, r: AuthResult,
                    es: seq<Event>, passed: seq<seq<Event>>, last: seq<Event>)
    requires |redirects| <= 1 && passed != [] && DecidedAfter(w, strict, height, steps, redirects, r, es, passed, last)
    ensures steps != [] && Passes(w, strict, height, steps[0].mechanism, passed[0])
    ensures es == passed[0] + (Flat(passed[1..]) + last)
    ensures DecidedAfter(w, strict, height, steps[1..], redirects, r, Flat(passed[1..]) + last, passed[1..], last)
  {
    hide Passes, Matches, RedirectsTo;
    assert es == passed[0] + (Flat(passed[1..]) + last);
    forall i | 0 <= i < |passed[1..]| ensures Passes(w, strict, height, steps[1..][i].mechanism, passed[1..][i]) {
      assert Passes(w, strict, height, steps[i + 1].mechanism, passed[i + 1]);
    }
    if |passed| < |steps| { assert steps[1..][|passed[1..]|] == steps[|passed|]; }
  }

  // --------------------------------------------------------------- main results

  /** The result r can be derived within the limits of RFC 7208 section 4.6.4. */
  ghost predicate DerivableWithinLimits(w: World, strict: bool, d: string, r: AuthResult) {
    exists height: nat, es :: Decides(w, strict, height, d, r, es) &&
      Count(Term, es) <= 10 && Count(Void, es) <= 2
  }

  /** check_host returns a proper result exactly when RFC 7208, read leniently, derives
      it within the limits; the loop check makes no difference. */
  lemma CheckHostRefinesRfc(w: World, guarded: bool, d: string, r: AuthResult)
    requires Proper(r)
    ensures CheckHost(w, guarded, d) == r <==> DerivableWithinLimits(w, false, d, r)
  {
    if CheckHost(w, guarded, d) == r { CheckHostIsDerived(w, false, guarded, d, r); }
    if DerivableWithinLimits(w, false, d, r) { DerivedIsChecked(w, false, guarded, d, r); }
  }

  /** The strict reading derives none for a malformed domain, and for any other exactly
      the result check_host returns without having overlooked a fault or a macro. */
  lemma StrictRfcExactly(w: World, guarded: bool, d: string, r: AuthResult)
    requires Proper(r)
    ensures DerivableWithinLimits(w, true, d, r) <==>
            if InDueForm(d) then CheckHost(w, guarded, d) == r && !Overlooks(w, MAX_DEPTH, d) else r == NoPolicy
  {
    hide InDueForm, Overlooks, CheckHost;
    if !InDueForm(d) { MalformedGivesNone(w, d); }
    else if CheckHost(w, guarded, d) == r && !Overlooks(w, MAX_DEPTH, d) { CheckHostIsDerived(w, true, guarded, d, r); }
    if DerivableWithinLimits(w, true, d, r) { DerivedIsChecked(w, true, guarded, d, r); }
  }

  lemma MalformedGivesNone(w: World, d: string)
    requires !InDueForm(d)
    ensures DerivableWithinLimits(w, true, d, NoPolicy)
  {
    hide InDueForm;
    assert Decides(w, true, 0, d, NoPolicy, []) && Count(Term, []) == 0 && Count(Void, []) == 0;
  }

  lemma CheckHostIsDerived(w: World, strict: bool, guarded: bool, d: string, r: AuthResult)
    requires Proper(r) && CheckHost(w, guarded, d) == r && (strict ==> !Overlooks(w, MAX_DEPTH, d))
    ensures DerivableWithinLimits(w, strict, d, r)
  {
    hide TermsOf, RecordOf, Steps, Redirects, RunLeaf, Overlooks;
    CheckHostIsCutRun(w, guarded, MAX_DEPTH, d);
    var run := DomainRun(w, MAX_DEPTH, d);
    SpendCounts(UNUSED, run.events);
    RunDecides(w, strict, MAX_DEPTH, d);
  }

  lemma DerivedIsChecked(w: World, strict: bool, guarded: bool, d: string, r: AuthResult)
    requires Proper(r) && DerivableWithinLimits(w, strict, d, r)
    ensures strict && !InDueForm(d) ==> r == NoPolicy
    ensures !strict || InDueForm(d) ==> CheckHost(w, guarded, d) == r && (strict ==> !Overlooks(w, MAX_DEPTH, d))
  {
    hide TermsOf, RecordOf, Steps, Redirects, RunLeaf, Overlooks, Decides, DomainRun, Eval, InDueForm;
    var height: nat, es :| Decides(w, strict, height, d, r, es) &&
      Count(Term, es) <= 10 && Count(Void, es) <= 2;
    DecidesRun(w, strict, height, d, r, es);
    if !strict || InDueForm(d) {
      var high := if height > MAX_DEPTH then height else MAX_DEPTH;
      ClosedIsStable(w, height, high, d);
      CheckHostIsCutRun(w, guarded, high, d);
      SpendCounts(UNUSED, es);
      if strict { NothingOverlooked(w, height, high, d); }
    }
  }

  lemma NothingOverlooked(w: World, height: nat, high: nat, d: string)
    requires height <= high && MAX_DEPTH <= high && !DomainRun(w, height, d).out.Open? && !Overlooks(w, height, d)
    ensures !Overlooks(w, MAX_DEPTH, d)
  {
    hide Overlooks, DomainRun;
    OverlooksIsStable(w, height, high, d);
    if Overlooks(w, MAX_DEPTH, d) { OverlooksGrows(w, MAX_DEPTH, high, d); }
  }

  /** RFC 7208 derives at most one result and one cost for a domain. */
  lemma RfcIsDeterministic(w: World, strict: bool, d: string, h1: nat, r1: AuthResult, es1: seq<Event>,
                           h2: nat, r2: AuthResult, es2: seq<Event>)
    requires Decides(w, strict, h1, d, r1, es1) && Decides(w, strict, h2, d, r2, es2)
    ensures r1 == r2 && es1 == es2
  {
    var high := if h1 > h2 then h1 else h2;
    DecidesRun(w, strict, h1, d, r1, es1);
    DecidesRun(w, strict, h2, d, r2, es2);
    hide Decides, DomainRun, InDueForm, Overlooks;
    if !strict || InDueForm(d) {
      ClosedIsStable(w, h1, high, d);
      ClosedIsStable(w, h2, high, d);
    }
  }

  /** What a finished evaluation overlooks does not depend on the height. */
  lemma {:induction false} OverlooksIsStable(w: World, low: nat, high: nat, d: string)
    requires low <= high && !DomainRun(w, low, d).out.Open?
    ensures Overlooks(w, high, d) == Overlooks(w, low, d)
    decreases low, 1, 0
  {
    hide TermsOf, RecordOf, Steps, Redirects, RunLeaf, Faultless, InDueForm;
    if ValidDomain(d) {
      match RecordOf(w.txt(d))
      case Policy(text) =>
        var terms := TermsOf(text);
        if |Redirects(terms)| <= 1 {
          OverlooksAfterIsStable(w, low - 1, high - 1, Steps(w.readers, terms, d), Redirects(terms));
        }
      case _ =>
    }
  }

  lemma {:induction false} OverlooksAfterIsStable(w: World, low: nat, high: nat, steps: seq<Step>, redirects: seq<string>)
    requires |redirects| <= 1 && low <= high && !StepsRun(w, low, steps, redirects).out.Open?
    ensures OverlooksAfter(w, high, steps, redirects) == OverlooksAfter(w, low, steps, redirects)
    decreases low, 2, |steps|
  {
    hide RunLeaf;
    if steps == [] {
      if redirects != [] && !Contains(NormalizeDomain(redirects[0]), '%') {
        OverlooksIsStable(w, low, high, NormalizeDomain(redirects[0]));
      }
    } else {
      var m := steps[0].mechanism;
      if m.Include? {
        ClosedIsStable(w, low, high, m.target);
        OverlooksIsStable(w, low, high, m.target);
        if IncludeCheck(DomainRun(w, low, m.target).out).NoMatch? {
          OverlooksAfterIsStable(w, low, high, steps[1..], redirects);
        }
      } else if RunLeaf(w, m).check.NoMatch? {
        OverlooksAfterIsStable(w, low, high, steps[1..], redirects);
      }
    }
  }

  /** More height overlooks no less. */
  lemma {:induction false} OverlooksGrows(w: World, low: nat, high: nat, d: string)
    requires low <= high && Overlooks(w, low, d)
    ensures Overlooks(w, high, d)
    decreases low, 1, 0
  {
    hide TermsOf, RecordOf, Steps, Redirects, RunLeaf, Faultless, InDueForm;
    if InDueForm(d) {
      match RecordOf(w.txt(d))
      case Policy(text) =>
        var steps, redirects := Steps(w.readers, TermsOf(text), d), Redirects(TermsOf(text));
        if Faultless(w, TermsOf(text), d) { OverlooksAfterGrows(w, low - 1, high - 1, steps, redirects); }
    }
  }

  lemma {:induction false} OverlooksAfterGrows(w: World, low: nat, high: nat, steps: seq<Step>, redirects: seq<string>)
    requires |redirects| <= 1 && low <= high && OverlooksAfter(w, low, steps, redirects)
    ensures OverlooksAfter(w, high, steps, redirects)
    decreases low, 2, |steps|
  {
    hide RunLeaf;
    if steps == [] {
      OverlooksGrows(w, low, high, NormalizeDomain(redirects[0]));
    } else {
      var m := steps[0].mechanism;
      if m.Include? {
        if Overlooks(w, low, m.target) {
          OverlooksGrows(w, low, high, m.target);
        } else {
          ClosedIsStable(w, low, high, m.target);
          OverlooksAfterGrows(w, low, high, steps[1..], redirects);
        }
      } else if !m.Macro? {
        OverlooksAfterGrows(w, low, high, steps[1..], redirects);
      }
    }
  }

  /** The readings differ: a syntax error behind a mechanism that matches, and a macro
      in front of one, go unnoticed. */
  lemma ReadingsDiffer(w: World, height: nat, counted: bool)
    ensures var hidden := [Step(Pass, All), Step(Pass, Malformed(counted))];
            !WellFormed(w, hidden) && RecordDecides(w, false, height, hidden, [], Pass, [])
    ensures var macro := [Step(Pass, Macro), Step(Fail, All)];
            WellFormed(w, macro) && RecordDecides(w, false, height, macro, [], Fail, [Term]) &&
            OverlooksAfter(w, height, macro, [])
  {
    var hidden, macro := [Step(Pass, All), Step(Pass, Malformed(counted))], [Step(Pass, Macro), Step(Fail, All)];
    assert hidden[1] in hidden;
    assert Matches(w, false, height, All, []);
    assert DecidedAfter(w, false, height, hidden, [], Pass, [], [], []);
    assert [[Term]][1..] == [] && Flat([[Term]]) == [Term];
    assert Passes(w, false, height, Macro, [Term]);
    assert DecidedAfter(w, false, height, macro, [], Fail, [Term], [[Term]], []);
  }
}
