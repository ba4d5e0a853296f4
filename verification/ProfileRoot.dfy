/** When Parse of internal/mobileconfig/parse.go is left without a root element, which it
    then uses without looking. */
module ProfileRoot {
  import opened Wrappers
  import opened Strings
  import opened Plist
  import opened PlistTree
  import opened MobileConfigParse

  /** An element parsePlistBody decodes to nothing: an unknown one, or a key outside a
      dictionary. */
  predicate MeansNothing(name: string) {
    name !in {"dict", "array", "true", "false"} && !IsTextual(name)
  }

  lemma {:induction false} DictIsSomething(rd: Readers, ns: seq<Node>, es: seq<Entry>, key: Option<string>)
    ensures DictMeaning(rd, ns, es, key) != Ok(None)
    decreases |ns|
  {
    hide Meaning, Stored, TrimSpace, TextOf;
    if ns != [] {
      match ns[0] {
        case Elem(name, kids) =>
          if name == "key" {
            DictIsSomething(rd, ns[1..], es, Some(TrimSpace(TextOf(kids))));
          } else {
            var m := Meaning(rd, name, kids);
            if m.Ok? { DictIsSomething(rd, ns[1..], Stored(es, key, m.value), None); }
          }
        case _ => DictIsSomething(rd, ns[1..], es, key);
      }
    }
  }

  lemma {:induction false} ArrayIsSomething(rd: Readers, ns: seq<Node>, items: seq<Value>)
    ensures ArrayMeaning(rd, ns, items) != Ok(None)
    decreases |ns|
  {
    hide Meaning;
    if ns != [] {
      match ns[0] {
        case Elem(name, kids) =>
          var m := Meaning(rd, name, kids);
          if m.Ok? { ArrayIsSomething(rd, ns[1..], if m.value.Some? then items + [m.value.value] else items); }
        case _ => ArrayIsSomething(rd, ns[1..], items);
      }
    }
  }

  lemma MeaningIsNothing(rd: Readers, name: string, kids: seq<Node>)
    ensures Meaning(rd, name, kids) == Ok(None) <==> MeansNothing(name)
  {
    hide TextOf, TrimSpace, WithoutBlanks;
    DictIsSomething(rd, kids, [], None);
    ArrayIsSomething(rd, kids, []);
  }

  /** The first element of a list of nodes. */
  function FirstElement(ns: seq<Node>): (e: Option<Node>)
    ensures e.Some? ==> e.value.Elem?
  {
    if ns == [] then None else if ns[0].Elem? then Some(ns[0]) else FirstElement(ns[1..])
  }

  /** parsePlistBody on the content of a plist element. */
  lemma {:induction false} BodyIsFirstElement(rd: Readers, ns: seq<Node>, rest: seq<Token>)
    ensures var got := BodyFrom(rd, AllTokens(ns) + ([End("plist")] + rest));
            match FirstElement(ns)
            case None => got == Wrong(EmptyPlist)
            case Some(e) =>
              got == match Meaning(rd, e.name, e.kids) { case Ok(v) => Right(v) case Err(f) => Wrong(Broken(f)) }
    decreases |ns|
  {
    hide Meaning, ValueFrom, Tokens, AllTokens;
    var tail := [End("plist")] + rest;
    if ns == [] {
      NoTokens(tail);
    } else {
      var after := AllTokens(ns[1..]) + tail;
      FirstTokens(ns, tail);
      match ns[0] {
        case Elem(name, kids) =>
          ElemSplit(name, kids, after);
          ParseIsMeaning(rd, name, kids, after);
        case _ =>
          OtherSplit(ns[0], after);
          BodyIsFirstElement(rd, ns[1..], rest);
      }
    }
  }

  /** No token opens a root. */
  predicate BeforeRoot(lead: seq<Token>) {
    forall t :: t in lead && t.Start? ==> t.name !in {"plist", "dict", "array"}
  }

  lemma {:induction false} LeadIsSkipped(rd: Readers, lead: seq<Token>, ts: seq<Token>)
    requires BeforeRoot(lead)
    ensures RootFrom(rd, lead + ts) == RootFrom(rd, ts)
    decreases |lead|
  {
    hide BodyFrom, ValueFrom;
    if lead == [] {
      assert lead + ts == ts;
    } else {
      assert lead[0] in lead && (lead + ts)[1..] == lead[1..] + ts;
      LeadIsSkipped(rd, lead[1..], ts);
    }
  }

  lemma {:induction false} PayloadsHaveARoot(rd: Readers, out: Account, ps: seq<Value>)
    ensures AddPayloads(rd, out, ps) != Wrong(NilRoot)
    decreases |ps|
  {
    hide StringOr, BoolOr, IntOr, ParseDav, TrimSpace, ToLower;
    if ps != [] {
      var next := AddPayload(rd, out, ps[0]);
      if next.Right? { PayloadsHaveARoot(rd, next.value, ps[1..]); }
    }
  }

  lemma ReadHasARoot(rd: Readers, root: Value)
    ensures ReadProfile(rd, root) != Wrong(NilRoot)
  {
    hide StringOr, AddPayloads, Child;
    if root.Dict? {
      var v := Some(root);
      var blank := Account(StringOr(v, "PayloadDisplayName", ""), StringOr(v, "PayloadOrganization", ""),
                           StringOr(v, "PayloadIdentifier", ""), None, None, None, []);
      var content := Child(v, "PayloadContent");
      PayloadsHaveARoot(rd, blank, if content.Some? && content.value.Array? then content.value.items else []);
    }
  }

  lemma NilRootIsNoRoot(rd: Readers, ts: seq<Token>)
    requires RootFrom(rd, ts) != Wrong(NilRoot)
    ensures ParseTokens(rd, ts) == Wrong(NilRoot) <==> RootFrom(rd, ts) == Right(None)
  {
    hide RootFrom, ReadProfile;
    match RootFrom(rd, ts)
    case Right(Some(root)) => ReadHasARoot(rd, root);
    case _ =>
  }

  lemma RootIsBody(rd: Readers, ts: seq<Token>)
    requires ts != [] && ts[0] == Start("plist")
    ensures RootFrom(rd, ts) == BodyFrom(rd, ts[1..])
  {
  }

  /** On every document with a plist element Parse has no root exactly when the first
      element inside it is neither a container, a truth value nor a textual one, whatever
      it holds and whatever follows. */
  lemma NilRootExactly(rd: Readers, lead: seq<Token>, ns: seq<Node>, rest: seq<Token>)
    requires BeforeRoot(lead)
    ensures ParseTokens(rd, lead + (Tokens(Elem("plist", ns)) + rest)) == Wrong(NilRoot) <==>
            FirstElement(ns).Some? && MeansNothing(FirstElement(ns).value.name)
  {
    var ts := Tokens(Elem("plist", ns)) + rest;
    LeadIsSkipped(rd, lead, ts);
    ElemSplit("plist", ns, rest);
    BodyIsFirstElement(rd, ns, rest);
    RootIsBody(rd, ts);
    hide ParseTokens, Meaning, BodyFrom, RootFrom, Tokens, AllTokens, ValueFrom, MeansNothing;
    if FirstElement(ns).Some? {
      var e := FirstElement(ns).value;
      MeaningIsNothing(rd, e.name, e.kids);
    }
    NilRootIsNoRoot(rd, ts);
    NilRootIsNoRoot(rd, lead + ts);
  }

  /** The shortest such document, and one with a key. */
  lemma NilRootHappens(rd: Readers, rest: seq<Token>)
    ensures ParseTokens(rd, [Start("plist"), Start("foo"), End("foo"), End("plist")] + rest) == Wrong(NilRoot)
    ensures ParseTokens(rd, [Start("plist"), Start("key"), End("key"), End("plist")] + rest) == Wrong(NilRoot)
  {
    OneElementRoot(rd, "foo", rest);
    OneElementRoot(rd, "key", rest);
  }

  lemma OneElementRoot(rd: Readers, name: string, rest: seq<Token>)
    requires MeansNothing(name)
    ensures ParseTokens(rd, [Start("plist"), Start(name), End(name), End("plist")] + rest) == Wrong(NilRoot)
  {
    var e := Elem(name, []);
    NilRootExactly(rd, [], [e], rest);
    assert [e][1..] == [] && AllTokens([e]) == Tokens(e) + [] && Tokens(e) == [Start(name)] + [] + [End(name)];
    assert Tokens(Elem("plist", [e])) == [Start("plist"), Start(name), End(name), End("plist")];
    assert [] + (Tokens(Elem("plist", [e])) + rest) == Tokens(Elem("plist", [e])) + rest;
  }
}
