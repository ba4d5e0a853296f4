/** What a property list means, on document trees, and that the token parser of
    Plist computes it: the parser consumes exactly one balanced element, whatever
    follows it and whatever unknown elements it holds. */
module PlistTree {
  import opened Wrappers
  import opened Strings
  import opened Plist

  datatype Node = Elem(name: string, kids: seq<Node>) | Text(raw: string) | Remark

  /** The tokens of a document. */
  function Tokens(n: Node): seq<Token>
    decreases n, 1
  {
    match n
    case Elem(name, kids) => [Start(name)] + AllTokens(kids) + [End(name)]
    case Text(raw) => [Chars(raw)]
    case Remark => [Misc]
  }

  function AllTokens(ns: seq<Node>): seq<Token>
    decreases ns, 0
  {
    if ns == [] then [] else Tokens(ns[0]) + AllTokens(ns[1..])
  }

  /** All character data of the nodes, in document order. */
  function TextOf(ns: seq<Node>): string
    decreases ns, 0
  {
    if ns == [] then "" else NodeText(ns[0]) + TextOf(ns[1..])
  }

  function NodeText(n: Node): string
    decreases n, 1
  {
    match n
    case Elem(_, kids) => TextOf(kids)
    case Text(raw) => UnescapeXML(raw)
    case Remark => ""
  }

  /** What an element means: a value, nothing when it is not modelled, or a fault. */
  function Meaning(rd: Readers, name: string, kids: seq<Node>): Result<Option<Value>>
    decreases kids, 2
  {
    if name == "dict" then DictMeaning(rd, kids, [], None)
    else if name == "array" then ArrayMeaning(rd, kids, [])
    else LeafValue(rd, name, TextOf(kids))
  }

  /** A dictionary: each key element names the next element. */
  function DictMeaning(rd: Readers, ns: seq<Node>, es: seq<Entry>, key: Option<string>): Result<Option<Value>>
    decreases ns, 1
  {
    if ns == [] then Ok(Some(Dict(es)))
    else
      match ns[0]
      case Elem(name, kids) =>
        if name == "key" then DictMeaning(rd, ns[1..], es, Some(TrimSpace(TextOf(kids))))
        else
          (match Meaning(rd, name, kids)
           case Err(f) => Err(f)
           case Ok(v) => DictMeaning(rd, ns[1..], Stored(es, key, v), None))
      case _ => DictMeaning(rd, ns[1..], es, key)
  }

  function ArrayMeaning(rd: Readers, ns: seq<Node>, items: seq<Value>): Result<Option<Value>>
    decreases ns, 1
  {
    if ns == [] then Ok(Some(Array(items)))
    else
      match ns[0]
      case Elem(name, kids) =>
        (match Meaning(rd, name, kids)
         case Err(f) => Err(f)
         case Ok(v) => ArrayMeaning(rd, ns[1..], if v.Some? then items + [v.value] else items))
      case _ => ArrayMeaning(rd, ns[1..], items)
  }

  /** A result of the parser that stops right before `rest`. */
  function Stopped(r: Result<Option<Value>>, rest: seq<Token>): Parsed<Option<Value>> {
    match r
    case Ok(v) => Done(v, rest)
    case Err(f) => Bad(f)
  }

  // -------------------------------------------------- the parser on any tree

  lemma ElemSplit(name: string, kids: seq<Node>, rest: seq<Token>)
    ensures var ts := Tokens(Elem(name, kids)) + rest;
            ts[0] == Start(name) && ts[1..] == AllTokens(kids) + ([End(name)] + rest)
  {
  }

  lemma OtherSplit(n: Node, rest: seq<Token>)
    requires !n.Elem?
    ensures var ts := Tokens(n) + rest; (ts[0].Chars? || ts[0].Misc?) && ts[1..] == rest
  {
  }

  lemma NoTokens(rest: seq<Token>)
    ensures AllTokens([]) + rest == rest
  {
  }

  lemma FirstTokens(ns: seq<Node>, rest: seq<Token>)
    requires ns != []
    ensures AllTokens(ns) + rest == Tokens(ns[0]) + (AllTokens(ns[1..]) + rest)
  {
  }

  /** Reading text goes through whole nodes. */
  lemma {:induction false} TextThroughNodes(ns: seq<Node>, rest: seq<Token>, depth: nat)
    requires depth > 0
    ensures TextFrom(AllTokens(ns) + rest, depth) == Prefixed(TextOf(ns), TextFrom(rest, depth))
    decreases ns, 0
  {
    if ns == [] {
      assert AllTokens(ns) + rest == rest;
      PrefixedTwice("", "", TextFrom(rest, depth));
    } else {
      var after := AllTokens(ns[1..]) + rest;
      assert AllTokens(ns) + rest == Tokens(ns[0]) + after;
      TextThroughNode(ns[0], after, depth);
      TextThroughNodes(ns[1..], rest, depth);
      PrefixedTwice(NodeText(ns[0]), TextOf(ns[1..]), TextFrom(rest, depth));
    }
  }

  lemma {:induction false} TextThroughNode(n: Node, rest: seq<Token>, depth: nat)
    requires depth > 0
    ensures TextFrom(Tokens(n) + rest, depth) == Prefixed(NodeText(n), TextFrom(rest, depth))
    decreases n, 1
  {
    match n
    case Elem(name, kids) =>
      ElemSplit(name, kids, rest);
      TextThroughNodes(kids, [End(name)] + rest, depth + 1);
      assert ([End(name)] + rest)[1..] == rest;
    case Text(raw) =>
      assert ([Chars(raw)] + rest)[1..] == rest;
    case Remark =>
      assert ([Misc] + rest)[1..] == rest;
      PrefixedTwice("", "", TextFrom(rest, depth));
  }

  lemma {:induction false} SkipThroughNodes(ns: seq<Node>, rest: seq<Token>, depth: nat)
    requires depth > 0
    ensures SkipFrom(AllTokens(ns) + rest, depth) == SkipFrom(rest, depth)
    decreases ns, 0
  {
    if ns == [] {
      assert AllTokens(ns) + rest == rest;
    } else {
      var after := AllTokens(ns[1..]) + rest;
      assert AllTokens(ns) + rest == Tokens(ns[0]) + after;
      SkipThroughNode(ns[0], after, depth);
      SkipThroughNodes(ns[1..], rest, depth);
    }
  }

  lemma {:induction false} SkipThroughNode(n: Node, rest: seq<Token>, depth: nat)
    requires depth > 0
    ensures SkipFrom(Tokens(n) + rest, depth) == SkipFrom(rest, depth)
    decreases n, 1
  {
    match n
    case Elem(name, kids) =>
      ElemSplit(name, kids, rest);
      SkipThroughNodes(kids, [End(name)] + rest, depth + 1);
      assert ([End(name)] + rest)[1..] == rest;
    case Text(raw) =>
      assert ([Chars(raw)] + rest)[1..] == rest;
    case Remark =>
      assert ([Misc] + rest)[1..] == rest;
  }

  lemma TextToEnd(kids: seq<Node>, name: string, rest: seq<Token>)
    ensures TextFrom(AllTokens(kids) + ([End(name)] + rest), 1) == Done(TextOf(kids), rest)
  {
    TextThroughNodes(kids, [End(name)] + rest, 1);
    assert ([End(name)] + rest)[1..] == rest;
    assert TextOf(kids) + "" == TextOf(kids);
  }

  lemma SkipToEnd(kids: seq<Node>, name: string, rest: seq<Token>)
    ensures SkipFrom(AllTokens(kids) + ([End(name)] + rest), 1) == Done((), rest)
  {
    SkipThroughNodes(kids, [End(name)] + rest, 1);
    assert ([End(name)] + rest)[1..] == rest;
  }

  /** After the start of any element the parser reads what the element means and
      stops right after its end. */
  lemma {:induction false} ParseIsMeaning(rd: Readers, name: string, kids: seq<Node>, rest: seq<Token>)
    ensures ValueFrom(rd, AllTokens(kids) + ([End(name)] + rest), name) == Stopped(Meaning(rd, name, kids), rest)
    decreases kids, 2
  {
    hide TextOf, TextFrom, SkipFrom, LeafValue;
    if name == "dict" {
      DictIsMeaning(rd, kids, [], None, rest);
    } else if name == "array" {
      ArrayIsMeaning(rd, kids, [], rest);
    } else if IsTextual(name) {
      TextToEnd(kids, name, rest);
    } else {
      SkipToEnd(kids, name, rest);
      PlainLeaf(rd, name, TextOf(kids));
    }
  }

  lemma PlainLeaf(rd: Readers, name: string, text: string)
    requires !IsTextual(name)
    ensures LeafValue(rd, name, text) == LeafValue(rd, name, "") && LeafValue(rd, name, "").Ok?
  {
  }

  lemma {:induction false} DictIsMeaning(rd: Readers, ns: seq<Node>, es: seq<Entry>, key: Option<string>, rest: seq<Token>)
    ensures DictFrom(rd, AllTokens(ns) + ([End("dict")] + rest), es, key) == Stopped(DictMeaning(rd, ns, es, key), rest)
    decreases ns, 1
  {
    hide TextOf, TextFrom, LeafValue, Meaning, ValueFrom, TrimSpace, Stored, Tokens, AllTokens;
    var tail := [End("dict")] + rest;
    if ns == [] {
      NoTokens(tail);
    } else {
      var n, after := ns[0], AllTokens(ns[1..]) + tail;
      FirstTokens(ns, tail);
      match n {
        case Elem(name, kids) =>
          ElemSplit(name, kids, after);
          if name == "key" {
            TextToEnd(kids, name, after);
            DictIsMeaning(rd, ns[1..], es, Some(TrimSpace(TextOf(kids))), rest);
          } else {
            ParseIsMeaning(rd, name, kids, after);
            var m := Meaning(rd, name, kids);
            if m.Ok? { DictIsMeaning(rd, ns[1..], Stored(es, key, m.value), None, rest); }
          }
        case _ =>
          OtherSplit(n, after);
          DictIsMeaning(rd, ns[1..], es, key, rest);
      }
    }
  }

  lemma {:induction false} ArrayIsMeaning(rd: Readers, ns: seq<Node>, items: seq<Value>, rest: seq<Token>)
    ensures ArrayFrom(rd, AllTokens(ns) + ([End("array")] + rest), items) == Stopped(ArrayMeaning(rd, ns, items), rest)
    decreases ns, 1
  {
    hide LeafValue, Meaning, ValueFrom, Tokens, AllTokens;
    var tail := [End("array")] + rest;
    if ns == [] {
      NoTokens(tail);
    } else {
      var n, after := ns[0], AllTokens(ns[1..]) + tail;
      FirstTokens(ns, tail);
      match n {
        case Elem(name, kids) =>
          ElemSplit(name, kids, after);
          ParseIsMeaning(rd, name, kids, after);
          var m := Meaning(rd, name, kids);
          if m.Ok? { ArrayIsMeaning(rd, ns[1..], if m.value.Some? then items + [m.value.value] else items, rest); }
        case _ =>
          OtherSplit(n, after);
          ArrayIsMeaning(rd, ns[1..], items, rest);
      }
    }
  }

  // ------------------------------------------------ unknown elements, anywhere

  /** An element the reader does not model. */
  predicate IsUnknown(n: Node) {
    n.Elem? && n.name !in {"dict", "array", "key", "true", "false"} && !IsTextual(n.name)
  }

  lemma UnknownMeansNothing(rd: Readers, n: Node)
    requires IsUnknown(n)
    ensures Meaning(rd, n.name, n.kids) == Ok(None)
  {
  }

  /** An unknown element of any content leaves the other items of an array alone. */
  lemma {:induction false} UnknownInArray(rd: Readers, a: seq<Node>, n: Node, b: seq<Node>, items: seq<Value>)
    requires IsUnknown(n)
    ensures ArrayMeaning(rd, a + [n] + b, items) == ArrayMeaning(rd, a + b, items)
    decreases |a|
  {
    hide Meaning;
    if a == [] {
      assert a + [n] + b == [n] + b && ([n] + b)[1..] == b && a + b == b;
      UnknownMeansNothing(rd, n);
    } else {
      assert (a + [n] + b)[1..] == a[1..] + [n] + b && (a + b)[1..] == a[1..] + b;
      match a[0] {
        case Elem(name, kids) =>
          var m := Meaning(rd, name, kids);
          if m.Ok? {
            UnknownInArray(rd, a[1..], n, b, if m.value.Some? then items + [m.value.value] else items);
          }
        case _ => UnknownInArray(rd, a[1..], n, b, items);
      }
    }
  }

  /** Whether a key is waiting for its value after the nodes. */
  function KeyWaits(ns: seq<Node>, waiting: bool): bool {
    if ns == [] then waiting
    else KeyWaits(ns[1..], if ns[0].Elem? then ns[0].name == "key" else waiting)
  }

  /** In a dictionary the same holds for a stray one, wherever no key is waiting. */
  lemma {:induction false} UnknownInDict(rd: Readers, a: seq<Node>, n: Node, b: seq<Node>,
                                         es: seq<Entry>, key: Option<string>)
    requires IsUnknown(n) && !KeyWaits(a, key.Some?)
    ensures DictMeaning(rd, a + [n] + b, es, key) == DictMeaning(rd, a + b, es, key)
    decreases |a|
  {
    hide Meaning, Stored, TrimSpace, TextOf;
    if a == [] {
      assert a + [n] + b == [n] + b && ([n] + b)[1..] == b && a + b == b;
      UnknownMeansNothing(rd, n);
      NothingStored(es, key);
    } else {
      assert (a + [n] + b)[1..] == a[1..] + [n] + b && (a + b)[1..] == a[1..] + b;
      match a[0] {
        case Elem(name, kids) =>
          if name == "key" {
            UnknownInDict(rd, a[1..], n, b, es, Some(TrimSpace(TextOf(kids))));
          } else {
            var m := Meaning(rd, name, kids);
            if m.Ok? { UnknownInDict(rd, a[1..], n, b, Stored(es, key, m.value), None); }
          }
        case _ => UnknownInDict(rd, a[1..], n, b, es, key);
      }
    }
  }

  lemma {:induction false} GapIsSkipped(rd: Readers, gap: seq<Node>, ns: seq<Node>, es: seq<Entry>, key: Option<string>)
    requires forall g :: g in gap ==> !g.Elem?
    ensures DictMeaning(rd, gap + ns, es, key) == DictMeaning(rd, ns, es, key)
    decreases |gap|
  {
    hide Meaning, Stored, TrimSpace, TextOf;
    if gap == [] {
      assert gap + ns == ns;
    } else {
      assert (gap + ns)[1..] == gap[1..] + ns;
      GapIsSkipped(rd, gap[1..], ns, es, key);
    }
  }

  /** A well-formed entry whose value is an unknown element of any content, with any text
      between key and value, is dropped whole: the dictionary reads as if neither were
      there. */
  lemma {:induction false} UnknownEntryIsDropped(rd: Readers, a: seq<Node>, kids: seq<Node>, gap: seq<Node>, n: Node,
                                                 b: seq<Node>, es: seq<Entry>, key: Option<string>)
    requires IsUnknown(n) && !KeyWaits(a, key.Some?) && forall g :: g in gap ==> !g.Elem?
    ensures DictMeaning(rd, a + ([Elem("key", kids)] + (gap + ([n] + b))), es, key) == DictMeaning(rd, a + b, es, key)
    decreases |a|
  {
    hide Meaning, Stored, TrimSpace, TextOf;
    var entry := [Elem("key", kids)] + (gap + ([n] + b));
    if a == [] {
      assert a + entry == entry && entry[1..] == gap + ([n] + b) && a + b == b && ([n] + b)[1..] == b;
      var k := Some(TrimSpace(TextOf(kids)));
      GapIsSkipped(rd, gap, [n] + b, es, k);
      UnknownMeansNothing(rd, n);
      NothingStored(es, k);
    } else {
      assert (a + entry)[1..] == a[1..] + entry && (a + b)[1..] == a[1..] + b;
      match a[0] {
        case Elem(name, inner) =>
          if name == "key" {
            UnknownEntryIsDropped(rd, a[1..], kids, gap, n, b, es, Some(TrimSpace(TextOf(inner))));
          } else {
            var m := Meaning(rd, name, inner);
            if m.Ok? { UnknownEntryIsDropped(rd, a[1..], kids, gap, n, b, Stored(es, key, m.value), None); }
          }
        case _ => UnknownEntryIsDropped(rd, a[1..], kids, gap, n, b, es, key);
      }
    }
  }

  lemma NothingStored(es: seq<Entry>, key: Option<string>)
    ensures Stored(es, key, None) == es
  {
  }

  // ------------------------------------------------------------------ printing

  function Spaces(n: nat): string {
    if n == 0 then "" else " " + Spaces(n - 1)
  }

  /** A property list as a document: entries of a dictionary indented by n, items
      of an array by two more. `encode` is base64.StdEncoding.EncodeToString. */
  function NodeOf(encode: seq<int> -> string, v: Value, n: nat): Node
    decreases v, 1
  {
    match v
    case Str(text) => Elem("string", [Text(EscapeXML(text))])
    case Integer(_, text) => Elem("integer", [Text(EscapeXML(text))])
    case Real(_, text) => Elem("real", [Text(EscapeXML(text))])
    case Bool(flag) => Elem(if flag then "true" else "false", [])
    case Data(bytes) => Elem("data", [Text(EscapeXML(encode(bytes)))])
    case Array(items) => Elem("array", [Text("\n")] + ItemNodes(encode, items, n) + [Text(Spaces(n))])
    case Dict(es) => Elem("dict", [Text("\n")] + EntriesNodes(encode, es, n) + [Text(Spaces(if n < 2 then 0 else n - 2))])
  }

  function ItemNodes(encode: seq<int> -> string, items: seq<Value>, n: nat): seq<Node>
    decreases items, 0
  {
    if items == [] then []
    else [Text(Spaces(n + 2)), NodeOf(encode, items[0], n + 4), Text("\n")] + ItemNodes(encode, items[1..], n)
  }

  function EntriesNodes(encode: seq<int> -> string, es: seq<Entry>, n: nat): seq<Node>
    decreases es, 0
  {
    if es == [] then []
    else EntryNodes(es[0].key, NodeOf(encode, es[0].value, n), n) + EntriesNodes(encode, es[1..], n)
  }

  /** One key and its value, each on a line of its own. Keys are written as they
      are. */
  function EntryNodes(key: string, value: Node, n: nat): seq<Node> {
    [Text(Spaces(n)), Elem("key", [Text(key)]), Text("\n" + Spaces(n)), value, Text("\n")]
  }

  predicate DistinctKeys(es: seq<Entry>) {
    forall i, j :: 0 <= i < j < |es| ==> es[i].key != es[j].key
  }

  predicate TrimmedKeys(es: seq<Entry>) {
    forall i :: 0 <= i < |es| ==> TrimSpace(es[i].key) == es[i].key
  }

  /** No key needs escaping. */
  predicate PlainKeys(es: seq<Entry>) {
    forall i :: 0 <= i < |es| ==> '&' !in es[i].key
  }

  lemma {:induction false} PlainTextStays(s: string)
    requires '&' !in s
    ensures UnescapeXML(s) == s
    decreases |s|
  {
    if s != "" { PlainTextStays(s[1..]); }
  }

  /** Numbers and data read back from their own text; keys are trimmed, distinct
      and need no escaping. */
  predicate Printable(rd: Readers, encode: seq<int> -> string, v: Value)
    decreases v, 1
  {
    match v
    case Integer(num, text) => rd.parseFloat(TrimSpace(text)) == Some(num)
    case Real(num, text) => rd.parseFloat(TrimSpace(text)) == Some(num)
    case Data(bytes) => rd.decode(WithoutBlanks(encode(bytes))) == Some(bytes)
    case Array(items) => forall x :: x in items ==> Printable(rd, encode, x)
    case Dict(es) =>
      DistinctKeys(es) && TrimmedKeys(es) && PlainKeys(es) && forall e :: e in es ==> Printable(rd, encode, e.value)
    case _ => true
  }

  lemma TextOfOne(raw: string)
    ensures TextOf([Text(EscapeXML(raw))]) == raw
  {
    UnescapeUndoesEscape(raw);
    assert [Text(EscapeXML(raw))][1..] == [];
    assert raw + "" == raw;
  }

  lemma PlainTextOfOne(raw: string)
    requires '&' !in raw
    ensures TextOf([Text(raw)]) == raw
  {
    PlainTextStays(raw);
    assert [Text(raw)][1..] == [] && raw + "" == raw;
  }

  /** A printed property list means itself. */
  lemma {:induction false} PrintedMeansItself(rd: Readers, encode: seq<int> -> string, v: Value, n: nat)
    requires Printable(rd, encode, v)
    ensures var node := NodeOf(encode, v, n); Meaning(rd, node.name, node.kids) == Ok(Some(v))
    decreases v, 1
  {
    hide TextOf, EscapeXML, TrimSpace, DictMeaning, ArrayMeaning;
    match v {
      case Array(items) =>
        ItemsMeanThemselves(rd, encode, items, n, [], Spaces(n));
        SkipFirst(rd, ItemNodes(encode, items, n) + [Text(Spaces(n))]);
        assert NodeOf(encode, v, n).kids == [Text("\n")] + (ItemNodes(encode, items, n) + [Text(Spaces(n))]);
        assert [] + items == items;
      case Dict(es) =>
        var close := Spaces(if n < 2 then 0 else n - 2);
        EntriesMeanThemselves(rd, encode, es, n, [], close);
        SkipFirst(rd, EntriesNodes(encode, es, n) + [Text(close)]);
        assert NodeOf(encode, v, n).kids == [Text("\n")] + (EntriesNodes(encode, es, n) + [Text(close)]);
        assert [] + es == es;
      case _ => LeafMeansItself(rd, encode, v, n);
    }
  }

  lemma LeafMeansItself(rd: Readers, encode: seq<int> -> string, v: Value, n: nat)
    requires Printable(rd, encode, v) && !v.Array? && !v.Dict?
    ensures var node := NodeOf(encode, v, n); Meaning(rd, node.name, node.kids) == Ok(Some(v))
  {
    hide TextOf, EscapeXML, TrimSpace, DictMeaning, ArrayMeaning;
    match v {
      case Str(text) => TextOfOne(text);
      case Integer(_, text) => TextOfOne(text);
      case Real(_, text) => TextOfOne(text);
      case Data(bytes) => TextOfOne(encode(bytes));
      case _ =>
    }
  }

  lemma SkipFirst(rd: Readers, ns: seq<Node>)
    ensures ArrayMeaning(rd, [Text("\n")] + ns, []) == ArrayMeaning(rd, ns, [])
    ensures DictMeaning(rd, [Text("\n")] + ns, [], None) == DictMeaning(rd, ns, [], None)
  {
  }

  lemma {:induction false} ItemsMeanThemselves(rd: Readers, encode: seq<int> -> string, items: seq<Value>, n: nat,
                                               before: seq<Value>, close: string)
    requires forall x :: x in items ==> Printable(rd, encode, x)
    ensures ArrayMeaning(rd, ItemNodes(encode, items, n) + [Text(close)], before) == Ok(Some(Array(before + items)))
    decreases items, 0
  {
    hide Meaning, NodeOf, Printable;
    if items == [] {
      assert ItemNodes(encode, items, n) + [Text(close)] == [Text(close)] && [Text(close)][1..] == [];
      assert before + items == before;
    } else {
      var node := NodeOf(encode, items[0], n + 4);
      NodeIsElem(encode, items[0], n + 4);
      PrintedMeansItself(rd, encode, items[0], n + 4);
      ItemsMeanThemselves(rd, encode, items[1..], n, before + [items[0]], close);
      var rest := ItemNodes(encode, items[1..], n) + [Text(close)];
      OneItem(rd, Spaces(n + 2), node, items[0], rest, before);
      assert ItemNodes(encode, items, n) + [Text(close)] == [Text(Spaces(n + 2)), node, Text("\n")] + rest;
      assert before + [items[0]] + items[1..] == before + items;
    }
  }

  lemma NodeIsElem(encode: seq<int> -> string, v: Value, n: nat)
    ensures NodeOf(encode, v, n).Elem? && NodeOf(encode, v, n).name != "key"
  {
  }

  lemma OneItem(rd: Readers, pad: string, node: Node, v: Value, rest: seq<Node>, before: seq<Value>)
    requires node.Elem? && Meaning(rd, node.name, node.kids) == Ok(Some(v))
    ensures ArrayMeaning(rd, [Text(pad), node, Text("\n")] + rest, before) == ArrayMeaning(rd, rest, before + [v])
  {
    hide Meaning;
    var n1 := [node, Text("\n")] + rest;
    var n2 := [Text("\n")] + rest;
    assert ([Text(pad), node, Text("\n")] + rest)[1..] == n1 && n1[1..] == n2 && n2[1..] == rest;
    assert ArrayMeaning(rd, n2, before + [v]) == ArrayMeaning(rd, rest, before + [v]);
    assert ArrayMeaning(rd, n1, before) == ArrayMeaning(rd, n2, before + [v]);
  }

  lemma {:induction false} PutNew(es: seq<Entry>, key: string, value: Value)
    requires forall i :: 0 <= i < |es| ==> es[i].key != key
    ensures Put(es, key, value) == es + [Entry(key, value)]
    decreases |es|
  {
    if es != [] {
      assert forall i :: 0 <= i < |es[1..]| ==> es[1..][i] == es[i + 1];
      PutNew(es[1..], key, value);
    }
  }

  lemma {:induction false} EntriesMeanThemselves(rd: Readers, encode: seq<int> -> string, es: seq<Entry>, n: nat,
                                                 before: seq<Entry>, close: string)
    requires DistinctKeys(before + es) && TrimmedKeys(es) && PlainKeys(es)
    requires forall e :: e in es ==> Printable(rd, encode, e.value)
    ensures DictMeaning(rd, EntriesNodes(encode, es, n) + [Text(close)], before, None) == Ok(Some(Dict(before + es)))
    decreases es, 0
  {
    hide Meaning, NodeOf, Printable, Put, EntryNodes, TrimSpace, DictMeaning, DistinctKeys, TrimmedKeys, PlainKeys;
    if es == [] {
      assert EntriesNodes(encode, es, n) + [Text(close)] == [Text(close)];
      assert before + es == before;
      NoMoreEntries(rd, before, close);
    } else {
      var e := es[0];
      assert e in es;
      var node := NodeOf(encode, e.value, n);
      NodeIsElem(encode, e.value, n);
      PrintedMeansItself(rd, encode, e.value, n);
      TakeEntry(before, es);
      EntriesMeanThemselves(rd, encode, es[1..], n, before + [e], close);
      var rest := EntriesNodes(encode, es[1..], n) + [Text(close)];
      OneEntry(rd, e.key, node, e.value, n, rest, before);
      assert EntriesNodes(encode, es, n) + [Text(close)] == EntryNodes(e.key, node, n) + rest;
    }
  }

  lemma NoMoreEntries(rd: Readers, es: seq<Entry>, close: string)
    ensures DictMeaning(rd, [Text(close)], es, None) == Ok(Some(Dict(es)))
  {
  }

  lemma TakeEntry(before: seq<Entry>, es: seq<Entry>)
    requires es != [] && DistinctKeys(before + es) && TrimmedKeys(es) && PlainKeys(es)
    ensures before + [es[0]] + es[1..] == before + es
    ensures DistinctKeys(before + [es[0]] + es[1..]) && TrimmedKeys(es[1..]) && PlainKeys(es[1..])
    ensures TrimSpace(es[0].key) == es[0].key && '&' !in es[0].key
    ensures Put(before, es[0].key, es[0].value) == before + [es[0]]
  {
    hide TrimSpace, Put;
    var e := es[0];
    assert before + [e] + es[1..] == before + es;
    assert forall i :: 0 <= i < |before| ==> (before + es)[i] == before[i];
    assert (before + es)[|before|] == e;
    PutNew(before, e.key, e.value);
    assert forall i :: 0 <= i < |es[1..]| ==> es[1..][i] == es[i + 1];
  }

  lemma OneEntry(rd: Readers, key: string, node: Node, v: Value, n: nat, rest: seq<Node>, before: seq<Entry>)
    requires node.Elem? && node.name != "key" && Meaning(rd, node.name, node.kids) == Ok(Some(v))
    requires TrimSpace(key) == key && '&' !in key
    ensures DictMeaning(rd, EntryNodes(key, node, n) + rest, before, None) ==
            DictMeaning(rd, rest, Put(before, key, v), None)
  {
    hide Meaning, Put, TrimSpace, TextOf, Spaces, EscapeXML;
    var k := Elem("key", [Text(key)]);
    PlainTextOfOne(key);
    var n1 := [k, Text("\n" + Spaces(n)), node, Text("\n")] + rest;
    var n2 := [Text("\n" + Spaces(n)), node, Text("\n")] + rest;
    var n3 := [node, Text("\n")] + rest;
    var n4 := [Text("\n")] + rest;
    var after := Put(before, key, v);
    assert (EntryNodes(key, node, n) + rest)[1..] == n1;
    assert n1[1..] == n2 && n2[1..] == n3 && n3[1..] == n4 && n4[1..] == rest;
    assert DictMeaning(rd, n4, after, None) == DictMeaning(rd, rest, after, None);
    assert DictMeaning(rd, n3, before, Some(key)) == DictMeaning(rd, n4, after, None);
    assert DictMeaning(rd, n2, before, Some(key)) == DictMeaning(rd, n3, before, Some(key));
    assert DictMeaning(rd, n1, before, None) == DictMeaning(rd, n2, before, Some(key));
  }

  /** Parsing what was printed gives back the tree and stops right after it. */
  lemma ParseUndoesPrint(rd: Readers, encode: seq<int> -> string, v: Value, n: nat, rest: seq<Token>)
    requires Printable(rd, encode, v)
    ensures var node := NodeOf(encode, v, n);
            var ts := Tokens(node) + rest;
            ts[0] == Start(node.name) && ValueFrom(rd, ts[1..], node.name) == Done(Some(v), rest)
  {
    hide NodeOf, Tokens, ValueFrom, Meaning, Printable;
    var node := NodeOf(encode, v, n);
    NodeIsElem(encode, v, n);
    PrintedMeansItself(rd, encode, v, n);
    ElemSplit(node.name, node.kids, rest);
    ParseIsMeaning(rd, node.name, node.kids, rest);
  }
}
