/** internal/mobileconfig/plist.go: a property list read from a stream of XML
    tokens by recursive descent. The meaning of an element is defined on document
    trees, and the parser is proved to compute it on the tokens of any tree. */
module Plist {
  import opened Wrappers
  import opened Strings

  datatype Token = Start(name: string) | End(name: string) | Chars(raw: string) | Misc

  datatype Value =
    | Str(text: string)
    | Integer(num: real, text: string)
    | Real(num: real, text: string)
    | Bool(flag: bool)
    | Data(bytes: seq<int>)
    | Array(items: seq<Value>)
    | Dict(entries: seq<Entry>)

  /** A dictionary keeps one entry per key, in the order keys were first seen. */
  datatype Entry = Entry(key: string, value: Value)

  datatype Fault = Truncated | BadNumber | BadData

  datatype Result<+T> = Ok(value: T) | Err(fault: Fault)

  /** strconv.ParseFloat and base64.StdEncoding.DecodeString. */
  datatype Readers = Readers(parseFloat: string -> Option<real>, decode: string -> Option<seq<int>>)

  // ----------------------------------------------------------------- entities

  function EscapeChar(c: char): string {
    match c
    case '&' => "&amp;"
    case '<' => "&lt;"
    case '>' => "&gt;"
    case '"' => "&quot;"
    case '\'' => "&apos;"
    case _ => [c]
  }

  /** escapeXML. */
  function EscapeXML(s: string): string {
    if s == "" then "" else EscapeChar(s[0]) + EscapeXML(s[1..])
  }

  /** The predefined entity s starts with: what it stands for and its length. */
  function EntityAt(s: string): (r: Option<(char, nat)>)
    requires s != ""
    ensures r.Some? ==> s[0] == '&' && 0 < r.value.1 <= |s|
  {
    if s[0] != '&' then None
    else if HasPrefix(s, "&amp;") then Some(('&', 5))
    else if HasPrefix(s, "&lt;") then Some(('<', 4))
    else if HasPrefix(s, "&gt;") then Some(('>', 4))
    else if HasPrefix(s, "&quot;") then Some(('"', 6))
    else if HasPrefix(s, "&apos;") then Some(('\'', 6))
    else None
  }

  /** How a tokenizer reads character data: the five predefined entities. */
  function UnescapeXML(s: string): string
    decreases |s|
  {
    if s == "" then ""
    else
      match EntityAt(s)
      case Some((c, n)) => [c] + UnescapeXML(s[n..])
      case None => [s[0]] + UnescapeXML(s[1..])
  }

  /** The entity of c is read as c whatever follows it. */
  lemma EntityOf(c: char, rest: string)
    requires EscapeChar(c) != [c]
    ensures EntityAt(EscapeChar(c) + rest) == Some((c, |EscapeChar(c)|))
  {
    var e := EscapeChar(c);
    var s := e + rest;
    assert s[..|e|] == e;
    assert forall i :: 0 <= i < |e| ==> s[i] == e[i];
    if |s| >= 5 { assert s[..5][2] == s[2] && s[..5][1] == s[1]; }
    if |s| >= 4 { assert s[..4][1] == s[1]; }
    if |s| >= 6 { assert s[..6][1] == s[1]; }
  }

  lemma {:induction false} UnescapeOne(c: char, rest: string)
    ensures UnescapeXML(EscapeChar(c) + rest) == [c] + UnescapeXML(rest)
  {
    hide EscapeChar, EntityAt;
    var e := EscapeChar(c);
    assert (e + rest)[|e|..] == rest;
    if e == [c] {
      PlainChar(c, rest);
    } else {
      EntityOf(c, rest);
    }
  }

  lemma PlainChar(c: char, rest: string)
    requires EscapeChar(c) == [c]
    ensures EntityAt([c] + rest) == None
  {
    assert c == '&' ==> |EscapeChar(c)| == 5;
  }

  /** A tokenizer reads back what was escaped. */
  lemma {:induction false} UnescapeUndoesEscape(s: string)
    ensures UnescapeXML(EscapeXML(s)) == s
    decreases |s|
  {
    if s != "" {
      UnescapeOne(s[0], EscapeXML(s[1..]));
      UnescapeUndoesEscape(s[1..]);
    }
  }

  // ------------------------------------------------------------ token streams

  /** The value read, None for an element that is not modelled, and what is left. */
  datatype Parsed<+T> = Done(value: T, rest: seq<Token>) | Bad(fault: Fault)

  /** readText: the character data up to the end of the open element, at any
      depth of nesting. */
  function TextFrom(ts: seq<Token>, depth: nat): (r: Parsed<string>)
    requires depth > 0
    ensures r.Done? ==> |r.rest| < |ts|
    decreases |ts|
  {
    if ts == [] then Bad(Truncated)
    else
      match ts[0]
      case Chars(raw) => Prefixed(UnescapeXML(raw), TextFrom(ts[1..], depth))
      case Start(_) => TextFrom(ts[1..], depth + 1)
      case End(_) => if depth == 1 then Done("", ts[1..]) else TextFrom(ts[1..], depth - 1)
      case Misc => TextFrom(ts[1..], depth)
  }

  function Prefixed(text: string, p: Parsed<string>): Parsed<string> {
    match p
    case Done(more, rest) => Done(text + more, rest)
    case Bad(f) => Bad(f)
  }

  lemma PrefixedTwice(a: string, b: string, p: Parsed<string>)
    ensures Prefixed(a, Prefixed(b, p)) == Prefixed(a + b, p) && Prefixed("", p) == p
  {
    if p.Done? {
      assert a + (b + p.value) == (a + b) + p.value && "" + p.value == p.value;
    }
  }

  /** skipElement. */
  function SkipFrom(ts: seq<Token>, depth: nat): (r: Parsed<()>)
    requires depth > 0
    ensures r.Done? ==> |r.rest| < |ts|
    decreases |ts|
  {
    if ts == [] then Bad(Truncated)
    else
      match ts[0]
      case Start(_) => SkipFrom(ts[1..], depth + 1)
      case End(_) => if depth == 1 then Done((), ts[1..]) else SkipFrom(ts[1..], depth - 1)
      case _ => SkipFrom(ts[1..], depth)
  }

  /** What the text of a leaf element becomes. */
  function LeafValue(rd: Readers, name: string, text: string): Result<Option<Value>> {
    match name
    case "string" => Ok(Some(Str(text)))
    case "date" => Ok(Some(Str(text)))
    case "integer" =>
      (match rd.parseFloat(TrimSpace(text))
       case None => Err(BadNumber)
       case Some(n) => Ok(Some(Integer(n, text))))
    case "real" =>
      (match rd.parseFloat(TrimSpace(text))
       case None => Err(BadNumber)
       case Some(n) => Ok(Some(Real(n, text))))
    case "data" =>
      (match rd.decode(WithoutBlanks(text))
       case None => Err(BadData)
       case Some(bytes) => Ok(Some(Data(bytes))))
    case "true" => Ok(Some(Bool(true)))
    case "false" => Ok(Some(Bool(false)))
    case _ => Ok(None)
  }

  /** The elements whose character data is their value. */
  predicate IsTextual(name: string) {
    name in {"string", "date", "integer", "real", "data"}
  }

  function WithoutBlanks(s: string): string {
    if s == "" then ""
    else (if s[0] in {' ', '\t', '\n', '\r'} then "" else [s[0]]) + WithoutBlanks(s[1..])
  }

  /** Stores a value under a key: the first key keeps its place. */
  function Put(es: seq<Entry>, key: string, value: Value): seq<Entry> {
    if es == [] then [Entry(key, value)]
    else if es[0].key == key then [Entry(key, value)] + es[1..]
    else [es[0]] + Put(es[1..], key, value)
  }

  /** parseValue, after the start of an element. */
  function ValueFrom(rd: Readers, ts: seq<Token>, name: string): (r: Parsed<Option<Value>>)
    ensures r.Done? ==> |r.rest| < |ts|
    decreases |ts|, 1
  {
    if name == "dict" then DictFrom(rd, ts, [], None)
    else if name == "array" then ArrayFrom(rd, ts, [])
    else if IsTextual(name) then
      match TextFrom(ts, 1)
      case Bad(f) => Bad(f)
      case Done(text, rest) =>
        (match LeafValue(rd, name, text)
         case Err(f) => Bad(f)
         case Ok(v) => Done(v, rest))
    else
      match SkipFrom(ts, 1)
      case Bad(f) => Bad(f)
      case Done(_, rest) => Done(LeafValue(rd, name, "").value, rest)
  }

  /** parseDict, with the entries so far and the key waiting for its value. */
  function DictFrom(rd: Readers, ts: seq<Token>, es: seq<Entry>, key: Option<string>): (r: Parsed<Option<Value>>)
    ensures r.Done? ==> |r.rest| < |ts|
    decreases |ts|, 0
  {
    if ts == [] then Bad(Truncated)
    else
      match ts[0]
      case End(name) => if name == "dict" then Done(Some(Dict(es)), ts[1..]) else DictFrom(rd, ts[1..], es, key)
      case Start(name) =>
        if name == "key" then
          match TextFrom(ts[1..], 1)
          case Bad(f) => Bad(f)
          case Done(text, rest) => DictFrom(rd, rest, es, Some(TrimSpace(text)))
        else
          (match ValueFrom(rd, ts[1..], name)
           case Bad(f) => Bad(f)
           case Done(v, rest) => DictFrom(rd, rest, Stored(es, key, v), None))
      case _ => DictFrom(rd, ts[1..], es, key)
  }

  /** A value with no key, and a key with no value, are dropped. */
  function Stored(es: seq<Entry>, key: Option<string>, v: Option<Value>): seq<Entry> {
    if key.None? || v.None? then es else Put(es, key.value, v.value)
  }

  function ArrayFrom(rd: Readers, ts: seq<Token>, items: seq<Value>): (r: Parsed<Option<Value>>)
    ensures r.Done? ==> |r.rest| < |ts|
    decreases |ts|, 0
  {
    if ts == [] then Bad(Truncated)
    else
      match ts[0]
      case End(name) => if name == "array" then Done(Some(Array(items)), ts[1..]) else ArrayFrom(rd, ts[1..], items)
      case Start(name) =>
        (match ValueFrom(rd, ts[1..], name)
         case Bad(f) => Bad(f)
         case Done(v, rest) => ArrayFrom(rd, rest, if v.Some? then items + [v.value] else items))
      case _ => ArrayFrom(rd, ts[1..], items)
  }

  /** The decoder and the parse functions that consume it. */
  class Decoder {
    const rd: Readers
    var rest: seq<Token>

    constructor (rd: Readers, tokens: seq<Token>)
      ensures this.rd == rd && rest == tokens
    {
      this.rd, rest := rd, tokens;
    }

    /** decoder.Token: the next token with its entities resolved. */
    method Next() returns (t: Option<Token>)
      modifies this
      ensures old(rest) == [] ==> t.None? && rest == []
      ensures old(rest) != [] ==> t == Some(old(rest)[0]) && rest == old(rest)[1..]
    {
      if rest == [] { return None; }
      t := Some(rest[0]);
      rest := rest[1..];
    }

    method ReadText() returns (r: Result<string>)
      modifies this
      ensures match TextFrom(old(rest), 1)
              case Done(text, left) => r == Ok(text) && rest == left
              case Bad(f) => r == Err(f)
      ensures |rest| <= |old(rest)|
    {
      ghost var want := TextFrom(rest, 1);
      var text := "";
      var depth := 1;
      PrefixedTwice("", "", want);
      while depth > 0
        invariant |rest| <= |old(rest)|
        invariant depth > 0 ==> want == Prefixed(text, TextFrom(rest, depth))
        invariant depth == 0 ==> want == Done(text, rest)
        decreases |rest|, depth
      {
        var t := Next();
        if t.None? { return Err(Truncated); }
        match t.value
        case Chars(raw) =>
          PrefixedTwice(text, UnescapeXML(raw), TextFrom(rest, depth));
          text := text + UnescapeXML(raw);
        case Start(_) => depth := depth + 1;
        case End(_) =>
          assert text + "" == text;
          depth := depth - 1;
        case Misc =>
      }
      return Ok(text);
    }

    method SkipElement() returns (fault: Option<Fault>)
      modifies this
      ensures match SkipFrom(old(rest), 1)
              case Done(_, left) => fault == None && rest == left
              case Bad(f) => fault == Some(f)
      ensures |rest| <= |old(rest)|
    {
      ghost var want := SkipFrom(rest, 1);
      var depth := 1;
      while depth > 0
        invariant |rest| <= |old(rest)|
        invariant depth > 0 ==> want == SkipFrom(rest, depth)
        invariant depth == 0 ==> want == Done((), rest)
        decreases |rest|, depth
      {
        var t := Next();
        if t.None? { return Some(Truncated); }
        match t.value
        case Start(_) => depth := depth + 1;
        case End(_) => depth := depth - 1;
        case _ =>
      }
      return None;
    }

    method ParseValue(name: string) returns (r: Result<Option<Value>>)
      modifies this
      ensures match ValueFrom(rd, old(rest), name)
              case Done(v, left) => r == Ok(v) && rest == left
              case Bad(f) => r == Err(f)
      ensures |rest| <= |old(rest)|
      decreases |rest|, 1
    {
      if name == "dict" {
        r := ParseDict();
      } else if name == "array" {
        r := ParseArray();
      } else if IsTextual(name) {
        var text := ReadText();
        if text.Err? { return Err(text.fault); }
        r := LeafValue(rd, name, text.value);
      } else {
        var fault := SkipElement();
        if fault.Some? { return Err(fault.value); }
        r := LeafValue(rd, name, "");
      }
    }

    method ParseDict() returns (r: Result<Option<Value>>)
      modifies this
      ensures match DictFrom(rd, old(rest), [], None)
              case Done(v, left) => r == Ok(v) && rest == left
              case Bad(f) => r == Err(f)
      ensures |rest| <= |old(rest)|
      decreases |rest|, 0
    {
      hide UnescapeXML, LeafValue, TrimSpace, TextFrom, ValueFrom, Put;
      var es: seq<Entry> := [];
      var key: Option<string> := None;
      while true
        invariant |rest| <= |old(rest)|
        invariant DictFrom(rd, rest, es, key) == DictFrom(rd, old(rest), [], None)
        decreases |rest|
      {
        var t := Next();
        if t.None? { return Err(Truncated); }
        match t.value
        case Start(name) =>
          if name == "key" {
            var text := ReadText();
            if text.Err? { return Err(text.fault); }
            key := Some(TrimSpace(text.value));
          } else {
            var v := ParseValue(name);
            if v.Err? { return Err(v.fault); }
            es := Stored(es, key, v.value);
            key := None;
          }
        case End(name) => if name == "dict" { return Ok(Some(Dict(es))); }
        case _ =>
      }
    }

    method ParseArray() returns (r: Result<Option<Value>>)
      modifies this
      ensures match ArrayFrom(rd, old(rest), [])
              case Done(v, left) => r == Ok(v) && rest == left
              case Bad(f) => r == Err(f)
      ensures |rest| <= |old(rest)|
      decreases |rest|, 0
    {
      hide ValueFrom;
      var items: seq<Value> := [];
      while true
        invariant |rest| <= |old(rest)|
        invariant ArrayFrom(rd, rest, items) == ArrayFrom(rd, old(rest), [])
        decreases |rest|
      {
        var t := Next();
        if t.None? { return Err(Truncated); }
        match t.value
        case Start(name) =>
          var v := ParseValue(name);
          if v.Err? { return Err(v.fault); }
          if v.value.Some? { items := items + [v.value.value]; }
        case End(name) => if name == "array" { return Ok(Some(Array(items))); }
        case _ =>
      }
    }
  }
}
