/** What a record says. A record is written here from the grammar of RFC 7208
    (sections 4.6.1 and 12): a version, and terms between blanks, each a directive with
    its sign, name and argument, or a modifier. Names and domains may be typed in any
    case, and a domain with a final dot. The reader of SpfText and SpfPolicy takes from
    the text exactly the steps and the redirects that were written. */
module SpfReading {
  import opened Wrappers
  import opened Strings
  import opened SpfText
  import opened SpfPolicy
  import opened SpfBudget
  import opened SpfLimits

  // --------------------------------------------------------------- the grammar

  datatype Sign = Unsigned | Plus | Minus | Tilde | Question

  /** A domain as typed, and the domain meant. */
  datatype Name = Name(typed: string, domain: string)

  /** A prefix length as typed, and the number meant. */
  datatype Length = Length(typed: string, n: int)

  datatype Directive =
    | Everyone
    | Net(v6: bool, spec: string)
    | Included(target: Name)
    | Hosts(mx: bool, at: Option<Name>, len4: Option<Length>, len6: Option<Length>)
    | Reverse(at: Option<Name>)
    | Existing(target: Name)

  datatype Item = Directive(sign: Sign, name: string, what: Directive) | Modifier(name: string, value: string)

  function SignText(s: Sign): string {
    match s
    case Unsigned => ""
    case Plus => "+"
    case Minus => "-"
    case Tilde => "~"
    case Question => "?"
  }

  /** The result a sign stands for (section 4.6.2). */
  function GradeOf(s: Sign): AuthResult {
    match s
    case Unsigned => Pass
    case Plus => Pass
    case Minus => Fail
    case Tilde => SoftFail
    case Question => Neutral
  }

  function NameOf(what: Directive): string {
    match what
    case Everyone => "all"
    case Net(v6, _) => if v6 then "ip6" else "ip4"
    case Included(_) => "include"
    case Hosts(mx, _, _, _) => if mx then "mx" else "a"
    case Reverse(_) => "ptr"
    case Existing(_) => "exists"
  }

  function DomainPart(at: Option<Name>): string {
    if at.Some? then ":" + at.value.typed else ""
  }

  function LengthPart(slashes: string, len: Option<Length>): string {
    if len.Some? then slashes + len.value.typed else ""
  }

  function Argument(what: Directive): string {
    match what
    case Everyone => ""
    case Net(_, spec) => ":" + spec
    case Included(target) => ":" + target.typed
    case Hosts(_, at, len4, len6) => DomainPart(at) + (LengthPart("/", len4) + LengthPart("//", len6))
    case Reverse(at) => DomainPart(at)
    case Existing(target) => ":" + target.typed
  }

  function TextOf(item: Item): string {
    match item
    case Directive(sign, name, what) => SignText(sign) + (name + Argument(what))
    case Modifier(name, value) => name + "=" + value
  }

  /** The terms, each behind its blanks. */
  function Body(items: seq<Item>, gaps: seq<string>): string
    requires |gaps| == |items|
  {
    if items == [] then "" else gaps[0] + (TextOf(items[0]) + Body(items[1..], gaps[1..]))
  }

  // ----------------------------------------------------------- what is well typed

  /** A domain in its normal form; it may hold a macro. */
  predicate PlainDomain(d: string) {
    d != "" && d[|d| - 1] != '.' && NoCapitals(d) && Solid(d) && '/' !in d
  }

  predicate TypedName(n: Name) {
    PlainDomain(n.domain) && (Spells(n.typed, n.domain) || Spells(n.typed, n.domain + "."))
  }

  predicate TypedLength(rd: Readers, len: Length, max: int) {
    len.typed != "" && '/' !in len.typed && Solid(len.typed) && rd.atoi(len.typed) == Some(len.n) && 0 <= len.n <= max
  }

  predicate TypedDirective(rd: Readers, what: Directive) {
    match what
    case Everyone => true
    case Net(_, spec) => Solid(spec)
    case Included(target) => TypedName(target)
    case Hosts(_, at, len4, len6) =>
      (at.Some? ==> TypedName(at.value)) && (len4.Some? ==> TypedLength(rd, len4.value, 32)) &&
      (len6.Some? ==> TypedLength(rd, len6.value, 128))
    case Reverse(at) => at.Some? ==> TypedName(at.value)
    case Existing(target) => TypedName(target)
  }

  predicate Typed(rd: Readers, item: Item) {
    match item
    case Directive(_, name, what) => Spells(name, NameOf(what)) && TypedDirective(rd, what)
    case Modifier(name, value) =>
      name != "" && '=' !in name && ':' !in name && '/' !in name && Solid(name) && Solid(value)
  }

  predicate AllTyped(rd: Readers, items: seq<Item>) {
    forall i :: 0 <= i < |items| ==> Typed(rd, items[i])
  }

  predicate Gaps(gaps: seq<string>) {
    forall i :: 0 <= i < |gaps| ==> gaps[i] != "" && Blank(gaps[i])
  }

  // -------------------------------------------------------------- what it means

  function TargetOf(at: Option<Name>, d: string): string {
    if at.Some? then at.value.domain else d
  }

  /** Unless its target holds a macro. */
  function Expanded(target: string, m: Mechanism): Mechanism {
    if '%' in target then Macro else m
  }

  /** The mechanism a directive stands for in the record of d (section 5). */
  function MechanismOf(rd: Readers, what: Directive, d: string): Mechanism
    requires TypedDirective(rd, what)
  {
    match what
    case Everyone => All
    case Net(v6, spec) => IpNet(v6, spec)
    case Included(target) => Expanded(target.domain, Include(target.domain))
    case Hosts(mx, at, len4, len6) =>
      var n4: Cidr4 := if len4.Some? then len4.value.n else 32;
      var n6: Cidr6 := if len6.Some? then len6.value.n else 128;
      var t := TargetOf(at, d);
      Expanded(t, if mx then HostMX(t, n4, n6) else HostA(t, n4, n6))
    case Reverse(at) => Expanded(TargetOf(at, d), Ptr(TargetOf(at, d)))
    case Existing(target) => Expanded(target.domain, Exists(target.domain))
  }

  function StepsWritten(rd: Readers, items: seq<Item>, d: string): seq<Step>
    requires AllTyped(rd, items)
  {
    if items == [] then []
    else
      assert Typed(rd, items[0]);
      (match items[0]
       case Directive(sign, _, what) => [Step(GradeOf(sign), MechanismOf(rd, what, d))]
       case Modifier(_, _) => [])
      + StepsWritten(rd, items[1..], d)
  }

  function RedirectsWritten(items: seq<Item>): seq<string> {
    if items == [] then []
    else
      (if items[0].Modifier? && Spells(items[0].name, "redirect") then [items[0].value] else [])
      + RedirectsWritten(items[1..])
  }

  function TextsOf(rd: Readers, items: seq<Item>): seq<Word>
    requires AllTyped(rd, items)
  {
    if items == [] then []
    else
      TextIsWord(rd, items[0]);
      [TextOf(items[0])] + TextsOf(rd, items[1..])
  }

  // ------------------------------------------------------------------- letters

  /** No character of a typed word is new but for its case. */
  lemma SpelledAre(typed: string, word: string, c: char)
    requires Spells(typed, word) && c !in word && !('A' <= c <= 'Z')
    ensures c !in typed
  {
  }

  lemma SpelledIsSolid(typed: string, word: string)
    requires Spells(typed, word) && Solid(word)
    ensures Solid(typed)
  {
    forall i | 0 <= i < |typed| ensures !IsSpace(typed[i]) { assert SameLetter(typed[i], word[i]) && !IsSpace(word[i]); }
  }

  lemma TrimSolid(s: string)
    requires Solid(s)
    ensures TrimSpace(s) == s
  {
  }

  lemma NameIsRead(n: Name)
    requires TypedName(n)
    ensures NormalizeDomain(n.typed) == n.domain && n.domain != ""
    ensures n.typed != "" && Solid(n.typed) && '/' !in n.typed
  {
    hide ToLower, TrimSpace, IsSpace;
    var d := n.domain;
    var word := if Spells(n.typed, d) then d else d + ".";
    SolidDot(d);
    SpelledIsSolid(n.typed, word);
    SpelledAre(n.typed, word, '/');
    TrimSolid(n.typed);
    LowerSpells(n.typed, word);
    assert word == d + "." ==> word[|word| - 1..] == ".";
    assert word == d ==> word[|word| - 1..] == [d[|d| - 1]];
  }

  lemma SolidDot(d: string)
    requires Solid(d)
    ensures Solid(d + ".")
  {
  }

  // --------------------------------------------------------------------- words

  lemma SolidConcat(a: string, b: string)
    requires Solid(a) && Solid(b)
    ensures Solid(a + b)
  {
  }

  lemma NamesAreSolid(what: Directive)
    ensures Solid(NameOf(what)) && NameOf(what) != "" && NoCapitals(NameOf(what))
    ensures '=' !in NameOf(what) && ':' !in NameOf(what) && '/' !in NameOf(what)
    ensures NameOf(what)[0] !in {'+', '-', '~', '?'}
  {
    NamesAreLetters(what);
    hide NameOf;
  }

  lemma NamesAreLetters(what: Directive)
    ensures var n := NameOf(what);
            n != "" && 'a' <= n[0] <= 'z' && forall i :: 0 <= i < |n| ==> 'a' <= n[i] <= 'z' || n[i] in {'4', '6'}
  {
  }

  lemma PartsAreSolid(rd: Readers, at: Option<Name>, len: Option<Length>, slashes: string, max: int)
    requires at.Some? ==> TypedName(at.value)
    requires len.Some? ==> TypedLength(rd, len.value, max)
    requires slashes in {"/", "//"}
    ensures Solid(DomainPart(at)) && Solid(LengthPart(slashes, len))
  {
    if at.Some? {
      NameIsRead(at.value);
      SolidConcat(":", at.value.typed);
    }
    if len.Some? { SolidConcat(slashes, len.value.typed); }
  }

  lemma ArgumentIsSolid(rd: Readers, what: Directive)
    requires TypedDirective(rd, what)
    ensures Solid(Argument(what)) && (Argument(what) != "" ==> Argument(what)[0] in {':', '/'})
  {
    hide Solid, TypedName, TypedLength;
    OneIsSolid();
    match what
    case Everyone =>
    case Net(_, spec) => SolidConcat(":", spec);
    case Included(target) => PartsAreSolid(rd, Some(target), None, "/", 32);
    case Existing(target) => PartsAreSolid(rd, Some(target), None, "/", 32);
    case Reverse(at) => PartsAreSolid(rd, at, None, "/", 32);
    case Hosts(_, at, len4, len6) =>
      PartsAreSolid(rd, at, len4, "/", 32);
      PartsAreSolid(rd, at, len6, "//", 128);
      SolidConcat(LengthPart("/", len4), LengthPart("//", len6));
      SolidConcat(DomainPart(at), LengthPart("/", len4) + LengthPart("//", len6));
  }

  lemma OneIsSolid()
    ensures Solid("") && Solid(":") && Solid("=")
    ensures forall s :: Solid(SignText(s))
  {
  }

  lemma TextIsWord(rd: Readers, item: Item)
    requires Typed(rd, item)
    ensures TextOf(item) != "" && Solid(TextOf(item))
  {
    hide Solid, TypedDirective;
    OneIsSolid();
    match item
    case Directive(sign, name, what) =>
      NamesAreSolid(what);
      SpelledIsSolid(name, NameOf(what));
      ArgumentIsSolid(rd, what);
      SolidConcat(name, Argument(what));
      SolidConcat(SignText(sign), name + Argument(what));
    case Modifier(name, value) =>
      SolidConcat(name, "=");
      SolidConcat(name + "=", value);
  }

  /** strings.Fields takes a word and goes on behind it. */
  lemma {:induction false} FieldsWord(word: string, rest: string)
    requires word != "" && Solid(word) && (rest == "" || IsSpace(rest[0]))
    ensures Fields(word + rest) == [word] + Fields(rest)
  {
    hide IsSpace;
    var s := word + rest;
    assert s[0] == word[0];
    WordEndIs(word, rest);
    assert s[..|word|] == word && s[|word|..] == rest;
  }

  lemma {:induction false} WordEndIs(word: string, rest: string)
    requires word != "" && Solid(word) && (rest == "" || IsSpace(rest[0]))
    ensures !IsSpace((word + rest)[0]) && WordEnd(word + rest) == |word|
    decreases |word|
  {
    hide IsSpace;
    var s := word + rest;
    assert s[0] == word[0];
    if |word| > 1 {
      assert s[1..] == word[1..] + rest && s[1] == word[1];
      WordEndIs(word[1..], rest);
    } else if rest != "" {
      assert s[1] == rest[0];
    }
  }

  lemma {:induction false} FieldsBlank(gap: string, rest: string)
    requires Blank(gap)
    ensures Fields(gap + rest) == Fields(rest)
    decreases |gap|
  {
    hide IsSpace;
    if gap == "" {
      assert gap + rest == rest;
    } else {
      assert (gap + rest)[1..] == gap[1..] + rest;
      FieldsBlank(gap[1..], rest);
    }
  }

  lemma {:induction false} FieldsOfBody(rd: Readers, items: seq<Item>, gaps: seq<string>, end: string)
    requires |gaps| == |items| && AllTyped(rd, items) && Gaps(gaps) && Blank(end)
    ensures Fields(Body(items, gaps) + end) == TextsOf(rd, items)
    ensures Body(items, gaps) + end == "" || IsSpace((Body(items, gaps) + end)[0])
    decreases |items|
  {
    hide Fields, TextOf, Typed, IsSpace;
    if items == [] {
      FieldsBlank(end, "");
      assert Body(items, gaps) + end == end && end + "" == end;
      NoFields();
    } else {
      var word, rest := TextOf(items[0]), Body(items[1..], gaps[1..]) + end;
      FieldsOfBody(rd, items[1..], gaps[1..], end);
      TextIsWord(rd, items[0]);
      assert Body(items, gaps) + end == gaps[0] + (word + rest);
      FieldsBlank(gaps[0], word + rest);
      FieldsWord(word, rest);
    }
  }

  lemma NoFields()
    ensures Fields("") == []
  {
  }

  // ------------------------------------------------------------------- one term

  lemma NotModifier(rd: Readers, sign: Sign, name: string, what: Directive)
    requires Typed(rd, Item.Directive(sign, name, what))
    ensures !IsModifier(TextOf(Item.Directive(sign, name, what)))
  {
    hide TypedDirective, Argument, NameOf, SignText, Solid, NoCapitals, Spells;
    NamesAreSolid(what);
    SpelledAre(name, NameOf(what), '=');
    SignsAreFew(sign);
    ArgumentIsSolid(rd, what);
    ArgumentFirst(SignText(sign), name, Argument(what));
  }

  lemma SignsAreFew(sign: Sign)
    ensures '=' !in SignText(sign)
  {
  }

  lemma ArgumentFirst(a: string, b: string, arg: string)
    requires '=' !in a && '=' !in b && (arg == "" || arg[0] in {':', '/'})
    ensures !IsModifier(a + (b + arg))
  {
    var t, n := a + (b + arg), |a| + |b|;
    forall k | 0 <= k < n ensures t[k] != '=' {
      assert t[k] == if k < |a| then a[k] else b[k - |a|];
    }
    if arg != "" {
      assert t[n] == arg[0];
      assert FirstOf(t, {':', '/'}) <= n;
    }
  }

  lemma ModifierIsRead(rd: Readers, name: string, value: string)
    requires Typed(rd, Modifier(name, value))
    ensures SplitModifier(TextOf(Modifier(name, value))) == Some((name, value))
  {
    var t := name + "=" + value;
    assert t[|name|] == '=';
    forall k | 0 <= k < |name| ensures t[k] !in {'=', ':', '/'} { assert t[k] == name[k]; }
    assert FirstOf(t, {'='}) == |name|;
    assert FirstOf(t, {':', '/'}) > |name|;
    assert t[..|name|] == name && t[|name| + 1..] == value;
  }

  /** The length part has its double slash where it was written. */
  lemma {:induction false} DoubleSlashAt(a: string, b: string)
    requires '/' !in a
    ensures DoubleSlash(a + "//" + b) == |a| && DoubleSlash(a) == |a|
    decreases |a|
  {
    if a != "" {
      assert (a + "//" + b)[1..] == a[1..] + "//" + b;
      DoubleSlashAt(a[1..], b);
    }
  }

  lemma DoubleSlashBehind(text: string, b: string)
    requires text != "" && '/' !in text
    ensures DoubleSlash("/" + text + "//" + b) == 1 + |text| && DoubleSlash("/" + text) == 1 + |text|
  {
    DoubleSlashAt(text, b);
    assert ("/" + text + "//" + b)[1..] == text + "//" + b;
    assert ("/" + text)[1..] == text;
  }

  lemma LengthsAreRead(rd: Readers, len4: Option<Length>, len6: Option<Length>, target: string)
    requires len4.Some? ==> TypedLength(rd, len4.value, 32)
    requires len6.Some? ==> TypedLength(rd, len6.value, 128)
    ensures ParseCidrs(rd, LengthPart("/", len4) + LengthPart("//", len6), target) ==
            Some((target, if len4.Some? then len4.value.n else 32, if len6.Some? then len6.value.n else 128))
  {
    hide DoubleSlash, Solid;
    var a, b := LengthPart("/", len4), LengthPart("//", len6);
    var s := a + b;
    var text4, text6 := if len4.Some? then len4.value.typed else "", if len6.Some? then len6.value.typed else "";
    if len4.Some? {
      DoubleSlashBehind(text4, text6);
      assert a[1..] == text4 && a[..1] == "/";
    } else {
      DoubleSlashAt("", text6);
      assert "" + "//" + text6 == "//" + text6;
    }
    if len6.Some? {
      assert s == a + "//" + text6;
      SplitLengths(rd, a, text6, target);
    } else {
      assert s == a && a[..|a|] == a;
    }
  }

  /** What is read from a length part with a double slash at |a|. */
  lemma SplitLengths(rd: Readers, a: string, b: string, target: string)
    requires b != "" && DoubleSlash(a + "//" + b) == |a|
    ensures ParseCidrs(rd, a + "//" + b, target) ==
            var c4 := if a == "" then Some(32) else if !HasPrefix(a, "/") then None else InRange(rd.atoi(a[1..]), 32);
            var c6 := InRange(rd.atoi(b), 128);
            if c4.None? || c6.None? then None else Some((target, c4.value, c6.value))
  {
    hide DoubleSlash;
    var s := a + "//" + b;
    assert s[..|a|] == a && s[|a| + 2..] == b;
  }

  lemma DomainThenLengths(rd: Readers, n: Name, lens: string, d: string)
    requires TypedName(n) && (lens == "" || lens[0] == '/')
    ensures ParseDomainCidr(rd, ":" + n.typed + lens, d) == ParseCidrs(rd, lens, n.domain)
  {
    hide NormalizeDomain, ParseCidrs, FirstOf;
    NameIsRead(n);
    hide TypedName;
    var arg, rest := ":" + n.typed + lens, n.typed + lens;
    assert arg[1..] == rest && arg[..1] == ":";
    SlashBehind(n.typed, lens);
    assert rest[..|n.typed|] == n.typed && rest[|n.typed|..] == lens;
  }

  lemma OnlyLengths(rd: Readers, lens: string, d: string)
    requires lens == "" || lens[0] == '/'
    ensures ParseDomainCidr(rd, lens, d) == ParseCidrs(rd, lens, d)
  {
    hide ParseCidrs, FirstOf;
  }

  lemma HostIsRead(rd: Readers, what: Directive, d: string)
    requires what.Hosts? && TypedDirective(rd, what)
    ensures ReadHost(rd, Argument(what), d, what.mx) == MechanismOf(rd, what, d)
  {
    hide TypedName, TypedLength, ParseCidrs, ParseDomainCidr, LengthPart;
    var lens := LengthPart("/", what.len4) + LengthPart("//", what.len6);
    LengthsAreRead(rd, what.len4, what.len6, TargetOf(what.at, d));
    LengthsStart(what.len4, what.len6);
    if what.at.Some? {
      DomainThenLengths(rd, what.at.value, lens, d);
      assert Argument(what) == ":" + what.at.value.typed + lens;
    } else {
      OnlyLengths(rd, lens, d);
      assert Argument(what) == lens;
    }
  }

  lemma LengthsStart(len4: Option<Length>, len6: Option<Length>)
    ensures var lens := LengthPart("/", len4) + LengthPart("//", len6); lens == "" || lens[0] == '/'
  {
  }

  lemma SlashBehind(a: string, b: string)
    requires '/' !in a && (b == "" || b[0] == '/')
    ensures FirstOf(a + b, {'/'}) == |a|
  {
    var s := a + b;
    forall k | 0 <= k < |a| ensures s[k] != '/' { assert s[k] == a[k]; }
    if b != "" { assert s[|a|] == '/'; }
  }

  lemma MechanismIsRead(rd: Readers, name: string, what: Directive, d: string)
    requires Spells(name, NameOf(what)) && TypedDirective(rd, what)
    ensures ReadMechanism(rd, name + Argument(what), d) == MechanismOf(rd, what, d)
  {
    var arg, s := Argument(what), name + Argument(what);
    NamesAreSolid(what);
    SpelledAre(name, NameOf(what), ':');
    SpelledAre(name, NameOf(what), '/');
    ArgumentIsSolid(rd, what);
    NameEnds(name, arg);
    LowerSpells(name, NameOf(what));
    assert s[..|name|] == name && s[|name|..] == arg;
    NamedIsRead(rd, what, d);
    hide NameOf, Argument, Spells, TypedDirective, MechanismOf, ToLower, FirstOf, ReadNamed, Solid, NoCapitals;
  }

  lemma NamedIsRead(rd: Readers, what: Directive, d: string)
    requires TypedDirective(rd, what)
    ensures ReadNamed(rd, NameOf(what), Argument(what), d) == MechanismOf(rd, what, d)
  {
    hide ToLower, NormalizeDomain, TypedName, TypedLength, Solid, ReadHost, FirstOf;
    match what
    case Everyone =>
    case Net(_, spec) => assert (":" + spec)[1..] == spec;
    case Included(target) => TargetIsRead(target);
    case Existing(target) => TargetIsRead(target);
    case Reverse(at) => if at.Some? { TargetIsRead(at.value); }
    case Hosts(_, _, _, _) => HostIsRead(rd, what, d);
  }

  lemma NameEnds(name: string, arg: string)
    requires ':' !in name && '/' !in name && (arg == "" || arg[0] in {':', '/'})
    ensures FirstOf(name + arg, {':', '/'}) == |name|
  {
    var s := name + arg;
    forall k | 0 <= k < |name| ensures s[k] !in {':', '/'} { assert s[k] == name[k]; }
    if arg != "" { assert s[|name|] == arg[0]; }
  }

  lemma TargetIsRead(n: Name)
    requires TypedName(n)
    ensures HasPrefix(":" + n.typed, ":") && |":" + n.typed| >= 2
    ensures NormalizeDomain((":" + n.typed)[1..]) == n.domain
  {
    NameIsRead(n);
    assert (":" + n.typed)[1..] == n.typed;
  }

  /** A directive is read as the step written. */
  lemma StepIsRead(rd: Readers, sign: Sign, name: string, what: Directive, d: string)
    requires Typed(rd, Item.Directive(sign, name, what))
    ensures TextOf(Item.Directive(sign, name, what)) != ""
    ensures ReadStep(rd, TextOf(Item.Directive(sign, name, what)), d) == Step(GradeOf(sign), MechanismOf(rd, what, d))
  {
    hide ReadMechanism, TypedDirective, MechanismOf;
    TextIsWord(rd, Item.Directive(sign, name, what));
    MechanismIsRead(rd, name, what, d);
    NamesAreSolid(what);
    assert SameLetter(name[0], NameOf(what)[0]);
    var t := TextOf(Item.Directive(sign, name, what));
    if sign.Unsigned? {
      assert t == name + Argument(what) && t[0] == name[0];
      assert t[0] !in {'+', '-', '~', '?'};
    } else {
      assert t[1..] == name + Argument(what) && t[0] == SignText(sign)[0];
    }
  }

  // -------------------------------------------------------------------- a record

  lemma {:induction false} TermsAreRead(rd: Readers, items: seq<Item>, d: string)
    requires AllTyped(rd, items)
    ensures Steps(rd, TextsOf(rd, items), d) == StepsWritten(rd, items, d)
    ensures Redirects(TextsOf(rd, items)) == RedirectsWritten(items)
    decreases |items|
  {
    hide ReadStep, TextOf, Typed, Redirects, MechanismOf, Spells;
    if items == [] {
      NoRedirects();
    } else {
      var item, rest := items[0], TextsOf(rd, items[1..]);
      TermsAreRead(rd, items[1..], d);
      assert Typed(rd, item);
      TextIsWord(rd, item);
      assert TextsOf(rd, items) == [TextOf(item)] + rest;
      RedirectsConcat([TextOf(item)], rest);
      RedirectOfOne(rd, item);
      StepsCons(rd, TextOf(item), rest, d);
      match item
      case Directive(sign, name, what) =>
        NotModifier(rd, sign, name, what);
        StepIsRead(rd, sign, name, what, d);
      case Modifier(name, value) => ModifierIsRead(rd, name, value);
    }
  }

  lemma StepsCons(rd: Readers, word: Word, rest: seq<Word>, d: string)
    ensures Steps(rd, [word] + rest, d) == (if IsModifier(word) then [] else [ReadStep(rd, word, d)]) + Steps(rd, rest, d)
  {
  }

  lemma NoRedirects()
    ensures Redirects([]) == []
  {
  }

  lemma RedirectOfOne(rd: Readers, item: Item)
    requires Typed(rd, item) && TextOf(item) != ""
    ensures Redirects([TextOf(item)]) == if item.Modifier? && Spells(item.name, "redirect") then [item.value] else []
  {
    hide TextOf, Typed, Spells, SplitModifier, ToLower;
    NoRedirects();
    assert [TextOf(item)][..0] == [];
    match item
    case Directive(sign, name, what) => NotModifier(rd, sign, name, what);
    case Modifier(name, value) =>
      ModifierIsRead(rd, name, value);
      LowerSpells(name, "redirect");
  }

  /** A text is a policy when the version stands at its start, alone or before a blank
      (section 4.5). */
  lemma PolicyTextIs(r: string)
    ensures IsPolicyText(r) <==> |r| >= 6 && Spells(r[..6], "v=spf1") && (|r| == 6 || r[6] == ' ')
  {
    hide ToLower, Spells;
    var lr := ToLower(r);
    forall i | 0 <= i < |r| ensures lr[i] == LowerChar(r[i]) { LowerAt(r, i); }
    if |r| >= 6 {
      var head := ToLower(r[..6]);
      forall i | 0 <= i < 6 ensures head[i] == lr[i] { LowerAt(r[..6], i); }
      assert head == lr[..6];
      LowerSpells(r[..6], "v=spf1");
      assert |r| == 6 ==> lr == lr[..6];
      if |r| > 6 {
        assert lr[..7] == lr[..6] + [lr[6]];
        assert "v=spf1 " == "v=spf1" + " ";
        assert lr[6] == ' ' <==> r[6] == ' ';
      }
    }
  }

  /** The steps and redirects of a written record are those that were written. */
  lemma RecordIsRead(rd: Readers, version: string, items: seq<Item>, gaps: seq<string>, end: string, d: string)
    requires Spells(version, "v=spf1") && AllTyped(rd, items) && |gaps| == |items| && Gaps(gaps) && Blank(end)
    requires var tail := Body(items, gaps) + end; tail == "" || tail[0] == ' '
    ensures var text := version + (Body(items, gaps) + end);
            && IsPolicyText(text) && TermsOf(text) == TextsOf(rd, items)
            && Steps(rd, TermsOf(text), d) == StepsWritten(rd, items, d)
            && Redirects(TermsOf(text)) == RedirectsWritten(items)
  {
    hide Steps, Redirects, Fields, Body, Typed, IsPolicyText;
    var tail := Body(items, gaps) + end;
    var text := version + tail;
    assert text[..6] == version;
    PolicyTextIs(text);
    FieldsOfBody(rd, items, gaps, end);
    VersionIsWord(version);
    FieldsWord(version, tail);
    TermsAreRead(rd, items, d);
  }

  lemma VersionIsWord(version: string)
    requires Spells(version, "v=spf1")
    ensures version != "" && Solid(version)
  {
    assert Solid("v=spf1");
    SpelledIsSolid(version, "v=spf1");
  }
}
