/** What Parse of internal/mobileconfig/parse.go makes of any profile, its own or a
    foreign one: said of the entries its dictionaries have and lack. */
module ProfileImport {
  import opened Wrappers
  import opened Strings
  import opened Plist
  import opened PlistTree
  import opened MobileConfigParse
  import opened ProfileRoot

  // ------------------------------------------------------------------ documents

  /** A document with a plist element: what stands before it, inside it and after it. */
  datatype Document = Document(lead: seq<Token>, kids: seq<Node>, rest: seq<Token>)

  function TokensIn(doc: Document): seq<Token> {
    doc.lead + (Tokens(Elem("plist", doc.kids)) + doc.rest)
  }

  /** The first element inside plist means root. */
  predicate HasRoot(rd: Readers, doc: Document, root: Value) {
    && BeforeRoot(doc.lead) && FirstElement(doc.kids).Some?
    && Meaning(rd, FirstElement(doc.kids).value.name, FirstElement(doc.kids).value.kids) == Ok(Some(root))
  }

  lemma RootIsRead(rd: Readers, doc: Document, root: Value)
    requires HasRoot(rd, doc, root)
    ensures ParseTokens(rd, TokensIn(doc)) == ReadProfile(rd, root)
  {
    var ts := Tokens(Elem("plist", doc.kids)) + doc.rest;
    LeadIsSkipped(rd, doc.lead, ts);
    ElemSplit("plist", doc.kids, doc.rest);
    BodyIsFirstElement(rd, doc.kids, doc.rest);
    RootIsBody(rd, ts);
    hide Meaning, BodyFrom, RootFrom, Tokens, AllTokens, ValueFrom, ReadProfile, BeforeRoot;
  }

  // -------------------------------------------------------- entries had and lacked

  /** The first entry of the key has the value. */
  predicate Has(es: seq<Entry>, key: string, v: Value) {
    exists i :: 0 <= i < |es| && es[i] == Entry(key, v) && forall j :: 0 <= j < i ==> es[j].key != key
  }

  predicate Lacks(es: seq<Entry>, key: string) {
    forall i :: 0 <= i < |es| ==> es[i].key != key
  }

  lemma {:induction false} LookupIsFirst(es: seq<Entry>, key: string)
    ensures Lookup(es, key).Some? ==> Has(es, key, Lookup(es, key).value)
    ensures Lookup(es, key) == None ==> Lacks(es, key)
    decreases |es|
  {
    if es != [] {
      if es[0].key == key {
        assert es[0] == Entry(key, es[0].value);
      } else {
        var rest := es[1..];
        LookupIsFirst(rest, key);
        assert forall i :: 0 <= i < |rest| ==> rest[i] == es[i + 1];
        if Lookup(rest, key).Some? {
          var v := Lookup(rest, key).value;
          var i :| 0 <= i < |rest| && rest[i] == Entry(key, v) && forall j :: 0 <= j < i ==> rest[j].key != key;
          assert es[i + 1] == Entry(key, v);
          assert forall j :: 0 < j < i + 1 ==> es[j] == rest[j - 1];
        }
      }
    }
  }

  /** A key has one first entry. */
  lemma HasOne(es: seq<Entry>, key: string, v: Value)
    requires Has(es, key, v)
    ensures Lookup(es, key) == Some(v) && !Lacks(es, key)
  {
    LookupIsFirst(es, key);
    var i :| 0 <= i < |es| && es[i] == Entry(key, v) && forall j :: 0 <= j < i ==> es[j].key != key;
    if Lookup(es, key).Some? {
      var u := Lookup(es, key).value;
      var k :| 0 <= k < |es| && es[k] == Entry(key, u) && forall j :: 0 <= j < k ==> es[j].key != key;
      assert i == k;
    }
  }

  lemma LacksNone(es: seq<Entry>, key: string)
    requires Lacks(es, key)
    ensures Lookup(es, key) == None
  {
    LookupIsFirst(es, key);
  }

  /** A key that comes again changes its value and keeps its place. */
  lemma {:induction false} LastValueWins(es: seq<Entry>, key: string, v: Value, other: string)
    ensures Lookup(Put(es, key, v), other) == if other == key then Some(v) else Lookup(es, other)
    ensures var was := Lacks(es, key); |Put(es, key, v)| == |es| + (if was then 1 else 0)
    ensures forall i :: 0 <= i < |es| ==> Put(es, key, v)[i].key == es[i].key
    decreases |es|
  {
    if es != [] {
      LastValueWins(es[1..], key, v, other);
      assert Lacks(es, key) <==> es[0].key != key && Lacks(es[1..], key) by {
        assert forall i :: 0 <= i < |es[1..]| ==> es[1..][i] == es[i + 1];
        assert forall i :: 0 < i < |es| ==> es[i] == es[1..][i - 1];
      }
    }
  }

  // --------------------------------------------------------- what an entry says

  predicate Textual(v: Value) {
    v.Str? || v.Integer? || v.Real?
  }

  /** The text under a key; none if there is no entry or no text in it. */
  ghost predicate TextIs(es: seq<Entry>, key: string, s: string) {
    if exists v :: Has(es, key, v) && Textual(v) then exists v :: Has(es, key, v) && Textual(v) && v.text == s
    else s == ""
  }

  ghost predicate TrimmedIs(es: seq<Entry>, key: string, s: string) {
    exists t :: TextIs(es, key, t) && Trims(t, s)
  }

  /** A text that means true, or false, in any case and between blanks. */
  ghost predicate SaysTrue(text: string) {
    exists t :: Trims(text, t) && (Spells(t, "true") || Spells(t, "yes") || t == "1")
  }

  ghost predicate SaysFalse(text: string) {
    exists t :: Trims(text, t) && (Spells(t, "false") || Spells(t, "no") || t == "0")
  }

  /** The truth value under a key. */
  ghost predicate FlagIs(es: seq<Entry>, key: string, fallback: bool, b: bool) {
    match Lookup(es, key)
    case None => b == fallback
    case Some(v) =>
      Has(es, key, v) &&
      match v
      case Bool(flag) => b == flag
      case Integer(num, _) => b == (num != 0.0)
      case Real(num, _) => b == (num != 0.0)
      case Str(text) => if SaysTrue(text) then b else if SaysFalse(text) then !b else b == fallback
      case _ => b == fallback
  }

  /** n is num without its fraction. */
  predicate WholePart(num: real, n: int) {
    if num >= 0.0 then n >= 0 && n as real <= num < (n + 1) as real else n <= 0 && (n - 1) as real < num <= n as real
  }

  /** The number under a key. */
  ghost predicate NumberIs(rd: Readers, es: seq<Entry>, key: string, fallback: int, n: int) {
    match Lookup(es, key)
    case None => n == fallback
    case Some(v) =>
      Has(es, key, v) &&
      match v
      case Integer(num, _) => WholePart(num, n)
      case Real(num, _) => WholePart(num, n)
      case Str(text) =>
        (forall t :: Trims(text, t) ==>
           if rd.parseFloat(t).Some? then WholePart(rd.parseFloat(t).value, n) else n == fallback)
      case _ => n == fallback
  }

  /** The text of one key, or another one when it is empty. */
  ghost predicate TextOrIs(es: seq<Entry>, key: string, other: string, s: string) {
    exists t :: TrimmedIs(es, key, t) && s == if t != "" then t else other
  }

  /** The mail account a payload describes. */
  ghost predicate DescribesMail(rd: Readers, es: seq<Entry>, m: MailAccount) {
    && TextIs(es, "EmailAccountDescription", m.description) && TextIs(es, "EmailAccountName", m.name)
    && TrimmedIs(es, "EmailAddress", m.email)
    && FlagIs(es, "IncomingMailServerUseSSL", true, m.imapTLS) && FlagIs(es, "OutgoingMailServerUseSSL", true, m.smtpTLS)
    && NumberIs(rd, es, "IncomingMailServerPortNumber", if m.imapTLS then 993 else 143, m.imapPort)
    && NumberIs(rd, es, "OutgoingMailServerPortNumber", if m.smtpTLS then 465 else 587, m.smtpPort)
    && TrimmedIs(es, "IncomingMailServerHostName", m.imapHost) && m.imapHost != ""
    && TextOrIs(es, "OutgoingMailServerHostName", m.imapHost, m.smtpHost)
    && TrimmedIs(es, "IncomingMailServerUsername", m.imapUsername)
    && TextOrIs(es, "OutgoingMailServerUsername", m.imapUsername, m.smtpUsername)
    && TextIs(es, "IncomingPassword", m.imapPassword)
    && exists own, same ::
         TextIs(es, "OutgoingPassword", own) && FlagIs(es, "OutgoingPasswordSameAsIncomingPassword", false, same) &&
         m.smtpPassword == if own == "" && same then m.imapPassword else own
  }

  /** The CalDAV or CardDAV account a payload describes. */
  ghost predicate DescribesDav(rd: Readers, es: seq<Entry>, prefix: string, a: DavAccount) {
    && TextIs(es, prefix + "AccountDescription", a.description) && TrimmedIs(es, prefix + "HostName", a.hostname)
    && FlagIs(es, prefix + "UseSSL", true, a.useSSL)
    && NumberIs(rd, es, prefix + "Port", if a.useSSL then 443 else 80, a.port)
    && TrimmedIs(es, prefix + "PrincipalURL", a.principal) && TrimmedIs(es, prefix + "Username", a.username)
    && TextIs(es, prefix + "Password", a.password)
  }

  // ---------------------------------------------------------- the accessors comply

  lemma TextComplies(es: seq<Entry>, key: string)
    ensures forall s :: TextIs(es, key, s) <==> s == StringOr(Some(Dict(es)), key, "")
  {
    hide Has, Lacks;
    LookupIsFirst(es, key);
    forall v | Has(es, key, v) ensures Lookup(es, key) == Some(v) { HasOne(es, key, v); }
    if Lookup(es, key).Some? { assert Has(es, key, Lookup(es, key).value); }
    else { assert forall v :: !Has(es, key, v); }
  }

  lemma TrimmedComplies(es: seq<Entry>, key: string)
    ensures forall s :: TrimmedIs(es, key, s) <==> s == TrimSpace(StringOr(Some(Dict(es)), key, ""))
  {
    hide TextIs, Trims, TrimSpace, StringOr;
    TextComplies(es, key);
    var t := StringOr(Some(Dict(es)), key, "");
    TrimSpaceTrims(t);
    forall s | Trims(t, s) ensures s == TrimSpace(t) { TrimsOnce(t, s, TrimSpace(t)); }
  }

  lemma SaysComplies(text: string)
    ensures SaysTrue(text) <==> ToLower(TrimSpace(text)) in {"true", "yes", "1"}
    ensures SaysFalse(text) <==> ToLower(TrimSpace(text)) in {"false", "no", "0"}
  {
    hide Trims, TrimSpace, ToLower, Spells;
    var t := TrimSpace(text);
    TrimSpaceTrims(text);
    forall s | Trims(text, s) ensures s == t { TrimsOnce(text, s, t); }
    LowerSpells(t, "true");
    LowerSpells(t, "yes");
    LowerSpells(t, "1");
    LowerSpells(t, "false");
    LowerSpells(t, "no");
    LowerSpells(t, "0");
    DigitsHaveNoCase(t);
  }

  lemma DigitsHaveNoCase(t: string)
    ensures Spells(t, "1") <==> t == "1"
    ensures Spells(t, "0") <==> t == "0"
  {
  }

  lemma FlagComplies(es: seq<Entry>, key: string, fallback: bool)
    ensures FlagIs(es, key, fallback, BoolOr(Some(Dict(es)), key, fallback))
  {
    hide Has, Lacks, SaysTrue, SaysFalse, ToLower, TrimSpace;
    LookupIsFirst(es, key);
    match Lookup(es, key)
    case Some(Str(text)) => SaysComplies(text);
    case _ =>
  }

  lemma TruncationIsWholePart(num: real)
    ensures WholePart(num, MobileConfigParse.Truncated(num))
  {
  }

  lemma NumberComplies(rd: Readers, es: seq<Entry>, key: string, fallback: int)
    ensures NumberIs(rd, es, key, fallback, IntOr(rd, Some(Dict(es)), key, fallback))
  {
    hide Has, Lacks, TrimSpace, Trims, WholePart, MobileConfigParse.Truncated;
    LookupIsFirst(es, key);
    match Lookup(es, key)
    case Some(Str(text)) =>
      TrimSpaceTrims(text);
      forall t | Trims(text, t) ensures t == TrimSpace(text) { TrimsOnce(text, t, TrimSpace(text)); }
      if rd.parseFloat(TrimSpace(text)).Some? { TruncationIsWholePart(rd.parseFloat(TrimSpace(text)).value); }
    case Some(Integer(num, _)) => TruncationIsWholePart(num);
    case Some(Real(num, _)) => TruncationIsWholePart(num);
    case _ =>
  }

  lemma TextOrComplies(es: seq<Entry>, key: string, other: string)
    ensures var t := TrimSpace(StringOr(Some(Dict(es)), key, ""));
            TextOrIs(es, key, other, if t == "" then other else t)
  {
    hide TrimmedIs, TrimSpace, StringOr;
    TrimmedComplies(es, key);
    assert TrimmedIs(es, key, TrimSpace(StringOr(Some(Dict(es)), key, "")));
  }

  /** The account type is POP, in any spelling. */
  ghost predicate IsPop(es: seq<Entry>) {
    exists t :: TextIs(es, "EmailAccountType", t) && Spells(t, "emailtypepop")
  }

  /** An entry with the host of the incoming server is missing or blank. */
  ghost predicate NoHost(es: seq<Entry>) {
    TrimmedIs(es, "IncomingMailServerHostName", "")
  }

  lemma MailComplies(rd: Readers, es: seq<Entry>)
    ensures var r := ParseMail(rd, Some(Dict(es)));
            && (r == Wrong(PopAccount) <==> IsPop(es))
            && (r == Wrong(NoIncomingHost) <==> !IsPop(es) && NoHost(es))
            && (r.Wrong? ==> r.problem == PopAccount || r.problem == NoIncomingHost)
            && (r.Right? ==> DescribesMail(rd, es, r.value))
  {
    hide TextIs, TrimmedIs, FlagIs, NumberIs, TextOrIs, StringOr, BoolOr, IntOr, TrimSpace, ToLower, Spells;
    var p := Some(Dict(es));
    TextComplies(es, "EmailAccountType");
    LowerSpells(StringOr(p, "EmailAccountType", ""), "emailtypepop");
    TextComplies(es, "EmailAccountDescription");
    TextComplies(es, "EmailAccountName");
    TextComplies(es, "IncomingPassword");
    TextComplies(es, "OutgoingPassword");
    TrimmedComplies(es, "EmailAddress");
    TrimmedComplies(es, "IncomingMailServerHostName");
    TrimmedComplies(es, "IncomingMailServerUsername");
    TextOrComplies(es, "OutgoingMailServerHostName", TrimSpace(StringOr(p, "IncomingMailServerHostName", "")));
    TextOrComplies(es, "OutgoingMailServerUsername", TrimSpace(StringOr(p, "IncomingMailServerUsername", "")));
    FlagComplies(es, "IncomingMailServerUseSSL", true);
    FlagComplies(es, "OutgoingMailServerUseSSL", true);
    FlagComplies(es, "OutgoingPasswordSameAsIncomingPassword", false);
    var imapTLS := BoolOr(p, "IncomingMailServerUseSSL", true);
    var smtpTLS := BoolOr(p, "OutgoingMailServerUseSSL", true);
    NumberComplies(rd, es, "IncomingMailServerPortNumber", if imapTLS then 993 else 143);
    NumberComplies(rd, es, "OutgoingMailServerPortNumber", if smtpTLS then 465 else 587);
    assert TextIs(es, "EmailAccountType", StringOr(p, "EmailAccountType", ""));
    assert TextIs(es, "OutgoingPassword", StringOr(p, "OutgoingPassword", ""));
  }

  lemma DavComplies(rd: Readers, es: seq<Entry>, prefix: string)
    ensures DescribesDav(rd, es, prefix, ParseDav(rd, Some(Dict(es)), prefix))
  {
    hide TextIs, TrimmedIs, FlagIs, NumberIs, StringOr, BoolOr, IntOr, TrimSpace;
    TextComplies(es, prefix + "AccountDescription");
    TextComplies(es, prefix + "Password");
    TrimmedComplies(es, prefix + "HostName");
    TrimmedComplies(es, prefix + "PrincipalURL");
    TrimmedComplies(es, prefix + "Username");
    FlagComplies(es, prefix + "UseSSL", true);
    var useSSL := BoolOr(Some(Dict(es)), prefix + "UseSSL", true);
    NumberComplies(rd, es, prefix + "Port", if useSSL then 443 else 80);
  }

  // ------------------------------------------------------------------- payloads

  const MAIL := "com.apple.mail.managed"
  const CALDAV := "com.apple.caldav.account"
  const CARDDAV := "com.apple.carddav.account"

  /** The payload is a dictionary of that type. */
  ghost predicate IsOf(p: Value, t: string) {
    p.Dict? && TextIs(p.entries, "PayloadType", t)
  }

  ghost predicate NoneOf(ps: seq<Value>, t: string) {
    forall i :: 0 <= i < |ps| ==> !IsOf(ps[i], t)
  }

  /** ps[k] is the first payload of the type. */
  ghost predicate FirstOf(ps: seq<Value>, t: string, k: int) {
    0 <= k < |ps| && IsOf(ps[k], t) && NoneOf(ps[..k], t)
  }

  lemma TypeComplies(p: Value, t: string)
    requires t != ""
    ensures IsOf(p, t) <==> StringOr(Some(p), "PayloadType", "") == t
  {
    hide TextIs;
    if p.Dict? { TextComplies(p.entries, "PayloadType"); }
  }

  /** What one payload does. */
  lemma OnePayload(rd: Readers, out: Account, p: Value)
    ensures var r := AddPayload(rd, out, p);
            && (IsOf(p, MAIL) ==>
                  match ParseMail(rd, Some(p))
                  case Wrong(e) => r == Wrong(e)
                  case Right(m) => r.Right? && r.value.mail == (if out.mail.None? then Some(m) else out.mail))
            && (!IsOf(p, MAIL) ==> r.Right? && r.value.mail == out.mail)
            && (r.Right? ==>
                  && r.value.calDAV == (if IsOf(p, CALDAV) && out.calDAV.None? then Some(ParseDav(rd, Some(p), "CalDAV"))
                                        else out.calDAV)
                  && r.value.cardDAV == (if IsOf(p, CARDDAV) && out.cardDAV.None? then Some(ParseDav(rd, Some(p), "CardDAV"))
                                         else out.cardDAV)
                  && (r.value.displayName, r.value.organization, r.value.identifier) ==
                     (out.displayName, out.organization, out.identifier))
  {
    TypeComplies(p, MAIL);
    TypeComplies(p, CALDAV);
    TypeComplies(p, CARDDAV);
    hide ParseMail, ParseDav, StringOr, IsOf;
  }

  /** The first payload of each kind decides. */
  lemma {:induction false} FirstDecides(rd: Readers, out: Account, ps: seq<Value>)
    ensures var r := AddPayloads(rd, out, ps);
            && (forall k :: FirstOf(ps, MAIL, k) && ParseMail(rd, Some(ps[k])).Wrong? ==>
                  r == Wrong(ParseMail(rd, Some(ps[k])).problem))
            && (NoneOf(ps, MAIL) ==> r.Right? && r.value.mail == out.mail)
            && (r.Right? ==>
                  && (out.mail.Some? ==> r.value.mail == out.mail)
                  && (forall k :: FirstOf(ps, MAIL, k) && out.mail.None? && ParseMail(rd, Some(ps[k])).Right? ==>
                        r.value.mail == Some(ParseMail(rd, Some(ps[k])).value)))
    decreases |ps|
  {
    hide AddPayload, ParseMail, IsOf;
    if ps != [] {
      var p, rest := ps[0], ps[1..];
      OnePayload(rd, out, p);
      FirstShifts(ps, MAIL);
      var next := AddPayload(rd, out, p);
      if next.Right? { FirstDecides(rd, next.value, rest); }
    }
  }

  /** The first payload of a type is the first one, or the first of the rest. */
  lemma FirstShifts(ps: seq<Value>, t: string)
    requires ps != []
    ensures NoneOf(ps, t) <==> !IsOf(ps[0], t) && NoneOf(ps[1..], t)
    ensures forall k :: FirstOf(ps, t, k) ==> if IsOf(ps[0], t) then k == 0 else k > 0 && FirstOf(ps[1..], t, k - 1)
  {
    hide IsOf;
    forall k | FirstOf(ps, t, k) ensures if IsOf(ps[0], t) then k == 0 else k > 0 && FirstOf(ps[1..], t, k - 1) {
      assert k > 0 ==> ps[..k][0] == ps[0];
      if k > 0 {
        var front, before := ps[1..][..k - 1], ps[..k];
        forall i | 0 <= i < |front| ensures !IsOf(front[i], t) { assert front[i] == before[i + 1]; }
      }
    }
    if NoneOf(ps, t) { assert forall i :: 0 <= i < |ps[1..]| ==> ps[1..][i] == ps[i + 1]; }
    if NoneOf(ps[1..], t) { assert forall i :: 0 < i < |ps| ==> ps[i] == ps[1..][i - 1]; }
  }

  lemma {:induction false} FirstDavDecides(rd: Readers, out: Account, ps: seq<Value>)
    requires AddPayloads(rd, out, ps).Right?
    ensures var r := AddPayloads(rd, out, ps).value;
            && (out.calDAV.Some? || NoneOf(ps, CALDAV) ==> r.calDAV == out.calDAV)
            && (forall k :: FirstOf(ps, CALDAV, k) && out.calDAV.None? ==> r.calDAV == Some(ParseDav(rd, Some(ps[k]), "CalDAV")))
            && (out.cardDAV.Some? || NoneOf(ps, CARDDAV) ==> r.cardDAV == out.cardDAV)
            && (forall k :: FirstOf(ps, CARDDAV, k) && out.cardDAV.None? ==> r.cardDAV == Some(ParseDav(rd, Some(ps[k]), "CardDAV")))
            && (r.displayName, r.organization, r.identifier) == (out.displayName, out.organization, out.identifier)
    decreases |ps|
  {
    hide AddPayload, ParseDav, IsOf;
    if ps != [] {
      OnePayload(rd, out, ps[0]);
      FirstShifts(ps, CALDAV);
      FirstShifts(ps, CARDDAV);
      FirstDavDecides(rd, AddPayload(rd, out, ps[0]).value, ps[1..]);
    }
  }

  /** Without a mail payload that is in error, nothing is. */
  lemma {:induction false} OnlyMailFails(rd: Readers, out: Account, ps: seq<Value>)
    requires forall i :: 0 <= i < |ps| && IsOf(ps[i], MAIL) ==> ParseMail(rd, Some(ps[i])).Right?
    ensures AddPayloads(rd, out, ps).Right?
    decreases |ps|
  {
    hide AddPayload, ParseMail, IsOf;
    if ps != [] {
      OnePayload(rd, out, ps[0]);
      assert forall i :: 0 <= i < |ps[1..]| ==> ps[1..][i] == ps[i + 1];
      OnlyMailFails(rd, AddPayload(rd, out, ps[0]).value, ps[1..]);
    }
  }

  // ------------------------------------------------------------------ whole profiles

  /** A profile that is a dictionary with these payloads. */
  predicate IsProfile(rd: Readers, doc: Document, es: seq<Entry>, ps: seq<Value>) {
    HasRoot(rd, doc, Dict(es)) && Has(es, "PayloadContent", Array(ps)) && ps != []
  }

  lemma ProfileIsRead(rd: Readers, doc: Document, es: seq<Entry>, ps: seq<Value>)
    requires IsProfile(rd, doc, es, ps)
    ensures var v := Some(Dict(es));
            var blank := Account(StringOr(v, "PayloadDisplayName", ""), StringOr(v, "PayloadOrganization", ""),
                                 StringOr(v, "PayloadIdentifier", ""), None, None, None, []);
            ParseTokens(rd, TokensIn(doc)) ==
            match AddPayloads(rd, blank, ps)
            case Wrong(e) => Wrong(e)
            case Right(out) =>
              if out.mail.None? && out.calDAV.None? && out.cardDAV.None? then Wrong(NothingUsable) else Right(out)
  {
    RootIsRead(rd, doc, Dict(es));
    HasOne(es, "PayloadContent", Array(ps));
    hide ParseTokens, TokensIn, HasRoot, Has, Lacks, AddPayloads, StringOr, Lookup;
  }

  /** A POP account in the first mail payload is refused, whatever else the profile
      holds; and so is a mail account without an incoming host. */
  lemma FirstMailRefused(rd: Readers, doc: Document, es: seq<Entry>, ps: seq<Value>, k: int)
    requires IsProfile(rd, doc, es, ps) && FirstOf(ps, MAIL, k)
    ensures IsPop(ps[k].entries) ==> ParseTokens(rd, TokensIn(doc)) == Wrong(PopAccount)
    ensures !IsPop(ps[k].entries) && NoHost(ps[k].entries) ==> ParseTokens(rd, TokensIn(doc)) == Wrong(NoIncomingHost)
  {
    hide AddPayloads, ParseTokens, TokensIn, ParseMail, IsPop, NoHost, DescribesMail, StringOr, NoneOf, HasRoot, Has;
    ProfileIsRead(rd, doc, es, ps);
    MailComplies(rd, ps[k].entries);
    var v := Some(Dict(es));
    FirstDecides(rd, Account(StringOr(v, "PayloadDisplayName", ""), StringOr(v, "PayloadOrganization", ""),
                             StringOr(v, "PayloadIdentifier", ""), None, None, None, []), ps);
  }

  /** Every mail payload can be imported. */
  ghost predicate MailUsable(ps: seq<Value>) {
    forall i :: 0 <= i < |ps| && IsOf(ps[i], MAIL) ==> !IsPop(ps[i].entries) && !NoHost(ps[i].entries)
  }

  /** A profile is imported exactly when every mail payload can be and there is an
      account at all, and then as the first payload of each kind describes. */
  lemma ImportsExactly(rd: Readers, doc: Document, es: seq<Entry>, ps: seq<Value>)
    requires IsProfile(rd, doc, es, ps)
    ensures var r := ParseTokens(rd, TokensIn(doc));
            r.Right? <==> MailUsable(ps) && !(NoneOf(ps, MAIL) && NoneOf(ps, CALDAV) && NoneOf(ps, CARDDAV))
  {
    hide AddPayloads, ParseTokens, TokensIn, ParseMail, ParseDav, IsPop, NoHost, DescribesMail, StringOr, HasRoot, Has, IsOf;
    ProfileIsRead(rd, doc, es, ps);
    var v := Some(Dict(es));
    var blank := Account(StringOr(v, "PayloadDisplayName", ""), StringOr(v, "PayloadOrganization", ""),
                         StringOr(v, "PayloadIdentifier", ""), None, None, None, []);
    UsableIsRight(rd, ps);
    if MailUsable(ps) { OnlyMailFails(rd, blank, ps); }
    if AddPayloads(rd, blank, ps).Right? {
      AnyWrongIsWrong(rd, blank, ps);
      AccountsFound(rd, blank, ps);
    }
  }

  lemma UsableIsRight(rd: Readers, ps: seq<Value>)
    ensures MailUsable(ps) <==> forall i :: 0 <= i < |ps| && IsOf(ps[i], MAIL) ==> ParseMail(rd, Some(ps[i])).Right?
  {
    hide ParseMail, IsPop, NoHost, DescribesMail, TextIs;
    forall i | 0 <= i < |ps| && IsOf(ps[i], MAIL)
      ensures ParseMail(rd, Some(ps[i])).Right? <==> !IsPop(ps[i].entries) && !NoHost(ps[i].entries)
    {
      MailComplies(rd, ps[i].entries);
      assert ps[i] == Dict(ps[i].entries);
    }
  }

  lemma {:induction false} AnyWrongIsWrong(rd: Readers, out: Account, ps: seq<Value>)
    requires AddPayloads(rd, out, ps).Right?
    ensures forall i :: 0 <= i < |ps| && IsOf(ps[i], MAIL) ==> ParseMail(rd, Some(ps[i])).Right?
    decreases |ps|
  {
    hide AddPayload, ParseMail, IsOf;
    if ps != [] {
      OnePayload(rd, out, ps[0]);
      AnyWrongIsWrong(rd, AddPayload(rd, out, ps[0]).value, ps[1..]);
      assert forall i :: 0 < i < |ps| ==> ps[i] == ps[1..][i - 1];
    }
  }

  lemma {:induction false} SomeFirst(ps: seq<Value>, t: string)
    requires !NoneOf(ps, t)
    ensures exists k :: FirstOf(ps, t, k)
    decreases |ps|
  {
    hide IsOf;
    if IsOf(ps[0], t) {
      assert FirstOf(ps, t, 0);
    } else {
      FirstShifts(ps, t);
      SomeFirst(ps[1..], t);
      var k :| FirstOf(ps[1..], t, k);
      assert ps[..k + 1] == [ps[0]] + ps[1..][..k];
      assert FirstOf(ps, t, k + 1);
    }
  }

  lemma AccountsFound(rd: Readers, out: Account, ps: seq<Value>)
    requires out.mail == None && out.calDAV == None && out.cardDAV == None && AddPayloads(rd, out, ps).Right?
    ensures var r := AddPayloads(rd, out, ps).value;
            && (r.mail == None <==> NoneOf(ps, MAIL)) && (r.calDAV == None <==> NoneOf(ps, CALDAV))
            && (r.cardDAV == None <==> NoneOf(ps, CARDDAV))
  {
    hide AddPayloads, ParseMail, ParseDav, NoneOf;
    FirstDecides(rd, out, ps);
    FirstDavDecides(rd, out, ps);
    if !NoneOf(ps, MAIL) {
      SomeFirst(ps, MAIL);
      var k :| FirstOf(ps, MAIL, k);
      assert ParseMail(rd, Some(ps[k])).Right?;
    }
    if !NoneOf(ps, CALDAV) { SomeFirst(ps, CALDAV); }
    if !NoneOf(ps, CARDDAV) { SomeFirst(ps, CARDDAV); }
  }

  /** The accounts of an imported profile are those the first payload of each kind
      describes, with the profile's own names. */
  lemma ImportDescribes(rd: Readers, doc: Document, es: seq<Entry>, ps: seq<Value>)
    requires IsProfile(rd, doc, es, ps) && ParseTokens(rd, TokensIn(doc)).Right?
    ensures var a := ParseTokens(rd, TokensIn(doc)).value;
            && TextIs(es, "PayloadDisplayName", a.displayName) && TextIs(es, "PayloadOrganization", a.organization)
            && TextIs(es, "PayloadIdentifier", a.identifier)
            && (if NoneOf(ps, MAIL) then a.mail == None
                else exists k :: FirstOf(ps, MAIL, k) && a.mail.Some? && DescribesMail(rd, ps[k].entries, a.mail.value))
            && (if NoneOf(ps, CALDAV) then a.calDAV == None
                else exists k :: FirstOf(ps, CALDAV, k) && a.calDAV.Some? &&
                                 DescribesDav(rd, ps[k].entries, "CalDAV", a.calDAV.value))
            && (if NoneOf(ps, CARDDAV) then a.cardDAV == None
                else exists k :: FirstOf(ps, CARDDAV, k) && a.cardDAV.Some? &&
                                 DescribesDav(rd, ps[k].entries, "CardDAV", a.cardDAV.value))
  {
    hide AddPayloads, ParseTokens, TokensIn, ParseMail, ParseDav, DescribesMail, DescribesDav, StringOr, NoneOf, HasRoot, Has, TextIs;
    ProfileIsRead(rd, doc, es, ps);
    var v := Some(Dict(es));
    var blank := Account(StringOr(v, "PayloadDisplayName", ""), StringOr(v, "PayloadOrganization", ""),
                         StringOr(v, "PayloadIdentifier", ""), None, None, None, []);
    TextComplies(es, "PayloadDisplayName");
    TextComplies(es, "PayloadOrganization");
    TextComplies(es, "PayloadIdentifier");
    FirstDecides(rd, blank, ps);
    FirstDavDecides(rd, blank, ps);
    if !NoneOf(ps, MAIL) {
      SomeFirst(ps, MAIL);
      var k :| FirstOf(ps, MAIL, k);
      MailComplies(rd, ps[k].entries);
    }
    if !NoneOf(ps, CALDAV) {
      SomeFirst(ps, CALDAV);
      var k :| FirstOf(ps, CALDAV, k);
      DavComplies(rd, ps[k].entries, "CalDAV");
    }
    if !NoneOf(ps, CARDDAV) {
      SomeFirst(ps, CARDDAV);
      var k :| FirstOf(ps, CARDDAV, k);
      DavComplies(rd, ps[k].entries, "CardDAV");
    }
  }
}
