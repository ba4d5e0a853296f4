/** internal/mobileconfig/parse.go and the accessors of plist.go: the accounts a
    profile describes. */
module MobileConfigParse {
  import opened Wrappers
  import opened Strings
  import opened Plist

  datatype MailAccount = MailAccount(
    description: string, name: string, email: string,
    imapHost: string, imapPort: int, imapUsername: string, imapPassword: string, imapTLS: bool,
    smtpHost: string, smtpPort: int, smtpUsername: string, smtpPassword: string, smtpTLS: bool)

  datatype DavAccount = DavAccount(
    description: string, hostname: string, port: int, principal: string,
    username: string, password: string, useSSL: bool)

  datatype Account = Account(
    displayName: string, organization: string, identifier: string,
    mail: Option<MailAccount>, calDAV: Option<DavAccount>, cardDAV: Option<DavAccount>, ignored: seq<string>)

  /** Parse's errors. NilRoot stands for a root element that is not modelled, which
      parse.go does not check for. */
  datatype Problem =
    | Broken(fault: Fault) | NoPlist | EmptyPlist | NilRoot | NotADictionary | NoContent
    | PopAccount | NoIncomingHost | NothingUsable

  datatype Outcome<+T> = Right(value: T) | Wrong(problem: Problem)

  // ---------------------------------------------------------------- accessors

  function Lookup(es: seq<Entry>, key: string): Option<Value> {
    if es == [] then None
    else if es[0].key == key then Some(es[0].value)
    else Lookup(es[1..], key)
  }

  function Child(v: Option<Value>, key: string): Option<Value> {
    if v.Some? && v.value.Dict? then Lookup(v.value.entries, key) else None
  }

  function StringOf(v: Option<Value>, key: string): Option<string> {
    match Child(v, key)
    case Some(Str(text)) => Some(text)
    case Some(Integer(_, text)) => Some(text)
    case Some(Real(_, text)) => Some(text)
    case _ => None
  }

  function StringOr(v: Option<Value>, key: string, fallback: string): string {
    var s := StringOf(v, key);
    if s.Some? && s.value != "" then s.value else fallback
  }

  /** int(float64): towards zero. */
  function Truncated(r: real): int {
    if r >= 0.0 then r.Floor else -((-r).Floor)
  }

  function IntOr(rd: Readers, v: Option<Value>, key: string, fallback: int): int {
    match Child(v, key)
    case Some(Integer(num, _)) => Truncated(num)
    case Some(Real(num, _)) => Truncated(num)
    case Some(Str(text)) =>
      (match rd.parseFloat(TrimSpace(text))
       case Some(num) => Truncated(num)
       case None => fallback)
    case _ => fallback
  }

  function BoolOr(v: Option<Value>, key: string, fallback: bool): bool {
    match Child(v, key)
    case Some(Bool(flag)) => flag
    case Some(Integer(num, _)) => num != 0.0
    case Some(Real(num, _)) => num != 0.0
    case Some(Str(text)) =>
      var t := ToLower(TrimSpace(text));
      if t in {"true", "yes", "1"} then true
      else if t in {"false", "no", "0"} then false
      else fallback
    case _ => fallback
  }

  function DefaultPort(secure: bool, securePort: int, plainPort: int): int {
    if secure then securePort else plainPort
  }

  // ----------------------------------------------------------------- payloads

  function ParseMail(rd: Readers, p: Option<Value>): Outcome<MailAccount> {
    if ToLower(StringOr(p, "EmailAccountType", "")) == "emailtypepop" then Wrong(PopAccount)
    else
      var imapTLS := BoolOr(p, "IncomingMailServerUseSSL", true);
      var smtpTLS := BoolOr(p, "OutgoingMailServerUseSSL", true);
      var imapHost := TrimSpace(StringOr(p, "IncomingMailServerHostName", ""));
      var smtpHost := TrimSpace(StringOr(p, "OutgoingMailServerHostName", ""));
      var imapUser := TrimSpace(StringOr(p, "IncomingMailServerUsername", ""));
      var smtpUser := TrimSpace(StringOr(p, "OutgoingMailServerUsername", ""));
      var imapPass := StringOr(p, "IncomingPassword", "");
      var smtpPass := StringOr(p, "OutgoingPassword", "");
      var same := BoolOr(p, "OutgoingPasswordSameAsIncomingPassword", false);
      if imapHost == "" then Wrong(NoIncomingHost)
      else
        Right(MailAccount(
                StringOr(p, "EmailAccountDescription", ""), StringOr(p, "EmailAccountName", ""),
                TrimSpace(StringOr(p, "EmailAddress", "")),
                imapHost, IntOr(rd, p, "IncomingMailServerPortNumber", DefaultPort(imapTLS, 993, 143)),
                imapUser, imapPass, imapTLS,
                if smtpHost == "" then imapHost else smtpHost,
                IntOr(rd, p, "OutgoingMailServerPortNumber", DefaultPort(smtpTLS, 465, 587)),
                if smtpUser == "" then imapUser else smtpUser,
                if same && smtpPass == "" then imapPass else smtpPass, smtpTLS))
  }

  function ParseDav(rd: Readers, p: Option<Value>, prefix: string): DavAccount {
    var useSSL := BoolOr(p, prefix + "UseSSL", true);
    DavAccount(StringOr(p, prefix + "AccountDescription", ""), TrimSpace(StringOr(p, prefix + "HostName", "")),
               IntOr(rd, p, prefix + "Port", DefaultPort(useSSL, 443, 80)),
               TrimSpace(StringOr(p, prefix + "PrincipalURL", "")), TrimSpace(StringOr(p, prefix + "Username", "")),
               StringOr(p, prefix + "Password", ""), useSSL)
  }

  /** One payload: the first of each kind is taken, others are listed. */
  function AddPayload(rd: Readers, out: Account, p: Value): Outcome<Account> {
    var v := Some(p);
    match StringOr(v, "PayloadType", "")
    case "com.apple.mail.managed" =>
      (match ParseMail(rd, v)
       case Wrong(e) => Wrong(e)
       case Right(mail) =>
         Right(if out.mail.None? then out.(mail := Some(mail))
               else out.(ignored := out.ignored + ["com.apple.mail.managed (additional)"])))
    case "com.apple.caldav.account" =>
      Right(if out.calDAV.None? then out.(calDAV := Some(ParseDav(rd, v, "CalDAV")))
            else out.(ignored := out.ignored + ["com.apple.caldav.account (additional)"]))
    case "com.apple.carddav.account" =>
      Right(if out.cardDAV.None? then out.(cardDAV := Some(ParseDav(rd, v, "CardDAV")))
            else out.(ignored := out.ignored + ["com.apple.carddav.account (additional)"]))
    case "" => Right(out.(ignored := out.ignored + ["(payload with no PayloadType)"]))
    case other => Right(out.(ignored := out.ignored + [other]))
  }

  function AddPayloads(rd: Readers, out: Account, ps: seq<Value>): Outcome<Account>
    decreases |ps|
  {
    if ps == [] then Right(out)
    else
      match AddPayload(rd, out, ps[0])
      case Wrong(e) => Wrong(e)
      case Right(next) => AddPayloads(rd, next, ps[1..])
  }

  /** Parse, on the decoded root. */
  function ReadProfile(rd: Readers, root: Value): Outcome<Account> {
    if !root.Dict? then Wrong(NotADictionary)
    else
      var v := Some(root);
      var content := Child(v, "PayloadContent");
      var payloads := if content.Some? && content.value.Array? then content.value.items else [];
      if payloads == [] then Wrong(NoContent)
      else
        var blank := Account(StringOr(v, "PayloadDisplayName", ""), StringOr(v, "PayloadOrganization", ""),
                             StringOr(v, "PayloadIdentifier", ""), None, None, None, []);
        match AddPayloads(rd, blank, payloads)
        case Wrong(e) => Wrong(e)
        case Right(out) =>
          if out.mail.None? && out.calDAV.None? && out.cardDAV.None? then Wrong(NothingUsable) else Right(out)
  }

  /** parsePlistBody. */
  function BodyFrom(rd: Readers, ts: seq<Token>): Outcome<Option<Value>> {
    if ts == [] then Wrong(EmptyPlist)
    else
      match ts[0]
      case Start(name) => Opened(ValueFrom(rd, ts[1..], name))
      case End(name) => if name == "plist" then Wrong(EmptyPlist) else BodyFrom(rd, ts[1..])
      case _ => BodyFrom(rd, ts[1..])
  }

  function Opened(p: Parsed<Option<Value>>): Outcome<Option<Value>> {
    match p
    case Done(v, _) => Right(v)
    case Bad(f) => Wrong(Broken(f))
  }

  /** ParsePlist: the first plist, dict or array element. */
  function RootFrom(rd: Readers, ts: seq<Token>): Outcome<Option<Value>> {
    if ts == [] then Wrong(NoPlist)
    else
      match ts[0]
      case Start(name) =>
        if name == "plist" then BodyFrom(rd, ts[1..])
        else if name == "dict" || name == "array" then Opened(ValueFrom(rd, ts[1..], name))
        else RootFrom(rd, ts[1..])
      case _ => RootFrom(rd, ts[1..])
  }

  function ParseTokens(rd: Readers, ts: seq<Token>): Outcome<Account> {
    match RootFrom(rd, ts)
    case Wrong(e) => Wrong(e)
    case Right(None) => Wrong(NilRoot)
    case Right(Some(root)) => ReadProfile(rd, root)
  }

  method ParsePlistBody(d: Decoder) returns (r: Outcome<Option<Value>>)
    modifies d
    ensures r == BodyFrom(d.rd, old(d.rest))
  {
    hide ValueFrom;
    while true
      invariant BodyFrom(d.rd, d.rest) == BodyFrom(d.rd, old(d.rest))
      decreases |d.rest|
    {
      var t := d.Next();
      if t.None? { return Wrong(EmptyPlist); }
      match t.value
      case Start(name) =>
        var v := d.ParseValue(name);
        return if v.Ok? then Right(v.value) else Wrong(Broken(v.fault));
      case End(name) => if name == "plist" { return Wrong(EmptyPlist); }
      case _ =>
    }
  }

  method ParsePlist(rd: Readers, ts: seq<Token>) returns (r: Outcome<Option<Value>>)
    ensures r == RootFrom(rd, ts)
  {
    hide ValueFrom, BodyFrom;
    var d := new Decoder(rd, ts);
    while true
      invariant RootFrom(rd, d.rest) == RootFrom(rd, ts)
      decreases |d.rest|
    {
      var t := d.Next();
      if t.None? { return Wrong(NoPlist); }
      match t.value
      case Start(name) =>
        if name == "plist" {
          r := ParsePlistBody(d);
          return;
        } else if name == "dict" || name == "array" {
          var v := d.ParseValue(name);
          return if v.Ok? then Right(v.value) else Wrong(Broken(v.fault));
        }
      case _ =>
    }
  }

  method Parse(rd: Readers, ts: seq<Token>) returns (r: Outcome<Account>)
    ensures r == ParseTokens(rd, ts)
  {
    hide RootFrom, AddPayload, StringOr;
    var parsed := ParsePlist(rd, ts);
    if parsed.Wrong? { return Wrong(parsed.problem); }
    if parsed.value.None? { return Wrong(NilRoot); }
    var root := parsed.value.value;
    if !root.Dict? { return Wrong(NotADictionary); }
    var v := Some(root);
    var out := Account(StringOr(v, "PayloadDisplayName", ""), StringOr(v, "PayloadOrganization", ""),
                       StringOr(v, "PayloadIdentifier", ""), None, None, None, []);
    var content := Child(v, "PayloadContent");
    var payloads := if content.Some? && content.value.Array? then content.value.items else [];
    if payloads == [] { return Wrong(NoContent); }
    ghost var want := AddPayloads(rd, out, payloads);
    assert payloads[0..] == payloads;
    for i := 0 to |payloads|
      invariant AddPayloads(rd, out, payloads[i..]) == want
    {
      assert payloads[i..][0] == payloads[i] && payloads[i..][1..] == payloads[i + 1..];
      var next := AddPayload(rd, out, payloads[i]);
      if next.Wrong? { return Wrong(next.problem); }
      out := next.value;
    }
    assert payloads[|payloads|..] == [];
    if out.mail.None? && out.calDAV.None? && out.cardDAV.None? { return Wrong(NothingUsable); }
    return Right(out);
  }
}
