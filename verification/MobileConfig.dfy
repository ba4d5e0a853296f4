/** internal/mobileconfig/generate.go and parse.go: a configuration profile written
    as a property list, and read back. */
module MobileConfig {
  import opened Wrappers
  import opened Strings
  import opened Plist
  import opened PlistTree

  datatype Profile = Profile(
    displayName: string, organization: string, accountName: string, emailAddress: string,
    username: string, secret: string, hostname: string,
    imapPort: int, smtpPort: int, httpsPort: int, calDAVPath: string, cardDAVPath: string)

  /** The library and hashing calls: number formatting, base64, the payload
      identifier of a profile and the UUID of an identifier. */
  datatype Library = Library(rd: Readers, decimal: int -> string, encode: seq<int> -> string,
                             identifier: Profile -> string, uuid: string -> string)

  function DefaultString(v: string, fallback: string): string {
    if TrimSpace(v) == "" then fallback else v
  }

  // ------------------------------------------------------- what is written

  function Number(lib: Library, n: int): Value {
    Integer(n as real, lib.decimal(n))
  }

  function Secret(key: string, p: Profile): seq<Entry> {
    if p.secret != "" then [Entry(key, Str(p.secret))] else []
  }

  function IncomingEntries(lib: Library, p: Profile): seq<Entry> {
    [Entry("EmailAccountDescription", Str(p.emailAddress)),
     Entry("EmailAccountName", Str(DefaultString(p.accountName, p.emailAddress))),
     Entry("EmailAccountType", Str("EmailTypeIMAP")),
     Entry("EmailAddress", Str(p.emailAddress)),
     Entry("IncomingMailServerAuthentication", Str("EmailAuthPassword")),
     Entry("IncomingMailServerHostName", Str(p.hostname)),
     Entry("IncomingMailServerPortNumber", Number(lib, p.imapPort)),
     Entry("IncomingMailServerUseSSL", Bool(true)),
     Entry("IncomingMailServerUsername", Str(p.username))]
  }

  function OutgoingEntries(lib: Library, p: Profile): seq<Entry> {
    [Entry("OutgoingMailServerAuthentication", Str("EmailAuthPassword")),
     Entry("OutgoingMailServerHostName", Str(p.hostname)),
     Entry("OutgoingMailServerPortNumber", Number(lib, p.smtpPort)),
     Entry("OutgoingMailServerUseSSL", Bool(true)),
     Entry("OutgoingMailServerUsername", Str(p.username)),
     Entry("OutgoingPasswordSameAsIncomingPassword", Bool(true))]
  }

  /** What ends every payload. */
  function CommonEntries(lib: Library, description: string, title: string, id: string, payloadType: string): seq<Entry> {
    [Entry("PayloadDescription", Str(description)),
     Entry("PayloadDisplayName", Str(title)),
     Entry("PayloadIdentifier", Str(id)),
     Entry("PayloadType", Str(payloadType)),
     Entry("PayloadUUID", Str(lib.uuid(id))),
     Entry("PayloadVersion", Number(lib, 1))]
  }

  function MailEntries(lib: Library, p: Profile, root: string): seq<Entry> {
    IncomingEntries(lib, p) + Secret("IncomingPassword", p) + OutgoingEntries(lib, p) +
    CommonEntries(lib, "Configures email account.", "IMAP (" + p.emailAddress + ")", root + ".email",
                  "com.apple.mail.managed")
  }

  /** The texts that tell a CalDAV payload from a CardDAV one. */
  datatype Dav = Dav(prefix: string, description: string, payloadType: string, suffix: string)

  const CALDAV := Dav("CalDAV", "Configures CalDAV account.", "com.apple.caldav.account", ".caldav")
  const CARDDAV := Dav("CardDAV", "Configures CardDAV account.", "com.apple.carddav.account", ".carddav")

  function AccountEntries(lib: Library, p: Profile, dav: Dav, path: string): seq<Entry> {
    [Entry(dav.prefix + "AccountDescription", Str(p.emailAddress)),
     Entry(dav.prefix + "HostName", Str(p.hostname)),
     Entry(dav.prefix + "Port", Number(lib, p.httpsPort)),
     Entry(dav.prefix + "PrincipalURL", Str(path)),
     Entry(dav.prefix + "UseSSL", Bool(true)),
     Entry(dav.prefix + "Username", Str(p.username))]
  }

  function DavEntries(lib: Library, p: Profile, root: string, dav: Dav, path: string): seq<Entry> {
    AccountEntries(lib, p, dav, path) + Secret(dav.prefix + "Password", p) +
    CommonEntries(lib, dav.description, dav.prefix + " (" + p.emailAddress + ")", root + dav.suffix, dav.payloadType)
  }

  function Description(p: Profile): string {
    "IMAP" + (if p.calDAVPath != "" then ", CalDAV" else "") + (if p.cardDAVPath != "" then ", CardDAV" else "")
    + (if p.secret != "" then " with application password" else "")
  }

  function Payloads(lib: Library, p: Profile, root: string): seq<Value> {
    [Dict(MailEntries(lib, p, root))]
    + (if p.calDAVPath != "" then [Dict(DavEntries(lib, p, root, CALDAV, p.calDAVPath))] else [])
    + (if p.cardDAVPath != "" then [Dict(DavEntries(lib, p, root, CARDDAV, p.cardDAVPath))] else [])
  }

  function ProfileEntries(lib: Library, p: Profile): seq<Entry> {
    var root := lib.identifier(p);
    [Entry("PayloadContent", Array(Payloads(lib, p, root))),
     Entry("PayloadDescription", Str(Description(p))),
     Entry("PayloadDisplayName", Str(DefaultString(p.displayName, p.emailAddress))),
     Entry("PayloadIdentifier", Str(root)),
     Entry("PayloadOrganization", Str(p.organization)),
     Entry("PayloadRemovalDisallowed", Bool(false)),
     Entry("PayloadType", Str("Configuration")),
     Entry("PayloadUUID", Str(lib.uuid(root))),
     Entry("PayloadVersion", Number(lib, 1))]
  }

  /** The document around the root dictionary. */
  function Document(lib: Library, p: Profile): seq<Token> {
    [Misc, Chars("\n"), Misc, Chars("\n"), Start("plist"), Chars("\n"), Chars("  ")]
    + Tokens(NodeOf(lib.encode, Dict(ProfileEntries(lib, p)), 4))
    + [Chars("\n"), End("plist"), Chars("\n")]
  }

  datatype Missing = NoHostname | NoEmail | NoUsername

  /** Generate's refusals. */
  function MissingField(p: Profile): Option<Missing> {
    if p.hostname == "" then Some(NoHostname)
    else if p.emailAddress == "" then Some(NoEmail)
    else if p.username == "" then Some(NoUsername)
    else None
  }

  /** A profile is refused for the first of host, address and user that it lacks. */
  lemma RefusesExactly(p: Profile)
    ensures MissingField(p) == None <==> p.hostname != "" && p.emailAddress != "" && p.username != ""
    ensures MissingField(p) == Some(NoHostname) <==> p.hostname == ""
    ensures MissingField(p) == Some(NoEmail) <==> p.hostname != "" && p.emailAddress == ""
  {
  }

  // ------------------------------------------------------------- the writers

  /** Nothing in the text needs escaping. */
  predicate Plain(s: string) {
    forall i :: 0 <= i < |s| ==> EscapeChar(s[i]) == [s[i]]
  }

  lemma {:induction false} PlainStays(s: string)
    requires Plain(s)
    ensures EscapeXML(s) == s
    decreases |s|
  {
    hide Plain, EscapeChar;
    if s != "" {
      PlainTail(s);
      PlainStays(s[1..]);
      assert s == [s[0]] + s[1..];
    }
  }

  lemma PlainTail(s: string)
    requires Plain(s) && s != ""
    ensures EscapeChar(s[0]) == [s[0]] && Plain(s[1..])
  {
    hide EscapeChar;
    forall i | 0 <= i < |s[1..]| ensures EscapeChar(s[1..][i]) == [s[1..][i]] {
      assert s[1..][i] == s[i + 1];
    }
  }

  /** The tokens of the entries written so far. */
  function EntryTokens(lib: Library, es: seq<Entry>, n: nat): seq<Token> {
    AllTokens(EntriesNodes(lib.encode, es, n))
  }

  lemma {:induction false} AllTokensConcat(a: seq<Node>, b: seq<Node>)
    ensures AllTokens(a + b) == AllTokens(a) + AllTokens(b)
    decreases |a|
  {
    if a == [] {
      assert a + b == b;
    } else {
      assert (a + b)[1..] == a[1..] + b;
      AllTokensConcat(a[1..], b);
    }
  }

  lemma {:induction false} EntriesSnoc(lib: Library, es: seq<Entry>, e: Entry, n: nat)
    ensures EntriesNodes(lib.encode, es + [e], n) ==
            EntriesNodes(lib.encode, es, n) + EntryNodes(e.key, NodeOf(lib.encode, e.value, n), n)
    decreases |es|
  {
    hide NodeOf, EntryNodes;
    if es == [] {
      assert es + [e] == [e] && [e][1..] == [];
      assert EntriesNodes(lib.encode, [e], n) == EntryNodes(e.key, NodeOf(lib.encode, e.value, n), n) + [];
    } else {
      assert (es + [e])[1..] == es[1..] + [e];
      EntriesSnoc(lib, es[1..], e, n);
    }
  }

  /** The tokens of one entry whose value node is given. */
  function OneEntryTokens(key: string, value: seq<Token>, n: nat): seq<Token> {
    [Chars(Spaces(n)), Start("key"), Chars(key), End("key"), Chars("\n" + Spaces(n))] + value + [Chars("\n")]
  }

  lemma EntryTokensSnoc(lib: Library, es: seq<Entry>, key: string, v: Value, n: nat)
    ensures EntryTokens(lib, es + [Entry(key, v)], n) ==
            EntryTokens(lib, es, n) + OneEntryTokens(key, Tokens(NodeOf(lib.encode, v, n)), n)
  {
    EntriesSnoc(lib, es, Entry(key, v), n);
    var node := NodeOf(lib.encode, v, n);
    AllTokensConcat(EntriesNodes(lib.encode, es, n), EntryNodes(key, node, n));
    OneEntryNodes(key, node, n);
  }

  lemma OneEntryNodes(key: string, node: Node, n: nat)
    ensures AllTokens(EntryNodes(key, node, n)) == OneEntryTokens(key, Tokens(node), n)
  {
    hide Spaces, EscapeXML, AllTokens;
    var a, k, b, z := Text(Spaces(n)), Elem("key", [Text(key)]), Text("\n" + Spaces(n)), Text("\n");
    TokensOfOne(Text(key));
    TokensOfOne(z);
    assert [node] + [z] == [node, z] && [b] + [node, z] == [b, node, z];
    assert [k] + [b, node, z] == [k, b, node, z] && [a] + [k, b, node, z] == [a, k, b, node, z];
    AllTokensCons(node, [z]);
    AllTokensCons(b, [node, z]);
    AllTokensCons(k, [b, node, z]);
    AllTokensCons(a, [k, b, node, z]);
    assert EntryNodes(key, node, n) == [a, k, b, node, z];
  }

  lemma AllTokensCons(n: Node, ns: seq<Node>)
    ensures AllTokens([n] + ns) == Tokens(n) + AllTokens(ns)
  {
    assert ([n] + ns)[1..] == ns;
  }

  lemma TokensOfOne(n: Node)
    ensures AllTokens([n]) == Tokens(n)
  {
  }

  /** A leaf element with a text. */
  function LeafTokens(name: string, text: string): seq<Token> {
    [Start(name), Chars(EscapeXML(text)), End(name)]
  }

  lemma LeafNode(lib: Library, n: nat, text: string, num: real, flag: bool)
    ensures Tokens(NodeOf(lib.encode, Str(text), n)) == LeafTokens("string", text)
    ensures Tokens(NodeOf(lib.encode, Integer(num, text), n)) == LeafTokens("integer", text)
    ensures Tokens(NodeOf(lib.encode, Bool(flag), n)) ==
            [Start(if flag then "true" else "false"), End(if flag then "true" else "false")]
  {
    TokensOfOne(Text(EscapeXML(text)));
  }

  method WriteString(lib: Library, b: seq<Token>, ghost es: seq<Entry>, n: nat, key: string, value: string)
    returns (r: seq<Token>, ghost fs: seq<Entry>)
    requires b == EntryTokens(lib, es, n)
    ensures fs == es + [Entry(key, Str(value))] && r == EntryTokens(lib, fs, n)
  {
    r := b + OneEntryTokens(key, LeafTokens("string", value), n);
    fs := es + [Entry(key, Str(value))];
    LeafNode(lib, n, value, 0.0, false);
    EntryTokensSnoc(lib, es, key, Str(value), n);
  }

  method WriteInt(lib: Library, b: seq<Token>, ghost es: seq<Entry>, n: nat, key: string, value: int)
    returns (r: seq<Token>, ghost fs: seq<Entry>)
    requires b == EntryTokens(lib, es, n) && Plain(lib.decimal(value))
    ensures fs == es + [Entry(key, Number(lib, value))] && r == EntryTokens(lib, fs, n)
  {
    PlainStays(lib.decimal(value));
    r := b + OneEntryTokens(key, [Start("integer"), Chars(lib.decimal(value)), End("integer")], n);
    fs := es + [Entry(key, Number(lib, value))];
    LeafNode(lib, n, lib.decimal(value), value as real, false);
    EntryTokensSnoc(lib, es, key, Number(lib, value), n);
  }

  method WriteBool(lib: Library, b: seq<Token>, ghost es: seq<Entry>, n: nat, key: string, value: bool)
    returns (r: seq<Token>, ghost fs: seq<Entry>)
    requires b == EntryTokens(lib, es, n)
    ensures fs == es + [Entry(key, Bool(value))] && r == EntryTokens(lib, fs, n)
  {
    var tag := if value then "true" else "false";
    r := b + OneEntryTokens(key, [Start(tag), End(tag)], n);
    fs := es + [Entry(key, Bool(value))];
    LeafNode(lib, n, "", 0.0, value);
    EntryTokensSnoc(lib, es, key, Bool(value), n);
  }

  method WriteSecret(lib: Library, b: seq<Token>, ghost es: seq<Entry>, key: string, p: Profile)
    returns (r: seq<Token>, ghost fs: seq<Entry>)
    requires b == EntryTokens(lib, es, 8)
    ensures fs == es + Secret(key, p) && r == EntryTokens(lib, fs, 8)
  {
    r, fs := b, es;
    if p.secret != "" {
      r, fs := WriteString(lib, b, es, 8, key, p.secret);
    }
  }

  /** The library writes decimal numbers without XML metacharacters. */
  ghost predicate PlainNumbers(lib: Library) {
    forall n :: Plain(lib.decimal(n))
  }

  method WriteIncoming(lib: Library, p: Profile) returns (b: seq<Token>, ghost es: seq<Entry>)
    requires PlainNumbers(lib)
    ensures es == IncomingEntries(lib, p) && b == EntryTokens(lib, es, 8)
  {
    hide EntryTokens, Number, DefaultString;
    b, es := [], [];
    NoEntries(lib);
    b, es := WriteString(lib, b, es, 8, "EmailAccountDescription", p.emailAddress);
    b, es := WriteString(lib, b, es, 8, "EmailAccountName", DefaultString(p.accountName, p.emailAddress));
    b, es := WriteString(lib, b, es, 8, "EmailAccountType", "EmailTypeIMAP");
    b, es := WriteString(lib, b, es, 8, "EmailAddress", p.emailAddress);
    b, es := WriteString(lib, b, es, 8, "IncomingMailServerAuthentication", "EmailAuthPassword");
    b, es := WriteString(lib, b, es, 8, "IncomingMailServerHostName", p.hostname);
    b, es := WriteInt(lib, b, es, 8, "IncomingMailServerPortNumber", p.imapPort);
    b, es := WriteBool(lib, b, es, 8, "IncomingMailServerUseSSL", true);
    b, es := WriteString(lib, b, es, 8, "IncomingMailServerUsername", p.username);
  }

  method WriteOutgoing(lib: Library, b0: seq<Token>, ghost es0: seq<Entry>, p: Profile)
    returns (b: seq<Token>, ghost es: seq<Entry>)
    requires PlainNumbers(lib) && b0 == EntryTokens(lib, es0, 8)
    ensures es == es0 + OutgoingEntries(lib, p) && b == EntryTokens(lib, es, 8)
  {
    hide EntryTokens, Number;
    b, es := WriteString(lib, b0, es0, 8, "OutgoingMailServerAuthentication", "EmailAuthPassword");
    b, es := WriteString(lib, b, es, 8, "OutgoingMailServerHostName", p.hostname);
    b, es := WriteInt(lib, b, es, 8, "OutgoingMailServerPortNumber", p.smtpPort);
    b, es := WriteBool(lib, b, es, 8, "OutgoingMailServerUseSSL", true);
    b, es := WriteString(lib, b, es, 8, "OutgoingMailServerUsername", p.username);
    b, es := WriteBool(lib, b, es, 8, "OutgoingPasswordSameAsIncomingPassword", true);
    assert es == es0 + OutgoingEntries(lib, p);
  }

  method WriteCommon(lib: Library, b0: seq<Token>, ghost es0: seq<Entry>, description: string, title: string,
                     id: string, payloadType: string)
    returns (b: seq<Token>, ghost es: seq<Entry>)
    requires PlainNumbers(lib) && b0 == EntryTokens(lib, es0, 8)
    ensures es == es0 + CommonEntries(lib, description, title, id, payloadType) && b == EntryTokens(lib, es, 8)
  {
    hide EntryTokens, Number;
    b, es := WriteString(lib, b0, es0, 8, "PayloadDescription", description);
    b, es := WriteString(lib, b, es, 8, "PayloadDisplayName", title);
    b, es := WriteString(lib, b, es, 8, "PayloadIdentifier", id);
    b, es := WriteString(lib, b, es, 8, "PayloadType", payloadType);
    b, es := WriteString(lib, b, es, 8, "PayloadUUID", lib.uuid(id));
    b, es := WriteInt(lib, b, es, 8, "PayloadVersion", 1);
    assert es == es0 + CommonEntries(lib, description, title, id, payloadType);
  }

  method WriteAccount(lib: Library, p: Profile, dav: Dav, path: string) returns (b: seq<Token>, ghost es: seq<Entry>)
    requires PlainNumbers(lib)
    ensures es == AccountEntries(lib, p, dav, path) && b == EntryTokens(lib, es, 8)
  {
    hide EntryTokens, Number;
    b, es := [], [];
    NoEntries(lib);
    b, es := WriteString(lib, b, es, 8, dav.prefix + "AccountDescription", p.emailAddress);
    b, es := WriteString(lib, b, es, 8, dav.prefix + "HostName", p.hostname);
    b, es := WriteInt(lib, b, es, 8, dav.prefix + "Port", p.httpsPort);
    b, es := WriteString(lib, b, es, 8, dav.prefix + "PrincipalURL", path);
    b, es := WriteBool(lib, b, es, 8, dav.prefix + "UseSSL", true);
    b, es := WriteString(lib, b, es, 8, dav.prefix + "Username", p.username);
  }

  /** A payload dictionary as an item of PayloadContent. */
  function ItemTokens(lib: Library, es: seq<Entry>): seq<Token> {
    [Chars(Spaces(6))] + Tokens(NodeOf(lib.encode, Dict(es), 8)) + [Chars("\n")]
  }

  method CloseItem(lib: Library, b: seq<Token>, ghost es: seq<Entry>) returns (r: seq<Token>)
    requires b == EntryTokens(lib, es, 8)
    ensures r == ItemTokens(lib, es)
  {
    r := [Chars(Spaces(6)), Start("dict"), Chars("\n")] + b + [Chars(Spaces(6)), End("dict"), Chars("\n")];
    DictTokens(lib, es, 8);
  }

  lemma DictTokens(lib: Library, es: seq<Entry>, n: nat)
    requires n >= 2
    ensures Tokens(NodeOf(lib.encode, Dict(es), n)) ==
            [Start("dict"), Chars("\n")] + EntryTokens(lib, es, n) + [Chars(Spaces(n - 2)), End("dict")]
  {
    hide Spaces;
    var inner := EntriesNodes(lib.encode, es, n);
    var kids := NodeOf(lib.encode, Dict(es), n).kids;
    AllTokensConcat([Text("\n")] + inner, [Text(Spaces(n - 2))]);
    AllTokensConcat([Text("\n")], inner);
    TokensOfOne(Text("\n"));
    TokensOfOne(Text(Spaces(n - 2)));
    assert kids == [Text("\n")] + inner + [Text(Spaces(n - 2))];
  }

  method MailPayload(lib: Library, p: Profile, root: string) returns (b: seq<Token>)
    requires PlainNumbers(lib)
    ensures b == ItemTokens(lib, MailEntries(lib, p, root))
  {
    hide EntryTokens, ItemTokens, IncomingEntries, OutgoingEntries, CommonEntries, Secret;
    ghost var es;
    b, es := WriteIncoming(lib, p);
    b, es := WriteSecret(lib, b, es, "IncomingPassword", p);
    b, es := WriteOutgoing(lib, b, es, p);
    b, es := WriteCommon(lib, b, es, "Configures email account.", "IMAP (" + p.emailAddress + ")", root + ".email",
                         "com.apple.mail.managed");
    b := CloseItem(lib, b, es);
  }

  method DavPayload(lib: Library, p: Profile, root: string, dav: Dav, path: string) returns (b: seq<Token>)
    requires PlainNumbers(lib)
    ensures b == ItemTokens(lib, DavEntries(lib, p, root, dav, path))
  {
    hide EntryTokens, ItemTokens, AccountEntries, CommonEntries, Secret;
    ghost var es;
    b, es := WriteAccount(lib, p, dav, path);
    b, es := WriteSecret(lib, b, es, dav.prefix + "Password", p);
    b, es := WriteCommon(lib, b, es, dav.description, dav.prefix + " (" + p.emailAddress + ")", root + dav.suffix,
                         dav.payloadType);
    b := CloseItem(lib, b, es);
  }

  function ItemsTokens(lib: Library, payloads: seq<Value>): seq<Token> {
    AllTokens(ItemNodes(lib.encode, payloads, 4))
  }

  lemma {:induction false} ItemsSnoc(lib: Library, payloads: seq<Value>, es: seq<Entry>)
    ensures ItemsTokens(lib, payloads + [Dict(es)]) == ItemsTokens(lib, payloads) + ItemTokens(lib, es)
    decreases |payloads|
  {
    hide NodeOf, Spaces;
    var item := [Text(Spaces(6)), NodeOf(lib.encode, Dict(es), 8), Text("\n")];
    if payloads == [] {
      assert payloads + [Dict(es)] == [Dict(es)] && [Dict(es)][1..] == [];
      assert ItemNodes(lib.encode, [Dict(es)], 4) == item + [] == item;
      ThreeTokens(Text(Spaces(6)), NodeOf(lib.encode, Dict(es), 8), Text("\n"));
      NoItems(lib);
    } else {
      assert (payloads + [Dict(es)])[1..] == payloads[1..] + [Dict(es)];
      ItemsSnoc(lib, payloads[1..], es);
      var first := [Text(Spaces(6)), NodeOf(lib.encode, payloads[0], 8), Text("\n")];
      AllTokensConcat(first, ItemNodes(lib.encode, payloads[1..] + [Dict(es)], 4));
      AllTokensConcat(first, ItemNodes(lib.encode, payloads[1..], 4));
    }
  }

  lemma ThreeTokens(a: Node, b: Node, c: Node)
    ensures AllTokens([a, b, c]) == Tokens(a) + Tokens(b) + Tokens(c)
  {
    hide Tokens;
    assert [a, b, c][1..] == [b, c] && [b, c][1..] == [c];
    TokensOfOne(c);
    assert AllTokens([b, c]) == Tokens(b) + Tokens(c);
  }

  datatype Generated = Generated(tokens: seq<Token>) | Refused(missing: Missing)

  method Generate(lib: Library, p: Profile) returns (r: Generated)
    requires PlainNumbers(lib)
    ensures r == match MissingField(p)
                 case Some(m) => Refused(m)
                 case None => Generated(Document(lib, p))
  {
    hide EntryTokens, ItemsTokens, ItemTokens, NodeOf, MailEntries, DavEntries, Number, Description;
    if p.hostname == "" { return Refused(NoHostname); }
    if p.emailAddress == "" { return Refused(NoEmail); }
    if p.username == "" { return Refused(NoUsername); }
    var root := lib.identifier(p);
    var content := MailPayload(lib, p, root);
    ghost var payloads := [Dict(MailEntries(lib, p, root))];
    NoItems(lib);
    ItemsSnoc(lib, [], MailEntries(lib, p, root));
    assert [] + payloads == payloads && [] + content == content;
    if p.calDAVPath != "" {
      var item := DavPayload(lib, p, root, CALDAV, p.calDAVPath);
      content := content + item;
      ItemsSnoc(lib, payloads, DavEntries(lib, p, root, CALDAV, p.calDAVPath));
      payloads := payloads + [Dict(DavEntries(lib, p, root, CALDAV, p.calDAVPath))];
    }
    if p.cardDAVPath != "" {
      var item := DavPayload(lib, p, root, CARDDAV, p.cardDAVPath);
      content := content + item;
      ItemsSnoc(lib, payloads, DavEntries(lib, p, root, CARDDAV, p.cardDAVPath));
      payloads := payloads + [Dict(DavEntries(lib, p, root, CARDDAV, p.cardDAVPath))];
    }
    assert payloads == Payloads(lib, p, root);
    var entries := WriteTop(lib, p, root, content, payloads);
    r := Generated([Misc, Chars("\n"), Misc, Chars("\n"), Start("plist"), Chars("\n"), Chars("  "), Start("dict"), Chars("\n")]
                   + entries + [Chars(Spaces(2)), End("dict"), Chars("\n"), End("plist"), Chars("\n")]);
    DictTokens(lib, ProfileEntries(lib, p), 4);
  }

  lemma NoItems(lib: Library)
    ensures ItemsTokens(lib, []) == []
  {
  }

  method Describe(p: Profile) returns (description: string)
    ensures description == Description(p)
  {
    description := "IMAP";
    if p.calDAVPath != "" { description := description + ", CalDAV"; }
    if p.cardDAVPath != "" { description := description + ", CardDAV"; }
    if p.secret != "" { description := description + " with application password"; }
  }

  /** The entries of the root dictionary. */
  method WriteTop(lib: Library, p: Profile, root: string, content: seq<Token>, ghost payloads: seq<Value>)
    returns (b: seq<Token>)
    requires PlainNumbers(lib) && root == lib.identifier(p)
    requires payloads == Payloads(lib, p, root) && content == ItemsTokens(lib, payloads)
    ensures b == EntryTokens(lib, ProfileEntries(lib, p), 4)
  {
    hide EntryTokens, ItemsTokens, Payloads, Number;
    hide Description, DefaultString;
    var description := Describe(p);
    ghost var es;
    b, es := WriteContent(lib, content, payloads);
    b, es := WriteString(lib, b, es, 4, "PayloadDescription", description);
    b, es := WriteString(lib, b, es, 4, "PayloadDisplayName", DefaultString(p.displayName, p.emailAddress));
    b, es := WriteString(lib, b, es, 4, "PayloadIdentifier", root);
    b, es := WriteString(lib, b, es, 4, "PayloadOrganization", p.organization);
    b, es := WriteBool(lib, b, es, 4, "PayloadRemovalDisallowed", false);
    b, es := WriteString(lib, b, es, 4, "PayloadType", "Configuration");
    b, es := WriteString(lib, b, es, 4, "PayloadUUID", lib.uuid(root));
    b, es := WriteInt(lib, b, es, 4, "PayloadVersion", 1);
    assert es == ProfileEntries(lib, p);
  }

  method WriteContent(lib: Library, content: seq<Token>, ghost payloads: seq<Value>)
    returns (b: seq<Token>, ghost es: seq<Entry>)
    requires content == ItemsTokens(lib, payloads)
    ensures es == [Entry("PayloadContent", Array(payloads))] && b == EntryTokens(lib, es, 4)
  {
    b := OneEntryTokens("PayloadContent",
                        [Start("array"), Chars("\n")] + content + [Chars(Spaces(4)), End("array")], 4);
    es := [Entry("PayloadContent", Array(payloads))];
    ArrayTokens(lib, payloads);
    EntryTokensSnoc(lib, [], "PayloadContent", Array(payloads), 4);
    NoEntries(lib);
    assert [] + es == es;
  }

  lemma ArrayTokens(lib: Library, payloads: seq<Value>)
    ensures Tokens(NodeOf(lib.encode, Array(payloads), 4)) ==
            [Start("array"), Chars("\n")] + ItemsTokens(lib, payloads) + [Chars(Spaces(4)), End("array")]
  {
    hide Spaces;
    var inner := ItemNodes(lib.encode, payloads, 4);
    AllTokensConcat([Text("\n")] + inner, [Text(Spaces(4))]);
    AllTokensConcat([Text("\n")], inner);
    TokensOfOne(Text("\n"));
    TokensOfOne(Text(Spaces(4)));
    assert NodeOf(lib.encode, Array(payloads), 4).kids == [Text("\n")] + inner + [Text(Spaces(4))];
  }

  lemma NoEntries(lib: Library)
    ensures forall n :: EntryTokens(lib, [], n) == []
  {
  }
}
