/** Parsing a generated configuration profile recovers what it was generated from. */
module ProfileRoundTrip {
  import opened Wrappers
  import opened Strings
  import opened Plist
  import opened PlistTree
  import opened MobileConfig
  import opened MobileConfigParse

  /** The numbers a profile is written with. */
  predicate IsWritten(p: Profile, n: int) {
    n in {1, p.imapPort, p.smtpPort, p.httpsPort}
  }

  /** The library reads those back. */
  ghost predicate Consistent(lib: Library, p: Profile) {
    forall n :: IsWritten(p, n) ==> lib.rd.parseFloat(TrimSpace(lib.decimal(n))) == Some(n as real)
  }

  lemma {:induction false} LookupAt(es: seq<Entry>, i: nat)
    requires i < |es| && DistinctKeys(es)
    ensures Lookup(es, es[i].key) == Some(es[i].value)
    decreases |es|
  {
    if i > 0 {
      assert es[0].key != es[i].key && es[1..][i - 1] == es[i];
      LookupAt(es[1..], i - 1);
    }
  }

  lemma {:induction false} LookupMissing(es: seq<Entry>, key: string)
    requires forall i :: 0 <= i < |es| ==> es[i].key != key
    ensures Lookup(es, key) == None
    decreases |es|
  {
    if es != [] {
      assert forall i :: 0 <= i < |es[1..]| ==> es[1..][i] == es[i + 1];
      LookupMissing(es[1..], key);
    }
  }

  lemma LookupIs(es: seq<Entry>, e: Entry)
    requires e in es && DistinctKeys(es)
    ensures Lookup(es, e.key) == Some(e.value)
  {
  }

  predicate Ended(key: string) {
    key != "" && !IsSpace(key[0]) && !IsSpace(key[|key| - 1])
  }

  function Keys(es: seq<Entry>): (ks: seq<string>)
    ensures |ks| == |es| && forall i :: 0 <= i < |es| ==> ks[i] == es[i].key
  {
    seq(|es|, i requires 0 <= i < |es| => es[i].key)
  }

  const INCOMING_KEYS: seq<string> :=
    ["EmailAccountDescription", "EmailAccountName", "EmailAccountType", "EmailAddress",
     "IncomingMailServerAuthentication", "IncomingMailServerHostName", "IncomingMailServerPortNumber",
     "IncomingMailServerUseSSL", "IncomingMailServerUsername", "IncomingPassword"]

  const OUTGOING_KEYS: seq<string> :=
    ["OutgoingMailServerAuthentication", "OutgoingMailServerHostName", "OutgoingMailServerPortNumber",
     "OutgoingMailServerUseSSL", "OutgoingMailServerUsername", "OutgoingPasswordSameAsIncomingPassword"]

  const COMMON_KEYS: seq<string> :=
    ["PayloadDescription", "PayloadDisplayName", "PayloadIdentifier", "PayloadType", "PayloadUUID",
     "PayloadVersion"]

  const MAIL_KEYS: seq<string> := INCOMING_KEYS + OUTGOING_KEYS + COMMON_KEYS

  predicate Distinct(ks: seq<string>) {
    forall i, j :: 0 <= i < j < |ks| ==> ks[i] != ks[j]
  }

  predicate AllEnded(ks: seq<string>) {
    forall i :: 0 <= i < |ks| ==> Ended(ks[i])
  }

  predicate AllPlain(ks: seq<string>) {
    forall i :: 0 <= i < |ks| ==> '&' !in ks[i]
  }

  predicate Fit(ks: seq<string>) {
    Distinct(ks) && AllEnded(ks) && AllPlain(ks)
  }

  predicate StartIn(ks: seq<string>, cs: set<char>) {
    forall i :: 0 <= i < |ks| ==> ks[i] != "" && ks[i][0] in cs
  }

  lemma DistinctConcat(a: seq<string>, b: seq<string>, cs: set<char>, ds: set<char>)
    requires Distinct(a) && Distinct(b) && StartIn(a, cs) && StartIn(b, ds) && cs !! ds
    ensures Distinct(a + b) && StartIn(a + b, cs + ds)
  {
    var all := a + b;
    forall i, j | 0 <= i < j < |all| ensures all[i] != all[j] {
      if i < |a| <= j { assert all[i][0] in cs && all[j][0] in ds; }
    }
  }

  lemma IncomingKeysDistinct()
    ensures Distinct(INCOMING_KEYS)
  {
  }

  lemma IncomingKeysStart()
    ensures StartIn(INCOMING_KEYS, {'E', 'I'})
  {
  }

  lemma IncomingKeysEnded()
    ensures AllEnded(INCOMING_KEYS)
  {
  }

  lemma OutgoingKeysDistinct()
    ensures Distinct(OUTGOING_KEYS) && StartIn(OUTGOING_KEYS, {'O'}) && AllEnded(OUTGOING_KEYS)
  {
  }

  lemma CommonKeysDistinct()
    ensures Distinct(COMMON_KEYS) && StartIn(COMMON_KEYS, {'P'}) && AllEnded(COMMON_KEYS)
  {
  }

  lemma EndedConcat(a: seq<string>, b: seq<string>)
    requires AllEnded(a) && AllEnded(b)
    ensures AllEnded(a + b)
  {
  }

  lemma MailKeysDistinct()
    ensures Distinct(MAIL_KEYS) && AllEnded(MAIL_KEYS)
  {
    hide Distinct, StartIn, AllEnded, INCOMING_KEYS, OUTGOING_KEYS, COMMON_KEYS;
    IncomingKeysDistinct();
    IncomingKeysStart();
    IncomingKeysEnded();
    OutgoingKeysDistinct();
    CommonKeysDistinct();
    DistinctConcat(INCOMING_KEYS, OUTGOING_KEYS, {'E', 'I'}, {'O'});
    DistinctConcat(INCOMING_KEYS + OUTGOING_KEYS, COMMON_KEYS, {'E', 'I'} + {'O'}, {'P'});
    EndedConcat(INCOMING_KEYS, OUTGOING_KEYS);
    EndedConcat(INCOMING_KEYS + OUTGOING_KEYS, COMMON_KEYS);
  }

  lemma IncomingKeysPlain()
    ensures AllPlain(INCOMING_KEYS)
  {
  }

  lemma OutgoingKeysPlain()
    ensures AllPlain(OUTGOING_KEYS)
  {
  }

  lemma CommonKeysPlain()
    ensures AllPlain(COMMON_KEYS)
  {
  }

  lemma PlainConcat(a: seq<string>, b: seq<string>)
    requires AllPlain(a) && AllPlain(b)
    ensures AllPlain(a + b)
  {
  }

  lemma MailKeysPlain()
    ensures AllPlain(MAIL_KEYS)
  {
    hide AllPlain, INCOMING_KEYS, OUTGOING_KEYS, COMMON_KEYS;
    IncomingKeysPlain();
    OutgoingKeysPlain();
    CommonKeysPlain();
    PlainConcat(INCOMING_KEYS, OUTGOING_KEYS);
    PlainConcat(INCOMING_KEYS + OUTGOING_KEYS, COMMON_KEYS);
  }

  lemma MailKeysFit()
    ensures Fit(MAIL_KEYS)
  {
    hide Distinct, AllPlain, AllEnded, MAIL_KEYS;
    MailKeysDistinct();
    MailKeysPlain();
  }

  lemma NoOutgoingPassword()
    ensures "OutgoingPassword" !in MAIL_KEYS
  {
  }

  /** What a dictionary needs to be printed and read back. */
  predicate KeysFit(es: seq<Entry>) {
    DistinctKeys(es) && TrimmedKeys(es) && PlainKeys(es)
  }

  lemma KeysFitFrom(es: seq<Entry>)
    requires Fit(Keys(es))
    ensures KeysFit(es)
  {
  }

  /** A dictionary may leave one of the keys out. */
  lemma FitWithout(a: seq<Entry>, e: Entry, b: seq<Entry>)
    requires KeysFit(a + [e] + b)
    ensures KeysFit(a + b) && Lookup(a + b, e.key) == None
  {
    hide TrimSpace, Lookup;
    var all, less := a + [e] + b, a + b;
    assert forall i :: 0 <= i < |less| ==> less[i] == all[if i < |a| then i else i + 1];
    assert all[|a|] == e;
    LookupMissing(less, e.key);
  }

  lemma LookupAbsent(es: seq<Entry>, key: string)
    requires key !in Keys(es)
    ensures Lookup(es, key) == None
  {
  }

  lemma KeysConcat(a: seq<Entry>, b: seq<Entry>)
    ensures Keys(a + b) == Keys(a) + Keys(b)
  {
  }

  lemma IncomingKeys(lib: Library, p: Profile, e: Entry)
    requires e.key == "IncomingPassword"
    ensures Keys(IncomingEntries(lib, p) + [e]) == INCOMING_KEYS
  {
  }

  lemma OutgoingKeys(lib: Library, p: Profile)
    ensures Keys(OutgoingEntries(lib, p)) == OUTGOING_KEYS
  {
  }

  lemma CommonKeys(lib: Library, description: string, title: string, id: string, payloadType: string)
    ensures Keys(CommonEntries(lib, description, title, id, payloadType)) == COMMON_KEYS
  {
  }

  function MailCommon(lib: Library, p: Profile, root: string): seq<Entry> {
    CommonEntries(lib, "Configures email account.", "IMAP (" + p.emailAddress + ")", root + ".email",
                  "com.apple.mail.managed")
  }

  lemma MailFit(lib: Library, p: Profile, root: string)
    ensures var es := MailEntries(lib, p, root);
            KeysFit(es) && (p.secret == "" ==> Lookup(es, "IncomingPassword") == None)
    ensures Lookup(MailEntries(lib, p, root), "OutgoingPassword") == None
  {
    hide KeysFit, Fit, IncomingEntries, OutgoingEntries, CommonEntries, MAIL_KEYS;
    var a, e := IncomingEntries(lib, p), Entry("IncomingPassword", Str(p.secret));
    var o, c := OutgoingEntries(lib, p), MailCommon(lib, p, root);
    AllMailKeys(lib, p, root, e);
    MailKeysFit();
    KeysFitFrom(a + [e] + (o + c));
    FitWithout(a, e, o + c);
    assert a + [e] + (o + c) == a + [e] + o + c && a + (o + c) == a + [] + o + c;
    NoOutgoingPassword();
    assert "OutgoingPassword" !in Keys(a + [e] + (o + c));
    LookupAbsent(a + [e] + (o + c), "OutgoingPassword");
    if p.secret == "" {
      KeysConcat(a + [e], o + c);
      KeysConcat(a, [e]);
      KeysConcat(a, o + c);
      LookupAbsent(a + (o + c), "OutgoingPassword");
    }
  }

  lemma AllMailKeys(lib: Library, p: Profile, root: string, e: Entry)
    requires e.key == "IncomingPassword"
    ensures Keys(IncomingEntries(lib, p) + [e] + (OutgoingEntries(lib, p) + MailCommon(lib, p, root))) == MAIL_KEYS
  {
    hide IncomingEntries, OutgoingEntries, CommonEntries, INCOMING_KEYS, OUTGOING_KEYS, COMMON_KEYS, Keys;
    IncomingKeys(lib, p, e);
    OutgoingKeys(lib, p);
    CommonKeys(lib, "Configures email account.", "IMAP (" + p.emailAddress + ")", root + ".email",
               "com.apple.mail.managed");
    var o, c := OutgoingEntries(lib, p), MailCommon(lib, p, root);
    KeysConcat(o, c);
    KeysConcat(IncomingEntries(lib, p) + [e], o + c);
    assert MAIL_KEYS == INCOMING_KEYS + OUTGOING_KEYS + COMMON_KEYS;
  }

  // ---------------------------------------------------------- the DAV payloads

  const DAV_KEYS: seq<string> :=
    ["AccountDescription", "HostName", "Port", "PrincipalURL", "UseSSL", "Username", "Password"]

  lemma DavKeysOrderly()
    ensures Distinct(DAV_KEYS) && AllEnded(DAV_KEYS)
  {
  }

  lemma DavKeysPlain()
    ensures AllPlain(DAV_KEYS)
  {
  }

  lemma DavKeysFit()
    ensures Fit(DAV_KEYS)
  {
    hide DAV_KEYS, Distinct, AllEnded, AllPlain;
    DavKeysOrderly();
    DavKeysPlain();
  }

  function WithPrefix(prefix: string, ks: seq<string>): (r: seq<string>)
    ensures |r| == |ks| && forall i :: 0 <= i < |ks| ==> r[i] == prefix + ks[i]
  {
    seq(|ks|, i requires 0 <= i < |ks| => prefix + ks[i])
  }

  lemma PrefixedFit(prefix: string, ks: seq<string>)
    requires Ended(prefix) && '&' !in prefix && Fit(ks)
    ensures Fit(WithPrefix(prefix, ks))
  {
    var r := WithPrefix(prefix, ks);
    forall i, j | 0 <= i < j < |r| ensures r[i] != r[j] {
      assert (prefix + ks[i])[|prefix|..] == ks[i] && (prefix + ks[j])[|prefix|..] == ks[j];
    }
  }

  lemma FitConcat(a: seq<string>, b: seq<string>, c: char)
    requires Fit(a) && Fit(b)
    requires (forall i :: 0 <= i < |a| ==> a[i][0] == c) && forall i :: 0 <= i < |b| ==> b[i][0] != c
    ensures Fit(a + b)
  {
  }

  lemma CommonKeysFit()
    ensures Fit(COMMON_KEYS) && forall i :: 0 <= i < |COMMON_KEYS| ==> COMMON_KEYS[i][0] == 'P'
  {
    CommonKeysPlain();
  }

  predicate IsDav(dav: Dav) {
    dav == CALDAV || dav == CARDDAV
  }

  lemma AllDavKeysFit(dav: Dav)
    requires IsDav(dav)
    ensures Fit(WithPrefix(dav.prefix, DAV_KEYS) + COMMON_KEYS)
  {
    DavKeysFit();
    CommonKeysFit();
    hide Fit, DAV_KEYS, COMMON_KEYS;
    PrefixedFit(dav.prefix, DAV_KEYS);
    FitConcat(WithPrefix(dav.prefix, DAV_KEYS), COMMON_KEYS, 'C');
  }

  lemma AccountKeys(lib: Library, p: Profile, dav: Dav, path: string, e: Entry)
    requires e.key == dav.prefix + "Password"
    ensures Keys(AccountEntries(lib, p, dav, path) + [e]) == WithPrefix(dav.prefix, DAV_KEYS)
  {
  }

  lemma DavFit(lib: Library, p: Profile, root: string, dav: Dav, path: string)
    requires IsDav(dav)
    ensures var es := DavEntries(lib, p, root, dav, path);
            KeysFit(es) && (p.secret == "" ==> Lookup(es, dav.prefix + "Password") == None)
  {
    hide KeysFit, Fit, AccountEntries, CommonEntries, Keys;
    var a, e := AccountEntries(lib, p, dav, path), Entry(dav.prefix + "Password", Str(p.secret));
    var title, id := dav.prefix + " (" + p.emailAddress + ")", root + dav.suffix;
    var c := CommonEntries(lib, dav.description, title, id, dav.payloadType);
    AccountKeys(lib, p, dav, path, e);
    CommonKeys(lib, dav.description, title, id, dav.payloadType);
    KeysConcat(a + [e], c);
    AllDavKeysFit(dav);
    KeysFitFrom(a + [e] + c);
    FitWithout(a, e, c);
    assert a + [] + c == a + c;
  }

  // ------------------------------------------------------------ fields read back

  lemma StrRead(es: seq<Entry>, key: string, s: string)
    requires Entry(key, Str(s)) in es && DistinctKeys(es)
    ensures StringOr(Some(Dict(es)), key, "") == s
  {
    hide DistinctKeys, Lookup;
    LookupIs(es, Entry(key, Str(s)));
  }

  lemma NothingRead(es: seq<Entry>, key: string)
    requires Lookup(es, key) == None
    ensures StringOr(Some(Dict(es)), key, "") == ""
  {
  }

  lemma BoolRead(es: seq<Entry>, key: string, flag: bool, fallback: bool)
    requires Entry(key, Bool(flag)) in es && DistinctKeys(es)
    ensures BoolOr(Some(Dict(es)), key, fallback) == flag
  {
    hide DistinctKeys, Lookup;
    LookupIs(es, Entry(key, Bool(flag)));
  }

  lemma IntRead(lib: Library, es: seq<Entry>, key: string, n: int, fallback: int)
    requires Entry(key, Number(lib, n)) in es && DistinctKeys(es)
    ensures IntOr(lib.rd, Some(Dict(es)), key, fallback) == n
  {
    hide DistinctKeys, Lookup;
    LookupIs(es, Entry(key, Number(lib, n)));
    assert (-(n as real)) == (-n) as real;
  }

  lemma SecretRead(es: seq<Entry>, key: string, p: Profile)
    requires DistinctKeys(es)
    requires (forall e :: e in Secret(key, p) ==> e in es) && (p.secret == "" ==> Lookup(es, key) == None)
    ensures StringOr(Some(Dict(es)), key, "") == p.secret
  {
    hide StringOr, DistinctKeys;
    if p.secret == "" {
      NothingRead(es, key);
    } else {
      assert Entry(key, Str(p.secret)) in Secret(key, p);
      StrRead(es, key, p.secret);
    }
  }

  // -------------------------------------------------------- payloads read back

  /** The mail account a generated profile describes. */
  function MailOf(p: Profile): MailAccount {
    var host, user := TrimSpace(p.hostname), TrimSpace(p.username);
    MailAccount(p.emailAddress, DefaultString(p.accountName, p.emailAddress), TrimSpace(p.emailAddress),
                host, p.imapPort, user, p.secret, true, host, p.smtpPort, user, p.secret, true)
  }

  function DavOf(p: Profile, path: string): DavAccount {
    DavAccount(p.emailAddress, TrimSpace(p.hostname), p.httpsPort, TrimSpace(path), TrimSpace(p.username),
               p.secret, true)
  }

  lemma MailNames(lib: Library, p: Profile, root: string)
    ensures var v := Some(Dict(MailEntries(lib, p, root)));
            && StringOr(v, "EmailAccountType", "") == "EmailTypeIMAP"
            && StringOr(v, "EmailAccountDescription", "") == p.emailAddress
            && StringOr(v, "EmailAccountName", "") == DefaultString(p.accountName, p.emailAddress)
  {
    hide StringOr, OutgoingEntries, CommonEntries, Secret, Number, DefaultString, DistinctKeys, TrimmedKeys, PlainKeys;
    var es, a := MailEntries(lib, p, root), IncomingEntries(lib, p);
    MailFit(lib, p, root);
    assert es[0] == a[0] && es[1] == a[1] && es[2] == a[2];
    StrRead(es, a[2].key, "EmailTypeIMAP");
    StrRead(es, a[0].key, p.emailAddress);
    StrRead(es, a[1].key, DefaultString(p.accountName, p.emailAddress));
  }

  lemma MailLogin(lib: Library, p: Profile, root: string)
    ensures var v := Some(Dict(MailEntries(lib, p, root)));
            && StringOr(v, "EmailAddress", "") == p.emailAddress
            && StringOr(v, "IncomingMailServerHostName", "") == p.hostname
            && StringOr(v, "IncomingMailServerUsername", "") == p.username
  {
    hide StringOr, OutgoingEntries, CommonEntries, Secret, Number, DefaultString, DistinctKeys, TrimmedKeys, PlainKeys;
    var es, a := MailEntries(lib, p, root), IncomingEntries(lib, p);
    MailFit(lib, p, root);
    assert es[3] == a[3] && es[5] == a[5] && es[8] == a[8];
    StrRead(es, a[3].key, p.emailAddress);
    StrRead(es, a[5].key, p.hostname);
    StrRead(es, a[8].key, p.username);
  }

  lemma MailSecrets(lib: Library, p: Profile, root: string)
    ensures var v := Some(Dict(MailEntries(lib, p, root)));
            && StringOr(v, "IncomingPassword", "") == p.secret
            && StringOr(v, "OutgoingPassword", "") == ""
            && StringOr(v, "PayloadType", "") == "com.apple.mail.managed"
  {
    hide StringOr, IncomingEntries, OutgoingEntries, Secret, Number;
    var es := MailEntries(lib, p, root);
    MailFit(lib, p, root);
    var a, s := IncomingEntries(lib, p), Secret("IncomingPassword", p);
    var o, c := OutgoingEntries(lib, p), MailCommon(lib, p, root);
    assert es == a + s + o + c;
    SecretRead(es, "IncomingPassword", p);
    NothingRead(es, "OutgoingPassword");
    assert c[3] in c;
    StrRead(es, c[3].key, "com.apple.mail.managed");
  }

  lemma MailOutgoing(lib: Library, p: Profile, root: string)
    ensures var v := Some(Dict(MailEntries(lib, p, root)));
            && StringOr(v, "OutgoingMailServerHostName", "") == p.hostname
            && StringOr(v, "OutgoingMailServerUsername", "") == p.username
            && BoolOr(v, "OutgoingMailServerUseSSL", true)
            && BoolOr(v, "OutgoingPasswordSameAsIncomingPassword", false)
            && forall d :: IntOr(lib.rd, v, "OutgoingMailServerPortNumber", d) == p.smtpPort
  {
    hide StringOr, BoolOr, IntOr, IncomingEntries, CommonEntries, Secret, Number, DistinctKeys, TrimmedKeys, PlainKeys;
    var es := MailEntries(lib, p, root);
    MailFit(lib, p, root);
    var o := OutgoingEntries(lib, p);
    assert forall i :: 0 <= i < |o| ==> o[i] in o && o[i] in es;
    StrRead(es, o[1].key, p.hostname);
    StrRead(es, o[4].key, p.username);
    BoolRead(es, o[3].key, true, true);
    BoolRead(es, o[5].key, true, false);
    forall d ensures IntOr(lib.rd, Some(Dict(es)), "OutgoingMailServerPortNumber", d) == p.smtpPort {
      IntRead(lib, es, o[2].key, p.smtpPort, d);
    }
  }

  lemma MailIncoming(lib: Library, p: Profile, root: string)
    ensures var v := Some(Dict(MailEntries(lib, p, root)));
            && BoolOr(v, "IncomingMailServerUseSSL", true)
            && forall d :: IntOr(lib.rd, v, "IncomingMailServerPortNumber", d) == p.imapPort
  {
    hide BoolOr, IntOr, OutgoingEntries, CommonEntries, Secret, Number, DefaultString;
    var es, a := MailEntries(lib, p, root), IncomingEntries(lib, p);
    MailFit(lib, p, root);
    assert forall i :: 0 <= i < |a| ==> es[i] == a[i];
    BoolRead(es, a[7].key, true, true);
    forall d ensures IntOr(lib.rd, Some(Dict(es)), "IncomingMailServerPortNumber", d) == p.imapPort {
      IntRead(lib, es, a[6].key, p.imapPort, d);
    }
  }

  lemma MailReadsBack(lib: Library, p: Profile, root: string)
    ensures var v := Dict(MailEntries(lib, p, root));
            && StringOr(Some(v), "PayloadType", "") == "com.apple.mail.managed"
            && ParseMail(lib.rd, Some(v)) ==
               if TrimSpace(p.hostname) == "" then Wrong(NoIncomingHost) else Right(MailOf(p))
  {
    MailNames(lib, p, root);
    MailLogin(lib, p, root);
    MailSecrets(lib, p, root);
    MailIncoming(lib, p, root);
    MailOutgoing(lib, p, root);
    hide StringOr, BoolOr, IntOr, MailEntries, DefaultString, TrimSpace, ToLower;
    assert |ToLower("EmailTypeIMAP")| == 13;
  }

  lemma DavStrings(lib: Library, p: Profile, root: string, dav: Dav, path: string)
    requires IsDav(dav)
    ensures var v := Some(Dict(DavEntries(lib, p, root, dav, path)));
            && StringOr(v, dav.prefix + "AccountDescription", "") == p.emailAddress
            && StringOr(v, dav.prefix + "HostName", "") == p.hostname
            && StringOr(v, dav.prefix + "PrincipalURL", "") == path
            && StringOr(v, dav.prefix + "Username", "") == p.username
            && BoolOr(v, dav.prefix + "UseSSL", true)
            && forall d :: IntOr(lib.rd, v, dav.prefix + "Port", d) == p.httpsPort
  {
    hide StringOr, BoolOr, IntOr, CommonEntries, Secret, Number;
    var es, a := DavEntries(lib, p, root, dav, path), AccountEntries(lib, p, dav, path);
    DavFit(lib, p, root, dav, path);
    assert forall i :: 0 <= i < |a| ==> es[i] == a[i];
    StrRead(es, a[0].key, p.emailAddress);
    StrRead(es, a[1].key, p.hostname);
    StrRead(es, a[3].key, path);
    StrRead(es, a[5].key, p.username);
    BoolRead(es, a[4].key, true, true);
    forall d ensures IntOr(lib.rd, Some(Dict(es)), dav.prefix + "Port", d) == p.httpsPort {
      IntRead(lib, es, a[2].key, p.httpsPort, d);
    }
  }

  lemma DavReadsBack(lib: Library, p: Profile, root: string, dav: Dav, path: string)
    requires IsDav(dav)
    ensures var v := Dict(DavEntries(lib, p, root, dav, path));
            && StringOr(Some(v), "PayloadType", "") == dav.payloadType
            && ParseDav(lib.rd, Some(v), dav.prefix) == DavOf(p, path)
  {
    hide StringOr, BoolOr, IntOr, AccountEntries, Secret, Number, TrimSpace;
    DavStrings(lib, p, root, dav, path);
    var es := DavEntries(lib, p, root, dav, path);
    DavFit(lib, p, root, dav, path);
    SecretRead(es, dav.prefix + "Password", p);
    var c := CommonEntries(lib, dav.description, dav.prefix + " (" + p.emailAddress + ")", root + dav.suffix, dav.payloadType);
    assert es == AccountEntries(lib, p, dav, path) + Secret(dav.prefix + "Password", p) + c;
    assert c[3] in c;
    StrRead(es, c[3].key, dav.payloadType);
  }

  // ------------------------------------------------------------- the document

  lemma DictPrintable(lib: Library, es: seq<Entry>)
    requires KeysFit(es) && ValuesFit(lib, es)
    ensures Printable(lib.rd, lib.encode, Dict(es))
  {
  }

  const PROFILE_KEYS: seq<string> :=
    ["PayloadContent", "PayloadDescription", "PayloadDisplayName", "PayloadIdentifier",
     "PayloadOrganization", "PayloadRemovalDisallowed", "PayloadType", "PayloadUUID", "PayloadVersion"]

  lemma ProfileKeysOrderly()
    ensures Distinct(PROFILE_KEYS) && AllEnded(PROFILE_KEYS)
  {
  }

  lemma ProfileKeysPlain()
    ensures AllPlain(PROFILE_KEYS)
  {
  }

  lemma ProfileKeys(lib: Library, p: Profile)
    ensures Keys(ProfileEntries(lib, p)) == PROFILE_KEYS
  {
    hide Payloads, Number, DefaultString, Description;
  }

  lemma ProfileKeysFit(lib: Library, p: Profile)
    ensures KeysFit(ProfileEntries(lib, p))
  {
    ProfileKeysOrderly();
    ProfileKeysPlain();
    ProfileKeys(lib, p);
    hide PROFILE_KEYS, Distinct, AllEnded, AllPlain, ProfileEntries, Keys, KeysFit;
    KeysFitFrom(ProfileEntries(lib, p));
  }

  /** Every value can be printed. */
  ghost predicate ValuesFit(lib: Library, es: seq<Entry>) {
    forall e :: e in es ==> Printable(lib.rd, lib.encode, e.value)
  }

  lemma ValuesFitConcat(lib: Library, a: seq<Entry>, b: seq<Entry>)
    requires ValuesFit(lib, a) && ValuesFit(lib, b)
    ensures ValuesFit(lib, a + b)
  {
  }

  lemma SecretFits(lib: Library, key: string, p: Profile)
    ensures ValuesFit(lib, Secret(key, p))
  {
  }

  lemma CommonFits(lib: Library, p: Profile, description: string, title: string, id: string, payloadType: string)
    requires Consistent(lib, p)
    ensures ValuesFit(lib, CommonEntries(lib, description, title, id, payloadType))
  {
  }

  lemma IncomingFits(lib: Library, p: Profile)
    requires Consistent(lib, p)
    ensures ValuesFit(lib, IncomingEntries(lib, p))
  {
    LeavesFit(lib, p);
    hide TrimSpace, DefaultString, Printable, Number, Consistent;
    var es := IncomingEntries(lib, p);
    assert forall i :: 0 <= i < |es| ==> Printable(lib.rd, lib.encode, es[i].value);
  }

  lemma OutgoingFits(lib: Library, p: Profile)
    requires Consistent(lib, p)
    ensures ValuesFit(lib, OutgoingEntries(lib, p))
  {
    LeavesFit(lib, p);
    hide TrimSpace, Printable, Number, Consistent;
    var es := OutgoingEntries(lib, p);
    assert forall i :: 0 <= i < |es| ==> Printable(lib.rd, lib.encode, es[i].value);
  }

  /** Texts and flags can always be printed, numbers if the library reads them back. */
  lemma LeavesFit(lib: Library, p: Profile)
    requires Consistent(lib, p)
    ensures forall s :: Printable(lib.rd, lib.encode, Str(s))
    ensures forall flag :: Printable(lib.rd, lib.encode, Bool(flag))
    ensures forall n :: IsWritten(p, n) ==> Printable(lib.rd, lib.encode, Number(lib, n))
  {
    hide TrimSpace;
  }

  lemma AccountFits(lib: Library, p: Profile, dav: Dav, path: string)
    requires Consistent(lib, p)
    ensures ValuesFit(lib, AccountEntries(lib, p, dav, path))
  {
  }

  lemma PayloadsPrintable(lib: Library, p: Profile, root: string)
    requires Consistent(lib, p)
    ensures Printable(lib.rd, lib.encode, Array(Payloads(lib, p, root)))
  {
    hide MailEntries, DavEntries, KeysFit;
    MailPrintable(lib, p, root);
    DavPrintable(lib, p, root, CALDAV, p.calDAVPath);
    DavPrintable(lib, p, root, CARDDAV, p.cardDAVPath);
  }

  lemma MailPrintable(lib: Library, p: Profile, root: string)
    requires Consistent(lib, p)
    ensures Printable(lib.rd, lib.encode, Dict(MailEntries(lib, p, root)))
  {
    MailFit(lib, p, root);
    IncomingFits(lib, p);
    OutgoingFits(lib, p);
    SecretFits(lib, "IncomingPassword", p);
    var a, s, o, c := IncomingEntries(lib, p), Secret("IncomingPassword", p), OutgoingEntries(lib, p), MailCommon(lib, p, root);
    CommonFits(lib, p, "Configures email account.", "IMAP (" + p.emailAddress + ")", root + ".email",
               "com.apple.mail.managed");
    hide KeysFit, ValuesFit, IncomingEntries, OutgoingEntries, CommonEntries, Secret, Consistent, Printable;
    ValuesFitConcat(lib, a, s);
    ValuesFitConcat(lib, a + s, o);
    ValuesFitConcat(lib, a + s + o, c);
    DictPrintable(lib, MailEntries(lib, p, root));
  }

  lemma DavPrintable(lib: Library, p: Profile, root: string, dav: Dav, path: string)
    requires Consistent(lib, p) && IsDav(dav)
    ensures Printable(lib.rd, lib.encode, Dict(DavEntries(lib, p, root, dav, path)))
  {
    DavFit(lib, p, root, dav, path);
    AccountFits(lib, p, dav, path);
    SecretFits(lib, dav.prefix + "Password", p);
    var a, s := AccountEntries(lib, p, dav, path), Secret(dav.prefix + "Password", p);
    var c := CommonEntries(lib, dav.description, dav.prefix + " (" + p.emailAddress + ")", root + dav.suffix, dav.payloadType);
    CommonFits(lib, p, dav.description, dav.prefix + " (" + p.emailAddress + ")", root + dav.suffix, dav.payloadType);
    hide KeysFit, ValuesFit, AccountEntries, CommonEntries, Secret, Consistent, Printable;
    ValuesFitConcat(lib, a, s);
    ValuesFitConcat(lib, a + s, c);
    DictPrintable(lib, DavEntries(lib, p, root, dav, path));
  }

  lemma ProfilePrintable(lib: Library, p: Profile)
    requires Consistent(lib, p)
    ensures Printable(lib.rd, lib.encode, Dict(ProfileEntries(lib, p)))
  {
    hide Payloads, KeysFit, DefaultString, Description, TrimSpace;
    ProfileKeysFit(lib, p);
    PayloadsPrintable(lib, p, lib.identifier(p));
    DictPrintable(lib, ProfileEntries(lib, p));
  }

  /** The parser finds the root dictionary of a generated document. */
  lemma RootOfDocument(lib: Library, p: Profile)
    requires Consistent(lib, p)
    ensures RootFrom(lib.rd, Document(lib, p)) == Right(Some(Dict(ProfileEntries(lib, p))))
  {
    var v := Dict(ProfileEntries(lib, p));
    var tail := [Chars("\n"), End("plist"), Chars("\n")];
    ProfilePrintable(lib, p);
    ParseUndoesPrint(lib.rd, lib.encode, v, 4, tail);
    RootName(lib, v);
    hide ProfileEntries, NodeOf, Tokens, ValueFrom, Printable, RootFrom, BodyFrom, Document;
    var body := Tokens(NodeOf(lib.encode, v, 4)) + tail;
    BodyHere(lib.rd, body, v, tail);
    SkipBody(lib.rd, Chars("  "), body);
    SkipBody(lib.rd, Chars("\n"), [Chars("  ")] + body);
    var t := [Chars("\n")] + ([Chars("  ")] + body);
    PlistHere(lib.rd, t);
    SkipRoot(lib.rd, Chars("\n"), [Start("plist")] + t);
    SkipRoot(lib.rd, Misc, [Chars("\n")] + ([Start("plist")] + t));
    var u := [Misc] + ([Chars("\n")] + ([Start("plist")] + t));
    SkipRoot(lib.rd, Chars("\n"), u);
    SkipRoot(lib.rd, Misc, [Chars("\n")] + u);
    DocumentShape(lib, p);
  }

  lemma DocumentShape(lib: Library, p: Profile)
    ensures var body := Tokens(NodeOf(lib.encode, Dict(ProfileEntries(lib, p)), 4)) + [Chars("\n"), End("plist"), Chars("\n")];
            var t := [Chars("\n")] + ([Chars("  ")] + body);
            Document(lib, p) == [Misc] + ([Chars("\n")] + ([Misc] + ([Chars("\n")] + ([Start("plist")] + t))))
  {
    hide ProfileEntries, NodeOf, Tokens;
  }

  lemma BodyHere(rd: Readers, ts: seq<Token>, v: Value, rest: seq<Token>)
    requires ts != [] && ts[0] == Start("dict") && ValueFrom(rd, ts[1..], "dict") == Done(Some(v), rest)
    ensures BodyFrom(rd, ts) == Right(Some(v))
  {
  }

  lemma PlistHere(rd: Readers, ts: seq<Token>)
    ensures RootFrom(rd, [Start("plist")] + ts) == BodyFrom(rd, ts)
  {
  }

  lemma SkipBody(rd: Readers, t: Token, ts: seq<Token>)
    requires t.Chars? || t.Misc?
    ensures BodyFrom(rd, [t] + ts) == BodyFrom(rd, ts)
  {
  }

  lemma SkipRoot(rd: Readers, t: Token, ts: seq<Token>)
    requires t.Chars? || t.Misc?
    ensures RootFrom(rd, [t] + ts) == RootFrom(rd, ts)
  {
  }

  lemma RootName(lib: Library, v: Value)
    requires v.Dict?
    ensures NodeOf(lib.encode, v, 4).name == "dict"
  {
  }

  // ------------------------------------------------------------- the round trip

  /** What parsing a generated profile gives. */
  function Recovered(lib: Library, p: Profile): Account {
    Account(DefaultString(p.displayName, p.emailAddress), p.organization, lib.identifier(p), Some(MailOf(p)),
            if p.calDAVPath != "" then Some(DavOf(p, p.calDAVPath)) else None,
            if p.cardDAVPath != "" then Some(DavOf(p, p.cardDAVPath)) else None, [])
  }

  lemma ProfileFields(lib: Library, p: Profile)
    ensures var v := Some(Dict(ProfileEntries(lib, p)));
            && Child(v, "PayloadContent") == Some(Array(Payloads(lib, p, lib.identifier(p))))
            && StringOr(v, "PayloadDisplayName", "") == DefaultString(p.displayName, p.emailAddress)
            && StringOr(v, "PayloadOrganization", "") == p.organization
            && StringOr(v, "PayloadIdentifier", "") == lib.identifier(p)
  {
    hide Payloads, Number, DefaultString, Description, StringOr, Lookup, DistinctKeys, TrimmedKeys, PlainKeys;
    var es := ProfileEntries(lib, p);
    ProfileKeysFit(lib, p);
    LookupIs(es, es[0]);
    assert Child(Some(Dict(es)), es[0].key) == Some(es[0].value);
    StrRead(es, es[2].key, DefaultString(p.displayName, p.emailAddress));
    StrRead(es, es[4].key, p.organization);
    StrRead(es, es[3].key, lib.identifier(p));
  }

  lemma AddMail(lib: Library, p: Profile, root: string, out: Account)
    requires out.mail == None
    ensures AddPayload(lib.rd, out, Dict(MailEntries(lib, p, root))) ==
            if TrimSpace(p.hostname) == "" then Wrong(NoIncomingHost) else Right(out.(mail := Some(MailOf(p))))
  {
    MailReadsBack(lib, p, root);
    hide ParseMail, ParseDav, MailEntries, StringOr, TrimSpace, MailOf;
  }

  lemma AddCalDav(lib: Library, p: Profile, root: string, out: Account)
    requires out.calDAV == None
    ensures AddPayload(lib.rd, out, Dict(DavEntries(lib, p, root, CALDAV, p.calDAVPath))) ==
            Right(out.(calDAV := Some(DavOf(p, p.calDAVPath))))
  {
    DavReadsBack(lib, p, root, CALDAV, p.calDAVPath);
    hide ParseMail, ParseDav, DavEntries, StringOr, DavOf;
  }

  lemma AddCardDav(lib: Library, p: Profile, root: string, out: Account)
    requires out.cardDAV == None
    ensures AddPayload(lib.rd, out, Dict(DavEntries(lib, p, root, CARDDAV, p.cardDAVPath))) ==
            Right(out.(cardDAV := Some(DavOf(p, p.cardDAVPath))))
  {
    DavReadsBack(lib, p, root, CARDDAV, p.cardDAVPath);
    hide ParseMail, ParseDav, DavEntries, StringOr, DavOf;
  }

  lemma AddDavs(lib: Library, p: Profile, root: string, out: Account)
    requires out.calDAV == None && out.cardDAV == None
    ensures AddPayloads(lib.rd, out, Payloads(lib, p, root)[1..]) ==
            Right(out.(calDAV := if p.calDAVPath != "" then Some(DavOf(p, p.calDAVPath)) else None,
                       cardDAV := if p.cardDAVPath != "" then Some(DavOf(p, p.cardDAVPath)) else None))
  {
    hide AddPayload, AddPayloads, DavEntries, MailEntries, DavOf;
    var cal := Dict(DavEntries(lib, p, root, CALDAV, p.calDAVPath));
    var card := Dict(DavEntries(lib, p, root, CARDDAV, p.cardDAVPath));
    var cards := if p.cardDAVPath != "" then [card] else [];
    var ps := Payloads(lib, p, root)[1..];
    assert ps == (if p.calDAVPath != "" then [cal] + cards else cards);
    var next := if p.calDAVPath != "" then out.(calDAV := Some(DavOf(p, p.calDAVPath))) else out;
    if p.calDAVPath != "" {
      AddCalDav(lib, p, root, out);
      AddFirst(lib.rd, out, cal, cards, next);
    }
    assert AddPayloads(lib.rd, out, ps) == AddPayloads(lib.rd, next, cards);
    if p.cardDAVPath != "" {
      AddCardDav(lib, p, root, next);
      AddFirst(lib.rd, next, card, [], next.(cardDAV := Some(DavOf(p, p.cardDAVPath))));
      assert [card] + [] == [card];
    }
    AddNone(lib.rd);
  }

  lemma AddFirst(rd: Readers, out: Account, v: Value, ps: seq<Value>, next: Account)
    requires AddPayload(rd, out, v) == Right(next)
    ensures AddPayloads(rd, out, [v] + ps) == AddPayloads(rd, next, ps)
  {
  }

  lemma AddNone(rd: Readers)
    ensures forall out :: AddPayloads(rd, out, []) == Right(out)
  {
  }

  /** Parsing what was generated: every account of the profile and nothing else, up
      to the white space around the host, the names and the paths. */
  lemma ParseUndoesGenerate(lib: Library, p: Profile)
    requires Consistent(lib, p)
    ensures ParseTokens(lib.rd, Document(lib, p)) ==
            if TrimSpace(p.hostname) == "" then Wrong(NoIncomingHost) else Right(Recovered(lib, p))
  {
    RootOfDocument(lib, p);
    ProfileFields(lib, p);
    AddAll(lib, p);
    hide RootFrom, Document, ProfileEntries, Payloads, StringOr, Child, DefaultString, TrimSpace, MailOf, DavOf,
         AddPayloads, MailEntries;
  }

  /** Every payload of a generated profile, in order. */
  lemma AddAll(lib: Library, p: Profile)
    ensures var root := lib.identifier(p); var ps := Payloads(lib, p, root);
            var blank := Account(DefaultString(p.displayName, p.emailAddress), p.organization, root, None, None, None, []);
            ps != [] && AddPayloads(lib.rd, blank, ps) ==
            if TrimSpace(p.hostname) == "" then Wrong(NoIncomingHost) else Right(Recovered(lib, p))
  {
    var root := lib.identifier(p);
    var ps := Payloads(lib, p, root);
    assert ps[0] == Dict(MailEntries(lib, p, root));
    var blank := Account(DefaultString(p.displayName, p.emailAddress), p.organization, root, None, None, None, []);
    hide Payloads, DefaultString, TrimSpace, MailOf, DavOf, AddPayload, MailEntries;
    AddMail(lib, p, root, blank);
    AddDavs(lib, p, root, blank.(mail := Some(MailOf(p))));
  }

  /** The DAV account was read back as it was given. */
  predicate SameDav(p: Profile, path: string, got: Option<DavAccount>) {
    match got
    case None => path == ""
    case Some(d) =>
      path != "" && d.hostname == p.hostname && d.port == p.httpsPort && d.principal == path &&
      d.username == p.username && d.password == p.secret
  }

  /** Host, ports, address, user, secret and the optional accounts came through. */
  predicate SameProfile(p: Profile, got: Outcome<Account>) {
    && got.Right? && got.value.mail.Some?
    && (var m := got.value.mail.value;
        && m.imapHost == p.hostname && m.imapPort == p.imapPort && m.imapUsername == p.username
        && m.imapPassword == p.secret && m.smtpHost == p.hostname && m.smtpPort == p.smtpPort
        && m.smtpUsername == p.username && m.smtpPassword == p.secret && m.email == p.emailAddress)
    && SameDav(p, p.calDAVPath, got.value.calDAV) && SameDav(p, p.cardDAVPath, got.value.cardDAV)
  }

  /** No white space around the fields Parse trims. */
  predicate TrimmedFields(p: Profile) {
    && TrimSpace(p.hostname) == p.hostname && TrimSpace(p.username) == p.username
    && TrimSpace(p.emailAddress) == p.emailAddress
    && TrimSpace(p.calDAVPath) == p.calDAVPath && TrimSpace(p.cardDAVPath) == p.cardDAVPath
  }

  /** A generated profile parses back unchanged exactly when nothing in it carries
      white space at its ends. */
  lemma RoundTripExactly(lib: Library, p: Profile)
    requires Consistent(lib, p) && MissingField(p) == None
    ensures SameProfile(p, ParseTokens(lib.rd, Document(lib, p))) <==> TrimmedFields(p)
  {
    ParseUndoesGenerate(lib, p);
    hide TrimSpace, ParseTokens, Document, DefaultString;
    if p.calDAVPath == "" { TrimEmpty(p.calDAVPath); }
    if p.cardDAVPath == "" { TrimEmpty(p.cardDAVPath); }
  }

  lemma TrimEmpty(s: string)
    requires s == ""
    ensures TrimSpace(s) == s
  {
  }
}
