/** The text layer of internal/parser/spf.go: splitting a record into terms,
    telling modifiers from mechanisms, and reading the argument of a mechanism.
    Text is ASCII here: case folding and white space are those of ASCII. */
module SpfText {
  import opened Wrappers
  import opened Strings

  /** net.IP after To4(): an IPv4-mapped IPv6 address is V4. */
  datatype Address = V4(bits32: Bits32) | V6(bits128: Bits128)

  type Bits32 = n: nat | n < 0x1_0000_0000
  type Bits128 = n: nat | n < 0x1_0000_0000_0000_0000_0000_0000_0000_0000

  /** A term of a record: never empty. */
  type Word = s: string | s != "" witness "a"

  type Cidr4 = c: int | 0 <= c <= 32
  type Cidr6 = c: int | 0 <= c <= 128

  /** The library calls that read numbers and addresses. */
  datatype Readers = Readers(atoi: string -> Option<int>, parseIP: string -> Option<Address>)

  /** One mechanism after its name and argument have been read. `Macro` is a
      counted mechanism whose target holds a macro; `Malformed` is an error,
      reported before or after the term is counted. */
  datatype Mechanism =
    | All
    | IpNet(v6: bool, spec: string)
    | Include(target: string)
    | HostA(target: string, cidr4: Cidr4, cidr6: Cidr6)
    | HostMX(target: string, cidr4: Cidr4, cidr6: Cidr6)
    | Ptr(target: string)
    | Exists(target: string)
    | Macro
    | Malformed(counted: bool)

  predicate Contains(s: string, c: char) {
    c in s
  }

  function NormalizeDomain(d: string): string {
    var t := ToLower(TrimSpace(d));
    if HasSuffix(t, ".") then t[..|t| - 1] else t
  }

  /** strings.Fields: the maximal runs of non-space characters. */
  function Fields(s: string): (fs: seq<Word>)
    ensures s != "" && !IsSpace(s[0]) ==> fs != []
    decreases |s|
  {
    if s == "" then []
    else if IsSpace(s[0]) then Fields(s[1..])
    else
      var n := WordEnd(s);
      [s[..n]] + Fields(s[n..])
  }

  function WordEnd(s: string): (n: nat)
    requires s != "" && !IsSpace(s[0])
    ensures 0 < n <= |s|
    ensures forall k :: 0 <= k < n ==> !IsSpace(s[k])
    ensures n < |s| ==> IsSpace(s[n])
  {
    if |s| == 1 || IsSpace(s[1]) then 1 else 1 + WordEnd(s[1..])
  }

  /** splitModifier: name and value of a term of the form name=value whose
      '=' is not inside a mechanism argument. */
  function SplitModifier(term: string): Option<(string, string)> {
    var eq := FirstOf(term, {'='});
    if eq == |term| || eq == 0 then None
    else if FirstOf(term, {':', '/'}) < eq then None
    else Some((term[..eq], term[eq + 1..]))
  }

  predicate IsModifier(term: string) {
    SplitModifier(term).Some?
  }

  predicate IsRedirect(term: string) {
    IsModifier(term) && ToLower(SplitModifier(term).value.0) == "redirect"
  }

  /** parseDomainCIDR: [":" domain] ["/" cidr4] ["//" cidr6]. */
  function ParseDomainCidr(rd: Readers, arg: string, defaultDomain: string): Option<(string, Cidr4, Cidr6)> {
    if HasPrefix(arg, ":") then
      var rest := arg[1..];
      var i := FirstOf(rest, {'/'});
      var target := NormalizeDomain(rest[..i]);
      if target == "" then None else ParseCidrs(rd, rest[i..], target)
    else
      ParseCidrs(rd, arg, defaultDomain)
  }

  function ParseCidrs(rd: Readers, arg: string, target: string): Option<(string, Cidr4, Cidr6)> {
    if arg == "" then Some((target, 32, 128))
    else
      var i := DoubleSlash(arg);
      var v4part := arg[..i];
      var v6part := if i < |arg| then arg[i + 2..] else "";
      var c4 := if v4part == "" then Some(32)
                else if !HasPrefix(v4part, "/") then None
                else InRange(rd.atoi(v4part[1..]), 32);
      var c6 := if v6part == "" then Some(128) else InRange(rd.atoi(v6part), 128);
      if c4.None? || c6.None? then None else Some((target, c4.value, c6.value))
  }

  function InRange(n: Option<int>, max: int): (r: Option<int>)
    ensures r.Some? ==> 0 <= r.value <= max
  {
    if n.Some? && 0 <= n.value <= max then n else None
  }

  /** Index of the first "//" in s, or |s|. */
  function DoubleSlash(s: string): (i: nat)
    ensures i <= |s|
    ensures i < |s| ==> i + 2 <= |s| && s[i] == '/' && s[i + 1] == '/'
  {
    if |s| < 2 then |s|
    else if s[0] == '/' && s[1] == '/' then 0
    else 1 + DoubleSlash(s[1..])
  }

  /** The reading half of checkMechanism: which mechanism this is, or why it is
      none. Nothing is looked up or counted here. */
  function ReadMechanism(rd: Readers, mechanism: string, domain: string): Mechanism {
    var i := FirstOf(mechanism, {':', '/'});
    ReadNamed(rd, ToLower(mechanism[..i]), mechanism[i..], domain)
  }

  function ReadNamed(rd: Readers, name: string, arg: string, domain: string): Mechanism {
    var hasDomain := HasPrefix(arg, ":") && |arg| >= 2;
    match name
    case "all" => if arg == "" then All else Malformed(false)
    case "ip4" => if HasPrefix(arg, ":") then IpNet(false, arg[1..]) else Malformed(false)
    case "ip6" => if HasPrefix(arg, ":") then IpNet(true, arg[1..]) else Malformed(false)
    case "include" =>
      if !hasDomain then Malformed(true)
      else
        var target := NormalizeDomain(arg[1..]);
        if Contains(target, '%') then Macro else Include(target)
    case "a" => ReadHost(rd, arg, domain, false)
    case "mx" => ReadHost(rd, arg, domain, true)
    case "ptr" =>
      var target := if HasPrefix(arg, ":") then NormalizeDomain(arg[1..]) else domain;
      if Contains(target, '%') then Macro else Ptr(target)
    case "exists" =>
      if !hasDomain then Malformed(true)
      else
        var target := NormalizeDomain(arg[1..]);
        if Contains(target, '%') then Macro else Exists(target)
    case _ => Malformed(false)
  }

  function ReadHost(rd: Readers, arg: string, domain: string, mx: bool): Mechanism {
    match ParseDomainCidr(rd, arg, domain)
    case None => Malformed(true)
    case Some((target, c4, c6)) =>
      if Contains(target, '%') then Macro
      else if mx then HostMX(target, c4, c6) else HostA(target, c4, c6)
  }
}
