/** What the mechanisms that look names up decide, said without their loops. */
module SpfLeaves {
  import opened SpfText
  import opened SpfPolicy

  function AddressesOfHost(w: World, host: string): Answer<Address> {
    w.ips(w.sender.V6?, NormalizeDomain(host))
  }

  predicate HostFails(w: World, host: string) {
    AddressesOfHost(w, host).Failed?
  }

  /** A mail host with an address in the sender's prefix. */
  predicate HostHits(w: World, host: string, cidr4: Cidr4, cidr6: Cidr6) {
    AnyInPrefix(AddressesOf(AddressesOfHost(w, host)), w.sender, cidr4, cidr6)
  }

  /** The first host that hits or fails is the k-th. */
  predicate FirstAt(w: World, hosts: seq<string>, k: int, cidr4: Cidr4, cidr6: Cidr6) {
    && 0 <= k < |hosts| && (HostFails(w, hosts[k]) || HostHits(w, hosts[k], cidr4, cidr6))
    && forall j :: 0 <= j < k ==> !HostFails(w, hosts[j]) && !HostHits(w, hosts[j], cidr4, cidr6)
  }

  /** mx matches exactly when some mail host has an address in the prefix and no
      earlier one is unreachable; it is an error exactly when an unreachable host
      comes before any that matches. */
  lemma {:induction false} MailHostsDecide(w: World, hosts: seq<string>, cidr4: Cidr4, cidr6: Cidr6)
    ensures var c := RunMailHosts(w, hosts, cidr4, cidr6).check;
            && (c == Match <==> exists k :: FirstAt(w, hosts, k, cidr4, cidr6) && HostHits(w, hosts[k], cidr4, cidr6))
            && (c == Broken(Unreachable) <==> exists k :: FirstAt(w, hosts, k, cidr4, cidr6) && HostFails(w, hosts[k]))
            && (c == NoMatch <==> forall j :: 0 <= j < |hosts| ==> !HostFails(w, hosts[j]) && !HostHits(w, hosts[j], cidr4, cidr6))
    decreases |hosts|
  {
    hide InPrefix, NormalizeDomain;
    if hosts != [] {
      var rest := hosts[1..];
      assert forall j :: 0 <= j < |rest| ==> rest[j] == hosts[j + 1];
      if HostFails(w, hosts[0]) || HostHits(w, hosts[0], cidr4, cidr6) {
        assert FirstAt(w, hosts, 0, cidr4, cidr6);
        assert forall k :: FirstAt(w, hosts, k, cidr4, cidr6) ==> k == 0;
      } else {
        MailHostsDecide(w, rest, cidr4, cidr6);
        forall k ensures FirstAt(w, hosts, k + 1, cidr4, cidr6) <==> FirstAt(w, rest, k, cidr4, cidr6) {
          FirstShifts(w, hosts, k, cidr4, cidr6);
        }
        if k :| FirstAt(w, hosts, k, cidr4, cidr6) { assert FirstAt(w, rest, k - 1, cidr4, cidr6); }
      }
    }
  }

  lemma FirstShifts(w: World, hosts: seq<string>, k: int, cidr4: Cidr4, cidr6: Cidr6)
    requires hosts != [] && !HostFails(w, hosts[0]) && !HostHits(w, hosts[0], cidr4, cidr6)
    ensures FirstAt(w, hosts, k + 1, cidr4, cidr6) <==> FirstAt(w, hosts[1..], k, cidr4, cidr6)
  {
  }

  /** A reverse name under the target that leads back to the sender. */
  predicate Confirms(w: World, name: string, target: string) {
    var n := NormalizeDomain(name);
    NameUnder(n, target) && w.sender in AddressesOf(w.ips(w.sender.V6?, n))
  }

  /** ptr matches exactly when one of the first ten reverse names confirms, and is
      never an error. */
  lemma {:induction false} NamesDecide(w: World, names: seq<string>, target: string)
    ensures var c := RunNames(w, names, target).check;
            c == (if exists k :: 0 <= k < |names| && Confirms(w, names[k], target) then Match else NoMatch)
    decreases |names|
  {
    hide NormalizeDomain, NameUnder;
    if names != [] {
      var rest := names[1..];
      assert forall j :: 0 <= j < |rest| ==> rest[j] == names[j + 1];
      NamesDecide(w, rest, target);
      if k :| 0 <= k < |rest| && Confirms(w, rest[k], target) { assert Confirms(w, names[k + 1], target); }
      if k :| 0 < k < |names| && Confirms(w, names[k], target) { assert Confirms(w, rest[k - 1], target); }
    }
  }

  lemma PtrDecides(w: World, target: string)
    ensures var c := RunPtr(w, target).check;
            c == if w.names(w.sender).Found? &&
                    (exists k :: 0 <= k < |FirstNames(w.names(w.sender).records)| &&
                                 Confirms(w, FirstNames(w.names(w.sender).records)[k], target))
                 then Match else NoMatch
  {
    if w.names(w.sender).Found? { NamesDecide(w, FirstNames(w.names(w.sender).records), target); }
  }
}
