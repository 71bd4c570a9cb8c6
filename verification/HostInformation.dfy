/** The host information, value by value. */
module HostInformation {
  import opened Basics
  import opened NetworkModel

  /** The k-th link is the last of that name. */
  predicate LastNamed(links: seq<Link>, name: Text, k: nat) {
    k < |links| && links[k].name == name && forall l :: k < l < |links| ==> links[l].name != name
  }

  /** The MAC of the last link of that name; None also where it has none. */
  predicate MacOf(links: seq<Link>, name: Text, mac: Text) {
    exists k :: 0 <= k < |links| && LastNamed(links, name, k) && links[k].mac == mac
  }

  lemma {:induction false} MacByLinkValue(links: seq<Link>, name: Text, mac: Text)
    ensures MacOf(links, name, mac) <==> name in MacByLink(links) && MacByLink(links)[name] == mac
  {
    if links != [] {
      var n := |links| - 1;
      MacByLinkValue(links[..n], name, mac);
      if links[n].name == name {
        assert LastNamed(links, name, n);
        assert forall k :: 0 <= k < n ==> !LastNamed(links, name, k);
      } else {
        LastNamedBefore(links, name);
      }
    }
  }

  lemma {:induction false} LastNamedBefore(links: seq<Link>, name: Text)
    requires links != [] && links[|links| - 1].name != name
    ensures forall k :: 0 <= k < |links| ==>
      (LastNamed(links, name, k) <==> k < |links| - 1 && LastNamed(links[..|links| - 1], name, k))
  {
  }

  /** The network is on a link whose MAC is not all zero, and its address is the text. */
  predicate Has(lib: Library, macs: map<Text, Text>, n: Network, v6: bool, text: string) {
    && OnLink(macs, n)
    && lib.parse(n.cidr).Some? && lib.parse(n.cidr).value.isV6 == v6 && lib.parse(n.cidr).value.text == text
  }

  predicate OnLink(macs: map<Text, Text>, n: Network) {
    n.link in macs && macs[n.link] != Some("00:00:00:00:00:00")
  }

  /** An address and what is known of it: the netmask only in version 4. */
  predicate Describes(e: Entry, a: Address) {
    && e.address == a.text && e.broadcast == a.broadcast
    && (a.isV6 ==> e.netmask.None?) && (!a.isV6 ==> e.netmask == Some(a.netmask))
  }

  function ByFamily(h: HostInfo, v6: bool): map<string, Located> {
    if v6 then h.byV6 else h.byV4
  }

  /** What the i-th network says of the text: its MAC, its netmask and its broadcast. */
  predicate Says(lib: Library, macs: map<Text, Text>, n: Network, l: Located)
    requires n.link in macs && lib.parse(n.cidr).Some?
  {
    l.mac == macs[n.link] && Describes(l.entry, lib.parse(n.cidr).value)
  }

  /** The i-th network is the last for the address. */
  predicate LastHas(lib: Library, macs: map<Text, Text>, networks: seq<Network>, v6: bool, text: string, i: nat)
    requires i < |networks|
  {
    Has(lib, macs, networks[i], v6, text) && forall j :: i < j < |networks| ==> !Has(lib, macs, networks[j], v6, text)
  }

  lemma {:induction false} LastHasRest(
    lib: Library, macs: map<Text, Text>, networks: seq<Network>, v6: bool, text: string, i: nat)
    requires 0 < i < |networks|
    ensures LastHas(lib, macs, networks, v6, text, i) <==> LastHas(lib, macs, networks[1..], v6, text, i - 1)
  {
    var rest := networks[1..];
    if LastHas(lib, macs, networks, v6, text, i) {
      assert forall j :: i - 1 < j < |rest| ==> rest[j] == networks[j + 1];
    }
    if LastHas(lib, macs, rest, v6, text, i - 1) {
      assert forall j :: i < j < |networks| ==> networks[j] == rest[j - 1];
    }
  }

  lemma {:induction false} HasRest(lib: Library, macs: map<Text, Text>, networks: seq<Network>, v6: bool, text: string)
    requires networks != []
    ensures
      var rest := networks[1..];
      && ((forall i :: 0 <= i < |networks| ==> !Has(lib, macs, networks[i], v6, text)) <==>
            !Has(lib, macs, networks[0], v6, text) && forall i :: 0 <= i < |rest| ==> !Has(lib, macs, rest[i], v6, text))
      && (LastHas(lib, macs, networks, v6, text, 0) <==>
            Has(lib, macs, networks[0], v6, text) && forall i :: 0 <= i < |rest| ==> !Has(lib, macs, rest[i], v6, text))
      && (forall i :: 0 < i < |networks| ==>
            networks[i] == rest[i - 1]
            && (LastHas(lib, macs, networks, v6, text, i) <==> LastHas(lib, macs, rest, v6, text, i - 1)))
  {
    var rest := networks[1..];
    assert forall i :: 0 < i < |networks| ==> networks[i] == rest[i - 1];
    assert forall i :: 0 <= i < |rest| ==> rest[i] == networks[i + 1];
    forall i | 0 < i < |networks|
      ensures LastHas(lib, macs, networks, v6, text, i) <==> LastHas(lib, macs, rest, v6, text, i - 1)
    {
      LastHasRest(lib, macs, networks, v6, text, i);
    }
  }

  lemma {:induction false} OneByAddress(
    lib: Library, h: HostInfo, macs: map<Text, Text>, n: Network, v6: bool, text: string)
    requires AddNetwork(lib, h, macs, n).Ok?
    ensures
      var r := ByFamily(AddNetwork(lib, h, macs, n).value, v6);
      if Has(lib, macs, n, v6, text) then text in r && Says(lib, macs, n, r[text])
      else (text in r <==> text in ByFamily(h, v6)) && (text in r ==> r[text] == ByFamily(h, v6)[text])
  {
  }

  /** Every address has what the last network with it says. */
  lemma {:induction false} ByAddress(
    lib: Library, h: HostInfo, macs: map<Text, Text>, networks: seq<Network>, v6: bool, text: string)
    requires AddNetworks(lib, h, macs, networks).Ok?
    ensures
      var r := ByFamily(AddNetworks(lib, h, macs, networks).value, v6);
      && (forall i :: 0 <= i < |networks| && LastHas(lib, macs, networks, v6, text, i) ==>
            text in r && Says(lib, macs, networks[i], r[text]))
      && ((forall i :: 0 <= i < |networks| ==> !Has(lib, macs, networks[i], v6, text)) ==>
            (text in r <==> text in ByFamily(h, v6)) && (text in r ==> r[text] == ByFamily(h, v6)[text]))
    decreases |networks|
  {
    if networks != [] {
      var h' := AddNetwork(lib, h, macs, networks[0]).value;
      OneByAddress(lib, h, macs, networks[0], v6, text);
      ByAddress(lib, h', macs, networks[1..], v6, text);
      HasRest(lib, macs, networks, v6, text);
    }
  }

  /* ---------- By MAC ---------- */

  /** The network is on a link with this MAC, which is a proper one. */
  predicate OnMac(macs: map<Text, Text>, n: Network, mac: string) {
    OnLink(macs, n) && macs[n.link] == Some(mac) && mac != ""
  }

  predicate OnMacIn(lib: Library, macs: map<Text, Text>, n: Network, mac: string, v6: bool) {
    OnMac(macs, n, mac) && lib.parse(n.cidr).Some? && lib.parse(n.cidr).value.isV6 == v6
  }

  predicate LastOnMac(lib: Library, macs: map<Text, Text>, networks: seq<Network>, mac: string, v6: bool, i: nat)
    requires i < |networks|
  {
    && OnMacIn(lib, macs, networks[i], mac, v6)
    && forall j :: i < j < |networks| ==> !OnMacIn(lib, macs, networks[j], mac, v6)
  }

  lemma {:induction false} LastOnMacRest(
    lib: Library, macs: map<Text, Text>, networks: seq<Network>, mac: string, v6: bool, i: nat)
    requires 0 < i < |networks|
    ensures LastOnMac(lib, macs, networks, mac, v6, i) <==> LastOnMac(lib, macs, networks[1..], mac, v6, i - 1)
  {
    var rest := networks[1..];
    if LastOnMac(lib, macs, networks, mac, v6, i) {
      assert forall j :: i - 1 < j < |rest| ==> rest[j] == networks[j + 1];
    }
    if LastOnMac(lib, macs, rest, mac, v6, i - 1) {
      assert forall j :: i < j < |networks| ==> networks[j] == rest[j - 1];
    }
  }

  /** What a MAC has for a family. */
  function Half(h: HostInfo, mac: string, v6: bool): Option<Entry> {
    if mac !in h.byMac then None else if v6 then h.byMac[mac].v6 else h.byMac[mac].v4
  }

  lemma {:induction false} OneOnMac(
    lib: Library, h: HostInfo, macs: map<Text, Text>, n: Network, mac: string, v6: bool)
    requires AddNetwork(lib, h, macs, n).Ok?
    ensures
      var r := AddNetwork(lib, h, macs, n).value;
      && (mac in r.byMac <==> mac in h.byMac || OnMac(macs, n, mac))
      && (if OnMacIn(lib, macs, n, mac, v6)
          then Half(r, mac, v6).Some? && Describes(Half(r, mac, v6).value, lib.parse(n.cidr).value)
          else Half(r, mac, v6) == Half(h, mac, v6))
  {
  }

  /** A MAC is there exactly when a network is on a link with it, and has for each family what the
      last such network says. */
  lemma {:induction false} ByMac(
    lib: Library, h: HostInfo, macs: map<Text, Text>, networks: seq<Network>, mac: string, v6: bool)
    requires AddNetworks(lib, h, macs, networks).Ok?
    ensures
      var r := AddNetworks(lib, h, macs, networks).value;
      && (mac in r.byMac <==> mac in h.byMac || exists i :: 0 <= i < |networks| && OnMac(macs, networks[i], mac))
      && (forall i :: 0 <= i < |networks| && LastOnMac(lib, macs, networks, mac, v6, i) ==>
            Half(r, mac, v6).Some? && Describes(Half(r, mac, v6).value, lib.parse(networks[i].cidr).value))
      && ((forall i :: 0 <= i < |networks| ==> !OnMacIn(lib, macs, networks[i], mac, v6)) ==>
            Half(r, mac, v6) == Half(h, mac, v6))
    decreases |networks|
  {
    if networks != [] {
      var h', rest := AddNetwork(lib, h, macs, networks[0]).value, networks[1..];
      OneOnMac(lib, h, macs, networks[0], mac, v6);
      ByMac(lib, h', macs, rest, mac, v6);
      ByMacRest(lib, macs, networks, mac, v6);
    }
  }

  lemma {:induction false} ByMacRest(
    lib: Library, macs: map<Text, Text>, networks: seq<Network>, mac: string, v6: bool)
    requires networks != []
    ensures
      var rest := networks[1..];
      && ((exists i :: 0 <= i < |networks| && OnMac(macs, networks[i], mac)) <==>
            OnMac(macs, networks[0], mac) || exists i :: 0 <= i < |rest| && OnMac(macs, rest[i], mac))
      && ((forall i :: 0 <= i < |networks| ==> !OnMacIn(lib, macs, networks[i], mac, v6)) <==>
            !OnMacIn(lib, macs, networks[0], mac, v6) && forall i :: 0 <= i < |rest| ==> !OnMacIn(lib, macs, rest[i], mac, v6))
      && (LastOnMac(lib, macs, networks, mac, v6, 0) <==>
            OnMacIn(lib, macs, networks[0], mac, v6) && forall i :: 0 <= i < |rest| ==> !OnMacIn(lib, macs, rest[i], mac, v6))
      && (forall i :: 0 < i < |networks| ==>
            networks[i] == rest[i - 1]
            && (LastOnMac(lib, macs, networks, mac, v6, i) <==> LastOnMac(lib, macs, rest, mac, v6, i - 1)))
  {
    var rest := networks[1..];
    assert forall i :: 0 < i < |networks| ==> networks[i] == rest[i - 1];
    assert forall i :: 0 <= i < |rest| ==> rest[i] == networks[i + 1];
    forall i | 0 < i < |networks|
      ensures LastOnMac(lib, macs, networks, mac, v6, i) <==> LastOnMac(lib, macs, rest, mac, v6, i - 1)
    {
      LastOnMacRest(lib, macs, networks, mac, v6, i);
    }
  }

  /* ---------- The whole of it ---------- */

  /** By address: the MAC, the netmask and the broadcast of the last network with it; and no other
      addresses. */
  ghost predicate ExactByAddress(lib: Library, macs: map<Text, Text>, networks: seq<Network>, h: HostInfo) {
    && (forall v6, text, i :: 0 <= i < |networks| && LastHas(lib, macs, networks, v6, text, i) ==>
          text in ByFamily(h, v6) && Says(lib, macs, networks[i], ByFamily(h, v6)[text]))
    && (forall v6, text :: text in ByFamily(h, v6) ==> AnyHas(lib, macs, networks, v6, text))
  }

  /** By MAC: the address of either family of the last network on it; and no other MACs or addresses. */
  ghost predicate ExactByMac(lib: Library, macs: map<Text, Text>, networks: seq<Network>, h: HostInfo) {
    && (forall mac :: mac in h.byMac <==> AnyOnMac(macs, networks, mac))
    && (forall mac, v6, i :: 0 <= i < |networks| && LastOnMac(lib, macs, networks, mac, v6, i) ==>
          Half(h, mac, v6).Some? && Describes(Half(h, mac, v6).value, lib.parse(networks[i].cidr).value))
    && (forall mac, v6 :: Half(h, mac, v6).Some? ==> AnyOnMacIn(lib, macs, networks, mac, v6))
  }

  predicate AnyHas(lib: Library, macs: map<Text, Text>, networks: seq<Network>, v6: bool, text: string) {
    exists i :: 0 <= i < |networks| && Has(lib, macs, networks[i], v6, text)
  }

  predicate AnyOnMac(macs: map<Text, Text>, networks: seq<Network>, mac: string) {
    exists i :: 0 <= i < |networks| && OnMac(macs, networks[i], mac)
  }

  predicate AnyOnMacIn(lib: Library, macs: map<Text, Text>, networks: seq<Network>, mac: string, v6: bool) {
    exists i :: 0 <= i < |networks| && OnMacIn(lib, macs, networks[i], mac, v6)
  }

  lemma {:induction false} AddressesAreExact(lib: Library, macs: map<Text, Text>, networks: seq<Network>)
    requires AddNetworks(lib, NO_HOST, macs, networks).Ok?
    ensures ExactByAddress(lib, macs, networks, AddNetworks(lib, NO_HOST, macs, networks).value)
  {
    var h := AddNetworks(lib, NO_HOST, macs, networks).value;
    forall v6, text
      ensures forall i :: 0 <= i < |networks| && LastHas(lib, macs, networks, v6, text, i) ==>
        text in ByFamily(h, v6) && Says(lib, macs, networks[i], ByFamily(h, v6)[text])
      ensures text in ByFamily(h, v6) ==> AnyHas(lib, macs, networks, v6, text)
    {
      ByAddress(lib, NO_HOST, macs, networks, v6, text);
    }
  }

  lemma {:induction false} MacsAreExact(lib: Library, macs: map<Text, Text>, networks: seq<Network>)
    requires AddNetworks(lib, NO_HOST, macs, networks).Ok?
    ensures ExactByMac(lib, macs, networks, AddNetworks(lib, NO_HOST, macs, networks).value)
  {
    var h := AddNetworks(lib, NO_HOST, macs, networks).value;
    forall mac
      ensures mac in h.byMac <==> AnyOnMac(macs, networks, mac)
    {
      ByMac(lib, NO_HOST, macs, networks, mac, false);
    }
    forall mac, v6
      ensures forall i :: 0 <= i < |networks| && LastOnMac(lib, macs, networks, mac, v6, i) ==>
        Half(h, mac, v6).Some? && Describes(Half(h, mac, v6).value, lib.parse(networks[i].cidr).value)
      ensures Half(h, mac, v6).Some? ==> AnyOnMacIn(lib, macs, networks, mac, v6)
    {
      ByMac(lib, NO_HOST, macs, networks, mac, v6);
    }
  }

  /* ---------- The default addresses ---------- */

  /** The network has a default route of its address's family, and the address is usable. */
  predicate UsableDefault(lib: Library, n: Network, v6: bool) {
    && lib.parse(n.cidr).Some? && lib.parse(n.cidr).value.isV6 == v6 && lib.parse(n.cidr).value.usable
    && exists k :: 0 <= k < |n.routes| && n.routes[k].cidr == Some(if v6 then "::/0" else "0.0.0.0/0")
  }

  /** The default address of a family is that of the first such network, if there is one. */
  lemma {:induction false} FirstDefaultIs(lib: Library, networks: seq<Network>, v6: bool) returns (i: nat)
    requires forall n :: n in networks ==> lib.parse(n.cidr).Some?
    ensures i <= |networks| && forall j :: 0 <= j < i ==> !UsableDefault(lib, networks[j], v6)
    ensures
      if i < |networks|
      then UsableDefault(lib, networks[i], v6)
        && FirstDefault(lib, networks, v6) == Some(lib.parse(networks[i].cidr).value.text)
      else FirstDefault(lib, networks, v6) == None
  {
    if networks == [] {
      i := 0;
    } else {
      var route := Some(if v6 then "::/0" else "0.0.0.0/0");
      assert (exists r :: r in networks[0].routes && r.cidr == route)
        <==> exists k :: 0 <= k < |networks[0].routes| && networks[0].routes[k].cidr == route;
      if UsableDefault(lib, networks[0], v6) {
        i := 0;
      } else {
        var rest := FirstDefaultIs(lib, networks[1..], v6);
        i := rest + 1;
        assert forall j :: 0 < j < |networks| ==> networks[j] == networks[1..][j - 1];
      }
    }
  }
}
