/**
 What an accepted document or list of NICs contains, item by item: its links, networks and name
 server services, in order, with every field; and exactly when there is an error.
 */
module NetworkContents {
  import opened Basics
  import opened NetworkModel

  /* ---------- Details put together ---------- */

  function Links(parts: seq<Details>): seq<Link> {
    if parts == [] then [] else parts[0].links + Links(parts[1..])
  }

  function Networks(parts: seq<Details>): seq<Network> {
    if parts == [] then [] else parts[0].networks + Networks(parts[1..])
  }

  function ServicesIn(parts: seq<Details>): seq<Service> {
    if parts == [] then [] else parts[0].services + ServicesIn(parts[1..])
  }

  /** The details are the parts one after the other. */
  predicate Consists(d: Details, parts: seq<Details>) {
    d.links == Links(parts) && d.networks == Networks(parts) && d.services == ServicesIn(parts)
  }

  lemma {:induction false} ConsistsCons(first: Details, rest: Details, parts: seq<Details>)
    requires Consists(rest, parts)
    ensures Consists(Join(first, rest), [first] + parts)
  {
    assert ([first] + parts)[1..] == parts;
  }

  lemma {:induction false} ConsistsAppend(a: Details, aParts: seq<Details>, b: Details, bParts: seq<Details>)
    requires Consists(a, aParts) && Consists(b, bParts)
    ensures Consists(Join(a, b), aParts + bParts)
    decreases |aParts|
  {
    if aParts == [] {
      assert aParts + bParts == bParts;
      assert [] + b.links == b.links && [] + b.networks == b.networks && [] + b.services == b.services;
    } else {
      var first, rest := aParts[0], Details(Links(aParts[1..]), Networks(aParts[1..]), ServicesIn(aParts[1..]));
      ConsistsAppend(rest, aParts[1..], b, bParts);
      assert (aParts + bParts)[0] == first && (aParts + bParts)[1..] == aParts[1..] + bParts;
      Associates(first.links, rest.links, b.links);
      Associates(first.networks, rest.networks, b.networks);
      Associates(first.services, rest.services, b.services);
    }
  }

  predicate Empty(d: Details) {
    d.links == [] && d.networks == [] && d.services == []
  }

  /* ---------- Addresses and routes ---------- */

  /** With a netmask the address becomes a CIDR text, without one it stays as it is. */
  predicate CidrIs(lib: Library, ip: Text, netmask: Text, cidr: Text) {
    if netmask.None? || netmask.value == "" then cidr == ip
    else cidr.Some? && lib.join(ip, netmask.value) == cidr
  }

  predicate BadCidr(lib: Library, ip: Text, netmask: Text) {
    netmask.Some? && netmask.value != "" && lib.join(ip, netmask.value).None?
  }

  predicate Present(t: Text) {
    t.Some? && t.value != ""
  }

  predicate DnsIs(dns: Dns, addresses: Option<seq<string>>) {
    (addresses.None? ==> dns == NoDns) && (addresses.Some? ==> dns == Addresses(addresses.value))
  }

  /** The default route to a gateway: that of the gateway's family. */
  predicate DefaultTo(lib: Library, r: Route, gateway: string) {
    r.gateway == Some(gateway) && r.cidr == Some(if lib.isV6(gateway) then "::/0" else "0.0.0.0/0")
  }

  /* ---------- Version 1 documents ---------- */

  predicate Static(s: Subnet) {
    s.Subnet? && s.kind != Some("dhcp") && s.kind != Some("dhcp6")
  }

  function StaticOnes(subnets: seq<Subnet>): seq<Subnet> {
    if subnets == [] then []
    else if Static(subnets[0]) then [subnets[0]] + StaticOnes(subnets[1..])
    else StaticOnes(subnets[1..])
  }

  /** The network of a static subnet: on the link, with its address and name servers, its routes, and
      last a default route if there is a gateway. */
  predicate NetworkOf(lib: Library, n: Network, link: Text, s: Subnet)
    requires Static(s)
  {
    && n.link == link && CidrIs(lib, s.address, s.netmask, n.cidr)
    && DnsIs(n.dns, s.dns)
    && s.routes.Some? && |n.routes| == |s.routes.value| + (if Present(s.gateway) then 1 else 0)
    && (forall k :: 0 <= k < |s.routes.value| ==> RouteOf(lib, n.routes[k], s.routes.value[k]))
    && (Present(s.gateway) ==> DefaultTo(lib, n.routes[|n.routes| - 1], s.gateway.value))
  }

  predicate RouteOf(lib: Library, r: Route, data: RouteData) {
    CidrIs(lib, data.network, data.netmask, r.cidr) && r.gateway == data.gateway
  }

  predicate BadSubnet(lib: Library, s: Subnet)
    requires Static(s)
  {
    || s.routes.None? || BadCidr(lib, s.address, s.netmask)
    || exists k :: 0 <= k < |s.routes.value| && BadRoute(lib, s.routes.value[k])
  }

  predicate BadRoute(lib: Library, data: RouteData) {
    BadCidr(lib, data.network, data.netmask)
  }

  predicate NetworksOf(lib: Library, networks: seq<Network>, link: Text, subnets: seq<Subnet>) {
    |networks| == |StaticOnes(subnets)|
    && forall k :: 0 <= k < |networks| ==>
         Static(StaticOnes(subnets)[k]) && NetworkOf(lib, networks[k], link, StaticOnes(subnets)[k])
  }

  predicate SomeBadSubnet(lib: Library, subnets: seq<Subnet>) {
    exists k :: 0 <= k < |subnets| && Static(subnets[k]) && BadSubnet(lib, subnets[k])
  }

  lemma {:induction false} RoutesContents(lib: Library, routes: seq<RouteData>)
    ensures RoutesOf(lib, routes).Raised? <==> exists k :: 0 <= k < |routes| && BadRoute(lib, routes[k])
    ensures RoutesOf(lib, routes).Ok? ==>
      && |RoutesOf(lib, routes).value| == |routes|
      && forall k :: 0 <= k < |routes| ==> RouteOf(lib, RoutesOf(lib, routes).value[k], routes[k])
  {
    if routes != [] {
      RoutesContents(lib, routes[1..]);
      assert forall k :: 0 < k < |routes| ==> routes[k] == routes[1..][k - 1];
    }
  }

  lemma {:induction false} SubnetContents(lib: Library, s: Subnet, link: Text)
    requires Static(s)
    ensures SubnetNetworks(lib, s, link).Raised? <==> BadSubnet(lib, s)
    ensures SubnetNetworks(lib, s, link).Ok? ==>
      |SubnetNetworks(lib, s, link).value| == 1 && NetworkOf(lib, SubnetNetworks(lib, s, link).value[0], link, s)
  {
    if s.routes.Some? {
      RoutesContents(lib, s.routes.value);
    }
  }

  lemma {:induction false} SubnetsContents(lib: Library, subnets: seq<Subnet>, link: Text)
    ensures ParseSubnets(lib, subnets, link).Raised? <==> SomeBadSubnet(lib, subnets)
    ensures ParseSubnets(lib, subnets, link).Ok? ==> NetworksOf(lib, ParseSubnets(lib, subnets, link).value, link, subnets)
  {
    if subnets != [] {
      SubnetsContents(lib, subnets[1..], link);
      BadSubnetRest(lib, subnets);
      if Static(subnets[0]) {
        SubnetContents(lib, subnets[0], link);
        if ParseSubnets(lib, subnets, link).Ok? {
          NetworksCons(lib, SubnetNetworks(lib, subnets[0], link).value[0], ParseSubnets(lib, subnets[1..], link).value,
                       link, subnets);
        }
      } else if ParseSubnets(lib, subnets, link).Ok? {
        assert [] + ParseSubnets(lib, subnets[1..], link).value == ParseSubnets(lib, subnets[1..], link).value;
      }
    }
  }

  lemma {:induction false} NetworksCons(lib: Library, n: Network, rest: seq<Network>, link: Text, subnets: seq<Subnet>)
    requires subnets != [] && Static(subnets[0]) && NetworkOf(lib, n, link, subnets[0])
    requires NetworksOf(lib, rest, link, subnets[1..])
    ensures NetworksOf(lib, [n] + rest, link, subnets)
  {
    var all, tail := StaticOnes(subnets), StaticOnes(subnets[1..]);
    forall k | 0 <= k < |all|
      ensures Static(all[k]) && NetworkOf(lib, ([n] + rest)[k], link, all[k])
    {
      if k > 0 {
        assert all[k] == tail[k - 1] && ([n] + rest)[k] == rest[k - 1];
      }
    }
  }

  lemma {:induction false} BadSubnetRest(lib: Library, subnets: seq<Subnet>)
    requires subnets != []
    ensures SomeBadSubnet(lib, subnets) <==>
      (Static(subnets[0]) && BadSubnet(lib, subnets[0])) || SomeBadSubnet(lib, subnets[1..])
  {
    assert forall k :: 0 < k < |subnets| ==> subnets[k] == subnets[1..][k - 1];
  }

  /** A named physical, vlan or bond item; a bond only with its parameters. */
  predicate IsLink(item: ItemV1) {
    && item.ItemV1? && item.kind in {Some("physical"), Some("vlan"), Some("bond")}
    && Present(item.name) && (item.kind == Some("bond") ==> item.bond.Some?)
  }

  predicate BadBond(p: BondParams) {
    || p.mode !in {Some("802.3ad"), Some("balance-rr"), Some("active-backup"), Some("balance-xor"),
                   Some("broadcast"), Some("balance-tlb"), Some("balance-alb")}
    || (p.mode == Some("802.3ad") && Present(p.lacpRate) && p.lacpRate !in {Some("slow"), Some("fast")})
    || (Present(p.hashPolicy)
        && p.hashPolicy !in {Some("layer2"), Some("layer2+3"), Some("layer3+4"), Some("encap2+3"), Some("encap3+4")})
  }

  lemma {:induction false} BadBondIff(p: BondParams)
    ensures BadBond(p) <==> !BondSupported(p)
  {
  }

  function SubnetsIn(item: ItemV1): seq<Subnet>
    requires item.ItemV1?
  {
    if item.subnets.Some? then item.subnets.value else []
  }

  /** What an item contributes: a link and the networks of its static subnets, or a service, or nothing. */
  predicate Gives(lib: Library, item: ItemV1, d: Details) {
    if IsLink(item) then
      && |d.links| == 1 && d.services == []
      && d.links[0].id == item.name && d.links[0].name == item.name && d.links[0].mac == item.mac
      && item.kind == Some(d.links[0].kind)
      && NetworksOf(lib, d.networks, item.name, SubnetsIn(item))
    else if item.ItemV1? && item.kind == Some("nameserver") then
      && d.links == [] && d.networks == []
      && |d.services| == 1 && d.services[0].addresses == item.addresses && d.services[0].search == item.search
    else Empty(d)
  }

  predicate Bad(lib: Library, item: ItemV1) {
    && IsLink(item)
    && ((item.kind == Some("bond") && BadBond(item.bond.value)) || SomeBadSubnet(lib, SubnetsIn(item)))
  }

  lemma {:induction false} ItemContents(lib: Library, item: ItemV1)
    ensures ParseItemV1(lib, item).Raised? <==> Bad(lib, item)
    ensures ParseItemV1(lib, item).Ok? ==> Gives(lib, item, ParseItemV1(lib, item).value)
  {
    if IsLink(item) {
      SubnetsContents(lib, SubnetsIn(item), item.name);
      if item.kind == Some("bond") {
        BadBondIff(item.bond.value);
      }
    }
  }

  /** A version 1 document: an error exactly when some item is bad, and otherwise what its items
      contribute, in order. */
  lemma {:induction false} V1Contents(lib: Library, items: seq<ItemV1>) returns (parts: seq<Details>)
    ensures ParseV1(lib, items).Raised? <==> exists i :: 0 <= i < |items| && Bad(lib, items[i])
    ensures ParseV1(lib, items).Ok? ==>
      && Consists(ParseV1(lib, items).value, parts) && |parts| == |items|
      && forall i :: 0 <= i < |items| ==> Gives(lib, items[i], parts[i])
  {
    parts := [];
    if items != [] {
      var rest := V1Contents(lib, items[1..]);
      ItemContents(lib, items[0]);
      assert forall i :: 0 < i < |items| ==> items[i] == items[1..][i - 1];
      if ParseV1(lib, items).Ok? {
        var first := ParseItemV1(lib, items[0]).value;
        ConsistsCons(first, ParseV1(lib, items[1..]).value, rest);
        parts := [first] + rest;
      }
    }
  }

  /* ---------- Version 2 documents ---------- */

  /** `default`, in whatever case. */
  predicate SaysDefault(to: string) {
    && |to| == 7
    && (to[0] == 'd' || to[0] == 'D') && (to[1] == 'e' || to[1] == 'E') && (to[2] == 'f' || to[2] == 'F')
    && (to[3] == 'a' || to[3] == 'A') && (to[4] == 'u' || to[4] == 'U') && (to[5] == 'l' || to[5] == 'L')
    && (to[6] == 't' || to[6] == 'T')
  }

  lemma {:induction false} SaysDefaultIff(to: string)
    ensures SaysDefault(to) <==> IsDefault(to)
  {
    if |to| == 7 {
      var lower := seq(7, i requires 0 <= i < 7 => Lower(to[i]));
      assert lower == "default" <==>
        lower[0] == 'd' && lower[1] == 'e' && lower[2] == 'f' && lower[3] == 'a' && lower[4] == 'u'
        && lower[5] == 'l' && lower[6] == 't';
    }
  }

  /** A route as given; `default` means the default network of the gateway's family. */
  predicate RouteV2Of(lib: Library, r: Route, data: (Text, Text)) {
    && r.gateway == data.1 && data.0.Some?
    && if !SaysDefault(data.0.value) then r.cidr == data.0
       else if data.1.Some? then r.cidr == Some(if lib.isV6(data.1.value) then "::/0" else "0.0.0.0/0")
       else lib.noneIsV6.Ok? && r.cidr == Some(if lib.noneIsV6.value then "::/0" else "0.0.0.0/0")
  }

  predicate BadRouteV2(lib: Library, data: (Text, Text)) {
    data.0.None? || (SaysDefault(data.0.value) && data.1.None? && lib.noneIsV6.Raised?)
  }

  predicate HasV6Gateway(lib: Library, item: ItemV2) {
    Present(item.gateway6) && lib.isV6(item.gateway6.value)
  }

  predicate HasV4Gateway(lib: Library, item: ItemV2) {
    Present(item.gateway4) && lib.isV4(item.gateway4.value)
  }

  /** The routes of every network of an item: first the gateway of version 6, or failing that of
      version 4, if it is a valid one; and then its routes. */
  predicate RoutesOfItem(lib: Library, routes: seq<Route>, item: ItemV2) {
    var n := if HasV6Gateway(lib, item) || HasV4Gateway(lib, item) then 1 else 0;
    && item.routes.Some? && |routes| == n + |item.routes.value|
    && (HasV6Gateway(lib, item) ==> routes[0] == Route(Some("::/0"), item.gateway6))
    && (!HasV6Gateway(lib, item) && HasV4Gateway(lib, item) ==> routes[0] == Route(Some("0.0.0.0/0"), item.gateway4))
    && forall k :: 0 <= k < |item.routes.value| ==> RouteV2Of(lib, routes[n + k], item.routes.value[k])
  }

  lemma {:induction false} RoutesV2Contents(lib: Library, routes: seq<(Text, Text)>)
    ensures RoutesV2(lib, routes).Raised? <==> exists k :: 0 <= k < |routes| && BadRouteV2(lib, routes[k])
    ensures RoutesV2(lib, routes).Ok? ==>
      && |RoutesV2(lib, routes).value| == |routes|
      && forall k :: 0 <= k < |routes| ==> RouteV2Of(lib, RoutesV2(lib, routes).value[k], routes[k])
  {
    if routes != [] {
      RoutesV2Contents(lib, routes[1..]);
      if routes[0].0.Some? {
        SaysDefaultIff(routes[0].0.value);
      }
      assert forall k :: 0 < k < |routes| ==> routes[k] == routes[1..][k - 1];
    }
  }

  /** A named entry; a bond only with its parameters. */
  predicate IsLinkV2(item: ItemV2, kind: string) {
    item.name != "" && (kind == "bond" ==> item.bond.Some?)
  }

  /** What an entry contributes: a link under the name it is set to, a network for each address, and
      one service. */
  predicate GivesV2(lib: Library, item: ItemV2, kind: string, d: Details) {
    if !IsLinkV2(item, kind) then Empty(d)
    else
      var name := if kind == "physical" && item.setName.Some? then item.setName.value else Some(item.name);
      && item.addresses.Some? && item.nameservers.Some?
      && |d.links| == 1
      && d.links[0].id == Some(item.name) && d.links[0].name == name && d.links[0].kind == kind
      && d.links[0].mac == item.mac
      && |d.services| == 1
      && d.services[0].addresses == item.nameservers.value.addresses
      && d.services[0].search == item.nameservers.value.search
      && |d.networks| == |item.addresses.value|
      && forall k :: 0 <= k < |d.networks| ==> NetworkV2Of(lib, d.networks[k], name, item, item.addresses.value[k])
  }

  predicate NetworkV2Of(lib: Library, n: Network, link: Text, item: ItemV2, address: string)
    requires item.nameservers.Some?
  {
    && n.link == link && n.cidr == Some(address)
    && DnsIs(n.dns, item.nameservers.value.addresses)
    && RoutesOfItem(lib, n.routes, item)
  }

  predicate BadV2(lib: Library, item: ItemV2, kind: string) {
    && IsLinkV2(item, kind)
    && (|| (kind == "bond" && BadBond(item.bond.value))
        || item.matchIsNull || item.routes.None? || item.nameservers.None? || item.addresses.None?
        || exists k :: 0 <= k < |item.routes.value| && BadRouteV2(lib, item.routes.value[k]))
  }

  lemma {:induction false} AddressesContents(lib: Library, item: ItemV2, link: Text)
    requires item.routes.Some? && item.nameservers.Some? && item.addresses.Some?
    ensures ParseAddresses(lib, item, link).Raised? <==>
      exists k :: 0 <= k < |item.routes.value| && BadRouteV2(lib, item.routes.value[k])
    ensures ParseAddresses(lib, item, link).Ok? ==>
      var (networks, services) := ParseAddresses(lib, item, link).value;
      && |networks| == |item.addresses.value|
      && (forall k :: 0 <= k < |networks| ==> NetworkV2Of(lib, networks[k], link, item, item.addresses.value[k]))
      && |services| == 1 && services[0].addresses == item.nameservers.value.addresses
      && services[0].search == item.nameservers.value.search
  {
    RoutesV2Contents(lib, item.routes.value);
    if ParseAddresses(lib, item, link).Ok? {
      var routes := RoutesV2(lib, item.routes.value).value;
      RoutesOfItemAre(lib, item, routes);
      var (networks, services) := ParseAddresses(lib, item, link).value;
      forall k | 0 <= k < |networks|
        ensures NetworkV2Of(lib, networks[k], link, item, item.addresses.value[k])
      {
        assert networks[k] == Network(link, Some(item.addresses.value[k]), DnsAddresses(item.nameservers.value.addresses),
                                      GatewayRouteV2(lib, item) + routes);
      }
    }
  }

  lemma {:induction false} RoutesOfItemAre(lib: Library, item: ItemV2, routes: seq<Route>)
    requires item.routes.Some? && |routes| == |item.routes.value|
    requires forall k :: 0 <= k < |routes| ==> RouteV2Of(lib, routes[k], item.routes.value[k])
    ensures RoutesOfItem(lib, GatewayRouteV2(lib, item) + routes, item)
  {
    var all, n := GatewayRouteV2(lib, item) + routes, |GatewayRouteV2(lib, item)|;
    forall k | 0 <= k < |routes|
      ensures RouteV2Of(lib, all[n + k], item.routes.value[k])
    {
      assert all[n + k] == routes[k];
    }
    assert n == 1 ==> all[0] == GatewayRouteV2(lib, item)[0];
  }

  lemma {:induction false} ItemV2Contents(lib: Library, item: ItemV2, kind: string)
    ensures ParseItemV2(lib, item, kind).Raised? <==> BadV2(lib, item, kind)
    ensures ParseItemV2(lib, item, kind).Ok? ==> GivesV2(lib, item, kind, ParseItemV2(lib, item, kind).value)
  {
    if kind == "bond" && item.bond.Some? {
      BadBondIff(item.bond.value);
    }
    if IsLinkV2(item, kind) && item.routes.Some? && item.nameservers.Some? && item.addresses.Some? {
      var name := if kind == "physical" && item.setName.Some? then item.setName.value else Some(item.name);
      AddressesContents(lib, item, name);
    }
  }

  lemma {:induction false} ItemsV2Contents(lib: Library, items: seq<ItemV2>, kind: string) returns (parts: seq<Details>)
    ensures ParseItemsV2(lib, items, kind).Raised? <==> exists i :: 0 <= i < |items| && BadV2(lib, items[i], kind)
    ensures ParseItemsV2(lib, items, kind).Ok? ==>
      && Consists(ParseItemsV2(lib, items, kind).value, parts) && |parts| == |items|
      && forall i :: 0 <= i < |items| ==> GivesV2(lib, items[i], kind, parts[i])
  {
    parts := [];
    if items != [] {
      var rest := ItemsV2Contents(lib, items[1..], kind);
      ItemV2Contents(lib, items[0], kind);
      assert forall i :: 0 < i < |items| ==> items[i] == items[1..][i - 1];
      if ParseItemsV2(lib, items, kind).Ok? {
        var first := ParseItemV2(lib, items[0], kind).value;
        ConsistsCons(first, ParseItemsV2(lib, items[1..], kind).value, rest);
        parts := [first] + rest;
      }
    }
  }

  predicate AnyBadV2(lib: Library, items: seq<ItemV2>, kind: string) {
    exists i :: 0 <= i < |items| && BadV2(lib, items[i], kind)
  }

  predicate AllGiveV2(lib: Library, items: seq<ItemV2>, kind: string, parts: seq<Details>) {
    |parts| == |items| && forall i :: 0 <= i < |items| ==> GivesV2(lib, items[i], kind, parts[i])
  }

  /** A version 2 document: an error exactly when some entry is bad, and otherwise what the ethernets,
      the bonds and the vlans contribute, in that order. */
  lemma {:induction false} V2Contents(lib: Library, ethernets: seq<ItemV2>, bonds: seq<ItemV2>, vlans: seq<ItemV2>)
    returns (parts1: seq<Details>, parts2: seq<Details>, parts3: seq<Details>)
    ensures ParseV2(lib, ethernets, bonds, vlans).Raised? <==>
      AnyBadV2(lib, ethernets, "physical") || AnyBadV2(lib, bonds, "bond") || AnyBadV2(lib, vlans, "vlan")
    ensures ParseV2(lib, ethernets, bonds, vlans).Ok? ==>
      && Consists(ParseV2(lib, ethernets, bonds, vlans).value, parts1 + parts2 + parts3)
      && AllGiveV2(lib, ethernets, "physical", parts1)
      && AllGiveV2(lib, bonds, "bond", parts2)
      && AllGiveV2(lib, vlans, "vlan", parts3)
  {
    parts1 := ItemsV2Contents(lib, ethernets, "physical");
    parts2 := ItemsV2Contents(lib, bonds, "bond");
    parts3 := ItemsV2Contents(lib, vlans, "vlan");
    if ParseV2(lib, ethernets, bonds, vlans).Ok? {
      var a, b := ParseItemsV2(lib, ethernets, "physical").value, ParseItemsV2(lib, bonds, "bond").value;
      ConsistsAppend(a, parts1, b, parts2);
      ConsistsAppend(Join(a, b), parts1 + parts2, ParseItemsV2(lib, vlans, "vlan").value, parts3);
    }
  }

  /* ---------- Version 1 NICs ---------- */

  /** The addresses of one family, in order. */
  function OfFamily(lib: Library, xs: seq<string>, v6: bool): seq<string> {
    if xs == [] then []
    else OfFamily(lib, xs[..|xs| - 1], v6) + if lib.isV6(xs[|xs| - 1]) == v6 then [xs[|xs| - 1]] else []
  }

  lemma {:induction false} OfFamilyRest(lib: Library, xs: seq<string>, v6: bool)
    requires xs != []
    ensures OfFamily(lib, xs, v6) == (if lib.isV6(xs[0]) == v6 then [xs[0]] else []) + OfFamily(lib, xs[1..], v6)
  {
    var n := |xs| - 1;
    if n > 0 {
      OfFamilyRest(lib, xs[..n], v6);
      assert xs[..n][1..] == xs[1..][..n - 1] && xs[1..][n - 1] == xs[n];
    }
  }

  lemma {:induction false} FilterIsOfFamily(lib: Library, xs: seq<string>, v6: bool)
    ensures Filter(lib.isV6, v6, xs) == OfFamily(lib, xs, v6)
  {
    if xs != [] {
      FilterIsOfFamily(lib, xs[1..], v6);
      OfFamilyRest(lib, xs, v6);
    }
  }

  /** The name servers of a family, as a service if there are any. */
  predicate DnsOfNic(lib: Library, dns: Dns, nic: Nic, v6: bool) {
    var servers := OfFamily(lib, nic.dns, v6);
    if servers == [] then dns == NoDns else dns == Services([Service(Some(servers), None)])
  }

  /** The default route of a family: to the plain gateway if that is of the family, in version 6
      failing that to the other one. */
  predicate RoutesOfNic(lib: Library, routes: seq<Route>, nic: Nic, v6: bool) {
    if Present(nic.gateway) && lib.isV6(nic.gateway.value) == v6 then
      |routes| == 1 && DefaultTo(lib, routes[0], nic.gateway.value)
    else if v6 && Present(nic.gateway6) then
      routes == [Route(Some("::/0"), nic.gateway6)]
    else routes == []
  }

  predicate NetworkOfNic(lib: Library, n: Network, nic: Nic, address: Text, netmask: Text, v6: bool) {
    && n.link == nic.name && CidrIs(lib, address, netmask, n.cidr)
    && DnsOfNic(lib, n.dns, nic, v6) && RoutesOfNic(lib, n.routes, nic, v6)
  }

  /** What a NIC contributes: a physical link, a network for its version 6 address and one for its
      plain address, which may be of either version, and the services of its name servers. */
  predicate GivesNic(lib: Library, nic: Nic, d: Details) {
    var six, plain := Present(nic.address6), Present(nic.address);
    && d.links == [Link(nic.name, nic.name, "physical", nic.mac)]
    && |d.networks| == (if six then 1 else 0) + (if plain then 1 else 0)
    && (six ==> NetworkOfNic(lib, d.networks[0], nic, nic.address6, nic.netmask6, true))
    && (plain ==>
          NetworkOfNic(lib, d.networks[|d.networks| - 1], nic, nic.address, nic.netmask, lib.isV6(nic.address.value)))
    && d.services == ServiceOf(OfFamily(lib, nic.dns, true)) + ServiceOf(OfFamily(lib, nic.dns, false))
  }

  function ServiceOf(servers: seq<string>): seq<Service> {
    if servers == [] then [] else [Service(Some(servers), None)]
  }

  predicate BadNic(lib: Library, nic: Nic) {
    || (Present(nic.address6) && BadCidr(lib, nic.address6, nic.netmask6))
    || (Present(nic.address) && BadCidr(lib, nic.address, nic.netmask))
  }

  /** What a network of the family carries besides its address. */
  lemma {:induction false} FamilyContents(lib: Library, nic: Nic, v6: bool)
    ensures DnsOfNic(lib, DnsOf(lib, nic, v6), nic, v6)
    ensures RoutesOfNic(lib, DefaultRoutes(lib, nic, v6), nic, v6)
  {
    FilterIsOfFamily(lib, nic.dns, v6);
  }

  lemma {:induction false} NicServices(lib: Library, nic: Nic)
    ensures ServicesOf(lib, nic) == ServiceOf(OfFamily(lib, nic.dns, true)) + ServiceOf(OfFamily(lib, nic.dns, false))
  {
    FilterIsOfFamily(lib, nic.dns, true);
    FilterIsOfFamily(lib, nic.dns, false);
  }

  lemma {:induction false} NicContents(lib: Library, nic: Nic)
    ensures ConvertNic(lib, nic).Raised? <==> BadNic(lib, nic)
    ensures ConvertNic(lib, nic).Ok? ==> GivesNic(lib, nic, ConvertNic(lib, nic).value)
  {
    FamilyContents(lib, nic, true);
    if Present(nic.address) {
      FamilyContents(lib, nic, lib.isV6(nic.address.value));
    }
    NicServices(lib, nic);
  }

  /** A list of NICs: an error exactly when some netmask does not fit its address, and otherwise what
      the NICs contribute, in order. */
  lemma {:induction false} ConvertedContents(lib: Library, nics: seq<Nic>) returns (parts: seq<Details>)
    ensures ConvertNics(lib, nics).Raised? <==> exists i :: 0 <= i < |nics| && BadNic(lib, nics[i])
    ensures ConvertNics(lib, nics).Ok? ==>
      && Consists(ConvertNics(lib, nics).value, parts) && |parts| == |nics|
      && forall i :: 0 <= i < |nics| ==> GivesNic(lib, nics[i], parts[i])
  {
    parts := [];
    if nics != [] {
      var rest := ConvertedContents(lib, nics[1..]);
      NicContents(lib, nics[0]);
      assert forall i :: 0 < i < |nics| ==> nics[i] == nics[1..][i - 1];
      if ConvertNics(lib, nics).Ok? {
        var first := ConvertNic(lib, nics[0]).value;
        ConsistsCons(first, ConvertNics(lib, nics[1..]).value, rest);
        parts := [first] + rest;
      }
    }
  }
}
