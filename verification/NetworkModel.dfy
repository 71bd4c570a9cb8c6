/**
 Network configuration from a NoCloud document to the network model, and from there to the
 host information.  Documents are taken as already parsed; an optional text is None where the
 key is missing or null.
 */
module NetworkModel {
  import opened Basics

  type Text = Option<string>

  /** An address with the texts derived from it. */
  datatype Address = Address(isV6: bool, text: string, netmask: string, broadcast: string, usable: bool)

  /** The address library: validity of addresses, `address/netmask` as a CIDR text, and the parsing
      of a CIDR text; None where the library raises.  `noneIsV6` is its answer on a missing address,
      and `usable` above means private or global. */
  datatype Library = Library(
    isV6: string -> bool, isV4: string -> bool, noneIsV6: Outcome<bool>,
    join: (Text, string) -> Text, parse: Text -> Option<Address>)

  datatype Route = Route(cidr: Text, gateway: Text)

  datatype Link = Link(id: Text, name: Text, kind: string, mac: Text)

  datatype Network = Network(link: Text, cidr: Text, dns: Dns, routes: seq<Route>)

  /** The name servers of a network: the parsers of documents put addresses there, the conversion
      of version 1 NICs a list of name server services. */
  datatype Dns = NoDns | Addresses(addresses: seq<string>) | Services(services: seq<Service>)

  datatype Service = Service(addresses: Option<seq<string>>, search: Text)

  datatype Details = Details(links: seq<Link>, networks: seq<Network>, services: seq<Service>)

  const EMPTY := Details([], [], [])
  const DEFAULT_V4 := "0.0.0.0/0"
  const DEFAULT_V6 := "::/0"

  predicate Truthy(t: Text) {
    t.Some? && t.value != ""
  }

  function Join(a: Details, b: Details): Details {
    Details(a.links + b.links, a.networks + b.networks, a.services + b.services)
  }

  /** `ip_netmask_to_cidr`. */
  function ToCidr(lib: Library, ip: Text, netmask: Text): Outcome<Text> {
    if !Truthy(netmask) then Ok(ip)
    else if lib.join(ip, netmask.value).None? then Raised
    else Ok(lib.join(ip, netmask.value))
  }

  /* ---------- Bonds ---------- */

  const BOND_TYPES: seq<string> :=
    ["802.3ad", "balance-rr", "active-backup", "balance-xor", "broadcast", "balance-tlb", "balance-alb"]
  const BOND_ALGORITHMS: seq<string> := ["layer2", "layer2+3", "layer3+4", "encap2+3", "encap3+4"]
  const LACP_RATES: seq<string> := ["slow", "fast"]

  datatype BondParams = BondParams(mode: Text, lacpRate: Text, hashPolicy: Text)

  predicate BondSupported(p: BondParams) {
    && p.mode.Some? && p.mode.value in BOND_TYPES
    && (p.mode.value == "802.3ad" && Truthy(p.lacpRate) ==> p.lacpRate.value in LACP_RATES)
    && (Truthy(p.hashPolicy) ==> p.hashPolicy.value in BOND_ALGORITHMS)
  }

  /* ---------- Version 1 documents ---------- */

  datatype RouteData = RouteData(network: Text, netmask: Text, gateway: Text)

  datatype Subnet =
    | NoSubnet  // not a dictionary
    | Subnet(kind: Text, address: Text, netmask: Text, gateway: Text, routes: Option<seq<RouteData>>, dns: Option<seq<string>>)

  /** `subnets` is None when the key is missing or its value is not a list; `addresses`, like the
      routes of a subnet, when its value is null. */
  datatype ItemV1 =
    | NoItem  // not a dictionary
    | ItemV1(kind: Text, name: Text, mac: Text, bond: Option<BondParams>, subnets: Option<seq<Subnet>>,
             addresses: Option<seq<string>>, search: Text)

  function RoutesOf(lib: Library, routes: seq<RouteData>): Outcome<seq<Route>> {
    if routes == [] then Ok([])
    else
      match (ToCidr(lib, routes[0].network, routes[0].netmask), RoutesOf(lib, routes[1..]))
      case (Ok(cidr), Ok(rest)) => Ok([Route(cidr, routes[0].gateway)] + rest)
      case _ => Raised
  }

  function GatewayRoute(lib: Library, gateway: Text): seq<Route> {
    if !Truthy(gateway) then []
    else [Route(Some(if lib.isV6(gateway.value) then DEFAULT_V6 else DEFAULT_V4), gateway)]
  }

  function DnsAddresses(addresses: Option<seq<string>>): Dns {
    if addresses.None? then NoDns else Addresses(addresses.value)
  }

  function SubnetNetworks(lib: Library, s: Subnet, link: Text): Outcome<seq<Network>> {
    if s.NoSubnet? || s.kind == Some("dhcp") || s.kind == Some("dhcp6") then Ok([])
    else if s.routes.None? then Raised
    else
      match (RoutesOf(lib, s.routes.value), ToCidr(lib, s.address, s.netmask))
      case (Ok(routes), Ok(cidr)) => Ok([Network(link, cidr, DnsAddresses(s.dns), routes + GatewayRoute(lib, s.gateway))])
      case _ => Raised
  }

  function ParseSubnets(lib: Library, subnets: seq<Subnet>, link: Text): Outcome<seq<Network>> {
    if subnets == [] then Ok([])
    else
      match (SubnetNetworks(lib, subnets[0], link), ParseSubnets(lib, subnets[1..], link))
      case (Ok(ns), Ok(rest)) => Ok(ns + rest)
      case _ => Raised
  }

  /** A physical, bond or vlan item: one link, and its subnets. */
  function LinkItem(lib: Library, item: ItemV1, kind: string): Outcome<Details>
    requires item.ItemV1?
  {
    if !Truthy(item.name) then Ok(EMPTY)
    else
      match ParseSubnets(lib, if item.subnets.Some? then item.subnets.value else [], item.name)
      case Raised => Raised
      case Ok(networks) => Ok(Details([Link(item.name, item.name, kind, item.mac)], networks, []))
  }

  function ParseItemV1(lib: Library, item: ItemV1): Outcome<Details> {
    if item.NoItem? then Ok(EMPTY)
    else if item.kind == Some("physical") then LinkItem(lib, item, "physical")
    else if item.kind == Some("vlan") then LinkItem(lib, item, "vlan")
    else if item.kind == Some("bond") then
      if !Truthy(item.name) || item.bond.None? then Ok(EMPTY)
      else if !BondSupported(item.bond.value) then Raised
      else LinkItem(lib, item, "bond")
    else if item.kind == Some("nameserver") then Ok(Details([], [], [Service(item.addresses, item.search)]))
    else Ok(EMPTY)
  }

  function ParseV1(lib: Library, items: seq<ItemV1>): Outcome<Details> {
    if items == [] then Ok(EMPTY)
    else
      match (ParseItemV1(lib, items[0]), ParseV1(lib, items[1..]))
      case (Ok(d), Ok(rest)) => Ok(Join(d, rest))
      case _ => Raised
  }

  /** The accumulating loop of `NoCloudNetworkConfigV1Parser.parse`. */
  method ParseDocumentV1(lib: Library, items: seq<ItemV1>) returns (r: Outcome<Details>)
    ensures r == ParseV1(lib, items)
  {
    var all := EMPTY;
    var i := 0;
    assert items[0..] == items;
    JoinEmpty(ParseV1(lib, items));
    while i < |items|
      invariant i <= |items| && ParseV1(lib, items) == JoinOutcome(all, ParseV1(lib, items[i..]))
    {
      assert items[i..][1..] == items[i + 1..];
      var d := ParseItemV1(lib, items[i]);
      if d.Raised? {
        return Raised;
      }
      JoinStep(all, d.value, ParseV1(lib, items[i + 1..]));
      all := Join(all, d.value);
      i := i + 1;
    }
    JoinEmpty(Ok(all));
    return Ok(all);
  }

  function JoinOutcome(d: Details, r: Outcome<Details>): Outcome<Details> {
    match r
    case Ok(rest) => Ok(Join(d, rest))
    case Raised => Raised
  }

  lemma {:induction false} JoinEmpty(r: Outcome<Details>)
    ensures JoinOutcome(EMPTY, r) == r
    ensures r.Ok? ==> Join(r.value, EMPTY) == r.value
  {
    if r.Ok? {
      var d := r.value;
      assert [] + d.links == d.links && [] + d.networks == d.networks && [] + d.services == d.services;
      assert d.links + [] == d.links && d.networks + [] == d.networks && d.services + [] == d.services;
    }
  }

  lemma {:induction false} JoinStep(a: Details, b: Details, r: Outcome<Details>)
    ensures JoinOutcome(a, JoinOutcome(b, r)) == JoinOutcome(Join(a, b), r)
  {
    if r.Ok? {
      var c := r.value;
      assert a.links + (b.links + c.links) == (a.links + b.links) + c.links;
      assert a.networks + (b.networks + c.networks) == (a.networks + b.networks) + c.networks;
      assert a.services + (b.services + c.services) == (a.services + b.services) + c.services;
    }
  }

  /* ---------- Version 2 documents ---------- */

  /** The dictionary of name servers; its addresses are None when they are null. */
  datatype Nameservers = Nameservers(addresses: Option<seq<string>>, search: Text)

  /** An entry of the ethernets, bonds or vlans dictionary under its name.  `setName` is None when
      the key is missing and Some(None) when it is null; `matchIsNull`, and None for the routes, the
      name servers or the addresses, stand for a null, not for a missing key. */
  datatype ItemV2 = ItemV2(
    name: string, setName: Option<Text>, matchIsNull: bool, mac: Text, bond: Option<BondParams>,
    gateway4: Text, gateway6: Text, routes: Option<seq<(Text, Text)>>,
    nameservers: Option<Nameservers>, addresses: Option<seq<string>>)

  /** The route of a deprecated gateway; that of version 6 takes precedence. */
  function GatewayRouteV2(lib: Library, item: ItemV2): seq<Route> {
    if Truthy(item.gateway6) && lib.isV6(item.gateway6.value) then [Route(Some(DEFAULT_V6), item.gateway6)]
    else if Truthy(item.gateway4) && lib.isV4(item.gateway4.value) then [Route(Some(DEFAULT_V4), item.gateway4)]
    else []
  }

  /** The network of a route; the text `default` stands for that of the gateway's family. */
  function TargetOf(lib: Library, to: string, via: Text): Outcome<string> {
    if !IsDefault(to) then Ok(to)
    else
      match if via.Some? then Ok(lib.isV6(via.value)) else lib.noneIsV6
      case Raised => Raised
      case Ok(v6) => Ok(if v6 then DEFAULT_V6 else DEFAULT_V4)
  }

  /** The routes of an item; a missing gateway is passed on, a missing network is an error. */
  function RoutesV2(lib: Library, routes: seq<(Text, Text)>): Outcome<seq<Route>> {
    if routes == [] then Ok([])
    else if routes[0].0.None? then Raised
    else
      match (TargetOf(lib, routes[0].0.value, routes[0].1), RoutesV2(lib, routes[1..]))
      case (Ok(cidr), Ok(rest)) => Ok([Route(Some(cidr), routes[0].1)] + rest)
      case _ => Raised
  }

  function Lower(c: char): char {
    if 'A' <= c <= 'Z' then 'a' + (c - 'A') else c
  }

  predicate IsDefault(to: string) {
    |to| == 7 && seq(7, i requires 0 <= i < 7 => Lower(to[i])) == "default"
  }

  function ParseAddresses(lib: Library, item: ItemV2, link: Text): Outcome<(seq<Network>, seq<Service>)> {
    if item.routes.None? || item.nameservers.None? || item.addresses.None? then Raised
    else
      match RoutesV2(lib, item.routes.value)
      case Raised => Raised
      case Ok(routes) =>
        var addresses, ns := item.addresses.value, item.nameservers.value;
        Ok((seq(|addresses|, i requires 0 <= i < |addresses| =>
              Network(link, Some(addresses[i]), DnsAddresses(ns.addresses), GatewayRouteV2(lib, item) + routes)),
            [Service(ns.addresses, ns.search)]))
  }

  function LinkItemV2(lib: Library, item: ItemV2, name: Text, kind: string): Outcome<Details> {
    if item.matchIsNull then Raised
    else
      match ParseAddresses(lib, item, name)
      case Raised => Raised
      case Ok((networks, services)) =>
        Ok(Details([Link(Some(item.name), name, kind, item.mac)], networks, services))
  }

  function ParseItemV2(lib: Library, item: ItemV2, kind: string): Outcome<Details> {
    if item.name == "" then Ok(EMPTY)
    else if kind == "bond" && item.bond.None? then Ok(EMPTY)
    else if kind == "bond" && !BondSupported(item.bond.value) then Raised
    else if kind == "physical" && item.setName.Some? then LinkItemV2(lib, item, item.setName.value, kind)
    else LinkItemV2(lib, item, Some(item.name), kind)
  }

  function ParseItemsV2(lib: Library, items: seq<ItemV2>, kind: string): Outcome<Details> {
    if items == [] then Ok(EMPTY)
    else
      match (ParseItemV2(lib, items[0], kind), ParseItemsV2(lib, items[1..], kind))
      case (Ok(d), Ok(rest)) => Ok(Join(d, rest))
      case _ => Raised
  }

  /** The accumulating loop of `NoCloudNetworkConfigV2Parser.parse` over one dictionary. */
  method ParseDictionaryV2(lib: Library, items: seq<ItemV2>, kind: string) returns (r: Outcome<Details>)
    ensures r == ParseItemsV2(lib, items, kind)
  {
    var all := EMPTY;
    var i := 0;
    assert items[0..] == items;
    JoinEmpty(ParseItemsV2(lib, items, kind));
    while i < |items|
      invariant i <= |items| && ParseItemsV2(lib, items, kind) == JoinOutcome(all, ParseItemsV2(lib, items[i..], kind))
    {
      assert items[i..][1..] == items[i + 1..];
      var d := ParseItemV2(lib, items[i], kind);
      if d.Raised? {
        return Raised;
      }
      JoinStep(all, d.value, ParseItemsV2(lib, items[i + 1..], kind));
      all := Join(all, d.value);
      i := i + 1;
    }
    JoinEmpty(Ok(all));
    return Ok(all);
  }

  /** The dictionaries in the order the parser takes them. */
  function ParseV2(lib: Library, ethernets: seq<ItemV2>, bonds: seq<ItemV2>, vlans: seq<ItemV2>): Outcome<Details> {
    match (ParseItemsV2(lib, ethernets, "physical"), ParseItemsV2(lib, bonds, "bond"), ParseItemsV2(lib, vlans, "vlan"))
    case (Ok(a), Ok(b), Ok(c)) => Ok(Join(Join(a, b), c))
    case _ => Raised
  }

  /* ---------- Version 1 NICs ---------- */

  datatype Nic = Nic(
    name: Text, mac: Text, address: Text, address6: Text, netmask: Text, netmask6: Text,
    gateway: Text, gateway6: Text, dns: seq<string>)

  function Filter(f: string -> bool, want: bool, xs: seq<string>): seq<string> {
    if xs == [] then []
    else if f(xs[0]) == want then [xs[0]] + Filter(f, want, xs[1..])
    else Filter(f, want, xs[1..])
  }

  function ServicesOf(lib: Library, nic: Nic): seq<Service> {
    var v6, v4 := Filter(lib.isV6, true, nic.dns), Filter(lib.isV6, false, nic.dns);
    (if v6 == [] then [] else [Service(Some(v6), None)]) + (if v4 == [] then [] else [Service(Some(v4), None)])
  }

  function DnsOf(lib: Library, nic: Nic, v6: bool): Dns {
    var ns := Filter(lib.isV6, v6, nic.dns);
    if ns == [] then NoDns else Services([Service(Some(ns), None)])
  }

  /** The default route of a family; a gateway of version 6 in the plain field takes precedence. */
  function DefaultRoutes(lib: Library, nic: Nic, v6: bool): seq<Route> {
    if Truthy(nic.gateway) && lib.isV6(nic.gateway.value) == v6 then
      [Route(Some(if v6 then DEFAULT_V6 else DEFAULT_V4), nic.gateway)]
    else if v6 && Truthy(nic.gateway6) then [Route(Some(DEFAULT_V6), nic.gateway6)]
    else []
  }

  function NicNetworks(lib: Library, nic: Nic): Outcome<seq<Network>> {
    var six :=
      if !Truthy(nic.address6) then Ok([])
      else
        match ToCidr(lib, nic.address6, nic.netmask6)
        case Raised => Raised
        case Ok(cidr) => Ok([Network(nic.name, cidr, DnsOf(lib, nic, true), DefaultRoutes(lib, nic, true))]);
    var plain :=
      if !Truthy(nic.address) then Ok([])
      else
        var v6 := lib.isV6(nic.address.value);
        match ToCidr(lib, nic.address, nic.netmask)
        case Raised => Raised
        case Ok(cidr) => Ok([Network(nic.name, cidr, DnsOf(lib, nic, v6), DefaultRoutes(lib, nic, v6))]);
    if six.Ok? && plain.Ok? then Ok(six.value + plain.value) else Raised
  }

  function ConvertNic(lib: Library, nic: Nic): Outcome<Details> {
    match NicNetworks(lib, nic)
    case Raised => Raised
    case Ok(networks) => Ok(Details([Link(nic.name, nic.name, "physical", nic.mac)], networks, ServicesOf(lib, nic)))
  }

  /** `network_details_v1_to_v2` on a list that is not empty. */
  function ConvertNics(lib: Library, nics: seq<Nic>): Outcome<Details> {
    if nics == [] then Ok(EMPTY)
    else
      match (ConvertNic(lib, nics[0]), ConvertNics(lib, nics[1..]))
      case (Ok(d), Ok(rest)) => Ok(Join(d, rest))
      case _ => Raised
  }

  /** The accumulating loop of `network_details_v1_to_v2`. */
  method ConvertNicList(lib: Library, items: seq<Nic>) returns (r: Outcome<Details>)
    ensures r == ConvertNics(lib, items)
  {
    var all := EMPTY;
    var i := 0;
    assert items[0..] == items;
    JoinEmpty(ConvertNics(lib, items));
    while i < |items|
      invariant i <= |items| && ConvertNics(lib, items) == JoinOutcome(all, ConvertNics(lib, items[i..]))
    {
      assert items[i..][1..] == items[i + 1..];
      var d := ConvertNic(lib, items[i]);
      if d.Raised? {
        return Raised;
      }
      JoinStep(all, d.value, ConvertNics(lib, items[i + 1..]));
      all := Join(all, d.value);
      i := i + 1;
    }
    JoinEmpty(Ok(all));
    return Ok(all);
  }

  /* ---------- Referential integrity ---------- */

  predicate HasLink(links: seq<Link>, name: Text) {
    exists i :: 0 <= i < |links| && links[i].name == name
  }

  /** Every network is on a link of the same details. */
  ghost predicate Closed(d: Details) {
    forall i :: 0 <= i < |d.networks| ==> HasLink(d.links, d.networks[i].link)
  }

  lemma {:induction false} JoinClosed(a: Details, b: Details)
    requires Closed(a) && Closed(b)
    ensures Closed(Join(a, b))
  {
    var r := Join(a, b);
    forall i | 0 <= i < |r.networks|
      ensures HasLink(r.links, r.networks[i].link)
    {
      if i < |a.networks| {
        assert HasLink(a.links, a.networks[i].link);
        var k :| 0 <= k < |a.links| && a.links[k].name == a.networks[i].link;
        assert r.links[k].name == r.networks[i].link;
      } else {
        var n := b.networks[i - |a.networks|];
        assert HasLink(b.links, n.link);
        var k :| 0 <= k < |b.links| && b.links[k].name == n.link;
        assert r.links[|a.links| + k].name == r.networks[i].link;
      }
    }
  }

  lemma {:induction false} OneLinkClosed(link: Link, networks: seq<Network>, services: seq<Service>)
    requires forall i :: 0 <= i < |networks| ==> networks[i].link == link.name
    ensures Closed(Details([link], networks, services))
  {
    assert [link][0].name == link.name;
  }

  lemma {:induction false} SubnetsOnLink(lib: Library, subnets: seq<Subnet>, link: Text)
    requires ParseSubnets(lib, subnets, link).Ok?
    ensures forall i :: 0 <= i < |ParseSubnets(lib, subnets, link).value| ==> ParseSubnets(lib, subnets, link).value[i].link == link
  {
    if subnets != [] {
      SubnetsOnLink(lib, subnets[1..], link);
    }
  }

  /** Every version 1 document that is accepted. */
  lemma {:induction false} V1Closed(lib: Library, items: seq<ItemV1>)
    requires ParseV1(lib, items).Ok?
    ensures Closed(ParseV1(lib, items).value)
  {
    if items != [] {
      V1Closed(lib, items[1..]);
      ItemV1Closed(lib, items[0]);
      JoinClosed(ParseItemV1(lib, items[0]).value, ParseV1(lib, items[1..]).value);
    }
  }

  lemma {:induction false} ItemV1Closed(lib: Library, item: ItemV1)
    requires ParseItemV1(lib, item).Ok?
    ensures Closed(ParseItemV1(lib, item).value)
  {
    var d := ParseItemV1(lib, item).value;
    if |d.links| > 0 {
      SubnetsOnLink(lib, if item.subnets.Some? then item.subnets.value else [], item.name);
      OneLinkClosed(d.links[0], d.networks, d.services);
    }
  }

  lemma {:induction false} ItemsV2Closed(lib: Library, items: seq<ItemV2>, kind: string)
    requires ParseItemsV2(lib, items, kind).Ok?
    ensures Closed(ParseItemsV2(lib, items, kind).value)
  {
    if items != [] {
      ItemsV2Closed(lib, items[1..], kind);
      var d := ParseItemV2(lib, items[0], kind).value;
      if d != EMPTY {
        OneLinkClosed(d.links[0], d.networks, d.services);
      }
      JoinClosed(d, ParseItemsV2(lib, items[1..], kind).value);
    }
  }

  /** Every version 2 document that is accepted. */
  lemma {:induction false} V2Closed(lib: Library, ethernets: seq<ItemV2>, bonds: seq<ItemV2>, vlans: seq<ItemV2>)
    requires ParseV2(lib, ethernets, bonds, vlans).Ok?
    ensures Closed(ParseV2(lib, ethernets, bonds, vlans).value)
  {
    ItemsV2Closed(lib, ethernets, "physical");
    ItemsV2Closed(lib, bonds, "bond");
    ItemsV2Closed(lib, vlans, "vlan");
    var a, b := ParseItemsV2(lib, ethernets, "physical").value, ParseItemsV2(lib, bonds, "bond").value;
    JoinClosed(a, b);
    JoinClosed(Join(a, b), ParseItemsV2(lib, vlans, "vlan").value);
  }

  /** Every list of version 1 NICs that is converted. */
  lemma {:induction false} ConvertedClosed(lib: Library, nics: seq<Nic>)
    requires ConvertNics(lib, nics).Ok?
    ensures Closed(ConvertNics(lib, nics).value)
  {
    if nics != [] {
      ConvertedClosed(lib, nics[1..]);
      var d := ConvertNic(lib, nics[0]).value;
      OneLinkClosed(d.links[0], d.networks, d.services);
      JoinClosed(d, ConvertNics(lib, nics[1..]).value);
    }
  }

  /** The networks of converted NICs never carry plain addresses of name servers. */
  lemma {:induction false} ConvertedNameServers(lib: Library, nics: seq<Nic>, i: nat)
    requires ConvertNics(lib, nics).Ok? && i < |ConvertNics(lib, nics).value.networks|
    ensures !ConvertNics(lib, nics).value.networks[i].dns.Addresses?
  {
    var first, rest := ConvertNic(lib, nics[0]).value.networks, ConvertNics(lib, nics[1..]).value.networks;
    if i >= |first| {
      assert ConvertNics(lib, nics).value.networks[i] == rest[i - |first|];
      ConvertedNameServers(lib, nics[1..], i - |first|);
    }
  }

  /* ---------- Host information ---------- */

  const LOCALHOST_MAC := "00:00:00:00:00:00"

  datatype Entry = Entry(address: string, netmask: Text, broadcast: string)

  /** An interface by its address. */
  datatype Located = Located(mac: Text, entry: Entry)

  datatype MacEntry = MacEntry(v4: Option<Entry>, v6: Option<Entry>)

  datatype HostInfo = HostInfo(
    byMac: map<string, MacEntry>, byV4: map<string, Located>, byV6: map<string, Located>)

  const NO_HOST := HostInfo(map[], map[], map[])

  /** `mac_by_link_names`: the last link of a name decides. */
  function MacByLink(links: seq<Link>): map<Text, Text> {
    if links == [] then map[]
    else MacByLink(links[..|links| - 1])[links[|links| - 1].name := links[|links| - 1].mac]
  }

  function EntryOf(a: Address): Entry {
    Entry(a.text, if a.isV6 then None else Some(a.netmask), a.broadcast)
  }

  function WithMac(h: HostInfo, mac: Text, a: Address): map<string, MacEntry> {
    if !Truthy(mac) then h.byMac
    else
      var known := if mac.value in h.byMac then h.byMac[mac.value] else MacEntry(None, None);
      h.byMac[mac.value := if a.isV6 then known.(v6 := Some(EntryOf(a))) else known.(v4 := Some(EntryOf(a)))]
  }

  /** One network of the loop in `get_host_info`. */
  function AddNetwork(lib: Library, h: HostInfo, macs: map<Text, Text>, n: Network): Outcome<HostInfo> {
    if n.link !in macs then Raised
    else if macs[n.link] == Some(LOCALHOST_MAC) then Ok(h)
    else
      match lib.parse(n.cidr)
      case None => Raised
      case Some(a) =>
        var located := Located(macs[n.link], EntryOf(a));
        Ok(HostInfo(WithMac(h, macs[n.link], a),
                    if a.isV6 then h.byV4 else h.byV4[a.text := located],
                    if a.isV6 then h.byV6[a.text := located] else h.byV6))
  }

  function AddNetworks(lib: Library, h: HostInfo, macs: map<Text, Text>, networks: seq<Network>): Outcome<HostInfo>
    decreases |networks|
  {
    if networks == [] then Ok(h)
    else
      match AddNetwork(lib, h, macs, networks[0])
      case Raised => Raised
      case Ok(h') => AddNetworks(lib, h', macs, networks[1..])
  }

  /** `get_default_ip_addresses` for one family: the first usable address with a default route. */
  predicate IsDefaultAddress(lib: Library, n: Network, v6: bool)
    requires lib.parse(n.cidr).Some?
  {
    var a := lib.parse(n.cidr).value;
    a.isV6 == v6 && a.usable && exists r :: r in n.routes && r.cidr == Some(if v6 then DEFAULT_V6 else DEFAULT_V4)
  }

  function FirstDefault(lib: Library, networks: seq<Network>, v6: bool): Text
    requires forall n :: n in networks ==> lib.parse(n.cidr).Some?
  {
    if networks == [] then None
    else if IsDefaultAddress(lib, networks[0], v6) then Some(lib.parse(networks[0].cidr).value.text)
    else FirstDefault(lib, networks[1..], v6)
  }

  method GetDefaultIpAddresses(lib: Library, networks: seq<Network>) returns (r: Outcome<(Text, Text)>)
    ensures r.Ok? <==> forall n :: n in networks ==> lib.parse(n.cidr).Some?
    ensures r.Ok? ==> r.value == (FirstDefault(lib, networks, false), FirstDefault(lib, networks, true))
  {
    var v4: Text, v6: Text := None, None;
    var i := 0;
    while i < |networks|
      invariant i <= |networks| && forall k :: 0 <= k < i ==> lib.parse(networks[k].cidr).Some?
      invariant v4 == FirstDefault(lib, networks[..i], false) && v6 == FirstDefault(lib, networks[..i], true)
    {
      var n := networks[i];
      var a := lib.parse(n.cidr);
      if a.None? {
        assert n in networks;
        return Raised;
      }
      FirstDefaultAppend(lib, networks[..i], n, false);
      FirstDefaultAppend(lib, networks[..i], n, true);
      assert networks[..i + 1] == networks[..i] + [n];
      var defaultRoute := false;
      var k := 0;
      while k < |n.routes|
        invariant k <= |n.routes|
        invariant defaultRoute <==>
          exists j :: 0 <= j < k && n.routes[j].cidr == Some(if a.value.isV6 then DEFAULT_V6 else DEFAULT_V4)
      {
        if n.routes[k].cidr == Some(if a.value.isV6 then DEFAULT_V6 else DEFAULT_V4) {
          defaultRoute := true;
        }
        k := k + 1;
      }
      if defaultRoute && a.value.usable {
        if v6.None? && a.value.isV6 {
          v6 := Some(a.value.text);
        }
        if v4.None? && !a.value.isV6 {
          v4 := Some(a.value.text);
        }
      }
      i := i + 1;
    }
    assert networks[..|networks|] == networks;
    return Ok((v4, v6));
  }

  lemma {:induction false} FirstDefaultAppend(lib: Library, networks: seq<Network>, n: Network, v6: bool)
    requires (forall x :: x in networks ==> lib.parse(x.cidr).Some?) && lib.parse(n.cidr).Some?
    ensures forall x :: x in networks + [n] ==> lib.parse(x.cidr).Some?
    ensures FirstDefault(lib, networks + [n], v6) ==
      if FirstDefault(lib, networks, v6).Some? then FirstDefault(lib, networks, v6)
      else if IsDefaultAddress(lib, n, v6) then Some(lib.parse(n.cidr).value.text) else None
  {
    if networks != [] {
      FirstDefaultAppend(lib, networks[1..], n, v6);
      assert (networks + [n])[1..] == networks[1..] + [n];
    } else {
      assert [] + [n] == [n] && [n][1..] == [];
    }
  }

  /** `get_host_info` on details that are not empty. */
  method GetHostInfo(lib: Library, d: Details) returns (r: Outcome<HostInfo>, defaults: (Text, Text))
    ensures r.Ok? <==>
      && (forall n :: n in d.networks ==> lib.parse(n.cidr).Some?)
      && AddNetworks(lib, NO_HOST, MacByLink(d.links), d.networks).Ok?
    ensures r.Ok? ==>
      && r == AddNetworks(lib, NO_HOST, MacByLink(d.links), d.networks)
      && defaults == (FirstDefault(lib, d.networks, false), FirstDefault(lib, d.networks, true))
    ensures Closed(d) ==> (r.Ok? <==> forall n :: n in d.networks ==> lib.parse(n.cidr).Some?)
    ensures Closed(d) && r.Ok? ==> KeysAreExact(lib, d, r.value)
  {
    defaults := (None, None);
    var found := GetDefaultIpAddresses(lib, d.networks);
    if found.Raised? {
      return Raised, defaults;
    }
    defaults := found.value;
    var macs: map<Text, Text> := map[];
    var i := 0;
    while i < |d.links|
      invariant i <= |d.links| && macs == MacByLink(d.links[..i])
    {
      assert d.links[..i + 1][..i] == d.links[..i];
      macs := macs[d.links[i].name := d.links[i].mac];
      i := i + 1;
    }
    assert d.links[..|d.links|] == d.links;
    var host := NO_HOST;
    i := 0;
    assert d.networks[0..] == d.networks;
    while i < |d.networks|
      invariant i <= |d.networks|
      invariant AddNetworks(lib, host, macs, d.networks[i..]) == AddNetworks(lib, NO_HOST, macs, d.networks)
    {
      assert d.networks[i..][1..] == d.networks[i + 1..];
      var next := AddNetwork(lib, host, macs, d.networks[i]);
      if next.Raised? {
        if Closed(d) {
          HostInfoOf(lib, d);
        }
        return Raised, defaults;
      }
      host := next.value;
      i := i + 1;
    }
    if Closed(d) {
      HostInfoOf(lib, d);
    }
    return Ok(host), defaults;
  }

  lemma {:induction false} MacByLinkMeaning(links: seq<Link>, name: Text)
    ensures name in MacByLink(links) <==> HasLink(links, name)
  {
    if links != [] {
      var n := |links| - 1;
      MacByLinkMeaning(links[..n], name);
      if name in MacByLink(links[..n]) {
        var k :| 0 <= k < n && links[..n][k].name == name;
        assert links[k].name == name;
      }
      if HasLink(links, name) && links[n].name != name {
        var k :| 0 <= k < |links| && links[k].name == name;
        assert links[..n][k].name == name;
      }
      assert links[n].name == name ==> HasLink(links, name);
    }
  }

  /** On details whose networks are all on links, and addresses that parse, the loop never fails. */
  lemma {:induction false} LookupNeverMisses(
    lib: Library, h: HostInfo, links: seq<Link>, networks: seq<Network>)
    requires forall i :: 0 <= i < |networks| ==> HasLink(links, networks[i].link) && lib.parse(networks[i].cidr).Some?
    ensures AddNetworks(lib, h, MacByLink(links), networks).Ok?
    decreases |networks|
  {
    if networks != [] {
      MacByLinkMeaning(links, networks[0].link);
      LookupNeverMisses(lib, AddNetwork(lib, h, MacByLink(links), networks[0]).value, links, networks[1..]);
    }
  }

  /** The networks recorded by address: of the family, and not on a link with the all-zero MAC. */
  ghost predicate Recorded(lib: Library, macs: map<Text, Text>, n: Network, v6: bool, text: string) {
    && n.link in macs && macs[n.link] != Some(LOCALHOST_MAC)
    && lib.parse(n.cidr).Some? && lib.parse(n.cidr).value.isV6 == v6 && lib.parse(n.cidr).value.text == text
  }

  /** The keys by address are exactly the addresses of these networks. */
  lemma {:induction false} KeysAreAddresses(
    lib: Library, h: HostInfo, macs: map<Text, Text>, networks: seq<Network>, text: string)
    requires AddNetworks(lib, h, macs, networks).Ok?
    ensures
      var r := AddNetworks(lib, h, macs, networks).value;
      && (text in r.byV4 <==> text in h.byV4 || exists i :: 0 <= i < |networks| && Recorded(lib, macs, networks[i], false, text))
      && (text in r.byV6 <==> text in h.byV6 || exists i :: 0 <= i < |networks| && Recorded(lib, macs, networks[i], true, text))
    decreases |networks|
  {
    if networks != [] {
      var n, rest := networks[0], networks[1..];
      var h' := AddNetwork(lib, h, macs, n).value;
      KeysAreAddresses(lib, h', macs, rest, text);
      RecordedFirst(lib, macs, networks, false, text);
      RecordedFirst(lib, macs, networks, true, text);
    }
  }

  lemma {:induction false} RecordedFirst(
    lib: Library, macs: map<Text, Text>, networks: seq<Network>, v6: bool, text: string)
    requires networks != []
    ensures (exists i :: 0 <= i < |networks| && Recorded(lib, macs, networks[i], v6, text)) <==>
      || Recorded(lib, macs, networks[0], v6, text)
      || exists i :: 0 <= i < |networks[1..]| && Recorded(lib, macs, networks[1..][i], v6, text)
  {
    assert forall i :: 0 < i < |networks| ==> networks[i] == networks[1..][i - 1];
  }

  /** The same on whole details: the keys are exactly the addresses on links that are not local. */
  ghost predicate KeysAreExact(lib: Library, d: Details, h: HostInfo) {
    forall text ::
      && (text in h.byV4 <==> OnSomeLink(lib, d, false, text))
      && (text in h.byV6 <==> OnSomeLink(lib, d, true, text))
  }

  ghost predicate OnSomeLink(lib: Library, d: Details, v6: bool, text: string) {
    exists i :: 0 <= i < |d.networks| && Recorded(lib, MacByLink(d.links), d.networks[i], v6, text)
  }

  /** The host information of details whose networks are all on links: there is one exactly when
      every address parses, and its keys are then exactly these addresses. */
  lemma {:induction false} HostInfoOf(lib: Library, d: Details)
    requires Closed(d) && forall i :: 0 <= i < |d.networks| ==> lib.parse(d.networks[i].cidr).Some?
    ensures
      var r := AddNetworks(lib, NO_HOST, MacByLink(d.links), d.networks);
      r.Ok? && KeysAreExact(lib, d, r.value)
  {
    LookupNeverMisses(lib, NO_HOST, d.links, d.networks);
    var r := AddNetworks(lib, NO_HOST, MacByLink(d.links), d.networks);
    forall text
      ensures text in r.value.byV4 <==> OnSomeLink(lib, d, false, text)
      ensures text in r.value.byV6 <==> OnSomeLink(lib, d, true, text)
    {
      KeysAreAddresses(lib, NO_HOST, MacByLink(d.links), d.networks, text);
    }
  }

  /** What the NoCloud service can hand to the host information. */
  datatype Source =
    | V1(items: seq<ItemV1>)
    | V2(ethernets: seq<ItemV2>, bonds: seq<ItemV2>, vlans: seq<ItemV2>)
    | Converted(nics: seq<Nic>)

  function DetailsOf(lib: Library, source: Source): Outcome<Details> {
    match source
    case V1(items) => ParseV1(lib, items)
    case V2(ethernets, bonds, vlans) => ParseV2(lib, ethernets, bonds, vlans)
    case Converted(nics) => ConvertNics(lib, nics)
  }

  /** From the document to the host information: for whatever is accepted, it is there when every
      address parses, and its keys are exactly the addresses on links whose MAC is not all zero. */
  lemma {:induction false} AcceptedHostInfo(lib: Library, source: Source)
    requires DetailsOf(lib, source).Ok?
    requires
      var networks := DetailsOf(lib, source).value.networks;
      forall i :: 0 <= i < |networks| ==> lib.parse(networks[i].cidr).Some?
    ensures
      var d := DetailsOf(lib, source).value;
      var r := AddNetworks(lib, NO_HOST, MacByLink(d.links), d.networks);
      r.Ok? && KeysAreExact(lib, d, r.value)
  {
    AcceptedIsClosed(lib, source);
    HostInfoOf(lib, DetailsOf(lib, source).value);
  }

  lemma {:induction false} AcceptedIsClosed(lib: Library, source: Source)
    requires DetailsOf(lib, source).Ok?
    ensures Closed(DetailsOf(lib, source).value)
  {
    match source
    case V1(items) => V1Closed(lib, items);
    case V2(ethernets, bonds, vlans) => V2Closed(lib, ethernets, bonds, vlans);
    case Converted(nics) => ConvertedClosed(lib, nics);
  }
}
