/** The router of one VLAN: its two tables together, and the invariant between them that the
    rest of the program relies on without checking. */
module VlanRouter {
  import opened Options
  import opened RouterPrefix
  import A = RouterAddresses
  import R = RouterRoutes
  import opened RouterCookies

  datatype Tables = Tables(addresses: A.Table, routes: R.Table)

  /** The address `k` is the one through which the gateway is reached, and is not itself it. */
  predicate Serves(t: Tables, k: (Ip, nat), gateway: Ip)
    requires A.Sound(t.addresses) && k in t.addresses
  {
    A.Contains(t.addresses[k], gateway) && t.addresses[k].gw != gateway
  }

  ghost predicate HasNetwork(t: Tables, gateway: Ip)
    requires A.Sound(t.addresses)
  {
    exists k :: k in t.addresses && Serves(t, k, gateway)
  }

  lemma GatewaysHaveNetworks(t: Tables)
    requires Linked(t)
    ensures forall g :: R.IsGateway(t.routes, g) ==> HasNetwork(t, g)
  {
  }

  ghost predicate TablesSound(t: Tables) {
    A.Sound(t.addresses) && A.Disjoint(t.addresses) && R.Sound(t.routes)
  }

  /** The gateway of route `r` lies in the network `k`. */
  predicate Uses(t: Tables, r: R.Key, k: (Ip, nat))
    requires A.Sound(t.addresses)
  {
    r in t.routes && k in t.addresses && A.Contains(t.addresses[k], t.routes[r].gateway)
  }

  /** Every route's gateway lies in a registered network (in exactly one, since those are
      disjoint) and differs from the router's own address there. */
  ghost predicate Linked(t: Tables) {
    && TablesSound(t)
    && forall r :: r in t.routes ==> HasNetwork(t, t.routes[r].gateway)
  }

  /** Which addresses a deletion must leave alone, as computed before the switch is asked for
      its flows. */
  ghost predicate IsSkipList(t: Tables, sel: Selector, skip: set<nat>)
    requires TablesSound(t)
  {
    && (forall r, k :: Uses(t, r, k) && (sel == All || sel == One(t.addresses[k].id)) ==> t.addresses[k].id in skip)
    && (forall id :: id in skip ==>
          (sel == All || sel == One(id)) && exists r, k :: Uses(t, r, k) && t.addresses[k].id == id)
  }

  /** The identifiers whose flows a deletion has picked. */
  function PickedIds(vlan: nat, sel: Selector, skip: set<nat>, cookies: seq<nat>): set<nat> {
    set c | c in cookies && PicksAddress(vlan, sel, skip, c) :: AddressId(c)
  }

  ghost predicate SomeGone(t: Tables, t': Tables, id: nat) {
    exists j :: j in t.addresses && j !in t'.addresses && t.addresses[j].id == id
  }

  /** `t'` is `t` after the second half of a deletion: only addresses with picked identifiers
      are gone, and one of each that was there. */
  ghost predicate AddressesDeleted(t: Tables, picked: set<nat>, t': Tables) {
    && t'.routes == t.routes
    && (forall k :: k in t'.addresses ==> k in t.addresses && t'.addresses[k] == t.addresses[k])
    && (forall k :: k in t.addresses && k !in t'.addresses ==> t.addresses[k].id in picked)
    && (forall k :: k in t.addresses && t.addresses[k].id in picked ==> SomeGone(t, t', t.addresses[k].id))
  }

  ghost predicate DistinctIds(t: A.Table) {
    forall j, k :: j in t && k in t && t[j].id == t[k].id ==> j == k
  }

  /** A gateway in use whose network the picked identifiers would remove. */
  ghost predicate Endangered(t: Tables, picked: set<nat>)
    requires TablesSound(t)
  {
    exists r, k :: Uses(t, r, k) && t.addresses[k].id in picked
  }

  lemma DeletionKeepsSound(t: Tables, picked: set<nat>, t': Tables)
    requires TablesSound(t) && AddressesDeleted(t, picked, t')
    ensures TablesSound(t')
  {
  }

  /** What is left when all addresses with picked identifiers go. */
  function WithoutPicked(t: Tables, picked: set<nat>): Tables {
    t.(addresses := map k | k in t.addresses && t.addresses[k].id !in picked :: t.addresses[k])
  }

  lemma AllPickedMayGo(t: Tables, picked: set<nat>)
    ensures AddressesDeleted(t, picked, WithoutPicked(t, picked))
  {
    var t' := WithoutPicked(t, picked);
    forall k | k in t.addresses && t.addresses[k].id in picked ensures SomeGone(t, t', t.addresses[k].id) {
      assert k !in t'.addresses;
    }
  }

  /** Whichever of several addresses with one identifier go, a deletion keeps every route
      linked if and only if no picked identifier is that of an address that serves a route. */
  lemma DeletionKeepsLinksIff(t: Tables, picked: set<nat>)
    requires Linked(t)
    ensures (forall t' :: AddressesDeleted(t, picked, t') ==> Linked(t')) <==> !Endangered(t, picked)
  {
    if Endangered(t, picked) {
      var r, k :| Uses(t, r, k) && t.addresses[k].id in picked;
      AllPickedMayGo(t, picked);
      LostNetworkBreaksLink(t, r, k, WithoutPicked(t, picked));
    } else {
      forall t' | AddressesDeleted(t, picked, t') ensures Linked(t') {
        SafeDeletionKeepsLinks(t, picked, t');
      }
    }
  }

  /** While identifiers do not repeat, there is nothing to choose. */
  lemma DistinctDeletionKeepsLinksIff(t: Tables, picked: set<nat>, t': Tables)
    requires Linked(t) && DistinctIds(t.addresses) && AddressesDeleted(t, picked, t')
    ensures Linked(t') <==> !Endangered(t, picked)
  {
    if Endangered(t, picked) {
      var r, k :| Uses(t, r, k) && t.addresses[k].id in picked;
      assert SomeGone(t, t', t.addresses[k].id);
      LostNetworkBreaksLink(t, r, k, t');
    } else {
      SafeDeletionKeepsLinks(t, picked, t');
    }
  }

  lemma LostNetworkBreaksLink(t: Tables, r: R.Key, k: (Ip, nat), t': Tables)
    requires TablesSound(t) && Uses(t, r, k) && k !in t'.addresses && t'.routes == t.routes
    requires forall j :: j in t'.addresses ==> j in t.addresses && t'.addresses[j] == t.addresses[j]
    ensures !Linked(t')
  {
  }

  /** One direction holds even when identifiers have wrapped around and repeat. */
  lemma SafeDeletionKeepsLinks(t: Tables, picked: set<nat>, t': Tables)
    requires Linked(t) && AddressesDeleted(t, picked, t') && !Endangered(t, picked)
    ensures Linked(t')
  {
    DeletionKeepsSound(t, picked, t');
    forall r | r in t'.routes ensures HasNetwork(t', t'.routes[r].gateway) {
      var k :| k in t.addresses && Serves(t, k, t.routes[r].gateway);
      assert Uses(t, r, k);
      assert k in t'.addresses && Serves(t', k, t'.routes[r].gateway);
    }
  }

  /** With the skip list of the same tables, nothing is endangered. */
  lemma SkipListProtects(t: Tables, vlan: nat, sel: Selector, skip: set<nat>, cookies: seq<nat>)
    requires TablesSound(t) && IsSkipList(t, sel, skip)
    ensures !Endangered(t, PickedIds(vlan, sel, skip, cookies))
  {
  }

  /** The program computes the skip list, then waits for the switch to report its flows. If a
      route is added through an unused network in between, and that network's flow is
      reported, the deletion leaves the new route without its network. */
  lemma RouteAddedDuringDeletion(t: Tables, k: (Ip, nat), key: R.Key, route: R.Route, vlan: nat, cookies: seq<nat>,
                                 t2: Tables, t3: Tables)
    requires TablesSound(t) && t.routes == map[] && DistinctIds(t.addresses)
    requires k in t.addresses && Serves(t, k, route.gateway) && 1 <= t.addresses[k].id <= UINT16_MAX
    requires t2 == t.(routes := map[key := route]) && R.Sound(t2.routes)
    requires CookieOf(OfAddress(vlan, t.addresses[k].id)) in cookies
    requires AddressesDeleted(t2, PickedIds(vlan, All, {}, cookies), t3)
    ensures IsSkipList(t, All, {}) && Linked(t2) && !Linked(t3)
  {
    var id := t.addresses[k].id;
    DecodeAddress(vlan, id);
    assert key in t2.routes && k in t2.addresses && Serves(t2, k, t2.routes[key].gateway);
    assert Uses(t2, key, k);
    assert PicksAddress(vlan, All, {}, CookieOf(OfAddress(vlan, id)));
    assert AddressId(CookieOf(OfAddress(vlan, id))) in PickedIds(vlan, All, {}, cookies);
    DistinctDeletionKeepsLinksIff(t2, PickedIds(vlan, All, {}, cookies), t3);
  }

  // ---------------------------------------------------------------- the router object

  datatype SetRouteResult =
    | RouteSet(route: R.Route)
    | GatewayNotRegistered
    | GatewayIsOwnAddress(addressId: nat)
    | RouteRefused(error: R.AddError)

  ghost predicate IsOwnAddress(t: Tables, gateway: Ip, id: nat) {
    exists k :: k in t.addresses && t.addresses[k].gw == gateway && t.addresses[k].id == id
  }

  /** When each answer is given to a request for a route; no two fit the same request. */
  ghost predicate AnswersRoute(t: Tables, d: R.Destination, gateway: Ip, r: SetRouteResult)
    requires TablesSound(t)
  {
    match r
    case GatewayNotRegistered => !A.Covers(t.addresses, gateway)
    case GatewayIsOwnAddress(id) =>
      A.Covers(t.addresses, gateway) && !HasNetwork(t, gateway) && IsOwnAddress(t, gateway, id)
    case RouteRefused(IllegalNetmask) => HasNetwork(t, gateway) && !(0 <= d.mask <= 32)
    case RouteRefused(DestinationOverlaps(id)) =>
      && HasNetwork(t, gateway) && 0 <= d.mask <= 32 && d.canonical
      && R.KeyOf(d) in t.routes && id == t.routes[R.KeyOf(d)].id
    case RouteSet(route) =>
      && HasNetwork(t, gateway) && 0 <= d.mask <= 32 && route.gateway == gateway
      && !(d.canonical && R.KeyOf(d) in t.routes)
  }

  /** The one network that contains the gateway decides. */
  lemma OwnNetworkIff(t: Tables, gateway: Ip, a: Option<A.Address>)
    requires TablesSound(t) && IsNetworkOf(t, gateway, a)
    ensures a.Some? <==> A.Covers(t.addresses, gateway)
    ensures HasNetwork(t, gateway) <==> a.Some? && a.value.gw != gateway
    ensures a.Some? && a.value.gw == gateway ==> IsOwnAddress(t, gateway, a.value.id)
  {
    if a.Some? {
      var k :| Reaches(t, gateway, k);
      assert Serves(t, k, gateway) <==> a.value.gw != gateway;
    } else if A.Covers(t.addresses, gateway) {
      var k :| k in t.addresses && A.Contains(t.addresses[k], gateway);
      assert Reaches(t, gateway, k);
    }
  }

  /** The answer is right, and an accepted route is all that changes. */
  ghost predicate RouteHandled(t: Tables, d: R.Destination, gateway: Ip, r: SetRouteResult, t': Tables)
    requires TablesSound(t)
  {
    && AnswersRoute(t, d, gateway, r)
    && (!r.RouteSet? ==> t' == t)
    && (r.RouteSet? ==>
          t' == t.(routes := t.routes[R.KeyOf(d) := r.route]) && Step(t, AddRoute(R.KeyOf(d), r.route), t'))
  }

  lemma RouteIsHandled(t: Tables, d: R.Destination, gateway: Ip, route: R.Route, t': Tables)
    requires Linked(t) && HasNetwork(t, gateway) && route.gateway == gateway
    requires 0 <= d.mask <= 32 && !(d.canonical && R.KeyOf(d) in t.routes)
    requires R.Sound(t'.routes) && t' == t.(routes := t.routes[R.KeyOf(d) := route])
    ensures RouteHandled(t, d, gateway, RouteSet(route), t') && Linked(t')
  {
    var k :| k in t.addresses && Serves(t, k, gateway);
    RouteKeepsLinks(t, k, R.KeyOf(d), route, t');
  }

  class Router {
    const vlan: nat
    const addressData: A.AddressData
    const routingTbl: R.RoutingTable

    ghost function View(): Tables
      reads addressData, routingTbl
    {
      Tables(addressData.table, routingTbl.table)
    }

    ghost predicate Valid()
      reads addressData, routingTbl
    {
      addressData.Valid() && routingTbl.Valid() && Linked(View())
    }

    constructor (vlan: nat)
      ensures Valid() && View() == Tables(map[], map[]) && this.vlan == vlan
    {
      this.vlan := vlan;
      addressData := new A.AddressData();
      routingTbl := new R.RoutingTable();
    }

    method SetAddressData(gw: Ip, mask: int) returns (r: A.AddResult)
      requires Valid()
      modifies addressData
      ensures Valid()
      ensures r.Added? <==> 0 <= mask <= 32
                            && forall k :: k in old(View()).addresses ==>
                                 !Intersect(gw, mask, old(View()).addresses[k].gw, k.1)
      ensures View().routes == old(View()).routes
      ensures r.Added? ==> View().addresses == old(View()).addresses[(r.address.nw, r.address.mask) := r.address]
      ensures r.Refused? ==> View() == old(View())
      ensures r.Added? ==> old(TablesSound(View())) && Step(old(View()), AddAddress(r.address), View())
    {
      ghost var t := View();
      r := addressData.Add(gw, mask);
      if r.Added? {
        AddressKeepsLinks(t, r.address, View());
      }
    }

    /** A route is accepted exactly if its gateway lies in a registered network and is not the
        router itself, its mask is legal, and its destination is not already spelled so. */
    method SetRoutingData(d: R.Destination, gateway: Ip) returns (r: SetRouteResult)
      requires Valid() && R.WellSpelled(d)
      modifies routingTbl
      ensures Valid()
      ensures old(TablesSound(View())) && RouteHandled(old(View()), d, gateway, r, View())
      ensures r.RouteSet? <==>
                && old(HasNetwork(View(), gateway)) && 0 <= d.mask <= 32
                && !(d.canonical && R.KeyOf(d) in old(View()).routes)
    {
      ghost var t := View();
      var address := NetworkOf(gateway, t);
      OwnNetworkIff(t, gateway, address);
      if address.None? {
        return GatewayNotRegistered;
      }
      if gateway == address.value.gw {
        return GatewayIsOwnAddress(address.value.id);
      }
      var added := routingTbl.Add(d, gateway);
      if added.Refused? {
        return RouteRefused(added.error);
      }
      RouteIsHandled(t, d, gateway, added.route, View());
      return RouteSet(added.route);
    }

    method NetworkOf(gateway: Ip, ghost t: Tables) returns (a: Option<A.Address>)
      requires addressData.Valid() && t.addresses == addressData.table
      ensures IsNetworkOf(t, gateway, a)
    {
      a := addressData.GetByIp(gateway);
      if a.Some? {
        ghost var k :| k in t.addresses && A.Contains(t.addresses[k], gateway);
        assert Reaches(t, gateway, k);
      }
    }

    /** The identifiers of the addresses that the gateways need, among those asked for. */
    method RelatedIds(gateways: seq<Ip>, sel: Selector, ghost t: Tables) returns (skip: set<nat>)
      requires addressData.Valid() && t.addresses == addressData.table
      ensures Protects(t, gateways, sel, skip)
      ensures Justified(t, gateways, sel, skip)
    {
      skip := {};
      for i := 0 to |gateways|
        invariant Protects(t, gateways[..i], sel, skip)
        invariant Justified(t, gateways, sel, skip)
      {
        var address := NetworkOf(gateways[i], t);
        ghost var before := skip;
        if address.Some? && sel == All {
          skip := skip + {address.value.id};
        } else if address.Some? && sel == One(address.value.id) {
          skip := {address.value.id};
          OneIsEnough(t, gateways, i, address.value);
          return;
        }
        SkipListGrows(t, gateways, i, sel, before, address, skip);
      }
      assert gateways[..|gateways|] == gateways;
    }

    /** The addresses that routes depend on, among those asked for. */
    method ChkAddrRelationRoute(sel: Selector) returns (skip: set<nat>)
      requires Valid()
      ensures IsSkipList(View(), sel, skip)
    {
      var gateways := routingTbl.GetGateways();
      skip := RelatedIds(gateways, sel, View());
      ProtectionIsSkipList(View(), gateways, sel, skip);
    }

    method PickedAddressCookies(sel: Selector, skip: set<nat>, cookies: seq<nat>) returns (deleteList: seq<nat>)
      ensures forall c :: c in deleteList <==> c in cookies && PicksAddress(vlan, sel, skip, c)
    {
      deleteList := [];
      for i := 0 to |cookies|
        invariant forall c :: c in deleteList <==> c in cookies[..i] && PicksAddress(vlan, sel, skip, c)
      {
        assert cookies[..i + 1] == cookies[..i] + [cookies[i]];
        if PicksAddress(vlan, sel, skip, cookies[i]) {
          deleteList := deleteList + [cookies[i]];
        }
      }
      assert cookies[..|cookies|] == cookies;
    }

    method PickedRouteCookies(sel: Selector, cookies: seq<nat>) returns (deleteList: seq<nat>)
      ensures forall c :: c in deleteList <==> c in cookies && PicksRoute(vlan, sel, c)
    {
      deleteList := [];
      for i := 0 to |cookies|
        invariant forall c :: c in deleteList <==> c in cookies[..i] && PicksRoute(vlan, sel, c)
      {
        assert cookies[..i + 1] == cookies[..i] + [cookies[i]];
        if PicksRoute(vlan, sel, cookies[i]) {
          deleteList := deleteList + [cookies[i]];
        }
      }
      assert cookies[..|cookies|] == cookies;
    }

    method DeleteOneAddress(id: nat, ghost t: Tables, ghost done: set<nat>)
      requires addressData.Valid() && AddressesDeleted(t, done, View())
      modifies addressData`table
      ensures addressData.Valid() && AddressesDeleted(t, done + {id}, View())
    {
      ghost var mid := View();
      var delAddress := addressData.GetById(id);
      if delAddress.Some? {
        addressData.Delete(id);
      }
      OneMoreDeleted(t, done, mid, id, View());
    }

    /** The second half of a deletion, once the switch has reported the cookies of its flows. */
    method DeletePickedAddresses(sel: Selector, skip: set<nat>, cookies: seq<nat>)
      requires addressData.Valid() && routingTbl.Valid()
      modifies addressData`table
      ensures addressData.Valid()
      ensures AddressesDeleted(old(View()), PickedIds(vlan, sel, skip, cookies), View())
    {
      ghost var t := View();
      var deleteList := PickedAddressCookies(sel, skip, cookies);
      ghost var done: set<nat> := {};
      for i := 0 to |deleteList|
        invariant addressData.Valid() && AddressesDeleted(t, done, View())
        invariant done == set c | c in deleteList[..i] :: AddressId(c)
      {
        assert deleteList[..i + 1] == deleteList[..i] + [deleteList[i]];
        DeleteOneAddress(AddressId(deleteList[i]), t, done);
        done := done + {AddressId(deleteList[i])};
      }
      assert deleteList[..|deleteList|] == deleteList;
      assert done == PickedIds(vlan, sel, skip, cookies);
    }

    /** Deletes addresses, sparing those that routes depend on. */
    method DeleteAddressData(sel: Selector, cookies: seq<nat>) returns (skip: set<nat>)
      requires Valid()
      modifies addressData`table
      ensures Valid()
      ensures old(TablesSound(View())) && Step(old(View()), DeleteAddresses(vlan, sel, skip, cookies), View())
    {
      ghost var t := View();
      skip := ChkAddrRelationRoute(sel);
      DeletePickedAddresses(sel, skip, cookies);
      StepKeepsLinks(t, DeleteAddresses(vlan, sel, skip, cookies), View());
    }

    method DeleteOneRoute(id: nat, ghost t: Tables, ghost done: set<nat>)
      requires routingTbl.Valid() && RoutesDeleted(t, done, View())
      modifies routingTbl`table
      ensures routingTbl.Valid() && RoutesDeleted(t, done + {id}, View())
    {
      ghost var mid := View();
      routingTbl.Delete(id);
      OneMoreRouteDeleted(t, done, mid, id, View());
    }

    method DeletePickedRoutes(sel: Selector, cookies: seq<nat>)
      requires addressData.Valid() && routingTbl.Valid()
      modifies routingTbl`table
      ensures routingTbl.Valid()
      ensures RoutesDeleted(old(View()), PickedRouteIds(vlan, sel, cookies), View())
    {
      ghost var t := View();
      var deleteList := PickedRouteCookies(sel, cookies);
      ghost var done: set<nat> := {};
      for i := 0 to |deleteList|
        invariant routingTbl.Valid() && RoutesDeleted(t, done, View())
        invariant done == set c | c in deleteList[..i] :: RouteId(c)
      {
        assert deleteList[..i + 1] == deleteList[..i] + [deleteList[i]];
        DeleteOneRoute(RouteId(deleteList[i]), t, done);
        done := done + {RouteId(deleteList[i])};
      }
      assert deleteList[..|deleteList|] == deleteList;
      assert done == PickedRouteIds(vlan, sel, cookies);
    }

    method DeleteRoutingData(sel: Selector, cookies: seq<nat>)
      requires Valid()
      modifies routingTbl`table
      ensures Valid()
      ensures old(TablesSound(View())) && Step(old(View()), DeleteRoutes(vlan, sel, cookies), View())
    {
      ghost var t := View();
      DeletePickedRoutes(sel, cookies);
      StepKeepsLinks(t, DeleteRoutes(vlan, sel, cookies), View());
    }

    /** The router's own address in the gateway's network. */
    method ArpSource(gateway: Ip, ghost t: Tables) returns (source: Ip)
      requires addressData.Valid() && t.addresses == addressData.table && HasNetwork(t, gateway)
      ensures IsArp(t, source, gateway)
    {
      var address := addressData.GetByIp(gateway);
      source := address.value.gw;
    }

    /** Asks for the MAC address of every gateway: each has a network to be asked from. */
    method SendArpAllGw() returns (sources: seq<Ip>, targets: seq<Ip>)
      requires Valid()
      ensures forall g :: g in targets <==> R.IsGateway(View().routes, g)
      ensures |sources| == |targets| && forall i :: 0 <= i < |targets| ==> IsArp(View(), sources[i], targets[i])
    {
      ghost var t := View();
      GatewaysHaveNetworks(t);
      targets := routingTbl.GetGateways();
      sources := [];
      for i := 0 to |targets|
        invariant |sources| == i && forall j :: 0 <= j < i ==> IsArp(t, sources[j], targets[j])
      {
        var source := ArpSource(targets[i], t);
        sources := sources + [source];
      }
    }
  }

  /** A request for `target`, sent from the router's own address in the same network. */
  ghost predicate IsArp(t: Tables, source: Ip, target: Ip)
    requires A.Sound(t.addresses)
  {
    exists k :: k in t.addresses && Serves(t, k, target) && source == t.addresses[k].gw
  }

  // ---------------------------------------------------------------- all runs

  datatype Event =
    | AddAddress(address: A.Address)
    | AddRoute(key: R.Key, route: R.Route)
    | DeleteRoutes(vlan: nat, sel: Selector, cookies: seq<nat>)
    | DeleteAddresses(vlan: nat, sel: Selector, skip: set<nat>, cookies: seq<nat>)

  function PickedRouteIds(vlan: nat, sel: Selector, cookies: seq<nat>): set<nat> {
    set c | c in cookies && PicksRoute(vlan, sel, c) :: RouteId(c)
  }

  ghost predicate RoutesDeleted(t: Tables, picked: set<nat>, t': Tables) {
    && t'.addresses == t.addresses
    && (forall k :: k in t'.routes ==> k in t.routes && t'.routes[k] == t.routes[k])
    && (forall k :: k in t.routes && k !in t'.routes ==> t.routes[k].id in picked)
    && (forall k :: k in t.routes && t.routes[k].id in picked ==> SomeRouteGone(t, t', t.routes[k].id))
  }

  ghost predicate SomeRouteGone(t: Tables, t': Tables, id: nat) {
    exists j :: j in t.routes && j !in t'.routes && t.routes[j].id == id
  }

  ghost predicate Step(t: Tables, e: Event, t': Tables)
    requires TablesSound(t)
  {
    match e
    case AddAddress(a) =>
      && a.mask <= 32 && a.nw == ApplyMask(a.gw, a.mask)
      && (forall k :: k in t.addresses ==> !Intersect(a.gw, a.mask, t.addresses[k].gw, t.addresses[k].mask))
      && t' == t.(addresses := t.addresses[(a.nw, a.mask) := a])
    case AddRoute(key, route) =>
      && R.Sound(t'.routes) && t' == t.(routes := t.routes[key := route])
      && HasNetwork(t, route.gateway)
    case DeleteRoutes(vlan, sel, cookies) => RoutesDeleted(t, PickedRouteIds(vlan, sel, cookies), t')
    case DeleteAddresses(vlan, sel, skip, cookies) =>
      IsSkipList(t, sel, skip) && AddressesDeleted(t, PickedIds(vlan, sel, skip, cookies), t')
  }

  lemma StepKeepsLinks(t: Tables, e: Event, t': Tables)
    requires Linked(t) && Step(t, e, t')
    ensures Linked(t')
  {
    match e
    case AddAddress(a) =>
      forall k | k in t.addresses ensures !OverlapTest(a.gw, a.mask, t.addresses[k].gw, t.addresses[k].mask) {
        OverlapTestIsIntersection(a.gw, a.mask, t.addresses[k].gw, t.addresses[k].mask);
      }
      A.AddingKeepsDisjoint(t.addresses, a);
      AddressKeepsLinks(t, a, t');
    case AddRoute(key, route) =>
      var k :| k in t.addresses && Serves(t, k, route.gateway);
      RouteKeepsLinks(t, k, key, route, t');
    case DeleteRoutes(vlan, sel, cookies) => RouteDeletionKeepsLinks(t, PickedRouteIds(vlan, sel, cookies), t');
    case DeleteAddresses(vlan, sel, skip, cookies) =>
      SkipListProtects(t, vlan, sel, skip, cookies);
      SafeDeletionKeepsLinks(t, PickedIds(vlan, sel, skip, cookies), t');
  }

  /** In every run of additions and deletions, each completed before the next begins, every
      route's gateway keeps its network, whatever flows the switch reports and whether or not
      identifiers repeat. */
  lemma {:induction false} RunsStayLinked(ts: seq<Tables>, es: seq<Event>)
    requires |ts| == |es| + 1 && ts[0] == Tables(map[], map[])
    requires forall i :: 0 <= i < |es| && TablesSound(ts[i]) ==> Step(ts[i], es[i], ts[i + 1])
    ensures Linked(ts[|es|])
  {
    if es != [] {
      RunsStayLinked(ts[..|es|], es[..|es| - 1]);
      StepKeepsLinks(ts[|es| - 1], es[|es| - 1], ts[|es|]);
    }
  }

  lemma RouteDeletionKeepsLinks(t: Tables, picked: set<nat>, t': Tables)
    requires Linked(t) && RoutesDeleted(t, picked, t')
    ensures Linked(t')
  {
  }

  lemma OneMoreRouteDeleted(t: Tables, done: set<nat>, mid: Tables, id: nat, t': Tables)
    requires RoutesDeleted(t, done, mid) && t'.addresses == mid.addresses
    requires (forall k :: k in mid.routes ==> mid.routes[k].id != id) ==> t' == mid
    requires (exists k :: k in mid.routes && mid.routes[k].id == id) ==>
               exists k :: k in mid.routes && mid.routes[k].id == id && t'.routes == mid.routes - {k}
    ensures RoutesDeleted(t, done + {id}, t')
  {
  }

  lemma OneMoreDeleted(t: Tables, done: set<nat>, mid: Tables, id: nat, t': Tables)
    requires AddressesDeleted(t, done, mid) && t'.routes == mid.routes
    requires (forall k :: k in mid.addresses ==> mid.addresses[k].id != id) ==> t' == mid
    requires (exists k :: k in mid.addresses && mid.addresses[k].id == id) ==>
               exists k :: k in mid.addresses && mid.addresses[k].id == id && t'.addresses == mid.addresses - {k}
    ensures AddressesDeleted(t, done + {id}, t')
  {
  }

  ghost predicate Needed(t: Tables, gateways: seq<Ip>, id: nat)
    requires A.Sound(t.addresses)
  {
    exists g, k :: g in gateways && Reaches(t, g, k) && t.addresses[k].id == id
  }

  /** Everything on the list was asked for and is needed. */
  ghost predicate Justified(t: Tables, gateways: seq<Ip>, sel: Selector, skip: set<nat>)
    requires A.Sound(t.addresses)
  {
    forall id :: id in skip ==> (sel == All || sel == One(id)) && Needed(t, gateways, id)
  }

  /** `a` is the address whose network contains the gateway, if any does. */
  ghost predicate IsNetworkOf(t: Tables, gateway: Ip, a: Option<A.Address>)
    requires A.Sound(t.addresses)
  {
    && (forall k :: Reaches(t, gateway, k) ==> a == Some(t.addresses[k]))
    && (a.Some? ==> exists k :: Reaches(t, gateway, k))
  }

  lemma SkipListGrows(t: Tables, gateways: seq<Ip>, i: nat, sel: Selector, skip: set<nat>, a: Option<A.Address>,
                      skip': set<nat>)
    requires A.Sound(t.addresses) && i < |gateways| && IsNetworkOf(t, gateways[i], a)
    requires Protects(t, gateways[..i], sel, skip) && Justified(t, gateways, sel, skip)
    requires skip' == if sel == All && a.Some? then skip + {a.value.id} else skip
    requires a.Some? ==> sel != One(a.value.id)
    ensures Protects(t, gateways[..i + 1], sel, skip') && Justified(t, gateways, sel, skip')
  {
    assert gateways[..i + 1] == gateways[..i] + [gateways[i]];
    assert ProtectsGateway(t, gateways[i], sel, skip');
    forall g | g in gateways[..i] ensures ProtectsGateway(t, g, sel, skip') {
      assert ProtectsGateway(t, g, sel, skip);
    }
    if a.Some? {
      var k :| Reaches(t, gateways[i], k);
      assert Needed(t, gateways, a.value.id);
    }
  }

  lemma OneIsEnough(t: Tables, gateways: seq<Ip>, i: nat, a: A.Address)
    requires A.Sound(t.addresses) && i < |gateways| && IsNetworkOf(t, gateways[i], Some(a))
    ensures Protects(t, gateways, One(a.id), {a.id}) && Justified(t, gateways, One(a.id), {a.id})
  {
    var k :| Reaches(t, gateways[i], k);
    assert Needed(t, gateways, a.id);
  }

  predicate Reaches(t: Tables, g: Ip, k: (Ip, nat))
    requires A.Sound(t.addresses)
  {
    k in t.addresses && A.Contains(t.addresses[k], g)
  }

  ghost predicate Protects(t: Tables, gateways: seq<Ip>, sel: Selector, skip: set<nat>)
    requires A.Sound(t.addresses)
  {
    forall g :: g in gateways ==> ProtectsGateway(t, g, sel, skip)
  }

  ghost predicate ProtectsGateway(t: Tables, g: Ip, sel: Selector, skip: set<nat>)
    requires A.Sound(t.addresses)
  {
    forall k :: Reaches(t, g, k) ==>
      (sel == All || sel == One(t.addresses[k].id) ==> t.addresses[k].id in skip)
  }

  lemma ProtectionIsSkipList(t: Tables, gateways: seq<Ip>, sel: Selector, skip: set<nat>)
    requires TablesSound(t) && Protects(t, gateways, sel, skip)
    requires forall g :: g in gateways <==> R.IsGateway(t.routes, g)
    requires Justified(t, gateways, sel, skip)
    ensures IsSkipList(t, sel, skip)
  {
    forall r, k | Uses(t, r, k) && (sel == All || sel == One(t.addresses[k].id)) ensures t.addresses[k].id in skip {
      assert t.routes[r].gateway in gateways && Reaches(t, t.routes[r].gateway, k);
      assert ProtectsGateway(t, t.routes[r].gateway, sel, skip);
    }
    forall id | id in skip ensures exists r, k :: Uses(t, r, k) && t.addresses[k].id == id {
      var g, k :| g in gateways && Reaches(t, g, k) && t.addresses[k].id == id;
      var r :| r in t.routes && t.routes[r].gateway == g;
      assert Uses(t, r, k);
    }
  }

  lemma AddressKeepsLinks(t: Tables, a: A.Address, t': Tables)
    requires Linked(t) && TablesSound(t') && (a.nw, a.mask) !in t.addresses
    requires t' == t.(addresses := t.addresses[(a.nw, a.mask) := a])
    ensures Linked(t')
  {
    NetworksStay(t, t');
  }

  lemma NetworksStay(t: Tables, t': Tables)
    requires A.Sound(t.addresses) && A.Sound(t'.addresses)
    requires forall k :: k in t.addresses ==> k in t'.addresses && t'.addresses[k] == t.addresses[k]
    ensures forall g :: HasNetwork(t, g) ==> HasNetwork(t', g)
  {
    forall g | HasNetwork(t, g) ensures HasNetwork(t', g) {
      NetworkStays(t, t', g);
    }
  }

  lemma NetworkStays(t: Tables, t': Tables, gateway: Ip)
    requires A.Sound(t.addresses) && A.Sound(t'.addresses) && HasNetwork(t, gateway)
    requires forall k :: k in t.addresses ==> k in t'.addresses && t'.addresses[k] == t.addresses[k]
    ensures HasNetwork(t', gateway)
  {
    var k :| k in t.addresses && Serves(t, k, gateway);
    assert Serves(t', k, gateway);
  }

  lemma RouteKeepsLinks(t: Tables, k: (Ip, nat), key: R.Key, route: R.Route, t': Tables)
    requires Linked(t) && TablesSound(t') && k in t.addresses && Serves(t, k, route.gateway)
    requires t' == t.(routes := t.routes[key := route])
    ensures Linked(t')
  {
    forall r | r in t'.routes ensures HasNetwork(t', t'.routes[r].gateway) {
      if r == key {
        assert Serves(t', k, t'.routes[r].gateway);
      } else {
        var j :| j in t.addresses && Serves(t, j, t.routes[r].gateway);
        assert Serves(t', j, t'.routes[r].gateway);
      }
    }
  }
}
