/** The routing table, its longest-prefix lookup, and the priorities of the flows that
    carry its routes out on the switch. */
module RouterRoutes {
  import opened Options
  import opened RouterPrefix
  import opened Bits
  import RouterAddresses

  /** `dst` is absent for the default route, which is entered as the number zero rather than
      as an address. */
  datatype Route = Route(id: nat, dst: Option<Ip>, mask: nat, gateway: Ip)

  type Key = (Ip, nat)

  type Table = map<Key, Route>

  /** The address 0.0.0.0. */
  const ANY: Ip := Zeros(32)

  const DEFAULT_ROUTE: Key := (ANY, 0)

  predicate Sound(t: Table) {
    forall k :: k in t ==>
      && t[k].mask == k.1 <= 32
      && k.0 == ApplyMask(k.0, k.1)
      && (t[k].dst == Some(k.0) || (t[k].dst.None? && k == DEFAULT_ROUTE))
  }

  /** The route's network contains `ip`: the address begins with the route's prefix. */
  predicate Matches(t: Table, k: Key, ip: Ip)
    requires Sound(t) && k in t
  {
    SamePrefix(ip, k.0, k.1)
  }

  /** A destination as the user spells it: `canonical` tells whether the text is the one the
      table uses for this network. */
  datatype Destination = Destination(ip: Ip, mask: int, canonical: bool)

  predicate WellSpelled(d: Destination) {
    d.canonical ==> 0 <= d.mask <= 32 && d.ip == ApplyMask(d.ip, d.mask)
  }

  function KeyOf(d: Destination): Key
    requires 0 <= d.mask <= 32
  {
    (ApplyMask(d.ip, d.mask), d.mask)
  }

  datatype AddError = IllegalNetmask | DestinationOverlaps(id: nat)

  datatype AddResult = Added(route: Route) | Refused(error: AddError)

  class RoutingTable {
    var table: Table
    var nextId: nat

    ghost predicate Valid()
      reads this
    {
      Sound(table) && 1 <= nextId <= RouterAddresses.UINT32_MAX
    }

    constructor ()
      ensures Valid() && table == map[] && nextId == 1
    {
      table, nextId := map[], 1;
    }

    /** A destination already in the table is refused only in its canonical spelling; under
        any other spelling the old route is replaced. */
    method Add(d: Destination, gateway: Ip) returns (r: AddResult)
      requires Valid() && WellSpelled(d)
      modifies this
      ensures Valid()
      ensures r == Refused(IllegalNetmask) <==> !(0 <= d.mask <= 32)
      ensures r.Added? <==> 0 <= d.mask <= 32 && !(d.canonical && KeyOf(d) in old(table))
      ensures r.Refused? ==> table == old(table) && nextId == old(nextId)
      ensures r.Refused? && r.error.DestinationOverlaps? ==> r.error.id == table[KeyOf(d)].id
      ensures r.Added? ==>
                && table == old(table)[KeyOf(d) := r.route]
                && r.route.id == old(nextId) && r.route.gateway == gateway
                && (r.route.dst.None? <==> d.canonical && KeyOf(d) == DEFAULT_ROUTE)
                && nextId == RouterAddresses.NextId(old(nextId))
    {
      if d.mask < 0 || d.mask > 32 {
        return Refused(IllegalNetmask);
      }
      var key := KeyOf(d);
      var isDefault := d.canonical && key == DEFAULT_ROUTE;
      MaskingTwice(d.ip, d.mask, d.mask);
      if d.canonical && key in table {
        return Refused(DestinationOverlaps(table[key].id));
      }
      var route := Route(nextId, if isDefault then None else Some(key.0), d.mask, gateway);
      table := table[key := route];
      nextId := RouterAddresses.NextId(nextId);
      return Added(route);
    }

    /** Removes one route with the identifier, if there is any. */
    method Delete(id: nat)
      requires Valid()
      modifies this`table
      ensures Valid()
      ensures (forall k :: k in old(table) ==> old(table)[k].id != id) ==> table == old(table)
      ensures (exists k :: k in old(table) && old(table)[k].id == id) ==>
                exists k :: k in old(table) && old(table)[k].id == id && table == old(table) - {k}
    {
      var todo := table.Keys;
      while todo != {}
        invariant todo <= table.Keys && table == old(table)
        invariant forall k :: k in table.Keys - todo ==> table[k].id != id
      {
        var k :| k in todo;
        todo := todo - {k};
        if table[k].id == id {
          table := table - {k};
          return;
        }
      }
    }

    /** The gateways in use. */
    method GetGateways() returns (gs: seq<Ip>)
      ensures forall g :: g in gs <==> IsGateway(table, g)
    {
      gs := [];
      var todo := table.Keys;
      while todo != {}
        invariant todo <= table.Keys
        invariant forall g :: g in gs ==> IsGateway(table, g)
        invariant forall k :: k in table.Keys - todo ==> table[k].gateway in gs
      {
        var k :| k in todo;
        todo := todo - {k};
        gs := gs + [table[k].gateway];
      }
    }

    /** The matching route of greatest positive prefix length, found in one pass. */
    method LongestMatch(ip: Ip) returns (best: Option<Key>)
      requires Valid()
      ensures best.Some? ==> best.value.1 > 0 && IsBest(table, best.value, ip)
      ensures best.None? ==> forall k :: k in table && Matches(table, k, ip) ==> k.1 == 0
    {
      best := None;
      var mask := 0;
      var todo := table.Keys;
      while todo != {}
        invariant todo <= table.Keys
        invariant best.None? ==> mask == 0
        invariant best.Some? ==> best.value in table && Matches(table, best.value, ip) && mask == best.value.1 > 0
        invariant forall k :: k in table.Keys - todo && Matches(table, k, ip) ==> k.1 <= mask
      {
        var k :| k in todo;
        todo := todo - {k};
        var route := table[k];
        MatchIsMaskTest(table, k, ip);
        if Some(ApplyMask(ip, route.mask)) == route.dst {
          if mask < route.mask {
            best, mask := Some(k), route.mask;
          }
        }
      }
    }

    /** Longest-prefix match: the matching route with the greatest prefix length, whatever
        the order in which routes are visited. */
    method GetByDestination(ip: Ip) returns (r: Option<Route>)
      requires Valid()
      ensures forall k :: IsBest(table, k, ip) ==> r == Some(table[k])
      ensures r.Some? <==> exists k :: IsBest(table, k, ip)
    {
      BestIsUnique(table, ip);
      var best := LongestMatch(ip);
      if best.Some? {
        return Some(table[best.value]);
      }
      forall k | k in table && k.1 == 0 ensures k == DEFAULT_ROUTE {
        EmptyMask(k.0);
      }
      if DEFAULT_ROUTE in table {
        assert IsBest(table, DEFAULT_ROUTE, ip);
        return Some(table[DEFAULT_ROUTE]);
      }
      return None;
    }
  }

  ghost predicate IsGateway(t: Table, g: Ip) {
    exists k :: k in t && t[k].gateway == g
  }

  ghost predicate IsBest(t: Table, k: Key, ip: Ip)
    requires Sound(t)
  {
    && k in t && Matches(t, k, ip)
    && forall j :: j in t && Matches(t, j, ip) ==> j.1 <= k.1
  }

  /** Two routes of the same length that contain the same address are the same route. */
  lemma BestIsUnique(t: Table, ip: Ip)
    requires Sound(t)
    ensures forall j, k :: IsBest(t, j, ip) && IsBest(t, k, ip) ==> j == k
  {
    forall j, k | IsBest(t, j, ip) && IsBest(t, k, ip) ensures j == k {
      MatchIsMaskTest(t, j, ip);
      MatchIsMaskTest(t, k, ip);
    }
  }

  lemma MatchIsMaskTest(t: Table, k: Key, ip: Ip)
    requires Sound(t) && k in t
    ensures Matches(t, k, ip) <==> ApplyMask(ip, k.1) == k.0
  {
    MaskTestIff(ip, k.0, k.1);
  }

  /** The network of length zero is the one of the default route. */
  lemma EmptyMask(ip: Ip)
    ensures ApplyMask(ip, 0) == ANY
  {
    MaskingKeepsPrefix(ip, 0);
  }

  // ---------------------------------------------------------------- flow priorities

  const VLAN_SHIFT := 1000
  const NETMASK_SHIFT := 32

  const DEFAULT_ROUTING := 1
  const STATIC_ROUTING := 2
  const IMPLICIT_ROUTING := 3
  const L2_SWITCHING := 4
  const IP_HANDLING := 5

  datatype PriorityType = Level(level: nat) | OfRoute(route: Route)

  function GetPriority(t: PriorityType, vid: nat): nat {
    var level := match t
      case Level(l) => l
      case OfRoute(r) => if r.dst.Some? then STATIC_ROUTING else DEFAULT_ROUTING;
    var base := if t.OfRoute? && t.route.dst.Some? then level + t.route.mask else level;
    base + (if vid != 0 || level == IP_HANDLING then VLAN_SHIFT else 0)
         + (if level > STATIC_ROUTING then NETMASK_SHIFT else 0)
  }

  /** The packets that a route's flow matches on the switch. */
  predicate FlowMatches(r: Route, ip: Ip)
    requires r.mask <= 32
  {
    r.dst.None? || ApplyMask(ip, r.mask) == r.dst.value
  }

  lemma PriorityRanksByLength(t: Table, j: Key, k: Key, vid: nat)
    requires Sound(t) && j in t && k in t && j.1 < k.1
    ensures GetPriority(OfRoute(t[j]), vid) < GetPriority(OfRoute(t[k]), vid)
  {
  }

  lemma FlowMatchesAreMatches(t: Table, k: Key, ip: Ip)
    requires Sound(t) && k in t
    ensures FlowMatches(t[k], ip) <==> Matches(t, k, ip)
  {
    MatchIsMaskTest(t, k, ip);
    EmptyMask(ip);
  }

  /** The switch and the routing table choose the same route: among the flows that match a
      packet, the one of the longest matching route has the strictly highest priority. */
  lemma LookupAgreesWithPriorities(t: Table, k: Key, ip: Ip, vid: nat)
    requires Sound(t) && k in t
    ensures IsBest(t, k, ip) <==>
            && FlowMatches(t[k], ip)
            && forall j :: j in t && j != k && FlowMatches(t[j], ip) ==>
                 GetPriority(OfRoute(t[j]), vid) < GetPriority(OfRoute(t[k]), vid)
  {
    FlowMatchesAreMatches(t, k, ip);
    forall j: Key | j in t && j != k && FlowMatches(t[j], ip) && Matches(t, k, ip)
      ensures Matches(t, j, ip) && j.1 != k.1
      ensures j.1 < k.1 <==> GetPriority(OfRoute(t[j]), vid) < GetPriority(OfRoute(t[k]), vid)
    {
      FlowMatchesAreMatches(t, j, ip);
      MatchIsMaskTest(t, j, ip);
      MatchIsMaskTest(t, k, ip);
      if j.1 < k.1 {
        PriorityRanksByLength(t, j, k, vid);
      } else {
        PriorityRanksByLength(t, k, j, vid);
      }
    }
    forall j: Key | j in t && Matches(t, j, ip) ensures FlowMatches(t[j], ip) {
      FlowMatchesAreMatches(t, j, ip);
    }
  }

  /** Flows of a VLAN outrank all flows without VLAN, except those for packets to the router
      itself, which rank the same and highest for all. */
  lemma VlanFlowsOutrank(t: PriorityType, u: PriorityType, vid: nat)
    requires vid != 0 && (if t.Level? then t.level < IP_HANDLING else t.route.mask <= 32)
    requires if u.Level? then u.level < IP_HANDLING else u.route.mask <= 32
    ensures GetPriority(t, 0) < 1000 <= GetPriority(u, vid) == GetPriority(u, 0) + 1000
    ensures GetPriority(u, vid) < GetPriority(Level(IP_HANDLING), vid) == GetPriority(Level(IP_HANDLING), 0) == 1037
  {
  }

  /** Static routes rank by prefix length, above the default route and below the flows that
      the router installs for hosts, of the same VLAN. */
  lemma StaticPrioritiesAreBetween(r: Route, s: Route, vid: nat)
    requires r.dst.Some? && s.dst.Some? && r.mask <= 32 && s.mask <= 32
    ensures r.mask < s.mask <==> GetPriority(OfRoute(r), vid) < GetPriority(OfRoute(s), vid)
    ensures GetPriority(Level(DEFAULT_ROUTING), vid) < GetPriority(OfRoute(r), vid)
            < GetPriority(Level(IMPLICIT_ROUTING), vid)
    ensures GetPriority(Level(IMPLICIT_ROUTING), vid) < GetPriority(Level(L2_SWITCHING), vid)
            < GetPriority(Level(IP_HANDLING), vid)
  {
  }
}
