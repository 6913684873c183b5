/** Flow cookies of the REST router: which flow belongs to which VLAN, address or route,
    and which flows a deletion picks. */
module RouterCookies {
  import RouterAddresses

  const SHIFT_VLAN: nat := 0x1_0000_0000
  const SHIFT_ROUTE: nat := 0x1_0000
  const UINT16_MAX: nat := 0xffff

  datatype Owner = VlanDefault(vlan: nat) | OfAddress(vlan: nat, id: nat) | OfRoute(vlan: nat, id: nat)

  /** The cookie of a flow installed by the router of a VLAN. */
  function CookieOf(o: Owner): nat {
    match o
    case VlanDefault(v) => v * SHIFT_VLAN
    case OfAddress(v, id) => v * SHIFT_VLAN + id
    case OfRoute(v, id) => v * SHIFT_VLAN + id * SHIFT_ROUTE
  }

  function VlanId(cookie: nat): nat { cookie / SHIFT_VLAN }

  function AddressId(cookie: nat): nat { cookie % SHIFT_VLAN }

  function RouteId(cookie: nat): nat { cookie % SHIFT_VLAN / SHIFT_ROUTE }

  /** Identifiers as long as they fit the field that the cookie has for them. */
  predicate Fits(o: Owner) {
    o.VlanDefault? || 1 <= o.id <= UINT16_MAX
  }

  lemma DecodeAddress(v: nat, id: nat)
    requires id < SHIFT_VLAN
    ensures VlanId(CookieOf(OfAddress(v, id))) == v && AddressId(CookieOf(OfAddress(v, id))) == id
    ensures RouteId(CookieOf(OfAddress(v, id))) == id / SHIFT_ROUTE
  {
  }

  /** A route identifier beyond 16 bits spills into the VLAN. */
  lemma DecodeRoute(v: nat, id: nat)
    ensures VlanId(CookieOf(OfRoute(v, id))) == v + id / SHIFT_ROUTE
    ensures AddressId(CookieOf(OfRoute(v, id))) == id % SHIFT_ROUTE * SHIFT_ROUTE
    ensures RouteId(CookieOf(OfRoute(v, id))) == id % SHIFT_ROUTE
  {
  }

  /** Decoding inverts encoding for a route exactly up to 16 bits of identifier; the counter
      that hands out identifiers goes on to 32 bits. */
  lemma RouteDecodesIffItFits(v: nat, id: nat)
    ensures RouteId(CookieOf(OfRoute(v, id))) == id && VlanId(CookieOf(OfRoute(v, id))) == v <==> id <= 0xffff
  {
    DecodeRoute(v, id);
  }

  /** Identifiers that the counters hand out. */
  predicate Issued(o: Owner) {
    o.VlanDefault? || 1 <= o.id <= RouterAddresses.UINT32_MAX
  }

  /** The VLAN and the number of an address that a cookie seems to name. */
  function SeemingVlan(o: Owner): nat {
    if o.OfRoute? then o.vlan + o.id / SHIFT_ROUTE else o.vlan
  }

  function SeemingAddress(o: Owner): nat {
    match o
    case VlanDefault(_) => 0
    case OfAddress(_, id) => id
    case OfRoute(_, id) => id % SHIFT_ROUTE * SHIFT_ROUTE
  }

  lemma DecodeIssued(o: Owner)
    requires Issued(o)
    ensures VlanId(CookieOf(o)) == SeemingVlan(o) && AddressId(CookieOf(o)) == SeemingAddress(o)
    ensures RouteId(CookieOf(o)) == SeemingAddress(o) / SHIFT_ROUTE
  {
    match o
    case VlanDefault(v) => DecodeAddress(v, 0);
    case OfAddress(v, id) => DecodeAddress(v, id);
    case OfRoute(v, id) => DecodeRoute(v, id);
  }

  /** Which owners have equal cookies, besides an owner and itself: a route and the address that
      its number spells when moved up by 16 bits, and route numbers of more than 16 bits, which
      run over into a higher VLAN. */
  predicate Shares(o: Owner, p: Owner) {
    match (o, p)
    case (OfAddress(v, a), OfRoute(w, r)) => v == w + r / SHIFT_ROUTE && a == r % SHIFT_ROUTE * SHIFT_ROUTE
    case (OfRoute(w, r), OfAddress(v, a)) => v == w + r / SHIFT_ROUTE && a == r % SHIFT_ROUTE * SHIFT_ROUTE
    case (VlanDefault(v), OfRoute(w, r)) => v == w + r / SHIFT_ROUTE && r % SHIFT_ROUTE == 0
    case (OfRoute(w, r), VlanDefault(v)) => v == w + r / SHIFT_ROUTE && r % SHIFT_ROUTE == 0
    case (OfRoute(v, q), OfRoute(w, r)) => v * SHIFT_ROUTE + q == w * SHIFT_ROUTE + r
    case _ => o == p
  }

  lemma CookiesShareIff(o: Owner, p: Owner)
    requires Issued(o) && Issued(p)
    ensures CookieOf(o) == CookieOf(p) <==> Shares(o, p)
  {
    DecodeIssued(o);
    DecodeIssued(p);
  }

  /** A route that fits shares its cookie with one address of its VLAN. */
  lemma AddressSharesWithRouteIff(v: nat, a: nat, w: nat, r: nat)
    requires 1 <= a <= 0xffff_ffff && 1 <= r <= 0xffff
    ensures CookieOf(OfAddress(v, a)) == CookieOf(OfRoute(w, r)) <==> v == w && a == r * 0x1_0000
  {
    CookiesShareIff(OfAddress(v, a), OfRoute(w, r));
  }

  /** No two flows of different owners share a cookie, as long as identifiers fit. */
  lemma CookiesAreDistinct(o: Owner, p: Owner)
    requires Fits(o) && Fits(p)
    ensures CookieOf(o) == CookieOf(p) <==> o == p
  {
  }

  /** What the three decoders see in the cookie of an owner. */
  lemma Decode(o: Owner)
    requires Fits(o)
    ensures VlanId(CookieOf(o)) == o.vlan == CookieOf(o) / 0x1_0000_0000
    ensures AddressId(CookieOf(o)) ==
            match o { case VlanDefault(_) => 0 case OfAddress(_, id) => id case OfRoute(_, id) => id * SHIFT_ROUTE }
    ensures RouteId(CookieOf(o)) == if o.OfRoute? then o.id else 0
  {
  }

  // ---------------------------------------------------------------- picking flows to delete

  datatype Selector = All | One(id: int)

  predicate PicksAddress(vlan: nat, sel: Selector, skip: set<nat>, cookie: nat) {
    && VlanId(cookie) == vlan
    && AddressId(cookie) !in skip
    && match sel
       case All => 0 < AddressId(cookie) <= UINT16_MAX
       case One(id) => id == AddressId(cookie)
  }

  predicate PicksRoute(vlan: nat, sel: Selector, cookie: nat) {
    && VlanId(cookie) == vlan
    && match sel
       case All => RouteId(cookie) != 0
       case One(id) => id == RouteId(cookie)
  }

  /** The owners that a deletion of addresses, or of routes, is meant for. */
  predicate WantedAddress(vlan: nat, sel: Selector, skip: set<nat>, o: Owner) {
    o.OfAddress? && o.vlan == vlan && o.id !in skip && (sel == All || sel == One(o.id))
  }

  predicate WantedRoute(vlan: nat, sel: Selector, o: Owner) {
    o.OfRoute? && o.vlan == vlan && (sel == All || sel == One(o.id))
  }

  /** A request for this identifier would hit flows that no address owns. */
  predicate Misdirected(sel: Selector) {
    sel.One? && 0 <= sel.id < SHIFT_VLAN && sel.id % SHIFT_ROUTE == 0
  }

  /** A flow that a deletion of addresses leaves behind: all are to go, but its identifier does
      not look like that of an address. */
  predicate LeftBehind(vlan: nat, sel: Selector, skip: set<nat>, o: Owner) {
    o.OfAddress? && o.vlan == vlan && sel == All && o.id > UINT16_MAX && o.id !in skip
  }

  /** A flow of another owner that a deletion of one address takes along. */
  predicate TakenAlong(vlan: nat, sel: Selector, skip: set<nat>, o: Owner) {
    match o
    case VlanDefault(v) => v == vlan && sel == One(0) && 0 !in skip
    case OfAddress(_, _) => false
    case OfRoute(v, id) =>
      var number := id % SHIFT_ROUTE * SHIFT_ROUTE;
      v + id / SHIFT_ROUTE == vlan && sel == One(number) && number !in skip
  }

  /** For every flow with an identifier the counters can hand out: the deletion of addresses is
      right about it exactly when the flow is neither left behind nor taken along. */
  lemma AddressDeletionIsRightIff(vlan: nat, sel: Selector, skip: set<nat>, o: Owner)
    requires Issued(o)
    ensures (PicksAddress(vlan, sel, skip, CookieOf(o)) <==> WantedAddress(vlan, sel, skip, o))
            <==> !LeftBehind(vlan, sel, skip, o) && !TakenAlong(vlan, sel, skip, o)
  {
    DecodeIssued(o);
  }

  /** A flow that a deletion of routes takes along: the default flow under number zero, an
      address whose number runs over into the route's half, or a route of a lower VLAN whose
      number runs over into this one. */
  predicate RouteTakenAlong(vlan: nat, sel: Selector, o: Owner) {
    match o
    case VlanDefault(v) => v == vlan && sel == One(0)
    case OfAddress(v, id) => v == vlan && if sel == All then id > UINT16_MAX else sel == One(id / SHIFT_ROUTE)
    case OfRoute(v, id) =>
      && id > UINT16_MAX && v + id / SHIFT_ROUTE == vlan
      && if sel == All then id % SHIFT_ROUTE != 0 else sel == One(id % SHIFT_ROUTE)
  }

  /** For every flow with an identifier the counters can hand out: the deletion of routes is
      right about it exactly when it is not a wanted route of more than 16 bits, which is
      never found, and is not taken along. */
  lemma RouteDeletionIsRightIff(vlan: nat, sel: Selector, o: Owner)
    requires Issued(o)
    ensures (PicksRoute(vlan, sel, CookieOf(o)) <==> WantedRoute(vlan, sel, o))
            <==> !(WantedRoute(vlan, sel, o) && o.id > UINT16_MAX) && !RouteTakenAlong(vlan, sel, o)
  {
    DecodeIssued(o);
  }

  /** Deleting addresses picks flows of that kind, of that VLAN and with the wanted
      identifier, and nothing else, exactly when the request is not misdirected. */
  lemma AddressDeletionIsExactIff(vlan: nat, sel: Selector, skip: set<nat>)
    requires 0 !in skip && forall id :: id in skip ==> id % SHIFT_ROUTE != 0
    ensures (forall o :: Fits(o) ==>
               (PicksAddress(vlan, sel, skip, CookieOf(o)) <==> WantedAddress(vlan, sel, skip, o)))
            <==> !Misdirected(sel)
  {
    if Misdirected(sel) {
      var o := if sel.id == 0 then VlanDefault(vlan) else OfRoute(vlan, sel.id / SHIFT_ROUTE);
      Decode(o);
      assert Fits(o) && PicksAddress(vlan, sel, skip, CookieOf(o));
    } else {
      forall o | Fits(o)
        ensures PicksAddress(vlan, sel, skip, CookieOf(o)) <==> WantedAddress(vlan, sel, skip, o)
      {
        Decode(o);
      }
    }
  }

  /** Deleting routes picks exactly the wanted routes, unless identifier zero is asked for. */
  lemma RouteDeletionIsExactIff(vlan: nat, sel: Selector)
    ensures (forall o :: Fits(o) ==> (PicksRoute(vlan, sel, CookieOf(o)) <==> WantedRoute(vlan, sel, o)))
            <==> sel != One(0)
  {
    if sel == One(0) {
      Decode(VlanDefault(vlan));
      assert Fits(VlanDefault(vlan)) && PicksRoute(vlan, sel, CookieOf(VlanDefault(vlan)));
    } else {
      forall o | Fits(o) ensures PicksRoute(vlan, sel, CookieOf(o)) <==> WantedRoute(vlan, sel, o) {
        Decode(o);
      }
    }
  }
}
