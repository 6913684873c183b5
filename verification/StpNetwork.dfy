/** Networks of bridges joined by point-to-point links, and what every stable
    configuration of such a network guarantees. */
module StpNetwork {
  import opened Options
  import opened BpduOrder
  import opened StpPort
  import opened StpElection

  /** A port of the network: bridge identifier and port number. */
  datatype End = End(bridge: nat, port: nat)

  datatype Network = Network(bridges: map<nat, BridgeView>, peer: map<End, End>)

  function PortAt(net: Network, e: End): PortView
    requires e.bridge in net.bridges && e.port in net.bridges[e.bridge].ports
  {
    net.bridges[e.bridge].ports[e.port]
  }

  ghost predicate IsLink(net: Network, e: End)
  {
    && e in net.peer
    && e.bridge in net.bridges && e.port in net.bridges[e.bridge].ports
    && PortAt(net, e).InService()
  }

  ghost predicate LinkSound(net: Network, e: End)
    requires e in net.peer
  {
    && IsLink(net, e) && IsLink(net, net.peer[e])
    && net.peer[net.peer[e]] == e
    && net.peer[e] != e
    && (net.peer[e].bridge == e.bridge ==> PortAt(net, net.peer[e]).portId != PortAt(net, e).portId)
    && PortAt(net, e).pathCost > 0
  }

  /** Bridges have distinct identifiers; links join two different ports, possibly of one bridge,
      which then have different identifiers, and have a positive cost at each end. */
  ghost predicate WellFormed(net: Network) {
    && (forall b :: b in net.bridges ==> net.bridges[b].id == b)
    && (forall e :: e in net.peer ==> LinkSound(net, e))
  }

  function RootAt(net: Network, b: nat): nat
    requires b in net.bridges
  {
    net.bridges[b].root.Root()
  }

  function CostAt(net: Network, b: nat): int
    requires b in net.bridges
  {
    net.bridges[b].root.Cost()
  }

  /** The configuration BPDU that a port transmits. */
  function Transmitted(net: Network, e: End): Vector
    requires e.bridge in net.bridges && e.port in net.bridges[e.bridge].ports
  {
    var p := PortAt(net, e);
    Vector(p.priority.Root(), p.priority.Cost() + p.pathCost, e.bridge, p.portId)
  }

  predicate Designated(net: Network, e: End)
    requires e.bridge in net.bridges && e.port in net.bridges[e.bridge].ports
  {
    PortAt(net, e).role == DesignatedPort
  }

  /** A port that is in service and expects BPDUs from the far end. */
  ghost predicate Waits(net: Network, e: End) {
    && e.bridge in net.bridges && e.port in net.bridges[e.bridge].ports
    && PortAt(net, e).InService()
    && PortAt(net, e).role != DesignatedPort
  }

  /** Nothing is left to happen: every bridge has elected on what its ports hold; the far
      end of a transmitting port holds what that port transmits; and a port that waits for
      BPDUs is served by a transmitting port, or its timer would start a recalculation. */
  ghost predicate Stable(net: Network, rp: map<nat, Option<nat>>)
    requires WellFormed(net)
  {
    && rp.Keys == net.bridges.Keys
    && (forall b {:trigger Settled(net, rp, b)} :: b in net.bridges ==> Settled(net, rp, b))
    && (forall e {:trigger Informed(net, e)} :: e in net.peer ==> Informed(net, e))
    && (forall e: End :: Waits(net, e) ==> e in net.peer && Designated(net, net.peer[e]))
  }

  ghost predicate Settled(net: Network, rp: map<nat, Option<nat>>, b: nat) {
    b in net.bridges && b in rp && ElectedBy(net.bridges[b], rp[b])
  }

  ghost predicate Informed(net: Network, e: End)
    requires WellFormed(net) && e in net.peer
  {
    Designated(net, net.peer[e]) ==> PortAt(net, e).held == Some(Transmitted(net, net.peer[e]))
  }

  // ---------------------------------------------------------------- one link

  /** What a link served from its far end says about the two bridges. */
  lemma ServedLink(net: Network, rp: map<nat, Option<nat>>, e: End)
    requires WellFormed(net) && Stable(net, rp)
    requires e in net.peer && Designated(net, net.peer[e])
    ensures PortAt(net, e).held == Some(Vector(RootAt(net, net.peer[e].bridge),
                                               CostAt(net, net.peer[e].bridge) + PortAt(net, net.peer[e]).pathCost,
                                               net.peer[e].bridge, PortAt(net, net.peer[e]).portId))
    ensures Holds(net.bridges[e.bridge].ports, e.port)
  {
    var d := net.peer[e];
    assert Informed(net, e) && Settled(net, rp, d.bridge);
    TransmitsRoot(net, d, rp[d.bridge]);
  }

  lemma TransmitsRoot(net: Network, d: End, rp: Option<nat>)
    requires d.bridge in net.bridges && d.port in net.bridges[d.bridge].ports && PortAt(net, d).InService()
    requires ElectedBy(net.bridges[d.bridge], rp)
    ensures Transmitted(net, d) == Vector(RootAt(net, d.bridge), CostAt(net, d.bridge) + PortAt(net, d).pathCost,
                                          d.bridge, PortAt(net, d).portId)
  {
  }

  // ---------------------------------------------------------------- costs

  /** A bridge that follows another root is one link further from it than its root port's peer. */
  lemma ParentLink(net: Network, rp: map<nat, Option<nat>>, b: nat)
    requires WellFormed(net) && Stable(net, rp) && b in net.bridges && rp[b].Some?
    ensures var e := End(b, rp[b].value);
            && e in net.peer
            && Designated(net, net.peer[e])
            && RootAt(net, b) == RootAt(net, net.peer[e].bridge)
            && CostAt(net, b) == CostAt(net, net.peer[e].bridge) + PortAt(net, net.peer[e]).pathCost
  {
    var e := End(b, rp[b].value);
    assert Settled(net, rp, b);
    ElectionHasOneRootPort(net.bridges[b], rp[b]);
    assert Waits(net, e);
    ServedLink(net, rp, e);
    ElectionAtPort(net.bridges[b], rp[b], e.port);
  }

  /** Some bridge of a nonempty set has the least cost. */
  lemma {:induction false} LeastCost(net: Network, s: set<nat>) returns (m: nat)
    requires s <= net.bridges.Keys && s != {}
    ensures m in s && forall b :: b in s ==> CostAt(net, m) <= CostAt(net, b)
    decreases |s|
  {
    m :| m in s;
    if s != {m} {
      var k := LeastCost(net, s - {m});
      if CostAt(net, k) < CostAt(net, m) {
        m := k;
      }
    }
  }

  lemma CostsAreNonNegative(net: Network, rp: map<nat, Option<nat>>)
    requires WellFormed(net) && Stable(net, rp)
    ensures forall b :: b in net.bridges ==> CostAt(net, b) >= 0
  {
    if net.bridges.Keys != {} {
      var m := LeastCost(net, net.bridges.Keys);
      if rp[m].Some? {
        ParentLink(net, rp, m);
      } else {
        assert Settled(net, rp, m);
        ElectionHasOneRootPort(net.bridges[m], rp[m]);
      }
    }
  }

  /** The sender of a BPDU adds the cost of its own port and the receiver subtracts the cost
      of its own. The root serves all its links whatever it holds, so the two ends of such a
      link agree on who serves it only if the root's end is not charged too much, and never if
      both ends are the root's. */
  ghost predicate LinkBalanced(net: Network, e: End)
    requires WellFormed(net) && e in net.peer
  {
    var d := net.peer[e];
    RootAt(net, d.bridge) == d.bridge ==>
      && e.bridge != d.bridge
      && PortAt(net, d).pathCost <= CostAt(net, e.bridge) + PortAt(net, e).pathCost
  }

  ghost predicate Balanced(net: Network)
    requires WellFormed(net)
  {
    forall e :: e in net.peer ==> LinkBalanced(net, e)
  }

  /** Links that cost the same at both ends are balanced unless a root is cabled to itself. */
  lemma EqualCostsAreBalanced(net: Network, rp: map<nat, Option<nat>>)
    requires WellFormed(net) && Stable(net, rp)
    requires forall e :: e in net.peer ==> PortAt(net, e).pathCost == PortAt(net, net.peer[e]).pathCost
    ensures Balanced(net) <==>
              forall e :: e in net.peer && net.peer[e].bridge == e.bridge ==> RootAt(net, e.bridge) != e.bridge
  {
    CostsAreNonNegative(net, rp);
    if e :| e in net.peer && net.peer[e].bridge == e.bridge && RootAt(net, e.bridge) == e.bridge {
      assert !LinkBalanced(net, e);
    }
  }

  /** A link is served from exactly one end if and only if it is balanced. */
  lemma OneDesignatedEndIffBalanced(net: Network, rp: map<nat, Option<nat>>, e: End)
    requires WellFormed(net) && Stable(net, rp) && e in net.peer
    ensures Designated(net, e) || Designated(net, net.peer[e])
    ensures (Designated(net, e) <==> !Designated(net, net.peer[e]))
            <==> LinkBalanced(net, e) && LinkBalanced(net, net.peer[e])
  {
    var d := net.peer[e];
    assert Designated(net, e) || Waits(net, e);
    if Designated(net, e) && Designated(net, d) {
      BothEndsServe(net, rp, e);
    } else {
      OneEndServes(net, rp, if Designated(net, e) then d else e);
    }
  }

  lemma BothEndsServe(net: Network, rp: map<nat, Option<nat>>, e: End)
    requires WellFormed(net) && Stable(net, rp) && e in net.peer
    requires Designated(net, e) && Designated(net, net.peer[e])
    ensures !LinkBalanced(net, e) || !LinkBalanced(net, net.peer[e])
  {
    var d := net.peer[e];
    ServedLink(net, rp, e);
    ServedLink(net, rp, d);
    assert Settled(net, rp, e.bridge);
    ElectionAtPort(net.bridges[e.bridge], rp[e.bridge], e.port);
    assert Settled(net, rp, d.bridge);
    ElectionAtPort(net.bridges[d.bridge], rp[d.bridge], d.port);
    ElectionHasOneRootPort(net.bridges[e.bridge], rp[e.bridge]);
    ElectionHasOneRootPort(net.bridges[d.bridge], rp[d.bridge]);
  }

  lemma OneEndServes(net: Network, rp: map<nat, Option<nat>>, e: End)
    requires WellFormed(net) && Stable(net, rp) && e in net.peer
    requires !Designated(net, e) && Designated(net, net.peer[e])
    ensures LinkBalanced(net, e) && LinkBalanced(net, net.peer[e])
  {
    ServedLink(net, rp, e);
    assert Settled(net, rp, e.bridge);
    ElectionAtPort(net.bridges[e.bridge], rp[e.bridge], e.port);
    ElectionHasOneRootPort(net.bridges[e.bridge], rp[e.bridge]);
    assert Settled(net, rp, net.peer[e].bridge);
    ElectionHasOneRootPort(net.bridges[net.peer[e].bridge], rp[net.peer[e].bridge]);
  }

  /** Neighbours believe in the same root, and neither is further from it than through the other. */
  lemma LinkBounds(net: Network, rp: map<nat, Option<nat>>, e: End)
    requires WellFormed(net) && Stable(net, rp) && e in net.peer
    ensures RootAt(net, e.bridge) == RootAt(net, net.peer[e].bridge)
    ensures CostAt(net, e.bridge) <= CostAt(net, net.peer[e].bridge) + PortAt(net, net.peer[e]).pathCost
  {
    OneDesignatedEndIffBalanced(net, rp, e);
    CostsAreNonNegative(net, rp);
    if Designated(net, e) {
      ServedBounds(net, rp, net.peer[e]);
    }
    if Designated(net, net.peer[e]) {
      ServedBounds(net, rp, e);
    }
  }

  /** What a served bridge concludes: a root no worse than its server's and, if that is also
      its server's root, a cost no higher than through the server; a port that does not serve
      back settles both. */
  lemma ServedBounds(net: Network, rp: map<nat, Option<nat>>, e: End)
    requires WellFormed(net) && Stable(net, rp) && e in net.peer && Designated(net, net.peer[e])
    ensures var d := net.peer[e];
            && RootAt(net, e.bridge) <= RootAt(net, d.bridge)
            && (RootAt(net, e.bridge) == RootAt(net, d.bridge) ==>
                  CostAt(net, e.bridge) <= CostAt(net, d.bridge) + PortAt(net, d).pathCost)
            && (!Designated(net, e) ==>
                  && RootAt(net, e.bridge) == RootAt(net, d.bridge)
                  && CostAt(net, d.bridge) <= CostAt(net, e.bridge) + PortAt(net, e).pathCost)
  {
    CostsAreNonNegative(net, rp);
    ServedLink(net, rp, e);
    assert Settled(net, rp, e.bridge);
    ElectionAtPort(net.bridges[e.bridge], rp[e.bridge], e.port);
    ElectionHasOneRootPort(net.bridges[e.bridge], rp[e.bridge]);
  }

  // ---------------------------------------------------------------- walks

  /** `w` leads from `a` to `z` along links, each named by the end it is left from. */
  ghost predicate IsWalk(net: Network, a: nat, w: seq<End>, z: nat)
    requires WellFormed(net)
    decreases |w|
  {
    if w == [] then a == z
    else w[0] in net.peer && w[0].bridge == a && IsWalk(net, net.peer[w[0]].bridge, w[1..], z)
  }

  /** Each hop is charged at the end nearer the destination, as BPDUs charge it. */
  ghost function Length(net: Network, a: nat, w: seq<End>, z: nat): int
    requires WellFormed(net) && IsWalk(net, a, w, z)
    decreases |w|
  {
    if w == [] then 0
    else PortAt(net, net.peer[w[0]]).pathCost + Length(net, net.peer[w[0]].bridge, w[1..], z)
  }

  ghost predicate Connected(net: Network)
    requires WellFormed(net)
  {
    forall a, b :: a in net.bridges && b in net.bridges ==> exists w :: IsWalk(net, a, w, b)
  }

  lemma {:induction false} WalkBounds(net: Network, rp: map<nat, Option<nat>>, a: nat, w: seq<End>, z: nat)
    requires WellFormed(net) && Stable(net, rp) && a in net.bridges && IsWalk(net, a, w, z)
    ensures z in net.bridges && RootAt(net, a) == RootAt(net, z)
    ensures CostAt(net, a) <= Length(net, a, w, z) + CostAt(net, z)
    decreases |w|
  {
    if w != [] {
      LinkBounds(net, rp, w[0]);
      WalkBounds(net, rp, net.peer[w[0]].bridge, w[1..], z);
    }
  }

  /** Following root ports from `b`: the cost falls at every hop, so the path ends, and it
      ends at the root with exactly the believed cost. */
  ghost function TreePath(net: Network, rp: map<nat, Option<nat>>, b: nat): (w: seq<End>)
    requires WellFormed(net) && Stable(net, rp) && b in net.bridges
    ensures IsWalk(net, b, w, RootAt(net, b))
    ensures Length(net, b, w, RootAt(net, b)) == CostAt(net, b)
    ensures forall e :: e in w ==> e.bridge in rp && rp[e.bridge] == Some(e.port)
    decreases CostAt(net, b)
  {
    CostsAreNonNegative(net, rp);
    assert Settled(net, rp, b);
    ElectionHasOneRootPort(net.bridges[b], rp[b]);
    if rp[b].None? then []
    else
      ParentLink(net, rp, b);
      var e := End(b, rp[b].value);
      [e] + TreePath(net, rp, net.peer[e].bridge)
  }

  /** No bridge that a walk leads to has a smaller identifier. */
  ghost predicate LeastReachable(net: Network, b: nat)
    requires WellFormed(net)
  {
    forall w, c :: IsWalk(net, b, w, c) ==> b <= c
  }

  /** A bridge believes itself root exactly when it is the least that walks lead to. */
  lemma OwnRootIffLeast(net: Network, rp: map<nat, Option<nat>>, b: nat)
    requires WellFormed(net) && Stable(net, rp) && b in net.bridges
    ensures RootAt(net, b) == b <==> LeastReachable(net, b)
  {
    if RootAt(net, b) == b {
      forall w, c | IsWalk(net, b, w, c) ensures b <= c {
        WalkBounds(net, rp, b, w, c);
        assert Settled(net, rp, c);
        ElectionHasOneRootPort(net.bridges[c], rp[c]);
      }
    } else {
      var path := TreePath(net, rp, b);
      assert IsWalk(net, b, path, RootAt(net, b));
      assert Settled(net, rp, b);
      ElectionHasOneRootPort(net.bridges[b], rp[b]);
    }
  }

  /** All bridges of a connected network agree on one root: the bridge with the least identifier. */
  lemma AgreeOnLeastBridge(net: Network, rp: map<nat, Option<nat>>, b: nat)
    requires WellFormed(net) && Stable(net, rp) && Connected(net) && b in net.bridges
    ensures RootAt(net, b) in net.bridges
    ensures forall c :: c in net.bridges ==> RootAt(net, c) == RootAt(net, b) <= c
  {
    WalkBounds(net, rp, b, TreePath(net, rp, b), RootAt(net, b));
    forall c | c in net.bridges ensures RootAt(net, c) == RootAt(net, b) <= c {
      var w :| IsWalk(net, b, w, c);
      WalkBounds(net, rp, b, w, c);
      assert Settled(net, rp, c);
      ElectionHasOneRootPort(net.bridges[c], rp[c]);
    }
  }

  /** The believed cost is the length of a shortest path to the root. */
  lemma CostIsShortestPath(net: Network, rp: map<nat, Option<nat>>, b: nat)
    requires WellFormed(net) && Stable(net, rp) && b in net.bridges
    ensures exists w :: IsWalk(net, b, w, RootAt(net, b)) && Length(net, b, w, RootAt(net, b)) == CostAt(net, b)
    ensures forall w :: IsWalk(net, b, w, RootAt(net, b)) ==> CostAt(net, b) <= Length(net, b, w, RootAt(net, b))
  {
    var r := RootAt(net, b);
    var path := TreePath(net, rp, b);
    WalkBounds(net, rp, b, path, r);
    assert Settled(net, rp, r);
    ElectionHasOneRootPort(net.bridges[r], rp[r]);
    forall w | IsWalk(net, b, w, r) ensures CostAt(net, b) <= Length(net, b, w, r) {
      WalkBounds(net, rp, b, w, r);
    }
  }

  // ---------------------------------------------------------------- no loops

  /** Frames may cross this link: neither end is blocked by its role. */
  predicate Carries(net: Network, e: End)
    requires WellFormed(net) && e in net.peer
  {
    PortAt(net, e).role != NonDesignatedPort && PortAt(net, net.peer[e]).role != NonDesignatedPort
  }

  ghost predicate IsLoop(net: Network, w: seq<End>)
    requires WellFormed(net)
  {
    && w != []
    && (forall i :: 0 <= i < |w| ==> w[i] in net.peer && Carries(net, w[i]))
    && (forall i :: 0 <= i < |w| ==> w[Next(i, |w|)].bridge == net.peer[w[i]].bridge)
  }

  function Next(i: nat, n: nat): nat
    requires i < n
  {
    if i + 1 == n then 0 else i + 1
  }

  /** The hop of a loop that leaves the bridge furthest from the root. */
  lemma {:induction false} FurthestHop(net: Network, w: seq<End>, n: nat) returns (i: nat)
    requires WellFormed(net) && 0 < n <= |w| && forall k :: 0 <= k < n ==> w[k] in net.peer
    ensures i < n && forall k :: 0 <= k < n ==> CostAt(net, w[k].bridge) <= CostAt(net, w[i].bridge)
  {
    if n == 1 {
      i := 0;
    } else {
      i := FurthestHop(net, w, n - 1);
      if CostAt(net, w[i].bridge) < CostAt(net, w[n - 1].bridge) {
        i := n - 1;
      }
    }
  }

  /** A carrying link is the root port's link of the bridge at one end, which is then the
      further one. */
  lemma CarryingLink(net: Network, rp: map<nat, Option<nat>>, e: End)
    requires WellFormed(net) && Stable(net, rp) && Balanced(net) && e in net.peer && Carries(net, e)
    requires CostAt(net, net.peer[e].bridge) <= CostAt(net, e.bridge)
    ensures rp[e.bridge] == Some(e.port)
  {
    OneDesignatedEndIffBalanced(net, rp, e);
    var d := net.peer[e];
    assert Settled(net, rp, e.bridge);
    ElectionHasOneRootPort(net.bridges[e.bridge], rp[e.bridge]);
    assert Settled(net, rp, d.bridge);
    ElectionHasOneRootPort(net.bridges[d.bridge], rp[d.bridge]);
    if Designated(net, e) {
      ParentLink(net, rp, d.bridge);
    }
  }

  ghost predicate TurnsBack(net: Network, w: seq<End>)
    requires WellFormed(net) && IsLoop(net, w)
  {
    exists i :: 0 <= i < |w| && w[Next(i, |w|)] == net.peer[w[i]]
  }

  /** With balanced links no frame can travel in a circle: a closed walk over carrying links
      turns back on itself somewhere. */
  lemma BalancedLoopTurnsBack(net: Network, rp: map<nat, Option<nat>>, w: seq<End>)
    requires WellFormed(net) && Stable(net, rp) && Balanced(net) && IsLoop(net, w)
    ensures TurnsBack(net, w)
  {
    var j := FurthestHop(net, w, |w|);
    var i := if j == 0 then |w| - 1 else j - 1;
    assert Next(i, |w|) == j;
    CarryingLink(net, rp, w[j]) by {
      assert w[Next(j, |w|)].bridge == net.peer[w[j]].bridge;
    }
    CarryingLink(net, rp, net.peer[w[i]]);
  }

  /** A hop that leaves by a root port and arrives at a serving port. */
  ghost predicate RootHop(net: Network, e: End)
    requires WellFormed(net)
  {
    e in net.peer && PortAt(net, e).role == RootPort && Designated(net, net.peer[e])
  }

  /** `w` leads from `a` to `z` in such hops. */
  ghost predicate RootHops(net: Network, a: nat, w: seq<End>, z: nat)
    requires WellFormed(net)
  {
    && (if w == [] then a == z else w[0].bridge == a)
    && forall i :: 0 <= i < |w| ==> RootHopAt(net, w, i, z)
  }

  ghost predicate RootHopAt(net: Network, w: seq<End>, i: nat, z: nat)
    requires WellFormed(net) && i < |w|
  {
    RootHop(net, w[i]) && net.peer[w[i]].bridge == if i + 1 < |w| then w[i + 1].bridge else z
  }

  lemma FirstHop(net: Network, e: End, rest: seq<End>, z: nat)
    requires WellFormed(net) && RootHop(net, e) && RootHops(net, net.peer[e].bridge, rest, z)
    ensures RootHops(net, e.bridge, [e] + rest, z)
  {
    var w := [e] + rest;
    forall i | 0 <= i < |w| ensures RootHopAt(net, w, i, z) {
      assert i > 0 ==> RootHopAt(net, rest, i - 1, z);
    }
  }

  lemma {:induction false} TreePathHops(net: Network, rp: map<nat, Option<nat>>, b: nat)
    requires WellFormed(net) && Stable(net, rp) && b in net.bridges
    ensures RootHops(net, b, TreePath(net, rp, b), RootAt(net, b))
    decreases CostAt(net, b)
  {
    CostsAreNonNegative(net, rp);
    assert Settled(net, rp, b);
    ElectionHasOneRootPort(net.bridges[b], rp[b]);
    if rp[b].Some? {
      ParentLink(net, rp, b);
      var e := End(b, rp[b].value);
      TreePathHops(net, rp, net.peer[e].bridge);
      FirstHop(net, e, TreePath(net, rp, net.peer[e].bridge), RootAt(net, b));
    }
  }

  /** An unbalanced link leads from the root back to a bridge that already has a tree path to
      the root: the two together are a loop. */
  lemma UnbalancedLoop(net: Network, rp: map<nat, Option<nat>>, e: End) returns (w: seq<End>)
    requires WellFormed(net) && Stable(net, rp) && e in net.peer && !LinkBalanced(net, e)
    ensures IsLoop(net, w) && !TurnsBack(net, w)
  {
    var d, path := net.peer[e], TreePath(net, rp, e.bridge);
    OneDesignatedEndIffBalanced(net, rp, e);
    LinkBounds(net, rp, e);
    TreePathHops(net, rp, e.bridge);
    ClosingHop(net, path, e);
    w := path + [d];
  }

  lemma ClosingHop(net: Network, path: seq<End>, e: End)
    requires WellFormed(net) && e in net.peer && Designated(net, e) && Designated(net, net.peer[e])
    requires RootHops(net, e.bridge, path, net.peer[e].bridge)
    ensures IsLoop(net, path + [net.peer[e]]) && !TurnsBack(net, path + [net.peer[e]])
  {
    var d := net.peer[e];
    var w := path + [d];
    assert path != [] ==> RootHopAt(net, path, 0, d.bridge);
    forall i | 0 <= i < |w|
      ensures && w[i] in net.peer && Carries(net, w[i])
              && w[Next(i, |w|)].bridge == net.peer[w[i]].bridge
              && w[Next(i, |w|)] != net.peer[w[i]]
    {
      if i < |path| {
        assert RootHopAt(net, path, i, d.bridge);
        assert i + 1 < |path| ==> RootHopAt(net, path, i + 1, d.bridge);
      }
    }
  }

  /** Balance in terms of the wiring alone: no link into the least bridge of its part of the
      network comes from that bridge itself, or is charged more there than a detour and the
      link's other end cost together. */
  ghost predicate FairlyCharged(net: Network, e: End)
    requires WellFormed(net) && e in net.peer
  {
    var d := net.peer[e];
    LeastReachable(net, d.bridge) ==>
      && e.bridge != d.bridge
      && forall w :: IsWalk(net, e.bridge, w, d.bridge) ==>
           PortAt(net, d).pathCost <= Length(net, e.bridge, w, d.bridge) + PortAt(net, e).pathCost
  }

  /** What the bridges have come to believe plays no part in whether a link is balanced. */
  lemma BalancedIffFairlyCharged(net: Network, rp: map<nat, Option<nat>>, e: End)
    requires WellFormed(net) && Stable(net, rp) && e in net.peer
    ensures LinkBalanced(net, e) <==> FairlyCharged(net, e)
  {
    var d := net.peer[e];
    OwnRootIffLeast(net, rp, d.bridge);
    LinkBounds(net, rp, e);
    CostIsShortestPath(net, rp, e.bridge);
  }

  /** No frame can travel in a circle if and only if every link is balanced, which the wiring alone
      decides. */
  lemma NoForwardingLoopIffBalanced(net: Network, rp: map<nat, Option<nat>>)
    requires WellFormed(net) && Stable(net, rp)
    ensures (forall w :: IsLoop(net, w) ==> TurnsBack(net, w)) <==> Balanced(net)
    ensures Balanced(net) <==> forall e :: e in net.peer ==> FairlyCharged(net, e)
  {
    forall e | e in net.peer ensures LinkBalanced(net, e) <==> FairlyCharged(net, e) {
      BalancedIffFairlyCharged(net, rp, e);
    }
    if Balanced(net) {
      forall w | IsLoop(net, w) ensures TurnsBack(net, w) {
        BalancedLoopTurnsBack(net, rp, w);
      }
    } else {
      var e :| e in net.peer && !LinkBalanced(net, e);
      var w := UnbalancedLoop(net, rp, e);
    }
  }

  // ---------------------------------------------------------------- an unbalanced network

  const TIMES := Times(0, 20, 2, 15)

  function ExamplePort(portId: nat, cost: int, role: Role, held: Vector, root: Priority): PortView {
    PortView(portId, cost, true, Forward, role, Some(held), Some(TIMES), root, TIMES)
  }

  function NearBridge(): BridgeView {
    BridgeView(1, TIMES, Own(1), TIMES, map[
                 1 := ExamplePort(1, 1, DesignatedPort, Vector(1, 5, 2, 1), Own(1)),
                 2 := ExamplePort(2, 10, DesignatedPort, Vector(1, 2, 2, 2), Own(1))])
  }

  function FarBridge(): BridgeView {
    var via := Received(Vector(1, 1, 1, 1));
    BridgeView(2, TIMES, via, TIMES, map[
                 1 := ExamplePort(1, 1, RootPort, Vector(1, 1, 1, 1), via),
                 2 := ExamplePort(2, 1, DesignatedPort, Vector(1, 10, 1, 2), via)])
  }

  /** Bridges 1 and 2 joined by two links; bridge 1 charges 10 for the second, bridge 2 only 1. */
  function TwoLinks(): Network {
    Network(map[1 := NearBridge(), 2 := FarBridge()],
            map e | e in {End(1, 1), End(1, 2), End(2, 1), End(2, 2)} :: End(3 - e.bridge, e.port))
  }

  lemma ExampleElections()
    ensures ElectedBy(NearBridge(), None)
    ensures ElectedBy(FarBridge(), Some(1))
  {
  }

  ghost predicate LooksLikeTwoLinks(net: Network) {
    && net.bridges.Keys == {1, 2}
    && net.bridges[1].id == 1 && net.bridges[2].id == 2
    && net.bridges[1].ports.Keys == {1, 2} && net.bridges[2].ports.Keys == {1, 2}
    && net.peer.Keys == {End(1, 1), End(1, 2), End(2, 1), End(2, 2)}
    && net.peer[End(1, 1)] == End(2, 1) && net.peer[End(2, 1)] == End(1, 1)
    && net.peer[End(1, 2)] == End(2, 2) && net.peer[End(2, 2)] == End(1, 2)
    && PortAt(net, End(1, 1)) == ExamplePort(1, 1, DesignatedPort, Vector(1, 5, 2, 1), Own(1))
    && PortAt(net, End(1, 2)) == ExamplePort(2, 10, DesignatedPort, Vector(1, 2, 2, 2), Own(1))
    && PortAt(net, End(2, 1)) == ExamplePort(1, 1, RootPort, Vector(1, 1, 1, 1), Received(Vector(1, 1, 1, 1)))
    && PortAt(net, End(2, 2)) == ExamplePort(2, 1, DesignatedPort, Vector(1, 10, 1, 2), Received(Vector(1, 1, 1, 1)))
  }

  lemma ExampleLooksRight(net: Network, rp: map<nat, Option<nat>>)
    requires net == TwoLinks() && rp == map[1 := None, 2 := Some(1)]
    ensures LooksLikeTwoLinks(net)
    ensures Settled(net, rp, 1) && Settled(net, rp, 2)
  {
    ExampleElections();
    assert net.bridges[1] == NearBridge() && net.bridges[2] == FarBridge();
  }

  lemma ExampleIsWellFormed(net: Network)
    requires LooksLikeTwoLinks(net)
    ensures WellFormed(net)
  {
  }

  lemma ExampleInformed(net: Network, e: End)
    requires LooksLikeTwoLinks(net) && WellFormed(net) && e in net.peer
    ensures Informed(net, e)
  {
    assert e.bridge == 1 || e.bridge == 2;
    assert e.port == 1 || e.port == 2;
  }

  lemma ExampleWaits(net: Network, e: End)
    requires LooksLikeTwoLinks(net) && WellFormed(net) && Waits(net, e)
    ensures e in net.peer && Designated(net, net.peer[e])
  {
    assert e.bridge == 1 || e.bridge == 2;
    assert e.port == 1 || e.port == 2;
    assert e == End(2, 1);
  }

  lemma ExampleMessages(net: Network)
    requires LooksLikeTwoLinks(net) && WellFormed(net)
    ensures forall e {:trigger Informed(net, e)} :: e in net.peer ==> Informed(net, e)
    ensures forall e: End :: Waits(net, e) ==> e in net.peer && Designated(net, net.peer[e])
  {
    forall e | e in net.peer ensures Informed(net, e) {
      ExampleInformed(net, e);
    }
    forall e | Waits(net, e) ensures e in net.peer && Designated(net, net.peer[e]) {
      ExampleWaits(net, e);
    }
  }

  lemma ExampleIsStable(net: Network, rp: map<nat, Option<nat>>)
    requires WellFormed(net) && net.bridges.Keys == rp.Keys == {1, 2} && Settled(net, rp, 1) && Settled(net, rp, 2)
    requires forall e {:trigger Informed(net, e)} :: e in net.peer ==> Informed(net, e)
    requires forall e: End :: Waits(net, e) ==> e in net.peer && Designated(net, net.peer[e])
    ensures Stable(net, rp)
  {
  }

  lemma ExampleLoops(net: Network)
    requires LooksLikeTwoLinks(net) && WellFormed(net)
    ensures Designated(net, End(1, 2)) && Designated(net, End(2, 2))
    ensures IsLoop(net, [End(1, 1), End(2, 2)]) && !TurnsBack(net, [End(1, 1), End(2, 2)])
  {
    assert Carries(net, End(1, 1)) && Carries(net, End(2, 2));
  }

  /** Without balance both links carry frames, and they form a loop. */
  lemma UnbalancedLinksLoop(net: Network, rp: map<nat, Option<nat>>)
    requires net == TwoLinks() && rp == map[1 := None, 2 := Some(1)]
    ensures WellFormed(net) && Stable(net, rp)
    ensures Designated(net, End(1, 2)) && Designated(net, End(2, 2))
    ensures IsLoop(net, [End(1, 1), End(2, 2)]) && !TurnsBack(net, [End(1, 1), End(2, 2)])
  {
    ExampleLooksRight(net, rp);
    ExampleIsWellFormed(net);
    ExampleMessages(net);
    ExampleIsStable(net, rp);
    ExampleLoops(net);
  }

  /** A link-up report for the root port of a bridge ends its election. */
  lemma LinkUpEndsElection() returns (v': BridgeView)
    ensures var v := FarBridge();
            && Consistent(v) && Step(v, LinkUp(1), v')
            && !Benign(v, LinkUp(1)) && !Consistent(v')
  {
    var v := FarBridge();
    ExampleElections();
    assert ElectedBy(v, Some(1));
    v' := v.(ports := v.ports[1 := Upped(v.ports[1], DesignatedPort, v.root, v.rootTimes)]);
    StepKeepsElectionIffBenign(v, LinkUp(1), v');
  }

  // ---------------------------------------------------------------- a bridge cabled to itself

  function LoneBridge(): BridgeView {
    BridgeView(1, TIMES, Own(1), TIMES, map[
                 1 := ExamplePort(1, 1, DesignatedPort, Vector(1, 1, 1, 2), Own(1)),
                 2 := ExamplePort(2, 1, DesignatedPort, Vector(1, 1, 1, 1), Own(1))])
  }

  /** One bridge whose two ports are joined by a cable. */
  function SelfLink(): Network {
    Network(map[1 := LoneBridge()], map[End(1, 1) := End(1, 2), End(1, 2) := End(1, 1)])
  }

  ghost predicate LooksLikeSelfLink(net: Network) {
    && net.bridges.Keys == {1} && net.bridges[1].id == 1 && net.bridges[1].ports.Keys == {1, 2}
    && net.peer.Keys == {End(1, 1), End(1, 2)}
    && net.peer[End(1, 1)] == End(1, 2) && net.peer[End(1, 2)] == End(1, 1)
    && PortAt(net, End(1, 1)) == ExamplePort(1, 1, DesignatedPort, Vector(1, 1, 1, 2), Own(1))
    && PortAt(net, End(1, 2)) == ExamplePort(2, 1, DesignatedPort, Vector(1, 1, 1, 1), Own(1))
  }

  lemma SelfLinkLooksRight(net: Network, rp: map<nat, Option<nat>>)
    requires net == SelfLink() && rp == map[1 := None]
    ensures LooksLikeSelfLink(net) && Settled(net, rp, 1)
  {
    assert ElectedBy(LoneBridge(), None);
    assert net.bridges[1] == LoneBridge();
  }

  lemma SelfLinkIsStable(net: Network, rp: map<nat, Option<nat>>)
    requires LooksLikeSelfLink(net) && rp == map[1 := None] && Settled(net, rp, 1)
    ensures WellFormed(net) && Stable(net, rp)
  {
    assert WellFormed(net);
    forall e | e in net.peer ensures Informed(net, e) {
      assert e == End(1, 1) || e == End(1, 2);
    }
    forall e ensures !Waits(net, e) {
      assert e.bridge == 1 && (e.port == 1 || e.port == 2) ==> e == End(1, 1) || e == End(1, 2);
    }
  }

  /** Equal costs do not help a root that is cabled to itself: it serves the cable from both
      ends, and a frame can travel along it for ever. */
  lemma SelfLinkLoops(net: Network, rp: map<nat, Option<nat>>)
    requires net == SelfLink() && rp == map[1 := None]
    ensures WellFormed(net) && Stable(net, rp)
    ensures PortAt(net, End(1, 1)).pathCost == PortAt(net, End(1, 2)).pathCost
    ensures IsLoop(net, [End(1, 1)]) && !TurnsBack(net, [End(1, 1)])
  {
    SelfLinkLooksRight(net, rp);
    SelfLinkIsStable(net, rp);
    assert Carries(net, End(1, 1));
  }
}
