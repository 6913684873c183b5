/** What a role election must produce, stated on the vectors the ports hold, and the
    invariant that every event of a bridge keeps. */
module StpElection {
  import opened Options
  import opened BpduOrder
  import opened StpPort

  const MAX_PORT_NO := 0xfff

  datatype BridgeView = BridgeView(id: nat, times: Times, root: Priority, rootTimes: Times,
                                   ports: map<nat, PortView>)

  /** Port `n` takes part in elections and has received a vector. */
  predicate Holds(ports: map<nat, PortView>, n: nat) {
    n in ports && ports[n].InService() && ports[n].held.Some?
  }

  /** No port in service leads to a better root, or `rp` is one with the least vector of all. */
  ghost predicate IsRootPort(id: nat, ports: map<nat, PortView>, rp: Option<nat>) {
    match rp
    case None => forall n :: Holds(ports, n) ==> id <= ports[n].held.value.root
    case Some(r) =>
      && Holds(ports, r)
      && ports[r].held.value.root < id
      && forall n :: Holds(ports, n) ==> AtMost(ports[r].held.value, ports[n].held.value)
  }

  /** This bridge, at `path` from the root, is nearer to it than the sender of what `p` holds. */
  predicate NearerRoot(id: nat, p: PortView, path: Vector) {
    || p.held.None?
    || p.held.value.root != path.root
    || CompareRootPath(path.cost, p.held.value.cost - p.pathCost, id, p.held.value.bridge,
                       p.portId, p.held.value.port) == Superior
  }

  function RoleOf(id: nat, ports: map<nat, PortView>, rp: Option<nat>, n: nat): Role
    requires n in ports && (rp.Some? ==> Holds(ports, rp.value))
  {
    if rp.None? then DesignatedPort
    else if n == rp.value then RootPort
    else if NearerRoot(id, ports[n], ports[rp.value].held.value) then DesignatedPort
    else NonDesignatedPort
  }

  function RootOf(id: nat, ports: map<nat, PortView>, rp: Option<nat>): Priority
    requires rp.Some? ==> Holds(ports, rp.value)
  {
    if rp.None? then Own(id) else Received(ports[rp.value].held.value)
  }

  /** The roles, the root belief and the times in force are those of the election that `rp`
      wins; a root goes by its own times. */
  ghost predicate ElectedBy(v: BridgeView, rp: Option<nat>) {
    && IsRootPort(v.id, v.ports, rp)
    && v.root == RootOf(v.id, v.ports, rp)
    && (if rp.None? then v.rootTimes == v.times else v.ports[rp.value].heldTimes == Some(v.rootTimes))
    && forall n :: n in v.ports && v.ports[n].InService() ==>
         && v.ports[n].role == RoleOf(v.id, v.ports, rp, n)
         && v.ports[n].priority == v.root && v.ports[n].times == v.rootTimes
  }

  ghost predicate PortSound(p: PortView) {
    && (!p.configEnable ==> p.state == Disable)
    && (p.held.Some? <==> p.heldTimes.Some?)
    && (p.state == Disable ==> p.held.None? && p.role == DesignatedPort)
  }

  ghost predicate Sound(v: BridgeView) {
    forall n :: n in v.ports ==> PortSound(v.ports[n])
  }

  ghost predicate Consistent(v: BridgeView) {
    Sound(v) && exists rp :: ElectedBy(v, rp)
  }

  /** Roles are exclusive: the root port is the only port with that role, and it exists
      exactly when the bridge believes in another root. */
  lemma ElectionHasOneRootPort(v: BridgeView, rp: Option<nat>)
    requires ElectedBy(v, rp)
    ensures forall n :: n in v.ports && v.ports[n].InService() ==> (v.ports[n].role == RootPort <==> rp == Some(n))
    ensures rp.None? <==> v.root == Own(v.id)
    ensures rp.None? <==> v.root.Root() == v.id
    ensures v.root.Root() <= v.id
    ensures forall n :: Holds(v.ports, n) ==> v.root.Root() <= v.ports[n].held.value.root
  {
  }

  /** What the election says about a port in terms of the vector it holds. */
  lemma ElectionAtPort(v: BridgeView, rp: Option<nat>, n: nat)
    requires ElectedBy(v, rp) && Holds(v.ports, n)
    ensures var p, h := v.ports[n], v.ports[n].held.value;
            && p.priority == v.root
            && v.root.Root() <= h.root
            && (rp.Some? && v.root.Root() == h.root ==> v.root.Cost() <= h.cost)
            && (p.role == RootPort ==> v.root == Received(h))
            && (rp.Some? && rp != Some(n) ==>
                  (p.role == DesignatedPort
                   <==> || v.root.Root() != h.root
                        || v.root.Cost() < h.cost - p.pathCost
                        || (v.root.Cost() == h.cost - p.pathCost && v.id < h.bridge)
                        || (v.root.Cost() == h.cost - p.pathCost && v.id == h.bridge && p.portId < h.port)))
            && (p.role == DesignatedPort || (rp.Some? && v.root.Root() == h.root))
            && (p.role == DesignatedPort ==> rp != Some(n))
  {
  }

  // ---------------------------------------------------------------- events of a bridge

  /** All ports in service taken down, before roles are given out again. */
  function Lowered(ports: map<nat, PortView>, init: bool): map<nat, PortView> {
    map n | n in ports :: if ports[n].InService() then Downed(ports[n], Block, init) else ports[n]
  }

  /** All ports in service brought up in the given roles. */
  function Raised(ports: map<nat, PortView>, roles: map<nat, Role>, root: Priority, times: Times): map<nat, PortView>
    requires forall n :: n in ports && ports[n].InService() ==> n in roles
  {
    map n | n in ports :: if ports[n].InService() then Upped(ports[n], roles[n], root, times) else ports[n]
  }

  lemma LoweringIsSound(ports: map<nat, PortView>, init: bool)
    requires forall n :: n in ports ==> PortSound(ports[n])
    ensures forall n :: n in ports ==> PortSound(Lowered(ports, init)[n])
    ensures init ==> forall n :: !Holds(Lowered(ports, init), n)
  {
  }

  lemma RaisingIsSound(ports: map<nat, PortView>, roles: map<nat, Role>, root: Priority, times: Times)
    requires forall n :: n in ports ==> PortSound(ports[n])
    requires forall n :: n in ports && ports[n].InService() ==> n in roles
    ensures forall n :: n in ports ==> PortSound(Raised(ports, roles, root, times)[n])
  {
  }

  function TimesOf(own: Times, ports: map<nat, PortView>, rp: Option<nat>): Times
    requires rp.Some? ==> Holds(ports, rp.value) && ports[rp.value].heldTimes.Some?
  {
    if rp.None? then own else ports[rp.value].heldTimes.value
  }

  /** `v'` is `v` after a recalculation in which `rp` won the election. */
  ghost predicate Recalculated(v: BridgeView, init: bool, rp: Option<nat>, v': BridgeView)
    requires Sound(v)
  {
    var low := Lowered(v.ports, init);
    && IsRootPort(v.id, low, rp)
    && v'.id == v.id && v'.times == v.times
    && v'.root == RootOf(v.id, low, rp)
    && v'.rootTimes == TimesOf(v.times, low, rp)
    && v'.ports.Keys == v.ports.Keys
    && forall n :: n in v.ports ==>
         v'.ports[n] == if low[n].InService() then Upped(low[n], RoleOf(v.id, low, rp, n), v'.root, v'.rootTimes)
                        else v.ports[n]
  }

  ghost predicate RecalculatesTo(v: BridgeView, init: bool, v': BridgeView)
    requires Sound(v)
  {
    exists rp :: Recalculated(v, init, rp, v')
  }

  datatype BridgeEvent =
    | PortAdded(n: nat, portId: nat, pathCost: int, configEnable: bool)
    | PortDeleted(n: nat)
    | LinkUp(n: nat)
    | LinkDown(n: nat)
    | ConfigBpdu(n: nat, vector: Vector, bpduTimes: Times)
    | WaitTimeout
    | ForwardDelay(n: nat)

  /** What each event does to the bridge. Handlers run to completion. */
  ghost predicate Step(v: BridgeView, e: BridgeEvent, v': BridgeView)
    requires Sound(v)
  {
    match e
    case PortAdded(n, portId, cost, enable) =>
      v' == if n <= MAX_PORT_NO then v.(ports := v.ports[n := NewPort(portId, cost, enable, v.id, v.times)]) else v
    case PortDeleted(n) =>
      n in v.ports && exists mid :: LinkGoesDown(v, n, mid) && v' == mid.(ports := mid.ports - {n})
    case LinkUp(n) =>
      n in v.ports && v' == v.(ports := v.ports[n := Upped(v.ports[n], DesignatedPort, v.root, v.rootTimes)])
    case LinkDown(n) => n in v.ports && LinkGoesDown(v, n, v')
    case ConfigBpdu(n, vec, t) =>
      if n in v.ports && v.ports[n].InService() && t.messageAge <= t.maxAge
         && CompareBpduInfo(v.ports[n].held, v.ports[n].heldTimes, vec, t) == Superior
      then RecalculatesTo(v.(ports := v.ports[n := Heard(v.ports[n], vec, t)]), false, v')
      else v' == v
    case WaitTimeout => RecalculatesTo(v, true, v')
    case ForwardDelay(n) =>
      n in v.ports && TimerRuns(v.ports[n]) && v' == v.(ports := v.ports[n := Expired(v.ports[n])])
  }

  ghost predicate LinkGoesDown(v: BridgeView, n: nat, v': BridgeView)
    requires Sound(v) && n in v.ports
  {
    var cut := v.(ports := v.ports[n := Downed(v.ports[n], Disable, true)]);
    if v.ports[n].role == RootPort then RecalculatesTo(cut, true, v') else v' == cut
  }

  /** Every recalculation ends in an election of what the ports then hold. */
  lemma RecalculationElects(v: BridgeView, init: bool, rp: Option<nat>, v': BridgeView)
    requires Sound(v) && Recalculated(v, init, rp, v')
    ensures Sound(v') && ElectedBy(v', rp)
    ensures init ==> rp.None? && v'.root == Own(v.id)
    ensures rp.None? ==> v'.rootTimes == v.times
    ensures rp.Some? ==> v'.ports[rp.value].heldTimes == Some(v'.rootTimes)
  {
    SoundAfterRecalculation(v, init, rp, v');
    SameVectorsSameElection(v.id, Lowered(v.ports, init), v'.ports, rp);
  }

  /** An election depends only on the vectors held by the ports in service. */
  lemma SameVectorsSameElection(id: nat, p: map<nat, PortView>, q: map<nat, PortView>, rp: Option<nat>)
    requires p.Keys == q.Keys && IsRootPort(id, p, rp)
    requires forall n :: n in p ==> SameElectorate(p[n], q[n])
    ensures IsRootPort(id, q, rp) && RootOf(id, p, rp) == RootOf(id, q, rp)
    ensures forall n :: n in p ==> RoleOf(id, p, rp, n) == RoleOf(id, q, rp, n)
  {
  }

  lemma SoundAfterRecalculation(v: BridgeView, init: bool, rp: Option<nat>, v': BridgeView)
    requires Sound(v) && Recalculated(v, init, rp, v')
    ensures Sound(v')
    ensures forall n :: n in v.ports ==> SameElectorate(Lowered(v.ports, init)[n], v'.ports[n])
  {
    var low := Lowered(v.ports, init);
    forall n | n in v.ports ensures PortSound(v'.ports[n]) && SameElectorate(low[n], v'.ports[n]) {
      PortAfterRecalculation(v.ports[n], init, RoleOf(v.id, low, rp, n), v'.root, v'.rootTimes);
    }
  }

  /** Two views of a port that count the same in an election. */
  predicate SameElectorate(p: PortView, q: PortView) {
    p.InService() == q.InService() && p.held == q.held && p.pathCost == q.pathCost && p.portId == q.portId
  }

  lemma PortAfterRecalculation(p: PortView, init: bool, role: Role, root: Priority, times: Times)
    requires PortSound(p)
    ensures var low := if p.InService() then Downed(p, Block, init) else p;
            var q := if low.InService() then Upped(low, role, root, times) else p;
            PortSound(q) && SameElectorate(low, q)
  {
  }

  /** Lowering all ports, electing `rp` and raising them in the elected roles is a recalculation. */
  lemma RaisingCompletes(v: BridgeView, init: bool, low: map<nat, PortView>, rp: Option<nat>, roles: map<nat, Role>,
                         v': BridgeView)
    requires Sound(v) && low == Lowered(v.ports, init) && (forall n :: n in low ==> PortSound(low[n]))
    requires IsRootPort(v.id, low, rp)
    requires forall n :: n in low && low[n].InService() ==> n in roles && roles[n] == RoleOf(v.id, low, rp, n)
    requires v'.root == RootOf(v.id, low, rp) && v'.rootTimes == TimesOf(v.times, low, rp)
    requires v'.id == v.id && v'.times == v.times && v'.ports == Raised(low, roles, v'.root, v'.rootTimes)
    ensures Recalculated(v, init, rp, v')
    ensures Sound(v') && ElectedBy(v', rp)
  {
    RecalculationElects(v, init, rp, v');
  }

  /** The events after which a consistent bridge is consistent again. Two kinds of event
      can fail: bringing up a port that is already up in another role, and adding a port
      while another bridge is root. */
  ghost predicate Benign(v: BridgeView, e: BridgeEvent) {
    match e
    case LinkUp(n) => n in v.ports ==> v.ports[n].role == DesignatedPort
    case PortAdded(n, _, _, enable) =>
      || n > MAX_PORT_NO
      || v.root == Own(v.id)
      || (!enable && !(n in v.ports && v.ports[n].role == RootPort))
    case _ => true
  }

  /** In one step the election survives exactly when the event is benign. */
  lemma StepKeepsElectionIffBenign(v: BridgeView, e: BridgeEvent, v': BridgeView)
    requires Consistent(v) && Step(v, e, v')
    ensures Sound(v')
    ensures Consistent(v') <==> Benign(v, e)
  {
    var rp :| ElectedBy(v, rp);
    ElectionHasOneRootPort(v, rp);
    match e {
      case PortAdded(_, _, _, _) => AddKeepsIff(v, rp, e, v');
      case PortDeleted(n) => DeleteKeeps(v, rp, n, v');
      case LinkUp(n) => UpKeepsIff(v, rp, n, v');
      case LinkDown(n) => LinkDownKeeps(v, rp, n, v');
      case ConfigBpdu(n, vec, t) => BpduKeeps(v, n, vec, t, v');
      case WaitTimeout => RecalculationKeeps(v, true, v');
      case ForwardDelay(n) => TimerKeeps(v, rp, n, v');
    }
  }

  lemma TimerKeeps(v: BridgeView, rp: Option<nat>, n: nat, v': BridgeView)
    requires Sound(v) && ElectedBy(v, rp) && Step(v, ForwardDelay(n), v')
    ensures Consistent(v')
  {
    SameVectorsSameElection(v.id, v.ports, v'.ports, rp);
    assert ElectedBy(v', rp);
  }

  lemma RecalculationKeeps(v: BridgeView, init: bool, v': BridgeView)
    requires Sound(v) && RecalculatesTo(v, init, v')
    ensures Consistent(v')
  {
    var rp :| Recalculated(v, init, rp, v');
    RecalculationElects(v, init, rp, v');
  }

  lemma BpduKeeps(v: BridgeView, n: nat, vec: Vector, t: Times, v': BridgeView)
    requires Consistent(v) && Step(v, ConfigBpdu(n, vec, t), v')
    ensures Consistent(v')
  {
    if v' != v {
      RecalculationKeeps(v.(ports := v.ports[n := Heard(v.ports[n], vec, t)]), false, v');
    }
  }

  lemma DeleteKeeps(v: BridgeView, rp: Option<nat>, n: nat, v': BridgeView)
    requires Sound(v) && ElectedBy(v, rp) && Step(v, PortDeleted(n), v')
    ensures Consistent(v')
  {
    var mid :| LinkGoesDown(v, n, mid) && v' == mid.(ports := mid.ports - {n});
    LinkDownKeeps(v, rp, n, mid);
    var rp' :| ElectedBy(mid, rp') && rp' != Some(n);
    RemovalKeeps(mid, rp', n);
  }

  lemma RemovalKeeps(v: BridgeView, rp: Option<nat>, n: nat)
    requires ElectedBy(v, rp) && rp != Some(n)
    ensures ElectedBy(v.(ports := v.ports - {n}), rp)
  {
  }

  lemma LinkDownKeeps(v: BridgeView, rp: Option<nat>, n: nat, v': BridgeView)
    requires Sound(v) && ElectedBy(v, rp) && n in v.ports && LinkGoesDown(v, n, v')
    ensures Sound(v') && v'.ports.Keys == v.ports.Keys
    ensures exists rp' :: ElectedBy(v', rp') && rp' != Some(n)
  {
    ElectionHasOneRootPort(v, rp);
    var cut := v.(ports := v.ports[n := Downed(v.ports[n], Disable, true)]);
    assert Sound(cut);
    if v.ports[n].role == RootPort {
      var rp' :| Recalculated(cut, true, rp', v');
      RecalculationElects(cut, true, rp', v');
    } else {
      assert forall m :: Holds(cut.ports, m) ==> Holds(v.ports, m);
      assert ElectedBy(v', rp);
    }
  }

  lemma UpKeepsIff(v: BridgeView, rp: Option<nat>, n: nat, v': BridgeView)
    requires Sound(v) && ElectedBy(v, rp) && Step(v, LinkUp(n), v')
    ensures Sound(v')
    ensures Consistent(v') <==> v.ports[n].role == DesignatedPort
  {
    if v.ports[n].role == DesignatedPort {
      UpKeeps(v, rp, n, v');
    } else {
      forall rp' | ElectedBy(v', rp') ensures false {
        RootPortStays(v, rp, v', rp', n);
      }
    }
  }

  lemma UpKeeps(v: BridgeView, rp: Option<nat>, n: nat, v': BridgeView)
    requires Sound(v) && ElectedBy(v, rp) && Step(v, LinkUp(n), v') && v.ports[n].role == DesignatedPort
    ensures ElectedBy(v', rp)
  {
  }

  /** If only port `n` changes, and is not the root port afterwards, the root port stays. */
  lemma RootPortStays(v: BridgeView, rp: Option<nat>, v': BridgeView, rp': Option<nat>, n: nat)
    requires ElectedBy(v, rp) && ElectedBy(v', rp') && v'.root == v.root && v'.id == v.id
    requires forall m :: m in v'.ports && m != n ==> m in v.ports && v'.ports[m] == v.ports[m]
    requires n in v'.ports && v'.ports[n].role == DesignatedPort
    ensures rp' == rp && rp != Some(n)
  {
  }

  lemma AddKeepsIff(v: BridgeView, rp: Option<nat>, e: BridgeEvent, v': BridgeView)
    requires Sound(v) && ElectedBy(v, rp) && e.PortAdded? && Step(v, e, v')
    ensures Sound(v')
    ensures Consistent(v') <==> Benign(v, e)
  {
    if Benign(v, e) {
      AddKeeps(v, rp, e, v');
    } else {
      forall rp' | ElectedBy(v', rp') ensures false {
        ElectionHasOneRootPort(v, rp);
        RootPortStays(v, rp, v', rp', e.n);
      }
    }
  }

  lemma AddKeeps(v: BridgeView, rp: Option<nat>, e: BridgeEvent, v': BridgeView)
    requires Sound(v) && ElectedBy(v, rp) && e.PortAdded? && Step(v, e, v') && Benign(v, e)
    ensures ElectedBy(v', rp)
  {
  }

  /** Safety over whole runs: `vs` lists the states passed through and `es` the events between.
      Only the first state is known to be sound. */
  lemma {:induction false} RunsStayElected(vs: seq<BridgeView>, es: seq<BridgeEvent>)
    requires |vs| == |es| + 1 && Consistent(vs[0])
    requires forall i :: 0 <= i < |es| ==> Benign(vs[i], es[i])
    requires forall i :: 0 <= i < |es| && Sound(vs[i]) ==> Step(vs[i], es[i], vs[i + 1])
    ensures Consistent(vs[|es|])
  {
    if es != [] {
      RunsStayElected(vs[..|es|], es[..|es| - 1]);
      StepKeepsElectionIffBenign(vs[|es| - 1], es[|es| - 1], vs[|es|]);
    }
  }

  /** A bridge that has just been created is consistent: it has no ports yet. */
  lemma NewBridgeIsConsistent(id: nat, times: Times)
    ensures Consistent(BridgeView(id, times, Own(id), times, map[]))
  {
    assert ElectedBy(BridgeView(id, times, Own(id), times, map[]), None);
  }
}
