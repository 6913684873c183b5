/** The class `Bridge`: role election loops and the handlers of bridge events.
    Each handler is one `Step` of the election model. Dictionaries are walked in an
    arbitrary order, as the program leaves the order open. */
module StpBridge {
  import opened Options
  import opened BpduOrder
  import opened StpPort
  import opened StpElection

  /** One root port, the listed designated ports, and every other live port non-designated. */
  method AssignRoles(r: nat, dPorts: seq<nat>, live: set<nat>) returns (roles: map<nat, Role>)
    requires r in live && r !in dPorts && forall n :: n in dPorts ==> n in live
    ensures roles.Keys == live
    ensures forall n :: n in live ==> (roles[n] == RootPort <==> n == r)
    ensures forall n :: n in live ==> (roles[n] == DesignatedPort <==> n in dPorts)
  {
    roles := map[r := RootPort];
    for i := 0 to |dPorts|
      invariant roles.Keys == {r} + set n | n in dPorts[..i]
      invariant roles[r] == RootPort && forall n :: n in dPorts[..i] ==> roles[n] == DesignatedPort
    {
      assert dPorts[..i + 1] == dPorts[..i] + [dPorts[i]];
      roles := roles[dPorts[i] := DesignatedPort];
    }
    assert dPorts[..|dPorts|] == dPorts;
    var todo := live;
    while todo != {}
      invariant todo <= live && roles.Keys <= live && live <= roles.Keys + todo
      invariant r in roles && forall n :: n in dPorts ==> n in roles
      invariant forall n :: n in roles ==>
                  roles[n] == if n == r then RootPort else if n in dPorts then DesignatedPort else NonDesignatedPort
    {
      var n :| n in todo;
      todo := todo - {n};
      if n !in roles {
        roles := roles[n := NonDesignatedPort];
      }
    }
  }

  class Bridge {
    const bridgeId: nat
    const bridgeTimes: Times
    var rootPriority: Priority
    var rootTimes: Times
    var ports: map<nat, Port>

    ghost function PortViews(): map<nat, PortView>
      reads this`ports, ports.Values
    {
      map n | n in ports :: ports[n].View()
    }

    /** `views` lists what the port objects currently contain. */
    ghost predicate Shows(views: map<nat, PortView>)
      reads this`ports, ports.Values
    {
      && views.Keys == ports.Keys
      && forall n :: n in ports ==> ports[n].portNo == n && ports[n].View() == views[n] && PortSound(views[n])
    }

    lemma ShowsIsView(views: map<nat, PortView>)
      requires Shows(views)
      ensures PortViews() == views && Valid()
    {
    }

    ghost function View(): BridgeView
      reads this, ports.Values
    {
      BridgeView(bridgeId, bridgeTimes, rootPriority, rootTimes, PortViews())
    }

    /** Port numbers tell the port objects apart. */
    ghost predicate Valid()
      reads this`ports, ports.Values
    {
      forall n :: n in ports ==> ports[n].portNo == n && PortSound(ports[n].View())
    }

    constructor (id: nat, times: Times)
      ensures Valid() && ports == map[]
      ensures View() == BridgeView(id, times, Own(id), times, map[])
      ensures Consistent(View())
    {
      bridgeId, bridgeTimes := id, times;
      rootPriority, rootTimes := Own(id), times;
      ports := map[];
      new;
      NewBridgeIsConsistent(id, times);
    }

    /** The port with the least vector among those that lead to a root better than this bridge. */
    method SelectRootPort(ghost views: map<nat, PortView>) returns (rp: Option<nat>)
      requires Shows(views) && rootPriority == Own(bridgeId)
      ensures IsRootPort(bridgeId, views, rp)
    {
      rp := None;
      var todo := ports.Keys;
      while todo != {}
        invariant todo <= ports.Keys
        invariant rp.Some? ==> Holds(views, rp.value) && views[rp.value].held.value.root < bridgeId
        invariant forall n :: n in ports.Keys - todo && Holds(views, n) ==>
                    if rp.None? then bridgeId <= views[n].held.value.root
                    else AtMost(views[rp.value].held.value, views[n].held.value)
      {
        var n :| n in todo;
        todo := todo - {n};
        var port := ports[n];
        if port.state == Disable || port.held.None? {
          continue;
        }
        var portMsg := port.held.value;
        var result;
        if rp.None? {
          result := if rootPriority.Root() > portMsg.root then Superior else Inferior;
        } else {
          var rootMsg := ports[rp.value].held.value;
          if rootMsg.root > portMsg.root {
            result := Superior;
          } else if rootMsg.root == portMsg.root {
            result := CompareRootPath(portMsg.cost, rootMsg.cost, portMsg.bridge, rootMsg.bridge,
                                      portMsg.port, rootMsg.port);
          } else {
            result := Inferior;
          }
        }
        if result == Superior {
          rp := Some(n);
        }
      }
    }

    /** The ports in service, other than the root port, whose link this bridge is to serve. */
    method SelectDesignatedPort(rp: nat, ghost views: map<nat, PortView>) returns (dPorts: seq<nat>)
      requires Shows(views) && Holds(views, rp)
      ensures forall n :: n in dPorts <==>
                n in views && views[n].InService() && n != rp
                && NearerRoot(bridgeId, views[n], views[rp].held.value)
    {
      dPorts := [];
      var rootMsg := ports[rp].held.value;
      var todo := ports.Keys;
      while todo != {}
        invariant todo <= ports.Keys
        invariant forall n :: n in dPorts <==>
                    n in ports.Keys - todo && views[n].InService() && n != rp
                    && NearerRoot(bridgeId, views[n], rootMsg)
      {
        var n :| n in todo;
        todo := todo - {n};
        var port := ports[n];
        if port.state == Disable || n == rp {
          continue;
        }
        if port.held.None? || port.held.value.root != rootMsg.root {
          dPorts := dPorts + [n];
        } else {
          var msg := port.held.value;
          var result := CompareRootPath(rootMsg.cost, msg.cost - port.pathCost, bridgeId, msg.bridge,
                                        port.portId, msg.port);
          if result == Superior {
            dPorts := dPorts + [n];
          }
        }
      }
    }

    /** Roles for a bridge that is not the root: the root port, then the designated ports,
        then every port in service that has no role yet. */
    method RolesAround(r: nat, ghost views: map<nat, PortView>) returns (roles: map<nat, Role>)
      requires Shows(views) && Holds(views, r)
      ensures forall n :: n in roles <==> n in views && views[n].InService()
      ensures forall n :: n in roles ==> roles[n] == RoleOf(bridgeId, views, Some(r), n)
    {
      var dPorts := SelectDesignatedPort(r, views);
      roles := AssignRoles(r, dPorts, set n | n in ports && ports[n].state != Disable);
    }

    /** Exactly the ports in service are given a role, and it is the one the election demands. */
    method SpanningTreeAlgorithm(ghost views: map<nat, PortView>)
      returns (roles: map<nat, Role>, root: Priority, times: Times, ghost rp: Option<nat>)
      requires Shows(views) && rootPriority == Own(bridgeId) && rootTimes == bridgeTimes
      ensures IsRootPort(bridgeId, views, rp)
      ensures root == RootOf(bridgeId, views, rp) && times == TimesOf(bridgeTimes, views, rp)
      ensures forall n :: n in roles <==> n in views && views[n].InService()
      ensures forall n :: n in roles ==> roles[n] == RoleOf(bridgeId, views, rp, n)
    {
      var rootPort := SelectRootPort(views);
      rp := rootPort;
      if rootPort.None? {
        root, times := rootPriority, rootTimes;
        roles := map n | n in ports && ports[n].state != Disable :: DesignatedPort;
      } else {
        root, times := Received(ports[rootPort.value].held.value), ports[rootPort.value].heldTimes.value;
        roles := RolesAround(rootPort.value, views);
      }
    }

    /** Takes down every port in service. */
    method LowerPorts(init: bool, ghost views: map<nat, PortView>)
      requires Shows(views)
      modifies ports.Values
      ensures Shows(Lowered(views, init))
    {
      ghost var low := Lowered(views, init);
      LoweringIsSound(views, init);
      var todo := ports.Keys;
      while todo != {}
        invariant todo <= ports.Keys
        invariant forall n :: n in ports ==> ports[n].View() == if n in todo then views[n] else low[n]
      {
        var n :| n in todo;
        todo := todo - {n};
        if ports[n].state != Disable {
          ports[n].Down(Block, init);
        }
        assert ports[n].View() == low[n];
      }
    }

    /** Brings up every port in service in its role. */
    method RaisePorts(roles: map<nat, Role>, ghost views: map<nat, PortView>)
      requires Shows(views) && forall n :: n in views && views[n].InService() ==> n in roles
      modifies ports.Values
      ensures Shows(Raised(views, roles, rootPriority, rootTimes))
    {
      ghost var high := Raised(views, roles, rootPriority, rootTimes);
      RaisingIsSound(views, roles, rootPriority, rootTimes);
      var todo := roles.Keys * ports.Keys;
      while todo != {}
        invariant todo <= roles.Keys * ports.Keys
        invariant forall n :: n in ports ==> ports[n].View() == if n in todo then views[n] else high[n]
      {
        var n :| n in todo;
        todo := todo - {n};
        if ports[n].state != Disable {
          ports[n].Up(roles[n], rootPriority, rootTimes);
        }
        assert ports[n].View() == high[n];
      }
    }

    /** Sets the root belief and picks the roles, once all ports are down. */
    method ElectRoles(init: bool, ghost views: map<nat, PortView>)
      returns (roles: map<nat, Role>, ghost rp: Option<nat>)
      requires Shows(views) && (init ==> forall n :: !Holds(views, n))
      modifies this`rootPriority, this`rootTimes
      ensures IsRootPort(bridgeId, views, rp)
      ensures rootPriority == RootOf(bridgeId, views, rp)
      ensures rootTimes == TimesOf(bridgeTimes, views, rp)
      ensures forall n :: n in views && views[n].InService() ==>
                n in roles && roles[n] == RoleOf(bridgeId, views, rp, n)
    {
      rootPriority, rootTimes := Own(bridgeId), bridgeTimes;
      if init {
        roles, rp := map n | n in ports :: DesignatedPort, None;
      } else {
        var root, times;
        roles, root, times, rp := SpanningTreeAlgorithm(views);
        rootPriority, rootTimes := root, times;
      }
    }

    /** Elects roles and brings the ports up in them. */
    method ElectAndRaise(init: bool, ghost views: map<nat, PortView>)
      returns (ghost roles: map<nat, Role>, ghost rp: Option<nat>)
      requires Shows(views) && (init ==> forall n :: !Holds(views, n))
      modifies this`rootPriority, this`rootTimes, ports.Values
      ensures IsRootPort(bridgeId, views, rp)
      ensures forall n :: n in views && views[n].InService() ==>
                n in roles && roles[n] == RoleOf(bridgeId, views, rp, n)
      ensures rootPriority == RootOf(bridgeId, views, rp)
      ensures rootTimes == TimesOf(bridgeTimes, views, rp)
      ensures Shows(Raised(views, roles, rootPriority, rootTimes))
    {
      var chosen;
      chosen, rp := ElectRoles(init, views);
      RaisePorts(chosen, views);
      roles := chosen;
    }

    method Recalculate(init: bool) returns (ghost rp: Option<nat>)
      requires Valid()
      modifies this`rootPriority, this`rootTimes, ports.Values
      ensures Valid() && old(Sound(View())) && Recalculated(old(View()), init, rp, View())
      ensures ElectedBy(View(), rp)
    {
      ghost var v := View();
      ghost var low := Lowered(v.ports, init);
      LoweringIsSound(v.ports, init);
      LowerPorts(init, v.ports);
      ghost var roles;
      roles, rp := ElectAndRaise(init, low);
      ghost var high := Raised(low, roles, rootPriority, rootTimes);
      ShowsIsView(high);
      RaisingCompletes(v, init, low, rp, roles, View());
    }

    method PortAdd(n: nat, portId: nat, pathCost: int, configEnable: bool)
      requires Valid()
      modifies this`ports
      ensures Valid() && old(Sound(View())) && Step(old(View()), PortAdded(n, portId, pathCost, configEnable), View())
    {
      ghost var v := View();
      if n <= MAX_PORT_NO {
        var port := new Port(n, portId, pathCost, configEnable, bridgeId, bridgeTimes);
        ports := ports[n := port];
        ShowsIsView(v.ports[n := NewPort(portId, pathCost, configEnable, bridgeId, bridgeTimes)]);
      }
    }

    method HandleLinkUp(n: nat)
      requires Valid() && n in ports
      modifies ports.Values
      ensures Valid() && old(Sound(View())) && Step(old(View()), LinkUp(n), View())
    {
      ghost var v := View();
      ports[n].Up(DesignatedPort, rootPriority, rootTimes);
      ShowsIsView(v.ports[n := Upped(v.ports[n], DesignatedPort, v.root, v.rootTimes)]);
    }

    method HandleLinkDown(n: nat)
      requires Valid() && n in ports
      modifies this`rootPriority, this`rootTimes, ports.Values
      ensures Valid() && old(Sound(View())) && Step(old(View()), LinkDown(n), View())
    {
      ghost var v := View();
      var wasRootPort := ports[n].role == RootPort;
      ports[n].Down(Disable, true);
      ShowsIsView(v.ports[n := Downed(v.ports[n], Disable, true)]);
      if wasRootPort {
        ghost var rp := Recalculate(true);
      }
    }

    method PortDelete(n: nat)
      requires Valid() && n in ports
      modifies this`rootPriority, this`rootTimes, this`ports, ports.Values
      ensures Valid() && old(Sound(View())) && Step(old(View()), PortDeleted(n), View())
    {
      HandleLinkDown(n);
      ghost var mid := View();
      ports := ports - {n};
      ShowsIsView(mid.ports - {n});
    }

    method HandleConfigBpdu(n: nat, vector: Vector, times: Times)
      requires Valid()
      modifies this`rootPriority, this`rootTimes, ports.Values
      ensures Valid() && old(Sound(View())) && Step(old(View()), ConfigBpdu(n, vector, times), View())
    {
      if n !in ports || ports[n].state == Disable || times.messageAge > times.maxAge {
        return;
      }
      ghost var v := View();
      var info := ports[n].ReceiveConfigBpdu(vector, times);
      ShowsIsView(v.ports[n := Heard(v.ports[n], vector, times)]);
      if info == Superior {
        ghost var rp := Recalculate(false);
      }
    }

    method WaitBpduTimeout()
      requires Valid()
      modifies this`rootPriority, this`rootTimes, ports.Values
      ensures Valid() && old(Sound(View())) && Step(old(View()), WaitTimeout, View())
    {
      ghost var rp := Recalculate(true);
    }

    method ForwardDelayExpires(n: nat)
      requires Valid() && n in ports && TimerRuns(ports[n].View())
      modifies ports.Values
      ensures Valid() && old(Sound(View())) && Step(old(View()), ForwardDelay(n), View())
    {
      ghost var v := View();
      ports[n].TimerExpires();
      ShowsIsView(v.ports[n := Expired(v.ports[n])]);
    }
  }
}
