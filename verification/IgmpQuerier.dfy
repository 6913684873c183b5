/** The IGMP querier: membership table, and the flow entries installed to match it. */
module IgmpQuerier {
  type Group = nat
  type PortNo = nat

  /** For each group, the member ports, and whether each has reported since the last query. */
  type Membership = map<Group, map<PortNo, bool>>

  datatype Entry = ToController | Output(ports: seq<PortNo>)

  /** The entries of the switch, by input port and destination group. */
  type FlowTable = map<(PortNo, Group), Entry>

  function Members(m: Membership, g: Group): set<PortNo> {
    if g in m then m[g].Keys else {}
  }

  ghost predicate Lists(ports: seq<PortNo>, s: set<PortNo>) {
    && (forall p :: p in ports <==> p in s)
    && forall i, j :: 0 <= i < j < |ports| ==> ports[i] != ports[j]
  }

  /** The entries for one group say exactly who its members are. */
  ghost predicate AgreesOn(server: PortNo, members: set<PortNo>, flows: FlowTable, g: Group) {
    && ((server, g) in flows <==> members != {})
    && ((server, g) in flows ==> flows[(server, g)].Output? && Lists(flows[(server, g)].ports, members))
    && (forall p: PortNo :: p != server ==> ((p, g) in flows <==> p in members))
    && (forall p: PortNo :: p != server && (p, g) in flows ==> flows[(p, g)] == ToController)
  }

  ghost predicate Agrees(server: PortNo, m: Membership, flows: FlowTable) {
    && (forall g :: g in m ==> server !in m[g])
    && forall g: Group :: AgreesOn(server, Members(m, g), flows, g)
  }

  // ---------------------------------------------------------------- membership alone

  function StatusOf(m: Membership, g: Group): map<PortNo, bool> {
    if g in m then m[g] else map[]
  }

  function Reported(m: Membership, g: Group, p: PortNo): Membership {
    m[g := StatusOf(m, g)[p := true]]
  }

  function Left(m: Membership, g: Group, p: PortNo): Membership {
    m[g := StatusOf(m, g) - {p}]
  }

  function Queried(m: Membership): Membership {
    map g | g in m :: map p | p in m[g] :: false
  }

  function Kept(status: map<PortNo, bool>): map<PortNo, bool> {
    map p | p in status && status[p] :: true
  }

  function Pruned(m: Membership): Membership {
    map g | g in m && Kept(m[g]) != map[] :: Kept(m[g])
  }

  datatype Message = Report(g: Group, p: PortNo) | Leave(g: Group, p: PortNo)

  function AfterAll(m: Membership, ms: seq<Message>): Membership {
    if ms == [] then m
    else
      var before := AfterAll(m, ms[..|ms| - 1]);
      match ms[|ms| - 1]
      case Report(g, p) => Reported(before, g, p)
      case Leave(g, p) => Left(before, g, p)
  }

  /** The last message about this port and group was a report. */
  predicate StandsReported(ms: seq<Message>, g: Group, p: PortNo) {
    ms != [] &&
    if ms[|ms| - 1].g == g && ms[|ms| - 1].p == p then ms[|ms| - 1].Report?
    else StandsReported(ms[..|ms| - 1], g, p)
  }

  lemma {:induction false} ReportedSinceQuery(m: Membership, ms: seq<Message>, g: Group, p: PortNo)
    ensures var s := StatusOf(AfterAll(Queried(m), ms), g);
            p in s && s[p] <==> StandsReported(ms, g, p)
  {
    if ms != [] {
      ReportedSinceQuery(m, ms[..|ms| - 1], g, p);
    }
  }

  /** A query round keeps exactly the ports whose last message since the query is a report. */
  lemma QueryRoundKeepsReporters(m: Membership, ms: seq<Message>, g: Group)
    ensures forall p :: p in Members(Pruned(AfterAll(Queried(m), ms)), g) <==> StandsReported(ms, g, p)
    ensures g in Pruned(AfterAll(Queried(m), ms)) ==> Members(Pruned(AfterAll(Queried(m), ms)), g) != {}
    ensures forall p :: p in StatusOf(Pruned(AfterAll(Queried(m), ms)), g) ==>
              StatusOf(Pruned(AfterAll(Queried(m), ms)), g)[p]
  {
    var after := AfterAll(Queried(m), ms);
    forall p ensures p in Members(Pruned(after), g) <==> StandsReported(ms, g, p) {
      ReportedSinceQuery(m, ms, g, p);
      if StandsReported(ms, g, p) {
        assert p in Kept(after[g]);
      }
    }
    if g in Pruned(after) {
      assert Kept(after[g]) != map[];
    }
  }

  // ---------------------------------------------------------------- the querier

  ghost predicate SameElsewhere(m: Membership, flows: FlowTable, g: Group, m': Membership, flows': FlowTable) {
    && (forall h: Group :: h != g ==> Members(m', h) == Members(m, h))
    && (forall k :: k in flows && k.1 != g ==> k in flows' && flows'[k] == flows[k])
    && (forall k :: k in flows' && k.1 != g ==> k in flows)
  }

  /** A change confined to one group only has to restore that group's entries. */
  lemma LocalChangeAgrees(server: PortNo, m: Membership, flows: FlowTable, g: Group, m': Membership, flows': FlowTable)
    requires Agrees(server, m, flows) && SameElsewhere(m, flows, g, m', flows')
    requires AgreesOn(server, Members(m', g), flows', g) && server !in Members(m', g)
    ensures Agrees(server, m', flows')
  {
    forall h: Group ensures AgreesOn(server, Members(m', h), flows', h) && server !in Members(m', h) {
      assert AgreesOn(server, Members(m, h), flows, h);
      assert server !in Members(m, h);
    }
    assert forall h :: h in m' ==> Members(m', h) == m'[h].Keys;
  }

  lemma ReportAgrees(server: PortNo, m: Membership, flows: FlowTable, g: Group, p: PortNo, actions: seq<PortNo>)
    requires Agrees(server, m, flows) && p != server
    requires Lists(actions, Members(m, g) + {p})
    ensures Agrees(server, Reported(m, g, p), flows[(server, g) := Output(actions)][(p, g) := ToController])
  {
    var m', flows' := Reported(m, g, p), flows[(server, g) := Output(actions)][(p, g) := ToController];
    assert AgreesOn(server, Members(m, g), flows, g) && server !in Members(m, g);
    assert Members(m', g) == Members(m, g) + {p};
    LocalChangeAgrees(server, m, flows, g, m', flows');
  }

  lemma LeaveAgrees(server: PortNo, m: Membership, flows: FlowTable, g: Group, p: PortNo, actions: seq<PortNo>,
                    flows': FlowTable)
    requires Agrees(server, m, flows) && p in Members(m, g)
    requires Lists(actions, Members(m, g) - {p}) && (actions == [] <==> Members(m, g) - {p} == {})
    requires flows' == if actions != [] then (flows - {(p, g)})[(server, g) := Output(actions)]
                       else flows - {(p, g)} - {(server, g)}
    ensures Agrees(server, Left(m, g, p), flows')
  {
    var m' := Left(m, g, p);
    assert AgreesOn(server, Members(m, g), flows, g) && server !in Members(m, g);
    assert Members(m', g) == Members(m, g) - {p};
    LocalChangeAgrees(server, m, flows, g, m', flows');
  }

  /** The entries of a group after a query timeout: `dels` are the silent ports. */
  function Expired(server: PortNo, flows: FlowTable, g: Group, dels: set<PortNo>, actions: seq<PortNo>): FlowTable {
    var mid := if actions == [] then flows - {(server, g)}
               else if dels != {} then flows[(server, g) := Output(actions)] else flows;
    mid - (set p | p in dels :: (p, g))
  }

  lemma ExpiryAgrees(server: PortNo, m: Membership, flows: FlowTable, g: Group, dels: set<PortNo>, actions: seq<PortNo>)
    requires Agrees(server, m, flows) && g in m
    requires dels == set p | p in m[g] && !m[g][p]
    requires Lists(actions, Kept(m[g]).Keys) && (actions == [] <==> Kept(m[g]) == map[])
    ensures Agrees(server, m[g := Kept(m[g])], Expired(server, flows, g, dels, actions))
  {
    var m', flows' := m[g := Kept(m[g])], Expired(server, flows, g, dels, actions);
    assert AgreesOn(server, Members(m, g), flows, g) && server !in Members(m, g);
    assert Members(m', g) == Members(m, g) - dels;
    assert forall p :: (p, g) in flows' && p != server <==> (p, g) in flows && p != server && p !in dels;
    LocalChangeAgrees(server, m, flows, g, m', flows');
  }

  /** Membership tables with the same members agree with the same entries. */
  lemma SameMembersAgree(server: PortNo, m: Membership, flows: FlowTable, m': Membership)
    requires Agrees(server, m, flows) && forall h: Group :: Members(m', h) == Members(m, h)
    ensures Agrees(server, m', flows)
  {
    assert forall h :: h in m' ==> m'[h].Keys == Members(m', h);
    assert forall h :: h in m ==> m[h].Keys == Members(m, h);
  }

  /** The output actions towards a set of ports, in whatever order the dictionary has. */
  method OutputActions(s: set<PortNo>) returns (ports: seq<PortNo>)
    ensures Lists(ports, s) && (ports == [] <==> s == {})
  {
    ports := [];
    var todo := s;
    while todo != {}
      invariant todo <= s && Lists(ports, s - todo) && (ports == [] <==> s == todo)
    {
      var p :| p in todo;
      todo := todo - {p};
      ports := ports + [p];
    }
  }

  class Querier {
    const serverPort: PortNo
    var mcast: Membership
    var flows: FlowTable

    ghost predicate Valid()
      reads this
    {
      Agrees(serverPort, mcast, flows)
    }

    constructor (serverPort: PortNo)
      ensures this.serverPort == serverPort && mcast == map[] && flows == map[] && Valid()
    {
      this.serverPort := serverPort;
      mcast, flows := map[], map[];
    }

    /** The entries keep saying who the members are exactly when the report does not come from
        the server port; from there, the entry that serves the group is overwritten with the
        one that takes reports to the controller. */
    method DoReport(g: Group, p: PortNo)
      requires Valid()
      modifies this
      ensures mcast == Reported(old(mcast), g, p)
      ensures (forall h: Group :: AgreesOn(serverPort, Members(mcast, h), flows, h)) <==> p != serverPort
      ensures if p != serverPort then Valid()
              else flows.Keys == old(flows).Keys + {(serverPort, g)} && flows[(serverPort, g)] == ToController
    {
      ghost var m, before := mcast, flows;
      if g !in mcast {
        mcast := mcast[g := map[]];
      }
      var update := p !in mcast[g];
      var status: map<PortNo, bool> := mcast[g];
      status := status[p := true];
      mcast := mcast[g := status];
      assert mcast == Reported(m, g, p);
      if update {
        var actions := OutputActions(mcast[g].Keys);
        flows := flows[(serverPort, g) := Output(actions)];
        flows := flows[(p, g) := ToController];
        if p != serverPort {
          assert mcast[g].Keys == Members(m, g) + {p};
          ReportAgrees(serverPort, m, before, g, p, actions);
        }
      } else {
        SameMembersAgree(serverPort, m, flows, mcast);
      }
      if p == serverPort {
        assert flows[(serverPort, g)] == ToController;
        assert !AgreesOn(serverPort, Members(mcast, g), flows, g);
      }
    }

    method DoLeave(g: Group, p: PortNo)
      requires Valid()
      modifies this
      ensures mcast == Left(old(mcast), g, p)
      ensures Valid()
    {
      ghost var m, before := mcast, flows;
      if g !in mcast {
        mcast := mcast[g := map[]];
      }
      if p in mcast[g] {
        flows := flows - {(p, g)};
        mcast := mcast[g := mcast[g] - {p}];
        var actions := OutputActions(mcast[g].Keys);
        if |actions| != 0 {
          flows := flows[(serverPort, g) := Output(actions)];
        } else {
          flows := flows - {(serverPort, g)};
        }
        assert mcast == Left(m, g, p) && mcast[g].Keys == Members(m, g) - {p};
        LeaveAgrees(serverPort, m, before, g, p, actions, flows);
      } else {
        assert StatusOf(m, g) - {p} == StatusOf(m, g);
        SameMembersAgree(serverPort, m, flows, mcast);
      }
    }

    /** Sending a query: no port counts as having reported any more. */
    method StartQuery()
      requires Valid()
      modifies this`mcast
      ensures mcast == Queried(old(mcast))
      ensures Valid()
    {
      var todo := mcast.Keys;
      while todo != {}
        invariant mcast.Keys == old(mcast).Keys && todo <= mcast.Keys
        invariant forall g :: g in mcast ==> mcast[g] == if g in todo then old(mcast)[g] else Queried(old(mcast))[g]
      {
        var g :| g in todo;
        todo := todo - {g};
        mcast := mcast[g := map p | p in mcast[g] :: false];
      }
      assert forall g: Group :: Members(mcast, g) == Members(old(mcast), g);
    }

    /** Separates the ports of a group that have reported from those that have not. */
    method SortPorts(status: map<PortNo, bool>) returns (delPorts: seq<PortNo>, actions: seq<PortNo>)
      ensures forall p :: p in delPorts <==> p in status && !status[p]
      ensures Lists(actions, Kept(status).Keys) && (actions == [] <==> Kept(status) == map[])
    {
      delPorts, actions := [], [];
      var todo := status.Keys;
      while todo != {}
        invariant todo <= status.Keys
        invariant forall p :: p in delPorts <==> p in status.Keys - todo && !status[p]
        invariant forall p :: p in actions <==> p in status.Keys - todo && status[p]
        invariant forall i, j :: 0 <= i < j < |actions| ==> actions[i] != actions[j]
      {
        var p :| p in todo;
        todo := todo - {p};
        if !status[p] {
          delPorts := delPorts + [p];
        } else {
          actions := actions + [p];
        }
      }
      assert forall p :: p in Kept(status).Keys <==> p in actions;
      if actions != [] {
        assert actions[0] in Kept(status).Keys;
      }
    }

    /** The timeout of a query for one group; `gone` tells whether no member is left. */
    method ExpireGroup(g: Group) returns (gone: bool)
      requires Valid() && g in mcast
      modifies this
      ensures Valid()
      ensures mcast == old(mcast)[g := Kept(old(mcast)[g])]
      ensures gone <==> Kept(old(mcast)[g]) == map[]
    {
      ghost var m, before := mcast, flows;
      var status := mcast[g];
      var delPorts, actions := SortPorts(status);
      ghost var dels := set p | p in delPorts;
      gone := |actions| == 0;
      if |actions| != 0 && |delPorts| != 0 {
        flows := flows[(serverPort, g) := Output(actions)];
      }
      if |actions| == 0 {
        flows := flows - {(serverPort, g)};
      }
      DropFlows(g, delPorts);
      assert delPorts == [] <==> dels == {} by {
        if delPorts != [] {
          assert delPorts[0] in dels;
        }
      }
      assert flows == Expired(serverPort, before, g, dels, actions);
      var kept := status - (set p | p in delPorts);
      assert kept == Kept(status);
      mcast := mcast[g := kept];
      ExpiryAgrees(serverPort, m, before, g, dels, actions);
    }

    /** Removes the entries of the listed ports for a group. */
    method DropFlows(g: Group, delPorts: seq<PortNo>)
      modifies this`flows
      ensures flows == old(flows) - (set p | p in delPorts :: (p, g))
    {
      for i := 0 to |delPorts|
        invariant flows == old(flows) - (set p | p in delPorts[..i] :: (p, g))
      {
        assert delPorts[..i + 1] == delPorts[..i] + [delPorts[i]];
        flows := flows - {(delPorts[i], g)};
      }
      assert delPorts[..|delPorts|] == delPorts;
    }

    /** Drops the silent ports of every group, and lists the groups left without members. */
    method ExpireGroups() returns (delGroups: set<Group>)
      requires Valid()
      modifies this
      ensures Valid() && Thinned(old(mcast), mcast, delGroups)
    {
      ghost var m := mcast;
      var todo := mcast.Keys;
      delGroups := {};
      while todo != {}
        invariant Valid() && mcast.Keys == m.Keys && todo <= m.Keys
        invariant forall g :: g in m ==> mcast[g] == if g in todo then m[g] else Kept(m[g])
        invariant forall g :: g in delGroups <==> g in m && g !in todo && Kept(m[g]) == map[]
      {
        var g :| g in todo;
        todo := todo - {g};
        var gone := ExpireGroup(g);
        if gone {
          delGroups := delGroups + {g};
        }
      }
    }

    /** The timeout of a query: silent ports are dropped, and so are groups without members. */
    method ExpireQuery()
      requires Valid()
      modifies this
      ensures mcast == Pruned(old(mcast))
      ensures Valid()
    {
      ghost var m := mcast;
      var delGroups := ExpireGroups();
      ghost var full := mcast;
      mcast := mcast - delGroups;
      ThinnedIsPruned(m, full, delGroups);
      SameMembersAgree(serverPort, full, flows, mcast);
    }
  }

  ghost predicate Thinned(m: Membership, full: Membership, delGroups: set<Group>) {
    && full.Keys == m.Keys
    && (forall g :: g in m ==> full[g] == Kept(m[g]))
    && (forall g :: g in delGroups <==> g in m && Kept(m[g]) == map[])
  }

  lemma ThinnedIsPruned(m: Membership, full: Membership, delGroups: set<Group>)
    requires Thinned(m, full, delGroups)
    ensures full - delGroups == Pruned(m)
    ensures forall g: Group :: Members(full - delGroups, g) == Members(full, g)
  {
  }
}
