/** What a bridge holds and believes, read off the BPDUs its ports have received. */
module StpHistory {
  import opened Options
  import opened BpduOrder
  import opened StpPort
  import opened StpElection
  import opened StpSettling

  /** A BPDU as received: its vector and its times. */
  type Notice = (Vector, Times)

  /** The BPDU counts: the port is in service, and the message has not outlived its age. */
  predicate Counts(v: BridgeView, e: BridgeEvent, n: nat) {
    e.ConfigBpdu? && e.n == n && n in v.ports && v.ports[n].InService() && e.bpduTimes.messageAge <= e.bpduTimes.maxAge
  }

  /** The port forgets what it has received: it comes or goes, its link goes down, the root
      port's does, or BPDUs have been waited for in vain. */
  predicate Forgets(v: BridgeView, e: BridgeEvent, n: nat) {
    match e
    case PortAdded(m, _, _, _) => m == n && n <= 0xfff
    case PortDeleted(m) => m == n || (m in v.ports && v.ports[m].role == RootPort)
    case LinkDown(m) => m == n || (m in v.ports && v.ports[m].role == RootPort)
    case WaitTimeout => true
    case _ => false
  }

  /** The BPDUs that count for a port since it last forgot. */
  function NoticesSince(vs: seq<BridgeView>, es: seq<BridgeEvent>, n: nat): seq<Notice>
    requires |vs| == |es| + 1
  {
    if es == [] then []
    else
      var k := |es| - 1;
      var earlier := NoticesSince(vs[..|es|], es[..k], n);
      if Forgets(vs[k], es[k], n) then []
      else if Counts(vs[k], es[k], n) then earlier + [(es[k].vector, es[k].bpduTimes)]
      else earlier
  }

  /** The times that came with a vector last. */
  function LatestTimes(ns: seq<Notice>, v: Vector): Option<Times> {
    if ns == [] then None
    else if ns[|ns| - 1].0 == v then Some(ns[|ns| - 1].1)
    else LatestTimes(ns[..|ns| - 1], v)
  }

  ghost predicate AtMostAll(v: Vector, ns: seq<Notice>) {
    forall i :: 0 <= i < |ns| ==> AtMost(v, ns[i].0)
  }

  /** The port holds the least vector of these, with the times that came with it last. */
  ghost predicate HoldsLeast(p: PortView, ns: seq<Notice>) {
    && (p.held.None? <==> ns == [])
    && (p.held.Some? ==>
          AtMostAll(p.held.value, ns) && p.heldTimes.Some? && p.heldTimes == LatestTimes(ns, p.held.value))
  }

  lemma HearingHoldsLeast(p: PortView, vec: Vector, t: Times, ns: seq<Notice>)
    requires HoldsLeast(p, ns)
    ensures HoldsLeast(Heard(p, vec, t), ns + [(vec, t)])
  {
    var all := ns + [(vec, t)];
    assert all[..|all| - 1] == ns;
    if p.held.Some? {
      ComparisonIsLexicographic(p.held.value, p.heldTimes, vec, t);
      PrecedesIsStrictTotalOrder(vec, p.held.value, vec);
      forall i | 0 <= i < |ns| ensures AtMost(Heard(p, vec, t).held.value, ns[i].0) {
        PrecedesIsStrictTotalOrder(vec, p.held.value, ns[i].0);
      }
    }
  }

  lemma PortAfterRecalculationHolds(p: PortView, init: bool, role: Role, root: Priority, times: Times)
    requires PortSound(p)
    ensures var low := if p.InService() then Downed(p, Block, init) else p;
            var q := if low.InService() then Upped(low, role, root, times) else p;
            if init then q.held.None? else q.held == p.held && q.heldTimes == p.heldTimes
  {
  }

  /** A recalculation that does not clear leaves vectors and times; one that does clears all. */
  lemma RecalculationHolds(v: BridgeView, init: bool, v': BridgeView)
    requires Sound(v) && RecalculatesTo(v, init, v')
    ensures Sound(v') && v'.ports.Keys == v.ports.Keys
    ensures !init ==> forall n :: n in v.ports ==>
              v'.ports[n].held == v.ports[n].held && v'.ports[n].heldTimes == v.ports[n].heldTimes
    ensures init ==> forall n :: n in v.ports ==> v'.ports[n].held.None?
  {
    var rp :| Recalculated(v, init, rp, v');
    SoundAfterRecalculation(v, init, rp, v');
    var low := Lowered(v.ports, init);
    forall n | n in v.ports
      ensures if init then v'.ports[n].held.None?
              else v'.ports[n].held == v.ports[n].held && v'.ports[n].heldTimes == v.ports[n].heldTimes
    {
      PortAfterRecalculationHolds(v.ports[n], init, RoleOf(v.id, low, rp, n), v'.root, v'.rootTimes);
    }
  }

  ghost predicate HoldsAt(v: BridgeView, n: nat, ns: seq<Notice>) {
    if n in v.ports then HoldsLeast(v.ports[n], ns) else ns == []
  }

  lemma BpduHolds(v: BridgeView, e: BridgeEvent, v': BridgeView, n: nat, ns: seq<Notice>)
    requires Sound(v) && e.ConfigBpdu? && Step(v, e, v') && HoldsAt(v, n, ns)
    ensures HoldsAt(v', n, if Counts(v, e, n) then ns + [(e.vector, e.bpduTimes)] else ns)
  {
    if e.n in v.ports {
      if Counts(v, e, e.n) && v' != v {
        assert PortSound(v.ports[e.n]) && PortSound(Heard(v.ports[e.n], e.vector, e.bpduTimes));
        RecalculationHolds(v.(ports := v.ports[e.n := Heard(v.ports[e.n], e.vector, e.bpduTimes)]), false, v');
      }
      if Counts(v, e, n) {
        HearingHoldsLeast(v.ports[n], e.vector, e.bpduTimes, ns);
      }
    }
  }

  lemma DownForgets(v: BridgeView, m: nat, v': BridgeView)
    requires Sound(v) && m in v.ports && LinkGoesDown(v, m, v')
    ensures Sound(v') && v'.ports.Keys == v.ports.Keys && v'.ports[m].held.None?
    ensures v.ports[m].role == RootPort ==> forall n :: n in v.ports ==> v'.ports[n].held.None?
    ensures v.ports[m].role != RootPort ==> forall n :: n in v.ports && n != m ==> v'.ports[n] == v.ports[n]
  {
    var cut := v.(ports := v.ports[m := Downed(v.ports[m], Disable, true)]);
    assert PortSound(v.ports[m]) && PortSound(cut.ports[m]);
    if v.ports[m].role == RootPort {
      RecalculationHolds(cut, true, v');
    }
  }

  lemma StepKeepsSound(v: BridgeView, e: BridgeEvent, v': BridgeView)
    requires Sound(v) && Step(v, e, v')
    ensures Sound(v')
  {
    match e
    case ConfigBpdu(n, vec, t) =>
      if v' != v {
        assert PortSound(v.ports[n]) && PortSound(Heard(v.ports[n], vec, t));
        RecalculationHolds(v.(ports := v.ports[n := Heard(v.ports[n], vec, t)]), false, v');
      }
    case WaitTimeout => RecalculationHolds(v, true, v');
    case LinkDown(m) => DownForgets(v, m, v');
    case PortDeleted(m) =>
      var mid :| LinkGoesDown(v, m, mid) && v' == mid.(ports := mid.ports - {m});
      DownForgets(v, m, mid);
    case _ =>
  }

  lemma StepHolds(v: BridgeView, e: BridgeEvent, v': BridgeView, n: nat, ns: seq<Notice>)
    requires Sound(v) && Step(v, e, v') && HoldsAt(v, n, ns)
    ensures HoldsAt(v', n, if Forgets(v, e, n) then []
                           else if Counts(v, e, n) then ns + [(e.vector, e.bpduTimes)] else ns)
  {
    match e
    case ConfigBpdu(_, _, _) => BpduHolds(v, e, v', n, ns);
    case WaitTimeout => RecalculationHolds(v, true, v');
    case LinkDown(m) => DownForgets(v, m, v');
    case PortDeleted(m) =>
      var mid :| LinkGoesDown(v, m, mid) && v' == mid.(ports := mid.ports - {m});
      DownForgets(v, m, mid);
    case _ =>
  }

  /** In every run of a bridge, a port holds the least of the unaged vectors it has received
      in service since it last forgot, with the times that came with that vector last. */
  lemma {:induction false} PortsHoldLeast(vs: seq<BridgeView>, es: seq<BridgeEvent>, n: nat)
    requires |vs| == |es| + 1 && vs[0].ports == map[]
    requires forall i :: 0 <= i < |es| && Sound(vs[i]) ==> Step(vs[i], es[i], vs[i + 1])
    ensures Sound(vs[|es|]) && HoldsAt(vs[|es|], n, NoticesSince(vs, es, n))
  {
    if es != [] {
      var k := |es| - 1;
      PortsHoldLeast(vs[..|es|], es[..k], n);
      StepKeepsSound(vs[k], es[k], vs[k + 1]);
      StepHolds(vs[k], es[k], vs[k + 1], n, NoticesSince(vs[..|es|], es[..k], n));
    }
  }

  /** What a bridge believes: the best of what its ports have received, with the times that
      came with it, or itself. */
  ghost predicate BelievesBest(v: BridgeView) {
    && v.root.Root() <= v.id
    && (forall n :: Holds(v.ports, n) ==> v.root.Root() <= v.ports[n].held.value.root)
    && (v.root.Root() == v.id ==> v.root == Own(v.id))
    && (v.root.Root() < v.id ==> exists n :: Holds(v.ports, n) && v.root == Received(v.ports[n].held.value))
  }

  /** After a BPDU that counts, the port holds a vector no worse than it and than what it held
      before, which is one of the two, and the bridge believes in no worse a root; any other
      BPDU changes nothing. */
  lemma BpduIsTaken(v: BridgeView, e: BridgeEvent, v': BridgeView)
    requires Consistent(v) && e.ConfigBpdu? && Step(v, e, v')
    ensures !Counts(v, e, e.n) ==> v' == v
    ensures Counts(v, e, e.n) ==>
              && e.n in v'.ports && v'.ports[e.n].held.Some?
              && AtMost(v'.ports[e.n].held.value, e.vector) && NoWorse(v'.ports[e.n].held, v.ports[e.n].held)
              && (v'.ports[e.n].held == Some(e.vector) || v'.ports[e.n].held == v.ports[e.n].held)
              && v'.root.Root() <= e.vector.root
    ensures BelievesBest(v')
  {
    StepKeepsElectionIffBenign(v, e, v');
    var rp :| ElectedBy(v', rp);
    ElectionHasOneRootPort(v', rp);
    if Counts(v, e, e.n) {
      var p := v.ports[e.n];
      if p.held.Some? {
        ComparisonIsLexicographic(p.held.value, p.heldTimes, e.vector, e.bpduTimes);
        PrecedesIsStrictTotalOrder(e.vector, p.held.value, e.vector);
      }
      if v' != v {
        assert PortSound(p) && PortSound(Heard(p, e.vector, e.bpduTimes));
        RecalculationHolds(v.(ports := v.ports[e.n := Heard(p, e.vector, e.bpduTimes)]), false, v');
      }
      assert Holds(v'.ports, e.n);
    }
  }

  /** When BPDUs have been waited for in vain, the bridge forgets all and is its own root. */
  lemma TimeoutForgets(v: BridgeView, v': BridgeView)
    requires Sound(v) && Step(v, WaitTimeout, v')
    ensures v'.root == Own(v.id) && v'.rootTimes == v.times
    ensures forall n :: n in v'.ports ==> v'.ports[n].held.None?
  {
    RecalculationHolds(v, true, v');
    var rp :| Recalculated(v, true, rp, v');
    RecalculationElects(v, true, rp, v');
  }
}
