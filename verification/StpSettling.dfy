/** Exchange of BPDUs settles: in an infinite run in which no port is cleared, the vectors
    held and the root believed in change only finitely often. */
module StpSettling {
  import opened Options
  import opened BpduOrder
  import opened StpPort
  import opened StpElection

  /** At least as good a vector as before; any vector is better than none. */
  ghost predicate NoWorse(a: Option<Vector>, b: Option<Vector>) {
    b.None? || (a.Some? && AtMost(a.value, b.value))
  }

  ghost predicate CostsCount(a: Option<Vector>) {
    a.Some? ==> a.value.cost >= 0
  }

  ghost predicate ImprovesAt(f: nat -> Option<Vector>, i: nat) {
    CostsCount(f(i)) && NoWorse(f(i + 1), f(i))
  }

  ghost predicate Improves(f: nat -> Option<Vector>) {
    forall i :: ImprovesAt(f, i)
  }

  lemma {:induction false} ImprovesOverall(f: nat -> Option<Vector>, i: nat, j: nat)
    requires Improves(f) && i <= j
    ensures NoWorse(f(j), f(i))
    decreases j - i
  {
    if i < j {
      ImprovesOverall(f, i, j - 1);
      assert ImprovesAt(f, j - 1);
    }
  }

  /** There is no endless sequence of ever better vectors. */
  lemma {:induction false} HeldSettles(f: nat -> Option<Vector>, start: nat) returns (n: nat)
    requires Improves(f)
    ensures forall i :: i >= n ==> f(i) == f(n)
    decreases f(start).None?,
              if f(start).Some? then f(start).value.root else 0,
              if f(start).Some? then f(start).value.cost else 0,
              if f(start).Some? then f(start).value.bridge else 0,
              if f(start).Some? then f(start).value.port else 0
  {
    if i :| i > start && f(i) != f(start) {
      ImprovesOverall(f, start, i);
      assert ImprovesAt(f, start) && ImprovesAt(f, i);
      n := HeldSettles(f, i);
    } else {
      n := start;
    }
  }

  // ---------------------------------------------------------------- one bridge

  /** The events that clear no port. The cost in a BPDU is an unsigned number. */
  predicate Exchange(e: BridgeEvent) {
    (e.ConfigBpdu? && e.vector.cost >= 0) || e.ForwardDelay?
  }

  /** An infinite run of received BPDUs and forward-delay timers. */
  ghost predicate IsExchange(vs: nat -> BridgeView, es: nat -> BridgeEvent) {
    && Consistent(vs(0))
    && (forall n :: n in vs(0).ports ==> CostsCount(vs(0).ports[n].held))
    && (forall i :: ExchangeAt(vs, es, i))
  }

  ghost predicate ExchangeAt(vs: nat -> BridgeView, es: nat -> BridgeEvent, i: nat) {
    Exchange(es(i)) && (Sound(vs(i)) ==> Step(vs(i), es(i), vs(i + 1)))
  }

  ghost predicate PortImproves(p: PortView, q: PortView) {
    && q.InService() == p.InService()
    && NoWorse(q.held, p.held)
    && (CostsCount(p.held) ==> CostsCount(q.held))
  }

  lemma HearingImproves(p: PortView, vec: Vector, t: Times)
    requires PortSound(p) && p.InService() && vec.cost >= 0
    ensures PortSound(Heard(p, vec, t)) && PortImproves(p, Heard(p, vec, t))
  {
  }

  /** A recalculation that does not clear the ports leaves them their vectors. */
  lemma RecalculationKeepsVectors(v: BridgeView, v': BridgeView)
    requires Sound(v) && RecalculatesTo(v, false, v')
    ensures v'.id == v.id && v'.ports.Keys == v.ports.Keys
    ensures forall n :: n in v.ports ==>
              v'.ports[n].InService() == v.ports[n].InService() && v'.ports[n].held == v.ports[n].held
  {
    var rp :| Recalculated(v, false, rp, v');
    SoundAfterRecalculation(v, false, rp, v');
  }

  lemma ExchangeImproves(v: BridgeView, e: BridgeEvent, v': BridgeView)
    requires Sound(v) && Exchange(e) && Step(v, e, v')
    ensures v'.id == v.id && v'.ports.Keys == v.ports.Keys
    ensures forall n :: n in v.ports ==> PortImproves(v.ports[n], v'.ports[n])
  {
    if e.ConfigBpdu? && v' != v {
      HearingImproves(v.ports[e.n], e.vector, e.bpduTimes);
      RecalculationKeepsVectors(v.(ports := v.ports[e.n := Heard(v.ports[e.n], e.vector, e.bpduTimes)]), v');
    }
  }

  /** The bridge of the run at moment `i` has the ports it began with. */
  ghost predicate SameBridge(v: BridgeView, w: BridgeView) {
    && w.id == v.id && w.ports.Keys == v.ports.Keys
    && (forall n :: n in v.ports ==> w.ports[n].InService() == v.ports[n].InService() && CostsCount(w.ports[n].held))
  }

  lemma {:induction false} ExchangeKeeps(vs: nat -> BridgeView, es: nat -> BridgeEvent, i: nat)
    requires IsExchange(vs, es)
    ensures Consistent(vs(i)) && SameBridge(vs(0), vs(i))
  {
    if i > 0 {
      ExchangeKeeps(vs, es, i - 1);
      assert ExchangeAt(vs, es, i - 1);
      ExchangeImproves(vs(i - 1), es(i - 1), vs(i));
      StepKeepsElectionIffBenign(vs(i - 1), es(i - 1), vs(i));
      ImprovedIsSame(vs(0), vs(i - 1), vs(i));
    }
  }

  lemma ImprovedIsSame(v: BridgeView, w: BridgeView, u: BridgeView)
    requires SameBridge(v, w) && u.id == w.id && u.ports.Keys == w.ports.Keys
    requires forall n :: n in w.ports ==> PortImproves(w.ports[n], u.ports[n])
    ensures SameBridge(v, u)
  {
    forall n | n in v.ports
      ensures u.ports[n].InService() == v.ports[n].InService() && CostsCount(u.ports[n].held)
    {
      assert PortImproves(w.ports[n], u.ports[n]);
    }
  }

  ghost function HeldAt(v: BridgeView, n: nat): Option<Vector> {
    if n in v.ports then v.ports[n].held else None
  }

  ghost predicate PortSettled(vs: nat -> BridgeView, n: nat, from: nat) {
    forall i :: i >= from ==> HeldAt(vs(i), n) == HeldAt(vs(from), n)
  }

  lemma PortSettles(vs: nat -> BridgeView, es: nat -> BridgeEvent, n: nat) returns (from: nat)
    requires IsExchange(vs, es) && n in vs(0).ports
    ensures PortSettled(vs, n, from)
  {
    var held := (i: nat) => HeldAt(vs(i), n);
    forall i: nat ensures ImprovesAt(held, i) {
      ExchangeKeeps(vs, es, i);
      assert ExchangeAt(vs, es, i);
      ExchangeImproves(vs(i), es(i), vs(i + 1));
      assert PortImproves(vs(i).ports[n], vs(i + 1).ports[n]);
    }
    from := HeldSettles(held, 0);
    forall i | i >= from ensures HeldAt(vs(i), n) == HeldAt(vs(from), n) {
      assert held(i) == held(from);
    }
  }

  lemma {:induction false} PortsSettle(vs: nat -> BridgeView, es: nat -> BridgeEvent, ns: set<nat>) returns (from: nat)
    requires IsExchange(vs, es) && ns <= vs(0).ports.Keys
    ensures forall n :: n in ns ==> PortSettled(vs, n, from)
    decreases |ns|
  {
    if ns == {} {
      from := 0;
    } else {
      var n :| n in ns;
      var a := PortSettles(vs, es, n);
      var b := PortsSettle(vs, es, ns - {n});
      from := if a < b then b else a;
      forall m | m in ns ensures PortSettled(vs, m, from) {
        assert m == n || m in ns - {n};
        SettledLater(vs, m, if m == n then a else b, from);
      }
    }
  }

  lemma SettledLater(vs: nat -> BridgeView, n: nat, a: nat, b: nat)
    requires PortSettled(vs, n, a) && a <= b
    ensures PortSettled(vs, n, b)
  {
  }

  /** The root belief is a function of the vectors held. */
  lemma RootIsDetermined(v: BridgeView, w: BridgeView)
    requires Consistent(v) && Consistent(w) && v.id == w.id && v.ports.Keys == w.ports.Keys
    requires forall n :: n in v.ports ==>
               v.ports[n].InService() == w.ports[n].InService() && v.ports[n].held == w.ports[n].held
    ensures v.root == w.root
  {
    var p :| ElectedBy(v, p);
    var q :| ElectedBy(w, q);
    assert forall n :: Holds(v.ports, n) <==> Holds(w.ports, n);
    if p.Some? && q.Some? {
      PrecedesIsStrictTotalOrder(v.ports[p.value].held.value, w.ports[q.value].held.value, v.ports[p.value].held.value);
    }
  }

  /** In every infinite run of BPDUs and forward-delay timers, from some moment on no port changes its
      vector and the bridge does not change its root or root path cost any more. */
  lemma ExchangeSettles(vs: nat -> BridgeView, es: nat -> BridgeEvent) returns (from: nat)
    requires IsExchange(vs, es)
    ensures forall n :: n in vs(0).ports ==> PortSettled(vs, n, from)
    ensures forall i :: i >= from ==> vs(i).root == vs(from).root
  {
    from := PortsSettle(vs, es, vs(0).ports.Keys);
    forall i | i >= from ensures vs(i).root == vs(from).root {
      ExchangeKeeps(vs, es, i);
      ExchangeKeeps(vs, es, from);
      forall n | n in vs(0).ports ensures vs(i).ports[n].held == vs(from).ports[n].held {
        assert PortSettled(vs, n, from) && HeldAt(vs(i), n) == HeldAt(vs(from), n);
      }
      RootIsDetermined(vs(i), vs(from));
    }
  }
}
