/** One bridge port of the spanning tree library: the class `Port` and every run of it. */
module StpPort {
  import opened Options
  import opened BpduOrder

  datatype Role = RootPort | DesignatedPort | NonDesignatedPort

  datatype PortState = Disable | Block | Listen | Learn | Forward

  /** What a bridge believes about the root: itself, or the vector its root port holds. */
  datatype Priority = Own(id: nat) | Received(vector: Vector) {
    function Root(): nat {
      match this
      case Own(id) => id
      case Received(v) => v.root
    }

    function Cost(): int {
      match this
      case Own(_) => 0
      case Received(v) => v.cost
    }
  }

  /** The fields of a port that the protocol reads or writes. */
  datatype PortView = PortView(
    portId: nat, pathCost: int, configEnable: bool,
    state: PortState, role: Role,
    held: Option<Vector>, heldTimes: Option<Times>,
    priority: Priority, times: Times)
  {
    predicate InService() { state != Disable }
  }

  function Upped(p: PortView, role: Role, priority: Priority, times: Times): PortView {
    p.(priority := priority, times := times, role := role,
       state := if p.configEnable then Listen else Disable)
  }

  function Downed(p: PortView, state: PortState, msgInit: bool): PortView {
    if !p.configEnable then p
    else if msgInit then p.(held := None, heldTimes := None, role := DesignatedPort, state := state)
    else p.(role := DesignatedPort, state := state)
  }

  /** The forward-delay timer runs in these two states, and a zero delay never expires. */
  predicate TimerRuns(p: PortView) {
    p.state in {Listen, Learn} && p.times.forwardDelay != 0
  }

  function Expired(p: PortView): PortView
    requires TimerRuns(p)
  {
    p.(state := if p.state == Listen then Learn
                else if p.role == NonDesignatedPort then Block else Forward)
  }

  function Heard(p: PortView, v: Vector, t: Times): PortView {
    if CompareBpduInfo(p.held, p.heldTimes, v, t) == Superior
    then p.(held := Some(v), heldTimes := Some(t)) else p
  }

  class Port {
    const portNo: nat
    const portId: nat
    const pathCost: int
    const configEnable: bool
    var state: PortState
    var role: Role
    var held: Option<Vector>
    var heldTimes: Option<Times>
    var priority: Priority
    var times: Times

    function View(): PortView
      reads this
    {
      PortView(portId, pathCost, configEnable, state, role, held, heldTimes, priority, times)
    }

    /** A new port starts as a designated port of a bridge that believes itself the root. */
    constructor (portNo: nat, portId: nat, pathCost: int, configEnable: bool, bridgeId: nat, bridgeTimes: Times)
      ensures this.portNo == portNo
      ensures View() == NewPort(portId, pathCost, configEnable, bridgeId, bridgeTimes)
    {
      this.portNo := portNo;
      this.portId := portId;
      this.pathCost := pathCost;
      this.configEnable := configEnable;
      held, heldTimes := None, None;
      priority, times := Own(bridgeId), bridgeTimes;
      role := DesignatedPort;
      state := if configEnable then Listen else Disable;
    }

    method Up(newRole: Role, rootPriority: Priority, rootTimes: Times)
      modifies this
      ensures View() == Upped(old(View()), newRole, rootPriority, rootTimes)
    {
      priority := rootPriority;
      times := rootTimes;
      role := newRole;
      state := if configEnable then Listen else Disable;
    }

    method Down(newState: PortState, msgInit: bool)
      requires newState in {Disable, Block}
      modifies this
      ensures View() == Downed(old(View()), newState, msgInit)
    {
      if !configEnable {
        return;
      }
      if msgInit {
        held, heldTimes := None, None;
      }
      role := DesignatedPort;
      state := newState;
    }

    method TimerExpires()
      requires TimerRuns(View())
      modifies this
      ensures View() == Expired(old(View()))
    {
      if state == Listen {
        state := Learn;
      } else if role == RootPort || role == DesignatedPort {
        state := Forward;
      } else {
        state := Block;
      }
    }

    method ReceiveConfigBpdu(v: Vector, t: Times) returns (info: Order)
      modifies this
      ensures info == CompareBpduInfo(old(held), old(heldTimes), v, t)
      ensures View() == Heard(old(View()), v, t)
    {
      info := CompareBpduInfo(held, heldTimes, v, t);
      if info == Superior {
        held, heldTimes := Some(v), Some(t);
      }
    }
  }

  function NewPort(portId: nat, pathCost: int, configEnable: bool, bridgeId: nat, bridgeTimes: Times): PortView {
    PortView(portId, pathCost, configEnable, if configEnable then Listen else Disable,
             DesignatedPort, None, None, Own(bridgeId), bridgeTimes)
  }

  // ---------------------------------------------------------------- runs of one port

  datatype Event =
    | UpEvent(role: Role, priority: Priority, times: Times)
    | DownEvent(state: PortState, msgInit: bool)
    | Expiry
    | Bpdu(vector: Vector, bpduTimes: Times)

  predicate Possible(p: PortView, e: Event) {
    match e
    case DownEvent(s, _) => s in {Disable, Block}
    case Expiry => TimerRuns(p)
    case _ => true
  }

  function After(p: PortView, e: Event): PortView
    requires Possible(p, e)
  {
    match e
    case UpEvent(r, prio, t) => Upped(p, r, prio, t)
    case DownEvent(s, i) => Downed(p, s, i)
    case Expiry => Expired(p)
    case Bpdu(v, t) => Heard(p, v, t)
  }

  /** The port after the events `es`, or nothing when one of them could not happen. */
  function Run(first: PortView, es: seq<Event>): Option<PortView> {
    if es == [] then Some(first)
    else
      var q, e := Run(first, es[..|es| - 1]), es[|es| - 1];
      if q.Some? && Possible(q.value, e) then Some(After(q.value, e)) else None
  }

  predicate IsNew(first: PortView) {
    first == NewPort(first.portId, first.pathCost, first.configEnable, first.priority.Root(), first.times)
  }

  /** The last command given to the port; creation counts as being brought up as designated. */
  function LastCommand(es: seq<Event>, first: PortView): Event {
    if es == [] then UpEvent(DesignatedPort, first.priority, first.times)
    else match es[|es| - 1]
      case UpEvent(r, p, t) => UpEvent(r, p, t)
      case DownEvent(s, i) => DownEvent(s, i)
      case _ => LastCommand(es[..|es| - 1], first)
  }

  /** Timer expiries since the last command. */
  function ExpiriesSince(es: seq<Event>): nat {
    if es == [] then 0
    else match es[|es| - 1]
      case Expiry => ExpiriesSince(es[..|es| - 1]) + 1
      case Bpdu(_, _) => ExpiriesSince(es[..|es| - 1])
      case _ => 0
  }

  /** Vectors received since the port was last cleared; a port that is configured off
      ignores the command that clears it. */
  function ReceivedSince(es: seq<Event>, configEnable: bool): seq<Vector> {
    if es == [] then []
    else
      var earlier := ReceivedSince(es[..|es| - 1], configEnable);
      match es[|es| - 1]
      case DownEvent(_, msgInit) => if msgInit && configEnable then [] else earlier
      case Bpdu(v, _) => earlier + [v]
      case _ => earlier
  }

  /** The state that the history of commands and expiries prescribes. */
  ghost predicate StateMatchesHistory(es: seq<Event>, first: PortView, p: PortView) {
    && p.configEnable == first.configEnable
    && (!p.configEnable ==> p.state == Disable)
    && (p.configEnable ==>
          match LastCommand(es, first)
          case UpEvent(role, prio, times) =>
            && p.role == role && p.priority == prio && p.times == times
            && ExpiriesSince(es) <= 2
            && p.state == (if ExpiriesSince(es) == 0 then Listen
                           else if ExpiriesSince(es) == 1 then Learn
                           else if role == NonDesignatedPort then Block else Forward)
          case DownEvent(s, _) =>
            p.role == DesignatedPort && p.state == s && ExpiriesSince(es) == 0 && s in {Disable, Block}
          case _ => false)
  }

  /** In every run the state is settled by the last command and the number of timer
      expiries after it. */
  lemma {:induction false} StateFollowsHistory(es: seq<Event>, first: PortView)
    requires IsNew(first) && Run(first, es).Some?
    ensures StateMatchesHistory(es, first, Run(first, es).value)
  {
    if es != [] {
      StateFollowsHistory(es[..|es| - 1], first);
    }
  }

  /** Forwarding is reached by exactly two timer expiries after the latest `up`, with no
      `down` in between, in the root or designated role, and by nothing else. */
  lemma ForwardsExactlyAfterTwoExpiries(es: seq<Event>, first: PortView, p: PortView)
    requires IsNew(first) && Run(first, es) == Some(p)
    ensures p.state == Forward <==>
            && first.configEnable
            && LastCommand(es, first).UpEvent?
            && LastCommand(es, first).role != NonDesignatedPort
            && ExpiriesSince(es) == 2
    ensures p.state == Forward ==> p.role in {RootPort, DesignatedPort}
    ensures p.role == NonDesignatedPort && p.configEnable && ExpiriesSince(es) >= 2 ==> p.state == Block
  {
    StateFollowsHistory(es, first);
  }

  /** And forwarding can be reached: commands and BPDUs are taken at any time, and the two timers
      expire exactly in a port that is configured on and has a delay to wait for. */
  lemma ForwardingIsReached(first: PortView, role: Role, prio: Priority, t: Times, v: Vector, bt: Times)
    requires IsNew(first)
    ensures var r := Run(first, [UpEvent(role, prio, t), Bpdu(v, bt), Expiry, Expiry]);
            && (r.Some? <==> first.configEnable && t.forwardDelay != 0)
            && (r.Some? ==> r.value.state == if role == NonDesignatedPort then Block else Forward)
  {
    var es := [UpEvent(role, prio, t), Bpdu(v, bt), Expiry, Expiry];
    assert es[..3][..2] == es[..2] && es[..3][..2][..1] == es[..1] && es[..2][..1] == es[..1] && es[..1][..0] == [];
    assert Run(first, es[..1]) == Some(Upped(first, role, prio, t));
    assert Run(first, es[..2]) == Some(Heard(Upped(first, role, prio, t), v, bt));
    assert Run(first, es[..3]).Some? <==> first.configEnable && t.forwardDelay != 0;
  }

  ghost predicate IsLeast(v: Vector, vs: seq<Vector>) {
    v in vs && forall w :: w in vs ==> AtMost(v, w)
  }

  /** The vector a port holds is the least of those received since it was last cleared. */
  lemma {:induction false} HoldsLeastReceived(es: seq<Event>, first: PortView, p: PortView)
    requires IsNew(first) && Run(first, es) == Some(p)
    ensures p.configEnable == first.configEnable
    ensures p.held.None? <==> ReceivedSince(es, p.configEnable) == []
    ensures p.held.Some? ==> IsLeast(p.held.value, ReceivedSince(es, p.configEnable))
  {
    if es != [] {
      var before, e := es[..|es| - 1], es[|es| - 1];
      var q := Run(first, before).value;
      HoldsLeastReceived(before, first, q);
      if e.Bpdu? && q.held.Some? {
        HeardKeepsLeast(q, e.vector, e.bpduTimes, ReceivedSince(before, q.configEnable));
      }
    }
  }

  lemma HeardKeepsLeast(q: PortView, v: Vector, t: Times, vs: seq<Vector>)
    requires q.held.Some? && IsLeast(q.held.value, vs)
    ensures Heard(q, v, t).held.Some? && IsLeast(Heard(q, v, t).held.value, vs + [v])
  {
  }
}
