/** Two BFD sessions joined by a channel that may lose, repeat and reorder packets. */
module BfdPair {
  import B = BfdSession
  import H = BfdHistory

  datatype Side = Left | Right

  function Other(side: Side): Side {
    if side == Left then Right else Left
  }

  /** The channel remembers every packet ever sent; any of them may arrive, any number of
      times and in any order, or never. */
  datatype System = System(left: B.Session, right: B.Session, fromLeft: set<B.Packet>, fromRight: set<B.Packet>)

  function At(s: System, side: Side): B.Session {
    if side == Left then s.left else s.right
  }

  function From(s: System, side: Side): set<B.Packet> {
    if side == Left then s.fromLeft else s.fromRight
  }

  datatype Step =
    | Send(side: Side)
    | Deliver(side: Side, pkt: B.Packet, percent1: nat, percent2: nat)
    | Expire(side: Side, percent: nat)

  predicate Possible(s: System, t: Step) {
    match t
    case Send(side) => B.Possible(At(s, side), B.Transmission)
    case Deliver(side, pkt, p1, p2) =>
      pkt in From(s, Other(side)) && B.Possible(At(s, side), B.Arrival(pkt, p1, p2))
    case Expire(side, p) => B.Possible(At(s, side), B.Timeout(p))
  }

  function EventOf(t: Step): B.Event {
    match t
    case Send(_) => B.Transmission
    case Deliver(_, pkt, p1, p2) => B.Arrival(pkt, p1, p2)
    case Expire(_, p) => B.Timeout(p)
  }

  /** One side acts; the other side does not notice. */
  ghost predicate Moves(s: System, t: Step, s': System) {
    && Possible(s, t)
    && At(s', t.side) == B.After(At(s, t.side), EventOf(t))
    && At(s', Other(t.side)) == At(s, Other(t.side))
    && From(s', t.side) == From(s, t.side) + (if t.Send? then {B.PacketOf(At(s, t.side))} else {})
    && From(s', Other(t.side)) == From(s, Other(t.side))
  }

  /** A run: the states passed through, and the steps between them. */
  ghost predicate IsRun(ss: seq<System>, ts: seq<Step>) {
    && |ss| == |ts| + 1
    && (forall side :: At(ss[0], side).state == B.Down && From(ss[0], side) == {})
    && (forall i :: 0 <= i < |ts| ==> Moves(ss[i], ts[i], ss[i + 1]))
  }

  predicate Alive(x: B.State) {
    x == B.Init || x == B.Up
  }

  /** Before moment `n` a packet has been delivered to this side. */
  ghost predicate Heard(ts: seq<Step>, n: nat, side: Side)
    requires n <= |ts|
  {
    exists i :: 0 <= i < n && ts[i].Deliver? && ts[i].side == side
  }

  /** At some moment up to `n` this side was in the state Init or Up. */
  ghost predicate WasAlive(ss: seq<System>, n: nat, side: Side)
    requires n < |ss|
  {
    exists i :: 0 <= i <= n && Alive(At(ss[i], side).state)
  }

  ghost predicate SideInvariant(ss: seq<System>, ts: seq<Step>, n: nat, side: Side)
    requires n <= |ts| && |ss| == |ts| + 1
  {
    && At(ss[n], side).state != B.AdminDown
    && (forall p :: p in From(ss[n], side) ==> p.state != B.AdminDown && (Alive(p.state) ==> WasAlive(ss, n, side)))
    && (WasAlive(ss, n, side) ==> Heard(ts, n, side))
    && (At(ss[n], side).state == B.Up ==> WasAlive(ss, n, Other(side)))
  }

  lemma {:induction false} RunsKeepSides(ss: seq<System>, ts: seq<Step>, n: nat)
    requires IsRun(ss, ts) && n <= |ts|
    ensures SideInvariant(ss, ts, n, Left) && SideInvariant(ss, ts, n, Right)
  {
    if n > 0 {
      RunsKeepSides(ss, ts, n - 1);
      StepKeepsSide(ss, ts, n - 1, Left);
      StepKeepsSide(ss, ts, n - 1, Right);
    }
  }

  lemma StepKeepsSide(ss: seq<System>, ts: seq<Step>, n: nat, side: Side)
    requires IsRun(ss, ts) && n < |ts|
    requires SideInvariant(ss, ts, n, Left) && SideInvariant(ss, ts, n, Right)
    ensures SideInvariant(ss, ts, n + 1, side)
  {
    var s, t, s' := ss[n], ts[n], ss[n + 1];
    assert Moves(s, t, s');
    StateMoves(At(s, t.side), EventOf(t));
    assert WasAlive(ss, n, side) ==> WasAlive(ss, n + 1, side);
    assert WasAlive(ss, n, Other(side)) ==> WasAlive(ss, n + 1, Other(side));
    assert Heard(ts, n, side) ==> Heard(ts, n + 1, side);
    assert t.Deliver? && t.side == side ==> Heard(ts, n + 1, side);
    assert WasAlive(ss, n + 1, side) ==> WasAlive(ss, n, side) || Alive(At(s', side).state);
  }

  /** How one event can change the state: a session comes alive only on a delivery, and
      comes up only on a packet from a live sender. */
  lemma StateMoves(s: B.Session, e: B.Event)
    requires s.state != B.AdminDown
    ensures B.After(s, e).state != B.AdminDown
    ensures Alive(B.After(s, e).state) ==> Alive(s.state) || e.Arrival?
    ensures B.After(s, e).state == B.Up ==> s.state == B.Up || (e.Arrival? && Alive(e.pkt.state))
    ensures e.Transmission? ==> B.PacketOf(s).state == s.state
  {
    if e.Arrival? {
      B.ReceptionFollowsDiagram(s, e.pkt, e.percent1, e.percent2);
    }
  }

  /** In every run a session is up only after a packet has been delivered in each direction
      and the peer has itself been in the state Init or Up; no session is ever
      administratively down. */
  lemma UpNeedsBothDirections(ss: seq<System>, ts: seq<Step>, n: nat, side: Side)
    requires IsRun(ss, ts) && n <= |ts|
    ensures At(ss[n], side).state != B.AdminDown
    ensures At(ss[n], side).state == B.Up ==>
              Heard(ts, n, side) && Heard(ts, n, Other(side)) && WasAlive(ss, n, Other(side))
  {
    RunsKeepSides(ss, ts, n);
    assert At(ss[n], side).state == B.Up ==> WasAlive(ss, n, side);
  }

  // ---------------------------------------------------------------- coming up

  function Moved(s: System, t: Step): System {
    var x := B.After(At(s, t.side), EventOf(t));
    var sent := if t.Send? then {B.PacketOf(At(s, t.side))} else {};
    if t.side == Left then System(x, s.right, s.fromLeft + sent, s.fromRight)
    else System(s.left, x, s.fromLeft, s.fromRight + sent)
  }

  ghost predicate CanSend(s: B.Session) {
    B.Invariant(s) && s.remoteMinRx != 0 && s.requiredMinRx > 0
  }

  /** One side sends and the other receives. */
  lemma Exchange(s: System, side: Side) returns (pkt: B.Packet, mid: System, s': System)
    requires CanSend(At(s, side)) && B.Invariant(At(s, Other(side))) && At(s, Other(side)).requiredMinRx > 0
    ensures Moves(s, Send(side), mid) && Moves(mid, Deliver(Other(side), pkt, 80, 80), s')
    ensures CanSend(At(s', Other(side))) && B.Invariant(At(s', side)) && At(s', side).requiredMinRx > 0
    ensures At(s', side).state == At(s, side).state
    ensures At(s', Other(side)).state == B.Diagram(At(s, Other(side)).state, At(s, side).state)
  {
    var x, y := At(s, side), At(s, Other(side));
    pkt := B.PacketOf(x);
    mid := Moved(s, Send(side));
    s' := Moved(mid, Deliver(Other(side), pkt, 80, 80));
    assert pkt in From(mid, side);
    B.EventKeepsInvariant(x, B.Transmission);
    B.ArrivalKeepsInvariant(y, pkt, 80, 80);
    B.ReceptionFollowsDiagram(y, pkt, 80, 80);
    H.ReceptionNotes(y, pkt, 80, 80);
    H.StateMachineKeeps(B.Noted(y, pkt, 80), pkt.state, 80);
  }

  /** Two new sessions that want packets can come up: there is such a run. */
  lemma SessionsCanComeUp(a: H.Config, b: H.Config) returns (ss: seq<System>, ts: seq<Step>)
    requires a.minRx > 0 && b.minRx > 0
    ensures IsRun(ss, ts) && ss[0] == System(H.Fresh(a, 80), H.Fresh(b, 80), {}, {})
    ensures At(ss[|ts|], Left).state == B.Up && At(ss[|ts|], Right).state == B.Up
  {
    var s0 := System(H.Fresh(a, 80), H.Fresh(b, 80), {}, {});
    B.NewSessionInvariant(a.discr, a.detectMult, a.cfgTx, a.minRx, 80);
    B.NewSessionInvariant(b.discr, b.detectMult, b.cfgTx, b.minRx, 80);
    var p1, m1, s1 := Exchange(s0, Left);
    var p2, m2, s2 := Exchange(s1, Right);
    var p3, m3, s3 := Exchange(s2, Left);
    ss := [s0, m1, s1, m2, s2, m3, s3];
    ts := [Send(Left), Deliver(Right, p1, 80, 80), Send(Right), Deliver(Left, p2, 80, 80),
           Send(Left), Deliver(Right, p3, 80, 80)];
  }

  /** From any two sessions that are down, three packets sent and delivered in turn bring both
      up; and when one of them then times out, its next packet takes the other down. The
      function gives the random numbers drawn on the way. */
  lemma HandshakeCompletes(a: B.Session, b: B.Session, draw: nat -> nat)
    requires a.state == B.Down && b.state == B.Down
    ensures var b1 := B.Received(b, B.PacketOf(a), draw(0), draw(1));
            var a1 := B.Received(B.AfterSend(a), B.PacketOf(b1), draw(2), draw(3));
            var b2 := B.Received(B.AfterSend(b1), B.PacketOf(a1), draw(4), draw(5));
            && a1.state == B.Up && b2.state == B.Up
            && B.Received(B.AfterSend(a1), B.PacketOf(B.TimedOut(b2, draw(6))), draw(7), draw(8)).state == B.Down
  {
    var b1 := Reply(b, a, draw(0), draw(1));
    var a1 := Reply(B.AfterSend(a), b1, draw(2), draw(3));
    var b2 := Reply(B.AfterSend(b1), a1, draw(4), draw(5));
    var a2 := Reply(B.AfterSend(a1), B.TimedOut(b2, draw(6)), draw(7), draw(8));
  }

  /** `s` after receiving what `peer` would send. */
  lemma Reply(s: B.Session, peer: B.Session, p: nat, q: nat) returns (t: B.Session)
    ensures t == B.Received(s, B.PacketOf(peer), p, q) && t.state == B.Diagram(s.state, peer.state)
  {
    t := B.Received(s, B.PacketOf(peer), p, q);
    B.ReceptionFollowsDiagram(s, B.PacketOf(peer), p, q);
    assert B.PacketOf(peer).state == peer.state;
  }
}
