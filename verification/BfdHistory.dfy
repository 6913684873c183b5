/** Everything a BFD session knows and sends, read off the packets it has received, the
    timeouts it has had and the packets it has sent. */
module BfdHistory {
  import opened Options
  import opened BfdSession

  /** The state: the diagram of section 6.2 of RFC 5880, and Down after a timeout. */
  function StateBy(es: seq<Event>): State {
    if es == [] then Down
    else
      var before := StateBy(es[..|es| - 1]);
      match es[|es| - 1]
      case Arrival(pkt, _, _) => Diagram(before, pkt.state)
      case Timeout(_) => Down
      case Transmission => before
  }

  /** The packet received last. */
  function LastPacket(es: seq<Event>): Option<Packet> {
    if es == [] then None
    else if es[|es| - 1].Arrival? then Some(es[|es| - 1].pkt)
    else LastPacket(es[..|es| - 1])
  }

  /** Section 6.8.4 of RFC 5880: the remote system's interval times its multiplier. */
  function DetectionTime(pkt: Option<Packet>): nat {
    if pkt.None? then 0 else pkt.value.desiredMinTx * pkt.value.detectMult
  }

  /** The packet that settled the detection time: the last that asked for an answer, or that
      found the time at zero. */
  function DetectionPacket(es: seq<Event>): Option<Packet> {
    if es == [] then None
    else
      var before, e := DetectionPacket(es[..|es| - 1]), es[|es| - 1];
      if e.Arrival? && (e.pkt.poll || DetectionTime(before) == 0) then Some(e.pkt) else before
  }

  /** A packet that asked for an answer has arrived since the last transmission. */
  predicate PollOpen(es: seq<Event>) {
    es != [] &&
    match es[|es| - 1]
    case Arrival(pkt, _, _) => pkt.poll || PollOpen(es[..|es| - 1])
    case Timeout(_) => PollOpen(es[..|es| - 1])
    case Transmission => false
  }

  /** Since the state last became Down or Up, no final packet has arrived and none was sent. */
  predicate Asking(es: seq<Event>) {
    if es == [] then true
    else
      var before, e := es[..|es| - 1], es[|es| - 1];
      if StateBy(es) != StateBy(before) && StateBy(es) != Init then true
      else match e
        case Arrival(pkt, _, _) => Asking(before) && !pkt.final
        case Timeout(_) => Asking(before)
        case Transmission => Asking(before) && !PollOpen(before)
  }

  /** Why the session went down last. */
  function Reason(es: seq<Event>): Diag {
    if es == [] then NoDiagnostic
    else
      var before := es[..|es| - 1];
      if StateBy(es) == Down && StateBy(before) != Down
      then if es[|es| - 1].Timeout? then DetectTimeExpired else NeighborSignaledDown
      else Reason(before)
  }

  /** The configuration of a session. */
  datatype Config = Config(discr: nat, detectMult: nat, cfgTx: nat, minRx: nat)

  function Fresh(c: Config, percent: nat): Session {
    NewSession(c.discr, c.detectMult, c.cfgTx, c.minRx, percent)
  }

  ghost predicate Configured(s: Session, c: Config) {
    && s.localDiscr == c.discr && s.detectMult == c.detectMult
    && s.cfgDesiredMinTx == c.cfgTx && s.requiredMinRx == c.minRx
  }

  /** The state machine changes the state and what goes with it, and nothing else. */
  lemma StateMachineKeeps(s: Session, received: State, percent: nat)
    ensures var t := NextState(s, received, percent);
            t == s.(state := t.state, diag := t.diag, desiredMinTx := t.desiredMinTx,
                    isPolling := t.isPolling, xmitPeriod := t.xmitPeriod)
  {
  }

  lemma EventKeepsConfig(s: Session, e: Event, c: Config)
    requires Configured(s, c)
    ensures Configured(After(s, e), c)
  {
    if e.Arrival? {
      StateMachineKeeps(Noted(s, e.pkt, e.percent1), e.pkt.state, e.percent2);
    }
  }

  ghost predicate Remembers(s: Session, es: seq<Event>) {
    && s.remoteMinRx == (match LastPacket(es) case None => -1 case Some(pkt) => pkt.requiredMinRx)
    && s.remoteDiscr == (match LastPacket(es) case None => 0 case Some(pkt) => pkt.myDiscr)
    && s.remoteState == (match LastPacket(es) case None => Down case Some(pkt) => pkt.state)
    && s.remoteDemandMode == (match LastPacket(es) case None => false case Some(pkt) => pkt.demand)
    && s.detectTime == DetectionTime(DetectionPacket(es))
  }

  ghost predicate Stands(s: Session, es: seq<Event>) {
    && s.state == StateBy(es) && s.diag == Reason(es)
    && s.isPolling == Asking(es) && s.pendingFinal == PollOpen(es)
  }

  /** What one reception writes down. */
  lemma ReceptionNotes(s: Session, pkt: Packet, percent1: nat, percent2: nat)
    requires s.state != AdminDown
    ensures var t := Received(s, pkt, percent1, percent2);
            && t.remoteMinRx == pkt.requiredMinRx && t.remoteDiscr == pkt.myDiscr
            && t.remoteState == pkt.state && t.remoteDemandMode == pkt.demand
            && t.detectTime == if s.detectTime == 0 || pkt.poll then Scaled(pkt.desiredMinTx, pkt.detectMult)
                               else s.detectTime
  {
    StateMachineKeeps(Noted(s, pkt, percent1), pkt.state, percent2);
  }

  lemma ArrivalRemembers(s: Session, es: seq<Event>, e: Event)
    requires Remembers(s, es) && s.state != AdminDown && e.Arrival?
    ensures Remembers(After(s, e), es + [e])
  {
    assert (es + [e])[..|es|] == es;
    ReceptionNotes(s, e.pkt, e.percent1, e.percent2);
    ScaledIsProduct(e.pkt.desiredMinTx, e.pkt.detectMult);
  }

  lemma OthersRemember(s: Session, es: seq<Event>, e: Event)
    requires Remembers(s, es) && !e.Arrival?
    ensures Remembers(After(s, e), es + [e])
  {
    assert (es + [e])[..|es|] == es;
  }

  lemma EventStands(s: Session, es: seq<Event>, e: Event)
    requires Stands(s, es) && s.state != AdminDown
    ensures Stands(After(s, e), es + [e])
  {
    assert (es + [e])[..|es|] == es;
    if e.Arrival? {
      ReceptionFollowsDiagram(s, e.pkt, e.percent1, e.percent2);
    }
  }

  /** In every run of a new session its whole state follows from what has happened. */
  lemma {:induction false} SessionFollowsHistory(c: Config, percent: nat, es: seq<Event>)
    requires IsJitter(c.detectMult, percent) && Run(Fresh(c, percent), es).Some?
    ensures var s := Run(Fresh(c, percent), es).value;
            Configured(s, c) && Remembers(s, es) && Stands(s, es) && s.state != AdminDown
  {
    if es != [] {
      var before, e := es[..|es| - 1], es[|es| - 1];
      SessionFollowsHistory(c, percent, before);
      var s := Run(Fresh(c, percent), before).value;
      assert es == before + [e];
      EventStands(s, before, e);
      EventKeepsConfig(s, e, c);
      RunsKeepInvariant(c.discr, c.detectMult, c.cfgTx, c.minRx, percent, es);
      if e.Arrival? {
        ArrivalRemembers(s, before, e);
      } else {
        OthersRemember(s, before, e);
      }
    }
  }

  /** In every run of a new session: what it sends next, that it may send unless the remote
      system has said that it wants nothing, and that it may time out once a detection time is
      known. */
  lemma NextPacket(c: Config, percent: nat, es: seq<Event>)
    requires IsJitter(c.detectMult, percent) && Run(Fresh(c, percent), es).Some?
    ensures var s := Run(Fresh(c, percent), es).value;
            && MaySend(s) == (LastPacket(es).Some? ==> LastPacket(es).value.requiredMinRx != 0)
            && Possible(s, Timeout(80)) == (DetectionTime(DetectionPacket(es)) != 0)
            && PacketOf(s).state == StateBy(es)
            && PacketOf(s).desiredMinTx == (if StateBy(es) == Up then c.cfgTx else 1000000)
            && PacketOf(s).requiredMinRx == c.minRx && PacketOf(s).detectMult == c.detectMult
            && PacketOf(s).myDiscr == c.discr && !PacketOf(s).demand
            && PacketOf(s).final == PollOpen(es)
            && PacketOf(s).poll == (Asking(es) && !PollOpen(es))
  {
    SessionFollowsHistory(c, percent, es);
    RunsKeepInvariant(c.discr, c.detectMult, c.cfgTx, c.minRx, percent, es);
  }
}
