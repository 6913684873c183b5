/** A BFD session after sections 6.8.3, 6.8.6 and 6.8.7 of RFC 5880, and all its runs.
    Random choices (the jitter of the transmit period) are parameters. */
module BfdSession {
  import opened Options

  datatype State = AdminDown | Down | Init | Up

  datatype Diag = NoDiagnostic | DetectTimeExpired | NeighborSignaledDown

  datatype Packet = Packet(state: State, poll: bool, final: bool, demand: bool, myDiscr: nat,
                           desiredMinTx: nat, requiredMinRx: nat, detectMult: nat)

  const SLOW_TX: nat := 1000000

  datatype Session = Session(
    state: State, remoteSessionState: State, remoteState: State,
    localDiscr: nat, remoteDiscr: nat, diag: Diag,
    desiredMinTx: nat, requiredMinRx: nat, remoteMinRx: int,
    demandMode: bool, remoteDemandMode: bool, detectMult: nat, cfgDesiredMinTx: nat,
    detectTime: int, xmitPeriod: int, isPolling: bool, pendingFinal: bool, enableSend: bool)

  /** The percentages that the jitter may take. */
  predicate IsJitter(detectMult: nat, percent: nat) {
    75 <= percent <= if detectMult == 1 then 90 else 100
  }

  /** `n` times `x`. */
  function Scaled(x: int, n: nat): int {
    if n == 0 then 0 else Scaled(x, n - 1) + x
  }

  lemma {:induction false} ScaledIsProduct(x: int, n: nat)
    ensures Scaled(x, n) == x * n
  {
    if n > 0 {
      ScaledIsProduct(x, n - 1);
    }
  }

  /** The interval that both systems accept. */
  function BaseInterval(desiredMinTx: nat, remoteMinRx: int): nat {
    if desiredMinTx > remoteMinRx then desiredMinTx else remoteMinRx
  }

  /** The time between transmissions, in hundredths of a microsecond. */
  function Period(desiredMinTx: nat, remoteMinRx: int, percent: nat): int {
    Scaled(BaseInterval(desiredMinTx, remoteMinRx), percent)
  }

  function WithXmitPeriod(s: Session, percent: nat): Session {
    s.(xmitPeriod := Period(s.desiredMinTx, s.remoteMinRx, percent))
  }

  /** The interval a session wants in a state; only Down and Up change it. */
  function DesiredIn(s: Session, state: State): nat {
    match state
    case Down => SLOW_TX
    case Up => s.cfgDesiredMinTx
    case _ => s.desiredMinTx
  }

  function WithState(s: Session, state: State, diag: Option<Diag>, percent: nat): Session {
    if state == Down || state == Up then
      s.(state := state,
         diag := if state == Down && diag.Some? then diag.value else s.diag,
         desiredMinTx := DesiredIn(s, state),
         isPolling := true,
         xmitPeriod := Period(DesiredIn(s, state), s.remoteMinRx, percent))
    else s.(state := state)
  }

  /** The reception of a packet before the state machine looks at it. */
  function Noted(s: Session, pkt: Packet, percent: nat): Session {
    s.(remoteDiscr := pkt.myDiscr, remoteState := pkt.state, remoteDemandMode := pkt.demand,
       remoteMinRx := pkt.requiredMinRx,
       xmitPeriod := if s.remoteMinRx != pkt.requiredMinRx
                     then Period(s.desiredMinTx, pkt.requiredMinRx, percent) else s.xmitPeriod,
       isPolling := s.isPolling && !pkt.final)
  }

  function NextState(s: Session, received: State, percent: nat): Session {
    match received
    case AdminDown => if s.state != Down then WithState(s, Down, Some(NeighborSignaledDown), percent) else s
    case Down =>
      if s.state == Down then WithState(s, Init, None, percent)
      else if s.state == Up then WithState(s, Down, Some(NeighborSignaledDown), percent)
      else s
    case Init => if s.state in {Down, Init} then WithState(s, Up, None, percent) else s
    case Up => if s.state == Init then WithState(s, Up, None, percent) else s
  }

  /** The rest of the reception: demand mode, detection time and the answer to a poll. */
  function Concluded(s: Session, pkt: Packet): Session {
    s.(enableSend := !(s.remoteDemandMode && s.state == Up && s.remoteSessionState == Up),
       detectTime := if s.detectTime == 0 || pkt.poll then Scaled(pkt.desiredMinTx, pkt.detectMult) else s.detectTime,
       pendingFinal := s.pendingFinal || pkt.poll)
  }

  function Received(s: Session, pkt: Packet, percent1: nat, percent2: nat): Session {
    var t := Noted(s, pkt, percent1);
    if t.state == AdminDown then t else Concluded(NextState(t, pkt.state, percent2), pkt)
  }

  function TimedOut(s: Session, percent: nat): Session {
    if s.state in {Down, AdminDown} then s else WithState(s, Down, Some(DetectTimeExpired), percent)
  }

  /** Whether the periodic transmission goes ahead. */
  predicate MaySend(s: Session) {
    && s.enableSend
    && s.remoteMinRx != 0
    && !(s.remoteDemandMode && s.state == Up && s.remoteSessionState == Up && !s.isPolling)
  }

  function AfterSend(s: Session): Session {
    if s.pendingFinal then s.(pendingFinal := false, isPolling := false) else s
  }

  function PacketOf(s: Session): Packet {
    var t := AfterSend(s);
    Packet(s.state, t.isPolling, s.pendingFinal, s.demandMode && s.state == Up && s.remoteSessionState == Up,
           s.localDiscr, s.desiredMinTx, s.requiredMinRx, s.detectMult)
  }

  function NewSession(discr: nat, detectMult: nat, cfgTx: nat, minRx: nat, percent: nat): Session {
    WithXmitPeriod(
      Session(Down, Down, Down, discr, 0, NoDiagnostic, SLOW_TX, minRx, -1, false, false, detectMult, cfgTx,
              0, 0, true, false, true), percent)
  }

  class BfdSession {
    const localDiscr: nat
    const detectMult: nat
    const cfgDesiredMinTx: nat
    const requiredMinRx: nat
    const demandMode: bool
    const remoteSessionState: State
    var state: State
    var remoteState: State
    var remoteDiscr: nat
    var diag: Diag
    var desiredMinTx: nat
    var remoteMinRx: int
    var remoteDemandMode: bool
    var detectTime: int
    var xmitPeriod: int
    var isPolling: bool
    var pendingFinal: bool
    var enableSend: bool

    function View(): Session
      reads this
    {
      Session(state, remoteSessionState, remoteState, localDiscr, remoteDiscr, diag, desiredMinTx, requiredMinRx,
              remoteMinRx, demandMode, remoteDemandMode, detectMult, cfgDesiredMinTx, detectTime, xmitPeriod,
              isPolling, pendingFinal, enableSend)
    }

    constructor (discr: nat, detectMult: nat, cfgTx: nat, minRx: nat, percent: nat)
      ensures View() == NewSession(discr, detectMult, cfgTx, minRx, percent)
    {
      localDiscr, this.detectMult, cfgDesiredMinTx, requiredMinRx := discr, detectMult, cfgTx, minRx;
      demandMode, remoteSessionState := false, Down;
      state, remoteState, remoteDiscr, diag := Down, Down, 0, NoDiagnostic;
      desiredMinTx, remoteMinRx, remoteDemandMode := SLOW_TX, -1, false;
      detectTime, xmitPeriod, isPolling, pendingFinal, enableSend := 0, 0, true, false, true;
      new;
      UpdateXmitPeriod(percent);
    }

    method UpdateXmitPeriod(percent: nat)
      modifies this`xmitPeriod
      ensures View() == WithXmitPeriod(old(View()), percent)
    {
      var period: nat := if desiredMinTx > remoteMinRx then desiredMinTx else remoteMinRx;
      xmitPeriod := Scaled(period, percent);
    }

    method SetState(newState: State, newDiag: Option<Diag>, percent: nat)
      modifies this
      ensures View() == WithState(old(View()), newState, newDiag, percent)
    {
      state := newState;
      if newState == Down {
        if newDiag.Some? {
          diag := newDiag.value;
        }
        desiredMinTx := SLOW_TX;
        isPolling := true;
        UpdateXmitPeriod(percent);
      } else if newState == Up {
        desiredMinTx := cfgDesiredMinTx;
        isPolling := true;
        UpdateXmitPeriod(percent);
      }
    }

    /** First part of a reception: what the packet says about the remote system. */
    method NotePacket(pkt: Packet, percent: nat)
      modifies this
      ensures View() == Noted(old(View()), pkt, percent)
    {
      remoteDiscr := pkt.myDiscr;
      remoteState := pkt.state;
      remoteDemandMode := pkt.demand;
      if remoteMinRx != pkt.requiredMinRx {
        remoteMinRx := pkt.requiredMinRx;
        UpdateXmitPeriod(percent);
      }
      if pkt.final && isPolling {
        isPolling := false;
      }
    }

    /** Second part: the state machine. */
    method Advance(received: State, percent: nat)
      requires state != AdminDown
      modifies this
      ensures View() == NextState(old(View()), received, percent)
    {
      if received == AdminDown {
        if state != Down {
          SetState(Down, Some(NeighborSignaledDown), percent);
        }
      } else if state == Down {
        if received == Down {
          SetState(Init, None, percent);
        } else if received == Init {
          SetState(Up, None, percent);
        }
      } else if state == Init {
        if received == Init || received == Up {
          SetState(Up, None, percent);
        }
      } else if received == Down {
        SetState(Down, Some(NeighborSignaledDown), percent);
      }
    }

    /** Third part: demand mode, detection time and polls. */
    method Conclude(pkt: Packet)
      modifies this
      ensures View() == Concluded(old(View()), pkt)
    {
      if remoteDemandMode && state == Up && remoteSessionState == Up {
        enableSend := false;
      }
      if !remoteDemandMode || state != Up || remoteSessionState != Up {
        enableSend := true;
      }
      if detectTime == 0 {
        detectTime := Scaled(pkt.desiredMinTx, pkt.detectMult);
      }
      if pkt.poll {
        pendingFinal := true;
        detectTime := Scaled(pkt.desiredMinTx, pkt.detectMult);
      }
    }

    method Recv(pkt: Packet, percent1: nat, percent2: nat)
      modifies this
      ensures View() == Received(old(View()), pkt, percent1, percent2)
    {
      NotePacket(pkt, percent1);
      if state == AdminDown {
        return;
      }
      Advance(pkt.state, percent2);
      Conclude(pkt);
    }

    method DetectionTimeExpires(percent: nat)
      modifies this
      ensures View() == TimedOut(old(View()), percent)
    {
      if state !in {Down, AdminDown} {
        SetState(Down, Some(DetectTimeExpired), percent);
      }
    }

    /** Builds the next packet; `connected` is whether the switch is reachable at all. */
    method Send(connected: bool) returns (pkt: Option<Packet>)
      modifies this`pendingFinal, this`isPolling
      ensures !connected ==> pkt.None? && View() == old(View())
      ensures connected ==> pkt == Some(PacketOf(old(View()))) && View() == AfterSend(old(View()))
    {
      if !connected {
        return None;
      }
      var poll, final := false, false;
      if pendingFinal {
        final := true;
        pendingFinal := false;
        isPolling := false;
      }
      if isPolling {
        poll := true;
      }
      return Some(Packet(state, poll, final, demandMode && state == Up && remoteSessionState == Up,
                         localDiscr, desiredMinTx, requiredMinRx, detectMult));
    }
  }

  // ---------------------------------------------------------------- the state alone

  /** The state diagram of section 6.2 of RFC 5880: own state against received state. */
  function Diagram(own: State, received: State): State {
    match (own, received)
    case (AdminDown, _) => AdminDown
    case (_, AdminDown) => Down
    case (Down, Down) => Init
    case (Down, Init) => Up
    case (Down, Up) => Down
    case (Init, Down) => Init
    case (Init, _) => Up
    case (Up, Down) => Down
    case (Up, _) => Up
  }

  lemma NotedState(s: Session, pkt: Packet, percent: nat)
    ensures Noted(s, pkt, percent).state == s.state
  {
  }

  lemma AdvancedState(s: Session, received: State, percent: nat)
    requires s.state != AdminDown
    ensures NextState(s, received, percent).state == Diagram(s.state, received)
  {
  }

  /** A reception moves the session as the diagram says. */
  lemma ReceptionFollowsDiagram(s: Session, pkt: Packet, percent1: nat, percent2: nat)
    ensures Received(s, pkt, percent1, percent2).state == Diagram(s.state, pkt.state)
  {
    NotedState(s, pkt, percent1);
    var t := Noted(s, pkt, percent1);
    if t.state != AdminDown {
      AdvancedState(t, pkt.state, percent2);
    }
  }

  // ---------------------------------------------------------------- runs of one session

  datatype Event = Arrival(pkt: Packet, percent1: nat, percent2: nat) | Timeout(percent: nat) | Transmission

  predicate Possible(s: Session, e: Event) {
    match e
    case Arrival(_, p1, p2) => IsJitter(s.detectMult, p1) && IsJitter(s.detectMult, p2)
    case Timeout(p) => s.detectTime != 0 && IsJitter(s.detectMult, p)
    case Transmission => MaySend(s)
  }

  function After(s: Session, e: Event): Session {
    match e
    case Arrival(pkt, p1, p2) => Received(s, pkt, p1, p2)
    case Timeout(p) => TimedOut(s, p)
    case Transmission => AfterSend(s)
  }

  function Run(first: Session, es: seq<Event>): Option<Session> {
    if es == [] then Some(first)
    else
      var s := Run(first, es[..|es| - 1]);
      if s.Some? && Possible(s.value, es[|es| - 1]) then Some(After(s.value, es[|es| - 1])) else None
  }

  /** The transmit period lies within 75 and 100 percent of the larger of the two intervals, and
      at most at 90 percent when a single lost packet already counts as a failure. */
  ghost predicate InRange(desiredMinTx: nat, remoteMinRx: int, detectMult: nat, period: int) {
    var most := if detectMult == 1 then 90 else 100;
    && 75 * desiredMinTx <= period && 75 * remoteMinRx <= period
    && (period <= most * desiredMinTx || period <= most * remoteMinRx)
  }

  ghost predicate PeriodInRange(s: Session) {
    InRange(s.desiredMinTx, s.remoteMinRx, s.detectMult, s.xmitPeriod)
  }

  ghost predicate Invariant(s: Session) {
    && s.state != AdminDown
    && s.desiredMinTx == (if s.state == Up then s.cfgDesiredMinTx else 1000000)
    && PeriodInRange(s)
    && s.remoteSessionState == Down && s.enableSend && !s.demandMode
  }

  lemma {:induction false} ScaledGrows(x: nat, m: nat, n: nat)
    requires m <= n
    ensures Scaled(x, m) <= Scaled(x, n)
  {
    if m < n {
      ScaledGrows(x, m, n - 1);
    }
  }

  lemma JitterInRange(desiredMinTx: nat, remoteMinRx: int, detectMult: nat, percent: nat)
    requires IsJitter(detectMult, percent)
    ensures InRange(desiredMinTx, remoteMinRx, detectMult, Period(desiredMinTx, remoteMinRx, percent))
  {
    var most, interval := if detectMult == 1 then 90 else 100, BaseInterval(desiredMinTx, remoteMinRx);
    ScaledGrows(interval, 75, percent);
    ScaledGrows(interval, percent, most);
    ScaledIsProduct(interval, 75);
    ScaledIsProduct(interval, most);
  }

  lemma StateKeepsInvariant(s: Session, state: State, diag: Option<Diag>, percent: nat)
    requires Invariant(s) && IsJitter(s.detectMult, percent) && state != AdminDown
    requires state == Init ==> s.state != Up
    ensures Invariant(WithState(s, state, diag, percent))
  {
    if state == Down || state == Up {
      JitterInRange(DesiredIn(s, state), s.remoteMinRx, s.detectMult, percent);
    }
  }

  lemma NotingKeepsInvariant(s: Session, pkt: Packet, percent: nat)
    requires Invariant(s) && IsJitter(s.detectMult, percent)
    ensures Invariant(Noted(s, pkt, percent))
  {
    JitterInRange(s.desiredMinTx, pkt.requiredMinRx, s.detectMult, percent);
  }

  lemma AdvanceKeepsInvariant(s: Session, received: State, percent: nat)
    requires Invariant(s) && IsJitter(s.detectMult, percent)
    ensures Invariant(NextState(s, received, percent))
  {
    var next := NextState(s, received, percent);
    if next.state != s.state {
      StateKeepsInvariant(s, next.state, if next.state == Down then Some(NeighborSignaledDown) else None, percent);
    }
  }

  lemma ArrivalKeepsInvariant(s: Session, pkt: Packet, percent1: nat, percent2: nat)
    requires Invariant(s) && IsJitter(s.detectMult, percent1) && IsJitter(s.detectMult, percent2)
    ensures Invariant(Received(s, pkt, percent1, percent2))
  {
    var noted := Noted(s, pkt, percent1);
    NotingKeepsInvariant(s, pkt, percent1);
    AdvanceKeepsInvariant(noted, pkt.state, percent2);
  }

  /** Polls received, and final packets sent, in a run. */
  function Polls(es: seq<Event>): nat {
    if es == [] then 0
    else Polls(es[..|es| - 1]) + if es[|es| - 1].Arrival? && es[|es| - 1].pkt.poll then 1 else 0
  }

  function Finals(first: Session, es: seq<Event>): nat
    requires Run(first, es).Some?
  {
    if es == [] then 0
    else
      Finals(first, es[..|es| - 1]) +
      if es[|es| - 1].Transmission? && PacketOf(Run(first, es[..|es| - 1]).value).final then 1 else 0
  }

  lemma EventKeepsInvariant(s: Session, e: Event)
    requires Invariant(s) && Possible(s, e)
    ensures Invariant(After(s, e))
  {
    match e
    case Arrival(pkt, p1, p2) => ArrivalKeepsInvariant(s, pkt, p1, p2);
    case Timeout(p) =>
      if s.state != Down {
        StateKeepsInvariant(s, Down, Some(DetectTimeExpired), p);
      }
    case Transmission =>
  }

  lemma {:induction false} EventsKeepInvariant(first: Session, es: seq<Event>)
    requires Invariant(first) && Run(first, es).Some?
    ensures Invariant(Run(first, es).value)
  {
    if es != [] {
      EventsKeepInvariant(first, es[..|es| - 1]);
      EventKeepsInvariant(Run(first, es[..|es| - 1]).value, es[|es| - 1]);
    }
  }

  function Pending(s: Session): nat {
    if s.pendingFinal then 1 else 0
  }

  lemma EventAccounts(s: Session, e: Event)
    ensures Pending(After(s, e)) + (if e.Transmission? && PacketOf(s).final then 1 else 0)
            <= Pending(s) + if e.Arrival? && e.pkt.poll then 1 else 0
  {
    if e.Arrival? {
      ReceptionAccounts(s, e.pkt, e.percent1, e.percent2);
    }
  }

  lemma ReceptionAccounts(s: Session, pkt: Packet, percent1: nat, percent2: nat)
    ensures Received(s, pkt, percent1, percent2).pendingFinal ==> s.pendingFinal || pkt.poll
  {
  }

  /** In every run each final packet answers a poll of its own. */
  lemma {:induction false} FinalsAnswerPolls(first: Session, es: seq<Event>)
    requires !first.pendingFinal && Run(first, es).Some?
    ensures Finals(first, es) + Pending(Run(first, es).value) <= Polls(es)
  {
    if es != [] {
      FinalsAnswerPolls(first, es[..|es| - 1]);
      EventAccounts(Run(first, es[..|es| - 1]).value, es[|es| - 1]);
    }
  }

  /** In every run of a new session the invariant holds. */
  lemma RunsKeepInvariant(discr: nat, detectMult: nat, cfgTx: nat, minRx: nat, percent: nat, es: seq<Event>)
    requires IsJitter(detectMult, percent) && Run(NewSession(discr, detectMult, cfgTx, minRx, percent), es).Some?
    ensures Invariant(Run(NewSession(discr, detectMult, cfgTx, minRx, percent), es).value)
  {
    NewSessionInvariant(discr, detectMult, cfgTx, minRx, percent);
    EventsKeepInvariant(NewSession(discr, detectMult, cfgTx, minRx, percent), es);
  }

  lemma NewSessionInvariant(discr: nat, detectMult: nat, cfgTx: nat, minRx: nat, percent: nat)
    requires IsJitter(detectMult, percent)
    ensures Invariant(NewSession(discr, detectMult, cfgTx, minRx, percent))
  {
    JitterInRange(SLOW_TX, -1, detectMult, percent);
  }

  /** No packet both asks and answers. */
  lemma NoPollWithFinal(s: Session)
    ensures !(PacketOf(s).poll && PacketOf(s).final)
  {
  }

  /** The packet sent next after a poll has arrived is its answer. */
  lemma NextPacketAnswersPoll(s: Session, pkt: Packet, percent1: nat, percent2: nat)
    requires s.state != AdminDown && pkt.poll
    ensures PacketOf(Received(s, pkt, percent1, percent2)).final
    ensures !AfterSend(Received(s, pkt, percent1, percent2)).pendingFinal
  {
  }
}
