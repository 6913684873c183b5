/** How a packet runs through the tables that the wrapper has installed, and that it meets the
    flow table of the stage with the state that Beba has for it. */
module BebaPipeline {
  import opened Options
  import opened BebaKeys
  import opened BebaFlows
  import opened BebaStateTable

  /** The registers, and the arrivals at flow tables of the application: table, register 0 and
      register 1 on arrival. */
  datatype Pass = Pass(reg0: nat, reg1: nat, visits: seq<(nat, nat, nat)>)

  predicate Applies(e: Entry, p: Fields, reg1: nat) {
    e.1.reg1 == reg1 && Matches(p, e.1.fields)
  }

  ghost predicate IsHit(ft: FlowTable, e: Entry, p: Fields, reg1: nat) {
    e in ft && Applies(e, p, reg1) && forall d :: d in ft && Applies(d, p, reg1) ==> d.0 <= e.0
  }

  /** The entry with the highest priority among those that apply. */
  ghost function Hit(ft: FlowTable, p: Fields, reg1: nat): Option<Entry> {
    if exists e :: IsHit(ft, e, p, reg1) then
      var e :| IsHit(ft, e, p, reg1);
      Some(e)
    else None
  }

  /** A packet enters a table; nothing is returned if `fuel` nested lookups do not suffice.
      Flow tables of the application are only recorded. */
  ghost function Enter(ts: Tables, id: nat, p: Fields, x: Pass, fuel: nat): Option<Pass>
    decreases fuel, 0
  {
    if id % 2 == 1 then Some(x.(visits := x.visits + [(id, x.reg0, x.reg1)]))
    else if fuel == 0 then None
    else
      var hit := Hit(TableAt(ts, id), p, x.reg1);
      if hit.None? then Some(x) else Perform(ts, TableAt(ts, id)[hit.value], p, x, fuel - 1)
  }

  ghost function Perform(ts: Tables, actions: seq<Action>, p: Fields, x: Pass, fuel: nat): Option<Pass>
    decreases fuel, 1 + |actions|
  {
    if actions == [] then Some(x)
    else
      var y := match actions[0]
        case SetReg0(v) => Some(x.(reg0 := v))
        case SetReg1(v) => Some(x.(reg1 := v))
        case Resubmit(id) => Enter(ts, id, p, x, fuel);
      if y.None? then None else Perform(ts, actions[1..], p, y.value, fuel)
  }

  lemma OnlyHit(ft: FlowTable, e: Entry, p: Fields, reg1: nat)
    requires IsHit(ft, e, p, reg1)
    requires forall d :: d in ft && Applies(d, p, reg1) && d.0 >= e.0 ==> d == e
    ensures Hit(ft, p, reg1) == Some(e)
  {
  }

  /** A packet on arrival at a flow table. */
  function Arrived(x: Pass, t: nat): Pass {
    x.(visits := x.visits + [(FlowTableId(t), x.reg0, x.reg1)])
  }

  /** The control entry: look the state up, then go on to the flow table. */
  lemma ControlRuns(ts: Tables, t: nat, p: Fields, x: Pass, fuel: nat)
    requires Hit(TableAt(ts, StateTableId(t)), p, 0) == Some(CONTROL) && HasControl(TableAt(ts, StateTableId(t)), t)
    requires x.reg1 == 0 && fuel >= 2
    ensures var y := Enter(ts, StateTableId(t), p, x.(reg1 := 1), fuel - 1);
            Enter(ts, StateTableId(t), p, x, fuel) == if y.None? then None else Some(Arrived(y.value, t))
  {
    var actions, y := ControlActions(t), Enter(ts, StateTableId(t), p, x.(reg1 := 1), fuel - 1);
    assert actions[1..] == [Resubmit(StateTableId(t)), Resubmit(FlowTableId(t))];
    assert actions[1..][1..] == [Resubmit(FlowTableId(t))];
    if y.Some? {
      var last := Enter(ts, FlowTableId(t), p, y.value, fuel - 1);
      assert Perform(ts, actions[1..][1..], p, y.value, fuel - 1) == last;
      assert Perform(ts, actions[1..], p, x.(reg1 := 1), fuel - 1) == last;
    }
    assert Perform(ts, actions, p, x, fuel - 1) == Perform(ts, actions[1..], p, x.(reg1 := 1), fuel - 1);
  }

  // ---------------------------------------------------------------- every packet arrives, or none

  /** No packet is sent on to another table. */
  predicate Quiet(actions: seq<Action>) {
    forall i :: 0 <= i < |actions| ==> !actions[i].Resubmit?
  }

  /** Apart from the control entry, entries are for packets with register 1 set, and quiet. */
  ghost predicate Orderly(ft: FlowTable, t: nat, open: bool) {
    && (CONTROL in ft <==> open) && (open ==> HasControl(ft, t))
    && (forall e :: e in ft && e != CONTROL ==> e.1.reg1 == 1 && Quiet(ft[e]))
  }

  lemma {:induction false} MessagesKeepOrder(scopes: Scopes, pre: Prereqs, ms: seq<Message>, t: nat)
    ensures Orderly(TableAt(InstalledAll(scopes, pre, ms), StateTableId(t)), t, SetUpAll(t, ms) != Closed)
  {
    if ms != [] {
      var front, m := ms[..|ms| - 1], ms[|ms| - 1];
      MessagesKeepOrder(scopes, pre, front, t);
      if m.AddUserFlow? {
        OpenedAt(InstalledAll(scopes, pre, front), m.flow.instructions, t);
      }
    }
  }

  lemma {:induction false} QuietKeepsVisits(ts: Tables, actions: seq<Action>, p: Fields, x: Pass, fuel: nat)
    requires Quiet(actions)
    ensures Perform(ts, actions, p, x, fuel).Some? && Perform(ts, actions, p, x, fuel).value.visits == x.visits
    decreases |actions|
  {
    if actions != [] {
      var y := match actions[0] case SetReg0(v) => x.(reg0 := v) case SetReg1(v) => x.(reg1 := v);
      QuietKeepsVisits(ts, actions[1..], p, y, fuel);
    }
  }

  lemma OrderlyLookup(ts: Tables, t: nat, open: bool, p: Fields, x: Pass, fuel: nat)
    requires Orderly(TableAt(ts, StateTableId(t)), t, open) && x.reg1 == 1 && fuel >= 1
    ensures var y := Enter(ts, StateTableId(t), p, x, fuel); y.Some? && y.value.visits == x.visits
  {
    var ft := TableAt(ts, StateTableId(t));
    var hit := Hit(ft, p, 1);
    if hit.Some? {
      assert hit.value != CONTROL;
      QuietKeepsVisits(ts, ft[hit.value], p, x, fuel - 1);
    }
  }

  lemma OrderlyFirstLookup(ft: FlowTable, t: nat, open: bool, p: Fields)
    requires Orderly(ft, t, open)
    ensures Hit(ft, p, 0) == if open then Some(CONTROL) else None
  {
    if open {
      assert Applies(CONTROL, p, 0);
      OnlyHit(ft, CONTROL, p, 0);
    }
  }

  /** The packet has reached the flow table of the stage once more, and no other. */
  predicate OneMoreVisit(x: Pass, t: nat, y: Pass) {
    |y.visits| == |x.visits| + 1 && y.visits[..|x.visits|] == x.visits && y.visits[|x.visits|].0 == FlowTableId(t)
  }

  lemma PacketArrives(scopes: Scopes, pre: Prereqs, ms: seq<Message>, t: nat, p: Fields, x: Pass, fuel: nat)
    requires fuel >= 2 && x.reg1 == 0
    ensures var y := Enter(InstalledAll(scopes, pre, ms), StateTableId(t), p, x, fuel);
            y.Some? && if SetUpAll(t, ms) != Closed then OneMoreVisit(x, t, y.value) else y.value == x
  {
    var ts := InstalledAll(scopes, pre, ms);
    MessagesKeepOrder(scopes, pre, ms, t);
    OrderlyFirstLookup(TableAt(ts, StateTableId(t)), t, SetUpAll(t, ms) != Closed, p);
    if SetUpAll(t, ms) != Closed {
      OrderlyLookup(ts, t, true, p, x.(reg1 := 1), fuel - 1);
      ControlRuns(ts, t, p, x, fuel);
    }
  }

  /** Whatever the scopes, keys and packet: a packet with register 1 cleared reaches the flow
      table of the stage, once, if the stage was announced or a flow jumps to it, and is lost
      otherwise. */
  lemma ArrivesIffOpen(scopes: Scopes, pre: Prereqs, ms: seq<Message>, t: nat, p: Fields, reg0: nat, fuel: nat)
    requires fuel >= 2
    ensures var x := Enter(InstalledAll(scopes, pre, ms), StateTableId(t), p, Pass(reg0, 0, []), fuel);
            && x.Some?
            && ((exists i :: 0 <= i < |ms| && (Announces(ms[i], t) || Jumps(ms[i], t)))
                <==> |x.value.visits| == 1 && x.value.visits[0].0 == FlowTableId(t))
            && (x.value.visits == [] || |x.value.visits| == 1)
  {
    SetUpIff(t, ms);
    PacketArrives(scopes, pre, ms, t, p, Pass(reg0, 0, []), fuel);
  }

  // ---------------------------------------------------------------- with which state

  /** The state that Beba has for a packet; one that lacks a field of the scope has none. */
  function StateFor(s: Stage, scope: seq<Field>, p: Fields): nat {
    if HasScope(p, scope) then StateOf(s, KeyOf(scope, p)) else 0
  }

  predicate HasState(s: Stage, scope: seq<Field>, p: Fields) {
    HasScope(p, scope) && KeyOf(scope, p) in s.states
  }

  lemma OwnEntryOnly(ft: FlowTable, t: nat, scope: seq<Field>, pre: Prereqs, s: Stage, u: Setup, p: Fields, e: Entry)
    requires Emulates(ft, t, scope, pre, s, u) && WellFormed(p, pre) && e in ft && Applies(e, p, 1)
    ensures e == DEFAULT || (HasState(s, scope, p) && |KeyOf(scope, p)| == KeyLen(scope)
                             && e == StateEntry(scope, pre, KeyOf(scope, p)))
  {
    if e != DEFAULT {
      assert e != CONTROL;
      assert HasScope(p, scope);
      KeyOfHasLength(scope, p, pre);
      assert IsPacket(p, scope, pre) && Live(scope, pre, e.1.fields);
      var j :| j in s.states && KeyLen(scope) <= |j| && e == StateEntry(scope, pre, j);
      EntryIsExactIff(scope, pre, j);
    }
  }

  lemma OwnEntryApplies(ft: FlowTable, t: nat, scope: seq<Field>, pre: Prereqs, s: Stage, u: Setup, p: Fields)
    requires Emulates(ft, t, scope, pre, s, u) && WellFormed(p, pre) && HasState(s, scope, p)
    ensures |KeyOf(scope, p)| == KeyLen(scope)
    ensures var e := StateEntry(scope, pre, KeyOf(scope, p));
            e in ft && ft[e] == StateActions(s.states[KeyOf(scope, p)]) && Applies(e, p, 1)
  {
    OwnKeyMatches(scope, pre, p);
    assert Stores(ft, scope, pre, KeyOf(scope, p), s.states[KeyOf(scope, p)]);
  }

  /** In the second lookup the packet's own state entry wins, or the default does. */
  lemma SecondLookup(ft: FlowTable, t: nat, scope: seq<Field>, pre: Prereqs, s: Stage, u: Setup, p: Fields)
    requires Emulates(ft, t, scope, pre, s, u) && WellFormed(p, pre)
    ensures HasState(s, scope, p) ==>
              && |KeyOf(scope, p)| == KeyLen(scope)
              && Hit(ft, p, 1) == Some(StateEntry(scope, pre, KeyOf(scope, p)))
    ensures !HasState(s, scope, p) ==> Hit(ft, p, 1) == if u == Announced then Some(DEFAULT) else None
  {
    forall e | e in ft && Applies(e, p, 1)
      ensures e == DEFAULT || (HasState(s, scope, p) && |KeyOf(scope, p)| == KeyLen(scope)
                               && e == StateEntry(scope, pre, KeyOf(scope, p)))
    {
      OwnEntryOnly(ft, t, scope, pre, s, u, p, e);
    }
    if HasState(s, scope, p) {
      OwnEntryApplies(ft, t, scope, pre, s, u, p);
      OnlyHit(ft, StateEntry(scope, pre, KeyOf(scope, p)), p, 1);
    } else if u == Announced {
      assert Applies(DEFAULT, p, 1);
      OnlyHit(ft, DEFAULT, p, 1);
    }
  }

  /** What the lookup of the state leaves in the registers. */
  function LookedUp(s: Stage, u: Setup, scope: seq<Field>, p: Fields, x: Pass): Pass {
    if HasState(s, scope, p) then x.(reg0 := StateFor(s, scope, p), reg1 := 0)
    else if u == Announced then x.(reg0 := 0)
    else x
  }

  lemma LookupSetsState(ts: Tables, t: nat, scope: seq<Field>, pre: Prereqs, s: Stage, u: Setup, p: Fields, x: Pass,
                        fuel: nat)
    requires Emulates(TableAt(ts, StateTableId(t)), t, scope, pre, s, u)
    requires WellFormed(p, pre) && x.reg1 == 1 && fuel >= 1
    ensures Enter(ts, StateTableId(t), p, x, fuel) == Some(LookedUp(s, u, scope, p, x))
  {
    var ft := TableAt(ts, StateTableId(t));
    SecondLookup(ft, t, scope, pre, s, u, p);
    if HasState(s, scope, p) {
      OwnEntryApplies(ft, t, scope, pre, s, u, p);
      var state := s.states[KeyOf(scope, p)];
      var actions, y, z := StateActions(state), x.(reg1 := 0), x.(reg1 := 0, reg0 := state);
      assert actions[1..] == [SetReg0(state)] && actions[1..][1..] == [];
      assert Perform(ts, [], p, z, fuel - 1) == Some(z);
      assert Perform(ts, actions[1..], p, y, fuel - 1) == Some(z);
      assert Perform(ts, actions, p, x, fuel - 1) == Some(z);
    } else if u == Announced {
      assert ft[DEFAULT] == [SetReg0(0)] && ft[DEFAULT][1..] == [];
      assert Perform(ts, [], p, x.(reg0 := 0), fuel - 1) == Some(x.(reg0 := 0));
      assert Perform(ts, ft[DEFAULT], p, x, fuel - 1) == Some(x.(reg0 := 0));
    }
  }

  /** What a stage does with a packet that enters it with register 1 cleared. A packet without
      a stored state leaves with register 1 set. */
  function Outcome(s: Stage, u: Setup, scope: seq<Field>, t: nat, p: Fields, x: Pass): Pass {
    if u == Closed then x else Arrived(LookedUp(s, u, scope, p, x.(reg1 := 1)), t)
  }

  /** A packet reaches the flow table of an open stage exactly once, after two nested lookups,
      with the state in register 0. */
  lemma StageDeliversState(ts: Tables, t: nat, scope: seq<Field>, pre: Prereqs, s: Stage, u: Setup, p: Fields,
                           x: Pass, fuel: nat)
    requires Emulates(TableAt(ts, StateTableId(t)), t, scope, pre, s, u)
    requires WellFormed(p, pre) && x.reg1 == 0 && fuel >= 2
    ensures Enter(ts, StateTableId(t), p, x, fuel) == Some(Outcome(s, u, scope, t, p, x))
  {
    var ft := TableAt(ts, StateTableId(t));
    forall e | e in ft && Applies(e, p, 0) ensures e == CONTROL {
      assert IsBasic(e) || Accounted(e, scope, pre, s);
    }
    if u != Closed {
      assert Applies(CONTROL, p, 0);
      OnlyHit(ft, CONTROL, p, 0);
      LookupSetsState(ts, t, scope, pre, s, u, p, x.(reg1 := 1), fuel - 1);
      ControlRuns(ts, t, p, x, fuel);
    }
  }

  /** A packet that enters a stage with register 1 set, as it may leave another stage, never
      reaches the flow table. */
  lemma SetRegisterSkipsFlowTable(scopes: Scopes, pre: Prereqs, ms: seq<Message>, t: nat, p: Fields, x: Pass, fuel: nat)
    requires x.reg1 == 1 && fuel >= 1
    ensures var y := Enter(InstalledAll(scopes, pre, ms), StateTableId(t), p, x, fuel);
            y.Some? && y.value.visits == x.visits
  {
    MessagesKeepOrder(scopes, pre, ms, t);
    OrderlyLookup(InstalledAll(scopes, pre, ms), t, SetUpAll(t, ms) != Closed, p, x, fuel);
  }

  // ---------------------------------------------------------------- agreement with Beba

  /** What Beba promises: the packet reaches the flow table of the stage once and, if the stage
      is stateful, with its state. */
  predicate Served(s: Stage, scope: seq<Field>, t: nat, p: Fields, x: Pass) {
    && |x.visits| == 1 && x.visits[0].0 == FlowTableId(t)
    && (s.stateful ==> x.visits[0].1 == StateFor(s, scope, p))
  }

  ghost predicate Agrees(scopes: Scopes, pre: Prereqs, ms: seq<Message>, t: nat, p: Fields, reg0: nat)
    requires t in scopes
  {
    var x := Enter(InstalledAll(scopes, pre, ms), StateTableId(t), p, Pass(reg0, 0, []), 2);
    x.Some? && Served(NotedAll(scopes[t], t, ms), scopes[t], t, p, x.value)
  }

  /** Main result: for every sequence of messages and every packet, exactly what the wrapper
      does, and that it is what Beba promises exactly if the stage is open. */
  lemma WrapperAgreesWithBeba(scopes: Scopes, pre: Prereqs, ms: seq<Message>, t: nat, p: Fields, reg0: nat, fuel: nat)
    requires t in scopes && WellFormed(p, pre) && fuel >= 2
    requires forall i :: 0 <= i < |ms| ==> SensibleMessage(scopes, pre, t, ms[i])
    ensures var s, u := NotedAll(scopes[t], t, ms), SetUpAll(t, ms);
            Enter(InstalledAll(scopes, pre, ms), StateTableId(t), p, Pass(reg0, 0, []), fuel)
            == Some(Outcome(s, u, scopes[t], t, p, Pass(reg0, 0, [])))
    ensures Agrees(scopes, pre, ms, t, p, reg0) <==> SetUpAll(t, ms) != Closed
  {
    var ts, s, u := InstalledAll(scopes, pre, ms), NotedAll(scopes[t], t, ms), SetUpAll(t, ms);
    MessagesEmulate(scopes, pre, ms, t);
    StatefulIsAnnounced(scopes[t], t, ms);
    StageDeliversState(ts, t, scopes[t], pre, s, u, p, Pass(reg0, 0, []), fuel);
    StageDeliversState(ts, t, scopes[t], pre, s, u, p, Pass(reg0, 0, []), 2);
  }

  /** Together with the rewritten flows: the packet meets the flow that Beba would choose. */
  lemma WrapperChoosesBebasFlow(scopes: Scopes, pre: Prereqs, ms: seq<Message>, t: nat, p: Fields, reg0: nat,
                                k: (nat, Pattern), g: nat)
    requires t in scopes && WellFormed(p, pre)
    requires forall i :: 0 <= i < |ms| ==> SensibleMessage(scopes, pre, t, ms[i])
    requires forall i :: 0 <= i < |ms| && ms[i].AddUserFlow? ==> ms[i].flow.pattern.globalState.None?
    requires NotedAll(scopes[t], t, ms).stateful && k in UserFlows(t, ms)
    ensures var x := Enter(InstalledAll(scopes, pre, ms), StateTableId(t), p, Pass(reg0, 0, []), 2);
            && x.Some? && |x.value.visits| == 1
            && (BebaChooses(UserFlows(t, ms), k, p, StateFor(NotedAll(scopes[t], t, ms), scopes[t], p), g)
                <==> AppChooses(AppTableAt(AppInstalledAll(ms), x.value.visits[0].0), (k.0, Rewritten(k.1)), p,
                                x.value.visits[0].1))
  {
    WrapperAgreesWithBeba(scopes, pre, ms, t, p, reg0, 2);
    StatefulIsAnnounced(scopes[t], t, ms);
    FlowsCorrespond(t, ms);
    ChoicesCorrespond(UserFlows(t, ms), AppTableAt(AppInstalledAll(ms), FlowTableId(t)), k, p,
                      StateFor(NotedAll(scopes[t], t, ms), scopes[t], p), g);
  }

  // ---------------------------------------------------------------- from stage to stage

  /** A stage that a flow of the application jumps to is open. */
  lemma {:induction false} JumpedToIsOpen(ms: seq<Message>, t: nat, k: (nat, Pattern), u: nat)
    requires k in UserFlows(t, ms) && Goto(u) in UserFlows(t, ms)[k]
    ensures SetUpAll(u, ms) != Closed
  {
    var front, m := ms[..|ms| - 1], ms[|ms| - 1];
    if k in UserFlows(t, front) && UserFlows(t, front)[k] == UserFlows(t, ms)[k] {
      JumpedToIsOpen(front, t, k, u);
    } else {
      var ins := m.flow.instructions;
      var j :| 0 <= j < |ins| && ins[j] == Goto(u);
      assert ins[j].table in Gotos(ins);
    }
  }

  /** The flow as installed. */
  ghost predicate IsInstalled(ms: seq<Message>, t: nat, k: (nat, Pattern), installed: seq<Instruction>) {
    var at, entry := AppTableAt(AppInstalledAll(ms), 2 * t + 1), (k.0, AppPattern(k.1.state, k.1.fields));
    entry in at && at[entry] == installed
  }

  /** Every flow of the application is installed with as many instructions. Those that are not
      jumps are unchanged. A jump to stage `u` leads a packet with register 1 cleared to the
      flow table of that stage, once, and if the stage is stateful, with its state there. */
  lemma JumpsReachTheirStage(scopes: Scopes, pre: Prereqs, ms: seq<Message>, t: nat, k: (nat, Pattern))
    returns (installed: seq<Instruction>)
    requires forall i :: 0 <= i < |ms| && ms[i].AddUserFlow? ==> ms[i].flow.pattern.globalState.None?
    requires k in UserFlows(t, ms)
    ensures IsInstalled(ms, t, k, installed) && |installed| == |UserFlows(t, ms)[k]|
    ensures forall j :: 0 <= j < |installed| && UserFlows(t, ms)[k][j].Apply? ==> installed[j] == UserFlows(t, ms)[k][j]
    ensures forall j, p, x: Pass :: 0 <= j < |installed| && UserFlows(t, ms)[k][j].Goto? && x.reg1 == 0 ==>
              installed[j].Goto? && JumpWorks(scopes, pre, ms, UserFlows(t, ms)[k][j].table, installed[j].table, p, x)
  {
    FlowsCorrespond(t, ms);
    var ins := UserFlows(t, ms)[k];
    assert InstalledAs(k, ins, AppTableAt(AppInstalledAll(ms), FlowTableId(t)));
    installed := AppTableAt(AppInstalledAll(ms), FlowTableId(t))[(k.0, Rewritten(k.1))];
    forall j, p, x: Pass | 0 <= j < |ins| && ins[j].Goto? && x.reg1 == 0
      ensures installed[j].Goto? && JumpWorks(scopes, pre, ms, ins[j].table, installed[j].table, p, x)
    {
      assert installed[j] == Goto(StateTableId(ins[j].table));
      JumpedToIsOpen(ms, t, k, ins[j].table);
      JumpDelivers(scopes, pre, ms, ins[j].table, p, x);
    }
  }

  /** From this table the packet gets to the flow table of stage `u` and, if it is well formed,
      the stage stateful and its keys sensible, with its state. */
  ghost predicate JumpWorks(scopes: Scopes, pre: Prereqs, ms: seq<Message>, u: nat, table: nat, p: Fields, x: Pass) {
    var y := Enter(InstalledAll(scopes, pre, ms), table, p, x, 2);
    && y.Some? && OneMoreVisit(x, u, y.value)
    && (u in scopes && WellFormed(p, pre) && NotedAll(scopes[u], u, ms).stateful
        && (forall i :: 0 <= i < |ms| ==> SensibleMessage(scopes, pre, u, ms[i])) ==>
          y.value.visits[|x.visits|].1 == StateFor(NotedAll(scopes[u], u, ms), scopes[u], p))
  }

  lemma JumpDelivers(scopes: Scopes, pre: Prereqs, ms: seq<Message>, u: nat, p: Fields, x: Pass)
    requires x.reg1 == 0 && SetUpAll(u, ms) != Closed
    ensures JumpWorks(scopes, pre, ms, u, StateTableId(u), p, x)
  {
    PacketArrives(scopes, pre, ms, u, p, x, 2);
    if u in scopes && WellFormed(p, pre) && NotedAll(scopes[u], u, ms).stateful
       && forall i :: 0 <= i < |ms| ==> SensibleMessage(scopes, pre, u, ms[i]) {
      MessagesEmulate(scopes, pre, ms, u);
      StatefulIsAnnounced(scopes[u], u, ms);
      StageDeliversState(InstalledAll(scopes, pre, ms), u, scopes[u], pre, NotedAll(scopes[u], u, ms),
                         SetUpAll(u, ms), p, x, 2);
    }
  }

  /** From one stage to the next: the packet as the first stage leaves it takes the jump of a
      flow to the flow table of the next exactly if it had a stored state in the first. */
  lemma NextStageIffStateStored(scopes: Scopes, pre: Prereqs, ms: seq<Message>, t: nat, u: nat, p: Fields, reg0: nat)
    requires t in scopes && WellFormed(p, pre) && SetUpAll(t, ms) != Closed && SetUpAll(u, ms) != Closed
    requires forall i :: 0 <= i < |ms| ==> SensibleMessage(scopes, pre, t, ms[i])
    ensures var ts := InstalledAll(scopes, pre, ms);
            var y := Enter(ts, StateTableId(t), p, Pass(reg0, 0, []), 2);
            && y.Some?
            && Enter(ts, StateTableId(u), p, y.value, 2).Some?
            && (OneMoreVisit(y.value, u, Enter(ts, StateTableId(u), p, y.value, 2).value)
                <==> HasState(NotedAll(scopes[t], t, ms), scopes[t], p))
  {
    MessagesEmulate(scopes, pre, ms, t);
    var s, v, x := NotedAll(scopes[t], t, ms), SetUpAll(t, ms), Pass(reg0, 0, []);
    StageDeliversState(InstalledAll(scopes, pre, ms), t, scopes[t], pre, s, v, p, x, 2);
    LeavesClearedIff(s, v, scopes[t], t, p, x);
    NextStageIffCleared(scopes, pre, ms, u, p, Outcome(s, v, scopes[t], t, p, x));
  }

  lemma LeavesClearedIff(s: Stage, u: Setup, scope: seq<Field>, t: nat, p: Fields, x: Pass)
    requires u != Closed
    ensures var y := Outcome(s, u, scope, t, p, x); y.reg1 == if HasState(s, scope, p) then 0 else 1
  {
  }

  lemma NextStageIffCleared(scopes: Scopes, pre: Prereqs, ms: seq<Message>, u: nat, p: Fields, y: Pass)
    requires SetUpAll(u, ms) != Closed && (y.reg1 == 0 || y.reg1 == 1)
    ensures var z := Enter(InstalledAll(scopes, pre, ms), StateTableId(u), p, y, 2);
            z.Some? && (OneMoreVisit(y, u, z.value) <==> y.reg1 == 0)
  {
    if y.reg1 == 0 {
      PacketArrives(scopes, pre, ms, u, p, y, 2);
    } else {
      SetRegisterSkipsFlowTable(scopes, pre, ms, u, p, y, 2);
    }
  }

  // ---------------------------------------------------------------- keys that are altered

  /** The message that the wrapper in effect carries out. */
  ghost function Meant(scopes: Scopes, pre: Prereqs, m: Message): Message {
    if m.t !in scopes then m
    else match m
      case SetFlowState(t, key, state) => SetFlowState(t, Corrected(scopes[t], pre, key), state)
      case DelFlowState(t, key) => DelFlowState(t, Corrected(scopes[t], pre, key))
      case _ => m
  }

  ghost function MeantAll(scopes: Scopes, pre: Prereqs, ms: seq<Message>): (r: seq<Message>)
    ensures |r| == |ms| && forall i :: 0 <= i < |ms| ==> r[i] == Meant(scopes, pre, ms[i])
  {
    if ms == [] then [] else MeantAll(scopes, pre, ms[..|ms| - 1]) + [Meant(scopes, pre, ms[|ms| - 1])]
  }

  lemma MeantIsInstalled(ts: Tables, scopes: Scopes, pre: Prereqs, m: Message)
    ensures Installed(ts, scopes, pre, Meant(scopes, pre, m)) == Installed(ts, scopes, pre, m)
  {
    if m.t in scopes && (m.SetFlowState? || m.DelFlowState?) && KeyLen(scopes[m.t]) <= |m.key| {
      CorrectedKeyHasSameEntry(scopes[m.t], pre, m.key);
    }
  }

  lemma MeantIsSensible(scopes: Scopes, pre: Prereqs, t: nat, m: Message)
    requires t in scopes && scopes[t] != []
    ensures SensibleMessage(scopes, pre, t, Meant(scopes, pre, m))
    ensures m.t == t && SensibleMessage(scopes, pre, t, m) ==> Meant(scopes, pre, m) == m
  {
    if m.t == t && (m.SetFlowState? || m.DelFlowState?) && KeyLen(scopes[t]) <= |m.key| {
      CorrectedKeyHasSameEntry(scopes[t], pre, m.key);
    }
  }

  lemma {:induction false} AllMeantAreInstalled(scopes: Scopes, pre: Prereqs, ms: seq<Message>)
    ensures InstalledAll(scopes, pre, MeantAll(scopes, pre, ms)) == InstalledAll(scopes, pre, ms)
  {
    if ms != [] {
      var front, m := ms[..|ms| - 1], ms[|ms| - 1];
      AllMeantAreInstalled(scopes, pre, front);
      MeantIsInstalled(InstalledAll(scopes, pre, front), scopes, pre, m);
      var r := MeantAll(scopes, pre, ms);
      assert r[..|r| - 1] == MeantAll(scopes, pre, front) && r[|r| - 1] == Meant(scopes, pre, m);
    }
  }

  /** Whatever the keys, the wrapper does what Beba does with the corrected keys. */
  lemma WrapperObeysCorrectedKeys(scopes: Scopes, pre: Prereqs, ms: seq<Message>, t: nat, p: Fields, reg0: nat,
                                  fuel: nat)
    requires t in scopes && scopes[t] != [] && WellFormed(p, pre) && fuel >= 2
    ensures var meant := MeantAll(scopes, pre, ms);
            Enter(InstalledAll(scopes, pre, ms), StateTableId(t), p, Pass(reg0, 0, []), fuel)
            == Some(Outcome(NotedAll(scopes[t], t, meant), SetUpAll(t, meant), scopes[t], t, p, Pass(reg0, 0, [])))
  {
    AllMeantAreInstalled(scopes, pre, ms);
    forall i | 0 <= i < |ms| ensures SensibleMessage(scopes, pre, t, MeantAll(scopes, pre, ms)[i]) {
      MeantIsSensible(scopes, pre, t, ms[i]);
    }
    WrapperAgreesWithBeba(scopes, pre, MeantAll(scopes, pre, ms), t, p, reg0, fuel);
  }

  lemma NotedAfterOneState(scope: seq<Field>, t: nat, key: Value, state: nat)
    requires 0 < |key| && KeyLen(scope) <= |key|
    ensures var ms := [ConfigureStage(t, true), SetFlowState(t, key, state)];
            && NotedAll(scope, t, ms) == Stage(true, map[key[..KeyLen(scope)] := state])
            && SetUpAll(t, ms) == Announced
  {
    var ms := [ConfigureStage(t, true), SetFlowState(t, key, state)];
    assert ms[..1] == [ConfigureStage(t, true)] && ms[..1][..0] == [];
    assert NotedAll(scope, t, ms[..1]) == Stage(true, map[]) && SetUpAll(t, ms[..1]) == Announced;
  }

  /** Setting a state for a key that is altered gives this state to every packet that runs into
      the entry, although Beba has none for it. */
  lemma AlteredKeyGivesWrongState(scopes: Scopes, pre: Prereqs, t: nat, key: Value, state: nat, q: Fields, reg0: nat)
    requires Usable(scopes, t, key) && scopes[t] != [] && IsPacket(q, scopes[t], pre) && state != 0
    requires Matches(q, MatchFields(scopes[t], pre, key)) && !Unaltered(scopes[t], pre, key[..KeyLen(scopes[t])])
    ensures var ms := [ConfigureStage(t, true), SetFlowState(t, key, state)];
            && StateFor(NotedAll(scopes[t], t, ms), scopes[t], q) == 0
            && Enter(InstalledAll(scopes, pre, ms), StateTableId(t), q, Pass(reg0, 0, []), 2)
               == Some(Arrived(Pass(state, 0, []), t))
  {
    var scope, n := scopes[t], KeyLen(scopes[t]);
    var ms, k := [ConfigureStage(t, true), SetFlowState(t, key, state)], KeyOf(scope, q);
    var c := Corrected(scope, pre, key);
    PacketKeyIsUnaltered(scope, pre, q);
    MatchedPacketKey(scope, pre, key, q);
    CorrectedKeyHasSameEntry(scope, pre, key);
    assert c[..n] == k;
    NotedAfterOneState(scope, t, key, state);
    NotedAfterOneState(scope, t, c, state);
    assert MeantAll(scopes, pre, ms) == [ConfigureStage(t, true), SetFlowState(t, c, state)];
    WrapperObeysCorrectedKeys(scopes, pre, ms, t, q, reg0, 2);
  }

  /** All states set or deleted at stage `t` are those of the given keys. */
  predicate Names(ms: seq<Message>, t: nat, keys: set<Value>) {
    forall i :: 0 <= i < |ms| ==> ms[i].t == t && (ms[i].SetFlowState? || ms[i].DelFlowState?) ==> ms[i].key in keys
  }

  /** The stage was announced, or a flow jumps to it. */
  ghost predicate IsOpen(ms: seq<Message>, t: nat) {
    exists i :: 0 <= i < |ms| && (Announces(ms[i], t) || Jumps(ms[i], t))
  }

  lemma AlteredKeyDisagrees(scopes: Scopes, pre: Prereqs, t: nat, k: Value) returns (ms: seq<Message>, q: Fields)
    requires Usable(scopes, t, k) && scopes[t] != [] && !Sensible(scopes[t], pre, k[..KeyLen(scopes[t])])
    ensures Names(ms, t, {k}) && WellFormed(q, pre) && IsOpen(ms, t) && !Agrees(scopes, pre, ms, t, q, 1)
  {
    ParsedPrefix(scopes[t], k, KeyLen(scopes[t]));
    q :| IsPacket(q, scopes[t], pre) && Matches(q, MatchFields(scopes[t], pre, k));
    ms := [ConfigureStage(t, true), SetFlowState(t, k, 1)];
    AlteredKeyGivesWrongState(scopes, pre, t, k, 1, q, 1);
    NotedAfterOneState(scopes[t], t, k, 1);
    assert Announces(ms[0], t);
  }

  /** Deleting a state under a scope without fields also deletes the default entry, since its
      match is no less specific: register 0 is not cleared any more. */
  lemma EmptyScopeLosesDefault(scopes: Scopes, pre: Prereqs, t: nat, key: Value, q: Fields, reg0: nat)
    requires Usable(scopes, t, key) && scopes[t] == []
    ensures var ms := [ConfigureStage(t, true), DelFlowState(t, key)];
            && NotedAll(scopes[t], t, ms) == Stage(true, map[])
            && Enter(InstalledAll(scopes, pre, ms), StateTableId(t), q, Pass(reg0, 0, []), 2)
               == Some(Arrived(Pass(reg0, 1, []), t))
  {
    var ms := [ConfigureStage(t, true), DelFlowState(t, key)];
    assert ms[..1] == [ConfigureStage(t, true)] && ms[..1][..0] == [];
    assert NotedAll([], t, ms[..1]) == Stage(true, map[]);
    var ts := InstalledAll(scopes, pre, ms);
    var ft := TableAt(ts, StateTableId(t));
    assert InstalledAll(scopes, pre, ms[..1]) == map[StateTableId(t) := Configured(map[], t)];
    assert ft == WithoutMatching(Configured(map[], t), Match(1, map[]));
    assert ft.Keys == {CONTROL} && ft[CONTROL] == ControlActions(t);
    ControlAlone(ts, t, q, reg0);
  }

  lemma ControlAlone(ts: Tables, t: nat, q: Fields, reg0: nat)
    requires TableAt(ts, StateTableId(t)) == map[CONTROL := ControlActions(t)]
    ensures Enter(ts, StateTableId(t), q, Pass(reg0, 0, []), 2) == Some(Arrived(Pass(reg0, 1, []), t))
  {
    var ft, y := TableAt(ts, StateTableId(t)), Pass(reg0, 1, []);
    assert Applies(CONTROL, q, 0);
    OnlyHit(ft, CONTROL, q, 0);
    assert Hit(ft, q, 1).None?;
    assert Enter(ts, StateTableId(t), q, y, 1) == Some(y);
    ControlRuns(ts, t, q, Pass(reg0, 0, []), 2);
  }

  lemma EmptyScopeDisagrees(scopes: Scopes, pre: Prereqs, t: nat, k: Value) returns (ms: seq<Message>, q: Fields)
    requires Usable(scopes, t, k) && scopes[t] == []
    ensures Names(ms, t, {k}) && WellFormed(q, pre) && IsOpen(ms, t) && !Agrees(scopes, pre, ms, t, q, 1)
  {
    ms, q := [ConfigureStage(t, true), DelFlowState(t, k)], map[];
    EmptyScopeLosesDefault(scopes, pre, t, k, q, 1);
    assert Announces(ms[0], t);
  }

  ghost predicate UsableIsSensible(scopes: Scopes, pre: Prereqs, t: nat, k: Value) {
    Usable(scopes, t, k) ==> scopes[t] != [] && Sensible(scopes[t], pre, k[..KeyLen(scopes[t])])
  }

  /** Agreement depends on nothing but whether the stage is open. */
  ghost predicate AgreesWhenOpen(scopes: Scopes, pre: Prereqs, ms: seq<Message>, t: nat, p: Fields, reg0: nat)
    requires t in scopes
  {
    Agrees(scopes, pre, ms, t, p, reg0) <==> IsOpen(ms, t)
  }

  /** The exact condition on scopes and keys: for all messages about these keys and all packets
      the wrapper agrees with Beba just when the stage is open, if and only if, unless no key is
      usable, the scope has a field and no usable key is altered, except to an entry that no
      packet runs into. */
  lemma AgreesIffKeysSensible(scopes: Scopes, pre: Prereqs, t: nat, keys: set<Value>)
    requires t in scopes
    ensures (forall ms, p, reg0 :: Names(ms, t, keys) && WellFormed(p, pre) ==>
               AgreesWhenOpen(scopes, pre, ms, t, p, reg0))
            <==> (forall k :: k in keys ==> UsableIsSensible(scopes, pre, t, k))
  {
    if k :| k in keys && !UsableIsSensible(scopes, pre, t, k) {
      var ms, q;
      if scopes[t] == [] {
        ms, q := EmptyScopeDisagrees(scopes, pre, t, k);
      } else {
        ms, q := AlteredKeyDisagrees(scopes, pre, t, k);
      }
      assert Names(ms, t, keys) && !AgreesWhenOpen(scopes, pre, ms, t, q, 1);
    } else {
      forall ms: seq<Message>, p, reg0 | Names(ms, t, keys) && WellFormed(p, pre)
        ensures AgreesWhenOpen(scopes, pre, ms, t, p, reg0)
      {
        SensibleKeysAgree(scopes, pre, t, keys, ms, p, reg0);
      }
    }
  }

  lemma SensibleKeysAgree(scopes: Scopes, pre: Prereqs, t: nat, keys: set<Value>, ms: seq<Message>, p: Fields,
                          reg0: nat)
    requires t in scopes && Names(ms, t, keys) && WellFormed(p, pre)
    requires forall k :: k in keys ==> UsableIsSensible(scopes, pre, t, k)
    ensures AgreesWhenOpen(scopes, pre, ms, t, p, reg0)
  {
    forall i | 0 <= i < |ms| ensures SensibleMessage(scopes, pre, t, ms[i]) {
      var m := ms[i];
      assert m.t == t && (m.SetFlowState? || m.DelFlowState?) ==> UsableIsSensible(scopes, pre, t, m.key);
    }
    WrapperAgreesWithBeba(scopes, pre, ms, t, p, reg0, 2);
    SetUpIff(t, ms);
  }

  /** Altered keys exist wherever a field is looked up together with the field it requires: the
      prerequisite overwrites what the key says. */
  lemma ContradictingKeyIsAltered(g: Field, f: Field, v: Value, wrong: Value, w: Value)
    requires g != f && |v| == |wrong| == g.len && |w| == f.len && wrong != v
    ensures var scope, pre := [g, f], map[f := (g, v)];
            && KeyLen(scope) == g.len + f.len
            && IsPacket(map[g := v, f := w], scope, pre)
            && Matches(map[g := v, f := w], MatchFields(scope, pre, wrong + w))
            && !Unaltered(scope, pre, wrong + w)
  {
    var scope, pre, p := [g, f], map[f := (g, v)], map[g := v, f := w];
    assert [g][..|[g]| - 1] == [] && scope[..|scope| - 1] == [g];
    assert KeyLen([g]) == KeyLen([]) + g.len == g.len;
    assert KeyLen(scope) == KeyLen([g]) + f.len;
    var key := wrong + w;
    assert Parsed([g], key) == map[g := key[0..g.len]] && key[g.len..g.len + f.len] == w;
    assert Parsed(scope, key) == map[g := key[0..g.len], f := w];
    assert WithPrereqs([g], pre, Parsed(scope, key)) == Parsed(scope, key);
    assert MatchFields(scope, pre, key) == p;
    MatchedPacketKey(scope, pre, key, p);
    assert KeyOf([g], p) == [] + v;
    assert KeyOf(scope, p) == KeyOf([g], p) + w;
    assert KeyOf(scope, p)[..g.len] == v && key[..g.len] == wrong;
  }
}
