/** Emulation of a Beba state table by plain flow tables: what the wrapper installs on Open
    vSwitch, and that this stands for Beba's state table after all messages. */
module BebaStateTable {
  import opened Options
  import opened BebaKeys
  import opened BebaFlows

  datatype Action = SetReg0(value: nat) | SetReg1(value: nat) | Resubmit(table: nat)

  datatype Match = Match(reg1: nat, fields: Fields)

  /** An entry is identified by its priority and its match. */
  type Entry = (nat, Match)

  type FlowTable = map<Entry, seq<Action>>

  /** The state tables, by number. */
  type Tables = map<nat, FlowTable>

  /** The flow tables of the application, by number. */
  type AppTables = map<nat, AppTable>

  type Scopes = map<nat, seq<Field>>

  function TableAt(ts: Tables, id: nat): FlowTable {
    if id in ts then ts[id] else map[]
  }

  function AppTableAt(apps: AppTables, id: nat): AppTable {
    if id in apps then apps[id] else map[]
  }

  // ---------------------------------------------------------------- what is installed

  const CONTROL: Entry := (10, Match(0, map[]))
  const DEFAULT: Entry := (10, Match(1, map[]))

  function ControlActions(t: nat): seq<Action> {
    [SetReg1(1), Resubmit(StateTableId(t)), Resubmit(FlowTableId(t))]
  }

  function StateEntry(scope: seq<Field>, pre: Prereqs, key: Value): Entry
    requires KeyLen(scope) <= |key|
  {
    (100, Match(1, MatchFields(scope, pre, key)))
  }

  function StateActions(state: nat): seq<Action> {
    [SetReg1(0), SetReg0(state)]
  }

  /** Deletion is not strict: it removes every entry at least as specific as the match. */
  predicate AtLeastAsSpecific(m: Match, than: Match) {
    m.reg1 == than.reg1 && Matches(m.fields, than.fields)
  }

  function WithoutMatching(ft: FlowTable, m: Match): FlowTable {
    map e | e in ft && !AtLeastAsSpecific(e.1, m) :: ft[e]
  }

  /** A stage is announced as stateful or not; the wrapper does not look at which. */
  datatype Message =
    | ConfigureStage(t: nat, stateful: bool)
    | SetFlowState(t: nat, key: Value, state: nat)
    | DelFlowState(t: nat, key: Value)
    | AddUserFlow(t: nat, flow: UserFlow)

  /** Whether the program gets as far as building a match: it does nothing for an empty key,
      and raises for an unknown scope or a key that is too short. */
  predicate Usable(scopes: Scopes, t: nat, key: Value) {
    |key| > 0 && t in scopes && KeyLen(scopes[t]) <= |key|
  }

  function Configured(ft: FlowTable, t: nat): FlowTable {
    ft[CONTROL := ControlActions(t)][DEFAULT := [SetReg0(0)]]
  }

  /** Every stage that a flow jumps to gets its control entry. */
  function Opened(ts: Tables, ins: seq<Instruction>): Tables {
    if ins == [] then ts
    else
      var before, last := Opened(ts, ins[..|ins| - 1]), ins[|ins| - 1];
      if last.Goto? then
        var id := StateTableId(last.table);
        before[id := TableAt(before, id)[CONTROL := ControlActions(last.table)]]
      else before
  }

  function Installed(ts: Tables, scopes: Scopes, pre: Prereqs, m: Message): Tables {
    match m
    case ConfigureStage(t, _) =>
      ts[StateTableId(t) := Configured(TableAt(ts, StateTableId(t)), t)]
    case SetFlowState(t, key, state) =>
      if !Usable(scopes, t, key) then ts
      else
        var ft := TableAt(ts, StateTableId(t));
        ts[StateTableId(t) := ft[StateEntry(scopes[t], pre, key) := StateActions(state)]]
    case DelFlowState(t, key) =>
      if !Usable(scopes, t, key) then ts
      else ts[StateTableId(t) := WithoutMatching(TableAt(ts, StateTableId(t)), StateEntry(scopes[t], pre, key).1)]
    case AddUserFlow(_, flow) => Opened(ts, flow.instructions)
  }

  function AppInstalled(apps: AppTables, m: Message): AppTables {
    if m.AddUserFlow?
    then apps[FlowTableId(m.t) := AppAdded(AppTableAt(apps, FlowTableId(m.t)), m.flow)]
    else apps
  }

  datatype Sent = Done | Ignored | Raised

  class OvsDatapath {
    const pre: Prereqs
    var lookupScope: Scopes
    var stagesInUse: set<nat>
    var tables: Tables
    var apps: AppTables

    /** Stages in use have their control entry. */
    ghost predicate Valid()
      reads this
    {
      forall t :: t in stagesInUse ==> HasControl(TableAt(tables, StateTableId(t)), t)
    }

    constructor (pre: Prereqs)
      ensures Valid()
      ensures this.pre == pre && lookupScope == map[] && stagesInUse == {} && tables == map[] && apps == map[]
    {
      this.pre := pre;
      lookupScope, stagesInUse, tables, apps := map[], {}, map[], map[];
    }

    /** The scope is stored when the message that announces it is built. */
    method StoreLookupScope(t: nat, fields: seq<Field>)
      requires Valid()
      modifies this`lookupScope
      ensures Valid()
      ensures lookupScope == old(lookupScope)[t := fields]
    {
      lookupScope := lookupScope[t := fields];
    }

    method SendConfigureStage(t: nat, stateful: bool)
      requires Valid()
      modifies this`tables, this`stagesInUse
      ensures Valid()
      ensures tables == Installed(old(tables), lookupScope, pre, ConfigureStage(t, stateful))
      ensures stagesInUse == old(stagesInUse) + {t}
    {
      AddFlow(StateTableId(t), CONTROL, ControlActions(t));
      AddFlow(StateTableId(t), DEFAULT, [SetReg0(0)]);
      stagesInUse := stagesInUse + {t};
    }

    method SendSetFlowState(t: nat, key: Value, state: nat) returns (r: Sent)
      requires Valid()
      modifies this`tables
      ensures Valid()
      ensures r == Done <==> Usable(lookupScope, t, key)
      ensures r == Ignored <==> key == []
      ensures tables == Installed(old(tables), lookupScope, pre, SetFlowState(t, key, state))
    {
      if |key| == 0 {
        return Ignored;
      }
      if t !in lookupScope {
        return Raised;
      }
      var fields := ParseKey(lookupScope[t], pre, key);
      if fields.None? {
        return Raised;
      }
      AddFlow(StateTableId(t), (100, Match(1, fields.value)), [SetReg1(0), SetReg0(state)]);
      return Done;
    }

    method SendDelFlowState(t: nat, key: Value) returns (r: Sent)
      requires Valid()
      modifies this`tables
      ensures Valid()
      ensures r == Done <==> Usable(lookupScope, t, key)
      ensures r == Ignored <==> key == []
      ensures tables == Installed(old(tables), lookupScope, pre, DelFlowState(t, key))
    {
      if |key| == 0 {
        return Ignored;
      }
      if t !in lookupScope {
        return Raised;
      }
      var fields := ParseKey(lookupScope[t], pre, key);
      if fields.None? {
        return Raised;
      }
      DeleteFlows(StateTableId(t), Match(1, fields.value));
      return Done;
    }

    /** Flows of the application go to the flow table of their stage. A stage that one jumps to
        gets a control entry, unless it is in use, and the jump leads to its state table. */
    method SendUserFlow(t: nat, flow: UserFlow)
      requires Valid()
      modifies this`tables, this`stagesInUse, this`apps
      ensures Valid()
      ensures tables == Installed(old(tables), lookupScope, pre, AddUserFlow(t, flow))
      ensures apps == AppInstalled(old(apps), AddUserFlow(t, flow))
      ensures stagesInUse == old(stagesInUse) + Gotos(flow.instructions)
    {
      var ins := flow.instructions;
      var rewritten: seq<Instruction> := [];
      for i := 0 to |ins|
        invariant Valid() && apps == old(apps)
        invariant tables == Opened(old(tables), ins[..i])
        invariant stagesInUse == old(stagesInUse) + Gotos(ins[..i])
        invariant rewritten == RewrittenAll(ins[..i])
      {
        OneMoreInstruction(old(tables), ins, i);
        if ins[i].Goto? {
          OpenStage(ins[i].table);
          rewritten := rewritten + [Goto(StateTableId(ins[i].table))];
        } else {
          rewritten := rewritten + [ins[i]];
        }
      }
      assert ins[..|ins|] == ins;
      var entry := (flow.priority, AppPattern(flow.pattern.state, flow.pattern.fields));
      apps := apps[FlowTableId(t) := AppTableAt(apps, FlowTableId(t))[entry := rewritten]];
    }

    method OpenStage(u: nat)
      requires Valid()
      modifies this`tables, this`stagesInUse
      ensures Valid()
      ensures tables == old(tables)[StateTableId(u) :=
                                      TableAt(old(tables), StateTableId(u))[CONTROL := ControlActions(u)]]
      ensures stagesInUse == old(stagesInUse) + {u}
    {
      if u !in stagesInUse {
        AddFlow(StateTableId(u), CONTROL, ControlActions(u));
        stagesInUse := stagesInUse + {u};
      } else {
        assert HasControl(TableAt(tables, StateTableId(u)), u);
        assert TableAt(tables, StateTableId(u))[CONTROL := ControlActions(u)] == TableAt(tables, StateTableId(u));
      }
    }

    method AddFlow(id: nat, entry: Entry, actions: seq<Action>)
      modifies this`tables
      ensures tables == old(tables)[id := TableAt(old(tables), id)[entry := actions]]
    {
      tables := tables[id := TableAt(tables, id)[entry := actions]];
    }

    method DeleteFlows(id: nat, m: Match)
      modifies this`tables
      ensures tables == old(tables)[id := WithoutMatching(TableAt(old(tables), id), m)]
    {
      tables := tables[id := WithoutMatching(TableAt(tables, id), m)];
    }
  }

  predicate HasControl(ft: FlowTable, t: nat) {
    CONTROL in ft && ft[CONTROL] == ControlActions(t)
  }

  lemma OneMoreInstruction(ts: Tables, ins: seq<Instruction>, i: nat)
    requires i < |ins|
    ensures ins[..i + 1][..i] == ins[..i]
    ensures Opened(ts, ins[..i + 1]) ==
            if ins[i].Goto? then
              var before, id := Opened(ts, ins[..i]), StateTableId(ins[i].table);
              before[id := TableAt(before, id)[CONTROL := ControlActions(ins[i].table)]]
            else Opened(ts, ins[..i])
    ensures Gotos(ins[..i + 1]) == Gotos(ins[..i]) + (if ins[i].Goto? then {ins[i].table} else {})
    ensures RewrittenAll(ins[..i + 1]) == RewrittenAll(ins[..i]) + [Redirected(ins[i])]
  {
    assert ins[..i + 1][..i] == ins[..i] && ins[..i + 1][i] == ins[i];
    forall u ensures u in Gotos(ins[..i + 1]) <==> u in Gotos(ins[..i]) || (ins[i].Goto? && u == ins[i].table) {
      if u in Gotos(ins[..i]) {
        var k :| 0 <= k < i && ins[..i][k].Goto? && ins[..i][k].table == u;
        assert ins[..i + 1][k].Goto? && ins[..i + 1][k].table == u;
      }
    }
  }

  // ---------------------------------------------------------------- Beba's own view

  /** One stage as Beba defines it: whether it is stateful, and its state table. */
  datatype Stage = Stage(stateful: bool, states: map<Value, nat>)

  function Noted(s: Stage, scope: seq<Field>, t: nat, m: Message): Stage {
    if m.t != t then s
    else match m
      case ConfigureStage(_, stateful) => s.(stateful := stateful)
      case SetFlowState(_, key, state) =>
        if |key| > 0 && KeyLen(scope) <= |key| then s.(states := s.states[key[..KeyLen(scope)] := state]) else s
      case DelFlowState(_, key) =>
        if |key| > 0 && KeyLen(scope) <= |key| then s.(states := s.states - {key[..KeyLen(scope)]}) else s
      case AddUserFlow(_, _) => s
  }

  /** The state that Beba finds for a key: the last one set and not deleted since, or zero. */
  function StateOf(s: Stage, key: Value): nat {
    if key in s.states then s.states[key] else 0
  }

  /** What the wrapper has done for a stage: nothing, a control entry because a flow jumps to
      the stage, or control and default entry because the stage was announced. */
  datatype Setup = Closed | Open | Announced

  function SetUp(u: Setup, t: nat, m: Message): Setup {
    match m
    case ConfigureStage(t', _) => if t' == t then Announced else u
    case AddUserFlow(_, flow) => if u == Closed && t in Gotos(flow.instructions) then Open else u
    case _ => u
  }

  /** The flow table holds exactly the entries that stand for the state table, apart from
      entries that no packet runs into. */
  ghost predicate Emulates(ft: FlowTable, t: nat, scope: seq<Field>, pre: Prereqs, s: Stage, u: Setup) {
    && KeysSensible(scope, pre, s)
    && HasBasics(ft, t, u)
    && StoresStates(ft, scope, pre, s)
    && HasNothingElse(ft, scope, pre, s)
  }

  ghost predicate KeysSensible(scope: seq<Field>, pre: Prereqs, s: Stage) {
    forall k :: k in s.states ==> Sensible(scope, pre, k)
  }

  ghost predicate HasBasics(ft: FlowTable, t: nat, u: Setup) {
    && (CONTROL in ft <==> u != Closed) && (CONTROL in ft ==> ft[CONTROL] == ControlActions(t))
    && (DEFAULT in ft <==> u == Announced) && (DEFAULT in ft ==> ft[DEFAULT] == [SetReg0(0)])
  }

  ghost predicate StoresStates(ft: FlowTable, scope: seq<Field>, pre: Prereqs, s: Stage)
    requires KeysSensible(scope, pre, s)
  {
    forall k :: k in s.states && Live(scope, pre, MatchFields(scope, pre, k)) ==> Stores(ft, scope, pre, k, s.states[k])
  }

  ghost predicate Stores(ft: FlowTable, scope: seq<Field>, pre: Prereqs, k: Value, state: nat)
    requires KeyLen(scope) <= |k|
  {
    StateEntry(scope, pre, k) in ft && ft[StateEntry(scope, pre, k)] == StateActions(state)
  }

  ghost predicate HasNothingElse(ft: FlowTable, scope: seq<Field>, pre: Prereqs, s: Stage) {
    forall e :: e in ft ==> IsBasic(e) || Accounted(e, scope, pre, s)
  }

  /** An entry for some key, which stands for a stored state unless no packet runs into it. */
  ghost predicate Accounted(e: Entry, scope: seq<Field>, pre: Prereqs, s: Stage) {
    && e.0 == 100 && e.1.reg1 == 1 && HasScope(e.1.fields, scope)
    && (!Live(scope, pre, e.1.fields) || StandsForKey(e, scope, pre, s))
  }

  predicate IsBasic(e: Entry) {
    e == CONTROL || e == DEFAULT
  }

  ghost predicate StandsForKey(e: Entry, scope: seq<Field>, pre: Prereqs, s: Stage) {
    exists k :: k in s.states && KeyLen(scope) <= |k| && e == StateEntry(scope, pre, k)
  }

  // ---------------------------------------------------------------- every message keeps the emulation

  lemma StillAccounted(e: Entry, scope: seq<Field>, pre: Prereqs, s: Stage, s': Stage)
    requires Accounted(e, scope, pre, s)
    requires forall k :: k in s.states && KeyLen(scope) <= |k| && e == StateEntry(scope, pre, k) ==> k in s'.states
    ensures Accounted(e, scope, pre, s')
  {
  }

  lemma SettingStores(ft: FlowTable, scope: seq<Field>, pre: Prereqs, s: Stage, k: Value, state: nat)
    requires KeysSensible(scope, pre, s) && StoresStates(ft, scope, pre, s) && Sensible(scope, pre, k)
    ensures var s' := s.(states := s.states[k := state]);
            && KeysSensible(scope, pre, s')
            && StoresStates(ft[StateEntry(scope, pre, k) := StateActions(state)], scope, pre, s')
  {
    forall j | j in s.states && j != k && Live(scope, pre, MatchFields(scope, pre, j))
      ensures StateEntry(scope, pre, j) != StateEntry(scope, pre, k)
    {
      LiveEntriesAreApart(scope, pre, j, k);
    }
  }

  lemma SettingEmulates(ft: FlowTable, t: nat, scope: seq<Field>, pre: Prereqs, s: Stage, u: Setup, k: Value,
                        state: nat)
    requires Emulates(ft, t, scope, pre, s, u) && Sensible(scope, pre, k)
    ensures Emulates(ft[StateEntry(scope, pre, k) := StateActions(state)], t, scope, pre,
                     s.(states := s.states[k := state]), u)
  {
    var ft', s' := ft[StateEntry(scope, pre, k) := StateActions(state)], s.(states := s.states[k := state]);
    SettingStores(ft, scope, pre, s, k, state);
    EntryHasScope(scope, pre, k);
    assert StandsForKey(StateEntry(scope, pre, k), scope, pre, s');
    forall e | e in ft' ensures IsBasic(e) || Accounted(e, scope, pre, s') {
      if e != StateEntry(scope, pre, k) && !IsBasic(e) {
        StillAccounted(e, scope, pre, s, s');
      }
    }
  }

  lemma DeletingStores(ft: FlowTable, scope: seq<Field>, pre: Prereqs, s: Stage, k: Value)
    requires KeysSensible(scope, pre, s) && StoresStates(ft, scope, pre, s) && Sensible(scope, pre, k)
    ensures var s' := s.(states := s.states - {k});
            && KeysSensible(scope, pre, s')
            && StoresStates(WithoutMatching(ft, StateEntry(scope, pre, k).1), scope, pre, s')
  {
    forall j | j in s.states && j != k && Live(scope, pre, MatchFields(scope, pre, j))
      ensures !AtLeastAsSpecific(StateEntry(scope, pre, j).1, StateEntry(scope, pre, k).1)
    {
      LiveEntriesAreApart(scope, pre, j, k);
    }
  }

  lemma DeletingSparesBasics(scope: seq<Field>, pre: Prereqs, k: Value)
    requires Sensible(scope, pre, k) && scope != []
    ensures !AtLeastAsSpecific(CONTROL.1, StateEntry(scope, pre, k).1)
    ensures !AtLeastAsSpecific(DEFAULT.1, StateEntry(scope, pre, k).1)
  {
    EntryHasScope(scope, pre, k);
    assert scope[0] in MatchFields(scope, pre, k);
  }

  lemma DeletingEmulates(ft: FlowTable, t: nat, scope: seq<Field>, pre: Prereqs, s: Stage, u: Setup, k: Value)
    requires Emulates(ft, t, scope, pre, s, u) && Sensible(scope, pre, k) && scope != []
    ensures Emulates(WithoutMatching(ft, StateEntry(scope, pre, k).1), t, scope, pre,
                     s.(states := s.states - {k}), u)
  {
    var ft', s' := WithoutMatching(ft, StateEntry(scope, pre, k).1), s.(states := s.states - {k});
    DeletingStores(ft, scope, pre, s, k);
    DeletingSparesBasics(scope, pre, k);
    forall e | e in ft' ensures IsBasic(e) || Accounted(e, scope, pre, s') {
      if !IsBasic(e) {
        assert e != StateEntry(scope, pre, k);
        StillAccounted(e, scope, pre, s, s');
      }
    }
  }

  /** Control and default entry can be added without touching anything else. */
  lemma BasicsEmulate(ft: FlowTable, t: nat, scope: seq<Field>, pre: Prereqs, s: Stage, u: Setup,
                      ft': FlowTable, s': Stage, u': Setup)
    requires Emulates(ft, t, scope, pre, s, u) && s'.states == s.states && HasBasics(ft', t, u')
    requires forall e :: !IsBasic(e) ==> (e in ft' <==> e in ft)
    requires forall e :: !IsBasic(e) && e in ft ==> ft'[e] == ft[e]
    ensures Emulates(ft', t, scope, pre, s', u')
  {
    forall k | k in s.states && Live(scope, pre, MatchFields(scope, pre, k))
      ensures Stores(ft', scope, pre, k, s.states[k])
    {
      assert StateEntry(scope, pre, k).0 == 100;
      assert Stores(ft, scope, pre, k, s.states[k]);
    }
    forall e | e in ft' ensures IsBasic(e) || Accounted(e, scope, pre, s') {
      if !IsBasic(e) {
        StillAccounted(e, scope, pre, s, s');
      }
    }
  }

  /** What jumping flows do to the table of one stage. */
  lemma {:induction false} OpenedAt(ts: Tables, ins: seq<Instruction>, t: nat)
    ensures TableAt(Opened(ts, ins), StateTableId(t)) ==
            if t in Gotos(ins) then TableAt(ts, StateTableId(t))[CONTROL := ControlActions(t)]
            else TableAt(ts, StateTableId(t))
  {
    if ins != [] {
      OpenedAt(ts, ins[..|ins| - 1], t);
      OneMoreInstruction(ts, ins, |ins| - 1);
      assert ins[..|ins|] == ins;
    }
  }

  lemma OpeningEmulates(ft: FlowTable, t: nat, scope: seq<Field>, pre: Prereqs, s: Stage, u: Setup)
    requires Emulates(ft, t, scope, pre, s, u)
    ensures Emulates(ft[CONTROL := ControlActions(t)], t, scope, pre, s, if u == Closed then Open else u)
  {
    BasicsEmulate(ft, t, scope, pre, s, u, ft[CONTROL := ControlActions(t)], s, if u == Closed then Open else u);
  }

  /** The message does not name a key of this stage that building its entry would alter, at
      least as far as packets can tell, and does not delete under a scope without fields. */
  ghost predicate SensibleMessage(scopes: Scopes, pre: Prereqs, t: nat, m: Message) {
    m.t == t && (m.SetFlowState? || m.DelFlowState?) && Usable(scopes, t, m.key) ==>
      Sensible(scopes[t], pre, m.key[..KeyLen(scopes[t])]) && (m.DelFlowState? ==> scopes[t] != [])
  }

  lemma MessageKeepsEmulation(ts: Tables, scopes: Scopes, pre: Prereqs, t: nat, s: Stage, u: Setup, m: Message)
    requires t in scopes && SensibleMessage(scopes, pre, t, m)
    requires Emulates(TableAt(ts, StateTableId(t)), t, scopes[t], pre, s, u)
    ensures Emulates(TableAt(Installed(ts, scopes, pre, m), StateTableId(t)), t, scopes[t], pre,
                     Noted(s, scopes[t], t, m), SetUp(u, t, m))
  {
    var ft, scope := TableAt(ts, StateTableId(t)), scopes[t];
    if m.AddUserFlow? {
      OpenedAt(ts, m.flow.instructions, t);
      OpeningEmulates(ft, t, scope, pre, s, u);
    } else if m.t == t && m.ConfigureStage? {
      BasicsEmulate(ft, t, scope, pre, s, u, Configured(ft, t), s.(stateful := m.stateful), Announced);
    } else if m.t == t && Usable(scopes, t, m.key) {
      var n := KeyLen(scope);
      ParsedPrefix(scope, m.key, n);
      if m.SetFlowState? {
        SettingEmulates(ft, t, scope, pre, s, u, m.key[..n], m.state);
      } else {
        DeletingEmulates(ft, t, scope, pre, s, u, m.key[..n]);
      }
    }
  }

  function InstalledAll(scopes: Scopes, pre: Prereqs, ms: seq<Message>): Tables {
    if ms == [] then map[] else Installed(InstalledAll(scopes, pre, ms[..|ms| - 1]), scopes, pre, ms[|ms| - 1])
  }

  function NotedAll(scope: seq<Field>, t: nat, ms: seq<Message>): Stage {
    if ms == [] then Stage(false, map[]) else Noted(NotedAll(scope, t, ms[..|ms| - 1]), scope, t, ms[|ms| - 1])
  }

  function SetUpAll(t: nat, ms: seq<Message>): Setup {
    if ms == [] then Closed else SetUp(SetUpAll(t, ms[..|ms| - 1]), t, ms[|ms| - 1])
  }

  /** After every sequence of messages the installed entries stand for Beba's state table. */
  lemma {:induction false} MessagesEmulate(scopes: Scopes, pre: Prereqs, ms: seq<Message>, t: nat)
    requires t in scopes
    requires forall i :: 0 <= i < |ms| ==> SensibleMessage(scopes, pre, t, ms[i])
    ensures Emulates(TableAt(InstalledAll(scopes, pre, ms), StateTableId(t)), t, scopes[t], pre,
                     NotedAll(scopes[t], t, ms), SetUpAll(t, ms))
  {
    if ms != [] {
      var front := ms[..|ms| - 1];
      MessagesEmulate(scopes, pre, front, t);
      MessageKeepsEmulation(InstalledAll(scopes, pre, front), scopes, pre, t, NotedAll(scopes[t], t, front),
                            SetUpAll(t, front), ms[|ms| - 1]);
    }
  }

  /** A flow jumps to the stage. */
  predicate Jumps(m: Message, t: nat) {
    m.AddUserFlow? && t in Gotos(m.flow.instructions)
  }

  predicate Announces(m: Message, t: nat) {
    m.ConfigureStage? && m.t == t
  }

  /** A stage is announced exactly by its message, and open exactly by that or by a jump. */
  lemma {:induction false} SetUpIff(t: nat, ms: seq<Message>)
    ensures SetUpAll(t, ms) == Announced <==> exists i :: 0 <= i < |ms| && Announces(ms[i], t)
    ensures SetUpAll(t, ms) != Closed <==> exists i :: 0 <= i < |ms| && (Announces(ms[i], t) || Jumps(ms[i], t))
  {
    if ms != [] {
      var front, n := ms[..|ms| - 1], |ms| - 1;
      SetUpIff(t, front);
      assert forall i :: 0 <= i < n ==> ms[i] == front[i];
      assert Announces(ms[n], t) ==> SetUpAll(t, ms) == Announced;
    }
  }

  /** Only a stage that was announced can be stateful. */
  lemma {:induction false} StatefulIsAnnounced(scope: seq<Field>, t: nat, ms: seq<Message>)
    ensures NotedAll(scope, t, ms).stateful ==> SetUpAll(t, ms) == Announced
  {
    if ms != [] {
      StatefulIsAnnounced(scope, t, ms[..|ms| - 1]);
    }
  }

  // ---------------------------------------------------------------- flows of the application

  function AppInstalledAll(ms: seq<Message>): AppTables {
    if ms == [] then map[] else AppInstalled(AppInstalledAll(ms[..|ms| - 1]), ms[|ms| - 1])
  }

  /** The flow table of a stage as the application sees it. */
  function UserFlows(t: nat, ms: seq<Message>): BebaTable {
    if ms == [] then map[]
    else
      var before, m := UserFlows(t, ms[..|ms| - 1]), ms[|ms| - 1];
      if m.AddUserFlow? && m.t == t then BebaAdded(before, m.flow) else before
  }

  /** After every sequence of messages the installed flow table is the application's. */
  lemma {:induction false} FlowsCorrespond(t: nat, ms: seq<Message>)
    requires forall i :: 0 <= i < |ms| && ms[i].AddUserFlow? ==> ms[i].flow.pattern.globalState.None?
    ensures Corresponds(UserFlows(t, ms), AppTableAt(AppInstalledAll(ms), FlowTableId(t)))
  {
    if ms != [] {
      var front, m := ms[..|ms| - 1], ms[|ms| - 1];
      FlowsCorrespond(t, front);
      if m.AddUserFlow? && m.t == t {
        AddingCorresponds(UserFlows(t, front), AppTableAt(AppInstalledAll(front), FlowTableId(t)), m.flow);
      }
    }
  }
}
