/** Flows of the application: matches on Beba's state become matches on register 0, and jumps
    to a stage become jumps to its state table. */
module BebaFlows {
  import opened Options
  import opened BebaKeys

  /** A stage takes two tables on Open vSwitch. */
  function StateTableId(t: nat): nat { 2 * t }

  function FlowTableId(t: nat): nat { 2 * t + 1 }

  /** What a flow matches on: optionally the state and the global state, and packet fields. */
  datatype Pattern = Pattern(state: Option<nat>, globalState: Option<nat>, fields: Fields)

  /** Actions other than Beba's are numbers: the program hands them on unchanged. */
  datatype Instruction = Apply(actions: seq<nat>) | Goto(table: nat)

  datatype UserFlow = UserFlow(priority: nat, pattern: Pattern, instructions: seq<Instruction>)

  /** What the flow matches on as installed. */
  datatype AppPattern = AppPattern(reg0: Option<nat>, fields: Fields)

  /** A match on the global state is left away. */
  function Rewritten(m: Pattern): AppPattern {
    AppPattern(m.state, m.fields)
  }

  function Redirected(i: Instruction): Instruction {
    if i.Goto? then Goto(StateTableId(i.table)) else i
  }

  function RewrittenAll(ins: seq<Instruction>): seq<Instruction> {
    seq(|ins|, i requires 0 <= i < |ins| => Redirected(ins[i]))
  }

  /** The stages that the instructions jump to. */
  function Gotos(ins: seq<Instruction>): set<nat> {
    set i | 0 <= i < |ins| && ins[i].Goto? :: ins[i].table
  }

  type BebaTable = map<(nat, Pattern), seq<Instruction>>

  type AppTable = map<(nat, AppPattern), seq<Instruction>>

  predicate BebaMatches(m: Pattern, p: Fields, state: nat, globalState: nat) {
    && (m.state.Some? ==> m.state.value == state)
    && (m.globalState.Some? ==> m.globalState.value == globalState)
    && Matches(p, m.fields)
  }

  predicate AppMatches(m: AppPattern, p: Fields, reg0: nat) {
    (m.reg0.Some? ==> m.reg0.value == reg0) && Matches(p, m.fields)
  }

  /** With the state in register 0, the installed pattern matches what Beba's matches if and
      only if the global state is not asked for. */
  lemma RewritingIsExactIff(m: Pattern)
    ensures (forall p, state, g :: BebaMatches(m, p, state, g) <==> AppMatches(Rewritten(m), p, state))
            <==> m.globalState.None?
  {
    if m.globalState.Some? {
      var state := if m.state.Some? then m.state.value else 0;
      assert AppMatches(Rewritten(m), m.fields, state);
      assert !BebaMatches(m, m.fields, state, m.globalState.value + 1);
    }
  }

  /** The installed table is the application's table, rewritten. */
  ghost predicate Corresponds(bt: BebaTable, at: AppTable) {
    && (forall k :: k in bt ==> k.1.globalState.None? && InstalledAs(k, bt[k], at))
    && (forall j :: j in at ==> StandsFor(j, bt))
  }

  predicate InstalledAs(k: (nat, Pattern), ins: seq<Instruction>, at: AppTable) {
    (k.0, Rewritten(k.1)) in at && at[(k.0, Rewritten(k.1))] == RewrittenAll(ins)
  }

  ghost predicate StandsFor(j: (nat, AppPattern), bt: BebaTable) {
    exists k :: k in bt && j == (k.0, Rewritten(k.1))
  }

  function BebaAdded(bt: BebaTable, f: UserFlow): BebaTable {
    bt[(f.priority, f.pattern) := f.instructions]
  }

  function AppAdded(at: AppTable, f: UserFlow): AppTable {
    at[(f.priority, Rewritten(f.pattern)) := RewrittenAll(f.instructions)]
  }

  lemma AddingCorresponds(bt: BebaTable, at: AppTable, f: UserFlow)
    requires Corresponds(bt, at) && f.pattern.globalState.None?
    ensures Corresponds(BebaAdded(bt, f), AppAdded(at, f))
  {
    var bt', at' := BebaAdded(bt, f), AppAdded(at, f);
    assert (f.priority, f.pattern) in bt';
    forall k | k in bt' ensures k.1.globalState.None? && InstalledAs(k, bt'[k], at') {
      assert k != (f.priority, f.pattern) ==> InstalledAs(k, bt[k], at);
    }
    forall j | j in at' ensures StandsFor(j, bt') {
      if j in at {
        var k :| k in bt && j == (k.0, Rewritten(k.1));
        assert k in bt';
      }
    }
  }

  /** A flow that no applicable flow outranks. */
  ghost predicate BebaChooses(bt: BebaTable, k: (nat, Pattern), p: Fields, state: nat, g: nat) {
    && k in bt && BebaMatches(k.1, p, state, g)
    && forall j :: j in bt && BebaMatches(j.1, p, state, g) ==> j.0 <= k.0
  }

  ghost predicate AppChooses(at: AppTable, k: (nat, AppPattern), p: Fields, reg0: nat) {
    && k in at && AppMatches(k.1, p, reg0)
    && forall j :: j in at && AppMatches(j.1, p, reg0) ==> j.0 <= k.0
  }

  /** With the state in register 0, the installed table chooses the flow that Beba chooses. */
  lemma ChoicesCorrespond(bt: BebaTable, at: AppTable, k: (nat, Pattern), p: Fields, state: nat, g: nat)
    requires Corresponds(bt, at) && k in bt
    ensures BebaChooses(bt, k, p, state, g) <==> AppChooses(at, (k.0, Rewritten(k.1)), p, state)
  {
    assert InstalledAs(k, bt[k], at);
    if BebaChooses(bt, k, p, state, g) {
      forall j | j in at && AppMatches(j.1, p, state) ensures j.0 <= k.0 {
        assert StandsFor(j, bt);
        var i :| i in bt && j == (i.0, Rewritten(i.1));
        assert BebaMatches(i.1, p, state, g);
      }
    } else if BebaMatches(k.1, p, state, g) {
      var j :| j in bt && BebaMatches(j.1, p, state, g) && j.0 > k.0;
      assert InstalledAs(j, bt[j], at);
      assert AppMatches((j.0, Rewritten(j.1)).1, p, state);
    }
  }
}
