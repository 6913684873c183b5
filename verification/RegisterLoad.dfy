/** Masked register updates as lists of load specifications, the form in which a state
    transition is handed to Open vSwitch. */
module RegisterLoad {
  import opened Bits

  const WIDTH := 32

  datatype Source = Immediate(value: nat) | Register0

  /** Writes `nBits` bits into register 0, starting `offset` bits from the right. */
  datatype Load = Load(offset: nat, nBits: nat, src: Source)

  predicate WellPlaced(l: Load) {
    l.offset + l.nBits <= WIDTH && (l.src.Register0? ==> l.offset == 0 && l.nBits == WIDTH)
  }

  /** What a load does to the register, given the value the register had when the loads were
      put together. */
  function Loaded(old0: Word, reg: Word, l: Load): Word
    requires |old0| == |reg| == WIDTH && WellPlaced(l)
  {
    match l.src
    case Register0 => old0
    case Immediate(v) =>
      reg[..WIDTH - l.offset - l.nBits] + ToBits(v, l.nBits) + reg[WIDTH - l.offset..]
  }

  function RunLoads(old0: Word, reg: Word, loads: seq<Load>): (r: Word)
    requires |old0| == |reg| == WIDTH && forall i :: 0 <= i < |loads| ==> WellPlaced(loads[i])
    ensures |r| == WIDTH
  {
    if loads == [] then reg
    else Loaded(old0, RunLoads(old0, reg, loads[..|loads| - 1]), loads[|loads| - 1])
  }

  // ---------------------------------------------------------------- runs of ones

  /** First and last index of a run. */
  type Run = (nat, nat)

  predicate InRun(r: Run, p: int) {
    r.0 <= p <= r.1
  }

  ghost predicate IsMaximalRun(w: Word, r: Run) {
    && r.0 <= r.1 < |w|
    && (forall p :: InRun(r, p) ==> w[p])
    && (r.0 > 0 ==> !w[r.0 - 1])
    && (r.1 + 1 < |w| ==> !w[r.1 + 1])
  }

  /** `runs` are the maximal runs of ones in the first `n` bits, from left to right, with at
      least one zero between neighbours. */
  ghost predicate AreRuns(w: Word, runs: seq<Run>, n: nat) {
    && (forall i :: 0 <= i < |runs| ==> IsMaximalRun(w, runs[i]) && runs[i].1 < n)
    && (forall i, j :: 0 <= i < j < |runs| ==> runs[i].1 + 1 < runs[j].0)
    && (forall p :: 0 <= p < n && p < |w| && w[p] ==> Covered(runs, p))
  }

  ghost predicate Covered(runs: seq<Run>, p: int) {
    exists i :: 0 <= i < |runs| && InRun(runs[i], p)
  }

  lemma MoreRunsCoverMore(runs: seq<Run>, r: Run)
    ensures forall p :: Covered(runs + [r], p) <==> Covered(runs, p) || InRun(r, p)
  {
    forall p ensures Covered(runs + [r], p) <==> Covered(runs, p) || InRun(r, p) {
      if i :| 0 <= i < |runs| && InRun(runs[i], p) {
        assert (runs + [r])[i] == runs[i];
      }
      assert (runs + [r])[|runs|] == r;
    }
  }

  /** What a search for runs of ones finds. */
  method FindRuns(w: Word) returns (runs: seq<Run>)
    ensures AreRuns(w, runs, |w|)
  {
    runs := [];
    var i := 0;
    while i < |w|
      invariant 0 <= i <= |w| && AreRuns(w, runs, i)
      invariant i > 0 && i < |w| && w[i] ==> !w[i - 1]
    {
      if !w[i] {
        i := i + 1;
      } else {
        var j := i;
        while j < |w| && w[j]
          invariant i <= j <= |w| && forall p :: i <= p < j ==> w[p]
        {
          j := j + 1;
        }
        ghost var before := runs;
        runs := runs + [(i, j - 1)];
        MoreRunsCoverMore(before, (i, j - 1));
        i := j;
      }
    }
  }

  // ---------------------------------------------------------------- the load list

  function LoadOf(masked: Word, r: Run): Load
    requires |masked| == WIDTH && r.0 <= r.1 < WIDTH
  {
    Load(31 - r.1, r.1 - r.0 + 1, Immediate(FromBits(masked[r.0..r.1 + 1])))
  }

  /** Loads that first copy the old value and then overwrite the given runs. */
  ghost predicate AreRunLoads(loads: seq<Load>, masked: Word, runs: seq<Run>)
    requires |masked| == WIDTH && forall i :: 0 <= i < |runs| ==> runs[i].0 <= runs[i].1 < WIDTH
  {
    && |loads| == |runs| + 1
    && loads[0] == Load(0, WIDTH, Register0)
    && forall i :: 0 <= i < |runs| ==> loads[i + 1] == LoadOf(masked, runs[i])
  }

  lemma LoadWritesRun(old0: Word, reg: Word, masked: Word, r: Run, p: nat)
    requires |old0| == |reg| == |masked| == WIDTH && r.0 <= r.1 < WIDTH && p < WIDTH
    ensures WellPlaced(LoadOf(masked, r))
    ensures |Loaded(old0, reg, LoadOf(masked, r))| == WIDTH
    ensures Loaded(old0, reg, LoadOf(masked, r))[p] == if InRun(r, p) then masked[p] else reg[p]
  {
    LoadedSegment(old0, reg, masked, r);
  }

  lemma LoadedSegment(old0: Word, reg: Word, masked: Word, r: Run)
    requires |old0| == |reg| == |masked| == WIDTH && r.0 <= r.1 < WIDTH
    ensures WellPlaced(LoadOf(masked, r))
    ensures Loaded(old0, reg, LoadOf(masked, r)) == reg[..r.0] + masked[r.0..r.1 + 1] + reg[r.1 + 1..]
  {
    FormatInvertsParse(masked[r.0..r.1 + 1]);
  }

  lemma {:induction false} RunLoadsWriteRuns(old0: Word, reg: Word, loads: seq<Load>, masked: Word, runs: seq<Run>,
                                             p: nat)
    requires |old0| == |reg| == |masked| == WIDTH && p < WIDTH
    requires forall i :: 0 <= i < |runs| ==> runs[i].0 <= runs[i].1 < WIDTH
    requires AreRunLoads(loads, masked, runs)
    ensures forall i :: 0 <= i < |loads| ==> WellPlaced(loads[i])
    ensures RunLoads(old0, reg, loads)[p] == if Covered(runs, p) then masked[p] else old0[p]
    decreases |runs|
  {
    if runs == [] {
      assert loads[..0] == [];
    } else {
      var n := |runs| - 1;
      RunLoadsWriteRuns(old0, reg, loads[..|runs|], masked, runs[..n], p);
      assert forall i :: 0 <= i < |runs| ==> loads[i] == loads[..|runs|][i];
      LoadWritesRun(old0, RunLoads(old0, reg, loads[..|runs|]), masked, runs[n], p);
      assert runs == runs[..n] + [runs[n]];
      MoreRunsCoverMore(runs[..n], runs[n]);
    }
  }

  /** The new state: the bits under the mask from `state`, the others from before. */
  function Merged(old0: Word, state: Word, mask: Word): Word
    requires |old0| == |state| == |mask|
  {
    Or(And(old0, Not(mask)), And(state, mask))
  }

  ghost predicate UpdatesState(loads: seq<Load>, state: Word, mask: Word)
    requires |state| == |mask| == WIDTH
  {
    && (forall i :: 0 <= i < |loads| ==> WellPlaced(loads[i]))
    && forall old0, reg :: |old0| == |reg| == WIDTH ==> RunLoads(old0, reg, loads) == Merged(old0, state, mask)
  }

  /** The emitted loads, run in order, turn any old register value into
      `(old & ~mask) | (state & mask)`; between the two special masks, the segments loaded are
      the maximal runs of ones of the mask. */
  method GenerateLoads(state: nat, mask: nat) returns (loads: seq<Load>, ghost runs: seq<Run>)
    requires state < Pow2(WIDTH) && mask < Pow2(WIDTH)
    ensures UpdatesState(loads, ToBits(state, WIDTH), ToBits(mask, WIDTH))
    ensures mask != 0 && mask != 0xffff_ffff ==>
              && AreRuns(ToBits(mask, WIDTH), runs, WIDTH)
              && AreRunLoads(loads, And(ToBits(state, WIDTH), ToBits(mask, WIDTH)), runs)
    ensures mask == 0 || mask == 0xffff_ffff ==> |loads| == 1
  {
    var s, m := ToBits(state, WIDTH), ToBits(mask, WIDTH);
    runs := [];
    if mask == 0xffff_ffff {
      loads := [Load(0, WIDTH, Immediate(state))];
      AllOnes();
      FullLoadUpdates(state);
    } else if mask == 0 {
      loads := [Load(0, WIDTH, Register0)];
      AllZeros();
      CopyUpdates(s);
    } else {
      var found := FindRuns(m);
      runs := found;
      var masked := And(s, m);
      loads := [Load(0, WIDTH, Register0)];
      for i := 0 to |found|
        invariant AreRunLoads(loads, masked, found[..i])
      {
        var (first, last) := found[i];
        assert found[..i + 1] == found[..i] + [found[i]];
        loads := loads + [Load(31 - last, last - first + 1, Immediate(FromBits(masked[first..last + 1])))];
      }
      assert found[..|found|] == found;
      SegmentsUpdate(loads, s, m, found);
    }
  }

  lemma SegmentsUpdate(loads: seq<Load>, s: Word, m: Word, runs: seq<Run>)
    requires |s| == |m| == WIDTH && AreRuns(m, runs, WIDTH) && AreRunLoads(loads, And(s, m), runs)
    ensures UpdatesState(loads, s, m)
  {
    RunLoadsWriteRuns(s, s, loads, And(s, m), runs, 0);
    forall old0, reg | |old0| == |reg| == WIDTH ensures RunLoads(old0, reg, loads) == Merged(old0, s, m) {
      forall p | 0 <= p < WIDTH ensures RunLoads(old0, reg, loads)[p] == Merged(old0, s, m)[p] {
        RunLoadsWriteRuns(old0, reg, loads, And(s, m), runs, p);
        assert Covered(runs, p) <==> m[p];
      }
    }
  }

  lemma AllOnes()
    ensures ToBits(0xffff_ffff, WIDTH) == Ones(WIDTH)
  {
    ParseZerosOnes(WIDTH);
    FormatInvertsParse(Ones(WIDTH));
    Pow2Of32();
  }

  lemma Pow2Of32()
    ensures Pow2(32) == 0x1_0000_0000
  {
    TimesSixteen(0);
    TimesSixteen(4);
    TimesSixteen(8);
    TimesSixteen(12);
    TimesSixteen(16);
    TimesSixteen(20);
    TimesSixteen(24);
    TimesSixteen(28);
  }

  lemma TimesSixteen(n: nat)
    ensures Pow2(n + 4) == 16 * Pow2(n)
  {
    assert Pow2(n + 4) == 2 * Pow2(n + 3) && Pow2(n + 2) == 2 * Pow2(n + 1);
  }

  lemma AllZeros()
    ensures ToBits(0, WIDTH) == Zeros(WIDTH)
  {
    ParseZerosOnes(WIDTH);
    FormatInvertsParse(Zeros(WIDTH));
  }

  lemma FullLoadUpdates(state: nat)
    ensures UpdatesState([Load(0, WIDTH, Immediate(state))], ToBits(state, WIDTH), Ones(WIDTH))
  {
  }

  lemma CopyUpdates(s: Word)
    requires |s| == WIDTH
    ensures UpdatesState([Load(0, WIDTH, Register0)], s, Zeros(WIDTH))
  {
  }
}
