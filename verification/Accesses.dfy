/** How many loads, stores and barrier actions the matrix program makes, whatever the interleaving. */
module Accesses {
  import opened Base
  import opened Arithmetic
  import opened Matrix
  import Barrier
  import BarrierTheorems
  import opened Workload
  import opened WorkloadProof

  // ---------- one client's loops ----------

  /** Accesses left before the client's next barrier. */
  function OpsLeft(k: Config, c: nat, pc: Pc): int
    requires ValidConfig(k)
  {
    match pc
    case Rest => 0
    case Fill(job, i) => (|Jobs(k.n, c)| - job) * Cells(k) - i
    case Multiply(i, j, _, _, regs) => TurnsLeft(StopIndex(c, k.n, k.size) - i, k.size, j) - |regs|
    case Check(i, _) => Cells(k) - i
  }

  lemma FillOpsDecrease(k: Config, c: nat, pc: Pc, v: int)
    requires ValidConfig(k) && pc.Fill? && Wants(k, c, pc).Some?
    ensures 0 <= OpsLeft(k, c, After(k, c, pc, v)) < OpsLeft(k, c, pc)
  {
    var jobs, e := |Jobs(k.n, c)|, Cells(k);
    MulMonotone(1, jobs - pc.job, e);
    assert (jobs - (pc.job + 1)) * e == (jobs - pc.job) * e - e;
    if pc.job + 1 < jobs {
      MulMonotone(1, jobs - (pc.job + 1), e);
    }
  }

  /** Four accesses for each term still to be added in `cells` cells, j terms of the first being there. */
  function TurnsLeft(cells: int, size: int, j: int): int {
    cells * (4 * size) - 4 * j
  }

  lemma TurnsLeftFacts(cells: int, size: int, j: int)
    requires cells >= 1 && 0 <= j < size
    ensures TurnsLeft(cells, size, j) >= 4
    ensures TurnsLeft(cells, size, j + 1) == TurnsLeft(cells, size, j) - 4
    ensures j + 1 == size ==> TurnsLeft(cells - 1, size, 0) == TurnsLeft(cells, size, j) - 4
  {
    MulMonotone(1, cells, 4 * size);
    assert (cells - 1) * (4 * size) == cells * (4 * size) - 4 * size;
  }

  lemma MultiplyOpsDecrease(k: Config, c: nat, pc: Pc, v: int)
    requires ValidConfig(k) && c < k.n && pc.Multiply? && MultiplyOk(k, c, pc)
    ensures 0 <= OpsLeft(k, c, After(k, c, pc, v)) < OpsLeft(k, c, pc)
  {
    var left := StopIndex(c, k.n, k.size) - pc.i;
    assert left >= 1 && pc.j < k.size && |pc.regs| <= 3;
    TurnsLeftFacts(left, k.size, pc.j);
    if pc.j + 1 < k.size {
      TurnsLeftFacts(left, k.size, pc.j + 1);
    } else if left > 1 {
      TurnsLeftFacts(left - 1, k.size, 0);
    }
    hide MultiplyOk, StopIndex, TurnsLeft;
  }

  lemma OpsLeftDecreases(k: Config, c: nat, ph: Barrier.Phase, pc: Pc, v: int)
    requires ValidConfig(k) && c < k.n && PcOk(k, c, ph, pc) && Wants(k, c, pc).Some?
    ensures 0 <= OpsLeft(k, c, After(k, c, pc, v)) < OpsLeft(k, c, pc)
  {
    if pc.Fill? {
      FillOpsDecrease(k, c, pc, v);
    } else if pc.Multiply? {
      MultiplyOpsDecrease(k, c, pc, v);
    }
  }

  // ---------- the whole program ----------

  /** Accesses of client c's multiplication, and of the check. */
  function MultiplyOps(k: Config, c: nat): int
    requires ValidConfig(k)
  {
    TurnsLeft(StopIndex(c, k.n, k.size) - StartIndex(c, k.n, k.size), k.size, 0)
  }

  function CheckOps(k: Config, c: nat): int {
    if c == 0 then Cells(k) else 0
  }

  /** Accesses client c still makes, by the phase it is in. */
  function OpsAhead(k: Config, c: nat, ph: Barrier.Phase, pc: Pc): int
    requires ValidConfig(k)
  {
    match ph
    case Preparing => OpsLeft(k, c, pc) + MultiplyOps(k, c) + CheckOps(k, c)
    case Ready => MultiplyOps(k, c) + CheckOps(k, c)
    case AwaitStart => MultiplyOps(k, c) + CheckOps(k, c)
    case Working => OpsLeft(k, c, pc) + CheckOps(k, c)
    case AwaitClean => CheckOps(k, c)
    case Checking => OpsLeft(k, c, pc)
    case _ => 0
  }

  function OpsTotal(k: Config, phases: seq<Barrier.Phase>, pcs: seq<Pc>): seq<int>
    requires ValidConfig(k) && |phases| == |pcs|
  {
    seq(|pcs|, c requires 0 <= c < |pcs| => OpsAhead(k, c, phases[c], pcs[c]))
  }

  lemma MultiplyOpsNonNegative(k: Config, c: nat)
    requires ValidConfig(k) && c < k.n
    ensures MultiplyOps(k, c) >= 0
    ensures OpsLeft(k, c, MultiplyFrom(k, c, StartIndex(c, k.n, k.size))) <= MultiplyOps(k, c)
  {
    SliceInRange(c, k.n, k.size);
    MulMonotone(0, StopIndex(c, k.n, k.size) - StartIndex(c, k.n, k.size), 4 * k.size);
  }

  lemma OpsLeftNonNegative(k: Config, c: nat, ph: Barrier.Phase, pc: Pc)
    requires ValidConfig(k) && c < k.n && PcOk(k, c, ph, pc)
    ensures OpsLeft(k, c, pc) >= 0
  {
    if Wants(k, c, pc).Some? {
      OpsLeftDecreases(k, c, ph, pc, 0);
    }
  }

  lemma OpsAheadNonNegative(k: Config, c: nat, ph: Barrier.Phase, pc: Pc)
    requires ValidConfig(k) && c < k.n && PcOk(k, c, ph, pc)
    ensures OpsAhead(k, c, ph, pc) >= 0
  {
    OpsLeftNonNegative(k, c, ph, pc);
    MultiplyOpsNonNegative(k, c);
  }

  /** A barrier action makes no access ahead. */
  lemma SyncAddsNoOps(k: Config, s: State, a: Barrier.Action)
    requires Inv(k, s) && Move(k, s, Sync(a)).Some?
    ensures var s', c := Move(k, s, Sync(a)).value, a.client;
            && c < k.n && s'.sync.phases == s.sync.phases[c := s'.sync.phases[c]] && s'.pcs == s.pcs[c := s'.pcs[c]]
            && OpsAhead(k, c, s'.sync.phases[c], s'.pcs[c]) <= OpsAhead(k, c, s.sync.phases[c], s.pcs[c])
  {
    var c := a.client;
    PhaseAfter(s.sync, a);
    assert PcOk(k, c, s.sync.phases[c], s.pcs[c]);
    OpsLeftNonNegative(k, c, s.sync.phases[c], s.pcs[c]);
    MultiplyOpsNonNegative(k, c);
    hide Inv, MultiplyOps, MultiplyFrom, Barrier.Next, MultiplyOk;
  }

  lemma OpSpendsOne(k: Config, s: State, c: nat)
    requires Inv(k, s) && Move(k, s, Op(c)).Some?
    ensures var s' := Move(k, s, Op(c)).value;
            && c < k.n && s'.sync == s.sync && s'.pcs == s.pcs[c := s'.pcs[c]]
            && OpsAhead(k, c, s.sync.phases[c], s'.pcs[c]) <= OpsAhead(k, c, s.sync.phases[c], s.pcs[c]) - 1
  {
    var want := Wants(k, c, s.pcs[c]).value;
    var v := match want case Get(a) => s.words[a] case Put(_, x) => x;
    assert PcOk(k, c, s.sync.phases[c], s.pcs[c]);
    OpsLeftDecreases(k, c, s.sync.phases[c], s.pcs[c], v);
    hide Inv, MultiplyOps, OpsLeft, After, MultiplyOk;
  }

  lemma MoveSpends(k: Config, s: State, st: Step)
    requires Inv(k, s) && Move(k, s, st).Some?
    ensures var s' := Move(k, s, st).value;
            && Sum(OpsTotal(k, s'.sync.phases, s'.pcs)) + (if st.Op? then 1 else 0)
               <= Sum(OpsTotal(k, s.sync.phases, s.pcs))
            && Sum(BarrierTheorems.Lives(s'.sync)) + (if st.Sync? then 1 else 0) == Sum(BarrierTheorems.Lives(s.sync))
  {
    var s' := Move(k, s, st).value;
    var c := if st.Op? then st.client else st.action.client;
    if st.Op? {
      OpSpendsOne(k, s, c);
    } else {
      SyncAddsNoOps(k, s, st.action);
      BarrierTheorems.ActionSpendsOne(s.sync, st.action);
    }
    var now := OpsAhead(k, c, s'.sync.phases[c], s'.pcs[c]);
    hide Inv, OpsAhead, Move;
    assert OpsTotal(k, s'.sync.phases, s'.pcs) == OpsTotal(k, s.sync.phases, s.pcs)[c := now];
    SumUpdate(OpsTotal(k, s.sync.phases, s.pcs), c, now);
  }

  function Ops(steps: seq<Step>): nat {
    if steps == [] then 0 else (if steps[0].Op? then 1 else 0) + Ops(steps[1..])
  }

  lemma {:induction false} ExecuteSpends(k: Config, s: State, steps: seq<Step>)
    requires Inv(k, s) && Execute(k, s, steps).Some?
    ensures Ops(steps) <= Sum(OpsTotal(k, s.sync.phases, s.pcs))
    ensures |steps| - Ops(steps) <= Sum(BarrierTheorems.Lives(s.sync))
    decreases |steps|
  {
    if steps == [] {
      forall c | 0 <= c < k.n ensures OpsAhead(k, c, s.sync.phases[c], s.pcs[c]) >= 0 {
        OpsAheadNonNegative(k, c, s.sync.phases[c], s.pcs[c]);
      }
      SumNonNegative(OpsTotal(k, s.sync.phases, s.pcs));
      SumNonNegative(BarrierTheorems.Lives(s.sync));
    } else {
      MoveSpends(k, s, steps[0]);
      MoveIsInv(k, s, steps[0]);
      ExecuteSpends(k, Move(k, s, steps[0]).value, steps[1..]);
    }
  }

  /** The accesses of the whole program: three fills, four for each term of the products, and the check. */
  function AllAccesses(size: nat): nat {
    4 * (size * size) + 4 * size * (size * size)
  }

  /** Fills of the first m clients. */
  function JobsTo(n: nat, m: nat): nat {
    if n >= 3 then (if m < 3 then m else 3) else if m == 0 then 0 else 3
  }

  lemma FillOps(k: Config, c: nat)
    requires ValidConfig(k)
    ensures OpsLeft(k, c, FillFrom(k, c, 0, 0)) == |Jobs(k.n, c)| * Cells(k)
  {
    hide Jobs;
    if Cells(k) == 0 || |Jobs(k.n, c)| == 0 {
      assert |Jobs(k.n, c)| * Cells(k) == 0;
    }
  }

  lemma StartOpsOf(k: Config, c: nat, words: seq<int>)
    requires ValidConfig(k) && c < k.n
    ensures var s := Begin(k, words);
            OpsAhead(k, c, s.sync.phases[c], s.pcs[c]) == |Jobs(k.n, c)| * Cells(k) + MultiplyOps(k, c) + CheckOps(k, c)
    ensures JobsTo(k.n, c + 1) == JobsTo(k.n, c) + |Jobs(k.n, c)|
  {
    FillOps(k, c);
    var s := Begin(k, words);
    assert s.sync.phases[c] == (if Barrier.Initialiser(k.n, c) then Barrier.Preparing else Barrier.Ready);
    assert !Barrier.Initialiser(k.n, c) ==> Jobs(k.n, c) == [];
    hide OpsLeft, MultiplyOps, FillFrom, Cells;
  }

  lemma {:induction false} StartOpsTo(k: Config, words: seq<int>, m: nat)
    requires ValidConfig(k) && m <= k.n
    ensures var s := Begin(k, words);
            Sum(OpsTotal(k, s.sync.phases, s.pcs)[..m])
            == JobsTo(k.n, m) * Cells(k) + StartIndex(m, k.n, k.size) * (4 * k.size) + if m > 0 then Cells(k) else 0
  {
    var s := Begin(k, words);
    var total := OpsTotal(k, s.sync.phases, s.pcs);
    if m == 0 {
      SliceEnds(k.n, k.size);
    } else {
      var c := m - 1;
      StartOpsTo(k, words, c);
      StartOpsOf(k, c, words);
      assert total[..m] == total[..c] + [total[c]];
      BarrierTheorems.SumSplit(total[..c], [total[c]]);
      assert [total[c]][1..] == [];
      StartOpsAdd(JobsTo(k.n, c), |Jobs(k.n, c)|, Cells(k), StartIndex(c, k.n, k.size), StopIndex(c, k.n, k.size),
                  k.size);
    }
  }

  lemma StartOpsAdd(jobs: int, more: int, e: int, start: int, stop: int, size: int)
    ensures (jobs + more) * e == jobs * e + more * e
    ensures start * (4 * size) + TurnsLeft(stop - start, size, 0) == stop * (4 * size)
  {
    assert (stop - start) * (4 * size) == stop * (4 * size) - start * (4 * size);
  }

  lemma StartOps(k: Config, words: seq<int>)
    requires ValidConfig(k)
    ensures var s := Begin(k, words);
            Sum(OpsTotal(k, s.sync.phases, s.pcs)) == AllAccesses(k.size)
  {
    var s := Begin(k, words);
    var total := OpsTotal(k, s.sync.phases, s.pcs);
    StartOpsTo(k, words, k.n);
    assert total[..k.n] == total;
    SliceEnds(k.n, k.size);
    assert Cells(k) * (4 * k.size) == 4 * k.size * Cells(k);
  }

  /** Every run of the program on flat memory makes at most so many accesses and barrier actions. */
  lemma ProgramIsBounded(k: Config, words: seq<int>, steps: seq<Step>)
    requires ValidConfig(k) && |words| >= 3 * Cells(k) && Execute(k, Begin(k, words), steps).Some?
    ensures Ops(steps) <= AllAccesses(k.size)
    ensures |steps| - Ops(steps) <= BarrierTheorems.ProgramLength(k.n)
  {
    BeginIsInv(k, words);
    ExecuteSpends(k, Begin(k, words), steps);
    StartOps(k, words);
    BarrierTheorems.StartLives(k.n);
  }
}
