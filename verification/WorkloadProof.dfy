/** Every step of the matrix program keeps its invariant, and what follows for its result. */
module WorkloadProof {
  import opened Base
  import opened SyncService
  import opened Barrier
  import opened BarrierProof
  import opened BarrierTheorems
  import opened Matrix
  import opened Workload

  /** After the start barrier every matrix is completely filled. */
  lemma AllFilled(k: Config, s: State, c: nat)
    requires Inv(k, s) && c < k.n && Released(s.sync, c)
    ensures forall r :: Filled(k, s, r) == Cells(k)
  {
    forall r ensures Filled(k, s, r) == Cells(k) {
      var f := Filler(k.n, r);
      OneJobPerArea(k.n, r, 0, 0);
      assert Linked(s.sync, c);
      AllAnnounced(s.sync, f);
      assert PcOk(k, f, s.sync.phases[f], s.pcs[f]);
    }
  }

  /** While somebody is still filling, nobody multiplies. */
  lemma NobodyReleased(k: Config, s: State, c: nat, c': nat)
    requires Inv(k, s) && c < k.n && s.sync.phases[c].Preparing? && c' < k.n
    ensures !Released(s.sync, c')
    ensures forall i :: Depth(k, s, c', i) == 0
  {
    assert Linked(s.sync, c') && ClientOk(s.sync, c);
    if Released(s.sync, c') {
      AllAnnounced(s.sync, c);
    }
  }

  /** Neither memory nor progress changes. */
  ghost predicate SameProgress(k: Config, s: State, s': State)
    requires WFP(k, s) && WFP(k, s')
  {
    && s'.words == s.words
    && (forall r :: Filled(k, s', r) == Filled(k, s, r))
    && (forall c, i: nat :: 0 <= c < k.n && InSlice(i, c, k.n, k.size) ==> Depth(k, s', c, i) == Depth(k, s, c, i))
  }

  lemma ProgressKept(k: Config, s: State, s': State)
    requires Inv(k, s) && WFP(k, s') && SameProgress(k, s, s') && Good(s'.sync)
    requires forall c :: 0 <= c < k.n ==> PcOk(k, c, s'.sync.phases[c], s'.pcs[c])
    ensures Inv(k, s')
  {
    forall c | 0 <= c < k.n ensures ResultOk(k, s', c) {
      assert ResultOk(k, s, c);
    }
  }

  // ---------- filling ----------

  ghost predicate Filling(k: Config, s: State, c: nat) {
    Inv(k, s) && c < k.n && s.pcs[c].Fill? && Move(k, s, Op(c)).Some?
  }

  lemma FillAdvances(k: Config, s: State, c: nat, r: Area)
    requires Filling(k, s, c)
    ensures s.sync.phases[c].Preparing?
    ensures var pc, s' := s.pcs[c], Move(k, s, Op(c)).value;
            && pc.job < |Jobs(k.n, c)| && pc.i < Cells(k)
            && PcOk(k, c, s'.sync.phases[c], s'.pcs[c])
            && (Jobs(k.n, c)[pc.job] == r ==> Filled(k, s, r) == pc.i)
            && Filled(k, s', r) == Filled(k, s, r) + if Jobs(k.n, c)[pc.job] == r then 1 else 0
  {
    var pc := s.pcs[c];
    assert PcOk(k, c, s.sync.phases[c], pc);
    OneJobPerArea(k.n, r, c, pc.job);
    OneJobPerArea(k.n, r, Filler(k.n, r), JobOf(k.n, r));
  }

  lemma FillKeepsFactor(k: Config, s: State, c: nat, r: Area)
    requires Filling(k, s, c) && r != M
    ensures FactorOk(k, Move(k, s, Op(c)).value, r)
  {
    var pc, s' := s.pcs[c], Move(k, s, Op(c)).value;
    FillAdvances(k, s, c, r);
    var r0 := Jobs(k.n, c)[pc.job];
    forall i | 0 <= i < Cells(k) && i < Filled(k, s', r)
      ensures Place(k, r, i) < |s'.words| && s'.words[Place(k, r, i)] == Contents(k, r)[i]
    {
      PlaceInRange(k, r, i);
      PlacesApart(k, r, i, r0, pc.i);
      if r != r0 || i != pc.i {
        assert FactorOk(k, s, r);
      }
    }
  }

  lemma FillKeepsResult(k: Config, s: State, c: nat, c': nat)
    requires Filling(k, s, c) && c' < k.n
    ensures ResultOk(k, Move(k, s, Op(c)).value, c')
  {
    var pc, s' := s.pcs[c], Move(k, s, Op(c)).value;
    FillAdvances(k, s, c, M);
    NobodyReleased(k, s, c, c');
    var r0 := Jobs(k.n, c)[pc.job];
    forall i: nat | InSlice(i, c', k.n, k.size) && i < Cells(k) && i < Filled(k, s', M)
      ensures Depth(k, s', c', i) == 0
      ensures Place(k, M, i) < |s'.words| && s'.words[Place(k, M, i)] == Partial(k, i, 0)
    {
      PlaceInRange(k, M, i);
      NoTerms(k.x0, k.y0, k.size, i);
      assert Depth(k, s, c', i) == 0;
      PlacesApart(k, M, i, r0, pc.i);
      if M != r0 || i != pc.i {
        assert ResultOk(k, s, c');
      }
    }
  }

  lemma FillIsInv(k: Config, s: State, c: nat)
    requires Filling(k, s, c)
    ensures Inv(k, Move(k, s, Op(c)).value)
  {
    hide FactorOk, ResultOk, PcOk, Good, Depth, Filled;
    var s' := Move(k, s, Op(c)).value;
    FillAdvances(k, s, c, M);
    FillKeepsFactor(k, s, c, X);
    FillKeepsFactor(k, s, c, Y);
    forall c' | 0 <= c' < k.n ensures ResultOk(k, s', c') && PcOk(k, c', s'.sync.phases[c'], s'.pcs[c']) {
      FillKeepsResult(k, s, c, c');
    }
  }

  // ---------- multiplying ----------

  ghost predicate Multiplying(k: Config, s: State, c: nat) {
    Inv(k, s) && c < k.n && s.pcs[c].Multiply?
  }

  lemma MultiplyFacts(k: Config, s: State, c: nat)
    requires Multiplying(k, s, c)
    ensures s.sync.phases[c].Working? && MultiplyOk(k, c, s.pcs[c])
    ensures forall r :: Filled(k, s, r) == Cells(k)
    ensures var pc := s.pcs[c];
            && Place(k, M, pc.i) < |s.words| && Place(k, X, pc.pos1) < |s.words| && Place(k, Y, pc.pos2) < |s.words|
            && s.words[Place(k, M, pc.i)] == Partial(k, pc.i, pc.j)
            && s.words[Place(k, X, pc.pos1)] == k.x0[pc.pos1]
            && s.words[Place(k, Y, pc.pos2)] == k.y0[pc.pos2]
  {
    var pc := s.pcs[c];
    assert PcOk(k, c, s.sync.phases[c], pc);
    AllFilled(k, s, c);
    PlaceInRange(k, M, pc.i);
    PlaceInRange(k, X, pc.pos1);
    PlaceInRange(k, Y, pc.pos2);
    assert ResultOk(k, s, c) && FactorOk(k, s, X) && FactorOk(k, s, Y);
    assert Depth(k, s, c, pc.i) == pc.j;
  }

  lemma LoadIsInv(k: Config, s: State, c: nat)
    requires Multiplying(k, s, c) && |s.pcs[c].regs| < 3
    ensures Move(k, s, Op(c)).Some? && Inv(k, Move(k, s, Op(c)).value)
  {
    MultiplyFacts(k, s, c);
    var s', pc := Move(k, s, Op(c)).value, s.pcs[c];
    assert MultiplyOk(k, c, s'.pcs[c]);
    LoadKeepsProgress(k, s, c);
    forall c' | 0 <= c' < k.n ensures PcOk(k, c', s'.sync.phases[c'], s'.pcs[c']) {
      assert PcOk(k, c', s.sync.phases[c'], s.pcs[c']);
    }
    hide FactorOk, ResultOk, PcOk, Good, Depth, Filled;
    ProgressKept(k, s, s');
  }

  lemma LoadKeepsProgress(k: Config, s: State, c: nat)
    requires Multiplying(k, s, c) && |s.pcs[c].regs| < 3 && Move(k, s, Op(c)).Some?
    ensures SameProgress(k, s, Move(k, s, Op(c)).value)
  {
  }

  lemma StoreMovesOn(k: Config, c: nat, pc: Pc, v: int)
    requires ValidConfig(k) && c < k.n && pc.Multiply? && MultiplyOk(k, c, pc) && |pc.regs| == 3
    ensures PcOk(k, c, Working, After(k, c, pc, v))
  {
    if pc.j + 1 < k.size {
      NextTerm(k.x0, k.y0, k.size, pc.i, pc.j + 1);
    } else if pc.i + 1 < StopIndex(c, k.n, k.size) {
      SliceInRange(c, k.n, k.size);
      NextTerm(k.x0, k.y0, k.size, pc.i + 1, 0);
    }
  }

  /** The value stored is the cell's with one term more. */
  lemma StoreValue(k: Config, c: nat, pc: Pc)
    requires ValidConfig(k) && c < k.n && pc.Multiply? && MultiplyOk(k, c, pc) && |pc.regs| == 3
    ensures pc.i < Cells(k) && pc.j < k.size
    ensures pc.regs[0] + pc.regs[1] * pc.regs[2] == Partial(k, pc.i, pc.j + 1)
  {
    NextTerm(k.x0, k.y0, k.size, pc.i, pc.j);
  }

  /** A client that does not fill has no part in how far the filling is. */
  lemma FilledElsewhere(k: Config, s: State, c: nat, words: seq<int>, pc': Pc, r: Area)
    requires WFP(k, s) && c < k.n && !s.pcs[c].Fill? && !pc'.Fill?
    ensures Filled(k, s.(words := words, pcs := s.pcs[c := pc']), r) == Filled(k, s, r)
  {
  }

  lemma StoreWrites(k: Config, s: State, c: nat)
    requires Multiplying(k, s, c) && |s.pcs[c].regs| == 3
    ensures var pc := s.pcs[c];
            && MultiplyOk(k, c, pc) && Place(k, M, pc.i) < |s.words|
            && Move(k, s, Op(c)) == Some(s.(words := s.words[Place(k, M, pc.i) := Partial(k, pc.i, pc.j + 1)],
                                            pcs := s.pcs[c := After(k, c, pc, Partial(k, pc.i, pc.j + 1))]))
  {
    MultiplyFacts(k, s, c);
    StoreValue(k, c, s.pcs[c]);
    hide Partial, FactorOk, ResultOk, Good, After, PcOk, MultiplyOk;
  }

  lemma StoreAdvances(k: Config, s: State, c: nat)
    requires Multiplying(k, s, c) && |s.pcs[c].regs| == 3
    ensures Move(k, s, Op(c)).Some?
    ensures var s', pc := Move(k, s, Op(c)).value, s.pcs[c];
            && pc.i < Cells(k) && pc.j < k.size && s.sync.phases[c].Working?
            && s'.words == s.words[Place(k, M, pc.i) := Partial(k, pc.i, pc.j + 1)]
            && s'.sync == s.sync && s'.pcs == s.pcs[c := s'.pcs[c]]
            && PcOk(k, c, Working, s'.pcs[c])
            && Place(k, M, pc.i) < |s.words|
            && (forall r :: Filled(k, s', r) == Cells(k) == Filled(k, s, r))
  {
    MultiplyFacts(k, s, c);
    StoreWrites(k, s, c);
    StoreValue(k, c, s.pcs[c]);
    hide DotAt, FactorOk, ResultOk, Good, Partial, Move, MultiplyOk, Filled, After;
    var pc, s' := s.pcs[c], Move(k, s, Op(c)).value;
    StoreMovesOn(k, c, pc, Partial(k, pc.i, pc.j + 1));
    forall r ensures Filled(k, s', r) == Cells(k) == Filled(k, s, r) {
      FilledElsewhere(k, s, c, s'.words, s'.pcs[c], r);
    }
  }

  /** Only the client's own cell gains a term. */
  lemma StoreDeepens(k: Config, s: State, c: nat, c': nat, i: nat)
    requires Multiplying(k, s, c) && |s.pcs[c].regs| == 3 && Move(k, s, Op(c)).Some?
    requires c' < k.n && InSlice(i, c', k.n, k.size)
    ensures var s', pc := Move(k, s, Op(c)).value, s.pcs[c];
            Depth(k, s', c', i) == if i == pc.i then pc.j + 1 else Depth(k, s, c', i)
    ensures i == s.pcs[c].i ==> c' == c
  {
    StoreAdvances(k, s, c);
    assert PcOk(k, c, s.sync.phases[c], s.pcs[c]);
    if i == s.pcs[c].i {
      SlicesAreDisjoint(i, c, c', k.n, k.size);
    }
  }

  lemma StoreKeepsResult(k: Config, s: State, c: nat, c': nat)
    requires Multiplying(k, s, c) && |s.pcs[c].regs| == 3 && Move(k, s, Op(c)).Some? && c' < k.n
    ensures ResultOk(k, Move(k, s, Op(c)).value, c')
  {
    var s', pc := Move(k, s, Op(c)).value, s.pcs[c];
    StoreAdvances(k, s, c);
    assert ResultOk(k, s, c');
    hide Depth, Filled, Partial, PcOk, FactorOk, Move;
    forall i: nat | InSlice(i, c', k.n, k.size) && i < Cells(k) && i < Filled(k, s', M)
      ensures Depth(k, s', c', i) <= k.size && Place(k, M, i) < |s'.words|
      ensures s'.words[Place(k, M, i)] == Partial(k, i, Depth(k, s', c', i))
    {
      StoreDeepens(k, s, c, c', i);
      PlacesApart(k, M, i, M, pc.i);
    }
  }

  lemma StoreKeepsFactor(k: Config, s: State, c: nat, r: Area)
    requires Multiplying(k, s, c) && |s.pcs[c].regs| == 3 && Move(k, s, Op(c)).Some? && r != M
    ensures FactorOk(k, Move(k, s, Op(c)).value, r)
  {
    var s', pc := Move(k, s, Op(c)).value, s.pcs[c];
    StoreAdvances(k, s, c);
    assert FactorOk(k, s, r);
    forall i | 0 <= i < Cells(k) && i < Filled(k, s', r)
      ensures Place(k, r, i) < |s'.words| && s'.words[Place(k, r, i)] == Contents(k, r)[i]
    {
      PlacesApart(k, r, i, M, pc.i);
    }
  }

  lemma StoreIsInv(k: Config, s: State, c: nat)
    requires Multiplying(k, s, c) && |s.pcs[c].regs| == 3
    ensures Move(k, s, Op(c)).Some? && Inv(k, Move(k, s, Op(c)).value)
  {
    hide FactorOk, ResultOk, PcOk, Good, Depth, Filled, Move, Partial;
    StoreAdvances(k, s, c);
    var s' := Move(k, s, Op(c)).value;
    StoreKeepsFactor(k, s, c, X);
    StoreKeepsFactor(k, s, c, Y);
    forall c' | 0 <= c' < k.n ensures ResultOk(k, s', c') && PcOk(k, c', s'.sync.phases[c'], s'.pcs[c']) {
      StoreKeepsResult(k, s, c, c');
      assert PcOk(k, c', s.sync.phases[c'], s.pcs[c']);
    }
  }

  // ---------- checking ----------

  /** Once client 0's CLEAN_UP is answered the whole result is there. */
  lemma ResultIsComplete(k: Config, s: State, i: nat)
    requires Inv(k, s) && Cleaned(s.sync) && i < Cells(k)
    ensures Place(k, M, i) < |s.words| && s.words[Place(k, M, i)] == Final(k, i)
  {
    assert ClientOk(s.sync, 0);
    AllFilled(k, s, 0);
    var c := SlicesPartition(i, k.n, k.size);
    assert Linked(s.sync, c) && ClientOk(s.sync, c);
    assert Depth(k, s, c, i) == k.size;
    assert ResultOk(k, s, c);
  }

  lemma CheckIsInv(k: Config, s: State, c: nat)
    requires Inv(k, s) && c < k.n && s.pcs[c].Check? && Move(k, s, Op(c)).Some?
    ensures Inv(k, Move(k, s, Op(c)).value)
  {
    var s', pc := Move(k, s, Op(c)).value, s.pcs[c];
    assert PcOk(k, c, s.sync.phases[c], pc) && ClientOk(s.sync, c);
    ResultIsComplete(k, s, pc.i);
    forall c' | 0 <= c' < k.n ensures PcOk(k, c', s'.sync.phases[c'], s'.pcs[c']) {
      assert PcOk(k, c', s.sync.phases[c'], s.pcs[c']);
    }
    hide FactorOk, ResultOk, PcOk, Good;
    ProgressKept(k, s, s');
  }

  // ---------- barriers ----------

  lemma SyncIsInv(k: Config, s: State, a: Action)
    requires Inv(k, s) && Move(k, s, Sync(a)).Some?
    ensures Inv(k, Move(k, s, Sync(a)).value)
  {
    var s' := Move(k, s, Sync(a)).value;
    NextIsGood(s.sync, a);
    forall c | 0 <= c < k.n ensures PcOk(k, c, s'.sync.phases[c], s'.pcs[c]) {
      SyncKeepsPc(k, s, a, c);
    }
    SyncKeepsProgress(k, s, a);
    hide FactorOk, ResultOk, PcOk, Good, Move;
    ProgressKept(k, s, s');
  }

  /** How a barrier action takes its client from phase to phase. */
  predicate PhaseMoves(c: nat, a: Action, ph: Phase, ph': Phase) {
    match a
    case Announce(_) => ph.Preparing? && ph'.Ready?
    case Await(_) => ph.Ready? && ph'.AwaitStart?
    case AskClean(_) => c == 0 && ph.Working? && ph'.AwaitClean?
    case Finish(_) => (if c == 0 then ph.Checking? else ph.Working?) && ph'.AwaitDone?
    case Deliver(_) => ph' == ph
    case Wake(_) =>
      || (ph.AwaitStart? && ph'.Working?)
      || (c == 0 && ph.AwaitClean? && ph'.Checking?)
      || (ph.AwaitDone? && ph'.Finished?)
  }

  lemma PhaseAfter(s: Sys, a: Action)
    requires Good(s) && Barrier.Next(s, a).Some?
    ensures var s', c := Barrier.Next(s, a).value, a.client;
            && c < |s.phases| && s'.phases == s.phases[c := s'.phases[c]]
            && PhaseMoves(c, a, s.phases[c], s'.phases[c])
  {
    hide For, Serve, History, Linked, ServiceOk;
    assert ClientOk(s, a.client);
  }

  lemma SyncKeepsPc(k: Config, s: State, a: Action, c: nat)
    requires Inv(k, s) && Move(k, s, Sync(a)).Some? && c < k.n
    ensures PcOk(k, c, Move(k, s, Sync(a)).value.sync.phases[c], Move(k, s, Sync(a)).value.pcs[c])
  {
    hide FactorOk, ResultOk;
    PhaseAfter(s.sync, a);
    assert PcOk(k, c, s.sync.phases[c], s.pcs[c]);
    hide Good, Inv, Barrier.Next;
    if a.client == c && a.Wake? && s.sync.phases[c].AwaitStart? {
      EnterIsOk(k, c);
    }
  }

  lemma EnterIsOk(k: Config, c: nat)
    requires ValidConfig(k) && c < k.n
    ensures PcOk(k, c, Working, MultiplyFrom(k, c, StartIndex(c, k.n, k.size)))
  {
    var i := StartIndex(c, k.n, k.size);
    SliceInRange(c, k.n, k.size);
    if i < StopIndex(c, k.n, k.size) {
      NextTerm(k.x0, k.y0, k.size, i, 0);
    }
  }

  lemma SyncKeepsProgress(k: Config, s: State, a: Action)
    requires Inv(k, s) && Move(k, s, Sync(a)).Some?
    ensures SameProgress(k, s, Move(k, s, Sync(a)).value)
  {
    hide FactorOk, ResultOk;
    var s', c := Move(k, s, Sync(a)).value, a.client;
    PhaseAfter(s.sync, a);
    assert PcOk(k, c, s.sync.phases[c], s.pcs[c]);
    hide Good, Inv, Barrier.Next;
  }

  // ---------- runs ----------

  lemma MoveIsInv(k: Config, s: State, st: Step)
    requires Inv(k, s) && Move(k, s, st).Some?
    ensures Inv(k, Move(k, s, st).value)
  {
    if st.Sync? {
      SyncIsInv(k, s, st.action);
    } else {
      var pc := s.pcs[st.client];
      if pc.Fill? {
        FillIsInv(k, s, st.client);
      } else if pc.Check? {
        CheckIsInv(k, s, st.client);
      } else {
        MultiplyFacts(k, s, st.client);
        if |pc.regs| < 3 {
          LoadIsInv(k, s, st.client);
        } else {
          StoreIsInv(k, s, st.client);
        }
      }
    }
  }

  lemma {:induction false} ExecuteIsInv(k: Config, s: State, steps: seq<Step>)
    requires Inv(k, s) && Execute(k, s, steps).Some?
    ensures Inv(k, Execute(k, s, steps).value)
    decreases |steps|
  {
    if steps == [] {
    } else {
      MoveIsInv(k, s, steps[0]);
      ExecuteIsInv(k, Move(k, s, steps[0]).value, steps[1..]);
    }
  }

  /**
   The parallel multiplication on flat memory: for all contents the matrices are
   filled with, all n and sizes, and every interleaving, when client 0's
   CLEAN_UP is answered each result cell is its initial value plus the product
   of its row and its column, and client 0's check succeeds exactly when that
   result is the sequence 0, 1, 2, ...
   */
  lemma ParallelMultiply(k: Config, words: seq<int>, steps: seq<Step>, s: State)
    requires ValidConfig(k) && |words| >= 3 * Cells(k)
    requires Execute(k, Begin(k, words), steps) == Some(s)
    ensures WFP(k, s) && |s.words| == |words|
    ensures Cleaned(s.sync) ==> forall i :: 0 <= i < Cells(k) ==>
              Place(k, M, i) < |s.words| && s.words[Place(k, M, i)] == k.m0[i] + DotAt(k.x0, k.y0, k.size, i, k.size)
    ensures s.sync.phases[0].AwaitDone? || s.sync.phases[0].Finished? ==>
              && s.pcs[0].Check?
              && (s.pcs[0].worked <==>
                  forall i :: 0 <= i < Cells(k) ==> k.m0[i] + DotAt(k.x0, k.y0, k.size, i, k.size) == i)
  {
    BeginIsInv(k, words);
    ExecuteIsInv(k, Begin(k, words), steps);
    assert PcOk(k, 0, s.sync.phases[0], s.pcs[0]);
    if Cleaned(s.sync) {
      forall i | 0 <= i < Cells(k) ensures Place(k, M, i) < |s.words| && s.words[Place(k, M, i)] == Final(k, i) {
        ResultIsComplete(k, s, i);
      }
    }
    assert forall i :: 0 <= i < Cells(k) ==> Final(k, i) == k.m0[i] + DotAt(k.x0, k.y0, k.size, i, k.size);
  }

  /** The matrices the program itself fills in: sequential numbers, the identity, zeros. */
  function Vmatrix(n: nat, size: nat): Config {
    Config(n, size, Zero(size), Matrix.Easy(size), Identity(size))
  }

  lemma VmatrixResult(n: nat, size: nat, i: nat)
    requires n > 0 && i < size * size
    ensures ValidConfig(Vmatrix(n, size)) && Final(Vmatrix(n, size), i) == i
  {
    IdentityIsNeutral(Matrix.Easy(size), size, i);
  }
}
