/**
 From wherever a run of the matrix program has got to, it can still be brought
 to its end, if there are too few clients for the responder pools to be stuck.
 */
module Completion {
  import opened Base
  import opened FlatMemory
  import opened ServerlessPage
  import opened ServerlessSafety
  import Cluster = ServerlessCluster
  import opened ServerlessSchedule
  import opened Responders
  import opened Quiescence
  import opened ServerlessTraces
  import opened Layout
  import Barrier
  import BarrierTheorems
  import opened Workload
  import opened WorkloadProof
  import opened Accesses
  import opened SharedProgram
  import EndToEnd

  // ---------- runs of worlds ----------

  /** Some run of the program leads from d to d'. */
  ghost predicate CanReach(u: Setup, d: World, d': World) {
    exists steps :: WFW(u, d) && SharedProgram.Run(u, d, steps) == Some(d')
  }

  lemma {:induction false} WorldRunAppend(u: Setup, d: World, t: seq<SharedProgram.Step>, r: seq<SharedProgram.Step>)
    requires WFW(u, d)
    ensures SharedProgram.Run(u, d, t + r) ==
            match SharedProgram.Run(u, d, t) case None => None case Some(d') => SharedProgram.Run(u, d', r)
    decreases |t|
  {
    if t == [] {
      assert t + r == r;
    } else {
      assert (t + r)[0] == t[0] && (t + r)[1..] == t[1..] + r;
      var next := SharedProgram.Next(u, d, t[0]);
      if next.Some? {
        WorldRunAppend(u, next.value, t[1..], r);
      }
    }
  }

  lemma Through(u: Setup, d: World, d': World, d'': World)
    requires CanReach(u, d, d') && CanReach(u, d', d'')
    ensures CanReach(u, d, d'')
  {
    var t :| SharedProgram.Run(u, d, t) == Some(d');
    var r :| SharedProgram.Run(u, d', r) == Some(d'');
    WorldRunAppend(u, d, t, r);
  }

  lemma SingleStep(u: Setup, d: World, st: SharedProgram.Step, d': World)
    requires WFW(u, d) && SharedProgram.Next(u, d, st) == Some(d')
    ensures SharedProgram.Run(u, d, [st]) == Some(d')
  {
    assert [st][0] == st && [st][1..] == [];
  }

  lemma NothingReaches(u: Setup, d: World)
    requires WFW(u, d)
    ensures CanReach(u, d, d)
  {
    assert SharedProgram.Run(u, d, []) == Some(d);
  }

  /** The memory's own steps are steps of the world. */
  lemma {:induction false} SystemStepsReach(u: Setup, d: World, steps: seq<Cluster.Step>)
    requires WFW(u, d) && AllSystem(steps) && Cluster.Run(ORDERLY, d.cluster, steps).Some?
    ensures CanReach(u, d, d.(cluster := Cluster.Run(ORDERLY, d.cluster, steps).value))
    decreases |steps|
  {
    if steps == [] {
      NothingReaches(u, d);
    } else {
      var s := Cluster.Perform(ORDERLY, d.cluster, steps[0]).value;
      var d1 := d.(cluster := s);
      assert SharedProgram.Next(u, d, Protocol(steps[0])) == Some(d1);
      SingleStep(u, d, Protocol(steps[0]), d1);
      SystemStepsReach(u, d1, steps[1..]);
      Through(u, d, d1, d.(cluster := Cluster.Run(ORDERLY, d.cluster, steps).value));
    }
  }

  // ---------- letting the memory come to rest ----------

  /** The memory's own steps, for as long as there are any. */
  lemma {:induction false} Settled(s: Cluster.Cluster, mem: Memory) returns (steps: seq<Cluster.Step>)
    requires Orderly(s, mem)
    ensures AllSystem(steps) && Cluster.Run(ORDERLY, s, steps).Some?
    ensures Orderly(Cluster.Run(ORDERLY, s, steps).value, mem) && !CanMove(Cluster.Run(ORDERLY, s, steps).value)
    decreases Work(s)
  {
    WorkNonNegative(s, mem);
    if !CanMove(s) {
      return [];
    }
    var st :| SystemStep(st) && Cluster.Perform(ORDERLY, s, st).Some?;
    SystemStepWorks(s, mem, st);
    PerformKeepsOrderly(s, mem, st);
    assert Cluster.EventOf(st) == [];
    var rest := Settled(Cluster.Perform(ORDERLY, s, st).value, mem);
    steps := [st] + rest;
    assert steps[0] == st && steps[1..] == rest;
  }

  /** With no fault outstanding nothing at all is going on. */
  lemma NoFaultsIsCalm(s: Cluster.Cluster, mem: Memory)
    requires Orderly(s, mem) && NoFaults(s)
    ensures s == Staged(|s.ports|, s.pages, None) && Calm(|s.ports|, s.pages, mem)
  {
    forall p | 0 <= p < |s.pages| ensures s.pages[p].tx.Idle? && AllQuiet(s.pages[p]) {
      assert Coherent(s.pages[p], mem[p]);
      forall c | 0 <= c < |s.ports| ensures s.pages[p].locals[c].request.Quiet? {
        assert !Outstanding(s, c, p);
      }
    }
    forall m ensures Home(s, m).None? {
    }
    forall x | 0 <= x < |s.ports| ensures s.ports[x] == [] && s.pools[x] == {} {
      forall m ensures m !in s.pools[x] && !Posted(s, x, m) {
        assert Home(s, m).None?;
        assert !Posted(s, x, m);
      }
      if s.ports[x] != [] {
        assert Posted(s, x, s.ports[x][0]);
      }
    }
  }

  // ---------- calm worlds ----------

  /** A world whose memory is at rest, at a point of a run of the program. */
  ghost predicate AtRest(u: Setup, d: World, mem: Memory, s: State) {
    && Tracks(u, d, mem, s) && Inv(u.config, s)
    && d.cluster == Staged(u.config.n, d.cluster.pages, None) && Calm(u.config.n, d.cluster.pages, mem)
  }

  /** Wherever the program goes from a world on a run, it is on a run. */
  lemma Continue(u: Setup, d: World, mem: Memory, s: State, d': World) returns (mem': Memory, s': State)
    requires Tracks(u, d, mem, s) && Inv(u.config, s) && CanReach(u, d, d')
    ensures Tracks(u, d', mem', s') && Inv(u.config, s')
  {
    var steps :| SharedProgram.Run(u, d, steps) == Some(d');
    mem', s' := RunErases(u, d, mem, s, steps);
    ExecuteIsInv(u.config, s, Erase(steps));
  }

  /** As Continue, when the memory has come to rest again. */
  lemma ContinueAtRest(u: Setup, d: World, mem: Memory, s: State, d': World, calm: Memory)
    returns (mem': Memory, s': State)
    requires Tracks(u, d, mem, s) && Inv(u.config, s) && CanReach(u, d, d')
    requires d'.cluster == Staged(u.config.n, d'.cluster.pages, None) && Calm(u.config.n, d'.cluster.pages, calm)
    ensures AtRest(u, d', mem', s')
  {
    mem', s' := Continue(u, d, mem, s, d');
  }

  lemma {:induction false} NoMoreFaults(steps: seq<Cluster.Step>)
    requires FaultsRaised(steps) == 0 && Cluster.Trace(steps) == []
    ensures AllSystem(steps)
  {
    if steps == [] {
    } else {
      NoMoreFaults(steps[1..]);
    }
  }

  /** The event of a client's next access. */
  function EventFor(u: Setup, c: nat, want: Want, v: int): Event
    requires u.words > 0
  {
    match want
    case Get(a) => LoadEvent(c, PageOf(a, u.words), OffsetOf(a, u.words), v)
    case Put(a, x) => StoreEvent(c, PageOf(a, u.words), OffsetOf(a, u.words), x)
  }

  /** Every access of the program falls in the region. */
  lemma WantInRange(k: Config, s: State, c: nat, want: Want)
    requires Inv(k, s) && c < k.n && Wants(k, c, s.pcs[c]) == Some(want)
    ensures want.addr < |s.words|
  {
    var pc := s.pcs[c];
    assert PcOk(k, c, s.sync.phases[c], pc);
    match pc
    case Fill(job, i) => PlaceInRange(k, Jobs(k.n, c)[job], i);
    case Multiply(i, j, pos1, pos2, regs) =>
      PlaceInRange(k, M, i);
      PlaceInRange(k, X, pos1);
      PlaceInRange(k, Y, pos2);
    case Check(i, _) => PlaceInRange(k, M, i);
  }

  /** The value the next access is to load, and the access as an event of the memory. */
  lemma NextEvent(u: Setup, d: World, mem: Memory, s: State, c: nat) returns (v: int)
    requires AtRest(u, d, mem, s) && c < u.config.n && WantOf(u, d, c).Some?
    ensures Access(mem, EventFor(u, c, WantOf(u, d, c).value, v)).Some?
  {
    var want := WantOf(u, d, c).value;
    WantInRange(u.config, s, c, want);
    WordOf(mem, u.words, want.addr);
    v := mem[PageOf(want.addr, u.words)][OffsetOf(want.addr, u.words)];
  }

  /** A client at rest gets the access its next step needs. */
  lemma AccessObtained(u: Setup, d: World, mem: Memory, s: State, c: nat, e: Event) returns (d': World)
    requires AtRest(u, d, mem, s) && c < u.config.n && WantOf(u, d, c).Some?
    requires exists v :: e == EventFor(u, c, WantOf(u, d, c).value, v)
    requires Access(mem, e).Some?
    ensures CanReach(u, d, d') && d'.sync == d.sync && d'.pcs == d.pcs
    ensures WFW(u, d') && d'.cluster == Staged(u.config.n, d'.cluster.pages, None)
    ensures Calm(u.config.n, d'.cluster.pages, mem) && Permits(d'.cluster.pages[e.page].locals[c], e)
  {
    var n, pages, want := u.config.n, d.cluster.pages, WantOf(u, d, c).value;
    if Permits(pages[e.page].locals[c], e) {
      NothingReaches(u, d);
      return d;
    }
    var t, pages' := ObtainAccess(n, pages, mem, e);
    assert t == [t[0]] + t[1..];
    assert t[0] == FaultOf(u, c, want);
    NoMoreFaults(t[1..]);
    var d1 := d.(cluster := Cluster.Perform(ORDERLY, d.cluster, t[0]).value);
    assert SharedProgram.Next(u, d, Protocol(t[0])) == Some(d1);
    SingleStep(u, d, Protocol(t[0]), d1);
    d' := d.(cluster := Staged(n, pages', None));
    SystemStepsReach(u, d1, t[1..]);
    Through(u, d, d1, d');
  }

  /** A client's next access, from rest to rest. */
  lemma AccessPerformed(u: Setup, d: World, mem: Memory, s: State, c: nat) returns (d': World, mem': Memory, s': State)
    requires AtRest(u, d, mem, s) && c < u.config.n && WantOf(u, d, c).Some?
    ensures CanReach(u, d, d') && AtRest(u, d', mem', s') && d'.sync == d.sync
    ensures exists v :: d'.pcs == d.pcs[c := After(u.config, c, d.pcs[c], v)]
  {
    var want := WantOf(u, d, c).value;
    var v := NextEvent(u, d, mem, s, c);
    var e := EventFor(u, c, want, v);
    var d1 := AccessObtained(u, d, mem, s, c, e);
    var pages' := TouchPermitted(u.config.n, d1.cluster.pages, mem, e);
    assert StepFor(e) == Touch(u, c, want, v);
    StepIsPerform(d1.cluster, StepFor(e));
    d' := SharedProgram.Next(u, d1, SharedProgram.Op(c, v)).value;
    SingleStep(u, d1, SharedProgram.Op(c, v), d');
    Through(u, d, d1, d');
    mem', s' := ContinueAtRest(u, d, mem, s, d', Access(mem, e).value);
  }

  lemma StepIsPerform(s: Cluster.Cluster, st: Cluster.Step)
    requires Cluster.WFC(s)
    ensures Cluster.Run(ORDERLY, s, [st]) == Cluster.Perform(ORDERLY, s, st)
  {
    assert [st][0] == st && [st][1..] == [];
  }

  // ---------- one client's loops ----------

  /** A client runs its loops to the end. */
  lemma {:induction false} LoopsFinish(u: Setup, d: World, mem: Memory, s: State, c: nat)
    returns (d': World, mem': Memory, s': State)
    requires AtRest(u, d, mem, s) && c < u.config.n
    ensures CanReach(u, d, d') && AtRest(u, d', mem', s') && d'.sync == d.sync && WantOf(u, d', c).None?
    decreases OpsLeft(u.config, c, d.pcs[c])
  {
    if WantOf(u, d, c).None? {
      NothingReaches(u, d);
      return d, mem, s;
    }
    var d1, mem1, s1 := AccessPerformed(u, d, mem, s, c);
    var v :| d1.pcs == d.pcs[c := After(u.config, c, d.pcs[c], v)];
    assert PcOk(u.config, c, s.sync.phases[c], s.pcs[c]);
    OpsLeftDecreases(u.config, c, s.sync.phases[c], s.pcs[c], v);
    d', mem', s' := LoopsFinish(u, d1, mem1, s1, c);
    Through(u, d, d1, d');
  }

  // ---------- the whole program ----------

  /** The next barrier action, its client's loops first. */
  lemma BarrierPassed(u: Setup, d: World, mem: Memory, s: State) returns (d': World, mem': Memory, s': State)
    requires AtRest(u, d, mem, s) && !BarrierTheorems.AllFinished(d.sync)
    ensures CanReach(u, d, d') && AtRest(u, d', mem', s')
    ensures Sum(BarrierTheorems.Lives(d'.sync)) == Sum(BarrierTheorems.Lives(d.sync)) - 1
  {
    var a := BarrierTheorems.NeverStuck(d.sync);
    BarrierTheorems.ActionSpendsOne(d.sync, a);
    var d1, mem1, s1 := LoopsFinish(u, d, mem, s, a.client);
    d' := SharedProgram.Next(u, d1, SharedProgram.Sync(a)).value;
    SingleStep(u, d1, SharedProgram.Sync(a), d');
    mem', s' := ContinueAtRest(u, d1, mem1, s1, d', mem1);
    Through(u, d, d1, d');
  }

  lemma LivesNonNegative(sync: Barrier.Sys)
    requires Barrier.WFS(sync)
    ensures Sum(BarrierTheorems.Lives(sync)) >= 0
  {
    SumNonNegative(BarrierTheorems.Lives(sync));
  }

  lemma {:induction false} ProgramFinishes(u: Setup, d: World, mem: Memory, s: State) returns (d': World)
    requires AtRest(u, d, mem, s)
    ensures CanReach(u, d, d') && BarrierTheorems.AllFinished(d'.sync)
    decreases Sum(BarrierTheorems.Lives(d.sync))
  {
    LivesNonNegative(d.sync);
    if BarrierTheorems.AllFinished(d.sync) {
      NothingReaches(u, d);
      return d;
    }
    var d1, mem1, s1 := BarrierPassed(u, d, mem, s);
    LivesNonNegative(d1.sync);
    d' := ProgramFinishes(u, d1, mem1, s1);
    Through(u, d, d1, d');
  }

  lemma ReachedIsOrderly(u: Setup, mem0: Memory, steps: seq<SharedProgram.Step>, d: World, mem: Memory)
    requires EndToEnd.Reached(u, mem0, steps, d, mem)
    ensures Orderly(d.cluster, mem) && |d.cluster.ports| == u.config.n && |d.cluster.pages| == |mem0|
  {
    var s := EndToEnd.ReachedIsTracked(u, mem0, steps, d, mem);
    var d0 := SharedProgram.Start(u, mem0);
    StartIsOrderly(u.config.n, mem0);
    RunKeepsOrderly(d0.cluster, mem0, MemoryRun(u, d0, steps));
  }

  /** A world of a run, after the memory's own steps have brought it to rest. */
  lemma ReachedComesToRest(u: Setup, mem0: Memory, steps: seq<SharedProgram.Step>, d: World, mem: Memory)
    returns (d': World, mem': Memory, s': State)
    requires EndToEnd.Reached(u, mem0, steps, d, mem)
    requires u.config.n < 2 * Cluster.NUM_RESPONDERS || |mem0| < 2
    ensures CanReach(u, d, d') && AtRest(u, d', mem', s')
  {
    var s := EndToEnd.ReachedIsTracked(u, mem0, steps, d, mem);
    ReachedIsOrderly(u, mem0, steps, d, mem);
    var t := Settled(d.cluster, mem);
    var rest := Cluster.Run(ORDERLY, d.cluster, t).value;
    forall c, p | 0 <= c < |rest.ports| && 0 <= p < |rest.pages| ensures !Outstanding(rest, c, p) {
      if Outstanding(rest, c, p) {
        FaultsAreNeverStuck(rest, mem, c, p);
      }
    }
    NoFaultsIsCalm(rest, mem);
    d' := d.(cluster := rest);
    SystemStepsReach(u, d, t);
    mem', s' := ContinueAtRest(u, d, mem, s, d', mem);
  }

  /**
   Whatever has happened so far, with fewer than 2 * NUM_RESPONDERS clients or a
   single page the program can go on until every client has finished, and then
   the result is right and client 0's check has succeeded.
   */
  lemma ProgramCanAlwaysFinish(n: nat, size: nat, w: nat, mem0: Memory, steps: seq<SharedProgram.Step>, d: World,
                               mem: Memory)
    requires n > 0 && w > 0 && EndToEnd.Reached(Setup(Vmatrix(n, size), w), mem0, steps, d, mem)
    requires n < 2 * Cluster.NUM_RESPONDERS || |mem0| < 2
    ensures exists d' :: CanReach(Setup(Vmatrix(n, size), w), d, d') && Complete(n, size, w, d')
  {
    var u := Setup(Vmatrix(n, size), w);
    var d1, mem1, s1 := ReachedComesToRest(u, mem0, steps, d, mem);
    var d2 := ProgramFinishes(u, d1, mem1, s1);
    var mem2, s2 := Continue(u, d1, mem1, s1, d2);
    FinishedIsComplete(n, size, w, d2, mem2, s2);
    Through(u, d, d1, d2);
  }

  lemma StartAtRest(u: Setup, mem0: Memory)
    requires ValidSetup(u) && Shaped(mem0, u.words) && |mem0| == CalcPages(u.config.size, ELEMENT * u.words)
    ensures AtRest(u, SharedProgram.Start(u, mem0), mem0, Workload.Begin(u.config, Flatten(mem0, u.words)))
  {
    StartTracks(u, mem0);
    EndToEnd.RegionHoldsMatrices(u, mem0);
    BeginIsInv(u.config, Flatten(mem0, u.words));
    StartIsCalm(u.config.n, mem0);
  }

  /** For any number of clients, the deadlock bound or not, some run of the program finishes with the right result. */
  lemma SomeRunFinishes(n: nat, size: nat, w: nat, mem0: Memory)
    requires n > 0 && w > 0 && Shaped(mem0, w) && |mem0| == CalcPages(size, ELEMENT * w)
    ensures exists d :: CanReach(Setup(Vmatrix(n, size), w), SharedProgram.Start(Setup(Vmatrix(n, size), w), mem0), d)
                        && Complete(n, size, w, d)
  {
    var u := Setup(Vmatrix(n, size), w);
    var d0, s0 := SharedProgram.Start(u, mem0), Workload.Begin(u.config, Flatten(mem0, w));
    StartAtRest(u, mem0);
    var d := ProgramFinishes(u, d0, mem0, s0);
    var mem', s' := Continue(u, d0, mem0, s0, d);
    FinishedIsComplete(n, size, w, d, mem', s');
  }

  /**
   Every client has finished, client 0 found the result right, and the latest contents of the memory
   are that result.
   */
  ghost predicate Complete(n: nat, size: nat, w: nat, d: World)
    requires w > 0
  {
    && BarrierTheorems.AllFinished(d.sync)
    && |d.pcs| == n && n > 0 && d.pcs[0] == Check(size * size, true)
    && exists mem :: Cluster.ClusterCoherent(d.cluster, mem) && ResultIn(mem, w, size)
  }

  ghost predicate ResultIn(mem: Memory, w: nat, size: nat)
    requires w > 0
  {
    forall i :: 0 <= i < size * size ==> EndToEnd.Holds(mem, w, i, i)
  }

  lemma FinishedIsComplete(n: nat, size: nat, w: nat, d: World, mem: Memory, s: State)
    requires n > 0 && w > 0 && BarrierTheorems.AllFinished(d.sync)
    requires Tracks(Setup(Vmatrix(n, size), w), d, mem, s) && Inv(Vmatrix(n, size), s)
    ensures Complete(n, size, w, d)
  {
    EndToEnd.CheckHasSucceeded(n, size, s);
    forall i | 0 <= i < size * size ensures EndToEnd.Holds(mem, w, i, i) {
      ResultIsComplete(Vmatrix(n, size), s, i);
      VmatrixResult(n, size, i);
      EndToEnd.ResultWord(Setup(Vmatrix(n, size), w), mem, i);
    }
    assert ResultIn(mem, w, size);
  }
}
