/**
 Schedules under which the matrix program is sure to come to its end.  A run is
 diligent if each client performs the access it faulted for before it faults
 again: such runs are bounded.  A diligent run that cannot go on is complete
 unless some client is stranded, having lost its page before it could use it.
 */
module Diligence {
  import opened Base
  import opened FlatMemory
  import Cluster = ServerlessCluster
  import opened ServerlessSchedule
  import opened Quiescence
  import Barrier
  import BarrierTheorems
  import opened Workload
  import opened WorkloadProof
  import opened Accesses
  import opened SharedProgram
  import EndToEnd
  import Completion

  /** The clients that have faulted for an access they have not yet performed, after a step. */
  function OwingAfter(owing: set<nat>, st: SharedProgram.Step): Option<set<nat>> {
    match st
    case Protocol(Fault(c, _, _)) => if c in owing then None else Some(owing + {c})
    case Op(c, _) => Some(owing - {c})
    case _ => Some(owing)
  }

  /** The same after a run, or None if some client faults twice for one access. */
  function Owing(owing: set<nat>, steps: seq<SharedProgram.Step>): Option<set<nat>>
    decreases |steps|
  {
    if steps == [] then Some(owing)
    else
      match OwingAfter(owing, steps[0])
      case None => None
      case Some(owing') => Owing(owing', steps[1..])
  }

  predicate Diligent(steps: seq<SharedProgram.Step>) {
    Owing({}, steps).Some?
  }

  lemma {:induction false} OwingAppend(owing: set<nat>, t: seq<SharedProgram.Step>, r: seq<SharedProgram.Step>)
    ensures Owing(owing, t + r) == match Owing(owing, t) case None => None case Some(owing') => Owing(owing', r)
    decreases |t|
  {
    if t == [] {
      assert t + r == r;
    } else {
      assert (t + r)[0] == t[0] && (t + r)[1..] == t[1..] + r;
      var next := OwingAfter(owing, t[0]);
      if next.Some? {
        OwingAppend(next.value, t[1..], r);
      }
    }
  }

  // ---------- diligent runs are bounded ----------

  function Faults(steps: seq<SharedProgram.Step>): nat {
    if steps == [] then 0 else (if steps[0].Protocol? && steps[0].step.Fault? then 1 else 0) + Faults(steps[1..])
  }

  function Accessed(steps: seq<SharedProgram.Step>): nat {
    if steps == [] then 0 else (if steps[0].Op? then 1 else 0) + Accessed(steps[1..])
  }

  /** Every fault is followed by its access, except for the clients that still owe theirs. */
  lemma {:induction false} FaultsAreOwed(owing: set<nat>, steps: seq<SharedProgram.Step>)
    requires Owing(owing, steps).Some?
    ensures Faults(steps) + |owing| <= Accessed(steps) + |Owing(owing, steps).value|
    decreases |steps|
  {
    if steps == [] {
    } else {
      var owing' := OwingAfter(owing, steps[0]).value;
      if steps[0].Op? && steps[0].client in owing {
        assert owing == owing' + {steps[0].client};
      } else if steps[0].Op? {
        assert owing' == owing;
      }
      FaultsAreOwed(owing', steps[1..]);
    }
  }

  /** The steps of a run by kind: accesses and barrier actions survive on flat memory, the others are the memory's. */
  lemma {:induction false} StepsByKind(u: Setup, d: World, steps: seq<SharedProgram.Step>)
    requires WFW(u, d) && SharedProgram.Run(u, d, steps).Some?
    ensures FaultsRaised(MemoryRun(u, d, steps)) == Faults(steps)
    ensures |steps| == |Erase(steps)| + Faults(steps) + SystemSteps(MemoryRun(u, d, steps))
    ensures Ops(Erase(steps)) == Accessed(steps)
    decreases |steps|
  {
    if steps == [] {
    } else {
      var st, d' := steps[0], SharedProgram.Next(u, d, steps[0]).value;
      StepsByKind(u, d', steps[1..]);
      var here, rest := MemorySteps(u, d, st), MemoryRun(u, d', steps[1..]);
      FaultsRaisedAppend(here, rest);
      SystemStepsAppend(here, rest);
      StepByKind(u, d, st, Erase(steps[1..]));
      hide SharedProgram.Next, MemorySteps, Erased, WFW;
    }
  }

  lemma StepByKind(u: Setup, d: World, st: SharedProgram.Step, rest: seq<Workload.Step>)
    requires WFW(u, d) && SharedProgram.Next(u, d, st).Some?
    ensures FaultsRaised(MemorySteps(u, d, st)) == if st.Protocol? && st.step.Fault? then 1 else 0
    ensures |Erased(st)| + FaultsRaised(MemorySteps(u, d, st)) + SystemSteps(MemorySteps(u, d, st)) == 1
    ensures Ops(Erased(st) + rest) == Ops(rest) + if st.Op? then 1 else 0
  {
    var here := MemorySteps(u, d, st);
    if here != [] {
      assert here[1..] == [];
    }
    if Erased(st) == [] {
      assert Erased(st) + rest == rest;
    } else {
      assert (Erased(st) + rest)[1..] == rest;
    }
  }

  lemma {:induction false} SystemStepsAppend(t: seq<Cluster.Step>, r: seq<Cluster.Step>)
    ensures SystemSteps(t + r) == SystemSteps(t) + SystemSteps(r)
  {
    if t == [] {
      assert t + r == r;
    } else {
      assert (t + r)[0] == t[0] && (t + r)[1..] == t[1..] + r;
      SystemStepsAppend(t[1..], r);
    }
  }

  /** The longest a diligent run of the program can be. */
  function LongestRun(n: nat, size: nat): nat {
    19 * AllAccesses(size) + 18 * n + BarrierTheorems.ProgramLength(n)
  }

  lemma FreshHasNoWork(n: nat, mem: Memory)
    requires n > 0
    ensures Work(Cluster.Start(n, mem)) == 0
  {
    var s := Cluster.Start(n, mem);
    forall p | 0 <= p < |mem| ensures PageWork(s.pages[p]) == 0 {
      BarrierTheorems.SumOfConstants(Requests(s.pages[p]), 0);
    }
    BarrierTheorems.SumOfConstants(PageWorks(s), 0);
    BarrierTheorems.SumOfConstants(PortWorks(s), 0);
  }

  /**
   A diligent run of n clients on a matrix of the given size has at most LongestRun(n, size) steps,
   whatever is filled in.
   */
  lemma DiligentRunsAreBounded(u: Setup, mem0: Memory, steps: seq<SharedProgram.Step>, d: World, mem: Memory)
    requires EndToEnd.Reached(u, mem0, steps, d, mem) && Diligent(steps)
    ensures |steps| <= LongestRun(u.config.n, u.config.size)
  {
    var d0, s0 := SharedProgram.Start(u, mem0), Workload.Begin(u.config, Flatten(mem0, u.words));
    var s := EndToEnd.ReachedIsTracked(u, mem0, steps, d, mem);
    ProgramIsBounded(u.config, s0.words, Erase(steps));
    StepsByKind(u, d0, steps);
    Cluster.StartIsCoherent(u.config.n, mem0);
    FaultsPayForSteps(d0.cluster, mem0, MemoryRun(u, d0, steps));
    FreshHasNoWork(u.config.n, mem0);
    FaultsAreOwed({}, steps);
    OwingAreClients(u, d0, {}, steps);
    BoundedSetSize(Owing({}, steps).value, u.config.n);
  }

  lemma {:induction false} OwingAreClients(u: Setup, d: World, owing: set<nat>, steps: seq<SharedProgram.Step>)
    requires WFW(u, d) && SharedProgram.Run(u, d, steps).Some? && Owing(owing, steps).Some?
    requires forall c :: c in owing ==> c < u.config.n
    ensures forall c :: c in Owing(owing, steps).value ==> c < u.config.n
    decreases |steps|
  {
    if steps == [] {
    } else {
      OwingAreClients(u, SharedProgram.Next(u, d, steps[0]).value, OwingAfter(owing, steps[0]).value, steps[1..]);
    }
  }

  // ---------- diligent runs that cannot go on ----------

  /** No step can follow without some client faulting twice for one access. */
  ghost predicate CannotGoOn(u: Setup, d: World, owing: set<nat>)
    requires WFW(u, d)
  {
    forall st :: SharedProgram.Next(u, d, st).Some? ==> OwingAfter(owing, st).None?
  }

  /** A client that owes an access is at that access. */
  ghost predicate OwingWants(u: Setup, d: World, owing: set<nat>)
    requires WFW(u, d)
  {
    forall c :: c in owing ==> c < u.config.n && WantOf(u, d, c).Some?
  }

  lemma NextKeepsOwingWants(u: Setup, d: World, s: State, mem: Memory, owing: set<nat>, st: SharedProgram.Step)
    requires Tracks(u, d, mem, s) && Inv(u.config, s) && OwingWants(u, d, owing)
    requires SharedProgram.Next(u, d, st).Some? && OwingAfter(owing, st).Some?
    ensures OwingWants(u, SharedProgram.Next(u, d, st).value, OwingAfter(owing, st).value)
  {
    if st.Sync? && st.action.Wake? {
      var c := st.action.client;
      assert PcOk(u.config, c, s.sync.phases[c], s.pcs[c]);
      BarrierPhase(s.sync, st.action);
    }
  }

  lemma BarrierPhase(sync: Barrier.Sys, a: Barrier.Action)
    requires Barrier.Good(sync) && a.Wake? && Barrier.Next(sync, a).Some?
    ensures a.client < |sync.phases| && Barrier.Awaiting(sync.phases[a.client])
    ensures sync.phases[a.client].AwaitDone? ==> Barrier.Next(sync, a).value.phases[a.client].Finished?
    ensures sync.phases[a.client].AwaitClean? ==> Barrier.Next(sync, a).value.phases[a.client].Checking?
  {
  }

  lemma {:induction false} RunKeepsOwingWants(u: Setup, d: World, mem: Memory, s: State, owing: set<nat>,
                                              steps: seq<SharedProgram.Step>)
    requires Tracks(u, d, mem, s) && Inv(u.config, s) && OwingWants(u, d, owing)
    requires SharedProgram.Run(u, d, steps).Some? && Owing(owing, steps).Some?
    ensures OwingWants(u, SharedProgram.Run(u, d, steps).value, Owing(owing, steps).value)
    decreases |steps|
  {
    if steps == [] {
    } else {
      NextKeepsOwingWants(u, d, s, mem, owing, steps[0]);
      var mem', s' := NextIsTracked(u, d, mem, s, steps[0]);
      RunKeepsOwingWants(u, SharedProgram.Next(u, d, steps[0]).value, mem', s', OwingAfter(owing, steps[0]).value,
                         steps[1..]);
    }
  }

  lemma NextIsTracked(u: Setup, d: World, mem: Memory, s: State, st: SharedProgram.Step)
    returns (mem': Memory, s': State)
    requires Tracks(u, d, mem, s) && Inv(u.config, s) && SharedProgram.Next(u, d, st).Some?
    ensures Tracks(u, SharedProgram.Next(u, d, st).value, mem', s') && Inv(u.config, s')
  {
    mem', s' := NextTracks(u, d, mem, s, st);
    if !st.Protocol? {
      MoveIsInv(u.config, s, Erased(st)[0]);
    }
  }

  /** A client that has finished wants nothing more. */
  lemma FinishedWantsNothing(u: Setup, d: World, mem: Memory, s: State, c: nat)
    requires Tracks(u, d, mem, s) && Inv(u.config, s) && BarrierTheorems.AllFinished(d.sync) && c < u.config.n
    ensures WantOf(u, d, c).None?
  {
    assert PcOk(u.config, c, s.sync.phases[c], s.pcs[c]);
  }

  /**
   Exactly when a diligent run that cannot go on is complete, below the deadlock
   bound: when nobody is left owing the access it faulted for.
   */
  lemma CompleteExactly(n: nat, size: nat, w: nat, mem0: Memory, steps: seq<SharedProgram.Step>, d: World, mem: Memory,
                        owing: set<nat>)
    requires n > 0 && w > 0 && EndToEnd.Reached(Setup(Vmatrix(n, size), w), mem0, steps, d, mem)
    requires n < 2 * Cluster.NUM_RESPONDERS || |mem0| < 2
    requires WFW(Setup(Vmatrix(n, size), w), d)
    requires Owing({}, steps) == Some(owing) && CannotGoOn(Setup(Vmatrix(n, size), w), d, owing)
    ensures Completion.Complete(n, size, w, d) <==> owing == {}
  {
    if owing == {} {
      OwingNothingIsComplete(n, size, w, mem0, steps, d, mem);
    }
    if Completion.Complete(n, size, w, d) {
      CompleteOwesNothing(Setup(Vmatrix(n, size), w), mem0, steps, d, mem, owing);
    }
  }

  lemma OwingNothingIsComplete(n: nat, size: nat, w: nat, mem0: Memory, steps: seq<SharedProgram.Step>, d: World,
                               mem: Memory)
    requires n > 0 && w > 0 && EndToEnd.Reached(Setup(Vmatrix(n, size), w), mem0, steps, d, mem)
    requires n < 2 * Cluster.NUM_RESPONDERS || |mem0| < 2
    requires WFW(Setup(Vmatrix(n, size), w), d) && CannotGoOn(Setup(Vmatrix(n, size), w), d, {})
    ensures Completion.Complete(n, size, w, d)
  {
    var u := Setup(Vmatrix(n, size), w);
    Completion.ProgramCanAlwaysFinish(n, size, w, mem0, steps, d, mem);
    var d' :| Completion.CanReach(u, d, d') && Completion.Complete(n, size, w, d');
    NowhereToGo(u, d, d');
  }

  lemma CompleteOwesNothing(u: Setup, mem0: Memory, steps: seq<SharedProgram.Step>, d: World, mem: Memory,
                            owing: set<nat>)
    requires EndToEnd.Reached(u, mem0, steps, d, mem) && Owing({}, steps) == Some(owing)
    requires BarrierTheorems.AllFinished(d.sync)
    ensures owing == {}
  {
    var s := EndToEnd.ReachedIsTracked(u, mem0, steps, d, mem);
    StartOwingWants(u, mem0, steps, d, owing);
    forall c: nat ensures c !in owing {
      if c < u.config.n {
        FinishedWantsNothing(u, d, mem, s, c);
      }
    }
  }

  lemma NowhereToGo(u: Setup, d: World, d': World)
    requires WFW(u, d) && CannotGoOn(u, d, {}) && Completion.CanReach(u, d, d')
    ensures d' == d
  {
    forall st ensures OwingAfter({}, st).Some? {
    }
    var more :| SharedProgram.Run(u, d, more) == Some(d');
  }

  lemma StartOwingWants(u: Setup, mem0: Memory, steps: seq<SharedProgram.Step>, d: World, owing: set<nat>)
    requires ValidSetup(u) && Shaped(mem0, u.words) && |Flatten(mem0, u.words)| >= 3 * Cells(u.config)
    requires SharedProgram.Run(u, SharedProgram.Start(u, mem0), steps) == Some(d) && Owing({}, steps) == Some(owing)
    ensures OwingWants(u, d, owing)
  {
    var s0 := Workload.Begin(u.config, Flatten(mem0, u.words));
    StartTracks(u, mem0);
    BeginIsInv(u.config, s0.words);
    RunKeepsOwingWants(u, SharedProgram.Start(u, mem0), mem0, s0, {}, steps);
  }
}
