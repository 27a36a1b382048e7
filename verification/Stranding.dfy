/**
 Diligence alone is not enough: three clients whose matrices share a page have a
 diligent run that cannot go on and is not complete, because one of them lost
 the page between being given it and using it.
 */
module Stranding {
  import opened Base
  import opened FlatMemory
  import opened Arithmetic
  import opened Paging
  import opened ServerlessPage
  import opened ServerlessSafety
  import Cluster = ServerlessCluster
  import opened ServerlessSchedule
  import opened Responders
  import opened Quiescence
  import opened ServerlessTraces
  import opened Layout
  import opened Workload
  import opened WorkloadProof
  import opened SharedProgram
  import EndToEnd
  import Completion
  import opened Diligence

  // ---------- a client that has lost its page ----------

  /** Client c owes an access but has neither the page for it nor a fault on it, nor owns that page. */
  ghost predicate Stranded(u: Setup, d: World, owing: set<nat>, c: nat, p: nat)
    requires WFW(u, d)
  {
    && c in owing && c < u.config.n && p < |d.cluster.pages| && d.cluster.pages[p].owner != c
    && WantOf(u, d, c).Some? && PageOf(WantOf(u, d, c).value.addr, u.words) == p
    && Shut(d.cluster.pages[p], c)
  }

  predicate Shut(pg: Page, c: nat) {
    c < |pg.locals| && pg.locals[c].request.Quiet? && pg.locals[c].prot == PROT_NONE
  }

  /** Only a fault of its own can give a client access to a page it does not own. */
  lemma ActionLeavesShut(pg: Page, mem: seq<int>, a: Action, c: nat)
    requires Coherent(pg, mem) && ServerlessPage.Next(ORDERLY, pg, a).Some? && Shut(pg, c) && c != pg.owner
    requires !(a.Raise? && a.client == c)
    ensures Shut(ServerlessPage.Next(ORDERLY, pg, a).value, c)
  {
    assert LocalOk(pg, c, mem);
    if a.Begin? || a.Advance? {
      HandlerFootprint(pg, mem, if a.Begin? then a.client else pg.tx.client, a);
    }
  }

  lemma StepLeavesShut(s: Cluster.Cluster, mem: Memory, st: Cluster.Step, c: nat, p: nat)
    requires Cluster.ClusterCoherent(s, mem) && Cluster.Perform(ORDERLY, s, st).Some?
    requires p < |s.pages| && Shut(s.pages[p], c) && c != s.pages[p].owner && !(st.Fault? && st.client == c)
    ensures Shut(Cluster.Perform(ORDERLY, s, st).value.pages[p], c)
    ensures Cluster.Perform(ORDERLY, s, st).value.pages[p].owner == s.pages[p].owner
  {
    if !st.Receive? && Cluster.PageStep(st).value.0 == p {
      ActionLeavesShut(s.pages[p], mem[p], Cluster.PageStep(st).value.1, c);
    }
  }

  /** A stranded client stays stranded for as long as the run is diligent. */
  lemma NextKeepsStranded(u: Setup, d: World, mem: Memory, s: State, owing: set<nat>, st: SharedProgram.Step,
                          c: nat, p: nat)
    requires Tracks(u, d, mem, s) && Inv(u.config, s) && Stranded(u, d, owing, c, p)
    requires SharedProgram.Next(u, d, st).Some? && OwingAfter(owing, st).Some?
    ensures Stranded(u, SharedProgram.Next(u, d, st).value, OwingAfter(owing, st).value, c, p)
  {
    match st
    case Sync(a) =>
      if a.Wake? && a.client == c {
        assert PcOk(u.config, c, s.sync.phases[c], s.pcs[c]);
        BarrierPhase(s.sync, a);
      }
    case Protocol(m) =>
      StepLeavesShut(d.cluster, mem, m, c, p);
      hide Cluster.Perform, Shut, Inv;
    case Op(x, v) =>
      StepLeavesShut(d.cluster, mem, Touch(u, x, WantOf(u, d, x).value, v), c, p);
      if x == c {
        ShutCannotAccess(u, d, c, p, v);
      }
      hide Cluster.Perform, Shut, Inv;
  }

  /** A client shut out of the page cannot perform its access. */
  lemma ShutCannotAccess(u: Setup, d: World, c: nat, p: nat, v: int)
    requires WFW(u, d) && WantOf(u, d, c).Some? && PageOf(WantOf(u, d, c).value.addr, u.words) == p
    requires p < |d.cluster.pages| && Shut(d.cluster.pages[p], c)
    ensures SharedProgram.Next(u, d, SharedProgram.Op(c, v)).None?
  {
  }

  lemma {:induction false} RunKeepsStranded(u: Setup, d: World, mem: Memory, s: State, owing: set<nat>,
                                            steps: seq<SharedProgram.Step>, c: nat, p: nat)
    requires Tracks(u, d, mem, s) && Inv(u.config, s) && Stranded(u, d, owing, c, p)
    requires SharedProgram.Run(u, d, steps).Some? && Owing(owing, steps).Some?
    ensures Stranded(u, SharedProgram.Run(u, d, steps).value, Owing(owing, steps).value, c, p)
    decreases |steps|
  {
    if steps == [] {
    } else {
      var st := steps[0];
      NextKeepsStranded(u, d, mem, s, owing, st, c, p);
      var mem', s' := NextIsTracked(u, d, mem, s, st);
      RunKeepsStranded(u, SharedProgram.Next(u, d, st).value, mem', s', OwingAfter(owing, st).value, steps[1..], c, p);
    }
  }

  // ---------- two clients take the page from each other ----------

  function Protocols(steps: seq<Cluster.Step>): seq<SharedProgram.Step> {
    if steps == [] then [] else [Protocol(steps[0])] + Protocols(steps[1..])
  }

  lemma {:induction false} SystemRun(u: Setup, d: World, owing: set<nat>, steps: seq<Cluster.Step>)
    requires WFW(u, d) && AllSystem(steps) && Cluster.Run(ORDERLY, d.cluster, steps).Some?
    ensures SharedProgram.Run(u, d, Protocols(steps)) ==
            Some(d.(cluster := Cluster.Run(ORDERLY, d.cluster, steps).value))
    ensures Owing(owing, Protocols(steps)) == Some(owing)
    decreases |steps|
  {
    if steps == [] {
    } else {
      var d1 := d.(cluster := Cluster.Perform(ORDERLY, d.cluster, steps[0]).value);
      assert SharedProgram.Next(u, d, Protocol(steps[0])) == Some(d1);
      assert Protocols(steps)[1..] == Protocols(steps[1..]);
      SystemRun(u, d1, owing, steps[1..]);
    }
  }

  /** A client at a store it has no access for faults, and is given the page. */
  lemma PageTaken(u: Setup, d: World, mem: Memory, s: State, owing: set<nat>, c: nat, e: Event)
    returns (steps: seq<SharedProgram.Step>, d': World, mem': Memory, s': State)
    requires Completion.AtRest(u, d, mem, s) && c < u.config.n && c !in owing
    requires WantOf(u, d, c).Some? && WantOf(u, d, c).value.Put?
    requires e == Completion.EventFor(u, c, WantOf(u, d, c).value, 0)
    requires InRange(mem, e) && !Permits(d.cluster.pages[e.page].locals[c], e)
    ensures SharedProgram.Run(u, d, steps) == Some(d') && Owing(owing, steps) == Some(owing + {c})
    ensures d'.sync == d.sync && d'.pcs == d.pcs && Completion.AtRest(u, d', mem', s')
    ensures |mem'| == |mem| && Permits(d'.cluster.pages[e.page].locals[c], e)
    ensures |d'.cluster.pages| == |d.cluster.pages|
  {
    var t, pages' := ObtainAccess(u.config.n, d.cluster.pages, mem, e);
    Completion.NoMoreFaults(t[1..]);
    var d1 := d.(cluster := Cluster.Perform(ORDERLY, d.cluster, t[0]).value);
    assert t[0] == FaultOf(u, c, WantOf(u, d, c).value);
    assert SharedProgram.Next(u, d, Protocol(t[0])) == Some(d1);
    SystemRun(u, d1, owing + {c}, t[1..]);
    steps := [Protocol(t[0])] + Protocols(t[1..]);
    assert steps[1..] == Protocols(t[1..]);
    d' := d.(cluster := Staged(u.config.n, pages', None));
    assert SharedProgram.Run(u, d, steps) == Some(d');
    mem', s' := Completion.ContinueAtRest(u, d, mem, s, d', mem);
  }

  /** With one client holding a calm page for writing, any other is shut out of it. */
  lemma WriterShutsOut(pg: Page, mem: seq<int>, a: nat, c: nat)
    requires Coherent(pg, mem) && pg.tx.Idle? && AllQuiet(pg) && a < |pg.locals| && c < |pg.locals| && a != c
    requires pg.locals[a].prot == PROT_ALL
    ensures Shut(pg, c)
  {
    assert LocalOk(pg, a, mem) && LocalOk(pg, c, mem) && LocalOk(pg, pg.owner, mem);
  }

  // ---------- a diligent run that ends too soon ----------

  lemma RunIsReached(u: Setup, mem0: Memory, steps: seq<SharedProgram.Step>, d: World) returns (mem: Memory)
    requires ValidSetup(u) && Shaped(mem0, u.words) && |mem0| == CalcPages(u.config.size, ELEMENT * u.words)
    requires SharedProgram.Run(u, SharedProgram.Start(u, mem0), steps) == Some(d)
    ensures EndToEnd.Reached(u, mem0, steps, d, mem)
  {
    StartTracks(u, mem0);
    var s;
    mem, s := RunErases(u, SharedProgram.Start(u, mem0), mem0, Workload.Begin(u.config, Flatten(mem0, u.words)), steps);
  }

  /** A diligent run can be continued until it cannot go on. */
  lemma {:induction false} Exhausted(u: Setup, mem0: Memory, steps: seq<SharedProgram.Step>, d: World, owing: set<nat>)
    returns (more: seq<SharedProgram.Step>, d': World, owing': set<nat>)
    requires ValidSetup(u) && Shaped(mem0, u.words) && |mem0| == CalcPages(u.config.size, ELEMENT * u.words)
    requires SharedProgram.Run(u, SharedProgram.Start(u, mem0), steps) == Some(d) && WFW(u, d)
    requires Owing({}, steps) == Some(owing)
    ensures SharedProgram.Run(u, d, more) == Some(d') && WFW(u, d') && Owing(owing, more) == Some(owing')
    ensures CannotGoOn(u, d', owing')
    decreases LongestRun(u.config.n, u.config.size) - |steps|
  {
    if CannotGoOn(u, d, owing) {
      return [], d, owing;
    }
    var st :| SharedProgram.Next(u, d, st).Some? && OwingAfter(owing, st).Some?;
    var d1, owing1 := SharedProgram.Next(u, d, st).value, OwingAfter(owing, st).value;
    assert [st][0] == st && [st][1..] == [];
    Completion.WorldRunAppend(u, SharedProgram.Start(u, mem0), steps, [st]);
    OwingAppend({}, steps, [st]);
    var mem := RunIsReached(u, mem0, steps + [st], d1);
    DiligentRunsAreBounded(u, mem0, steps + [st], d1, mem);
    var rest;
    rest, d', owing' := Exhausted(u, mem0, steps + [st], d1, owing1);
    more := [st] + rest;
    assert more[0] == st && more[1..] == rest;
  }

  lemma OnePage(size: nat, w: nat)
    requires 3 * (size * size) < w
    ensures CalcPages(size, ELEMENT * w) == 1
  {
    assert size * size * ELEMENT * 3 == ELEMENT * (3 * (size * size));
    DivCancel(3 * (size * size), w, ELEMENT);
    DivBelow(3 * (size * size), w, 1);
  }

  /** What clients 1 and 2 do first: each stores to the only page, which client 0 owns. */
  lemma FirstStores(u: Setup, mem0: Memory, c: nat)
    requires ValidSetup(u) && u.config.n >= 3 && u.config.size > 0 && 3 * Cells(u.config) < u.words
    requires Shaped(mem0, u.words) && |mem0| == 1 && 1 <= c <= 2
    ensures var want := WantOf(u, SharedProgram.Start(u, mem0), c);
            && want.Some? && want.value.Put? && PageOf(want.value.addr, u.words) == 0
            && InRange(mem0, Completion.EventFor(u, c, want.value, 0))
  {
    MulMonotone(1, u.config.size, u.config.size);
    var want := WantOf(u, SharedProgram.Start(u, mem0), c).value;
    assert want.addr == if c == 1 then 2 * Cells(u.config) else 0;
    DivBelow(want.addr, u.words, 1);
  }

  /** Client 1 is given the page, and client 2 takes it before client 1 has stored. */
  lemma ClientStranded(u: Setup, mem0: Memory) returns (steps: seq<SharedProgram.Step>, d: World, owing: set<nat>)
    requires ValidSetup(u) && u.config.n >= 3 && u.config.size > 0 && 3 * Cells(u.config) < u.words
    requires Shaped(mem0, u.words) && |mem0| == 1 == CalcPages(u.config.size, ELEMENT * u.words)
    ensures SharedProgram.Run(u, SharedProgram.Start(u, mem0), steps) == Some(d) && Owing({}, steps) == Some(owing)
    ensures WFW(u, d) && Stranded(u, d, owing, 1, 0)
  {
    var d0, s0 := SharedProgram.Start(u, mem0), Workload.Begin(u.config, Flatten(mem0, u.words));
    Completion.StartAtRest(u, mem0);
    FirstStores(u, mem0, 1);
    FirstStores(u, mem0, 2);
    var e1 := Completion.EventFor(u, 1, WantOf(u, d0, 1).value, 0);
    var t1, d1, mem1, s1 := PageTaken(u, d0, mem0, s0, {}, 1, e1);
    WriterShutsOut(d1.cluster.pages[0], mem1[0], 1, 2);
    var e2 := Completion.EventFor(u, 2, WantOf(u, d1, 2).value, 0);
    var t2, d2, mem2, s2 := PageTaken(u, d1, mem1, s1, {} + {1}, 2, e2);
    WriterShutsOut(d2.cluster.pages[0], mem2[0], 2, 1);
    Completion.WorldRunAppend(u, d0, t1, t2);
    OwingAppend({}, t1, t2);
    steps, d, owing := t1 + t2, d2, {} + {1} + {2};
  }

  /**
   For three clients or more, and any matrices that share one page, some diligent
   run of the program, within the deadlock bound or not, cannot go on and is
   not complete.
   */
  lemma DiligenceIsNotEnough(n: nat, size: nat, w: nat, mem0: Memory)
    returns (steps: seq<SharedProgram.Step>, d: World, owing: set<nat>)
    requires n >= 3 && size > 0 && 3 * (size * size) < w && Shaped(mem0, w) && |mem0| == 1
    ensures CalcPages(size, ELEMENT * w) == 1
    ensures SharedProgram.Run(Setup(Vmatrix(n, size), w), SharedProgram.Start(Setup(Vmatrix(n, size), w), mem0), steps)
            == Some(d)
    ensures Owing({}, steps) == Some(owing) && owing != {}
    ensures WFW(Setup(Vmatrix(n, size), w), d) && CannotGoOn(Setup(Vmatrix(n, size), w), d, owing)
    ensures !Completion.Complete(n, size, w, d)
  {
    var u := Setup(Vmatrix(n, size), w);
    OnePage(size, w);
    var t, d1, owing1 := ClientStranded(u, mem0);
    var more;
    more, d, owing := Exhausted(u, mem0, t, d1, owing1);
    steps := t + more;
    Completion.WorldRunAppend(u, SharedProgram.Start(u, mem0), t, more);
    OwingAppend({}, t, more);
    var mem1 := RunIsReached(u, mem0, t, d1);
    var s1 := EndToEnd.ReachedIsTracked(u, mem0, t, d1, mem1);
    RunKeepsStranded(u, d1, mem1, s1, owing1, more, 1, 0);
    var mem := RunIsReached(u, mem0, steps, d);
    CompleteExactly(n, size, w, mem0, steps, d, mem, owing);
  }
}
