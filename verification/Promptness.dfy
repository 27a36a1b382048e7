/**
 A schedule that strands nobody: a client that has been given the access it faulted
 for performs it before the page is taken away again.  Diligent runs that are
 prompt in this sense end, and end complete.
 */
module Promptness {
  import opened Base
  import opened FlatMemory
  import opened Paging
  import ServerlessPage
  import Cluster = ServerlessCluster
  import Responders
  import opened Provision
  import opened ServerlessSafety
  import Barrier
  import opened Workload
  import opened WorkloadProof
  import opened SharedProgram
  import EndToEnd
  import Completion
  import opened Diligence

  function KindOf(want: Want): Paging.Fault {
    if want.Get? then ReadFault else WriteFault
  }

  predicate HasAccess(u: Setup, d: World, c: nat)
    requires WFW(u, d)
  {
    var want := WantOf(u, d, c);
    && want.Some? && PageOf(want.value.addr, u.words) < |d.cluster.pages|
    && Provided(d.cluster.pages[PageOf(want.value.addr, u.words)], c, KindOf(want.value))
  }

  /** Nobody that owes an access and has the page for it loses it by this step, except by performing the access. */
  ghost predicate PromptStep(u: Setup, d: World, owing: set<nat>, st: SharedProgram.Step)
    requires WFW(u, d) && SharedProgram.Next(u, d, st).Some?
  {
    forall c :: c in owing && HasAccess(u, d, c) && !(st.Op? && st.client == c)
                ==> HasAccess(u, SharedProgram.Next(u, d, st).value, c)
  }

  ghost predicate Prompt(u: Setup, d: World, owing: set<nat>, steps: seq<SharedProgram.Step>)
    requires WFW(u, d)
    decreases |steps|
  {
    steps != [] ==>
      && SharedProgram.Next(u, d, steps[0]).Some? && OwingAfter(owing, steps[0]).Some?
      && PromptStep(u, d, owing, steps[0])
      && Prompt(u, SharedProgram.Next(u, d, steps[0]).value, OwingAfter(owing, steps[0]).value, steps[1..])
  }

  /**
   Client c, which owes an access, has a fault outstanding for it or the page to perform it on, and
   no other fault.
   */
  ghost predicate OnItsWay(u: Setup, d: World, c: nat)
    requires WFW(u, d)
  {
    && WantOf(u, d, c).Some?
    && var p, f := PageOf(WantOf(u, d, c).value.addr, u.words), KindOf(WantOf(u, d, c).value);
       && p < |d.cluster.pages|
       && (Underway(d.cluster.pages[p], c, f) || Provided(d.cluster.pages[p], c, f))
       && forall q :: 0 <= q < |d.cluster.pages| && q != p && c < |d.cluster.pages[q].locals| ==>
            d.cluster.pages[q].locals[c].request.Quiet?
  }

  ghost predicate AllOnTheirWay(u: Setup, d: World, owing: set<nat>)
    requires WFW(u, d)
  {
    forall c :: c in owing ==> c < u.config.n && OnItsWay(u, d, c)
  }

  // ---------- prompt steps keep everybody on the way ----------

  /** Where a step of the memory changes a page it performs an action of that page's protocol. */
  lemma PageAfter(s: Cluster.Cluster, st: Cluster.Step, q: nat)
    requires Cluster.WFC(s) && Cluster.Perform(ServerlessPage.ORDERLY, s, st).Some? && q < |s.pages|
    ensures var pg' := Cluster.Perform(ServerlessPage.ORDERLY, s, st).value.pages[q];
            || pg' == s.pages[q]
            || (Cluster.PageStep(st).Some? && Cluster.PageStep(st).value.0 == q
                && ServerlessPage.Next(ServerlessPage.ORDERLY, s.pages[q], Cluster.PageStep(st).value.1) == Some(pg'))
  {
  }

  /** A client at an access stays there until it performs it. */
  lemma StaysAtAccess(u: Setup, d: World, mem: Memory, s: State, st: SharedProgram.Step, c: nat)
    requires Tracks(u, d, mem, s) && Inv(u.config, s) && SharedProgram.Next(u, d, st).Some?
    requires WantOf(u, d, c).Some? && !(st.Op? && st.client == c)
    ensures WantOf(u, SharedProgram.Next(u, d, st).value, c) == WantOf(u, d, c)
  {
    if st.Sync? && st.action.Wake? && st.action.client == c {
      assert PcOk(u.config, c, s.sync.phases[c], s.pcs[c]);
      BarrierPhase(s.sync, st.action);
    }
  }

  /** What a step does to the memory, whichever step it is. */
  function MemoryStep(u: Setup, d: World, st: SharedProgram.Step): Option<Cluster.Step>
    requires WFW(u, d)
  {
    match st
    case Protocol(m) => Some(m)
    case Op(c, v) => if WantOf(u, d, c).Some? then Some(Touch(u, c, WantOf(u, d, c).value, v)) else None
    case Sync(_) => None
  }

  lemma NextPages(u: Setup, d: World, st: SharedProgram.Step)
    requires WFW(u, d) && SharedProgram.Next(u, d, st).Some?
    ensures match MemoryStep(u, d, st)
            case None => SharedProgram.Next(u, d, st).value.cluster == d.cluster
            case Some(m) =>
              Cluster.Perform(ServerlessPage.ORDERLY, d.cluster, m) == Some(SharedProgram.Next(u, d, st).value.cluster)
  {
  }

  lemma QuietElsewhere(u: Setup, d: World, mem: Memory, st: SharedProgram.Step, c: nat, q: nat)
    requires WFW(u, d) && Cluster.ClusterCoherent(d.cluster, mem) && SharedProgram.Next(u, d, st).Some?
    requires q < |d.cluster.pages| && c < u.config.n && d.cluster.pages[q].locals[c].request.Quiet?
    requires !(st.Protocol? && st.step.Fault? && st.step.client == c)
    ensures SharedProgram.Next(u, d, st).value.cluster.pages[q].locals[c].request.Quiet?
  {
    NextPages(u, d, st);
    var m := MemoryStep(u, d, st);
    hide SharedProgram.Next;
    if m.Some? {
      PageAfter(d.cluster, m.value, q);
      hide Cluster.Perform;
      if Cluster.PageStep(m.value).Some? && Cluster.PageStep(m.value).value.0 == q {
        ActionLeavesQuiet(d.cluster.pages[q], mem[q], Cluster.PageStep(m.value).value.1, c);
      }
    }
  }

  lemma OtherOnItsWay(u: Setup, d: World, mem: Memory, s: State, owing: set<nat>, st: SharedProgram.Step, c: nat)
    requires Tracks(u, d, mem, s) && Inv(u.config, s) && AllOnTheirWay(u, d, owing) && c in owing
    requires SharedProgram.Next(u, d, st).Some? && OwingAfter(owing, st).Some? && PromptStep(u, d, owing, st)
    requires !(st.Op? && st.client == c)
    ensures OnItsWay(u, SharedProgram.Next(u, d, st).value, c)
  {
    var d' := SharedProgram.Next(u, d, st).value;
    StaysAtAccess(u, d, mem, s, st, c);
    var p, f := PageOf(WantOf(u, d, c).value.addr, u.words), KindOf(WantOf(u, d, c).value);
    WantedPageKept(u, d, mem, owing, st, c);
    forall q | 0 <= q < |d'.cluster.pages| && q != p && c < |d'.cluster.pages[q].locals|
      ensures d'.cluster.pages[q].locals[c].request.Quiet?
    {
      NextPages(u, d, st);
      QuietElsewhere(u, d, mem, st, c, q);
    }
  }

  lemma WantedPageKept(u: Setup, d: World, mem: Memory, owing: set<nat>, st: SharedProgram.Step, c: nat)
    requires WFW(u, d) && Cluster.ClusterCoherent(d.cluster, mem) && AllOnTheirWay(u, d, owing) && c in owing
    requires SharedProgram.Next(u, d, st).Some? && PromptStep(u, d, owing, st) && !(st.Op? && st.client == c)
    requires WantOf(u, SharedProgram.Next(u, d, st).value, c) == WantOf(u, d, c)
    ensures var d' := SharedProgram.Next(u, d, st).value;
            var p, f := PageOf(WantOf(u, d, c).value.addr, u.words), KindOf(WantOf(u, d, c).value);
            && |d'.cluster.pages| == |d.cluster.pages|
            && p < |d'.cluster.pages|
            && (Underway(d'.cluster.pages[p], c, f) || Provided(d'.cluster.pages[p], c, f))
  {
    var p, f := PageOf(WantOf(u, d, c).value.addr, u.words), KindOf(WantOf(u, d, c).value);
    NextPages(u, d, st);
    assert OnItsWay(u, d, c) && Coherent(d.cluster.pages[p], mem[p]);
    if Underway(d.cluster.pages[p], c, f) {
      var m := MemoryStep(u, d, st);
      hide SharedProgram.Next, PromptStep, AllOnTheirWay, OnItsWay, Coherent, Underway, Provided;
      if m.Some? {
        PageAfter(d.cluster, m.value, p);
        hide Cluster.Perform;
        if Cluster.PageStep(m.value).Some? && Cluster.PageStep(m.value).value.0 == p {
          ActionProvides(d.cluster.pages[p], mem[p], Cluster.PageStep(m.value).value.1, c, f);
        }
      }
    } else {
      assert HasAccess(u, d, c);
      assert HasAccess(u, SharedProgram.Next(u, d, st).value, c);
    }
  }

  /** A client that has just faulted. */
  lemma FaultOnItsWay(u: Setup, d: World, st: SharedProgram.Step)
    requires WFW(u, d) && SharedProgram.Next(u, d, st).Some? && st.Protocol? && st.step.Fault?
    ensures st.step.client < u.config.n && OnItsWay(u, SharedProgram.Next(u, d, st).value, st.step.client)
  {
  }

  lemma NextKeepsWay(u: Setup, d: World, mem: Memory, s: State, owing: set<nat>, st: SharedProgram.Step)
    requires Tracks(u, d, mem, s) && Inv(u.config, s) && AllOnTheirWay(u, d, owing)
    requires SharedProgram.Next(u, d, st).Some? && OwingAfter(owing, st).Some? && PromptStep(u, d, owing, st)
    ensures AllOnTheirWay(u, SharedProgram.Next(u, d, st).value, OwingAfter(owing, st).value)
  {
    forall c | c in OwingAfter(owing, st).value
      ensures c < u.config.n && OnItsWay(u, SharedProgram.Next(u, d, st).value, c)
    {
      if c in owing {
        OtherOnItsWay(u, d, mem, s, owing, st, c);
      } else {
        FaultOnItsWay(u, d, st);
      }
    }
  }

  lemma {:induction false} RunKeepsWay(u: Setup, d: World, mem: Memory, s: State, owing: set<nat>,
                                       steps: seq<SharedProgram.Step>)
    requires Tracks(u, d, mem, s) && Inv(u.config, s) && AllOnTheirWay(u, d, owing) && Prompt(u, d, owing, steps)
    ensures SharedProgram.Run(u, d, steps).Some? && Owing(owing, steps).Some?
    ensures AllOnTheirWay(u, SharedProgram.Run(u, d, steps).value, Owing(owing, steps).value)
    decreases |steps|
  {
    if steps == [] {
    } else {
      NextKeepsWay(u, d, mem, s, owing, steps[0]);
      var mem', s' := NextIsTracked(u, d, mem, s, steps[0]);
      RunKeepsWay(u, SharedProgram.Next(u, d, steps[0]).value, mem', s', OwingAfter(owing, steps[0]).value, steps[1..]);
    }
  }

  // ---------- prompt runs end complete ----------

  /** A client that has the page for the access it owes can perform it, and takes nothing from anybody. */
  lemma AccessReady(u: Setup, d: World, mem: Memory, s: State, owing: set<nat>, c: nat) returns (st: SharedProgram.Step)
    requires Tracks(u, d, mem, s) && Inv(u.config, s) && AllOnTheirWay(u, d, owing) && c in owing && HasAccess(u, d, c)
    ensures SharedProgram.Next(u, d, st).Some? && OwingAfter(owing, st).Some? && PromptStep(u, d, owing, st)
  {
    var want := WantOf(u, d, c).value;
    var p, o := PageOf(want.addr, u.words), OffsetOf(want.addr, u.words);
    Completion.WantInRange(u.config, s, c, want);
    WordOf(mem, u.words, want.addr);
    assert Coherent(d.cluster.pages[p], mem[p]) && LocalOk(d.cluster.pages[p], c, mem[p]);
    var v := d.cluster.pages[p].locals[c].data[o];
    st := SharedProgram.Op(c, v);
    OnlyQuiet(u, d, c);
    OpIsEnabled(u, d, c, p, o, v);
    var d' := SharedProgram.Next(u, d, st).value;
    TouchIsOwn(d.cluster, Touch(u, c, want, v), d'.cluster);
    hide SharedProgram.Next, HasAccess, OthersSame, Inv, Tracks, OnItsWay, Coherent, LocalOk;
    forall x | x in owing && HasAccess(u, d, x) && x != c ensures HasAccess(u, d', x) {
      OthersKeepAccess(u, d, d', c, x);
    }
  }

  lemma OnlyQuiet(u: Setup, d: World, c: nat)
    requires WFW(u, d) && OnItsWay(u, d, c) && HasAccess(u, d, c)
    ensures Cluster.Unfaulted(d.cluster, c)
  {
  }

  lemma OpIsEnabled(u: Setup, d: World, c: nat, p: nat, o: nat, v: int)
    requires WFW(u, d) && HasAccess(u, d, c) && Cluster.Unfaulted(d.cluster, c)
    requires p == PageOf(WantOf(u, d, c).value.addr, u.words) && o == OffsetOf(WantOf(u, d, c).value.addr, u.words)
    requires o < |d.cluster.pages[p].locals[c].data| && d.cluster.pages[p].locals[c].data[o] == v
    ensures SharedProgram.Next(u, d, SharedProgram.Op(c, v)).Some?
  {
    hide Cluster.Unfaulted;
  }

  /** The memory is as before but for what client c sees of it. */
  ghost predicate OthersSame(s: Cluster.Cluster, s': Cluster.Cluster, c: nat) {
    && |s'.pages| == |s.pages|
    && forall q :: 0 <= q < |s.pages| ==>
         && s'.pages[q].tx == s.pages[q].tx && s'.pages[q].owner == s.pages[q].owner
         && |s'.pages[q].locals| == |s.pages[q].locals|
         && forall x :: 0 <= x < |s.pages[q].locals| && x != c ==> s'.pages[q].locals[x] == s.pages[q].locals[x]
  }

  lemma TouchIsOwn(s: Cluster.Cluster, st: Cluster.Step, s': Cluster.Cluster)
    requires Cluster.WFC(s) && (st.Read? || st.Write?)
    requires Cluster.Perform(ServerlessPage.ORDERLY, s, st) == Some(s')
    ensures OthersSame(s, s', st.client)
  {
  }

  lemma OthersKeepAccess(u: Setup, d: World, d': World, c: nat, x: nat)
    requires WFW(u, d) && WFW(u, d') && c < |d.pcs| && d'.pcs == d.pcs[c := d'.pcs[c]]
    requires OthersSame(d.cluster, d'.cluster, c) && x != c && HasAccess(u, d, x)
    ensures HasAccess(u, d', x)
  {
  }

  ghost predicate CanGoOnPromptly(u: Setup, d: World, owing: set<nat>)
    requires WFW(u, d)
  {
    exists st :: SharedProgram.Next(u, d, st).Some? && OwingAfter(owing, st).Some? && PromptStep(u, d, owing, st)
  }

  /** As long as somebody owes an access, either the access or the memory's work on its fault can go on. */
  lemma OwingGoesOn(u: Setup, d: World, mem: Memory, s: State, owing: set<nat>)
    requires Tracks(u, d, mem, s) && Inv(u.config, s) && AllOnTheirWay(u, d, owing) && owing != {}
    requires Responders.Orderly(d.cluster, mem)
    requires u.config.n < 2 * Cluster.NUM_RESPONDERS || |d.cluster.pages| < 2
    ensures CanGoOnPromptly(u, d, owing)
  {
    if c: nat :| c in owing && HasAccess(u, d, c) {
      var st := AccessReady(u, d, mem, s, owing, c);
    } else {
      var c :| c in owing;
      assert OnItsWay(u, d, c);
      var p := PageOf(WantOf(u, d, c).value.addr, u.words);
      Responders.FaultsAreNeverStuck(d.cluster, mem, c, p);
      var m :| Responders.SystemStep(m) && Cluster.Perform(ServerlessPage.ORDERLY, d.cluster, m).Some?;
      assert SharedProgram.Next(u, d, Protocol(m)).Some? && OwingAfter(owing, Protocol(m)).Some?;
      assert PromptStep(u, d, owing, Protocol(m));
    }
  }

  /**
   Below the deadlock bound, a prompt run that cannot go on promptly is complete:
   every client has finished and the result has been found right.
   */
  lemma PromptRunsComplete(n: nat, size: nat, w: nat, mem0: Memory, steps: seq<SharedProgram.Step>, d: World,
                           mem: Memory)
    requires n > 0 && w > 0 && EndToEnd.Reached(Setup(Vmatrix(n, size), w), mem0, steps, d, mem)
    requires n < 2 * Cluster.NUM_RESPONDERS || |mem0| < 2
    requires Prompt(Setup(Vmatrix(n, size), w), SharedProgram.Start(Setup(Vmatrix(n, size), w), mem0), {}, steps)
    requires WFW(Setup(Vmatrix(n, size), w), d) && Diligent(steps)
    requires !CanGoOnPromptly(Setup(Vmatrix(n, size), w), d, Owing({}, steps).value)
    ensures |steps| <= LongestRun(n, size)
    ensures Completion.Complete(n, size, w, d)
  {
    var u := Setup(Vmatrix(n, size), w);
    var owing := Owing({}, steps).value;
    DiligentRunsAreBounded(u, mem0, steps, d, mem);
    var s := EndToEnd.ReachedIsTracked(u, mem0, steps, d, mem);
    PromptIsOnItsWay(u, mem0, steps, d);
    Completion.ReachedIsOrderly(u, mem0, steps, d, mem);
    if owing != {} {
      OwingGoesOn(u, d, mem, s, owing);
    }
    NothingOwing(u, d);
    OwingNothingIsComplete(n, size, w, mem0, steps, d, mem);
  }

  lemma NothingOwing(u: Setup, d: World)
    requires WFW(u, d) && !CanGoOnPromptly(u, d, {})
    ensures CannotGoOn(u, d, {})
  {
    forall st | SharedProgram.Next(u, d, st).Some? ensures OwingAfter({}, st).None? {
      assert PromptStep(u, d, {}, st);
    }
  }

  lemma PromptIsOnItsWay(u: Setup, mem0: Memory, steps: seq<SharedProgram.Step>, d: World)
    requires ValidSetup(u) && Shaped(mem0, u.words) && |Flatten(mem0, u.words)| >= 3 * Cells(u.config)
    requires SharedProgram.Run(u, SharedProgram.Start(u, mem0), steps) == Some(d)
    requires Prompt(u, SharedProgram.Start(u, mem0), {}, steps)
    ensures Owing({}, steps).Some? && AllOnTheirWay(u, d, Owing({}, steps).value)
  {
    var s0 := Workload.Begin(u.config, Flatten(mem0, u.words));
    StartTracks(u, mem0);
    BeginIsInv(u.config, s0.words);
    RunKeepsWay(u, SharedProgram.Start(u, mem0), mem0, s0, {}, steps);
  }
}
