/**
 The central system's own steps cannot go on for ever: each new fault pays for a
 bounded number of them, and they only stop when no fault is outstanding.
 */
module CentralQuiescence {
  import opened Base
  import opened FlatMemory
  import opened CentralPage
  import opened CentralSafety
  import opened CentralCluster
  import Quiescence

  function Requests(pg: Page): seq<int> {
    seq(|pg.clients|, c requires 0 <= c < |pg.clients| => Quiescence.RequestWork(pg.clients[c].request))
  }

  /** How far the server has got with a fault. */
  function Done(tx: Tx): int {
    match tx
    case Idle => 0
    case AskRead(_) => 4
    case GotRead(_, _) => 5
    case AskWrite(_, _) => 1
    case GotWrite(_, _) => 2
    case Drain(_, _) => 1
    case AskInval(_, _, _) => 0
  }

  function PageWork(pg: Page): int {
    Sum(Requests(pg)) + 3 * |pg.queue| - Done(pg.tx)
  }

  function PageWorks(pages: seq<Page>): seq<int> {
    seq(|pages|, p requires 0 <= p < |pages| => PageWork(pages[p]))
  }

  /** A bound on the system steps left to do if no new fault is raised. */
  function Work(pages: seq<Page>): int {
    Sum(PageWorks(pages))
  }

  lemma WorkNonNegative(n: nat, pages: seq<Page>, mem: Memory)
    requires AllCoherent(n, pages, mem)
    ensures Work(pages) >= 0
  {
    forall p | 0 <= p < |pages| ensures PageWork(pages[p]) >= 0 {
      assert Coherent(pages[p], mem[p]);
      SumNonNegative(Requests(pages[p]));
      if !pages[p].tx.Idle? {
        SumAtLeast(Requests(pages[p]), pages[p].tx.client);
      }
    }
    SumNonNegative(PageWorks(pages));
  }

  lemma RequestsUpdate(pg: Page, pg': Page, r: nat)
    requires r < |pg.clients| && |pg'.clients| == |pg.clients|
    requires forall c :: 0 <= c < |pg.clients| && c != r ==> pg'.clients[c].request == pg.clients[c].request
    ensures Sum(Requests(pg')) ==
            Sum(Requests(pg)) - Quiescence.RequestWork(pg.clients[r].request) +
              Quiescence.RequestWork(pg'.clients[r].request)
  {
    assert Requests(pg') == Requests(pg)[r := Quiescence.RequestWork(pg'.clients[r].request)];
    SumUpdate(Requests(pg), r, Quiescence.RequestWork(pg'.clients[r].request));
  }

  predicate SystemStep(st: Step) {
    !st.Fault? && !st.Read? && !st.Write?
  }

  /** Every action of the server and the clients' threads does work. */
  lemma ActionWorks(pg: Page, mem: seq<int>, a: Action)
    requires Coherent(pg, mem) && Next(ORDERLY, pg, a).Some?
    requires !a.Raise? && !a.Load? && !a.Store?
    ensures PageWork(Next(ORDERLY, pg, a).value) < PageWork(pg)
  {
    var r := if a.Begin? || a.Install? || a.Protect? then a.client else pg.tx.client;
    assert ClientOk(pg, r, mem);
    RequestsUpdate(pg, Next(ORDERLY, pg, a).value, r);
  }

  lemma StepWorks(n: nat, pages: seq<Page>, mem: Memory, st: Step)
    requires AllCoherent(n, pages, mem) && SystemStep(st) && Perform(ORDERLY, n, pages, st).Some?
    ensures Work(Perform(ORDERLY, n, pages, st).value) < Work(pages)
  {
    var pages', p := Perform(ORDERLY, n, pages, st).value, st.page;
    ActionWorks(pages[p], mem[p], ActionOf(st));
    assert PageWorks(pages') == PageWorks(pages)[p := PageWork(pages'[p])];
    SumUpdate(PageWorks(pages), p, PageWork(pages'[p]));
  }

  /** A new fault makes work for at most sixteen steps, an access makes none. */
  lemma OtherStepWorks(n: nat, pages: seq<Page>, st: Step)
    requires WFC(n, pages) && !SystemStep(st) && Perform(ORDERLY, n, pages, st).Some?
    ensures Work(Perform(ORDERLY, n, pages, st).value) == Work(pages) + if st.Fault? then 16 else 0
  {
    var pages', p := Perform(ORDERLY, n, pages, st).value, st.page;
    RequestsUpdate(pages[p], pages'[p], st.client);
    assert PageWorks(pages') == PageWorks(pages)[p := PageWork(pages'[p])];
    SumUpdate(PageWorks(pages), p, PageWork(pages'[p]));
  }

  /** The steps of a run that are the system's own. */
  function SystemSteps(steps: seq<Step>): nat {
    if steps == [] then 0 else (if SystemStep(steps[0]) then 1 else 0) + SystemSteps(steps[1..])
  }

  /** Over any run, the system's own steps are paid for by the work there was and by the faults raised. */
  lemma {:induction false} FaultsPayForSteps(n: nat, pages: seq<Page>, mem: Memory, steps: seq<Step>)
    requires AllCoherent(n, pages, mem) && OneAtATime(pages) && Run(ORDERLY, n, pages, steps).Some?
    ensures 0 <= Work(Run(ORDERLY, n, pages, steps).value)
    ensures SystemSteps(steps) + Work(Run(ORDERLY, n, pages, steps).value) <= Work(pages) + 16 * FaultsRaised(steps)
    decreases |steps|
  {
    if steps == [] {
      WorkNonNegative(n, pages, mem);
    } else {
      var st := steps[0];
      if SystemStep(st) {
        StepWorks(n, pages, mem, st);
      } else {
        OtherStepWorks(n, pages, st);
      }
      PerformRefines(n, pages, mem, st);
      FaultsPayForSteps(n, Perform(ORDERLY, n, pages, st).value, Replay(mem, EventOf(st)).value, steps[1..]);
    }
  }

  ghost predicate AllSystem(steps: seq<Step>) {
    forall i :: 0 <= i < |steps| ==> SystemStep(steps[i])
  }

  lemma {:induction false} AllSystemCount(steps: seq<Step>)
    requires AllSystem(steps)
    ensures SystemSteps(steps) == |steps| && FaultsRaised(steps) == 0 && Trace(steps) == []
  {
    if steps == [] {
    } else {
      AllSystemCount(steps[1..]);
    }
  }

  lemma SystemRunsAreBounded(n: nat, pages: seq<Page>, mem: Memory, steps: seq<Step>)
    requires AllCoherent(n, pages, mem) && OneAtATime(pages) && AllSystem(steps) && Run(ORDERLY, n, pages, steps).Some?
    ensures |steps| <= Work(pages)
    ensures AllCoherent(n, Run(ORDERLY, n, pages, steps).value, mem)
  {
    AllSystemCount(steps);
    FaultsPayForSteps(n, pages, mem, steps);
    RunRefinesFlatMemory(n, pages, mem, steps);
  }

  ghost predicate CanMove(n: nat, pages: seq<Page>)
    requires WFC(n, pages)
  {
    exists st :: SystemStep(st) && Perform(ORDERLY, n, pages, st).Some?
  }

  ghost predicate NoFaults(pages: seq<Page>) {
    forall p, c :: 0 <= p < |pages| && 0 <= c < |pages[p].clients| ==> pages[p].clients[c].request.Quiet?
  }

  /**
   After any run of any number of clients the system's own steps, scheduled in any
   order at all, stop only when no fault is outstanding, and unless new faults
   are raised they do stop.
   */
  lemma SystemComesToRest(n: nat, mem0: Memory, before: seq<Step>, after: seq<Step>,
                           pages: seq<Page>, mem: Memory, pages': seq<Page>)
    requires Reached(n, mem0, before, pages, mem) && WFC(n, pages)
    requires AllSystem(after) && Run(ORDERLY, n, pages, after) == Some(pages')
    ensures |after| <= Work(pages)
    ensures WFC(n, pages') && (!CanMove(n, pages') ==> NoFaults(pages'))
  {
    ReachedIsCoherent(n, mem0, before, pages, mem);
    SystemRunsAreBounded(n, pages, mem, after);
    forall p, c | 0 <= p < |pages'| && 0 <= c < |pages'[p].clients| && !pages'[p].clients[c].request.Quiet?
      ensures CanMove(n, pages')
    {
      var st := SomeStepIsEnabled(n, pages', mem, c, p);
    }
  }
}
