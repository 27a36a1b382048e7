/**
 The system's own steps cannot go on for ever: each new fault pays for a bounded
 number of them, and with too few clients to block each other's responder pools
 they only stop when no fault is outstanding.
 */
module Quiescence {
  import opened Base
  import opened FlatMemory
  import opened Paging
  import opened ServerlessPage
  import opened ServerlessSafety
  import opened ServerlessCluster
  import opened ServerlessSchedule
  import opened Responders

  function RequestWork(r: Request): int {
    match r
    case Quiet => 0
    case Waiting(_) => 16
    case Granted(_) => 1
  }

  function Requests(pg: Page): seq<int> {
    seq(|pg.locals|, c requires 0 <= c < |pg.locals| => RequestWork(pg.locals[c].request))
  }

  /** How far a handler has got, on the scale of RequestWork. */
  function Done(tx: Tx): int {
    match tx
    case Idle => 0
    case AskRead(_) => 2
    case GotRead(_, _) => 3
    case Window(_, _) => 7
    case AskWrite(_) => 2
    case GotWrite(_, _) => 3
    case Drain(_, _) => 1
    case AskInval(_, _, _) => 0
    case Crashed => 0
  }

  function PageWork(pg: Page): int {
    Sum(Requests(pg)) + 3 * |pg.readers| - Done(pg.tx)
  }

  function PageWorks(s: Cluster): seq<int> {
    seq(|s.pages|, p requires 0 <= p < |s.pages| => PageWork(s.pages[p]))
  }

  function PortWorks(s: Cluster): seq<int> {
    seq(|s.ports|, c requires 0 <= c < |s.ports| => |s.ports[c]|)
  }

  /** A bound on the system steps left to do if no new fault is raised. */
  function Work(s: Cluster): int {
    Sum(PageWorks(s)) + Sum(PortWorks(s))
  }

  lemma PageWorkNonNegative(pg: Page, mem: seq<int>)
    requires Coherent(pg, mem)
    ensures PageWork(pg) >= 0
  {
    if !pg.tx.Idle? {
      SumAtLeast(Requests(pg), pg.tx.client);
    } else if |pg.locals| > 0 {
      SumAtLeast(Requests(pg), 0);
    }
  }

  lemma WorkNonNegative(s: Cluster, mem: Memory)
    requires ClusterCoherent(s, mem)
    ensures Work(s) >= 0
  {
    forall p | 0 <= p < |s.pages| ensures PageWork(s.pages[p]) >= 0 {
      PageWorkNonNegative(s.pages[p], mem[p]);
    }
    SumNonNegative(PageWorks(s));
    SumNonNegative(PortWorks(s));
  }

  /** The change of one client's request changes the page's sum of requests accordingly. */
  lemma RequestsUpdate(pg: Page, pg': Page, r: nat)
    requires r < |pg.locals| && |pg'.locals| == |pg.locals|
    requires forall c :: 0 <= c < |pg.locals| && c != r ==> pg'.locals[c].request == pg.locals[c].request
    ensures Sum(Requests(pg')) ==
            Sum(Requests(pg)) - RequestWork(pg.locals[r].request) + RequestWork(pg'.locals[r].request)
  {
    assert Requests(pg') == Requests(pg)[r := RequestWork(pg'.locals[r].request)];
    SumUpdate(Requests(pg), r, RequestWork(pg'.locals[r].request));
  }

  /** A handler's stretch does work, and more of it when it sends a directive. */
  lemma HandlerWorks(pg: Page, mem: seq<int>, r: nat, a: Action)
    requires Coherent(pg, mem) && Next(ORDERLY, pg, a).Some?
    requires a == Begin(r) || (a.Advance? && pg.tx.client == r)
    ensures var pg' := Next(ORDERLY, pg, a).value;
            PageWork(pg') + (if Target(pg').Some? then 1 else 0) < PageWork(pg)
  {
    var pg' := Next(ORDERLY, pg, a).value;
    HandlerFootprint(pg, mem, r, a);
    RequestsUpdate(pg, pg', r);
  }

  lemma ObeyWorks(pg: Page, mem: seq<int>)
    requires Coherent(pg, mem) && Next(ORDERLY, pg, Handle).Some?
    ensures PageWork(Next(ORDERLY, pg, Handle).value) < PageWork(pg)
  {
    RequestsUpdate(pg, Next(ORDERLY, pg, Handle).value, 0);
  }

  lemma InstallWorks(pg: Page, mem: seq<int>, c: nat)
    requires Coherent(pg, mem) && Next(ORDERLY, pg, Install(c)).Some?
    ensures PageWork(Next(ORDERLY, pg, Install(c)).value) < PageWork(pg)
  {
    RequestsUpdate(pg, Next(ORDERLY, pg, Install(c)).value, c);
  }

  lemma PageWorksUpdate(s: Cluster, s': Cluster, p: nat, pg': Page)
    requires p < |s.pages| && s'.pages == s.pages[p := pg']
    ensures Sum(PageWorks(s')) == Sum(PageWorks(s)) - PageWork(s.pages[p]) + PageWork(pg')
  {
    assert PageWorks(s') == PageWorks(s)[p := PageWork(pg')];
    SumUpdate(PageWorks(s), p, PageWork(pg'));
  }

  lemma PortWorksUpdate(s: Cluster, s': Cluster, c: nat, port: seq<Msg>)
    requires c < |s.ports| && s'.ports == s.ports[c := port]
    ensures Sum(PortWorks(s')) == Sum(PortWorks(s)) - |s.ports[c]| + |port|
  {
    assert PortWorks(s') == PortWorks(s)[c := |port|];
    SumUpdate(PortWorks(s), c, |port|);
  }

  /** Every step of the system does work. */
  lemma SystemStepWorks(s: Cluster, mem: Memory, st: Step)
    requires ClusterCoherent(s, mem) && SystemStep(st) && Perform(ORDERLY, s, st).Some?
    ensures Work(Perform(ORDERLY, s, st).value) < Work(s)
  {
    var s' := Perform(ORDERLY, s, st).value;
    if st.Receive? {
      PortWorksUpdate(s, s', st.client, s.ports[st.client][1..]);
    } else {
      var (p, a) := PageStep(st).value;
      var pg, pg' := s.pages[p], Next(ORDERLY, s.pages[p], a).value;
      PageWorksUpdate(s, s', p, pg');
      if st.Serve? || st.Resume? {
        HandlerWorks(pg, mem[p], if st.Serve? then st.client else pg.tx.client, a);
        if Target(pg').Some? {
          var t := Target(pg').value;
          PortWorksUpdate(s, s', t, s.ports[t] + [Directive(p)]);
        }
      } else if st.Comply? {
        ObeyWorks(pg, mem[p]);
      } else {
        InstallWorks(pg, mem[p], st.client);
      }
    }
  }

  lemma ApplicationWorks(pg: Page, a: Action)
    requires WF(pg) && Next(ORDERLY, pg, a).Some? && (a.Raise? || a.Load? || a.Store?)
    ensures PageWork(Next(ORDERLY, pg, a).value) == PageWork(pg) + if a.Raise? then 16 else 0
  {
    RequestsUpdate(pg, Next(ORDERLY, pg, a).value, a.client);
  }

  /** A new fault makes work for at most seventeen steps, an access makes none. */
  lemma OtherStepWorks(s: Cluster, mem: Memory, st: Step)
    requires ClusterCoherent(s, mem) && !SystemStep(st) && Perform(ORDERLY, s, st).Some?
    ensures Work(Perform(ORDERLY, s, st).value) <= Work(s) + if st.Fault? then 17 else 0
  {
    var s' := Perform(ORDERLY, s, st).value;
    var (p, a) := PageStep(st).value;
    var pg, pg' := s.pages[p], Next(ORDERLY, s.pages[p], a).value;
    PageWorksUpdate(s, s', p, pg');
    ApplicationWorks(pg, a);
    hide Next;
    if st.Fault? && st.client != pg.owner {
      PortWorksUpdate(s, s', pg.owner, s.ports[pg.owner] + [FaultMsg(p, st.client)]);
    }
  }

  /** The steps of a run that are the system's own. */
  function SystemSteps(steps: seq<Step>): nat {
    if steps == [] then 0 else (if SystemStep(steps[0]) then 1 else 0) + SystemSteps(steps[1..])
  }

  /** Over any run, the system's own steps are paid for by the work there was and by the faults raised. */
  lemma {:induction false} FaultsPayForSteps(s: Cluster, mem: Memory, steps: seq<Step>)
    requires ClusterCoherent(s, mem) && Run(ORDERLY, s, steps).Some?
    ensures 0 <= Work(Run(ORDERLY, s, steps).value)
    ensures SystemSteps(steps) + Work(Run(ORDERLY, s, steps).value) <= Work(s) + 17 * FaultsRaised(steps)
    decreases |steps|
  {
    if steps == [] {
      WorkNonNegative(s, mem);
    } else {
      var st := steps[0];
      if SystemStep(st) {
        SystemStepWorks(s, mem, st);
      } else {
        OtherStepWorks(s, mem, st);
      }
      PerformRefines(s, mem, st);
      FaultsPayForSteps(Perform(ORDERLY, s, st).value, Replay(mem, EventOf(st)).value, steps[1..]);
    }
  }

  ghost predicate AllSystem(steps: seq<Step>) {
    forall i :: 0 <= i < |steps| ==> SystemStep(steps[i])
  }

  lemma {:induction false} AllSystemCount(steps: seq<Step>)
    requires AllSystem(steps)
    ensures SystemSteps(steps) == |steps| && FaultsRaised(steps) == 0
  {
    if steps == [] {
    } else {
      AllSystemCount(steps[1..]);
    }
  }

  /** However the system's steps are scheduled, there are at most Work(s) of them before a new fault must be raised. */
  lemma SystemRunsAreBounded(s: Cluster, mem: Memory, steps: seq<Step>)
    requires Orderly(s, mem) && AllSystem(steps) && Run(ORDERLY, s, steps).Some?
    ensures |steps| <= Work(s)
  {
    AllSystemCount(steps);
    FaultsPayForSteps(s, mem, steps);
  }

  ghost predicate NoFaults(s: Cluster)
    requires WFC(s)
  {
    forall c, p :: 0 <= c < |s.ports| && 0 <= p < |s.pages| ==> !Outstanding(s, c, p)
  }

  /**
   After any run, with fewer than 2 * NUM_RESPONDERS clients or a single page, the
   system's own steps, scheduled in any order at all, stop only when no fault is
   outstanding, and unless new faults are raised they do stop.
   */
  lemma SystemComesToRest(n: nat, mem0: Memory, before: seq<Step>, after: seq<Step>, s: Cluster, s': Cluster)
    requires n > 0 && Run(ORDERLY, Start(n, mem0), before) == Some(s)
    requires AllSystem(after) && Run(ORDERLY, s, after) == Some(s')
    requires n < 2 * NUM_RESPONDERS || |mem0| < 2
    ensures |after| <= Work(s)
    ensures !CanMove(s') ==> NoFaults(s')
  {
    StartIsOrderly(n, mem0);
    RunKeepsOrderly(Start(n, mem0), mem0, before);
    var mem := Replay(mem0, Trace(before)).value;
    SystemRunsAreBounded(s, mem, after);
    RunKeepsOrderly(s, mem, after);
    var mem' := Replay(mem, Trace(after)).value;
    forall c, p | 0 <= c < |s'.ports| && 0 <= p < |s'.pages| && Outstanding(s', c, p)
      ensures CanMove(s')
    {
      FaultsAreNeverStuck(s', mem', c, p);
    }
  }
}
