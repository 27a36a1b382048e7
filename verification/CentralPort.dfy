/**
 The server's port makes the central system fair: a fault is served after at most one
 fault of each other client, and after a bounded number of the system's steps.
 */
module CentralPort {
  import opened Base
  import opened FlatMemory
  import opened CentralPage
  import opened CentralSafety
  import opened CentralCluster
  import opened CentralQuiescence

  predicate IsWaiting(pages: seq<Page>, c: nat, p: nat) {
    p < |pages| && c < |pages[p].clients| && pages[p].clients[c].request.Waiting?
  }

  /** One and the same fault of client c on page p waits in every state of the run. */
  ghost predicate WaitsThroughout(n: nat, pages: seq<Page>, steps: seq<Step>, c: nat, p: nat)
    requires WFC(n, pages)
    decreases |steps|
  {
    && IsWaiting(pages, c, p)
    && (steps != [] ==>
          && Perform(ORDERLY, n, pages, steps[0]).Some?
          && WaitsThroughout(n, Perform(ORDERLY, n, pages, steps[0]).value, steps[1..], c, p))
  }

  /** The server is serving client c's fault. */
  predicate InService(pg: Page, c: nat) {
    !pg.tx.Idle? && pg.tx.client == c
  }

  /** Client c's fault has not yet been taken from the port. */
  predicate Unserved(pg: Page, c: nat) {
    c < |pg.clients| && pg.clients[c].request.Waiting? && !InService(pg, c)
  }

  /** The port holds exactly the faults not yet taken up, each once. */
  ghost predicate PortExact(pages: seq<Page>, port: seq<Call>) {
    && Distinct(port)
    && forall c: nat, p: nat :: Call(c, p) in port <==> p < |pages| && Unserved(pages[p], c)
  }

  predicate Outstanding(pages: seq<Page>, c: nat, p: nat) {
    p < |pages| && c < |pages[p].clients| && !pages[p].clients[c].request.Quiet?
  }

  ghost predicate OneFaultEach(pages: seq<Page>) {
    forall c, p, q :: Outstanding(pages, c, p) && Outstanding(pages, c, q) ==> p == q
  }

  ghost predicate Fair(n: nat, pages: seq<Page>, mem: Memory, port: seq<Call>) {
    AllCoherent(n, pages, mem) && OneAtATime(pages) && PortExact(pages, port) && OneFaultEach(pages)
  }

  lemma StartIsFair(n: nat, mem: Memory)
    ensures Fair(n, Start(n, mem), mem, [])
  {
    StartIsCoherent(n, mem);
    assert forall p: nat, c: nat :: p < |mem| ==> !Unserved(Start(n, mem)[p], c);
  }

  /** What an action does to the faults waiting to be taken up, and to those outstanding. */
  lemma ActionCalls(pg: Page, mem: seq<int>, a: Action, c: nat)
    requires Coherent(pg, mem) && Next(ORDERLY, pg, a).Some?
    ensures Unserved(Next(ORDERLY, pg, a).value, c) ==
            match a
            case Raise(r, _) => Unserved(pg, c) || c == r
            case Begin(r) => Unserved(pg, c) && c != r
            case _ => Unserved(pg, c)
    ensures c < |pg.clients| && !Next(ORDERLY, pg, a).value.clients[c].request.Quiet?
            ==> !pg.clients[c].request.Quiet? || (a.Raise? && a.client == c)
  {
    if c < |pg.clients| {
      assert ClientOk(pg, c, mem);
    }
  }

  lemma PerformKeepsPort(n: nat, pages: seq<Page>, mem: Memory, port: seq<Call>, st: Step)
    requires Fair(n, pages, mem, port) && Perform(ORDERLY, n, pages, st).Some? && PortAfter(port, st).Some?
    ensures PortExact(Perform(ORDERLY, n, pages, st).value, PortAfter(port, st).value)
  {
    var pages', port' := Perform(ORDERLY, n, pages, st).value, PortAfter(port, st).value;
    var q, a := st.page, ActionOf(st);
    assert Coherent(pages[q], mem[q]);
    if st.Fault? {
      assert Call(st.client, q) !in port;
      DistinctAppend(port, Call(st.client, q));
    }
    forall c: nat, p: nat ensures Call(c, p) in port' <==> p < |pages'| && Unserved(pages'[p], c) {
      ActionCalls(pages[q], mem[q], a, c);
      assert Call(c, p) in port <==> p < |pages| && Unserved(pages[p], c);
      if st.Serve? {
        assert port == [port[0]] + port[1..];
      }
    }
  }

  lemma PerformKeepsOneFault(n: nat, pages: seq<Page>, mem: Memory, st: Step)
    requires AllCoherent(n, pages, mem) && OneFaultEach(pages) && Perform(ORDERLY, n, pages, st).Some?
    ensures OneFaultEach(Perform(ORDERLY, n, pages, st).value)
  {
    var pages', q := Perform(ORDERLY, n, pages, st).value, st.page;
    forall c, p | Outstanding(pages', c, p)
      ensures Outstanding(pages, c, p) || (st.Fault? && c == st.client && p == q)
    {
      assert Coherent(pages[q], mem[q]);
      ActionCalls(pages[q], mem[q], ActionOf(st), c);
    }
    forall c, p | Outstanding(pages, c, p) && st.Fault? ensures c != st.client {
    }
  }

  lemma PerformKeepsFair(n: nat, pages: seq<Page>, mem: Memory, port: seq<Call>, st: Step)
    requires Fair(n, pages, mem, port) && Perform(ORDERLY, n, pages, st).Some? && PortAfter(port, st).Some?
    ensures Replay(mem, EventOf(st)).Some?
    ensures Fair(n, Perform(ORDERLY, n, pages, st).value, Replay(mem, EventOf(st)).value, PortAfter(port, st).value)
  {
    PerformRefines(n, pages, mem, st);
    PerformKeepsPort(n, pages, mem, port, st);
    PerformKeepsOneFault(n, pages, mem, st);
  }

  lemma {:induction false} RunKeepsFair(n: nat, pages: seq<Page>, mem: Memory, port: seq<Call>, steps: seq<Step>)
    requires Fair(n, pages, mem, port) && Run(ORDERLY, n, pages, steps).Some? && Port(port, steps).Some?
    ensures Replay(mem, Trace(steps)).Some?
    ensures Fair(n, Run(ORDERLY, n, pages, steps).value, Replay(mem, Trace(steps)).value, Port(port, steps).value)
    decreases |steps|
  {
    if steps == [] {
    } else {
      var st := steps[0];
      PerformKeepsFair(n, pages, mem, port, st);
      var mem' := Replay(mem, EventOf(st)).value;
      RunKeepsFair(n, Perform(ORDERLY, n, pages, st).value, mem', PortAfter(port, st).value, steps[1..]);
      ReplayAppend(mem, EventOf(st), Trace(steps[1..]));
    }
  }

  // ---------- places in the port ----------

  /** How many calls are ahead of k, and how many behind; none is ahead of a fault in service. */
  function Ahead(port: seq<Call>, k: Call): nat {
    if k !in port || port[0] == k then 0 else 1 + Ahead(port[1..], k)
  }

  function Behind(port: seq<Call>, k: Call): (b: nat)
    ensures b == |port| - if k in port then Ahead(port, k) + 1 else 0
  {
    if k !in port then |port| else if port[0] == k then |port| - 1 else Behind(port[1..], k)
  }

  lemma {:induction false} JoiningIsBehind(port: seq<Call>, k: Call, x: Call)
    requires k != x
    ensures Ahead(port + [x], k) == Ahead(port, k) && Behind(port + [x], k) == Behind(port, k) + 1
  {
    if port == [] {
      assert port + [x] == [x];
    } else {
      assert (port + [x])[1..] == port[1..] + [x];
      JoiningIsBehind(port[1..], k, x);
    }
  }

  lemma LeavingIsAhead(port: seq<Call>, k: Call)
    requires port != [] && Distinct(port) && (k in port || port[0] == k)
    ensures Behind(port[1..], k) == Behind(port, k)
    ensures port[0] != k ==> k in port[1..] && Ahead(port[1..], k) == Ahead(port, k) - 1
    ensures port[0] == k ==> k !in port[1..] && Ahead(port[1..], k) == 0 == Ahead(port, k)
  {
    assert port[0] !in port[1..];
  }

  /** The clients whose calls are in the port. */
  function Callers(port: seq<Call>): set<nat> {
    set k | k in port :: k.client
  }

  lemma {:induction false} CallersSize(n: nat, pages: seq<Page>, port: seq<Call>)
    requires WFC(n, pages) && OneFaultEach(pages) && Distinct(port)
    requires forall k :: k in port ==> k.page < |pages| && Unserved(pages[k.page], k.client)
    ensures |Callers(port)| == |port|
    ensures forall c :: c in Callers(port) ==> c < n
    decreases |port|
  {
    if port == [] {
      assert Callers(port) == {};
    } else {
      CallersSize(n, pages, port[1..]);
      assert port[0] !in port[1..];
      forall k | k in port[1..] ensures k.client != port[0].client {
        assert Outstanding(pages, k.client, k.page) && Outstanding(pages, port[0].client, port[0].page);
      }
      assert Callers(port) == Callers(port[1..]) + {port[0].client};
    }
  }

  /** No more calls are ahead of a waiting fault, or behind it, than there are other clients. */
  lemma FewInPort(n: nat, pages: seq<Page>, mem: Memory, port: seq<Call>, c: nat, p: nat)
    requires Fair(n, pages, mem, port) && IsWaiting(pages, c, p)
    ensures Ahead(port, Call(c, p)) + Behind(port, Call(c, p)) <= n - 1
  {
    forall k | k in port ensures k.page < |pages| && Unserved(pages[k.page], k.client) {
      assert Call(k.client, k.page) in port;
    }
    CallersSize(n, pages, port);
    if Call(c, p) in port {
      BoundedSetSize(Callers(port), n);
    } else {
      forall k | k in port ensures k.client != c {
        assert Outstanding(pages, c, p) && (k.client == c ==> Outstanding(pages, c, k.page));
      }
      BoundedSetSize(Callers(port) + {c}, n);
    }
  }

  // ---------- fairness ----------

  /** Faults other than c's on p that a run takes up. */
  function OthersServed(steps: seq<Step>, c: nat, p: nat): nat {
    if steps == [] then 0
    else (if steps[0].Serve? && steps[0] != Serve(c, p) then 1 else 0) + OthersServed(steps[1..], c, p)
  }

  lemma StepIsFair(n: nat, pages: seq<Page>, mem: Memory, port: seq<Call>, st: Step, c: nat, p: nat)
    requires Fair(n, pages, mem, port) && Perform(ORDERLY, n, pages, st).Some? && PortAfter(port, st).Some?
    requires IsWaiting(pages, c, p)
    ensures var port', k := PortAfter(port, st).value, Call(c, p);
            && Ahead(port', k) == Ahead(port, k) - (if st.Serve? && st != Serve(c, p) then 1 else 0)
            && Behind(port', k) == Behind(port, k) + if st.Fault? then 1 else 0
  {
    var k := Call(c, p);
    if st.Fault? {
      assert Outstanding(pages, c, p);
      JoiningIsBehind(port, k, Call(st.client, st.page));
    } else if st.Serve? {
      assert k in port <==> Unserved(pages[p], c);
      LeavingIsAhead(port, k);
    }
  }

  lemma {:induction false} RunIsFair(n: nat, pages: seq<Page>, mem: Memory, port: seq<Call>, steps: seq<Step>,
                                     c: nat, p: nat)
    requires Fair(n, pages, mem, port) && WaitsThroughout(n, pages, steps, c, p) && Port(port, steps).Some?
    ensures OthersServed(steps, c, p) + Ahead(Port(port, steps).value, Call(c, p)) == Ahead(port, Call(c, p)) <= n - 1
    ensures FaultsRaised(steps) + Behind(port, Call(c, p)) == Behind(Port(port, steps).value, Call(c, p)) <= n - 1
    ensures Run(ORDERLY, n, pages, steps).Some?
    decreases |steps|
  {
    FewInPort(n, pages, mem, port, c, p);
    if steps == [] {
      assert Port(port, steps) == Some(port);
    } else {
      var st := steps[0];
      StepIsFair(n, pages, mem, port, st, c, p);
      PerformKeepsFair(n, pages, mem, port, st);
      RunIsFair(n, Perform(ORDERLY, n, pages, st).value, Replay(mem, EventOf(st)).value, PortAfter(port, st).value,
                steps[1..], c, p);
    }
  }

  /** In order, too, the system can always go on while a fault is outstanding. */
  lemma NextInOrder(n: nat, pages: seq<Page>, mem: Memory, port: seq<Call>, c: nat, p: nat) returns (st: Step)
    requires Fair(n, pages, mem, port) && Outstanding(pages, c, p)
    ensures SystemStep(st) && Perform(ORDERLY, n, pages, st).Some? && PortAfter(port, st).Some?
  {
    if pages[p].clients[c].request.Granted? {
      st := Settle(c, p);
    } else if ServerFree(pages) {
      assert Call(c, p) in port;
      var k := port[0];
      assert Call(k.client, k.page) in port;
      st := Serve(k.client, k.page);
    } else {
      var q :| 0 <= q < |pages| && !pages[q].tx.Idle?;
      st := ServerStep(n, pages, mem, q);
    }
  }

  /**
   Every fault is served, whatever the schedule.  While one waits, after any run
   that serves faults in the order of the port: at most n - 1 others are taken
   up before it and at most n - 1 new ones are raised, so that the system takes
   only boundedly many steps; and it can always take one.
   */
  lemma EveryFaultIsServed(n: nat, mem0: Memory, before: seq<Step>, pages: seq<Page>, after: seq<Step>, c: nat, p: nat)
    returns (st: Step)
    requires Run(ORDERLY, n, Start(n, mem0), before) == Some(pages) && WFC(n, pages)
    requires WaitsThroughout(n, pages, after, c, p) && InOrder(before + after)
    ensures OthersServed(after, c, p) <= n - 1 && FaultsRaised(after) <= n - 1
    ensures SystemSteps(after) <= Work(pages) + 16 * (n - 1)
    ensures SystemStep(st) && InOrder(before + after + [st])
    ensures Run(ORDERLY, n, pages, after).Some?
    ensures Perform(ORDERLY, n, Run(ORDERLY, n, pages, after).value, st).Some?
  {
    StartIsFair(n, mem0);
    PortAppend([], before, after);
    var port := Port([], before).value;
    RunKeepsFair(n, Start(n, mem0), mem0, [], before);
    var mem := Replay(mem0, Trace(before)).value;
    RunIsFair(n, pages, mem, port, after, c, p);
    FaultsPayForSteps(n, pages, mem, after);
    RunKeepsFair(n, pages, mem, port, after);
    WaitsAtTheEnd(n, pages, after, c, p);
    var port' := Port(port, after).value;
    st := NextInOrder(n, Run(ORDERLY, n, pages, after).value, Replay(mem, Trace(after)).value, port', c, p);
    PortAppend([], before + after, [st]);
    PortOne(port', st);
  }

  lemma {:induction false} WaitsAtTheEnd(n: nat, pages: seq<Page>, steps: seq<Step>, c: nat, p: nat)
    requires WFC(n, pages) && WaitsThroughout(n, pages, steps, c, p) && Run(ORDERLY, n, pages, steps).Some?
    ensures IsWaiting(Run(ORDERLY, n, pages, steps).value, c, p)
    decreases |steps|
  {
    if steps == [] {
    } else {
      WaitsAtTheEnd(n, Perform(ORDERLY, n, pages, steps[0]).value, steps[1..], c, p);
    }
  }
}
