/** The central-server system admits exactly the traces of a flat memory. */
module CentralTraces {
  import opened Base
  import opened Paging
  import opened FlatMemory
  import opened CentralPage
  import opened CentralSafety
  import opened CentralCluster

  ghost predicate Leads(n: nat, pages: seq<Page>, steps: seq<Step>, pages': seq<Page>, trace: seq<Event>) {
    WFC(n, pages) && Run(ORDERLY, n, pages, steps) == Some(pages') && Trace(steps) == trace
  }

  lemma Compose(n: nat, a: seq<Page>, t: seq<Step>, b: seq<Page>, e: seq<Event>, u: seq<Step>, c: seq<Page>,
                e': seq<Event>)
    requires Leads(n, a, t, b, e) && Leads(n, b, u, c, e')
    ensures Leads(n, a, t + u, c, e + e')
    ensures FaultsRaised(t + u) == FaultsRaised(t) + FaultsRaised(u)
  {
    RunAppend(ORDERLY, n, a, t, u);
    TraceAppend(t, u);
    FaultsRaisedAppend(t, u);
  }

  lemma OneStep(n: nat, pages: seq<Page>, st: Step)
    requires WFC(n, pages) && Perform(ORDERLY, n, pages, st).Some?
    ensures Leads(n, pages, [st], Perform(ORDERLY, n, pages, st).value, EventOf(st))
    ensures FaultsRaised([st]) == if st.Fault? then 1 else 0
  {
    assert [st][0] == st && [st][1..] == [];
    assert Trace([st]) == EventOf(st) + Trace([]);
  }

  lemma {:induction false} FaultsRaisedAppend(t: seq<Step>, u: seq<Step>)
    ensures FaultsRaised(t + u) == FaultsRaised(t) + FaultsRaised(u)
  {
    if t == [] {
      assert t + u == u;
    } else {
      assert (t + u)[0] == t[0] && (t + u)[1..] == t[1..] + u;
      FaultsRaisedAppend(t[1..], u);
    }
  }

  /** Only client c has a fault on the page, not yet answered, and no directive is on its way. */
  ghost predicate Solo(pg: Page, c: nat, f: Paging.Fault)
    requires WF(pg)
  {
    && c < |pg.clients| && pg.clients[c].request == Waiting(f)
    && OthersQuiet(pg, c)
    && Target(pg).None?
    && (pg.tx.Idle? || pg.tx.client == c)
  }

  ghost predicate OthersQuiet(pg: Page, c: nat) {
    forall c' :: 0 <= c' < |pg.clients| && c' != c ==> pg.clients[c'].request.Quiet?
  }

  /** The fault has been answered with the access it asked for. */
  ghost predicate Answered(pg: Page, c: nat, f: Paging.Fault) {
    && c < |pg.clients| && pg.clients[c].request.Granted? && OthersQuiet(pg, c) && pg.tx.Idle?
    && (pg.clients[c].request.grant.ReadData? <==> f.ReadFault?)
  }

  function NextAction(pg: Page, c: nat): Action {
    if pg.tx.Idle? then Begin(c) else Advance
  }

  /** Readers still to be dealt with, and how far the server has got with the fault. */
  function Remaining(tx: Tx, queue: seq<nat>): nat {
    match tx
    case Idle => |queue| + 5
    case AskRead(_) => 3
    case GotRead(_, _) => 2
    case AskWrite(_, _) => 3
    case GotWrite(_, _) => 2
    case Drain(_, _) => |queue| + 1
    case AskInval(_, _, _) => |queue| + 2
  }

  /** The server runs to its next message for a lone fault, and a directive it sends can be obeyed at once. */
  lemma SoloServerRuns(pg: Page, mem: seq<int>, c: nat, f: Paging.Fault)
    requires Coherent(pg, mem) && Solo(pg, c, f)
    ensures var next := Next(ORDERLY, pg, NextAction(pg, c));
            && next.Some? && Coherent(next.value, mem)
            && if next.value.tx.Idle? then Answered(next.value, c, f)
               else
                 && next.value.tx.client == c && next.value.clients[c].request == Waiting(f)
                 && OthersQuiet(next.value, c)
                 && (Target(next.value).None? ==>
                       Remaining(next.value.tx, next.value.queue) < Remaining(pg.tx, pg.queue))
                 && (Target(next.value).Some? ==> Next(ORDERLY, next.value, Handle).Some?)
  {
    assert ClientOk(pg, c, mem);
    NextKeepsCoherent(pg, mem, NextAction(pg, c));
    var next := Next(ORDERLY, pg, NextAction(pg, c)).value;
    assert ClientOk(next, c, mem);
    if Target(next).Some? {
      assert ClientOk(next, Target(next).value, mem);
    }
  }

  lemma SoloDirectiveObeyed(pg: Page, mem: seq<int>, c: nat, f: Paging.Fault)
    requires Coherent(pg, mem) && Next(ORDERLY, pg, Handle).Some?
    requires c < |pg.clients| && pg.clients[c].request == Waiting(f) && pg.tx.client == c && OthersQuiet(pg, c)
    ensures var pg' := Next(ORDERLY, pg, Handle).value;
            && Coherent(pg', mem) && Solo(pg', c, f)
            && !pg'.tx.Idle? && Remaining(pg'.tx, pg'.queue) < Remaining(pg.tx, pg.queue)
  {
    NextKeepsCoherent(pg, mem, Handle);
  }

  /** The page once the server has run to its next message and any directive it sent has been obeyed. */
  function Stretch(pg: Page, c: nat): (pg': Page)
    requires WF(pg)
    ensures SameShape(pg, pg')
  {
    var next := Next(ORDERLY, pg, NextAction(pg, c));
    if next.None? then pg
    else
      match Next(ORDERLY, next.value, Handle)
      case None => next.value
      case Some(obeyed) => obeyed
  }

  lemma StretchIsCoherent(pg: Page, mem: seq<int>, c: nat, f: Paging.Fault)
    requires Coherent(pg, mem) && Solo(pg, c, f)
    ensures Coherent(Stretch(pg, c), mem)
    ensures if Stretch(pg, c).tx.Idle? then Answered(Stretch(pg, c), c, f)
            else Solo(Stretch(pg, c), c, f) &&
                 Remaining(Stretch(pg, c).tx, Stretch(pg, c).queue) < Remaining(pg.tx, pg.queue)
  {
    SoloServerRuns(pg, mem, c, f);
    var pg1 := Next(ORDERLY, pg, NextAction(pg, c)).value;
    if Target(pg1).Some? {
      SoloDirectiveObeyed(pg1, mem, c, f);
    }
  }

  /** The page when a lone fault has been served. */
  ghost function Served(pg: Page, mem: seq<int>, c: nat, f: Paging.Fault): (pg': Page)
    requires Coherent(pg, mem) && Solo(pg, c, f)
    ensures Coherent(pg', mem) && Answered(pg', c, f) && SameShape(pg, pg')
    decreases Remaining(pg.tx, pg.queue)
  {
    StretchIsCoherent(pg, mem, c, f);
    if Stretch(pg, c).tx.Idle? then Stretch(pg, c) else Served(Stretch(pg, c), mem, c, f)
  }

  /** All pages but p rest, so the server may serve p. */
  ghost predicate OthersIdle(pages: seq<Page>, p: nat) {
    forall q :: 0 <= q < |pages| && q != p ==>
      pages[q].tx.Idle? && forall c :: 0 <= c < |pages[q].clients| ==> pages[q].clients[c].late.None?
  }

  lemma NotLate(pg: Page, mem: seq<int>)
    requires Coherent(pg, mem)
    ensures forall c :: 0 <= c < |pg.clients| ==> pg.clients[c].late.None?
  {
    forall c | 0 <= c < |pg.clients| ensures pg.clients[c].late.None? {
      assert ClientOk(pg, c, mem);
    }
  }

  /** The server's port before it takes up the only fault there is, or while it serves it. */
  function Calling(pg: Page, c: nat, p: nat): seq<Call> {
    if pg.tx.Idle? then [Call(c, p)] else []
  }

  lemma StretchInOrder(pg: Page, c: nat, p: nat)
    ensures var st := ServerStep(pg, c, p);
            && Port(Calling(pg, c, p), [st]) == Some([])
            && Port(Calling(pg, c, p), [st] + [Comply(p)]) == Some([])
  {
    var st := ServerStep(pg, c, p);
    PortServed(c, p);
    PortOne(Calling(pg, c, p), st);
    PortAppend(Calling(pg, c, p), [st], [Comply(p)]);
    PortOne([], Comply(p));
  }

  function ServerStep(pg: Page, c: nat, p: nat): Step {
    if pg.tx.Idle? then Serve(c, p) else Resume(p)
  }

  lemma ServerRule(n: nat, pages: seq<Page>, p: nat, c: nat)
    requires WFC(n, pages) && p < |pages| && OthersIdle(pages, p)
    requires Next(ORDERLY, pages[p], NextAction(pages[p], c)).Some?
    ensures Leads(n, pages, [ServerStep(pages[p], c, p)],
                  pages[p := Next(ORDERLY, pages[p], NextAction(pages[p], c)).value], [])
    ensures FaultsRaised([ServerStep(pages[p], c, p)]) == 0
  {
    assert pages[p].tx.Idle? ==> ServerFree(pages);
    OneStep(n, pages, ServerStep(pages[p], c, p));
  }

  lemma StretchRule(n: nat, pages: seq<Page>, p: nat, mem: seq<int>, c: nat, f: Paging.Fault) returns (steps: seq<Step>)
    requires WFC(n, pages) && p < |pages| && OthersIdle(pages, p)
    requires Coherent(pages[p], mem) && Solo(pages[p], c, f)
    ensures Leads(n, pages, steps, pages[p := Stretch(pages[p], c)], []) && FaultsRaised(steps) == 0
    ensures Port(Calling(pages[p], c, p), steps) == Some([])
  {
    SoloServerRuns(pages[p], mem, c, f);
    var st, pg1 := ServerStep(pages[p], c, p), Next(ORDERLY, pages[p], NextAction(pages[p], c)).value;
    ServerRule(n, pages, p, c);
    NotLate(pg1, mem);
    StretchInOrder(pages[p], c, p);
    steps := [st];
    if Target(pg1).Some? {
      assert WFC(n, pages[p := pg1]) && ResponderFree(pages[p := pg1], Target(pg1).value);
      ObeyRule(n, pages[p := pg1], p);
      assert pages[p := pg1][p := Stretch(pages[p], c)] == pages[p := Stretch(pages[p], c)];
      hide Next, Coherent, Solo, Answered, Leads, Port, Calling, Stretch, ServerStep;
      Compose(n, pages, [st], pages[p := pg1], [], [Comply(p)], pages[p := Stretch(pages[p], c)], []);
      steps := [st] + [Comply(p)];
    }
  }

  lemma ObeyRule(n: nat, pages: seq<Page>, p: nat)
    requires WFC(n, pages) && p < |pages| && Next(ORDERLY, pages[p], Handle).Some?
    requires ResponderFree(pages, Target(pages[p]).value)
    ensures Leads(n, pages, [Comply(p)], pages[p := Next(ORDERLY, pages[p], Handle).value], [])
    ensures FaultsRaised([Comply(p)]) == 0
  {
    OneStep(n, pages, Comply(p));
  }

  lemma {:induction false} ServeLoneFault(n: nat, pages: seq<Page>, p: nat, mem: seq<int>, c: nat, f: Paging.Fault)
    returns (steps: seq<Step>)
    requires WFC(n, pages) && p < |pages| && OthersIdle(pages, p)
    requires Coherent(pages[p], mem) && Solo(pages[p], c, f)
    ensures Leads(n, pages, steps, pages[p := Served(pages[p], mem, c, f)], []) && FaultsRaised(steps) == 0
    ensures Port(Calling(pages[p], c, p), steps) == Some([])
    decreases Remaining(pages[p].tx, pages[p].queue)
  {
    StretchIsCoherent(pages[p], mem, c, f);
    steps := StretchRule(n, pages, p, mem, c, f);
    var pages1 := pages[p := Stretch(pages[p], c)];
    if !pages1[p].tx.Idle? {
      var pg' := Served(pages[p], mem, c, f);
      var rest := ServeLoneFault(n, pages1, p, mem, c, f);
      assert pages1[p := pg'] == pages[p := pg'];
      Compose(n, pages, steps, pages1, [], rest, pages[p := pg'], []);
      PortAppend(Calling(pages[p], c, p), steps, rest);
      steps := steps + rest;
    }
  }

  /** Nothing is going on, and every page is coherent with mem. */
  ghost predicate Calm(n: nat, pages: seq<Page>, mem: Memory) {
    && AllCoherent(n, pages, mem)
    && forall p :: 0 <= p < |pages| ==> pages[p].tx.Idle? && AllQuiet(pages[p])
  }

  ghost predicate AllQuiet(pg: Page) {
    forall c :: 0 <= c < |pg.clients| ==> pg.clients[c].request.Quiet?
  }

  predicate Permits(l: Client, e: Event) {
    if e.LoadEvent? then l.prot != PROT_NONE else l.prot == PROT_ALL
  }

  function FaultFor(e: Event): Paging.Fault {
    if e.LoadEvent? then ReadFault else WriteFault
  }

  function Raised(pg: Page, c: nat, f: Paging.Fault): (pg': Page)
    requires WF(pg) && c < |pg.clients|
    ensures SameShape(pg, pg')
  {
    Put(pg, c, pg.clients[c].(request := Waiting(f)))
  }

  lemma RaisedIsSolo(pg: Page, mem: seq<int>, c: nat, f: Paging.Fault)
    requires Coherent(pg, mem) && pg.tx.Idle? && AllQuiet(pg) && c < |pg.clients|
    requires if f.ReadFault? then pg.clients[c].prot == PROT_NONE else pg.clients[c].prot != PROT_ALL
    ensures Next(ORDERLY, pg, Raise(c, f)) == Some(Raised(pg, c, f))
    ensures Coherent(Raised(pg, c, f), mem) && Solo(Raised(pg, c, f), c, f)
  {
    NextKeepsCoherent(pg, mem, Raise(c, f));
  }

  lemma SettleAnswer(n: nat, pages: seq<Page>, p: nat, mem: seq<int>, c: nat, f: Paging.Fault) returns (pg': Page)
    requires WFC(n, pages) && p < |pages| && Coherent(pages[p], mem) && Answered(pages[p], c, f)
    ensures Leads(n, pages, [Settle(c, p)], pages[p := pg'], []) && FaultsRaised([Settle(c, p)]) == 0
    ensures Coherent(pg', mem) && pg'.tx.Idle? && AllQuiet(pg') && SameShape(pages[p], pg')
    ensures if f.ReadFault? then pg'.clients[c].prot != PROT_NONE else pg'.clients[c].prot == PROT_ALL
  {
    NextKeepsCoherent(pages[p], mem, Install(c));
    OneStep(n, pages, Settle(c, p));
    pg' := Next(ORDERLY, pages[p], Install(c)).value;
  }

  lemma OthersAreIdle(n: nat, pages: seq<Page>, mem: Memory, p: nat)
    requires Calm(n, pages, mem) && p < |pages|
    ensures OthersIdle(pages, p)
  {
    forall q | 0 <= q < |pages| && q != p
      ensures pages[q].tx.Idle? && forall c :: 0 <= c < |pages[q].clients| ==> pages[q].clients[c].late.None?
    {
      NotLate(pages[q], mem[q]);
    }
  }

  lemma FaultRule(n: nat, pages: seq<Page>, mem: Memory, p: nat, c: nat, f: Paging.Fault)
    requires Calm(n, pages, mem) && p < |pages| && c < n
    requires if f.ReadFault? then pages[p].clients[c].prot == PROT_NONE else pages[p].clients[c].prot != PROT_ALL
    ensures WF(pages[p]) && |pages[p].clients| == n
    ensures var pages1 := pages[p := Raised(pages[p], c, f)];
            && Leads(n, pages, [Fault(c, p, f)], pages1, []) && FaultsRaised([Fault(c, p, f)]) == 1
            && WFC(n, pages1) && OthersIdle(pages1, p) && pages1[p].tx.Idle?
            && Coherent(pages1[p], mem[p]) && Solo(pages1[p], c, f)
  {
    RaisedIsSolo(pages[p], mem[p], c, f);
    OthersAreIdle(n, pages, mem, p);
    hide Coherent, Solo;
    OneStep(n, pages, Fault(c, p, f));
  }

  /** A fault raised while nothing is going on, up to its answer. */
  lemma RaiseAndServe(n: nat, pages: seq<Page>, mem: Memory, p: nat, c: nat, f: Paging.Fault)
    returns (steps: seq<Step>, pg': Page)
    requires Calm(n, pages, mem) && p < |pages| && c < n
    requires if f.ReadFault? then pages[p].clients[c].prot == PROT_NONE else pages[p].clients[c].prot != PROT_ALL
    ensures Leads(n, pages, steps, pages[p := pg'], []) && FaultsRaised(steps) == 1 && Port([], steps) == Some([])
    ensures Coherent(pg', mem[p]) && Answered(pg', c, f) && SameShape(pages[p], pg')
  {
    FaultRule(n, pages, mem, p, c, f);
    hide Leads, Coherent, Calm, Solo, Answered, Next, Perform, WFC, OthersIdle;
    var pages1 := pages[p := Raised(pages[p], c, f)];
    pg' := Served(pages1[p], mem[p], c, f);
    var t := ServeLoneFault(n, pages1, p, mem[p], c, f);
    assert pages1[p := pg'] == pages[p := pg'];
    Compose(n, pages, [Fault(c, p, f)], pages1, [], t, pages[p := pg'], []);
    CalledInOrder(c, p, f, t);
    steps := [Fault(c, p, f)] + t;
  }

  /** A client without the access an event needs gets it with one fault. */
  lemma ObtainAccess(n: nat, pages: seq<Page>, mem: Memory, e: Event) returns (steps: seq<Step>, pages': seq<Page>)
    requires Calm(n, pages, mem) && InRange(mem, e) && e.client < n && !Permits(pages[e.page].clients[e.client], e)
    ensures Leads(n, pages, steps, pages', []) && FaultsRaised(steps) == 1 && Port([], steps) == Some([])
    ensures Calm(n, pages', mem) && Permits(pages'[e.page].clients[e.client], e)
  {
    var p, c, f := e.page, e.client, FaultFor(e);
    var t, pg2 := RaiseAndServe(n, pages, mem, p, c, f);
    var pg3 := SettleAnswer(n, pages[p := pg2], p, mem[p], c, f);
    pages' := pages[p := pg3];
    assert pages[p := pg2][p := pg3] == pages';
    Compose(n, pages, t, pages[p := pg2], [], [Settle(c, p)], pages', []);
    PortAppend([], t, [Settle(c, p)]);
    PortOne([], Settle(c, p));
    steps := t + [Settle(c, p)];
  }

  lemma CalledInOrder(c: nat, p: nat, f: Paging.Fault, t: seq<Step>)
    requires Port([Call(c, p)], t) == Some([])
    ensures Port([], [Fault(c, p, f)] + t) == Some([])
  {
    PortOne([], Fault(c, p, f));
    assert [] + [Call(c, p)] == [Call(c, p)];
    PortAppend([], [Fault(c, p, f)], t);
  }

  function StepFor(e: Event): Step {
    if e.LoadEvent? then Read(e.client, e.page, e.offset, e.value) else Write(e.client, e.page, e.offset, e.value)
  }

  lemma TouchPermitted(n: nat, pages: seq<Page>, mem: Memory, e: Event) returns (pages': seq<Page>)
    requires Calm(n, pages, mem) && Access(mem, e).Some? && e.client < n && Permits(pages[e.page].clients[e.client], e)
    ensures Leads(n, pages, [StepFor(e)], pages', [e]) && FaultsRaised([StepFor(e)]) == 0
    ensures Port([], [StepFor(e)]) == Some([])
    ensures Calm(n, pages', Access(mem, e).value)
  {
    var p, st := e.page, StepFor(e);
    assert ClientOk(pages[p], e.client, mem[p]);
    NextKeepsCoherent(pages[p], mem[p], ActionOf(st));
    OneStep(n, pages, st);
    PortOne([], st);
    pages' := Perform(ORDERLY, n, pages, st).value;
  }

  lemma RealiseEvent(n: nat, pages: seq<Page>, mem: Memory, e: Event) returns (steps: seq<Step>, pages': seq<Page>)
    requires Calm(n, pages, mem) && Access(mem, e).Some? && e.client < n
    ensures Leads(n, pages, steps, pages', [e]) && FaultsRaised(steps) <= 1 && Port([], steps) == Some([])
    ensures Calm(n, pages', Access(mem, e).value)
  {
    if Permits(pages[e.page].clients[e.client], e) {
      pages' := TouchPermitted(n, pages, mem, e);
      steps := [StepFor(e)];
    } else {
      var t, calm := ObtainAccess(n, pages, mem, e);
      pages' := TouchPermitted(n, calm, mem, e);
      Compose(n, pages, t, calm, [], [StepFor(e)], pages', [e]);
      assert [] + [e] == [e];
      PortAppend([], t, [StepFor(e)]);
      steps := t + [StepFor(e)];
    }
  }

  lemma {:induction false} RealiseTrace(n: nat, pages: seq<Page>, mem: Memory, trace: seq<Event>)
    returns (steps: seq<Step>, pages': seq<Page>)
    requires Calm(n, pages, mem) && Legal(n, mem, trace)
    ensures Leads(n, pages, steps, pages', trace) && FaultsRaised(steps) <= |trace| && Port([], steps) == Some([])
    decreases |trace|
  {
    if trace == [] {
      steps, pages' := [], pages;
    } else {
      var t, mid := RealiseEvent(n, pages, mem, trace[0]);
      var u;
      u, pages' := RealiseTrace(n, mid, Access(mem, trace[0]).value, trace[1..]);
      Compose(n, pages, t, mid, [trace[0]], u, pages', trace[1..]);
      assert [trace[0]] + trace[1..] == trace;
      PortAppend([], t, u);
      steps := t + u;
    }
  }

  /** Some run of the central-server system of n clients performs exactly the accesses of the trace. */
  ghost predicate Admits(n: nat, mem: Memory, trace: seq<Event>) {
    exists steps :: Run(ORDERLY, n, Start(n, mem), steps).Some? && InOrder(steps) && Trace(steps) == trace
  }

  /** Every legal trace is performed by some run that raises at most one fault for each access. */
  lemma LegalTraceIsRealised(n: nat, mem: Memory, trace: seq<Event>) returns (steps: seq<Step>)
    requires Legal(n, mem, trace)
    ensures Run(ORDERLY, n, Start(n, mem), steps).Some? && InOrder(steps) && Trace(steps) == trace
    ensures FaultsRaised(steps) <= |trace|
  {
    StartIsCoherent(n, mem);
    var pages';
    steps, pages' := RealiseTrace(n, Start(n, mem), mem, trace);
  }

  /** The traces of the central-server system are exactly those of a flat memory. */
  lemma CentralAdmitsExactlyLegalTraces(n: nat, mem: Memory, trace: seq<Event>)
    ensures Admits(n, mem, trace) <==> Legal(n, mem, trace)
  {
    if Admits(n, mem, trace) {
      var steps :| Run(ORDERLY, n, Start(n, mem), steps).Some? && Trace(steps) == trace;
      StartIsCoherent(n, mem);
      RunRefinesFlatMemory(n, Start(n, mem), mem, steps);
    }
    if Legal(n, mem, trace) {
      var steps := LegalTraceIsRealised(n, mem, trace);
    }
  }
}
