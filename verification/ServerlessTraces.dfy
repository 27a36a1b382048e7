/**
 The serverless system admits exactly the traces of a flat memory: coherence
 gives one direction, and serving the faults of a legal trace one at a time
 gives the other.
 */
module ServerlessTraces {
  import opened Base
  import opened FlatMemory
  import opened Paging
  import opened ServerlessPage
  import opened ServerlessSafety
  import opened ServerlessCluster
  import opened ServerlessSchedule
  import opened Responders
  import opened Quiescence

  /** Only client c has a fault on the page, not yet answered, and no directive is on its way. */
  ghost predicate Solo(pg: Page, c: nat, f: Paging.Fault)
    requires WF(pg)
  {
    && c < |pg.locals| && pg.locals[c].request == Waiting(f)
    && (forall c' :: 0 <= c' < |pg.locals| && c' != c ==> pg.locals[c'].request.Quiet?)
    && Target(pg).None?
    && (pg.tx.Idle? || (!pg.tx.Crashed? && pg.tx.client == c))
  }

  /** The fault has been answered with the access it asked for. */
  ghost predicate Answered(pg: Page, c: nat, f: Paging.Fault)
    requires WF(pg)
  {
    && c < |pg.locals| && !pg.locals[c].request.Waiting?
    && (forall c' :: 0 <= c' < |pg.locals| && c' != c ==> pg.locals[c'].request.Quiet?)
    && pg.tx.Idle?
    && LevelOf(pg.locals[c]) == (if f.ReadFault? then LRead else LWrite)
    && (f.ReadFault? && pg.locals[c].request.Granted? ==> pg.locals[c].request.grant.ReadData?)
  }

  function NextAction(pg: Page, c: nat): Action {
    if pg.tx.Idle? then Begin(c) else Advance
  }

  lemma SoloActionEnabled(pg: Page, mem: seq<int>, c: nat, f: Paging.Fault)
    requires Coherent(pg, mem) && Solo(pg, c, f)
    ensures Next(ORDERLY, pg, NextAction(pg, c)).Some?
  {
  }

  /** The handler of a lone fault can run to its next message, and a directive it sends can be obeyed at once. */
  lemma SoloHandlerRuns(pg: Page, mem: seq<int>, c: nat, f: Paging.Fault)
    requires Coherent(pg, mem) && Solo(pg, c, f)
    ensures var next := Next(ORDERLY, pg, NextAction(pg, c));
            && next.Some? && Coherent(next.value, mem)
            && if next.value.tx.Idle? then Answered(next.value, c, f)
               else if Target(next.value).None? then Solo(next.value, c, f)
               else Next(ORDERLY, next.value, Handle).Some?
  {
    SoloActionEnabled(pg, mem, c, f);
    var next := Next(ORDERLY, pg, NextAction(pg, c)).value;
    NextKeepsCoherent(pg, mem, NextAction(pg, c));
    HandlerFootprint(pg, mem, c, NextAction(pg, c));
    if Target(next).Some? {
      TargetIsNotRequester(next, mem);
    } else if next.tx.Idle? {
      AnswerFits(pg, mem, c, f);
    }
    hide Coherent, BeginRead, BeginWrite, Proceed;
  }

  /** What an answer gives is what the fault asked for. */
  lemma AnswerFits(pg: Page, mem: seq<int>, c: nat, f: Paging.Fault)
    requires Coherent(pg, mem) && Solo(pg, c, f) && Next(ORDERLY, pg, NextAction(pg, c)).Some?
    requires Next(ORDERLY, pg, NextAction(pg, c)).value.tx.Idle?
    ensures var l := Next(ORDERLY, pg, NextAction(pg, c)).value.locals[c];
            && LevelOf(l) == (if f.ReadFault? then LRead else LWrite)
            && (f.ReadFault? && l.request.Granted? ==> l.request.grant.ReadData?)
  {
    assert LocalOk(pg, c, mem) && LocalOk(pg, pg.owner, mem);
    if pg.tx.Idle? {
      assert f.ReadFault? || f.WriteFault?;
    }
  }

  lemma TargetIsNotRequester(pg: Page, mem: seq<int>)
    requires Coherent(pg, mem) && Target(pg).Some?
    ensures Target(pg).value != pg.tx.client
  {
    assert LocalOk(pg, pg.tx.client, mem) && LocalOk(pg, Target(pg).value, mem);
  }

  lemma SoloDirectiveObeyed(pg: Page, mem: seq<int>, c: nat, f: Paging.Fault)
    requires Coherent(pg, mem) && Next(ORDERLY, pg, Handle).Some?
    requires c < |pg.locals| && pg.locals[c].request == Waiting(f) && pg.tx.client == c
    requires forall c' :: 0 <= c' < |pg.locals| && c' != c ==> pg.locals[c'].request.Quiet?
    ensures Coherent(Next(ORDERLY, pg, Handle).value, mem)
    ensures Solo(Next(ORDERLY, pg, Handle).value, c, f)
  {
    NextKeepsCoherent(pg, mem, Handle);
  }

  /** The page once a lone handler has run to its next message and any directive it sent has been obeyed. */
  function Stretch(pg: Page, c: nat): (pg': Page)
    requires WF(pg)
    ensures SameShape(pg, pg')
  {
    var next := Next(ORDERLY, pg, NextAction(pg, c));
    if next.None? then pg
    else
      match Next(ORDERLY, next.value, Handle)
      case None => next.value
      case Some(obeyed) => obeyed
  }

  lemma StretchIsCoherent(pg: Page, mem: seq<int>, c: nat, f: Paging.Fault)
    requires Coherent(pg, mem) && Solo(pg, c, f)
    ensures Coherent(Stretch(pg, c), mem)
    ensures if Stretch(pg, c).tx.Idle? then Answered(Stretch(pg, c), c, f) else Solo(Stretch(pg, c), c, f)
    ensures 0 <= PageWork(Stretch(pg, c)) < PageWork(pg)
  {
    SoloHandlerRuns(pg, mem, c, f);
    HandlerWorks(pg, mem, c, NextAction(pg, c));
    HandlerFootprint(pg, mem, c, NextAction(pg, c));
    var pg1 := Next(ORDERLY, pg, NextAction(pg, c)).value;
    if Target(pg1).Some? {
      SoloDirectiveObeyed(pg1, mem, c, f);
      ObeyWorks(pg1, mem);
    }
    PageWorkNonNegative(Stretch(pg, c), mem);
  }

  /** The page when a lone fault has been served. */
  ghost function Served(pg: Page, mem: seq<int>, c: nat, f: Paging.Fault): (pg': Page)
    requires Coherent(pg, mem) && Solo(pg, c, f)
    ensures Coherent(pg', mem) && Answered(pg', c, f) && SameShape(pg, pg')
    decreases PageWork(pg)
  {
    StretchIsCoherent(pg, mem, c, f);
    if Stretch(pg, c).tx.Idle? then Stretch(pg, c) else Served(Stretch(pg, c), mem, c, f)
  }

  /** The cluster steps of one stretch. */
  lemma StretchRule(n: nat, pages: seq<Page>, p: nat, mem: seq<int>, c: nat, f: Paging.Fault)
    returns (steps: seq<Step>)
    requires Pages(n, pages) && p < |pages| && Coherent(pages[p], mem) && Solo(pages[p], c, f)
    ensures var pg', held := Stretch(pages[p], c), Holding(pages[p], p, c);
            Leads(ORDERLY, Staged(n, pages, held), steps,
                  Staged(n, pages[p := pg'], if pg'.tx.Idle? then None else held), [])
    ensures FaultsRaised(steps) == 0
  {
    var a := NextAction(pages[p], c);
    SoloHandlerRuns(pages[p], mem, c, f);
    HandlerFootprint(pages[p], mem, c, a);
    var pg1 := Next(ORDERLY, pages[p], a).value;
    assert c < n && (a.Advance? ==> !pages[p].tx.Idle? && !pages[p].tx.Crashed? && pages[p].tx.client == c);
    assert Target(pg1).None? ==> Next(ORDERLY, pg1, Handle).None?;
    hide Next, Coherent, Solo, Answered, Leads;
    if Target(pg1).None? {
      HandlerRule(ORDERLY, n, pages, p, c, a);
      steps := [HandlerStep(p, c, a)];
    } else {
      steps := DirectiveRule(ORDERLY, n, pages, p, c, a);
    }
  }

  /** A lone fault is served to the end. */
  lemma {:induction false} ServeLoneFault(n: nat, pages: seq<Page>, p: nat, mem: seq<int>, c: nat, f: Paging.Fault)
    returns (steps: seq<Step>)
    requires Pages(n, pages) && p < |pages| && Coherent(pages[p], mem) && Solo(pages[p], c, f)
    ensures Leads(ORDERLY, Staged(n, pages, Holding(pages[p], p, c)), steps,
                  Staged(n, pages[p := Served(pages[p], mem, c, f)], None), [])
    ensures FaultsRaised(steps) == 0
    decreases PageWork(pages[p])
  {
    hide Next, Leads, Coherent, Solo, Answered, Stretch;
    StretchIsCoherent(pages[p], mem, c, f);
    PageWorkNonNegative(pages[p], mem);
    steps := StretchRule(n, pages, p, mem, c, f);
    var pages1 := pages[p := Stretch(pages[p], c)];
    if !pages1[p].tx.Idle? {
      var held, pg' := Holding(pages[p], p, c), Served(pages[p], mem, c, f);
      var rest := ServeLoneFault(n, pages1, p, mem, c, f);
      assert pages1[p := pg'] == pages[p := pg'];
      Compose(ORDERLY, Staged(n, pages, held), steps, Staged(n, pages1, held), [], rest,
              Staged(n, pages[p := pg'], None), []);
      FaultsRaisedAppend(steps, rest);
      steps := steps + rest;
    }
  }

  /** A cluster with nothing going on, coherent with mem. */
  ghost predicate Calm(n: nat, pages: seq<Page>, mem: Memory) {
    && n > 0 && Pages(n, pages) && |pages| == |mem|
    && forall p :: 0 <= p < |pages| ==>
                     Coherent(pages[p], mem[p]) && pages[p].tx.Idle? && AllQuiet(pages[p])
  }

  ghost predicate AllQuiet(pg: Page) {
    forall c :: 0 <= c < |pg.locals| ==> pg.locals[c].request.Quiet?
  }

  /** The access a client needs for an event. */
  predicate Permits(l: Local, e: Event) {
    if e.LoadEvent? then l.prot != PROT_NONE else l.prot == PROT_ALL
  }

  function FaultFor(e: Event): Paging.Fault {
    if e.LoadEvent? then ReadFault else WriteFault
  }

  /** A fault raised on a calm page. */
  function Raised(pg: Page, c: nat, f: Paging.Fault): (pg': Page)
    requires WF(pg) && c < |pg.locals|
    ensures SameShape(pg, pg')
  {
    Put(pg, c, pg.locals[c].(request := Waiting(f)))
  }

  lemma RaisedIsSolo(pg: Page, mem: seq<int>, c: nat, f: Paging.Fault)
    requires Coherent(pg, mem) && pg.tx.Idle? && AllQuiet(pg) && c < |pg.locals|
    requires if f.ReadFault? then pg.locals[c].prot == PROT_NONE else pg.locals[c].prot != PROT_ALL
    ensures Next(ORDERLY, pg, Raise(c, f)) == Some(Raised(pg, c, f))
    ensures Coherent(Raised(pg, c, f), mem) && Solo(Raised(pg, c, f), c, f)
  {
    NextKeepsCoherent(pg, mem, Raise(c, f));
  }

  /** A fault raised in a calm cluster, up to its answer. */
  lemma RaiseAndServe(n: nat, pages: seq<Page>, mem: Memory, p: nat, c: nat, f: Paging.Fault)
    returns (steps: seq<Step>, pg': Page)
    requires Calm(n, pages, mem) && p < |pages| && c < n
    requires if f.ReadFault? then pages[p].locals[c].prot == PROT_NONE else pages[p].locals[c].prot != PROT_ALL
    ensures Leads(ORDERLY, Staged(n, pages, None), steps, Staged(n, pages[p := pg'], None), [])
    ensures FaultsRaised(steps) == 1 && steps[0] == Fault(c, p, f)
    ensures Coherent(pg', mem[p]) && Answered(pg', c, f) && SameShape(pages[p], pg')
  {
    var pg1 := Raised(pages[p], c, f);
    RaisedIsSolo(pages[p], mem[p], c, f);
    var t1 := RequestRule(ORDERLY, n, pages, p, c, f);
    pg' := Served(pg1, mem[p], c, f);
    var t2 := ServeLoneFault(n, pages[p := pg1], p, mem[p], c, f);
    assert pages[p := pg1][p := pg'] == pages[p := pg'];
    Compose(ORDERLY, Staged(n, pages, None), t1, Staged(n, pages[p := pg1], Holding(pages[p], p, c)), [],
            t2, Staged(n, pages[p := pg'], None), []);
    FaultsRaisedAppend(t1, t2);
    steps := t1 + t2;
  }

  /** A client without the access an event needs gets it with one fault. */
  lemma ObtainAccess(n: nat, pages: seq<Page>, mem: Memory, e: Event) returns (steps: seq<Step>, pages': seq<Page>)
    requires Calm(n, pages, mem) && InRange(mem, e) && e.client < n && !Permits(pages[e.page].locals[e.client], e)
    ensures Leads(ORDERLY, Staged(n, pages, None), steps, Staged(n, pages', None), [])
    ensures FaultsRaised(steps) == 1 && steps[0] == Fault(e.client, e.page, FaultFor(e))
    ensures Calm(n, pages', mem) && Permits(pages'[e.page].locals[e.client], e)
  {
    var p, c, f := e.page, e.client, FaultFor(e);
    var t, pg2 := RaiseAndServe(n, pages, mem, p, c, f);
    var u, pg3 := SettleAnswer(n, pages[p := pg2], p, mem[p], c, f);
    pages' := pages[p := pg3];
    assert pages[p := pg2][p := pg3] == pages';
    Compose(ORDERLY, Staged(n, pages, None), t, Staged(n, pages[p := pg2], None), [], u, Staged(n, pages', None), []);
    FaultsRaisedAppend(t, u);
    steps := t + u;
  }

  /** An answer on its way is installed; the owner's own fault needs no answer. */
  lemma SettleAnswer(n: nat, pages: seq<Page>, p: nat, mem: seq<int>, c: nat, f: Paging.Fault)
    returns (steps: seq<Step>, pg': Page)
    requires Pages(n, pages) && p < |pages| && Coherent(pages[p], mem) && Answered(pages[p], c, f)
    ensures Leads(ORDERLY, Staged(n, pages, None), steps, Staged(n, pages[p := pg'], None), [])
    ensures FaultsRaised(steps) == 0
    ensures Coherent(pg', mem) && pg'.tx.Idle? && AllQuiet(pg') && SameShape(pages[p], pg')
    ensures if f.ReadFault? then pg'.locals[c].prot != PROT_NONE else pg'.locals[c].prot == PROT_ALL
  {
    var pg := pages[p];
    assert LocalOk(pg, c, mem);
    if pg.locals[c].request.Granted? {
      TouchRule(ORDERLY, n, pages, None, p, Settle(c, p));
      pg' := Next(ORDERLY, pg, Install(c)).value;
      NextKeepsCoherent(pg, mem, Install(c));
      steps := [Settle(c, p)];
    } else {
      steps, pg' := [], pg;
      assert pages[p := pg] == pages;
    }
  }

  function StepFor(e: Event): Step {
    if e.LoadEvent? then Read(e.client, e.page, e.offset, e.value) else Write(e.client, e.page, e.offset, e.value)
  }

  /** An event by a client that has the access it needs. */
  lemma TouchPermitted(n: nat, pages: seq<Page>, mem: Memory, e: Event) returns (pages': seq<Page>)
    requires Calm(n, pages, mem) && Access(mem, e).Some? && e.client < n && Permits(pages[e.page].locals[e.client], e)
    ensures Leads(ORDERLY, Staged(n, pages, None), [StepFor(e)], Staged(n, pages', None), [e])
    ensures Calm(n, pages', Access(mem, e).value)
  {
    var p, a := e.page, PageStep(StepFor(e)).value.1;
    assert LocalOk(pages[p], e.client, mem[p]);
    TouchRule(ORDERLY, n, pages, None, p, StepFor(e));
    var pg' := Next(ORDERLY, pages[p], a).value;
    NextKeepsCoherent(pages[p], mem[p], a);
    pages' := pages[p := pg'];
  }

  /** One event from a calm cluster, with at most one fault. */
  lemma RealiseEvent(n: nat, pages: seq<Page>, mem: Memory, e: Event) returns (steps: seq<Step>, pages': seq<Page>)
    requires Calm(n, pages, mem) && Access(mem, e).Some? && e.client < n
    ensures Leads(ORDERLY, Staged(n, pages, None), steps, Staged(n, pages', None), [e])
    ensures FaultsRaised(steps) <= 1
    ensures Calm(n, pages', Access(mem, e).value)
  {
    if Permits(pages[e.page].locals[e.client], e) {
      pages' := TouchPermitted(n, pages, mem, e);
      steps := [StepFor(e)];
    } else {
      var t, calm := ObtainAccess(n, pages, mem, e);
      pages' := TouchPermitted(n, calm, mem, e);
      Compose(ORDERLY, Staged(n, pages, None), t, Staged(n, calm, None), [], [StepFor(e)], Staged(n, pages', None),
              [e]);
      assert [] + [e] == [e];
      FaultsRaisedAppend(t, [StepFor(e)]);
      steps := t + [StepFor(e)];
    }
  }

  lemma {:induction false} RealiseTrace(n: nat, pages: seq<Page>, mem: Memory, trace: seq<Event>)
    returns (steps: seq<Step>, pages': seq<Page>)
    requires Calm(n, pages, mem) && Legal(n, mem, trace)
    ensures Leads(ORDERLY, Staged(n, pages, None), steps, Staged(n, pages', None), trace)
    ensures FaultsRaised(steps) <= |trace|
    decreases |trace|
  {
    if trace == [] {
      steps, pages' := [], pages;
    } else {
      var t, mid := RealiseEvent(n, pages, mem, trace[0]);
      var u;
      u, pages' := RealiseTrace(n, mid, Access(mem, trace[0]).value, trace[1..]);
      Compose(ORDERLY, Staged(n, pages, None), t, Staged(n, mid, None), [trace[0]], u, Staged(n, pages', None),
              trace[1..]);
      assert [trace[0]] + trace[1..] == trace;
      FaultsRaisedAppend(t, u);
      steps := t + u;
    }
  }

  lemma StartIsCalm(n: nat, mem: Memory)
    requires n > 0
    ensures Calm(n, Start(n, mem).pages, mem)
    ensures Start(n, mem) == Staged(n, Start(n, mem).pages, None)
  {
    StartIsCoherent(n, mem);
    assert Start(n, mem).pools == Staged(n, Start(n, mem).pages, None).pools;
  }

  /** Some run of the serverless system of n clients performs exactly the accesses of the trace. */
  ghost predicate Admits(n: nat, mem: Memory, trace: seq<Event>)
    requires n > 0
  {
    exists steps :: Run(ORDERLY, Start(n, mem), steps).Some? && Trace(steps) == trace
  }

  /** Every legal trace is performed by some run that raises at most one fault for each access. */
  lemma LegalTraceIsRealised(n: nat, mem: Memory, trace: seq<Event>) returns (steps: seq<Step>)
    requires n > 0 && Legal(n, mem, trace)
    ensures Run(ORDERLY, Start(n, mem), steps).Some? && Trace(steps) == trace
    ensures FaultsRaised(steps) <= |trace|
  {
    StartIsCalm(n, mem);
    var pages';
    steps, pages' := RealiseTrace(n, Start(n, mem).pages, mem, trace);
  }

  /** The traces of the serverless system are exactly those of a flat memory. */
  lemma ServerlessAdmitsExactlyLegalTraces(n: nat, mem: Memory, trace: seq<Event>)
    requires n > 0
    ensures Admits(n, mem, trace) <==> Legal(n, mem, trace)
  {
    if Admits(n, mem, trace) {
      var steps :| Run(ORDERLY, Start(n, mem), steps).Some? && Trace(steps) == trace;
      StartIsCoherent(n, mem);
      RunRefinesFlatMemory(Start(n, mem), mem, steps);
    }
    if Legal(n, mem, trace) {
      var steps := LegalTraceIsRealised(n, mem, trace);
    }
  }
}
