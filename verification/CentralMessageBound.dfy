/** The amortised message count of the central-server protocol, as for the serverless one. */
module CentralMessageBound {
  import opened Base
  import opened FlatMemory
  import opened Paging
  import opened CentralPage
  import opened CentralSafety
  import opened CentralCluster
  import opened Quiescence
  import opened MessageBound

  /** What one action of a page sends and enqueues. */
  function ServerTally(pg: Page, a: Action, pg': Page): Tally {
    Tally(if a.Advance? && pg'.tx.AskInval? then 1 else 0,
          if a.Advance? && pg'.tx.Idle? && pg.tx.Drain? && pg.tx.client < |pg'.clients| &&
             pg'.clients[pg.tx.client].request == Granted(WritePerm) then 1 else 0,
          if |pg'.queue| > |pg.queue| then |pg'.queue| - |pg.queue| else 0,
          if a.Begin? && a.client < |pg.clients| && pg.clients[a.client].request == Waiting(ReadFault) then 1 else 0)
  }

  function StepTally(n: nat, pages: seq<Page>, st: Step): Tally
    requires WFC(n, pages) && Perform(ORDERLY, n, pages, st).Some?
  {
    ServerTally(pages[st.page], ActionOf(st), Next(ORDERLY, pages[st.page], ActionOf(st)).value)
  }

  function RunTally(n: nat, pages: seq<Page>, steps: seq<Step>): Tally
    requires WFC(n, pages) && Run(ORDERLY, n, pages, steps).Some?
    decreases |steps|
  {
    if steps == [] then Tally(0, 0, 0, 0)
    else StepTally(n, pages, steps[0]).Plus(RunTally(n, Perform(ORDERLY, n, pages, steps[0]).value, steps[1..]))
  }

  function Owing(pg: Page): int {
    |pg.queue| + (if (pg.tx.Drain? || pg.tx.AskInval?) && pg.tx.hasData then 1 else 0)
  }

  /** The old owner has still to be enqueued as a reader. */
  function Entitled(pg: Page): int {
    if pg.tx.AskRead? || pg.tx.GotRead? then 1 else 0
  }

  function Owings(pages: seq<Page>): seq<int> {
    seq(|pages|, p requires 0 <= p < |pages| => Owing(pages[p]))
  }

  function Entitlements(pages: seq<Page>): seq<int> {
    seq(|pages|, p requires 0 <= p < |pages| => Entitled(pages[p]))
  }

  function Queued(pages: seq<Page>): seq<int> {
    seq(|pages|, p requires 0 <= p < |pages| => |pages[p].queue|)
  }

  lemma ActionBalances(pg: Page, mem: seq<int>, a: Action)
    requires Coherent(pg, mem) && Next(ORDERLY, pg, a).Some?
    ensures var pg' := Next(ORDERLY, pg, a).value;
            var t := ServerTally(pg, a, pg');
            && t.invalids + t.perms + Owing(pg') == t.enqueues + Owing(pg)
            && t.enqueues + Entitled(pg') <= 2 * t.readFaults + Entitled(pg)
  {
    if a.Advance? {
      assert ClientOk(pg, pg.tx.client, mem);
    }
  }

  lemma StepBalances(n: nat, pages: seq<Page>, mem: Memory, st: Step)
    requires AllCoherent(n, pages, mem) && Perform(ORDERLY, n, pages, st).Some?
    ensures var pages' := Perform(ORDERLY, n, pages, st).value;
            var t := StepTally(n, pages, st);
            && t.invalids + t.perms + Sum(Owings(pages')) == t.enqueues + Sum(Owings(pages))
            && t.enqueues + Sum(Entitlements(pages')) <= 2 * t.readFaults + Sum(Entitlements(pages))
  {
    var p, pages' := st.page, Perform(ORDERLY, n, pages, st).value;
    ActionBalances(pages[p], mem[p], ActionOf(st));
    assert Owings(pages') == Owings(pages)[p := Owing(pages'[p])];
    assert Entitlements(pages') == Entitlements(pages)[p := Entitled(pages'[p])];
    SumUpdate(Owings(pages), p, Owing(pages'[p]));
    SumUpdate(Entitlements(pages), p, Entitled(pages'[p]));
  }

  lemma {:induction false} RunBalances(n: nat, pages: seq<Page>, mem: Memory, steps: seq<Step>)
    requires AllCoherent(n, pages, mem) && OneAtATime(pages) && Run(ORDERLY, n, pages, steps).Some?
    ensures var pages' := Run(ORDERLY, n, pages, steps).value;
            var t := RunTally(n, pages, steps);
            && t.invalids + t.perms + Sum(Owings(pages')) == t.enqueues + Sum(Owings(pages))
            && t.enqueues + Sum(Entitlements(pages')) <= 2 * t.readFaults + Sum(Entitlements(pages))
    decreases |steps|
  {
    if steps == [] {
    } else {
      StepBalances(n, pages, mem, steps[0]);
      PerformRefines(n, pages, mem, steps[0]);
      RunBalances(n, Perform(ORDERLY, n, pages, steps[0]).value, Replay(mem, EventOf(steps[0])).value, steps[1..]);
    }
  }

  /**
   In every run of the central server, whenever it is not draining a queue: the
   invalidations and bare permissions sent, plus the readers still queued, are
   exactly the readers ever enqueued, at most twice the read faults served.
   */
  lemma InvalidationsArePaidFor(n: nat, mem0: Memory, steps: seq<Step>, pages: seq<Page>)
    requires Run(ORDERLY, n, Start(n, mem0), steps) == Some(pages)
    requires forall p :: 0 <= p < |pages| ==> !pages[p].tx.Drain? && !pages[p].tx.AskInval?
    ensures var t := RunTally(n, Start(n, mem0), steps);
            t.invalids + t.perms + Sum(Queued(pages)) == t.enqueues <= 2 * t.readFaults
  {
    var start := Start(n, mem0);
    StartIsCoherent(n, mem0);
    RunBalances(n, start, mem0, steps);
    ZeroSum(Owings(start));
    ZeroSum(Entitlements(start));
    assert Owings(pages) == Queued(pages);
    SumNonNegative(Entitlements(pages));
  }
}
