/**
 Amortised message count of the serverless protocol: every reader that enters a
 queue leaves it by one PAGE_INVALID or one WRITE_PERM_GRANTED, and a read
 fault enqueues at most two readers.
 */
module MessageBound {
  import opened Base
  import opened FlatMemory
  import opened Paging
  import opened ServerlessPage
  import opened ServerlessSafety
  import opened ServerlessCluster
  import opened Quiescence

  datatype Tally = Tally(invalids: nat, perms: nat, enqueues: nat, readFaults: nat) {
    function Plus(t: Tally): Tally {
      Tally(invalids + t.invalids, perms + t.perms, enqueues + t.enqueues, readFaults + t.readFaults)
    }
  }

  /** What one action of a page sends and enqueues. */
  function PageTally(pg: Page, a: Action, pg': Page): Tally {
    Tally(if a.Advance? && pg'.tx.AskInval? then 1 else 0,
          if a.Advance? && pg'.tx.Idle? && pg.tx.Drain? && pg.tx.client < |pg'.locals| &&
             pg'.locals[pg.tx.client].request == Granted(WritePerm) then 1 else 0,
          if |pg'.readers| > |pg.readers| then |pg'.readers| - |pg.readers| else 0,
          if a.Begin? && a.client < |pg.locals| && pg.locals[a.client].request == Waiting(ReadFault) then 1 else 0)
  }

  function StepTally(s: Cluster, st: Step): Tally
    requires WFC(s) && Perform(ORDERLY, s, st).Some?
  {
    if st.Receive? then Tally(0, 0, 0, 0)
    else
      var (p, a) := PageStep(st).value;
      PageTally(s.pages[p], a, Next(ORDERLY, s.pages[p], a).value)
  }

  function RunTally(s: Cluster, steps: seq<Step>): Tally
    requires WFC(s) && Run(ORDERLY, s, steps).Some?
    decreases |steps|
  {
    if steps == [] then Tally(0, 0, 0, 0)
    else StepTally(s, steps[0]).Plus(RunTally(Perform(ORDERLY, s, steps[0]).value, steps[1..]))
  }

  /** Readers enqueued and not yet paid for by a message. */
  function Owing(pg: Page): int {
    |pg.readers| + (if (pg.tx.Drain? || pg.tx.AskInval?) && pg.tx.hasData then 1 else 0)
  }

  /** Readers the read fault in service may still enqueue. */
  function Entitled(pg: Page): int {
    match pg.tx
    case AskRead(_) => 2
    case GotRead(_, _) => 2
    case Window(_, _) => 1
    case _ => 0
  }

  function Owings(s: Cluster): seq<int> {
    seq(|s.pages|, p requires 0 <= p < |s.pages| => Owing(s.pages[p]))
  }

  function Entitlements(s: Cluster): seq<int> {
    seq(|s.pages|, p requires 0 <= p < |s.pages| => Entitled(s.pages[p]))
  }

  function Queued(s: Cluster): seq<int> {
    seq(|s.pages|, p requires 0 <= p < |s.pages| => |s.pages[p].readers|)
  }

  lemma ActionBalances(pg: Page, mem: seq<int>, a: Action)
    requires Coherent(pg, mem) && Next(ORDERLY, pg, a).Some?
    ensures var pg' := Next(ORDERLY, pg, a).value;
            var t := PageTally(pg, a, pg');
            && t.invalids + t.perms + Owing(pg') == t.enqueues + Owing(pg)
            && t.enqueues + Entitled(pg') <= 2 * t.readFaults + Entitled(pg)
  {
    NextKeepsCoherent(pg, mem, a);
    if a.Advance? {
      assert LocalOk(pg, pg.tx.client, mem);
    }
  }

  lemma StepBalances(s: Cluster, mem: Memory, st: Step)
    requires ClusterCoherent(s, mem) && Perform(ORDERLY, s, st).Some?
    ensures var s' := Perform(ORDERLY, s, st).value;
            var t := StepTally(s, st);
            && t.invalids + t.perms + Sum(Owings(s')) == t.enqueues + Sum(Owings(s))
            && t.enqueues + Sum(Entitlements(s')) <= 2 * t.readFaults + Sum(Entitlements(s))
  {
    var s' := Perform(ORDERLY, s, st).value;
    if st.Receive? {
      assert Owings(s') == Owings(s) && Entitlements(s') == Entitlements(s);
    } else {
      var (p, a) := PageStep(st).value;
      var pg' := Next(ORDERLY, s.pages[p], a).value;
      ActionBalances(s.pages[p], mem[p], a);
      assert Owings(s') == Owings(s)[p := Owing(pg')];
      assert Entitlements(s') == Entitlements(s)[p := Entitled(pg')];
      SumUpdate(Owings(s), p, Owing(pg'));
      SumUpdate(Entitlements(s), p, Entitled(pg'));
    }
  }

  lemma {:induction false} RunBalances(s: Cluster, mem: Memory, steps: seq<Step>)
    requires ClusterCoherent(s, mem) && Run(ORDERLY, s, steps).Some?
    ensures var s' := Run(ORDERLY, s, steps).value;
            var t := RunTally(s, steps);
            && t.invalids + t.perms + Sum(Owings(s')) == t.enqueues + Sum(Owings(s))
            && t.enqueues + Sum(Entitlements(s')) <= 2 * t.readFaults + Sum(Entitlements(s))
    decreases |steps|
  {
    if steps == [] {
    } else {
      StepBalances(s, mem, steps[0]);
      PerformRefines(s, mem, steps[0]);
      RunBalances(Perform(ORDERLY, s, steps[0]).value, Replay(mem, EventOf(steps[0])).value, steps[1..]);
    }
  }

  lemma {:induction false} ZeroSum(s: seq<int>)
    requires forall i :: 0 <= i < |s| ==> s[i] == 0
    ensures Sum(s) == 0
  {
    if s == [] {
    } else {
      ZeroSum(s[1..]);
    }
  }

  /**
   In every run, whenever no reader queue is being drained: the invalidations
   and bare permissions sent, plus the readers still queued, are exactly the
   readers ever enqueued, which are at most twice the read faults served.
   */
  lemma InvalidationsArePaidFor(n: nat, mem0: Memory, steps: seq<Step>, s: Cluster)
    requires n > 0 && Run(ORDERLY, Start(n, mem0), steps) == Some(s)
    requires forall p :: 0 <= p < |s.pages| ==> !s.pages[p].tx.Drain? && !s.pages[p].tx.AskInval?
    ensures var t := RunTally(Start(n, mem0), steps);
            t.invalids + t.perms + Sum(Queued(s)) == t.enqueues <= 2 * t.readFaults
  {
    var s0 := Start(n, mem0);
    StartIsCoherent(n, mem0);
    RunBalances(s0, mem0, steps);
    ZeroSum(Owings(s0));
    ZeroSum(Entitlements(s0));
    assert Owings(s) == Queued(s);
    SumNonNegative(Entitlements(s));
  }
}
