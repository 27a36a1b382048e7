/** Exactly which scheduling assumptions the serverless system needs, by the number of its clients. */
module Conditions {
  import opened FlatMemory
  import opened ServerlessPage
  import opened ServerlessSafety
  import opened ServerlessCluster
  import Hazards

  /** A single client needs no assumption, two clients none about the copy window. */
  predicate Suffices(d: Discipline, n: nat) {
    n == 1 || (d.installFirst && (n == 2 || d.windowQuiet))
  }

  /** Where the assumptions suffice, the others make no difference to what a coherent page can do. */
  lemma ActionIsOrderly(d: Discipline, pg: Page, mem: seq<int>, a: Action)
    requires Coherent(pg, mem) && Suffices(d, |pg.locals|)
    ensures Next(d, pg, a) == Next(ORDERLY, pg, a)
  {
    assert LocalOk(pg, pg.owner, mem);
    if pg.tx.Window? {
      WindowIsTheOwners(pg, mem);
    }
  }

  /** In the copy window with two clients it is the owner that waits for the page. */
  lemma WindowIsTheOwners(pg: Page, mem: seq<int>)
    requires Coherent(pg, mem) && pg.tx.Window?
    ensures |pg.locals| <= 2 ==> pg.tx.client == pg.owner
  {
    var reader := pg.readers[0];
    assert reader in pg.readers;
    assert LocalOk(pg, pg.tx.client, mem) && LocalOk(pg, reader, mem);
  }

  lemma StepIsOrderly(d: Discipline, s: Cluster, mem: Memory, st: Step)
    requires ClusterCoherent(s, mem) && Suffices(d, |s.ports|)
    ensures Perform(d, s, st) == Perform(ORDERLY, s, st)
  {
    if !st.Receive? && PageStep(st).value.0 < |s.pages| {
      var (p, a) := PageStep(st).value;
      ActionIsOrderly(d, s.pages[p], mem[p], a);
    }
  }

  lemma {:induction false} RunIsOrderly(d: Discipline, s: Cluster, mem: Memory, steps: seq<Step>)
    requires ClusterCoherent(s, mem) && Suffices(d, |s.ports|)
    ensures Run(d, s, steps) == Run(ORDERLY, s, steps)
    decreases |steps|
  {
    if steps == [] {
    } else {
      StepIsOrderly(d, s, mem, steps[0]);
      var next := Perform(ORDERLY, s, steps[0]);
      if next.Some? {
        PerformRefines(s, mem, steps[0]);
        RunIsOrderly(d, next.value, Replay(mem, EventOf(steps[0])).value, steps[1..]);
      }
    }
  }

  // ---------- pages without a word ----------

  ghost predicate Wordless(pg: Page) {
    && WF(pg)
    && (pg.tx.GotRead? || pg.tx.Window? || pg.tx.GotWrite? ==> pg.tx.data == [])
    && forall c :: 0 <= c < |pg.locals| ==> WordlessLocal(pg.locals[c])
  }

  predicate WordlessLocal(l: Local) {
    && l.data == []
    && (l.request.Granted? && !l.request.grant.WritePerm? ==> l.request.grant.data == [])
  }

  lemma NextKeepsWordless(d: Discipline, pg: Page, a: Action)
    requires Wordless(pg) && Next(d, pg, a).Some?
    ensures Wordless(Next(d, pg, a).value) && !a.Load? && !a.Store?
  {
    if a.Begin? {
      BeginKeepsWordless(d, pg, a);
    } else if a.Advance? {
      AdvanceKeepsWordless(d, pg, a);
    } else {
      OthersKeepWordless(d, pg, a);
    }
  }

  lemma BeginKeepsWordless(d: Discipline, pg: Page, a: Action)
    requires Wordless(pg) && Next(d, pg, a).Some? && a.Begin?
    ensures Wordless(Next(d, pg, a).value)
  {
  }

  lemma AdvanceKeepsWordless(d: Discipline, pg: Page, a: Action)
    requires Wordless(pg) && Next(d, pg, a).Some? && a.Advance?
    ensures Wordless(Next(d, pg, a).value)
  {
  }

  lemma OthersKeepWordless(d: Discipline, pg: Page, a: Action)
    requires Wordless(pg) && Next(d, pg, a).Some? && !a.Begin? && !a.Advance?
    ensures Wordless(Next(d, pg, a).value) && !a.Load? && !a.Store?
  {
  }

  /** Without a word there is nothing to load or store, coherent or not. */
  lemma {:induction false} WordlessRun(d: Discipline, s: Cluster, steps: seq<Step>)
    requires WFC(s) && Run(d, s, steps).Some?
    requires forall p :: 0 <= p < |s.pages| ==> Wordless(s.pages[p])
    ensures Trace(steps) == []
    decreases |steps|
  {
    if steps == [] {
    } else {
      var st := steps[0];
      if !st.Receive? {
        var (p, a) := PageStep(st).value;
        NextKeepsWordless(d, s.pages[p], a);
      }
      WordlessRun(d, Perform(d, s, st).value, steps[1..]);
    }
  }

  /** Whatever the schedule, every run from these contents is a run of a flat memory. */
  ghost predicate AlwaysLegal(d: Discipline, n: nat, mem: Memory)
    requires n > 0
  {
    forall steps :: Run(d, Start(n, mem), steps).Some? ==> Legal(n, mem, Trace(steps))
  }

  /**
   Exactly when the system is coherent under the assumptions d makes: with one
   client always; with two if grants are installed first; with three or more if
   moreover the owner's application keeps off an open frame; and trivially if
   there is no word to access.
   */
  lemma CoherentExactly(d: Discipline, n: nat, mem: Memory)
    requires n > 0
    ensures AlwaysLegal(d, n, mem) <==>
            || Suffices(d, n)
            || (forall p :: 0 <= p < |mem| ==> mem[p] == [])
  {
    if forall p :: 0 <= p < |mem| ==> mem[p] == [] {
      forall steps | Run(d, Start(n, mem), steps).Some? ensures Legal(n, mem, Trace(steps)) {
        WordlessRun(d, Start(n, mem), steps);
      }
    } else if Suffices(d, n) {
      StartIsCoherent(n, mem);
      forall steps | Run(d, Start(n, mem), steps).Some? ensures Legal(n, mem, Trace(steps)) {
        RunIsOrderly(d, Start(n, mem), mem, steps);
        RunRefinesFlatMemory(Start(n, mem), mem, steps);
      }
    } else {
      var p: nat :| p < |mem| && mem[p] != [];
      var steps := StaleRun(d, n, mem, p);
      assert !Legal(n, mem, Trace(steps));
    }
  }

  lemma StaleRun(d: Discipline, n: nat, mem: Memory, p: nat) returns (steps: seq<Step>)
    requires n > 0 && !Suffices(d, n) && p < |mem| && mem[p] != []
    ensures Run(d, Start(n, mem), steps).Some? && Replay(mem, Trace(steps)).None?
  {
    if !d.installFirst {
      steps := Hazards.InstallFirstIsNeeded(d, n, mem, p);
    } else {
      steps := Hazards.QuietWindowIsNeeded(d, n, mem, p);
    }
  }
}
