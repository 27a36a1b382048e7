/** Exactly which scheduling assumptions the central-server system needs. */
module CentralConditions {
  import opened FlatMemory
  import opened CentralPage
  import opened CentralSafety
  import opened CentralCluster
  import CentralHazard

  /** A single client is never sent a directive; more need both assumptions. */
  predicate Suffices(d: Discipline, n: nat) {
    n <= 1 || (d.installFirst && d.protectAtOnce)
  }

  lemma ActionIsOrderly(d: Discipline, pg: Page, mem: seq<int>, a: Action)
    requires Coherent(pg, mem) && Suffices(d, |pg.clients|)
    ensures Next(d, pg, a) == Next(ORDERLY, pg, a)
  {
    if Target(pg).Some? {
      DirectiveNeedsTwoClients(pg, mem);
    }
  }

  lemma DirectiveNeedsTwoClients(pg: Page, mem: seq<int>)
    requires Coherent(pg, mem) && Target(pg).Some?
    ensures |pg.clients| >= 2
  {
    assert ClientOk(pg, pg.tx.client, mem) && ClientOk(pg, Target(pg).value, mem);
  }

  lemma {:induction false} RunIsOrderly(d: Discipline, n: nat, pages: seq<Page>, mem: Memory, steps: seq<Step>)
    requires AllCoherent(n, pages, mem) && OneAtATime(pages) && Suffices(d, n)
    ensures Run(d, n, pages, steps) == Run(ORDERLY, n, pages, steps)
    decreases |steps|
  {
    if steps == [] {
    } else {
      var st := steps[0];
      if st.page < |pages| {
        ActionIsOrderly(d, pages[st.page], mem[st.page], ActionOf(st));
      }
      var next := Perform(ORDERLY, n, pages, st);
      if next.Some? {
        PerformRefines(n, pages, mem, st);
        RunIsOrderly(d, n, next.value, Replay(mem, EventOf(st)).value, steps[1..]);
      }
    }
  }

  // ---------- pages without a word ----------

  ghost predicate Wordless(pg: Page) {
    && WF(pg) && pg.master == []
    && (pg.tx.GotRead? || pg.tx.GotWrite? ==> pg.tx.data == [])
    && forall c :: 0 <= c < |pg.clients| ==> WordlessClient(pg.clients[c])
  }

  predicate WordlessClient(l: Client) {
    && l.data == []
    && (l.request.Granted? && !l.request.grant.WritePerm? ==> l.request.grant.data == [])
  }

  lemma NextKeepsWordless(d: Discipline, pg: Page, a: Action)
    requires Wordless(pg) && Next(d, pg, a).Some?
    ensures Wordless(Next(d, pg, a).value) && !a.Load? && !a.Store?
  {
  }

  lemma {:induction false} WordlessRun(d: Discipline, n: nat, pages: seq<Page>, steps: seq<Step>)
    requires WFC(n, pages) && Run(d, n, pages, steps).Some?
    requires forall p :: 0 <= p < |pages| ==> Wordless(pages[p])
    ensures Trace(steps) == []
    decreases |steps|
  {
    if steps == [] {
    } else {
      NextKeepsWordless(d, pages[steps[0].page], ActionOf(steps[0]));
      WordlessRun(d, n, Perform(d, n, pages, steps[0]).value, steps[1..]);
    }
  }

  ghost predicate AlwaysLegal(d: Discipline, n: nat, mem: Memory) {
    forall steps :: Run(d, n, Start(n, mem), steps).Some? && InOrder(steps) ==> Legal(n, mem, Trace(steps))
  }

  /**
   Exactly when the system is coherent under the assumptions d makes: with at
   most one client always, with more if it makes both, and trivially if there
   is no word to access.
   */
  lemma CoherentExactly(d: Discipline, n: nat, mem: Memory)
    ensures AlwaysLegal(d, n, mem) <==> Suffices(d, n) || (forall p :: 0 <= p < |mem| ==> mem[p] == [])
  {
    StartIsCoherent(n, mem);
    if forall p :: 0 <= p < |mem| ==> mem[p] == [] {
      forall steps | Run(d, n, Start(n, mem), steps).Some? ensures Legal(n, mem, Trace(steps)) {
        WordlessRun(d, n, Start(n, mem), steps);
      }
    } else if Suffices(d, n) {
      forall steps | Run(d, n, Start(n, mem), steps).Some? ensures Legal(n, mem, Trace(steps)) {
        RunIsOrderly(d, n, Start(n, mem), mem, steps);
        RunRefinesFlatMemory(n, Start(n, mem), mem, steps);
      }
    } else {
      var p: nat :| p < |mem| && mem[p] != [];
      var steps := StaleRun(d, n, mem, p);
      assert !Legal(n, mem, Trace(steps));
    }
  }

  lemma StaleRun(d: Discipline, n: nat, mem: Memory, p: nat) returns (steps: seq<Step>)
    requires !Suffices(d, n) && p < |mem| && mem[p] != []
    ensures Run(d, n, Start(n, mem), steps).Some? && InOrder(steps) && Replay(mem, Trace(steps)).None?
  {
    if !d.installFirst {
      steps := CentralHazard.InstallFirstIsNeeded(d, n, mem, p);
    } else {
      steps := CentralHazard.ProtectAtOnceIsNeeded(d, n, mem, p);
    }
  }
}
