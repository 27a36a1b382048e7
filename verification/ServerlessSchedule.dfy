/**
 Schedules that serve one fault at a time: each rule turns an action of one page
 into the steps of the whole cluster that carry it out, messages included.
 */
module ServerlessSchedule {
  import opened Base
  import opened FlatMemory
  import opened Paging
  import opened ServerlessPage
  import opened ServerlessCluster

  /** The run steps leads from s to s' and performs the accesses of trace. */
  ghost predicate Leads(d: Discipline, s: Cluster, steps: seq<Step>, s': Cluster, trace: seq<Event>) {
    WFC(s) && Run(d, s, steps) == Some(s') && Trace(steps) == trace
  }

  lemma Compose(d: Discipline, s: Cluster, t: seq<Step>, s': Cluster, e: seq<Event>,
                u: seq<Step>, s'': Cluster, e': seq<Event>)
    requires Leads(d, s, t, s', e) && Leads(d, s', u, s'', e')
    ensures Leads(d, s, t + u, s'', e + e')
  {
    RunAppend(d, s, t, u);
    TraceAppend(t, u);
  }

  lemma OneStep(d: Discipline, s: Cluster, st: Step)
    requires WFC(s) && Perform(d, s, st).Some?
    ensures Leads(d, s, [st], Perform(d, s, st).value, EventOf(st))
  {
    assert [st][0] == st && [st][1..] == [];
    assert Trace([st]) == EventOf(st) + Trace([]);
  }

  /** Some run leads from s to s' performing the accesses of trace. */
  ghost predicate Reaches(d: Discipline, s: Cluster, s': Cluster, trace: seq<Event>) {
    exists steps :: Leads(d, s, steps, s', trace)
  }

  lemma Chain(d: Discipline, s: Cluster, s': Cluster, e: seq<Event>, s'': Cluster, e': seq<Event>)
    requires Reaches(d, s, s', e) && Reaches(d, s', s'', e')
    ensures Reaches(d, s, s'', e + e')
    ensures e == [] ==> Reaches(d, s, s'', e')
    ensures e' == [] ==> Reaches(d, s, s'', e)
  {
    var t :| Leads(d, s, t, s', e);
    var u :| Leads(d, s', u, s'', e');
    Compose(d, s, t, s', e, u, s'', e');
    assert e == [] ==> e + e' == e';
    assert e' == [] ==> e + e' == e;
  }

  /** The fault message a responder thread of the owner is working on, if any. */
  type Held = Option<(nat, Msg)>

  /** A cluster of n clients with empty ports and at most one busy responder thread. */
  function Staged(n: nat, pages: seq<Page>, held: Held): Cluster {
    Cluster(pages, seq(n, i => []), seq(n, i => if held.Some? && held.value.0 == i then {held.value.1} else {}))
  }

  lemma StartIsStaged(n: nat, mem: Memory)
    requires n > 0
    ensures Start(n, mem) == Staged(n, Start(n, mem).pages, None)
  {
    assert Start(n, mem).pools == Staged(n, Start(n, mem).pages, None).pools;
  }

  function Holding(pg: Page, p: nat, c: nat): Held {
    if c == pg.owner then None else Some((pg.owner, FaultMsg(p, c)))
  }

  ghost predicate Pages(n: nat, pages: seq<Page>) {
    forall p :: 0 <= p < |pages| ==> WF(pages[p]) && |pages[p].locals| == n
  }

  lemma ArriveAndReceive(d: Discipline, n: nat, pages: seq<Page>, held: Held, t: nat, m: Msg)
    requires Pages(n, pages) && t < n
    ensures var arrived := Staged(n, pages, held).(ports := Push(Staged(n, pages, held).ports, t, m));
            && WFC(arrived) && Perform(d, arrived, Receive(t)).Some?
            && var s := Perform(d, arrived, Receive(t)).value;
               && s.pages == pages
               && s.ports == Staged(n, pages, held).ports
               && s.pools == Staged(n, pages, held).pools[t := Staged(n, pages, held).pools[t] + {m}]
  {
    var s0 := Staged(n, pages, held);
    var arrived := s0.(ports := Push(s0.ports, t, m));
    assert arrived.ports[t] == [m];
    assert [m][1..] == [];
    assert arrived.ports[t := []] == s0.ports;
  }

  /** A client's fault reaches a responder thread of the owner, or the owner's own exception thread. */
  lemma RequestRule(d: Discipline, n: nat, pages: seq<Page>, p: nat, c: nat, f: Paging.Fault)
    returns (steps: seq<Step>)
    requires Pages(n, pages) && p < |pages|
    requires Unfaulted(Staged(n, pages, None), c)
    requires Next(d, pages[p], Raise(c, f)).Some?
    ensures Leads(d, Staged(n, pages, None), steps,
                  Staged(n, pages[p := Next(d, pages[p], Raise(c, f)).value], Holding(pages[p], p, c)), [])
    ensures FaultsRaised(steps) == 1 && steps[0] == Fault(c, p, f)
  {
    var s0, pg := Staged(n, pages, None), pages[p];
    var pages' := pages[p := Next(d, pg, Raise(c, f)).value];
    var s1 := Perform(d, s0, Fault(c, p, f)).value;
    OneStep(d, s0, Fault(c, p, f));
    steps := [Fault(c, p, f)];
    if c == pg.owner {
      assert s1 == Staged(n, pages', None);
    } else {
      var m := FaultMsg(p, c);
      var s1' := Staged(n, pages', None);
      assert s1 == s1'.(ports := Push(s1'.ports, pg.owner, m));
      ArriveAndReceive(d, n, pages', None, pg.owner, m);
      OneStep(d, s1, Receive(pg.owner));
      var s2 := Perform(d, s1, Receive(pg.owner)).value;
      assert s2.pools == Staged(n, pages', Some((pg.owner, m))).pools;
      assert s2 == Staged(n, pages', Some((pg.owner, m)));
      Compose(d, s0, steps, s1, [], [Receive(pg.owner)], s2, []);
      FaultsRaisedAppend(steps, [Receive(pg.owner)]);
      steps := steps + [Receive(pg.owner)];
    }
  }

  /** The step of the cluster with which the handler of c's fault performs action a. */
  function HandlerStep(p: nat, c: nat, a: Action): Step {
    if a.Advance? then Resume(p) else Serve(c, p)
  }

  /** The handler of c's fault runs to its next message; nobody is sent a directive. */
  lemma HandlerRule(d: Discipline, n: nat, pages: seq<Page>, p: nat, c: nat, a: Action)
    requires Pages(n, pages) && p < |pages| && c < n
    requires a == Begin(c) || (a.Advance? && !pages[p].tx.Idle? && !pages[p].tx.Crashed? && pages[p].tx.client == c)
    requires Next(d, pages[p], a).Some? && Target(Next(d, pages[p], a).value).None?
    ensures var pg' := Next(d, pages[p], a).value;
            var held := Holding(pages[p], p, c);
            Leads(d, Staged(n, pages, held), [HandlerStep(p, c, a)],
                  Staged(n, pages[p := pg'], if pg'.tx.Idle? then None else held), [])
  {
    var pg := pages[p];
    var pg' := Next(d, pg, a).value;
    var held := Holding(pg, p, c);
    var s0, st := Staged(n, pages, held), HandlerStep(p, c, a);
    OneStep(d, s0, st);
    var s1 := Perform(d, s0, st).value;
    if pg'.tx.Idle? {
      var s1' := Staged(n, pages[p := pg'], None);
      forall i | 0 <= i < n ensures s1.pools[i] == s1'.pools[i] {
        assert i != pg.owner ==> s1.pools[i] == s0.pools[i] == {};
      }
      assert s1.pools == s1'.pools;
    } else {
      assert s1.pools == s0.pools;
    }
  }

  /** The handler sends a directive, a responder thread of its target receives and obeys it. */
  lemma DirectiveRule(d: Discipline, n: nat, pages: seq<Page>, p: nat, c: nat, a: Action)
    returns (steps: seq<Step>)
    requires Pages(n, pages) && p < |pages| && c < n
    requires a == Begin(c) || (a.Advance? && !pages[p].tx.Idle? && !pages[p].tx.Crashed? && pages[p].tx.client == c)
    requires Next(d, pages[p], a).Some? && Target(Next(d, pages[p], a).value).Some?
    requires Next(d, Next(d, pages[p], a).value, Handle).Some?
    ensures var pg' := Next(d, Next(d, pages[p], a).value, Handle).value;
            var held := Holding(pages[p], p, c);
            Leads(d, Staged(n, pages, held), steps, Staged(n, pages[p := pg'], held), [])
    ensures FaultsRaised(steps) == 0
  {
    var pg := pages[p];
    var pg1 := Next(d, pg, a).value;
    var t, held, m := Target(pg1).value, Holding(pg, p, c), Directive(p);
    var s0, st := Staged(n, pages, held), HandlerStep(p, c, a);
    OneStep(d, s0, st);
    var s1 := Perform(d, s0, st).value;
    var s1' := Staged(n, pages[p := pg1], held);
    assert s1 == s1'.(ports := Push(s1'.ports, t, m));
    hide Next, Leads, Perform;
    ArriveAndReceive(d, n, pages[p := pg1], held, t, m);
    var s2 := Perform(d, s1, Receive(t)).value;
    OneStep(d, s1, Receive(t));
    ComplyRule(d, n, pages[p := pg1], held, p, t);
    var s3 := Staged(n, pages[p := Next(d, pg1, Handle).value], held);
    assert pages[p := pg1][p := Next(d, pg1, Handle).value] == pages[p := Next(d, pg1, Handle).value];
    Compose(d, s0, [st], s1, [], [Receive(t)], s2, []);
    Compose(d, s0, [st] + [Receive(t)], s2, [], [Comply(t, p)], s3, []);
    FaultsRaisedAppend([st], [Receive(t)]);
    FaultsRaisedAppend([st] + [Receive(t)], [Comply(t, p)]);
    steps := [st] + [Receive(t)] + [Comply(t, p)];
  }

  lemma ComplyRule(d: Discipline, n: nat, pages: seq<Page>, held: Held, p: nat, t: nat)
    requires Pages(n, pages) && p < |pages| && t < n && Target(pages[p]) == Some(t)
    requires held.Some? ==> held.value.1 != Directive(p)
    requires Next(d, pages[p], Handle).Some?
    ensures var s0 := Staged(n, pages, held);
            Leads(d, s0.(pools := s0.pools[t := s0.pools[t] + {Directive(p)}]), [Comply(t, p)],
                  Staged(n, pages[p := Next(d, pages[p], Handle).value], held), [])
  {
    var s0 := Staged(n, pages, held);
    var s1 := s0.(pools := s0.pools[t := s0.pools[t] + {Directive(p)}]);
    OneStep(d, s1, Comply(t, p));
    assert s0.pools[t] + {Directive(p)} - {Directive(p)} == s0.pools[t];
    assert Perform(d, s1, Comply(t, p)).value.pools == s0.pools;
  }

  /** An install, a load or a store. */
  lemma TouchRule(d: Discipline, n: nat, pages: seq<Page>, held: Held, p: nat, st: Step)
    requires Pages(n, pages) && p < |pages|
    requires st.Settle? || st.Read? || st.Write?
    requires st.page == p && (st.Settle? || Unfaulted(Staged(n, pages, held), st.client))
    requires Next(d, pages[p], PageStep(st).value.1).Some?
    ensures Leads(d, Staged(n, pages, held), [st],
                  Staged(n, pages[p := Next(d, pages[p], PageStep(st).value.1).value], held), EventOf(st))
  {
    OneStep(d, Staged(n, pages, held), st);
  }

  /** Faults raised in a run. */
  function FaultsRaised(steps: seq<Step>): (k: nat)
    ensures k > 0 ==> steps != []
  {
    if steps == [] then 0 else (if steps[0].Fault? then 1 else 0) + FaultsRaised(steps[1..])
  }

  lemma {:induction false} FaultsRaisedAppend(t: seq<Step>, u: seq<Step>)
    ensures FaultsRaised(t + u) == FaultsRaised(t) + FaultsRaised(u)
  {
    if t == [] {
      assert t + u == u;
    } else {
      assert (t + u)[0] == t[0] && (t + u)[1..] == t[1..] + u;
      FaultsRaisedAppend(t[1..], u);
    }
  }
}
