/**
 Responder pools: where every message is, and when the system can be blocked by
 pools full of fault handlers that all wait for directives.
 */
module Responders {
  import opened Base
  import opened FlatMemory
  import opened ServerlessPage
  import opened ServerlessSafety
  import opened ServerlessCluster

  /** The client at whose responder port a message is due, if it is due at all. */
  function Home(s: Cluster, m: Msg): Option<nat>
    requires WFC(s)
  {
    match m
    case FaultMsg(p, c) =>
      if p < |s.pages| && c < |s.ports| && c != s.pages[p].owner && s.pages[p].locals[c].request.Waiting?
      then Some(s.pages[p].owner) else None
    case Directive(p) => if p < |s.pages| then Target(s.pages[p]) else None
  }

  ghost predicate Posted(s: Cluster, x: nat, m: Msg)
    requires WFC(s) && x < |s.ports|
  {
    m in s.ports[x] || m in s.pools[x]
  }

  /** Messages are exactly where they are due. */
  ghost predicate MailPlaced(s: Cluster)
    requires WFC(s)
  {
    forall x, m :: 0 <= x < |s.ports| ==> (Posted(s, x, m) <==> Home(s, m) == Some(x))
  }

  /** Each message is there once, and no pool is overfull. */
  ghost predicate MailOnce(s: Cluster)
    requires WFC(s)
  {
    forall x :: 0 <= x < |s.ports| ==>
                  && Distinct(s.ports[x]) && |s.pools[x]| <= NUM_RESPONDERS
                  && forall m :: m in s.pools[x] ==> m !in s.ports[x]
  }

  ghost predicate MailExact(s: Cluster)
    requires WFC(s)
  {
    MailPlaced(s) && MailOnce(s)
  }

  /** A handler at work occupies one of its owner's responder threads, unless it is the owner's own. */
  ghost predicate HandlersHoused(s: Cluster)
    requires WFC(s)
  {
    forall p :: 0 <= p < |s.pages| && !s.pages[p].tx.Idle? && !s.pages[p].tx.Crashed? &&
                s.pages[p].tx.client != s.pages[p].owner ==>
                FaultMsg(p, s.pages[p].tx.client) in s.pools[s.pages[p].owner]
  }

  predicate Outstanding(s: Cluster, c: nat, p: nat)
    requires WFC(s) && p < |s.pages| && c < |s.ports|
  {
    !s.pages[p].locals[c].request.Quiet?
  }

  /** A client's single exception thread deals with one fault at a time. */
  ghost predicate OneFaultEach(s: Cluster)
    requires WFC(s)
  {
    forall c, p, q ::
      (0 <= c < |s.ports| && 0 <= p < |s.pages| && 0 <= q < |s.pages| && Outstanding(s, c, p) && Outstanding(s, c, q))
      ==> p == q
  }

  ghost predicate Orderly(s: Cluster, mem: Memory) {
    && ClusterCoherent(s, mem)
    && MailExact(s) && HandlersHoused(s) && OneFaultEach(s)
  }

  lemma StartIsOrderly(n: nat, mem: Memory)
    requires n > 0
    ensures Orderly(Start(n, mem), mem)
  {
    StartIsCoherent(n, mem);
  }

  lemma FaultKeepsMail(s: Cluster, st: Step)
    requires WFC(s) && MailExact(s) && st.Fault? && Perform(ORDERLY, s, st).Some?
    ensures MailExact(Perform(ORDERLY, s, st).value)
  {
    var s' := Perform(ORDERLY, s, st).value;
    var p, c, o := st.page, st.client, s.pages[st.page].owner;
    var m := FaultMsg(p, c);
    assert !Posted(s, o, m) by {
      assert Home(s, m) == None;
    }
    if c != o {
      DistinctAppend(s.ports[o], m);
    }
    forall x, m' | 0 <= x < |s'.ports|
      ensures Posted(s', x, m') <==> Home(s', m') == Some(x)
    {
      assert Posted(s, x, m') <==> Home(s, m') == Some(x);
      assert m' != m ==> Home(s', m') == Home(s, m');
    }
  }

  lemma FaultKeepsHousing(s: Cluster, st: Step)
    requires WFC(s) && HandlersHoused(s) && OneFaultEach(s) && st.Fault? && Perform(ORDERLY, s, st).Some?
    ensures HandlersHoused(Perform(ORDERLY, s, st).value) && OneFaultEach(Perform(ORDERLY, s, st).value)
  {
    var s' := Perform(ORDERLY, s, st).value;
    forall c, p | 0 <= c < |s'.ports| && 0 <= p < |s'.pages| && Outstanding(s', c, p)
      ensures Outstanding(s, c, p) || (c == st.client && p == st.page)
    {
    }
  }

  lemma ReceiveKeepsMail(s: Cluster, st: Step)
    requires WFC(s) && MailExact(s) && HandlersHoused(s) && OneFaultEach(s)
    requires st.Receive? && Perform(ORDERLY, s, st).Some?
    ensures MailExact(Perform(ORDERLY, s, st).value)
    ensures HandlersHoused(Perform(ORDERLY, s, st).value) && OneFaultEach(Perform(ORDERLY, s, st).value)
  {
    var s' := Perform(ORDERLY, s, st).value;
    var c := st.client;
    var m, rest := s.ports[c][0], s.ports[c][1..];
    assert forall m' :: m' in s.ports[c] <==> m' == m || m' in rest;
    assert m !in rest;
    forall x, m' | 0 <= x < |s'.ports|
      ensures Posted(s', x, m') <==> Home(s', m') == Some(x)
    {
      assert Posted(s, x, m') <==> Home(s, m') == Some(x);
      assert Home(s', m') == Home(s, m');
    }
    forall c', p, q | 0 <= c' < |s'.ports| && 0 <= p < |s'.pages| && 0 <= q < |s'.pages| &&
                      Outstanding(s', c', p) && Outstanding(s', c', q)
      ensures p == q
    {
      assert Outstanding(s, c', p) && Outstanding(s, c', q);
    }
  }

  /** A handler's stretch leaves every other client's fault alone, and ends its own only by answering it. */
  ghost predicate Footprint(pg: Page, pg': Page, r: nat)
    requires WF(pg) && SameShape(pg, pg')
  {
    && r < |pg.locals| && pg.locals[r].request.Waiting?
    && Target(pg).None?
    && !pg'.tx.Crashed?
    && (forall c :: 0 <= c < |pg.locals| && c != r ==> pg'.locals[c].request == pg.locals[c].request)
    && (pg'.tx.Idle? ==> !pg'.locals[r].request.Waiting?)
    && (!pg'.tx.Idle? ==> pg'.tx.client == r && pg'.locals[r].request == pg.locals[r].request)
  }

  lemma HandlerFootprint(pg: Page, mem: seq<int>, r: nat, a: Action)
    requires Coherent(pg, mem) && Next(ORDERLY, pg, a).Some?
    requires a == Begin(r) || (a.Advance? && pg.tx.client == r)
    ensures Footprint(pg, Next(ORDERLY, pg, a).value, r)
  {
    NextKeepsCoherent(pg, mem, a);
  }

  lemma HandlerKeepsPlaced(s: Cluster, p: nat, pg': Page, r: nat)
    requires WFC(s) && MailExact(s) && p < |s.pages| && SameShape(s.pages[p], pg') && Footprint(s.pages[p], pg', r)
    requires r == s.pages[p].owner || FaultMsg(p, r) in s.pools[s.pages[p].owner]
    ensures MailPlaced(Progressed(s, p, pg', r))
  {
    var s', o := Progressed(s, p, pg', r), s.pages[p].owner;
    var m, dir := FaultMsg(p, r), Directive(p);
    assert r == o ==> !Posted(s, o, m) by {
      assert r == o ==> Home(s, m) == None;
    }
    forall x, m' | 0 <= x < |s'.ports|
      ensures Posted(s', x, m') <==> Home(s', m') == Some(x)
    {
      assert Posted(s, x, m') <==> Home(s, m') == Some(x);
      assert m' != m && m' != dir ==> Home(s', m') == Home(s, m');
    }
  }

  lemma HandlerKeepsOnce(s: Cluster, p: nat, pg': Page, r: nat)
    requires WFC(s) && MailExact(s) && p < |s.pages| && SameShape(s.pages[p], pg') && Footprint(s.pages[p], pg', r)
    ensures MailOnce(Progressed(s, p, pg', r))
  {
    var s', dir := Progressed(s, p, pg', r), Directive(p);
    forall x | 0 <= x < |s'.ports|
      ensures Distinct(s'.ports[x]) && |s'.pools[x]| <= NUM_RESPONDERS
      ensures forall m :: m in s'.pools[x] ==> m !in s'.ports[x]
    {
      assert !Posted(s, x, dir) by {
        assert Home(s, dir) == None;
      }
      DistinctAppend(s.ports[x], dir);
      SubsetSize(s'.pools[x], s.pools[x]);
    }
  }

  lemma HandlerKeepsHousing(s: Cluster, p: nat, pg': Page, r: nat)
    requires WFC(s) && HandlersHoused(s) && p < |s.pages| && SameShape(s.pages[p], pg') && Footprint(s.pages[p], pg', r)
    requires r == s.pages[p].owner || FaultMsg(p, r) in s.pools[s.pages[p].owner]
    ensures HandlersHoused(Progressed(s, p, pg', r))
  {
  }

  lemma HandlerKeepsMail(s: Cluster, mem: Memory, st: Step, r: nat)
    requires Orderly(s, mem) && (st.Serve? || st.Resume?) && Perform(ORDERLY, s, st).Some?
    requires r == if st.Serve? then st.client else s.pages[st.page].tx.client
    ensures MailExact(Perform(ORDERLY, s, st).value)
    ensures HandlersHoused(Perform(ORDERLY, s, st).value)
  {
    var p, a := st.page, PageStep(st).value.1;
    var pg' := Next(ORDERLY, s.pages[p], a).value;
    HandlerFootprint(s.pages[p], mem[p], r, a);
    HandlerKeepsPlaced(s, p, pg', r);
    HandlerKeepsOnce(s, p, pg', r);
    HandlerKeepsHousing(s, p, pg', r);
  }

  lemma ComplyKeepsMail(s: Cluster, st: Step)
    requires WFC(s) && MailExact(s) && HandlersHoused(s) && st.Comply? && Perform(ORDERLY, s, st).Some?
    ensures MailExact(Perform(ORDERLY, s, st).value)
    ensures HandlersHoused(Perform(ORDERLY, s, st).value)
  {
    var s' := Perform(ORDERLY, s, st).value;
    var c, dir := st.client, Directive(st.page);
    assert dir !in s.ports[c];
    forall x, m' | 0 <= x < |s'.ports|
      ensures Posted(s', x, m') <==> Home(s', m') == Some(x)
    {
      assert Posted(s, x, m') <==> Home(s, m') == Some(x);
      assert m' != dir ==> Home(s', m') == Home(s, m');
    }
    forall x | 0 <= x < |s'.ports| ensures |s'.pools[x]| <= NUM_RESPONDERS {
      SubsetSize(s'.pools[x], s.pools[x]);
    }
  }

  lemma TouchKeepsMail(s: Cluster, st: Step)
    requires WFC(s) && MailExact(s) && HandlersHoused(s)
    requires (st.Settle? || st.Read? || st.Write?) && Perform(ORDERLY, s, st).Some?
    ensures MailExact(Perform(ORDERLY, s, st).value)
    ensures HandlersHoused(Perform(ORDERLY, s, st).value)
  {
    var s' := Perform(ORDERLY, s, st).value;
    forall x, m' | 0 <= x < |s'.ports|
      ensures Posted(s', x, m') <==> Home(s', m') == Some(x)
    {
      assert Posted(s, x, m') <==> Home(s, m') == Some(x);
      assert Home(s', m') == Home(s, m');
    }
  }

  /** Only a Fault step makes a request outstanding. */
  lemma NoNewFaults(s: Cluster, mem: Memory, st: Step)
    requires Orderly(s, mem) && !st.Fault? && Perform(ORDERLY, s, st).Some?
    ensures OneFaultEach(Perform(ORDERLY, s, st).value)
  {
    var s' := Perform(ORDERLY, s, st).value;
    assert forall p :: 0 <= p < |s.pages| ==> Coherent(s.pages[p], mem[p]);
    hide MailExact, HandlersHoused, ClusterCoherent, Next, Coherent;
    forall c, p | 0 <= c < |s'.ports| && 0 <= p < |s'.pages| && Outstanding(s', c, p)
      ensures Outstanding(s, c, p)
    {
      if !st.Receive? && p == st.page {
        NoNewRequest(s.pages[p], mem[p], PageStep(st).value.1, c);
      }
    }
  }

  lemma NoNewRequest(pg: Page, mem: seq<int>, a: Action, c: nat)
    requires Coherent(pg, mem) && !a.Raise? && Next(ORDERLY, pg, a).Some? && c < |pg.locals|
    ensures pg.locals[c].request.Quiet? ==> Next(ORDERLY, pg, a).value.locals[c].request.Quiet?
  {
    if a.Begin? || a.Advance? {
      HandlerFootprint(pg, mem, if a.Begin? then a.client else pg.tx.client, a);
    }
  }

  lemma PerformKeepsOrderly(s: Cluster, mem: Memory, st: Step)
    requires Orderly(s, mem) && Perform(ORDERLY, s, st).Some?
    ensures Replay(mem, EventOf(st)).Some?
    ensures Orderly(Perform(ORDERLY, s, st).value, Replay(mem, EventOf(st)).value)
  {
    PerformRefines(s, mem, st);
    match st
    case Fault(_, _, _) =>
      FaultKeepsMail(s, st);
      FaultKeepsHousing(s, st);
    case Receive(_) => ReceiveKeepsMail(s, st);
    case Serve(c, _) =>
      HandlerKeepsMail(s, mem, st, c);
      NoNewFaults(s, mem, st);
    case Resume(p) =>
      HandlerKeepsMail(s, mem, st, s.pages[p].tx.client);
      NoNewFaults(s, mem, st);
    case Comply(_, _) =>
      ComplyKeepsMail(s, st);
      NoNewFaults(s, mem, st);
    case _ =>
      TouchKeepsMail(s, st);
      NoNewFaults(s, mem, st);
  }

  lemma {:induction false} RunKeepsOrderly(s: Cluster, mem: Memory, steps: seq<Step>)
    requires Orderly(s, mem) && Run(ORDERLY, s, steps).Some?
    ensures Replay(mem, Trace(steps)).Some?
    ensures Orderly(Run(ORDERLY, s, steps).value, Replay(mem, Trace(steps)).value)
    decreases |steps|
  {
    if steps == [] {
    } else {
      var st := steps[0];
      PerformKeepsOrderly(s, mem, st);
      var s', mem' := Perform(ORDERLY, s, st).value, Replay(mem, EventOf(st)).value;
      RunKeepsOrderly(s', mem', steps[1..]);
      ReplayAppend(mem, EventOf(st), Trace(steps[1..]));
    }
  }

  // ---------- progress ----------

  /** Steps of the system itself, as opposed to new faults and accesses of the application. */
  predicate SystemStep(st: Step) {
    !st.Fault? && !st.Read? && !st.Write?
  }

  ghost predicate CanMove(s: Cluster)
    requires WFC(s)
  {
    exists st :: SystemStep(st) && Perform(ORDERLY, s, st).Some?
  }

  lemma Moves(s: Cluster, st: Step)
    requires WFC(s) && SystemStep(st) && Perform(ORDERLY, s, st).Some?
    ensures CanMove(s)
  {
  }

  /** All of a client's responder threads are serving faults. */
  ghost predicate Saturated(s: Cluster, t: nat)
    requires WFC(s)
  {
    && t < |s.pools| && |s.pools[t]| == NUM_RESPONDERS
    && forall m :: m in s.pools[t] ==> m.FaultMsg?
  }

  /** A directive in a responder thread's hands can be obeyed, or its target can first install its grant. */
  lemma DirectiveInHandMoves(s: Cluster, mem: Memory, t: nat, p: nat)
    requires Orderly(s, mem) && t < |s.pools| && Directive(p) in s.pools[t]
    ensures CanMove(s)
  {
    assert Posted(s, t, Directive(p));
    assert Home(s, Directive(p)) == Some(t);
    if s.pages[p].locals[t].request.Granted? {
      Moves(s, Settle(t, p));
    } else {
      Moves(s, Comply(t, p));
    }
  }

  /** A handler that cannot move awaits a directive to another client whose pool is saturated. */
  lemma BlockedHandler(s: Cluster, mem: Memory, p: nat) returns (t: nat)
    requires Orderly(s, mem) && !CanMove(s) && p < |s.pages| && !s.pages[p].tx.Idle?
    ensures t != s.pages[p].owner && Saturated(s, t)
  {
    var pg := s.pages[p];
    assert Coherent(pg, mem[p]);
    if Target(pg).None? {
      Moves(s, Resume(p));
      assert false;
    }
    t := Target(pg).value;
    assert Home(s, Directive(p)) == Some(t);
    assert Posted(s, t, Directive(p));
    TargetIsNotOwner(pg, mem[p]);
    if |s.pools[t]| < NUM_RESPONDERS {
      if Directive(p) in s.pools[t] {
        DirectiveInHandMoves(s, mem, t, p);
      } else {
        Moves(s, Receive(t));
      }
      assert false;
    }
    forall m | m in s.pools[t] ensures m.FaultMsg? {
      if m.Directive? {
        DirectiveInHandMoves(s, mem, t, m.page);
      }
    }
  }

  /** An owner never sends a directive to itself. */
  lemma TargetIsNotOwner(pg: Page, mem: seq<int>)
    requires Coherent(pg, mem) && Target(pg).Some?
    ensures Target(pg).value != pg.owner
  {
  }

  /** A saturated pool that cannot move has a handler at work on some page of that owner. */
  lemma SaturatedPoolBlocks(s: Cluster, mem: Memory, t: nat) returns (p: nat)
    requires Orderly(s, mem) && !CanMove(s) && Saturated(s, t)
    ensures p < |s.pages| && s.pages[p].owner == t && !s.pages[p].tx.Idle?
  {
    var m :| m in s.pools[t];
    assert Posted(s, t, m);
    assert Home(s, m) == Some(t);
    p := m.page;
    if s.pages[p].tx.Idle? {
      Moves(s, Serve(m.client, p));
    }
  }

  function Requesters(pool: set<Msg>): set<nat> {
    set m | m in pool && m.FaultMsg? :: m.client
  }

  /** Distinct faults in a pool are faults of distinct clients. */
  lemma {:induction false} RequestersSize(s: Cluster, mem: Memory, t: nat, pool: set<Msg>)
    requires Orderly(s, mem) && t < |s.pools| && pool <= s.pools[t]
    requires forall m :: m in pool ==> m.FaultMsg?
    ensures |Requesters(pool)| == |pool|
    ensures forall c :: c in Requesters(pool) ==> c < |s.ports|
    decreases |pool|
  {
    if pool == {} {
      assert Requesters(pool) == {};
    } else {
      var m :| m in pool;
      RequestersSize(s, mem, t, pool - {m});
      assert Posted(s, t, m) && Home(s, m) == Some(t);
      forall m' | m' in pool - {m} ensures m'.client != m.client {
        assert Posted(s, t, m') && Home(s, m') == Some(t);
        assert Outstanding(s, m.client, m.page) && (m'.client == m.client ==> Outstanding(s, m.client, m'.page));
      }
      assert Requesters(pool) == Requesters(pool - {m}) + {m.client};
    }
  }

  /** Two clients' pools serve faults of different clients. */
  lemma RequestersDisjoint(s: Cluster, mem: Memory, t: nat, u: nat)
    requires Orderly(s, mem) && t < |s.pools| && u < |s.pools| && t != u
    ensures Requesters(s.pools[t]) !! Requesters(s.pools[u])
  {
    forall m, m' | m in s.pools[t] && m.FaultMsg? && m' in s.pools[u] && m'.FaultMsg?
      ensures m.client != m'.client
    {
      assert Posted(s, t, m) && Home(s, m) == Some(t);
      assert Posted(s, u, m') && Home(s, m') == Some(u);
      assert Outstanding(s, m.client, m.page) && (m'.client == m.client ==> Outstanding(s, m.client, m'.page));
    }
  }

  /**
   A blocked handler needs two saturated pools, so 2 * NUM_RESPONDERS clients with faults, and pages
   of two owners.
   */
  lemma BlockedNeedsTwoPools(s: Cluster, mem: Memory, p: nat)
    requires Orderly(s, mem) && !CanMove(s) && p < |s.pages| && !s.pages[p].tx.Idle?
    ensures |s.ports| >= 2 * NUM_RESPONDERS && |s.pages| >= 2
  {
    var t := BlockedHandler(s, mem, p);
    var q := SaturatedPoolBlocks(s, mem, t);
    var u := BlockedHandler(s, mem, q);
    var q' := SaturatedPoolBlocks(s, mem, u);
    assert q != q';
    RequestersSize(s, mem, t, s.pools[t]);
    RequestersSize(s, mem, u, s.pools[u]);
    RequestersDisjoint(s, mem, t, u);
    var both := Requesters(s.pools[t]) + Requesters(s.pools[u]);
    BoundedSetSize(both, |s.ports|);
  }

  /**
   Progress: with fewer than 2 * NUM_RESPONDERS clients, or a single page, no
   state with an outstanding fault is stuck.
   */
  lemma FaultsAreNeverStuck(s: Cluster, mem: Memory, c: nat, p: nat)
    requires Orderly(s, mem) && p < |s.pages| && c < |s.ports| && Outstanding(s, c, p)
    requires |s.ports| < 2 * NUM_RESPONDERS || |s.pages| < 2
    ensures CanMove(s)
  {
    if !CanMove(s) {
      var pg, m := s.pages[p], FaultMsg(p, c);
      assert LocalOk(pg, c, mem[p]);
      if pg.locals[c].request.Granted? {
        Moves(s, Settle(c, p));
      } else if !pg.tx.Idle? {
        BlockedNeedsTwoPools(s, mem, p);
      } else if c == pg.owner || m in s.pools[pg.owner] {
        Moves(s, Serve(c, p));
      } else {
        assert Home(s, m) == Some(pg.owner) && Posted(s, pg.owner, m);
        if |s.pools[pg.owner]| < NUM_RESPONDERS {
          Moves(s, Receive(pg.owner));
        } else {
          QueuedBehindFullPool(s, mem, pg.owner);
        }
      }
      assert false;
    }
  }

  lemma QueuedBehindFullPool(s: Cluster, mem: Memory, o: nat)
    requires Orderly(s, mem) && !CanMove(s) && o < |s.pools| && |s.pools[o]| == NUM_RESPONDERS
    ensures |s.ports| >= 2 * NUM_RESPONDERS && |s.pages| >= 2
  {
    forall m | m in s.pools[o] ensures m.FaultMsg? {
      if m.Directive? {
        DirectiveInHandMoves(s, mem, o, m.page);
      }
    }
    var q := SaturatedPoolBlocks(s, mem, o);
    BlockedNeedsTwoPools(s, mem, q);
  }
}
