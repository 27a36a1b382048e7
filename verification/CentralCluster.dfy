/**
 The whole central-server system: a single server thread that serves one fault
 at a time over all pages, and any number of clients.  Perform leaves open which
 waiting fault is served next; the server's port, which is first in, first out,
 is a condition on the steps of a run, InOrder.
 */
module CentralCluster {
  import opened Base
  import opened Paging
  import opened FlatMemory
  import opened CentralPage
  import opened CentralSafety

  datatype Step =
    | Fault(client: nat, page: nat, kind: Paging.Fault)
    | Serve(client: nat, page: nat)
    | Comply(page: nat)
    | Reprotect(client: nat, page: nat)
    | Resume(page: nat)
    | Settle(client: nat, page: nat)
    | Read(client: nat, page: nat, offset: nat, value: int)
    | Write(client: nat, page: nat, offset: nat, value: int)

  ghost predicate WFC(n: nat, pages: seq<Page>) {
    forall p :: 0 <= p < |pages| ==> WF(pages[p]) && |pages[p].clients| == n
  }

  function Start(n: nat, mem: Memory): seq<Page> {
    seq(|mem|, p requires 0 <= p < |mem| => Fresh(n, mem[p]))
  }

  predicate Unfaulted(pages: seq<Page>, c: nat) {
    forall p :: 0 <= p < |pages| && c < |pages[p].clients| ==> pages[p].clients[c].request.Quiet?
  }

  /** The server thread is between requests. */
  predicate ServerFree(pages: seq<Page>) {
    forall p :: 0 <= p < |pages| ==> pages[p].tx.Idle?
  }

  function ActionOf(st: Step): Action {
    match st
    case Fault(c, _, f) => Raise(c, f)
    case Serve(c, _) => Begin(c)
    case Comply(_) => Handle
    case Reprotect(c, _) => Protect(c)
    case Resume(_) => Advance
    case Settle(c, _) => Install(c)
    case Read(c, _, i, v) => Load(c, i, v)
    case Write(c, _, i, v) => Store(c, i, v)
  }

  /** Client c's responder thread has changed the protection it was told to change, and receives again. */
  predicate ResponderFree(pages: seq<Page>, c: nat) {
    forall p :: 0 <= p < |pages| && c < |pages[p].clients| ==> pages[p].clients[c].late.None?
  }

  predicate Enabled(n: nat, pages: seq<Page>, st: Step)
    requires WFC(n, pages)
  {
    && st.page < |pages|
    && (st.Serve? ==> ServerFree(pages))
    && (st.Comply? && Target(pages[st.page]).Some? ==> ResponderFree(pages, Target(pages[st.page]).value))
    && (st.Fault? || st.Read? || st.Write? ==> Unfaulted(pages, st.client))
  }

  function Perform(d: Discipline, n: nat, pages: seq<Page>, st: Step): (r: Option<seq<Page>>)
    requires WFC(n, pages)
    ensures r.Some? ==> WFC(n, r.value) && |r.value| == |pages|
  {
    if !Enabled(n, pages, st) then None
    else
      match Next(d, pages[st.page], ActionOf(st))
      case None => None
      case Some(pg') => Some(pages[st.page := pg'])
  }

  function Run(d: Discipline, n: nat, pages: seq<Page>, steps: seq<Step>): (r: Option<seq<Page>>)
    requires WFC(n, pages)
    ensures r.Some? ==> WFC(n, r.value) && |r.value| == |pages|
    decreases |steps|
  {
    if steps == [] then Some(pages)
    else
      match Perform(d, n, pages, steps[0])
      case None => None
      case Some(pages') => Run(d, n, pages', steps[1..])
  }

  lemma {:induction false} RunAppend(d: Discipline, n: nat, pages: seq<Page>, t: seq<Step>, u: seq<Step>)
    requires WFC(n, pages)
    ensures Run(d, n, pages, t + u) ==
            match Run(d, n, pages, t) case None => None case Some(pages') => Run(d, n, pages', u)
    decreases |t|
  {
    if t == [] {
      assert t + u == u;
    } else {
      assert (t + u)[0] == t[0] && (t + u)[1..] == t[1..] + u;
      var next := Perform(d, n, pages, t[0]);
      if next.Some? {
        RunAppend(d, n, next.value, t[1..], u);
      }
    }
  }

  // ---------- the server's port ----------

  /** A fault on its way to the server. */
  datatype Call = Call(client: nat, page: nat)

  /** The port after a step: a fault joins its end, and the server takes the one at its head. */
  function PortAfter(port: seq<Call>, st: Step): Option<seq<Call>> {
    match st
    case Fault(c, p, _) => Some(port + [Call(c, p)])
    case Serve(c, p) => if port != [] && port[0] == Call(c, p) then Some(port[1..]) else None
    case _ => Some(port)
  }

  /** The port after a run, or None if some fault is served out of order. */
  function Port(port: seq<Call>, steps: seq<Step>): Option<seq<Call>>
    decreases |steps|
  {
    if steps == [] then Some(port)
    else
      match PortAfter(port, steps[0])
      case None => None
      case Some(port') => Port(port', steps[1..])
  }

  /** The server takes faults from its port in the order of their arrival. */
  predicate InOrder(steps: seq<Step>) {
    Port([], steps).Some?
  }

  lemma {:induction false} PortAppend(port: seq<Call>, t: seq<Step>, u: seq<Step>)
    ensures Port(port, t + u) == match Port(port, t) case None => None case Some(port') => Port(port', u)
    decreases |t|
  {
    if t == [] {
      assert t + u == u;
    } else {
      assert (t + u)[0] == t[0] && (t + u)[1..] == t[1..] + u;
      var next := PortAfter(port, t[0]);
      if next.Some? {
        PortAppend(next.value, t[1..], u);
      }
    }
  }

  lemma PortOne(port: seq<Call>, st: Step)
    ensures Port(port, [st]) == PortAfter(port, st)
  {
    assert [st][0] == st && [st][1..] == [];
  }

  lemma PortServed(c: nat, p: nat)
    ensures PortAfter([Call(c, p)], Serve(c, p)) == Some([])
    ensures PortAfter([], Serve(c, p)).None?
  {
    assert [Call(c, p)][1..] == [];
  }

  function EventOf(st: Step): seq<Event> {
    match st
    case Read(c, p, i, v) => [LoadEvent(c, p, i, v)]
    case Write(c, p, i, v) => [StoreEvent(c, p, i, v)]
    case _ => []
  }

  function Trace(steps: seq<Step>): seq<Event> {
    if steps == [] then [] else EventOf(steps[0]) + Trace(steps[1..])
  }

  /** Faults raised in a run. */
  function FaultsRaised(steps: seq<Step>): nat {
    if steps == [] then 0 else (if steps[0].Fault? then 1 else 0) + FaultsRaised(steps[1..])
  }

  lemma {:induction false} TraceAppend(t: seq<Step>, u: seq<Step>)
    ensures Trace(t + u) == Trace(t) + Trace(u)
  {
    if t == [] {
      assert t + u == u;
    } else {
      assert (t + u)[0] == t[0] && (t + u)[1..] == t[1..] + u;
      TraceAppend(t[1..], u);
    }
  }

  ghost predicate AllCoherent(n: nat, pages: seq<Page>, mem: Memory) {
    && WFC(n, pages) && |mem| == |pages|
    && forall p :: 0 <= p < |pages| ==> Coherent(pages[p], mem[p])
  }

  /** At most one page has a fault in service. */
  ghost predicate OneAtATime(pages: seq<Page>) {
    forall p, q :: 0 <= p < |pages| && 0 <= q < |pages| && !pages[p].tx.Idle? && !pages[q].tx.Idle? ==> p == q
  }

  lemma StartIsCoherent(n: nat, mem: Memory)
    ensures AllCoherent(n, Start(n, mem), mem) && OneAtATime(Start(n, mem))
  {
    forall p | 0 <= p < |mem| ensures Coherent(Start(n, mem)[p], mem[p]) {
      FreshIsCoherent(n, mem[p]);
    }
  }

  /** One step is a stutter or exactly one access of the flat memory. */
  lemma PerformRefines(n: nat, pages: seq<Page>, mem: Memory, st: Step)
    requires AllCoherent(n, pages, mem) && OneAtATime(pages) && Perform(ORDERLY, n, pages, st).Some?
    ensures Replay(mem, EventOf(st)).Some?
    ensures AllCoherent(n, Perform(ORDERLY, n, pages, st).value, Replay(mem, EventOf(st)).value)
    ensures OneAtATime(Perform(ORDERLY, n, pages, st).value)
    ensures forall i :: 0 <= i < |EventOf(st)| ==> EventOf(st)[i].client < n
  {
    var p, a := st.page, ActionOf(st);
    NextKeepsCoherent(pages[p], mem[p], a);
    if st.Read? {
      LoadIsLatest(pages[p], mem[p], a);
    } else if st.Write? {
      StoreKeeps(pages[p], mem[p], a);
      assert EventOf(st)[1..] == [];
    }
    if pages[p].tx.Idle? && !a.Begin? {
      OnlyBeginStarts(pages[p], a);
    }
    assert st.Read? || st.Write? ==> st.client < n;
    hide Next, Coherent;
  }

  lemma OnlyBeginStarts(pg: Page, a: Action)
    requires WF(pg) && !a.Begin? && Next(ORDERLY, pg, a).Some? && pg.tx.Idle?
    ensures Next(ORDERLY, pg, a).value.tx.Idle?
  {
  }

  /** Coherence over whole runs of the central-server system. */
  lemma {:induction false} RunRefinesFlatMemory(n: nat, pages: seq<Page>, mem: Memory, steps: seq<Step>)
    requires AllCoherent(n, pages, mem) && OneAtATime(pages) && Run(ORDERLY, n, pages, steps).Some?
    ensures Legal(n, mem, Trace(steps))
    ensures AllCoherent(n, Run(ORDERLY, n, pages, steps).value, Replay(mem, Trace(steps)).value)
    ensures OneAtATime(Run(ORDERLY, n, pages, steps).value)
    decreases |steps|
  {
    if steps == [] {
    } else {
      var st := steps[0];
      PerformRefines(n, pages, mem, st);
      RunRefinesFlatMemory(n, Perform(ORDERLY, n, pages, st).value, Replay(mem, EventOf(st)).value, steps[1..]);
      ReplayAppend(mem, EventOf(st), Trace(steps[1..]));
    }
  }

  ghost predicate Reached(n: nat, mem0: Memory, steps: seq<Step>, pages: seq<Page>, mem: Memory) {
    && Run(ORDERLY, n, Start(n, mem0), steps) == Some(pages)
    && Replay(mem0, Trace(steps)) == Some(mem)
  }

  lemma ReachedIsCoherent(n: nat, mem0: Memory, steps: seq<Step>, pages: seq<Page>, mem: Memory)
    requires Reached(n, mem0, steps, pages, mem)
    ensures AllCoherent(n, pages, mem) && OneAtATime(pages)
  {
    StartIsCoherent(n, mem0);
    RunRefinesFlatMemory(n, Start(n, mem0), mem0, steps);
  }

  /** Between transactions the server's page table is exact, and outside WRITE its master copy is the latest. */
  lemma PageTableIsExact(n: nat, mem0: Memory, steps: seq<Step>, pages: seq<Page>, mem: Memory, p: nat)
    requires Reached(n, mem0, steps, pages, mem) && p < |pages| && pages[p].tx.Idle?
    ensures p < |mem| && TableExact(pages[p], mem[p])
  {
    ReachedIsCoherent(n, mem0, steps, pages, mem);
    IdleTableIsExact(pages[p], mem[p]);
  }

  /** In every reachable state every usable copy, and every page on its way to a client, is the latest. */
  lemma EveryCopyIsLatest(n: nat, mem0: Memory, steps: seq<Step>, pages: seq<Page>, mem: Memory, p: nat, c: nat,
                          c': nat)
    requires Reached(n, mem0, steps, pages, mem) && p < |pages| && c < n && c' < n && c != c'
    ensures p < |mem| && |pages[p].clients| == n
    ensures pages[p].clients[c].prot != PROT_NONE ==> pages[p].clients[c].data == mem[p]
    ensures match pages[p].clients[c].request
            case Granted(ReadData(d)) => d == mem[p]
            case Granted(WriteData(d)) => d == mem[p]
            case Granted(WritePerm) => pages[p].clients[c].data == mem[p]
            case _ => true
    ensures LevelOf(pages[p].clients[c]) == LWrite ==> LevelOf(pages[p].clients[c']) == LNone
  {
    ReachedIsCoherent(n, mem0, steps, pages, mem);
    assert ClientOk(pages[p], c, mem[p]) && ClientOk(pages[p], c', mem[p]);
  }

  /**
   A write fault served on a READ page is answered with bare permission exactly when the requester
   still holds its copy.
   */
  lemma PermissionWithoutDataIsSound(n: nat, mem0: Memory, steps: seq<Step>, pages: seq<Page>, mem: Memory, p: nat)
    requires Reached(n, mem0, steps, pages, mem) && p < |pages|
    requires pages[p].tx.Drain? && pages[p].queue == []
    ensures WFC(n, pages) && p < |mem| && pages[p].tx.client < n
    ensures var c := pages[p].tx.client;
            var l := pages[p].clients[c];
            && (l.prot == PROT_READ ==> l.data == mem[p])
            && Perform(ORDERLY, n, pages, Resume(p)).Some?
            && Perform(ORDERLY, n, pages, Resume(p)).value[p].clients[c].request ==
               if l.prot == PROT_READ then Granted(WritePerm) else Granted(WriteData(mem[p]))
  {
    ReachedIsCoherent(n, mem0, steps, pages, mem);
    assert ClientOk(pages[p], pages[p].tx.client, mem[p]);
  }

  /** A step the system itself can take while a fault is outstanding. */
  lemma SomeStepIsEnabled(n: nat, pages: seq<Page>, mem: Memory, c: nat, p: nat) returns (st: Step)
    requires AllCoherent(n, pages, mem) && p < |pages| && c < n && !pages[p].clients[c].request.Quiet?
    ensures !st.Fault? && !st.Read? && !st.Write? && Perform(ORDERLY, n, pages, st).Some?
  {
    if pages[p].clients[c].request.Granted? {
      st := Settle(c, p);
    } else if ServerFree(pages) {
      st := Serve(c, p);
    } else {
      var q :| 0 <= q < |pages| && !pages[q].tx.Idle?;
      st := ServerStep(n, pages, mem, q);
    }
  }

  /** Every client changes its protection with its reply. */
  lemma NobodyIsLate(n: nat, pages: seq<Page>, mem: Memory, c: nat)
    requires AllCoherent(n, pages, mem)
    ensures ResponderFree(pages, c)
  {
    forall p | 0 <= p < |pages| && c < |pages[p].clients| ensures pages[p].clients[c].late.None? {
      assert ClientOk(pages[p], c, mem[p]);
    }
  }

  lemma ServerStep(n: nat, pages: seq<Page>, mem: Memory, q: nat) returns (st: Step)
    requires AllCoherent(n, pages, mem) && q < |pages| && !pages[q].tx.Idle?
    ensures !st.Fault? && !st.Read? && !st.Write? && Perform(ORDERLY, n, pages, st).Some?
  {
    if Target(pages[q]).None? {
      st := Resume(q);
    } else if pages[q].clients[Target(pages[q]).value].request.Granted? {
      st := Settle(Target(pages[q]).value, q);
    } else {
      NobodyIsLate(n, pages, mem, Target(pages[q]).value);
      st := Comply(q);
    }
  }

  /** With a single server thread no fault is ever stuck, however many clients there are. */
  lemma FaultsAreNeverStuck(n: nat, mem0: Memory, steps: seq<Step>, pages: seq<Page>, mem: Memory, c: nat, p: nat)
    returns (st: Step)
    requires Reached(n, mem0, steps, pages, mem) && p < |pages| && c < n
    requires WFC(n, pages) && !pages[p].clients[c].request.Quiet?
    ensures !st.Fault? && !st.Read? && !st.Write? && Perform(ORDERLY, n, pages, st).Some?
  {
    ReachedIsCoherent(n, mem0, steps, pages, mem);
    st := SomeStepIsEnabled(n, pages, mem, c, p);
  }

  /**
   While a page is written the server's copy falls behind: any store of a value
   other than the server's happens in WRITE and leaves the server's copy
   different from the latest contents.
   */
  lemma StoreLeavesMasterBehind(n: nat, mem0: Memory, steps: seq<Step>, pages: seq<Page>, mem: Memory,
                                c: nat, p: nat, i: nat, v: int)
    requires Reached(n, mem0, steps, pages, mem) && WFC(n, pages)
    requires Perform(ORDERLY, n, pages, Write(c, p, i, v)).Some? && pages[p].tx.Idle?
    requires i < |pages[p].master| && pages[p].master[i] != v
    ensures pages[p].state == WRITE && pages[p].owner == Some(c)
    ensures var pages' := Perform(ORDERLY, n, pages, Write(c, p, i, v)).value;
            var mem' := Replay(mem, [StoreEvent(c, p, i, v)]);
            && mem'.Some? && p < |mem'.value| && AllCoherent(n, pages', mem'.value)
            && pages'[p].state == WRITE && pages'[p].master != mem'.value[p]
  {
    ReachedIsCoherent(n, mem0, steps, pages, mem);
    PerformRefines(n, pages, mem, Write(c, p, i, v));
    assert ClientOk(pages[p], c, mem[p]);
    StoreKeeps(pages[p], mem[p], Store(c, i, v));
    assert [StoreEvent(c, p, i, v)][1..] == [];
  }
}
