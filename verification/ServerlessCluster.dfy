/**
 The whole serverless system: every page's protocol, the responder port of each
 client and the pool of responder threads behind it.  A run is any
 interleaving of application accesses, faults, responder threads and messages.
 */
module ServerlessCluster {
  import opened Base
  import opened FlatMemory
  import opened Paging
  import opened ServerlessPage
  import opened ServerlessSafety

  /** Responder threads of each client. */
  const NUM_RESPONDERS := 3

  /** What can wait on a responder port: a fault to serve as owner, or a directive to obey. */
  datatype Msg =
    | FaultMsg(page: nat, client: nat)
    | Directive(page: nat)

  /**
   ports[c] is client c's responder port; pools[c] holds the messages its
   responder threads are working on, at most NUM_RESPONDERS.
   */
  datatype Cluster = Cluster(pages: seq<Page>, ports: seq<seq<Msg>>, pools: seq<set<Msg>>)

  datatype Step =
    | Fault(client: nat, page: nat, kind: Paging.Fault)
    | Receive(client: nat)
    | Serve(client: nat, page: nat)
    | Comply(client: nat, page: nat)
    | Resume(page: nat)
    | Settle(client: nat, page: nat)
    | Read(client: nat, page: nat, offset: nat, value: int)
    | Write(client: nat, page: nat, offset: nat, value: int)

  ghost predicate WFC(s: Cluster) {
    && |s.ports| == |s.pools|
    && forall p :: 0 <= p < |s.pages| ==> WF(s.pages[p]) && |s.pages[p].locals| == |s.ports|
  }

  /** The distribution of ownership over clients. */
  function Hash(page: nat, clients: nat): nat
    requires clients > 0
  {
    page % clients
  }

  function Start(n: nat, mem: Memory): Cluster
    requires n > 0
  {
    Cluster(seq(|mem|, p requires 0 <= p < |mem| => Fresh(n, Hash(p, n), mem[p])),
            seq(n, c => []), seq(n, c => {}))
  }

  /** Client c's application thread is not stopped at a fault. */
  predicate Unfaulted(s: Cluster, c: nat) {
    forall p :: 0 <= p < |s.pages| && c < |s.pages[p].locals| ==> s.pages[p].locals[c].request.Quiet?
  }

  function Push(ports: seq<seq<Msg>>, c: nat, m: Msg): seq<seq<Msg>>
    requires c < |ports|
  {
    ports[c := ports[c] + [m]]
  }

  function Release(pools: seq<set<Msg>>, c: nat, m: Msg): seq<set<Msg>>
    requires c < |pools|
  {
    pools[c := pools[c] - {m}]
  }

  /**
   The handler of r's fault on page p has run up to pg: any directive is sent, and a finished
   handler frees its thread.
   */
  function Progressed(s: Cluster, p: nat, pg: Page, r: nat): Cluster
    requires WFC(s) && p < |s.pages| && WF(pg) && |pg.locals| == |s.ports|
  {
    Cluster(s.pages[p := pg],
            if Target(pg).Some? then Push(s.ports, Target(pg).value, Directive(p)) else s.ports,
            if pg.tx.Idle? then Release(s.pools, pg.owner, FaultMsg(p, r)) else s.pools)
  }

  /** The page a step is about, and what it does there. */
  function PageStep(st: Step): Option<(nat, Action)> {
    match st
    case Fault(c, p, f) => Some((p, Raise(c, f)))
    case Receive(_) => None
    case Serve(c, p) => Some((p, Begin(c)))
    case Comply(_, p) => Some((p, Handle))
    case Resume(p) => Some((p, Advance))
    case Settle(c, p) => Some((p, Install(c)))
    case Read(c, p, i, v) => Some((p, Load(c, i, v)))
    case Write(c, p, i, v) => Some((p, Store(c, i, v)))
  }

  /** What the ports, pools and the one application thread of a client add to a page's own guard. */
  predicate Enabled(s: Cluster, st: Step)
    requires WFC(s)
  {
    match st
    case Fault(c, p, _) => Unfaulted(s, c)
    case Receive(c) => c < |s.ports| && s.ports[c] != [] && |s.pools[c]| < NUM_RESPONDERS
    case Serve(c, p) =>
      p < |s.pages| && (c == s.pages[p].owner || FaultMsg(p, c) in s.pools[s.pages[p].owner])
    case Comply(c, p) =>
      p < |s.pages| && c < |s.ports| && Directive(p) in s.pools[c] && Target(s.pages[p]) == Some(c)
    case Resume(_) => true
    case Settle(_, _) => true
    case Read(c, _, _, _) => Unfaulted(s, c)
    case Write(c, _, _, _) => Unfaulted(s, c)
  }

  /** The cluster after step st, or None if it is not enabled. */
  function Perform(d: Discipline, s: Cluster, st: Step): (r: Option<Cluster>)
    requires WFC(s)
    ensures r.Some? ==> WFC(r.value) && |r.value.ports| == |s.ports| && |r.value.pages| == |s.pages|
  {
    if !Enabled(s, st) then None
    else if st.Receive? then
      var c := st.client;
      Some(s.(ports := s.ports[c := s.ports[c][1..]], pools := s.pools[c := s.pools[c] + {s.ports[c][0]}]))
    else
      var (p, a) := PageStep(st).value;
      if p >= |s.pages| then None
      else
        var pg := s.pages[p];
        var next := Next(d, pg, a);
        if next.None? then None
        else
          var pg' := next.value;
          var moved := s.(pages := s.pages[p := pg']);
          if st.Fault? && st.client != pg.owner then
            Some(moved.(ports := Push(s.ports, pg.owner, FaultMsg(p, st.client))))
          else if st.Serve? then
            Some(Progressed(s, p, pg', st.client))
          else if st.Resume? then
            Some(Progressed(s, p, pg', pg.tx.client))
          else if st.Comply? then
            Some(moved.(pools := Release(s.pools, st.client, Directive(p))))
          else
            Some(moved)
  }

  /** The cluster after a run, or None if some step of it is not enabled. */
  function Run(d: Discipline, s: Cluster, steps: seq<Step>): (r: Option<Cluster>)
    requires WFC(s)
    ensures r.Some? ==> WFC(r.value) && |r.value.ports| == |s.ports| && |r.value.pages| == |s.pages|
    decreases |steps|
  {
    if steps == [] then Some(s)
    else
      match Perform(d, s, steps[0])
      case None => None
      case Some(s') => Run(d, s', steps[1..])
  }

  lemma {:induction false} RunAppend(d: Discipline, s: Cluster, t: seq<Step>, u: seq<Step>)
    requires WFC(s)
    ensures Run(d, s, t + u) ==
            match Run(d, s, t) case None => None case Some(s') => Run(d, s', u)
    decreases |t|
  {
    if t == [] {
      assert t + u == u;
    } else {
      assert (t + u)[0] == t[0] && (t + u)[1..] == t[1..] + u;
      var next := Perform(d, s, t[0]);
      if next.Some? {
        RunAppend(d, next.value, t[1..], u);
      }
    }
  }

  function EventOf(st: Step): seq<Event> {
    match st
    case Read(c, p, i, v) => [LoadEvent(c, p, i, v)]
    case Write(c, p, i, v) => [StoreEvent(c, p, i, v)]
    case _ => []
  }

  /** The loads and stores of a run, in run order. */
  function Trace(steps: seq<Step>): seq<Event> {
    if steps == [] then [] else EventOf(steps[0]) + Trace(steps[1..])
  }

  lemma {:induction false} TraceAppend(t: seq<Step>, u: seq<Step>)
    ensures Trace(t + u) == Trace(t) + Trace(u)
  {
    if t == [] {
      assert t + u == u;
    } else {
      assert (t + u)[0] == t[0] && (t + u)[1..] == t[1..] + u;
      TraceAppend(t[1..], u);
    }
  }

  /** Every page is coherent with its latest contents and owned as the hash says. */
  ghost predicate ClusterCoherent(s: Cluster, mem: Memory) {
    && WFC(s)
    && |mem| == |s.pages|
    && |s.ports| > 0
    && forall p :: 0 <= p < |s.pages| ==>
                     Coherent(s.pages[p], mem[p]) && s.pages[p].owner == Hash(p, |s.ports|)
  }

  lemma StartIsCoherent(n: nat, mem: Memory)
    requires n > 0
    ensures ClusterCoherent(Start(n, mem), mem)
  {
    var s := Start(n, mem);
    forall p | 0 <= p < |s.pages| ensures Coherent(s.pages[p], mem[p]) {
      FreshIsCoherent(n, Hash(p, n), mem[p]);
    }
  }

  /** One step is a stutter or exactly one access of the flat memory. */
  lemma PerformRefines(s: Cluster, mem: Memory, st: Step)
    requires ClusterCoherent(s, mem) && Perform(ORDERLY, s, st).Some?
    ensures Replay(mem, EventOf(st)).Some?
    ensures ClusterCoherent(Perform(ORDERLY, s, st).value, Replay(mem, EventOf(st)).value)
    ensures forall i :: 0 <= i < |EventOf(st)| ==> EventOf(st)[i].client < |s.ports|
  {
    if !st.Receive? {
      var (p, a) := PageStep(st).value;
      NextKeepsCoherent(s.pages[p], mem[p], a);
      if st.Read? {
        LoadIsLatest(s.pages[p], mem[p], a);
      } else if st.Write? {
        StoreKeeps(s.pages[p], mem[p], a);
        assert EventOf(st)[1..] == [];
      }
    }
  }

  /**
   Coherence over whole runs: from any coherent state, and so from the start,
   the loads and stores of every run form a legal trace of one flat memory.
   */
  lemma {:induction false} RunRefinesFlatMemory(s: Cluster, mem: Memory, steps: seq<Step>)
    requires ClusterCoherent(s, mem) && Run(ORDERLY, s, steps).Some?
    ensures Legal(|s.ports|, mem, Trace(steps))
    ensures ClusterCoherent(Run(ORDERLY, s, steps).value, Replay(mem, Trace(steps)).value)
    decreases |steps|
  {
    if steps == [] {
    } else {
      var st := steps[0];
      PerformRefines(s, mem, st);
      var s', mem' := Perform(ORDERLY, s, st).value, Replay(mem, EventOf(st)).value;
      RunRefinesFlatMemory(s', mem', steps[1..]);
      ReplayAppend(mem, EventOf(st), Trace(steps[1..]));
    }
  }

  /** A cluster some run of n clients from contents mem0 leads to, with the latest contents at that point. */
  ghost predicate Reached(n: nat, mem0: Memory, steps: seq<Step>, s: Cluster, mem: Memory) {
    && n > 0
    && Run(ORDERLY, Start(n, mem0), steps) == Some(s)
    && Replay(mem0, Trace(steps)) == Some(mem)
  }

  lemma ReachedIsCoherent(n: nat, mem0: Memory, steps: seq<Step>, s: Cluster, mem: Memory)
    requires Reached(n, mem0, steps, s, mem)
    ensures ClusterCoherent(s, mem) && |s.ports| == n
  {
    StartIsCoherent(n, mem0);
    RunRefinesFlatMemory(Start(n, mem0), mem0, steps);
  }

  /** Every load of every run returns the value of the last store to its word, or the initial one. */
  lemma EveryLoadIsLatest(n: nat, mem0: Memory, before: seq<Step>, c: nat, p: nat, i: nat, v: int)
    requires n > 0 && Run(ORDERLY, Start(n, mem0), before + [Read(c, p, i, v)]).Some?
    ensures Replay(mem0, Trace(before)).Some?
    ensures var mem := Replay(mem0, Trace(before)).value;
            p < |mem| && i < |mem[p]| && mem[p][i] == v
  {
    var s0, st := Start(n, mem0), Read(c, p, i, v);
    StartIsCoherent(n, mem0);
    RunAppend(ORDERLY, s0, before, [st]);
    RunRefinesFlatMemory(s0, mem0, before);
    var s, mem := Run(ORDERLY, s0, before).value, Replay(mem0, Trace(before)).value;
    assert [st][0] == st && Perform(ORDERLY, s, st).Some?;
    LoadIsLatest(s.pages[p], mem[p], Load(c, i, v));
  }

  // ---------- what holds of every page in every reachable state ----------

  /** Client c can use the page for loads. */
  predicate Readable(pg: Page, c: nat)
    requires WF(pg) && c < |pg.locals|
  {
    pg.locals[c].prot != PROT_NONE && !(pg.tx.Window? && c == pg.owner)
  }

  /**
   Single writer or many readers, at every point of every run: when a client
   has or is being sent write access nobody else has or is being sent any, and
   every copy that can be used or is in flight is the latest.  Only the owner's
   own frame is excepted, while it is open for the copy of a fetched page, and
   then no other client has write access.
   */
  lemma SingleWriterOrManyReaders(n: nat, mem0: Memory, steps: seq<Step>, s: Cluster, mem: Memory, p: nat, c: nat,
                                  c': nat)
    requires Reached(n, mem0, steps, s, mem)
    requires p < |s.pages| && c < n && c' < n && c != c'
    ensures WFC(s) && |s.pages[p].locals| == n && p < |mem|
    ensures LevelOf(s.pages[p].locals[c]) == LWrite && !(s.pages[p].tx.Window? && c == s.pages[p].owner)
            ==> LevelOf(s.pages[p].locals[c']) == LNone
    ensures s.pages[p].tx.Window? && c != s.pages[p].owner ==> LevelOf(s.pages[p].locals[c]) != LWrite
    ensures Readable(s.pages[p], c) ==> s.pages[p].locals[c].data == mem[p]
    ensures match s.pages[p].locals[c].request
            case Granted(ReadData(d)) => d == mem[p]
            case Granted(WriteData(d)) => d == mem[p]
            case Granted(WritePerm) => s.pages[p].locals[c].data == mem[p]
            case _ => true
  {
    ReachedIsCoherent(n, mem0, steps, s, mem);
    assert LocalOk(s.pages[p], c, mem[p]) && LocalOk(s.pages[p], c', mem[p]);
    assert LocalOk(s.pages[p], s.pages[p].owner, mem[p]);
  }

  /** The error exits of both handlers are never taken. */
  lemma ErrorExitsUnreachable(n: nat, mem0: Memory, steps: seq<Step>, s: Cluster, p: nat)
    requires n > 0 && Run(ORDERLY, Start(n, mem0), steps) == Some(s) && p < |s.pages|
    ensures !s.pages[p].tx.Crashed?
  {
    StartIsCoherent(n, mem0);
    RunRefinesFlatMemory(Start(n, mem0), mem0, steps);
  }

  /** Between transactions the owner's directory is exact. */
  lemma DirectoryIsExact(n: nat, mem0: Memory, steps: seq<Step>, s: Cluster, mem: Memory, p: nat)
    requires Reached(n, mem0, steps, s, mem) && p < |s.pages|
    requires s.pages[p].tx.Idle?
    ensures WFC(s) && |s.pages[p].locals| == n
    ensures DirectoryExact(s.pages[p])
  {
    ReachedIsCoherent(n, mem0, steps, s, mem);
    IdleDirectoryIsExact(s.pages[p], mem[p]);
  }

  /**
   A remote write fault served on a READ page is answered with bare permission
   exactly when the requester still holds its copy, and then that copy is the
   latest; a requester invalidated while it waited is sent the latest data.
   */
  lemma PermissionWithoutDataIsSound(n: nat, mem0: Memory, steps: seq<Step>, s: Cluster, mem: Memory, p: nat)
    requires Reached(n, mem0, steps, s, mem) && p < |s.pages|
    requires s.pages[p].tx.Drain? && s.pages[p].readers == [] && s.pages[p].tx.client != s.pages[p].owner
    ensures WFC(s) && Perform(ORDERLY, s, Resume(p)).Some? && p < |mem|
    ensures var c := s.pages[p].tx.client;
            var l := s.pages[p].locals[c];
            Perform(ORDERLY, s, Resume(p)).value.pages[p].locals[c].request ==
            if l.prot == PROT_READ then Granted(WritePerm) else Granted(WriteData(mem[p]))
    ensures var c := s.pages[p].tx.client;
            var l := s.pages[p].locals[c];
            l.prot == PROT_READ ==> l.data == mem[p]
  {
    ReachedIsCoherent(n, mem0, steps, s, mem);
    DrainedAnswer(s.pages[p], mem[p]);
  }

  /** The owner's read fault served on a READ page changes nothing, and finds the owner with a readable latest copy. */
  lemma SelfReadFaultOnReadPage(n: nat, mem0: Memory, steps: seq<Step>, s: Cluster, mem: Memory, p: nat)
    requires Reached(n, mem0, steps, s, mem) && p < |s.pages|
    requires WFC(s) && Own(s.pages[p]).state == READ && s.pages[p].tx.Idle?
    requires Own(s.pages[p]).request == Waiting(ReadFault)
    ensures p < |mem|
    ensures var o := s.pages[p].owner;
            && Own(s.pages[p]).prot == PROT_READ && Own(s.pages[p]).data == mem[p]
            && Perform(ORDERLY, s, Serve(o, p)).Some?
            && var s' := Perform(ORDERLY, s, Serve(o, p)).value;
               s'.pages[p] == Put(s.pages[p], o, Own(s.pages[p]).(request := Quiet))
  {
    ReachedIsCoherent(n, mem0, steps, s, mem);
    assert LocalOk(s.pages[p], s.pages[p].owner, mem[p]);
  }
}
