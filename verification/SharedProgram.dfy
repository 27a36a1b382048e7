/**
 The matrix program on the serverless shared memory: the clients' accesses are
 loads and stores of the paged cluster, faults and protocol messages run between
 them, and the barriers are those of the synchronisation service.
 */
module SharedProgram {
  import opened Base
  import opened FlatMemory
  import opened Arithmetic
  import opened Paging
  import ServerlessPage
  import Cluster = ServerlessCluster
  import Barrier
  import opened Workload

  /** The client count, size and fills of the program, and the words of a page. */
  datatype Setup = Setup(config: Config, words: nat)

  predicate ValidSetup(u: Setup) {
    ValidConfig(u.config) && u.words > 0
  }

  datatype World = World(cluster: Cluster.Cluster, sync: Barrier.Sys, pcs: seq<Pc>)

  /** Protocol: anything the memory does; Op: a client's next access, loading v; Sync: a barrier action. */
  datatype Step = Protocol(step: Cluster.Step) | Op(client: nat, v: int) | Sync(action: Barrier.Action)

  ghost predicate WFW(u: Setup, d: World) {
    && ValidSetup(u) && Cluster.WFC(d.cluster) && |d.cluster.ports| == u.config.n
    && Barrier.WFS(d.sync) && |d.sync.phases| == u.config.n && |d.pcs| == u.config.n
  }

  function WantOf(u: Setup, d: World, c: nat): Option<Want>
    requires WFW(u, d)
  {
    if c < |d.pcs| then Wants(u.config, c, d.pcs[c]) else None
  }

  /** The page that word a of the region is in, and its place there. */
  function PageOf(a: nat, w: nat): nat
    requires w > 0
  {
    a / w
  }

  function OffsetOf(a: nat, w: nat): (offset: nat)
    requires w > 0
    ensures offset < w
  {
    a % w
  }

  /** The access as the paged memory sees it. */
  function Touch(u: Setup, c: nat, want: Want, v: int): Cluster.Step
    requires u.words > 0
  {
    match want
    case Get(a) => Cluster.Read(c, PageOf(a, u.words), OffsetOf(a, u.words), v)
    case Put(a, x) => Cluster.Write(c, PageOf(a, u.words), OffsetOf(a, u.words), x)
  }

  function Loaded(want: Want, v: int): int {
    match want case Get(_) => v case Put(_, x) => x
  }

  /** The fault a client takes when it lacks the access it needs next. */
  function FaultOf(u: Setup, c: nat, want: Want): Cluster.Step
    requires u.words > 0
  {
    Cluster.Fault(c, PageOf(want.addr, u.words), if want.Get? then ReadFault else WriteFault)
  }

  /** A client faults only where its program is; loads and stores are its own. */
  predicate MayProtocol(u: Setup, d: World, st: Cluster.Step)
    requires WFW(u, d)
  {
    match st
    case Fault(c, _, _) => WantOf(u, d, c).Some? && st == FaultOf(u, c, WantOf(u, d, c).value)
    case Read(_, _, _, _) => false
    case Write(_, _, _, _) => false
    case _ => true
  }

  function Next(u: Setup, d: World, st: Step): (r: Option<World>)
    requires WFW(u, d)
    ensures r.Some? ==> WFW(u, r.value)
  {
    match st
    case Protocol(s) =>
      if !MayProtocol(u, d, s) then None
      else
        var next := Cluster.Perform(ServerlessPage.ORDERLY, d.cluster, s);
        if next.None? then None else Some(d.(cluster := next.value))
    case Op(c, v) =>
      var want := WantOf(u, d, c);
      if want.None? then None
      else
        var next := Cluster.Perform(ServerlessPage.ORDERLY, d.cluster, Touch(u, c, want.value, v));
        if next.None? then None
        else Some(d.(cluster := next.value, pcs := d.pcs[c := After(u.config, c, d.pcs[c], Loaded(want.value, v))]))
    case Sync(a) =>
      if !MaySync(u.config, d.sync, d.pcs, a) then None
      else
        var next := Barrier.Next(d.sync, a);
        if next.None? then None
        else Some(d.(sync := next.value, pcs := Resumed(u.config, next.value, d.pcs, a)))
  }

  function Start(u: Setup, mem: Memory): (d: World)
    requires ValidSetup(u)
    ensures WFW(u, d)
  {
    var s := Begin(u.config, []);
    World(Cluster.Start(u.config.n, mem), s.sync, s.pcs)
  }

  function Run(u: Setup, d: World, steps: seq<Step>): (r: Option<World>)
    requires WFW(u, d)
    ensures r.Some? ==> WFW(u, r.value)
    decreases |steps|
  {
    if steps == [] then Some(d)
    else
      match Next(u, d, steps[0])
      case None => None
      case Some(d') => Run(u, d', steps[1..])
  }

  /** What a step does to the paged memory. */
  function MemorySteps(u: Setup, d: World, st: Step): seq<Cluster.Step>
    requires WFW(u, d)
  {
    match st
    case Protocol(s) => [s]
    case Op(c, v) => if WantOf(u, d, c).Some? then [Touch(u, c, WantOf(u, d, c).value, v)] else []
    case Sync(_) => []
  }

  /** What a run does to the paged memory. */
  function MemoryRun(u: Setup, d: World, steps: seq<Step>): seq<Cluster.Step>
    requires WFW(u, d)
    decreases |steps|
  {
    if steps == [] then []
    else
      match Next(u, d, steps[0])
      case None => []
      case Some(d') => MemorySteps(u, d, steps[0]) + MemoryRun(u, d', steps[1..])
  }

  /** The same run on flat memory: the memory's own steps disappear. */
  function Erase(steps: seq<Step>): seq<Workload.Step> {
    if steps == [] then [] else Erased(steps[0]) + Erase(steps[1..])
  }

  function Erased(st: Step): seq<Workload.Step> {
    match st
    case Protocol(_) => []
    case Op(c, _) => [Workload.Op(c)]
    case Sync(a) => [Workload.Sync(a)]
  }

  // ---------- pages as flat memory ----------

  ghost predicate Shaped(mem: Memory, w: nat) {
    w > 0 && forall p :: 0 <= p < |mem| ==> |mem[p]| == w
  }

  lemma WordOf(mem: Memory, w: nat, a: nat)
    requires Shaped(mem, w)
    ensures PageOf(a, w) < |mem| <==> a < |mem| * w
    ensures a < |mem| * w ==> OffsetOf(a, w) < |mem[PageOf(a, w)]|
  {
    DivBelow(a, w, |mem|);
  }

  ghost function WordAt(mem: Memory, w: nat, a: nat): int
    requires Shaped(mem, w) && a < |mem| * w
  {
    WordOf(mem, w, a);
    mem[PageOf(a, w)][OffsetOf(a, w)]
  }

  /** The words of the pages one after the other. */
  ghost function Flatten(mem: Memory, w: nat): (words: seq<int>)
    requires Shaped(mem, w)
    ensures |words| == |mem| * w
  {
    seq(|mem| * w, a requires 0 <= a < |mem| * w => WordAt(mem, w, a))
  }

  lemma SameWord(a: nat, b: nat, w: nat)
    requires w > 0
    ensures a == b <==> PageOf(a, w) == PageOf(b, w) && OffsetOf(a, w) == OffsetOf(b, w)
  {
    assert b == b / w * w + b % w && a == a / w * w + a % w;
  }

  /** The pages after a store to one word. */
  function Stored(mem: Memory, p: nat, o: nat, v: int): Memory
    requires p < |mem| && o < |mem[p]|
  {
    mem[p := mem[p][o := v]]
  }

  /** A store to a word of a page is a store to one flat word. */
  lemma FlattenStore(mem: Memory, w: nat, a: nat, v: int)
    requires Shaped(mem, w) && a < |mem| * w
    ensures PageOf(a, w) < |mem| && OffsetOf(a, w) < |mem[PageOf(a, w)]|
    ensures var mem' := Stored(mem, PageOf(a, w), OffsetOf(a, w), v);
            Shaped(mem', w) && Flatten(mem', w) == Flatten(mem, w)[a := v]
  {
    hide PageOf, OffsetOf;
    WordOf(mem, w, a);
    var mem' := Stored(mem, PageOf(a, w), OffsetOf(a, w), v);
    forall b | 0 <= b < |mem| * w ensures Flatten(mem', w)[b] == Flatten(mem, w)[a := v][b] {
      WordOf(mem, w, b);
      SameWord(a, b, w);
    }
  }

  // ---------- refinement ----------

  /** The paged world stands for the flat state. */
  ghost predicate Tracks(u: Setup, d: World, mem: Memory, s: State) {
    && WFW(u, d) && Cluster.ClusterCoherent(d.cluster, mem) && Shaped(mem, u.words)
    && s == State(Flatten(mem, u.words), d.sync, d.pcs)
  }

  /** One step of the world is none or one of the program on flat memory. */
  lemma NextTracks(u: Setup, d: World, mem: Memory, s: State, st: Step) returns (mem': Memory, s': State)
    requires Tracks(u, d, mem, s) && Next(u, d, st).Some?
    ensures Tracks(u, Next(u, d, st).value, mem', s')
    ensures Replay(mem, Cluster.Trace(MemorySteps(u, d, st))) == Some(mem')
    ensures if st.Protocol? then s' == s else Move(u.config, s, Erased(st)[0]) == Some(s')
  {
    match st
    case Sync(a) =>
      mem', s' := mem, Move(u.config, s, Workload.Sync(a)).value;
    case Protocol(m) =>
      Cluster.PerformRefines(d.cluster, mem, m);
      assert Cluster.EventOf(m) == [];
      SingleTrace(m);
      mem', s' := mem, s;
    case Op(c, v) =>
      var want := WantOf(u, d, c).value;
      var m := Touch(u, c, want, v);
      Cluster.PerformRefines(d.cluster, mem, m);
      SingleTrace(m);
      mem' := Replay(mem, Cluster.EventOf(m)).value;
      OpTracks(u, mem, c, want, v);
      s' := Move(u.config, s, Workload.Op(c)).value;
  }

  lemma SingleTrace(m: Cluster.Step)
    ensures Cluster.Trace([m]) == Cluster.EventOf(m)
  {
    assert [m][1..] == [];
    assert Cluster.EventOf(m) + [] == Cluster.EventOf(m);
  }

  /** An access that is legal on the pages is the access of the flat word. */
  lemma OpTracks(u: Setup, mem: Memory, c: nat, want: Want, v: int)
    requires ValidSetup(u) && Shaped(mem, u.words)
    requires Replay(mem, Cluster.EventOf(Touch(u, c, want, v))).Some?
    ensures want.addr < |mem| * u.words
    ensures var mem' := Replay(mem, Cluster.EventOf(Touch(u, c, want, v))).value;
            && Shaped(mem', u.words)
            && if want.Get? then mem' == mem && Flatten(mem, u.words)[want.addr] == v
               else Flatten(mem', u.words) == Flatten(mem, u.words)[want.addr := want.value]
  {
    var e := Cluster.EventOf(Touch(u, c, want, v));
    assert e[1..] == [];
    var a := want.addr;
    WordOf(mem, u.words, a);
    FlattenStore(mem, u.words, a, Loaded(want, v));
  }

  lemma StartTracks(u: Setup, mem: Memory)
    requires ValidSetup(u) && Shaped(mem, u.words)
    ensures Tracks(u, Start(u, mem), mem, Begin(u.config, Flatten(mem, u.words)))
  {
    Cluster.StartIsCoherent(u.config.n, mem);
  }

  /**
   Every run of the program on the paged memory is, memory steps erased, a run
   of the program on flat memory, ending in the same words, barriers and loops.
   */
  lemma {:induction false} RunErases(u: Setup, d: World, mem: Memory, s: State, steps: seq<Step>)
    returns (mem': Memory, s': State)
    requires Tracks(u, d, mem, s) && Run(u, d, steps).Some?
    ensures Tracks(u, Run(u, d, steps).value, mem', s')
    ensures Replay(mem, Cluster.Trace(MemoryRun(u, d, steps))) == Some(mem')
    ensures Execute(u.config, s, Erase(steps)) == Some(s')
    ensures Cluster.Run(ServerlessPage.ORDERLY, d.cluster, MemoryRun(u, d, steps))
            == Some(Run(u, d, steps).value.cluster)
    decreases |steps|
  {
    if steps == [] {
      mem', s' := mem, s;
    } else {
      var st := steps[0];
      var mem1, s1 := NextTracks(u, d, mem, s, st);
      var d1 := Next(u, d, st).value;
      mem', s' := RunErases(u, d1, mem1, s1, steps[1..]);
      var here, rest := MemorySteps(u, d, st), MemoryRun(u, d1, steps[1..]);
      Cluster.TraceAppend(here, rest);
      ReplayAppend(mem, Cluster.Trace(here), Cluster.Trace(rest));
      NextIsMemoryRun(u, d, st);
      Cluster.RunAppend(ServerlessPage.ORDERLY, d.cluster, here, rest);
      EraseStep(u.config, s, steps, s1);
    }
  }

  lemma NextIsMemoryRun(u: Setup, d: World, st: Step)
    requires WFW(u, d) && Next(u, d, st).Some?
    ensures Cluster.Run(ServerlessPage.ORDERLY, d.cluster, MemorySteps(u, d, st)) == Some(Next(u, d, st).value.cluster)
  {
    var here := MemorySteps(u, d, st);
    if here != [] {
      assert here[1..] == [];
    }
  }

  lemma EraseStep(k: Config, s: State, steps: seq<Step>, s': State)
    requires WFP(k, s) && WFP(k, s') && steps != []
    requires if steps[0].Protocol? then s' == s else Move(k, s, Erased(steps[0])[0]) == Some(s')
    ensures Execute(k, s, Erase(steps)) == Execute(k, s', Erase(steps[1..]))
  {
    if steps[0].Protocol? {
      assert Erase(steps) == Erase(steps[1..]);
    } else {
      assert Erase(steps)[1..] == Erase(steps[1..]);
    }
  }
}
