/** The matrix program on the serverless shared memory computes the right answer, in every run. */
module EndToEnd {
  import opened Base
  import opened FlatMemory
  import opened Arithmetic
  import opened Matrix
  import opened Layout
  import Cluster = ServerlessCluster
  import Barrier
  import opened Workload
  import opened WorkloadProof
  import opened SharedProgram

  /** The region the constructor allocates, page by page, holds all three matrices. */
  lemma RegionHoldsMatrices(u: Setup, mem: Memory)
    requires ValidSetup(u) && Shaped(mem, u.words) && |mem| == CalcPages(u.config.size, ELEMENT * u.words)
    ensures |Flatten(mem, u.words)| >= 3 * Cells(u.config)
  {
    var e, w := Cells(u.config), u.words;
    assert e * ELEMENT * 3 == ELEMENT * (3 * e);
    DivCancel(3 * e, w, ELEMENT);
    DivBelow(3 * e, w, |mem|);
  }

  /** A world some run of the program leads to, with the latest contents of the memory at that point. */
  ghost predicate Reached(u: Setup, mem0: Memory, steps: seq<SharedProgram.Step>, d: World, mem: Memory) {
    && ValidSetup(u) && Shaped(mem0, u.words) && |mem0| == CalcPages(u.config.size, ELEMENT * u.words)
    && SharedProgram.Run(u, SharedProgram.Start(u, mem0), steps) == Some(d)
    && Replay(mem0, Cluster.Trace(MemoryRun(u, SharedProgram.Start(u, mem0), steps))) == Some(mem)
  }

  lemma ReachedIsTracked(u: Setup, mem0: Memory, steps: seq<SharedProgram.Step>, d: World, mem: Memory)
    returns (s: State)
    requires Reached(u, mem0, steps, d, mem)
    ensures Tracks(u, d, mem, s) && Inv(u.config, s)
    ensures |Flatten(mem0, u.words)| >= 3 * Cells(u.config)
    ensures Execute(u.config, Begin(u.config, Flatten(mem0, u.words)), Erase(steps)) == Some(s)
    ensures Cluster.Run(ServerlessPage.ORDERLY, Cluster.Start(u.config.n, mem0),
                        MemoryRun(u, SharedProgram.Start(u, mem0), steps)) == Some(d.cluster)
  {
    var d0, s0 := SharedProgram.Start(u, mem0), Begin(u.config, Flatten(mem0, u.words));
    StartTracks(u, mem0);
    var mem';
    mem', s := RunErases(u, d0, mem0, s0, steps);
    RegionHoldsMatrices(u, mem0);
    BeginIsInv(u.config, s0.words);
    ExecuteIsInv(u.config, s0, Erase(steps));
  }

  /** Word i of the region, contains v. */
  predicate Holds(mem: Memory, w: nat, i: nat, v: int)
    requires w > 0
  {
    PageOf(i, w) < |mem| && OffsetOf(i, w) < |mem[PageOf(i, w)]| && mem[PageOf(i, w)][OffsetOf(i, w)] == v
  }

  /** The word at which the shared memory keeps cell i of the result matrix. */
  lemma ResultWord(u: Setup, mem: Memory, i: nat)
    requires ValidSetup(u) && Shaped(mem, u.words) && i < Cells(u.config) <= |Flatten(mem, u.words)|
    ensures Place(u.config, M, i) == i && Holds(mem, u.words, i, Flatten(mem, u.words)[i])
  {
    WordOf(mem, u.words, i);
  }

  /**
   The parallel multiplication on the serverless memory, for any contents of the
   matrices: in every run, once client 0's CLEAN_UP is answered, the latest
   contents of the pages hold at each result cell its initial value plus the
   product of its row and column.
   */
  lemma ParallelMultiplyOnPages(u: Setup, mem0: Memory, steps: seq<SharedProgram.Step>, d: World, mem: Memory, i: nat)
    requires Reached(u, mem0, steps, d, mem) && i < Cells(u.config)
    requires WFW(u, d) && Barrier.Cleaned(d.sync)
    ensures Cluster.ClusterCoherent(d.cluster, mem)
    ensures ValidConfig(u.config) && u.words > 0
    ensures Holds(mem, u.words, i,
                  u.config.m0[i] + DotAt(u.config.x0, u.config.y0, u.config.size, i, u.config.size))
  {
    var k := u.config;
    var s := ReachedIsTracked(u, mem0, steps, d, mem);
    ResultWord(u, mem, i);
    ResultIsComplete(k, s, i);
  }

  lemma CheckHasSucceeded(n: nat, size: nat, s: State)
    requires n > 0 && Inv(Vmatrix(n, size), s)
    ensures s.sync.phases[0].AwaitDone? || s.sync.phases[0].Finished? ==> s.pcs[0] == Check(size * size, true)
  {
    forall i | 0 <= i < size * size ensures Final(Vmatrix(n, size), i) == i {
      VmatrixResult(n, size, i);
    }
    assert PcOk(Vmatrix(n, size), 0, s.sync.phases[0], s.pcs[0]);
  }

  /**
   End to end: for every number of clients, every size and page width, any
   initial memory and every interleaving of the clients' accesses, the
   protocol's steps and the barrier messages, when client 0's CLEAN_UP is
   answered m[i] == i for every cell, and when client 0 has looked at them all
   its check has succeeded.
   */
  lemma MatrixProgramIsCorrect(n: nat, size: nat, w: nat, mem0: Memory, steps: seq<SharedProgram.Step>, d: World,
                               mem: Memory)
    requires n > 0 && w > 0 && Reached(Setup(Vmatrix(n, size), w), mem0, steps, d, mem)
    ensures WFW(Setup(Vmatrix(n, size), w), d)
    ensures Cluster.ClusterCoherent(d.cluster, mem)
    ensures Barrier.Cleaned(d.sync) ==> forall i :: 0 <= i < size * size ==> Holds(mem, w, i, i)
    ensures d.sync.phases[0].AwaitDone? || d.sync.phases[0].Finished? ==> d.pcs[0] == Check(size * size, true)
  {
    var u := Setup(Vmatrix(n, size), w);
    var s := ReachedIsTracked(u, mem0, steps, d, mem);
    CheckHasSucceeded(n, size, s);
    hide Inv, Holds;
    if Barrier.Cleaned(d.sync) {
      forall i | 0 <= i < size * size ensures Holds(mem, w, i, i) {
        VmatrixResult(n, size, i);
        ParallelMultiplyOnPages(u, mem0, steps, d, mem, i);
      }
    }
  }
}
