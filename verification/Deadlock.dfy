/**
 The bound of the progress result is exact: 2 * NUM_RESPONDERS clients and two
 pages are enough for a run into a state with outstanding faults in which the
 system itself can take no step.
 */
module Deadlock {
  import opened Base
  import opened FlatMemory
  import opened Paging
  import opened ServerlessPage
  import opened ServerlessCluster
  import opened ServerlessSchedule
  import opened Responders

  /** Faults are outstanding and no step of the system is enabled. */
  ghost predicate Stuck(s: Cluster)
    requires WFC(s)
  {
    && !CanMove(s)
    && exists c, p :: 0 <= c < |s.ports| && 0 <= p < |s.pages| && Outstanding(s, c, p)
  }

  /** Page q as owned by client q and read by client r as well; the clients in w have write faults waiting. */
  function SharedPage(n: nat, q: nat, r: nat, contents: seq<int>, w: set<nat>): Page
    requires q < n
  {
    Page(q, None, [r],
         seq(n, c => if c == q then Local(PROT_READ, READ, contents, Quiet)
                     else
                       var request := if c in w then Waiting(WriteFault) else Quiet;
                       if c == r then Local(PROT_READ, NO_ACCESS, contents, request)
                       else Local(PROT_NONE, NO_ACCESS, seq(|contents|, i => 0), request)),
         Idle)
  }

  /** The three actions by which client r comes to read page q. */
  lemma SharePageActions(n: nat, q: nat, r: nat, contents: seq<int>) returns (pg1: Page, pg2: Page)
    requires q < n && r < n && q != r
    ensures Next(ORDERLY, Fresh(n, q, contents), Raise(r, ReadFault)) == Some(pg1)
    ensures WF(pg1) && Next(ORDERLY, pg1, Begin(r)) == Some(pg2)
    ensures WF(pg2) && pg2.tx.Idle? && Next(ORDERLY, pg2, Install(r)) == Some(SharedPage(n, q, r, contents, {}))
    ensures |pg1.locals| == |pg2.locals| == n && pg1.owner == q
  {
    pg1 := Next(ORDERLY, Fresh(n, q, contents), Raise(r, ReadFault)).value;
    pg2 := Next(ORDERLY, pg1, Begin(r)).value;
    var pg3 := Next(ORDERLY, pg2, Install(r)).value;
    assert pg3.locals == SharedPage(n, q, r, contents, {}).locals;
    assert [] + [r] == [r];
    assert pg3 == SharedPage(n, q, r, contents, {});
  }

  /** A read fault of client r on the fresh page q, served and installed. */
  lemma ShareOnePage(n: nat, pages: seq<Page>, q: nat, r: nat, contents: seq<int>)
    requires Pages(n, pages) && q < |pages| && q < n && r < n && q != r
    requires pages[q] == Fresh(n, q, contents)
    requires Unfaulted(Staged(n, pages, None), r)
    ensures Reaches(ORDERLY, Staged(n, pages, None), Staged(n, pages[q := SharedPage(n, q, r, contents, {})], None), [])
  {
    var pg1, pg2 := SharePageActions(n, q, r, contents);
    var s0, s2 := Staged(n, pages, None), Staged(n, pages[q := pg2], None);
    ReadServed(n, pages, q, r, pg1, pg2);
    ReadSettled(n, pages, q, r, pg2, SharedPage(n, q, r, contents, {}));
    hide Reaches;
    Chain(ORDERLY, s0, s2, [], Staged(n, pages[q := SharedPage(n, q, r, contents, {})], None), []);
  }

  lemma ReadServed(n: nat, pages: seq<Page>, q: nat, r: nat, pg1: Page, pg2: Page)
    requires Pages(n, pages) && q < |pages| && r < n && q != r && pages[q].owner == q
    requires Unfaulted(Staged(n, pages, None), r) && Next(ORDERLY, pages[q], Raise(r, ReadFault)) == Some(pg1)
    requires WF(pg1) && |pg1.locals| == n && Next(ORDERLY, pg1, Begin(r)) == Some(pg2) && pg2.tx.Idle?
    ensures Reaches(ORDERLY, Staged(n, pages, None), Staged(n, pages[q := pg2], None), [])
  {
    var t := RequestRule(ORDERLY, n, pages, q, r, ReadFault);
    var s1 := Staged(n, pages[q := pg1], Holding(pages[q], q, r));
    HandlerRule(ORDERLY, n, pages[q := pg1], q, r, Begin(r));
    assert pages[q := pg1][q := pg2] == pages[q := pg2];
    Compose(ORDERLY, Staged(n, pages, None), t, s1, [], [Serve(r, q)], Staged(n, pages[q := pg2], None), []);
  }

  lemma ReadSettled(n: nat, pages: seq<Page>, q: nat, r: nat, pg2: Page, pg3: Page)
    requires Pages(n, pages) && q < |pages| && WF(pg2) && |pg2.locals| == n
    requires Next(ORDERLY, pg2, Install(r)) == Some(pg3)
    ensures Reaches(ORDERLY, Staged(n, pages[q := pg2], None), Staged(n, pages[q := pg3], None), [])
  {
    TouchRule(ORDERLY, n, pages[q := pg2], None, q, Settle(r, q));
    assert pages[q := pg2][q := pg3] == pages[q := pg3];
  }

  /** A client's remote fault, received by a responder thread of the owner. */
  function Taken(s: Cluster, p: nat, c: nat, f: Paging.Fault): Cluster
    requires WFC(s) && p < |s.pages| && c < |s.ports|
  {
    var o := s.pages[p].owner;
    s.(pages := s.pages[p := Put(s.pages[p], c, s.pages[p].locals[c].(request := Waiting(f)))],
       pools := s.pools[o := s.pools[o] + {FaultMsg(p, c)}])
  }

  lemma TakeFault(s: Cluster, p: nat, c: nat, f: Paging.Fault)
    requires WFC(s) && p < |s.pages| && c < |s.ports| && c != s.pages[p].owner
    requires s.ports[s.pages[p].owner] == [] && |s.pools[s.pages[p].owner]| < NUM_RESPONDERS
    requires Unfaulted(s, c) && Next(ORDERLY, s.pages[p], Raise(c, f)).Some?
    ensures WFC(Taken(s, p, c, f)) && Reaches(ORDERLY, s, Taken(s, p, c, f), [])
  {
    var o, m := s.pages[p].owner, FaultMsg(p, c);
    OneStep(ORDERLY, s, Fault(c, p, f));
    var s1 := Perform(ORDERLY, s, Fault(c, p, f)).value;
    assert s1.ports[o] == [m];
    OneStep(ORDERLY, s1, Receive(o));
    var s2 := Perform(ORDERLY, s1, Receive(o)).value;
    assert [m][1..] == [];
    assert s2.ports == s.ports;
    assert s2 == Taken(s, p, c, f);
    Compose(ORDERLY, s, [Fault(c, p, f)], s1, [], [Receive(o)], s2, []);
  }

  /** Both pages shared, with the write faults of a on page 0 and of b on page 1 in the owners' hands. */
  function Crowd(n: nat, rest: seq<Page>, m0: seq<int>, m1: seq<int>, a: set<nat>, b: set<nat>): Cluster
    requires n >= 2
  {
    Cluster([SharedPage(n, 0, 1, m0, a), SharedPage(n, 1, 0, m1, b)] + rest, seq(n, i => []),
            seq(n, i => if i == 0 then (set c | c in a :: FaultMsg(0, c))
                        else if i == 1 then (set c | c in b :: FaultMsg(1, c)) else {}))
  }

  ghost predicate Resting(n: nat, rest: seq<Page>) {
    && Pages(n, rest)
    && forall p :: 0 <= p < |rest| ==> rest[p].tx.Idle? && forall c :: 0 <= c < n ==> rest[p].locals[c].request.Quiet?
  }

  function Inhabitants(p: nat, a: set<nat>): set<Msg> {
    set c | c in a :: FaultMsg(p, c)
  }

  lemma InhabitantsSize(p: nat, a: set<nat>)
    ensures |Inhabitants(p, a)| == |a|
  {
    if a == {} {
      assert Inhabitants(p, a) == {};
    } else {
      var c :| c in a;
      InhabitantsSize(p, a - {c});
      assert Inhabitants(p, a) == Inhabitants(p, a - {c}) + {FaultMsg(p, c)};
    }
  }

  lemma JoinPageZeroIsCrowd(n: nat, rest: seq<Page>, m0: seq<int>, m1: seq<int>, a: set<nat>, b: set<nat>, c: nat)
    requires n >= 2 && Resting(n, rest) && 0 < c < n
    ensures WFC(Crowd(n, rest, m0, m1, a, b))
    ensures Taken(Crowd(n, rest, m0, m1, a, b), 0, c, WriteFault) == Crowd(n, rest, m0, m1, a + {c}, b)
  {
    var s, s' := Crowd(n, rest, m0, m1, a, b), Crowd(n, rest, m0, m1, a + {c}, b);
    var t := Taken(s, 0, c, WriteFault);
    assert t.pages[0].locals == s'.pages[0].locals;
    assert t.pages == s'.pages;
    assert t.pools[0] == s'.pools[0];
    assert t.pools == s'.pools;
  }

  lemma JoinPageZero(n: nat, rest: seq<Page>, m0: seq<int>, m1: seq<int>, a: set<nat>, b: set<nat>, c: nat)
    requires n >= 2 && Resting(n, rest) && 0 < c < n && c !in a && c !in b && |a| < NUM_RESPONDERS
    ensures Reaches(ORDERLY, Crowd(n, rest, m0, m1, a, b), Crowd(n, rest, m0, m1, a + {c}, b), [])
  {
    var s := Crowd(n, rest, m0, m1, a, b);
    JoinPageZeroIsCrowd(n, rest, m0, m1, a, b, c);
    InhabitantsSize(0, a);
    assert s.pools[0] == Inhabitants(0, a);
    TakeFault(s, 0, c, WriteFault);
  }

  lemma JoinPageOneIsCrowd(n: nat, rest: seq<Page>, m0: seq<int>, m1: seq<int>, a: set<nat>, b: set<nat>, c: nat)
    requires n >= 2 && Resting(n, rest) && c < n && c != 1
    ensures WFC(Crowd(n, rest, m0, m1, a, b))
    ensures Taken(Crowd(n, rest, m0, m1, a, b), 1, c, WriteFault) == Crowd(n, rest, m0, m1, a, b + {c})
  {
    var s, s' := Crowd(n, rest, m0, m1, a, b), Crowd(n, rest, m0, m1, a, b + {c});
    var t := Taken(s, 1, c, WriteFault);
    assert t.pages[1].locals == s'.pages[1].locals;
    assert t.pages == s'.pages;
    assert t.pools[1] == s'.pools[1];
    assert t.pools == s'.pools;
  }

  lemma JoinPageOne(n: nat, rest: seq<Page>, m0: seq<int>, m1: seq<int>, a: set<nat>, b: set<nat>, c: nat)
    requires n >= 2 && Resting(n, rest) && c < n && c != 1 && c !in a && c !in b && |b| < NUM_RESPONDERS
    ensures Reaches(ORDERLY, Crowd(n, rest, m0, m1, a, b), Crowd(n, rest, m0, m1, a, b + {c}), [])
  {
    var s := Crowd(n, rest, m0, m1, a, b);
    JoinPageOneIsCrowd(n, rest, m0, m1, a, b, c);
    InhabitantsSize(1, b);
    assert s.pools[1] == Inhabitants(1, b);
    TakeFault(s, 1, c, WriteFault);
  }

  /** Page q's handler has dequeued reader r and sent it PAGE_INVALID. */
  function Waits(s: Cluster, q: nat, c: nat, r: nat): Cluster
    requires q < |s.pages| && r < |s.ports|
  {
    s.(pages := s.pages[q := s.pages[q].(readers := [], tx := AskInval(c, false, r))],
       ports := Push(s.ports, r, Directive(q)))
  }

  lemma StartDrain(s: Cluster, q: nat, c: nat, r: nat)
    requires WFC(s) && q < |s.pages| && r < |s.ports| && c < |s.ports| && c != r
    requires var pg := s.pages[q];
             && pg.tx.Idle? && pg.readers == [r] && Own(pg).state == READ
             && pg.locals[c].request == Waiting(WriteFault) && FaultMsg(q, c) in s.pools[pg.owner]
    ensures WFC(Waits(s, q, c, r)) && Reaches(ORDERLY, s, Waits(s, q, c, r), [])
  {
    OneStep(ORDERLY, s, Serve(c, q));
    var s1 := Perform(ORDERLY, s, Serve(c, q)).value;
    OneStep(ORDERLY, s1, Resume(q));
    var s2 := Perform(ORDERLY, s1, Resume(q)).value;
    assert [r][1..] == [];
    assert s2.pages == Waits(s, q, c, r).pages;
    assert s2 == Waits(s, q, c, r);
    Compose(ORDERLY, s, [Serve(c, q)], s1, [], [Resume(q)], s2, []);
  }

  /** Pages 0 and 1 both shared by clients 0 and 1, nothing else going on. */
  lemma BothPagesShared(n: nat, mem: Memory) returns (rest: seq<Page>)
    requires n >= 2 && |mem| >= 2
    ensures Resting(n, rest)
    ensures Reaches(ORDERLY, Start(n, mem), Crowd(n, rest, mem[0], mem[1], {}, {}), [])
    ensures |rest| == |mem| - 2
  {
    hide Reaches;
    var pages := Start(n, mem).pages;
    var pages1 := pages[0 := SharedPage(n, 0, 1, mem[0], {})];
    var pages2 := pages1[1 := SharedPage(n, 1, 0, mem[1], {})];
    StartIsStaged(n, mem);
    ShareOnePage(n, pages, 0, 1, mem[0]);
    ShareOnePage(n, pages1, 1, 0, mem[1]);
    rest := pages[2..];
    StagedIsCrowd(n, pages, rest, mem[0], mem[1]);
    Chain(ORDERLY, Start(n, mem), Staged(n, pages1, None), [], Staged(n, pages2, None), []);
  }

  lemma StagedIsCrowd(n: nat, pages: seq<Page>, rest: seq<Page>, m0: seq<int>, m1: seq<int>)
    requires n >= 2 && |pages| >= 2 && rest == pages[2..]
    ensures Staged(n, pages[0 := SharedPage(n, 0, 1, m0, {})][1 := SharedPage(n, 1, 0, m1, {})], None)
            == Crowd(n, rest, m0, m1, {}, {})
  {
    var s := Staged(n, pages[0 := SharedPage(n, 0, 1, m0, {})][1 := SharedPage(n, 1, 0, m1, {})], None);
    var t := Crowd(n, rest, m0, m1, {}, {});
    assert s.pages == t.pages;
    assert t.pools[0] == {} && t.pools[1] == {};
    assert s.pools == t.pools;
  }

  /** The clients from lo to hi - 1. */
  function Range(lo: nat, hi: nat): (r: set<nat>)
    ensures forall c :: c in r <==> lo <= c < hi
  {
    if lo >= hi then {} else Range(lo, hi - 1) + {hi - 1}
  }

  /** The clients whose faults fill client 0's pool, client 1 among them, and client 1's pool, client 0 among them. */
  const LEFT := Range(1, NUM_RESPONDERS + 1)
  const RIGHT := {0} + Range(NUM_RESPONDERS + 1, 2 * NUM_RESPONDERS)

  lemma {:induction false} RangeSize(lo: nat, hi: nat)
    requires lo <= hi
    ensures |Range(lo, hi)| == hi - lo
    decreases hi - lo
  {
    if lo == hi {
    } else {
      RangeSize(lo, hi - 1);
    }
  }

  /** As many write faults in each owner's hands as it has responder threads. */
  lemma BothPoolsFilled(n: nat, rest: seq<Page>, m0: seq<int>, m1: seq<int>)
    requires n >= 2 * NUM_RESPONDERS && Resting(n, rest)
    ensures Reaches(ORDERLY, Crowd(n, rest, m0, m1, {}, {}), Crowd(n, rest, m0, m1, LEFT, RIGHT), [])
  {
    hide Reaches;
    var s0, s1 := Crowd(n, rest, m0, m1, {}, {}), Crowd(n, rest, m0, m1, LEFT, {});
    PoolZeroFilled(n, rest, m0, m1, NUM_RESPONDERS + 1);
    JoinPageOne(n, rest, m0, m1, LEFT, {}, 0);
    Chain(ORDERLY, s0, s1, [], Crowd(n, rest, m0, m1, LEFT, {} + {0}), []);
    PoolOneFilled(n, rest, m0, m1, 2 * NUM_RESPONDERS);
    assert {} + {0} == {0};
    Chain(ORDERLY, s0, Crowd(n, rest, m0, m1, LEFT, {0}), [], Crowd(n, rest, m0, m1, LEFT, RIGHT), []);
  }

  lemma {:induction false} PoolZeroFilled(n: nat, rest: seq<Page>, m0: seq<int>, m1: seq<int>, k: nat)
    requires n >= 2 * NUM_RESPONDERS && Resting(n, rest) && 1 <= k <= NUM_RESPONDERS + 1
    ensures Reaches(ORDERLY, Crowd(n, rest, m0, m1, {}, {}), Crowd(n, rest, m0, m1, Range(1, k), {}), [])
    decreases k
  {
    var s0 := Crowd(n, rest, m0, m1, {}, {});
    if k == 1 {
      assert Range(1, 1) == {};
      StayPut(ORDERLY, s0);
    } else {
      hide Reaches;
      PoolZeroFilled(n, rest, m0, m1, k - 1);
      RangeSize(1, k - 1);
      JoinPageZero(n, rest, m0, m1, Range(1, k - 1), {}, k - 1);
      assert Range(1, k - 1) + {k - 1} == Range(1, k);
      Chain(ORDERLY, s0, Crowd(n, rest, m0, m1, Range(1, k - 1), {}), [], Crowd(n, rest, m0, m1, Range(1, k), {}), []);
    }
  }

  lemma {:induction false} PoolOneFilled(n: nat, rest: seq<Page>, m0: seq<int>, m1: seq<int>, k: nat)
    requires n >= 2 * NUM_RESPONDERS && Resting(n, rest) && NUM_RESPONDERS + 1 <= k <= 2 * NUM_RESPONDERS
    ensures Reaches(ORDERLY, Crowd(n, rest, m0, m1, LEFT, {0}),
                    Crowd(n, rest, m0, m1, LEFT, {0} + Range(NUM_RESPONDERS + 1, k)), [])
    decreases k
  {
    var s0, lo := Crowd(n, rest, m0, m1, LEFT, {0}), NUM_RESPONDERS + 1;
    if k == lo {
      assert {0} + Range(lo, k) == {0};
      StayPut(ORDERLY, s0);
    } else {
      hide Reaches, Resting, Range;
      PoolOneFilled(n, rest, m0, m1, k - 1);
      var b := {0} + Range(lo, k - 1);
      NextOnRight(k);
      JoinPageOne(n, rest, m0, m1, LEFT, b, k - 1);
      Chain(ORDERLY, s0, Crowd(n, rest, m0, m1, LEFT, b), [], Crowd(n, rest, m0, m1, LEFT, {0} + Range(lo, k)), []);
    }
  }

  lemma NextOnRight(k: nat)
    requires NUM_RESPONDERS + 1 < k <= 2 * NUM_RESPONDERS
    ensures var b := {0} + Range(NUM_RESPONDERS + 1, k - 1);
            && k - 1 !in LEFT && k - 1 !in b && |b| < NUM_RESPONDERS
            && b + {k - 1} == {0} + Range(NUM_RESPONDERS + 1, k)
  {
    RangeSize(NUM_RESPONDERS + 1, k - 1);
  }

  lemma StayPut(d: Discipline, s: Cluster)
    requires WFC(s)
    ensures Reaches(d, s, s, [])
  {
    assert Leads(d, s, [], s, []);
  }

  /** The client whose fault on page 0, and on page 1, is in service. */
  const FIRST := 2
  const SECOND := NUM_RESPONDERS + 1

  /** Each owner waits for the other to obey, and neither has a responder thread left to do so. */
  function Embrace(n: nat, rest: seq<Page>, m0: seq<int>, m1: seq<int>): Cluster
    requires n >= 2 * NUM_RESPONDERS
  {
    Waits(Waits(Crowd(n, rest, m0, m1, LEFT, RIGHT), 0, FIRST, 1), 1, SECOND, 0)
  }

  lemma EmbraceReached(n: nat, rest: seq<Page>, m0: seq<int>, m1: seq<int>)
    requires n >= 2 * NUM_RESPONDERS && Resting(n, rest)
    ensures Reaches(ORDERLY, Crowd(n, rest, m0, m1, LEFT, RIGHT), Embrace(n, rest, m0, m1), [])
    ensures WFC(Embrace(n, rest, m0, m1))
  {
    var s := Crowd(n, rest, m0, m1, LEFT, RIGHT);
    StartDrain(s, 0, FIRST, 1);
    var s1 := Waits(s, 0, FIRST, 1);
    assert FaultMsg(1, SECOND) in s1.pools[1];
    StartDrain(s1, 1, SECOND, 0);
    hide Reaches;
    Chain(ORDERLY, s, s1, [], Embrace(n, rest, m0, m1), []);
  }

  lemma PoolsAreFull()
    ensures |LEFT| == |RIGHT| == NUM_RESPONDERS
    ensures |Inhabitants(0, LEFT)| == |Inhabitants(1, RIGHT)| == NUM_RESPONDERS
  {
    RangeSize(1, NUM_RESPONDERS + 1);
    RangeSize(NUM_RESPONDERS + 1, 2 * NUM_RESPONDERS);
    InhabitantsSize(0, LEFT);
    InhabitantsSize(1, RIGHT);
  }

  /** In the embrace both pools are full of faults, and nothing else is in anybody's hands. */
  lemma EmbracePools(n: nat, rest: seq<Page>, m0: seq<int>, m1: seq<int>)
    requires n >= 2 * NUM_RESPONDERS
    ensures var s := Embrace(n, rest, m0, m1);
            && |s.ports| == |s.pools| == n
            && |s.pools[0]| == |s.pools[1]| == NUM_RESPONDERS
            && (forall x, m :: 0 <= x < n && m in s.pools[x] ==> m.FaultMsg? && m.page == x < 2)
            && (forall x :: 2 <= x < n ==> s.ports[x] == [])
  {
    var s := Embrace(n, rest, m0, m1);
    PoolsAreFull();
    hide LEFT, RIGHT, SharedPage;
    assert s.pools[0] == Inhabitants(0, LEFT) && s.pools[1] == Inhabitants(1, RIGHT);
  }

  /** Both owners' handlers wait for a reader to obey, and no grant is on its way. */
  lemma EmbracePages(n: nat, rest: seq<Page>, m0: seq<int>, m1: seq<int>)
    requires n >= 2 * NUM_RESPONDERS && Resting(n, rest)
    ensures var s := Embrace(n, rest, m0, m1);
            && WFC(s) && |s.pages| == 2 + |rest|
            && s.pages[0].tx.AskInval? && s.pages[1].tx.AskInval?
            && (forall p, c :: 0 <= p < |s.pages| && 0 <= c < n ==> !s.pages[p].locals[c].request.Granted?)
            && (forall p :: 2 <= p < |s.pages| ==> s.pages[p] == rest[p - 2])
            && Outstanding(s, 1, 0)
  {
  }

  lemma EmbraceIsStuck(n: nat, rest: seq<Page>, m0: seq<int>, m1: seq<int>)
    requires n >= 2 * NUM_RESPONDERS && Resting(n, rest) && WFC(Embrace(n, rest, m0, m1))
    ensures Stuck(Embrace(n, rest, m0, m1))
  {
    EmbracePools(n, rest, m0, m1);
    EmbracePages(n, rest, m0, m1);
    var s := Embrace(n, rest, m0, m1);
    hide Embrace, Crowd, Waits, SharedPage;
    forall st | SystemStep(st) ensures Perform(ORDERLY, s, st).None? {
    }
  }

  /**
   Exactly when the system can be stuck: some run of n clients over the memory
   leads to a state with outstanding faults in which nothing in the system can
   move, if and only if there are at least 2 * NUM_RESPONDERS
   clients and at least two pages.
   */
  lemma DeadlockExactly(n: nat, mem: Memory)
    requires n > 0
    ensures (exists steps ::
               Run(ORDERLY, Start(n, mem), steps).Some? && Stuck(Run(ORDERLY, Start(n, mem), steps).value))
            <==> n >= 2 * NUM_RESPONDERS && |mem| >= 2
  {
    if n >= 2 * NUM_RESPONDERS && |mem| >= 2 {
      DeadlockReached(n, mem);
    }
    forall steps | Run(ORDERLY, Start(n, mem), steps).Some? && Stuck(Run(ORDERLY, Start(n, mem), steps).value)
      ensures n >= 2 * NUM_RESPONDERS && |mem| >= 2
    {
      StuckNeedsClients(n, mem, steps);
    }
  }

  lemma DeadlockReached(n: nat, mem: Memory)
    requires n >= 2 * NUM_RESPONDERS && |mem| >= 2
    ensures exists steps :: Run(ORDERLY, Start(n, mem), steps).Some? && Stuck(Run(ORDERLY, Start(n, mem), steps).value)
  {
    var rest := BothPagesShared(n, mem);
    var s0, s1 := Start(n, mem), Crowd(n, rest, mem[0], mem[1], {}, {});
    var s2, s3 := Crowd(n, rest, mem[0], mem[1], LEFT, RIGHT), Embrace(n, rest, mem[0], mem[1]);
    BothPoolsFilled(n, rest, mem[0], mem[1]);
    Chain(ORDERLY, s0, s1, [], s2, []);
    EmbraceReached(n, rest, mem[0], mem[1]);
    Chain(ORDERLY, s0, s2, [], s3, []);
    EmbraceIsStuck(n, rest, mem[0], mem[1]);
    var steps :| Leads(ORDERLY, s0, steps, s3, []);
  }

  lemma StuckNeedsClients(n: nat, mem: Memory, steps: seq<Step>)
    requires n > 0 && Run(ORDERLY, Start(n, mem), steps).Some? && Stuck(Run(ORDERLY, Start(n, mem), steps).value)
    ensures n >= 2 * NUM_RESPONDERS && |mem| >= 2
  {
    StartIsOrderly(n, mem);
    RunKeepsOrderly(Start(n, mem), mem, steps);
    var s := Run(ORDERLY, Start(n, mem), steps).value;
    var c, p :| 0 <= c < |s.ports| && 0 <= p < |s.pages| && Outstanding(s, c, p);
    if n < 2 * NUM_RESPONDERS || |mem| < 2 {
      FaultsAreNeverStuck(s, Replay(mem, Trace(steps)).value, c, p);
    }
  }
}
