/**
 When the owner's read fault can be served on a READ page, so that the handler has
 nothing to do: the fault was raised while another client had the page to
 write, and a third client's read fault was served first.
 */
module SelfFaults {
  import opened Base
  import opened FlatMemory
  import opened Paging
  import opened ServerlessPage
  import opened ServerlessSafety
  import opened ServerlessCluster
  import opened ServerlessSchedule
  import opened Scenes

  /** The owner's handler is about to take the branch that does nothing. */
  predicate NothingToDo(pg: Page)
    requires WF(pg)
  {
    Own(pg).state == READ && pg.tx.Idle? && Own(pg).request == Waiting(ReadFault)
  }

  /** A page with at most two clients serves the owner's read fault before anything makes it READ. */
  ghost predicate ServedInTime(pg: Page)
    requires WF(pg)
  {
    Own(pg).request == Waiting(ReadFault) ==> Own(pg).state == NO_ACCESS || (pg.tx.Window? && pg.tx.client == pg.owner)
  }

  lemma NextKeepsServedInTime(pg: Page, mem: seq<int>, a: Action)
    requires Coherent(pg, mem) && |pg.locals| <= 2 && ServedInTime(pg) && Next(ORDERLY, pg, a).Some?
    ensures ServedInTime(Next(ORDERLY, pg, a).value)
  {
    assert LocalOk(pg, pg.owner, mem);
    if pg.tx.GotRead? {
      assert LocalOk(pg, pg.tx.client, mem) && LocalOk(pg, pg.writer.value, mem);
    }
    if a.Begin? {
      assert LocalOk(pg, a.client, mem);
    }
  }

  lemma {:induction false} RunKeepsServedInTime(s: Cluster, mem: Memory, steps: seq<Step>, p: nat)
    requires ClusterCoherent(s, mem) && |s.ports| <= 2 && p < |s.pages| && ServedInTime(s.pages[p])
    requires Run(ORDERLY, s, steps).Some?
    ensures ServedInTime(Run(ORDERLY, s, steps).value.pages[p])
    decreases |steps|
  {
    if steps == [] {
    } else {
      var st := steps[0];
      PerformRefines(s, mem, st);
      if !st.Receive? && PageStep(st).value.0 == p {
        NextKeepsServedInTime(s.pages[p], mem[p], PageStep(st).value.1);
      }
      RunKeepsServedInTime(Perform(ORDERLY, s, st).value, Replay(mem, EventOf(st)).value, steps[1..], p);
    }
  }

  // ---------- three clients ----------

  function Waits(k: Cast): Local {
    Owns(k).(state := NO_ACCESS, prot := PROT_NONE, request := Waiting(ReadFault))
  }

  function Asks(k: Cast): Local {
    Off(k).(request := Waiting(ReadFault))
  }

  /** Client a has the page to write; the owner and client b both want to read it. */
  function BothAsk(k: Cast): Page {
    Scene(k, Some(k.a), [], Waits(k), Owns(k), Asks(k), Idle)
  }

  function InHand(k: Cast): Held {
    Some((k.o, FaultMsg(k.p, k.b)))
  }

  lemma BothFault(k: Cast)
    requires ValidCast(k) && k.a != k.b
    ensures Reaches(ORDERLY, At(k, Lent(k), None), At(k, BothAsk(k), InHand(k)), [])
  {
    hide Reaches;
    var pg1 := Scene(k, Some(k.a), [], Waits(k), Owns(k), Off(k), Idle);
    RequestTo(ORDERLY, k, Lent(k), k.o, ReadFault, pg1);
    RequestTo(ORDERLY, k, pg1, k.b, ReadFault, BothAsk(k));
    Chain(ORDERLY, At(k, Lent(k), None), At(k, pg1, None), [], At(k, BothAsk(k), InHand(k)), []);
  }

  function Fetched(k: Cast): Page {
    Scene(k, Some(k.a), [], Waits(k), Local(PROT_READ, READ, k.words, Quiet), Asks(k), GotRead(k.b, k.words))
  }

  function Opened(k: Cast): Page {
    Scene(k, None, [k.a], Waits(k).(state := READ, prot := PROT_ALL), Local(PROT_READ, READ, k.words, Quiet), Asks(k),
          Window(k.b, k.words))
  }

  lemma PageFetched(k: Cast)
    requires ValidCast(k) && k.a != k.b
    ensures Reaches(ORDERLY, At(k, BothAsk(k), InHand(k)), At(k, Fetched(k), InHand(k)), [])
  {
    DirectiveTo(ORDERLY, k, BothAsk(k), k.b, Begin(k.b), BothAsk(k).(tx := AskRead(k.b)), Fetched(k));
  }

  /** Client b's fault is served first. */
  lemma OtherServedFirst(k: Cast)
    requires ValidCast(k) && k.a != k.b
    ensures Reaches(ORDERLY, At(k, BothAsk(k), InHand(k)), At(k, Opened(k), InHand(k)), [])
  {
    hide Reaches;
    PageFetched(k);
    HandlerTo(ORDERLY, k, Fetched(k), k.b, Advance, Opened(k));
    Chain(ORDERLY, At(k, BothAsk(k), InHand(k)), At(k, Fetched(k), InHand(k)), [], At(k, Opened(k), InHand(k)), []);
  }

  function Overtaken(k: Cast): Page {
    Scene(k, None, [k.a, k.b], Waits(k).(state := READ, prot := PROT_READ), Local(PROT_READ, READ, k.words, Quiet),
          Off(k).(request := Granted(ReadData(k.words))), Idle)
  }

  lemma OtherAnswered(k: Cast)
    requires ValidCast(k) && k.a != k.b
    ensures Reaches(ORDERLY, At(k, Opened(k), InHand(k)), At(k, Overtaken(k), None), [])
  {
    HandlerTo(ORDERLY, k, Opened(k), k.b, Advance, Overtaken(k));
  }

  lemma OwnerOvertaken(n: nat, mem: Memory, p: nat) returns (steps: seq<Step>)
    requires n >= 3 && p < |mem|
    ensures Run(ORDERLY, Start(n, mem), steps).Some?
    ensures NothingToDo(Run(ORDERLY, Start(n, mem), steps).value.pages[p])
  {
    hide Reaches;
    var k := Opening(n, mem, p);
    OpeningIsStart(n, mem, p);
    var s0 := Start(n, mem);
    PageLent(ORDERLY, k);
    BothFault(k);
    Chain(ORDERLY, s0, At(k, Lent(k), None), [], At(k, BothAsk(k), InHand(k)), []);
    OtherServedFirst(k);
    Chain(ORDERLY, s0, At(k, BothAsk(k), InHand(k)), [], At(k, Opened(k), InHand(k)), []);
    OtherAnswered(k);
    Chain(ORDERLY, s0, At(k, Opened(k), InHand(k)), [], At(k, Overtaken(k), None), []);
    steps := TheRun(s0, At(k, Overtaken(k), None));
  }

  lemma TheRun(s: Cluster, s': Cluster) returns (steps: seq<Step>)
    requires Reaches(ORDERLY, s, s', [])
    ensures WFC(s) && Run(ORDERLY, s, steps) == Some(s')
  {
    steps :| Leads(ORDERLY, s, steps, s', []);
  }

  /** The branch that does nothing can be taken, on any page, exactly when there are at least three clients. */
  lemma NothingToDoExactly(n: nat, mem: Memory, p: nat)
    requires n > 0 && p < |mem|
    ensures (exists steps :: Run(ORDERLY, Start(n, mem), steps).Some? &&
                             NothingToDo(Run(ORDERLY, Start(n, mem), steps).value.pages[p]))
            <==> n >= 3
  {
    if n >= 3 {
      var steps := OwnerOvertaken(n, mem, p);
    } else {
      StartIsCoherent(n, mem);
      forall steps | Run(ORDERLY, Start(n, mem), steps).Some?
        ensures !NothingToDo(Run(ORDERLY, Start(n, mem), steps).value.pages[p])
      {
        RunKeepsServedInTime(Start(n, mem), mem, steps, p);
      }
    }
  }
}
