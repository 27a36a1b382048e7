/**
 Coherence of one page: what every action of the serverless protocol keeps.
 */
module ServerlessSafety {
  import opened Base
  import opened Paging
  import opened ServerlessPage

  function LevelOf(l: Local): Level {
    AccessLevel(l.prot, l.request)
  }

  /** A reader already taken off the queue that still has its copy. */
  predicate Retained(tx: Tx, c: nat) {
    match tx
    case Drain(r, h) => h && c == r
    case AskInval(r, h, t) => (h && c == r) || c == t
    case _ => false
  }

  /** The access that the owner's directory says client c has, at every point of a transaction. */
  function Expected(pg: Page, c: nat): Level
    requires WF(pg) && c < |pg.locals|
  {
    if c == pg.owner then
      if pg.tx.Window? then LWrite
      else match Own(pg).state
           case NO_ACCESS => LNone
           case READ => LRead
           case WRITE => LWrite
    else
      match Own(pg).state
      case NO_ACCESS =>
        if pg.writer != Some(c) || pg.tx.GotWrite? then LNone
        else if pg.tx.GotRead? then LRead
        else LWrite
      case READ => if c in pg.readers || Retained(pg.tx, c) then LRead else LNone
      case WRITE => LNone
  }

  /** The directory's own shape, and what the phase of a transaction says of it. */
  ghost predicate DirectoryOk(pg: Page)
    requires WF(pg)
  {
    && Distinct(pg.readers)
    && pg.owner !in pg.readers
    && (Own(pg).state != READ ==> pg.readers == [])
    && (Own(pg).state == NO_ACCESS ==> pg.writer.Some? && pg.writer.value != pg.owner)
    && match pg.tx
       case Idle => true
       case AskRead(c) => Own(pg).state == NO_ACCESS && Pending(pg, c, ReadFault)
       case GotRead(c, _) => Own(pg).state == NO_ACCESS && Pending(pg, c, ReadFault)
       case Window(c, _) => Own(pg).state == READ && Pending(pg, c, ReadFault) && pg.readers != []
       case AskWrite(c) => Own(pg).state == NO_ACCESS && Pending(pg, c, WriteFault)
       case GotWrite(c, _) => Own(pg).state == NO_ACCESS && Pending(pg, c, WriteFault)
       case Drain(c, h) =>
         && Own(pg).state == READ && Pending(pg, c, WriteFault)
         && (h ==> c != pg.owner && c !in pg.readers)
       case AskInval(c, h, t) =>
         && Own(pg).state == READ && Pending(pg, c, WriteFault)
         && (h ==> c != pg.owner && c !in pg.readers)
         && t != pg.owner && t != c && t !in pg.readers
       case Crashed => false
  }

  ghost predicate Pending(pg: Page, c: nat, f: Fault)
    requires WF(pg)
  {
    c < |pg.locals| && pg.locals[c].request == Waiting(f)
  }

  /** A client's frame, or the page on its way to it, holds the latest contents wherever it can be used. */
  ghost predicate DataOk(pg: Page, c: nat, mem: seq<int>)
    requires WF(pg) && c < |pg.locals|
  {
    var l := pg.locals[c];
    && |l.data| == |mem|
    && (l.prot != PROT_NONE && !(pg.tx.Window? && c == pg.owner) ==> l.data == mem)
    && match l.request
       case Granted(ReadData(data)) => data == mem
       case Granted(WriteData(data)) => data == mem
       case _ => true
  }

  /** A client's protection agrees with the stage of its fault and with its own state field. */
  ghost predicate RequestOk(pg: Page, c: nat)
    requires WF(pg) && c < |pg.locals|
  {
    var l := pg.locals[c];
    if c == pg.owner then
      && !l.request.Granted?
      && (l.state == WRITE ==> l.request.Quiet?)
    else
      && (l.prot == PROT_ALL <==> l.state == WRITE)
      && match l.request
         case Quiet => true
         case Waiting(ReadFault) => l.prot == PROT_NONE
         case Waiting(WriteFault) => l.prot != PROT_ALL
         case Granted(WritePerm) => l.prot == PROT_READ
         case Granted(_) => l.prot == PROT_NONE
  }

  ghost predicate LocalOk(pg: Page, c: nat, mem: seq<int>)
    requires WF(pg) && c < |pg.locals|
  {
    && LevelOf(pg.locals[c]) == Expected(pg, c)
    && DataOk(pg, c, mem)
    && RequestOk(pg, c)
  }

  /** The data a transaction carries between clients is the latest. */
  ghost predicate CarriedOk(tx: Tx, mem: seq<int>) {
    match tx
    case GotRead(_, data) => data == mem
    case Window(_, data) => data == mem
    case GotWrite(_, data) => data == mem
    case _ => true
  }

  /** The invariant of a page whose latest contents are mem. */
  ghost predicate Coherent(pg: Page, mem: seq<int>) {
    && WF(pg)
    && DirectoryOk(pg)
    && CarriedOk(pg.tx, mem)
    && forall c :: 0 <= c < |pg.locals| ==> LocalOk(pg, c, mem)
  }

  /** What an action does to the latest contents: only a store changes them. */
  function Latest(mem: seq<int>, a: Action): seq<int> {
    if a.Store? && a.offset < |mem| then mem[a.offset := a.value] else mem
  }

  lemma FreshIsCoherent(n: nat, owner: nat, contents: seq<int>)
    requires owner < n
    ensures Coherent(Fresh(n, owner, contents), contents)
  {
  }

  lemma RaiseKeeps(pg: Page, mem: seq<int>, a: Action)
    requires Coherent(pg, mem) && a.Raise? && Next(ORDERLY, pg, a).Some?
    ensures Coherent(Next(ORDERLY, pg, a).value, mem)
  {
    var pg' := Next(ORDERLY, pg, a).value;
    forall c | 0 <= c < |pg'.locals| ensures LocalOk(pg', c, mem) {
      assert LocalOk(pg, c, mem);
    }
  }

  lemma BeginReadKeeps(pg: Page, mem: seq<int>, r: nat)
    requires Coherent(pg, mem) && pg.tx.Idle? && Pending(pg, r, ReadFault)
    ensures Coherent(BeginRead(pg, r), mem)
  {
    var pg' := BeginRead(pg, r);
    assert LocalOk(pg, r, mem) && LocalOk(pg, pg.owner, mem);
    if Own(pg).state != NO_ACCESS && r != pg.owner {
      DistinctAppend(pg.readers, r);
    }
    forall c | 0 <= c < |pg'.locals| ensures LocalOk(pg', c, mem) {
      assert LocalOk(pg, c, mem);
    }
  }

  lemma BeginWriteKeeps(pg: Page, mem: seq<int>, r: nat)
    requires Coherent(pg, mem) && pg.tx.Idle? && Pending(pg, r, WriteFault)
    ensures Coherent(BeginWrite(pg, r), mem)
  {
    var pg' := BeginWrite(pg, r);
    assert LocalOk(pg, r, mem) && LocalOk(pg, pg.owner, mem);
    forall c | 0 <= c < |pg'.locals| ensures LocalOk(pg', c, mem) {
      assert LocalOk(pg, c, mem);
    }
  }

  lemma HandleKeeps(pg: Page, mem: seq<int>)
    requires Coherent(pg, mem) && Next(ORDERLY, pg, Handle).Some?
    ensures Coherent(Next(ORDERLY, pg, Handle).value, mem)
  {
    var pg' := Next(ORDERLY, pg, Handle).value;
    var t := Target(pg).value;
    assert LocalOk(pg, t, mem) && LocalOk(pg, pg.tx.client, mem);
    forall c | 0 <= c < |pg'.locals| ensures LocalOk(pg', c, mem) {
      assert LocalOk(pg, c, mem);
    }
  }

  lemma FetchedKeeps(pg: Page, mem: seq<int>)
    requires Coherent(pg, mem) && (pg.tx.GotRead? || pg.tx.Window? || pg.tx.GotWrite?)
    ensures Coherent(Proceed(pg), mem)
  {
    var pg' := Proceed(pg);
    assert LocalOk(pg, pg.tx.client, mem) && LocalOk(pg, pg.owner, mem);
    if pg.tx.Window? && pg.tx.client != pg.owner {
      DistinctAppend(pg.readers, pg.tx.client);
    }
    forall c | 0 <= c < |pg'.locals| ensures LocalOk(pg', c, mem) {
      assert LocalOk(pg, c, mem);
    }
  }

  lemma DequeueKeeps(pg: Page, mem: seq<int>)
    requires Coherent(pg, mem) && pg.tx.Drain? && pg.readers != []
    ensures Coherent(Proceed(pg), mem)
  {
    var pg' := Proceed(pg);
    var head := pg.readers[0];
    assert forall x :: x in pg.readers <==> x == head || x in pg.readers[1..];
    assert head !in pg.readers[1..];
    forall c | 0 <= c < |pg'.locals| ensures LocalOk(pg', c, mem) {
      assert LocalOk(pg, c, mem);
    }
  }

  lemma EndDrainKeeps(pg: Page, mem: seq<int>)
    requires Coherent(pg, mem) && pg.tx.Drain? && pg.readers == []
    ensures Coherent(EndDrain(pg), mem)
  {
    var pg' := EndDrain(pg);
    assert LocalOk(pg, pg.tx.client, mem) && LocalOk(pg, pg.owner, mem);
    forall c | 0 <= c < |pg'.locals| ensures LocalOk(pg', c, mem) {
      assert LocalOk(pg, c, mem);
    }
  }

  lemma InstallKeeps(pg: Page, mem: seq<int>, r: nat)
    requires Coherent(pg, mem) && Next(ORDERLY, pg, Install(r)).Some?
    ensures Coherent(Next(ORDERLY, pg, Install(r)).value, mem)
  {
    var pg' := Next(ORDERLY, pg, Install(r)).value;
    assert LocalOk(pg, r, mem);
    forall c | 0 <= c < |pg'.locals| ensures LocalOk(pg', c, mem) {
      assert LocalOk(pg, c, mem);
    }
  }

  /** A load returns the latest value of its word. */
  lemma LoadIsLatest(pg: Page, mem: seq<int>, a: Action)
    requires Coherent(pg, mem) && a.Load? && Next(ORDERLY, pg, a).Some?
    ensures a.offset < |mem| && a.value == mem[a.offset]
  {
    assert LocalOk(pg, a.client, mem);
  }

  /** A store finds no other client able to use the page, so the changed word is the latest everywhere. */
  lemma StoreKeeps(pg: Page, mem: seq<int>, a: Action)
    requires Coherent(pg, mem) && a.Store? && Next(ORDERLY, pg, a).Some?
    ensures Coherent(Next(ORDERLY, pg, a).value, Latest(mem, a)) && a.offset < |mem|
  {
    var pg' := Next(ORDERLY, pg, a).value;
    assert LocalOk(pg, a.client, mem) && LocalOk(pg, pg.owner, mem);
    forall c | 0 <= c < |pg'.locals| ensures LocalOk(pg', c, Latest(mem, a)) {
      assert LocalOk(pg, c, mem);
    }
  }

  /** Every action keeps the page coherent with the memory in which only stores take effect. */
  lemma NextKeepsCoherent(pg: Page, mem: seq<int>, a: Action)
    requires Coherent(pg, mem) && Next(ORDERLY, pg, a).Some?
    ensures Coherent(Next(ORDERLY, pg, a).value, Latest(mem, a))
  {
    match a
    case Raise(_, _) => RaiseKeeps(pg, mem, a);
    case Begin(r) =>
      if pg.locals[r].request.fault.ReadFault? {
        BeginReadKeeps(pg, mem, r);
      } else {
        BeginWriteKeeps(pg, mem, r);
      }
    case Handle => HandleKeeps(pg, mem);
    case Advance =>
      if !pg.tx.Drain? {
        FetchedKeeps(pg, mem);
      } else if pg.readers == [] {
        EndDrainKeeps(pg, mem);
      } else {
        DequeueKeeps(pg, mem);
      }
    case Install(r) => InstallKeeps(pg, mem, r);
    case Load(_, _, _) =>
    case Store(_, _, _) => StoreKeeps(pg, mem, a);
  }

  /**
   The directory and the clients agree: the queue lists, once each, exactly the
   clients other than the owner that have or are being sent READ; in NO_ACCESS
   the writer is the only client that has or is being sent write access; and
   full protection goes with state WRITE at every client.
   */
  ghost predicate DirectoryExact(pg: Page)
    requires WF(pg)
  {
    && Distinct(pg.readers) && pg.owner !in pg.readers
    && (Own(pg).state != READ ==> pg.readers == [])
    && (Own(pg).state == NO_ACCESS ==> pg.writer.Some? && pg.writer.value != pg.owner)
    && forall c :: 0 <= c < |pg.locals| ==> ClientListedExactly(pg, c)
  }

  ghost predicate ClientListedExactly(pg: Page, c: nat)
    requires WF(pg) && c < |pg.locals|
  {
    && (c in pg.readers <==> c != pg.owner && LevelOf(pg.locals[c]) == LRead)
    && (Own(pg).state == NO_ACCESS ==> (LevelOf(pg.locals[c]) == LWrite <==> pg.writer == Some(c)))
    && (pg.locals[c].prot == PROT_ALL <==> pg.locals[c].state == WRITE)
  }

  lemma IdleDirectoryIsExact(pg: Page, mem: seq<int>)
    requires Coherent(pg, mem) && pg.tx.Idle?
    ensures DirectoryExact(pg)
  {
    assert LocalOk(pg, pg.owner, mem);
    forall c | 0 <= c < |pg.locals| ensures ClientListedExactly(pg, c) {
      assert LocalOk(pg, c, mem);
    }
  }

  /** The answer to a remote write fault once the readers are drained. */
  lemma DrainedAnswer(pg: Page, mem: seq<int>)
    requires Coherent(pg, mem) && pg.tx.Drain? && pg.readers == [] && pg.tx.client != pg.owner
    ensures var l := pg.locals[pg.tx.client];
            && (l.prot == PROT_READ ==> l.data == mem)
            && Next(ORDERLY, pg, Advance).value.locals[pg.tx.client].request
               == if l.prot == PROT_READ then Granted(WritePerm) else Granted(WriteData(mem))
  {
    assert LocalOk(pg, pg.tx.client, mem) && LocalOk(pg, pg.owner, mem);
  }
}
