/** Coherence of one page of the central-server protocol. */
module CentralSafety {
  import opened Base
  import opened Paging
  import opened CentralPage

  function LevelOf(l: Client): Level {
    AccessLevel(l.prot, l.request)
  }

  /** A reader already taken off the queue that still has its copy. */
  predicate Retained(tx: Tx, c: nat) {
    match tx
    case Drain(r, h) => h && c == r
    case AskInval(r, h, t) => (h && c == r) || c == t
    case _ => false
  }

  /** The access that the server's page table says client c has. */
  function Expected(pg: Page, c: nat): Level {
    match pg.tx
    case AskRead(_) => if pg.owner == Some(c) then LWrite else LNone
    case GotRead(_, _) => if pg.owner == Some(c) then LRead else LNone
    case AskWrite(_, from) => if c == from then LWrite else LNone
    case GotWrite(_, _) => LNone
    case Drain(_, _) => if c in pg.queue || Retained(pg.tx, c) then LRead else LNone
    case AskInval(_, _, _) => if c in pg.queue || Retained(pg.tx, c) then LRead else LNone
    case Idle =>
      match pg.state
      case INIT => LNone
      case READ => if c in pg.queue then LRead else LNone
      case WRITE => if pg.owner == Some(c) then LWrite else LNone
  }

  ghost predicate Pending(pg: Page, c: nat, f: Fault) {
    c < |pg.clients| && pg.clients[c].request == Waiting(f)
  }

  /** The page table's own shape, the fault in service, and where the master copy is the latest. */
  ghost predicate TableOk(pg: Page, mem: seq<int>)
    requires WF(pg)
  {
    && Distinct(pg.queue)
    && |pg.master| == |mem|
    && match pg.tx
       case Idle =>
         && (pg.state != READ ==> pg.queue == [])
         && (pg.state != WRITE ==> pg.master == mem)
       case AskRead(c) => pg.state == READ && pg.queue == [c] && pg.owner != Some(c) && Pending(pg, c, ReadFault)
       case GotRead(c, data) =>
         pg.state == READ && pg.queue == [c] && pg.owner != Some(c) && Pending(pg, c, ReadFault) && data == mem
       case AskWrite(c, from) =>
         pg.state == WRITE && pg.queue == [] && pg.owner == Some(c) && from != c && Pending(pg, c, WriteFault)
       case GotWrite(c, data) =>
         pg.state == WRITE && pg.queue == [] && pg.owner == Some(c) && Pending(pg, c, WriteFault) && data == mem
       case Drain(c, h) =>
         && pg.state == WRITE && pg.owner == Some(c) && Pending(pg, c, WriteFault) && pg.master == mem
         && (h ==> c !in pg.queue)
       case AskInval(c, h, t) =>
         && pg.state == WRITE && pg.owner == Some(c) && Pending(pg, c, WriteFault) && pg.master == mem
         && (h ==> c !in pg.queue) && t != c && t !in pg.queue
  }

  ghost predicate ClientOk(pg: Page, c: nat, mem: seq<int>)
    requires c < |pg.clients|
  {
    var l := pg.clients[c];
    && LevelOf(l) == Expected(pg, c)
    && l.late.None?
    && |l.data| == |mem|
    && (l.prot != PROT_NONE ==> l.data == mem)
    && match l.request
       case Quiet => true
       case Waiting(ReadFault) => l.prot == PROT_NONE
       case Waiting(WriteFault) => l.prot != PROT_ALL
       case Granted(WritePerm) => l.prot == PROT_READ
       case Granted(ReadData(data)) => l.prot == PROT_NONE && data == mem
       case Granted(WriteData(data)) => l.prot == PROT_NONE && data == mem
  }

  /** The invariant of a page whose latest contents are mem. */
  ghost predicate Coherent(pg: Page, mem: seq<int>) {
    && WF(pg)
    && TableOk(pg, mem)
    && forall c :: 0 <= c < |pg.clients| ==> ClientOk(pg, c, mem)
  }

  function Latest(mem: seq<int>, a: Action): seq<int> {
    if a.Store? && a.offset < |mem| then mem[a.offset := a.value] else mem
  }

  lemma FreshIsCoherent(n: nat, contents: seq<int>)
    ensures Coherent(Fresh(n, contents), contents)
  {
  }

  lemma BeginKeeps(pg: Page, mem: seq<int>, r: nat)
    requires Coherent(pg, mem) && Next(ORDERLY, pg, Begin(r)).Some?
    ensures Coherent(Next(ORDERLY, pg, Begin(r)).value, mem)
  {
    var pg' := Next(ORDERLY, pg, Begin(r)).value;
    assert ClientOk(pg, r, mem);
    if pg.state == READ && pg.clients[r].request.fault.ReadFault? {
      DistinctAppend(pg.queue, r);
    }
    forall c | 0 <= c < |pg'.clients| ensures ClientOk(pg', c, mem) {
      assert ClientOk(pg, c, mem);
    }
  }

  lemma HandleKeeps(pg: Page, mem: seq<int>)
    requires Coherent(pg, mem) && Next(ORDERLY, pg, Handle).Some?
    ensures Coherent(Next(ORDERLY, pg, Handle).value, mem)
  {
    var pg' := Next(ORDERLY, pg, Handle).value;
    assert ClientOk(pg, Target(pg).value, mem) && ClientOk(pg, pg.tx.client, mem);
    forall c | 0 <= c < |pg'.clients| ensures ClientOk(pg', c, mem) {
      assert ClientOk(pg, c, mem);
    }
  }

  lemma FetchedKeeps(pg: Page, mem: seq<int>)
    requires Coherent(pg, mem) && (pg.tx.GotRead? || pg.tx.GotWrite?)
    ensures Coherent(Proceed(pg), mem)
  {
    var pg' := Proceed(pg);
    assert ClientOk(pg, pg.tx.client, mem);
    forall c | 0 <= c < |pg'.clients| ensures ClientOk(pg', c, mem) {
      assert ClientOk(pg, c, mem);
    }
  }

  lemma DrainKeeps(pg: Page, mem: seq<int>)
    requires Coherent(pg, mem) && pg.tx.Drain?
    ensures Coherent(Proceed(pg), mem)
  {
    var pg' := Proceed(pg);
    assert ClientOk(pg, pg.tx.client, mem);
    if pg.queue != [] {
      var head := pg.queue[0];
      assert forall x :: x in pg.queue <==> x == head || x in pg.queue[1..];
      assert head !in pg.queue[1..];
    }
    forall c | 0 <= c < |pg'.clients| ensures ClientOk(pg', c, mem) {
      assert ClientOk(pg, c, mem);
    }
  }

  lemma ClientActionKeeps(pg: Page, mem: seq<int>, a: Action)
    requires Coherent(pg, mem) && Next(ORDERLY, pg, a).Some?
    requires a.Raise? || a.Install? || a.Protect?
    ensures Coherent(Next(ORDERLY, pg, a).value, mem)
  {
    var pg' := Next(ORDERLY, pg, a).value;
    assert ClientOk(pg, a.client, mem);
    forall c | 0 <= c < |pg'.clients| ensures ClientOk(pg', c, mem) {
      assert ClientOk(pg, c, mem);
    }
  }

  lemma LoadIsLatest(pg: Page, mem: seq<int>, a: Action)
    requires Coherent(pg, mem) && a.Load? && Next(ORDERLY, pg, a).Some?
    ensures a.offset < |mem| && a.value == mem[a.offset]
  {
    assert ClientOk(pg, a.client, mem);
  }

  lemma StoreKeeps(pg: Page, mem: seq<int>, a: Action)
    requires Coherent(pg, mem) && a.Store? && Next(ORDERLY, pg, a).Some?
    ensures Coherent(Next(ORDERLY, pg, a).value, Latest(mem, a)) && a.offset < |mem|
  {
    var pg' := Next(ORDERLY, pg, a).value;
    assert ClientOk(pg, a.client, mem);
    forall c | 0 <= c < |pg'.clients| ensures ClientOk(pg', c, Latest(mem, a)) {
      assert ClientOk(pg, c, mem);
    }
  }

  /** Every action keeps the page coherent with the memory in which only stores take effect. */
  lemma NextKeepsCoherent(pg: Page, mem: seq<int>, a: Action)
    requires Coherent(pg, mem) && Next(ORDERLY, pg, a).Some?
    ensures Coherent(Next(ORDERLY, pg, a).value, Latest(mem, a))
  {
    match a
    case Begin(r) => BeginKeeps(pg, mem, r);
    case Handle => HandleKeeps(pg, mem);
    case Advance =>
      if pg.tx.Drain? {
        DrainKeeps(pg, mem);
      } else {
        FetchedKeeps(pg, mem);
      }
    case Load(_, _, _) =>
    case Store(_, _, _) => StoreKeeps(pg, mem, a);
    case Raise(_, _) => ClientActionKeeps(pg, mem, a);
    case Protect(_) => ClientActionKeeps(pg, mem, a);
    case Install(_) => ClientActionKeeps(pg, mem, a);
  }

  /**
   The page table and the clients agree: Q is empty outside READ, and in READ
   lists, once each, exactly the clients that have or are being sent READ; in
   WRITE the owner is the only client that has or is being sent any access; and
   outside WRITE the server's own page is the latest.
   */
  ghost predicate TableExact(pg: Page, mem: seq<int>) {
    && Distinct(pg.queue)
    && (pg.state != READ ==> pg.queue == [])
    && (pg.state == WRITE ==> pg.owner.Some? && pg.owner.value < |pg.clients|)
    && (pg.state != WRITE ==> pg.master == mem)
    && forall c :: 0 <= c < |pg.clients| ==> ClientListedExactly(pg, c)
  }

  ghost predicate ClientListedExactly(pg: Page, c: nat)
    requires c < |pg.clients|
  {
    && (c in pg.queue <==> LevelOf(pg.clients[c]) == LRead)
    && (LevelOf(pg.clients[c]) == LWrite <==> pg.state == WRITE && pg.owner == Some(c))
  }

  lemma IdleTableIsExact(pg: Page, mem: seq<int>)
    requires Coherent(pg, mem) && pg.tx.Idle?
    ensures TableExact(pg, mem)
  {
    forall c | 0 <= c < |pg.clients| ensures ClientListedExactly(pg, c) {
      assert ClientOk(pg, c, mem);
    }
  }
}
