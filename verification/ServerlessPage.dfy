/**
 One page of the serverless write-invalidate protocol, for any number of
 clients, as a machine whose actions are the points between which other
 clients can run.

 The owner of the page keeps its directory: its own `state`, `writer` and the
 `readers` queue.  A fault served under the owner's page lock is a
 transaction `Tx`; every message it sends or awaits is visible in the state, so
 directives, fetched pages and grants can all be in flight while other clients
 load and store.
 */
module ServerlessPage {
  import opened Base
  import opened Paging

  datatype PageState = NO_ACCESS | READ | WRITE

  /** One client's page-table entry, its frame, and its outstanding fault. */
  datatype Local = Local(prot: Protection, state: PageState, data: seq<int>, request: Request)

  /** Progress of the fault handler that holds the owner's page lock. */
  datatype Tx =
    | Idle
    | AskRead(client: nat)                                // READ_DATA_REQUESTED sent to the writer
    | GotRead(client: nat, data: seq<int>)                // READ_DATA_PROVIDED on its way back
    | Window(client: nat, data: seq<int>)                 // owner's frame unprotected for the copy
    | AskWrite(client: nat)                               // WRITE_DATA_REQUESTED sent to the writer
    | GotWrite(client: nat, data: seq<int>)               // WRITE_DATA_PROVIDED on its way back
    | Drain(client: nat, hasData: bool)                   // at the head of the loop over readers
    | AskInval(client: nat, hasData: bool, target: nat)   // PAGE_INVALID sent to a reader
    | Crashed                                             // an error exit was taken

  datatype Page = Page(owner: nat, writer: Option<nat>, readers: seq<nat>, locals: seq<Local>, tx: Tx)

  datatype Action =
    | Raise(client: nat, fault: Fault)
    | Begin(client: nat)
    | Handle
    | Advance
    | Install(client: nat)
    | Load(client: nat, offset: nat, value: int)
    | Store(client: nat, offset: nat, value: int)

  /**
   The scheduling assumptions under which the protocol is coherent.

   installFirst: a client obeys a directive for a page only after installing
   any grant for that page already sent to it.

   windowQuiet: the owner's application threads stay off the page while its
   frame is unprotected for the copy of a fetched page.
   */
  datatype Discipline = Discipline(installFirst: bool, windowQuiet: bool)

  const ORDERLY := Discipline(true, true)

  ghost predicate WF(pg: Page) {
    && pg.owner < |pg.locals|
    && (pg.writer.Some? ==> pg.writer.value < |pg.locals|)
    && (forall i :: 0 <= i < |pg.readers| ==> pg.readers[i] < |pg.locals|)
    && (!pg.tx.Idle? && !pg.tx.Crashed? ==> pg.tx.client < |pg.locals|)
    && (pg.tx.AskRead? || pg.tx.GotRead? || pg.tx.AskWrite? || pg.tx.GotWrite? ==> pg.writer.Some?)
    && (pg.tx.AskInval? ==> pg.tx.target < |pg.locals|)
  }

  /** pg' is the same page of the same clients. */
  ghost predicate SameShape(pg: Page, pg': Page) {
    WF(pg') && pg'.owner == pg.owner && |pg'.locals| == |pg.locals|
  }

  function Own(pg: Page): Local
    requires WF(pg)
  {
    pg.locals[pg.owner]
  }

  function Put(pg: Page, c: nat, l: Local): Page
    requires c < |pg.locals|
  {
    pg.(locals := pg.locals[c := l])
  }

  /** Ends the transaction: the owner's own fault is over, any other client is sent its answer. */
  function Answer(pg: Page, c: nat, g: Grant): Page
    requires c < |pg.locals|
  {
    var request := if c == pg.owner then Quiet else Granted(g);
    Put(pg, c, pg.locals[c].(request := request)).(tx := Idle)
  }

  /** The client a directive is on its way to. */
  function Target(pg: Page): Option<nat>
    requires WF(pg)
  {
    match pg.tx
    case AskRead(_) => pg.writer
    case AskWrite(_) => pg.writer
    case AskInval(_, _, t) => Some(t)
    case _ => None
  }

  /** The switch of read_fault on the owner's state, up to the first message awaited. */
  function BeginRead(pg: Page, c: nat): (pg': Page)
    requires WF(pg) && c < |pg.locals|
    ensures SameShape(pg, pg')
  {
    var own := Own(pg);
    match own.state
    case NO_ACCESS =>
      if pg.writer.None? then pg.(tx := Crashed) else pg.(tx := AskRead(c))
    case READ =>
      if c != pg.owner then
        Answer(pg.(readers := pg.readers + [c]), c, ReadData(own.data))
      else
        Answer(pg, c, ReadData(own.data))
    case WRITE =>
      if c != pg.owner then
        var pg1 := Put(pg, pg.owner, own.(state := READ, prot := PROT_READ));
        Answer(pg1.(readers := pg.readers + [c], writer := None), c, ReadData(own.data))
      else
        pg.(tx := Crashed)
  }

  /** The switch of write_fault on the owner's state, up to the first message awaited. */
  function BeginWrite(pg: Page, c: nat): (pg': Page)
    requires WF(pg) && c < |pg.locals|
    ensures SameShape(pg, pg')
  {
    var own := Own(pg);
    match own.state
    case NO_ACCESS =>
      if pg.writer.None? then pg.(tx := Crashed) else pg.(tx := AskWrite(c))
    case READ =>
      pg.(tx := Drain(c, false))
    case WRITE =>
      if c != pg.owner then
        var pg1 := Put(pg, pg.owner, own.(state := NO_ACCESS, prot := PROT_NONE));
        Answer(pg1.(writer := Some(c)), c, WriteData(own.data))
      else
        pg.(tx := Crashed)
  }

  /** The target of a directive obeys it: send_read_page, send_write_page or invalidate. */
  function Obey(pg: Page): (pg': Page)
    requires WF(pg) && Target(pg).Some?
    ensures SameShape(pg, pg')
  {
    var t := Target(pg).value;
    var l := pg.locals[t];
    match pg.tx
    case AskRead(c) =>
      Put(pg, t, l.(state := READ, prot := PROT_READ)).(tx := GotRead(c, l.data))
    case AskWrite(c) =>
      Put(pg, t, l.(state := NO_ACCESS, prot := PROT_NONE)).(tx := GotWrite(c, l.data))
    case AskInval(c, h, _) =>
      Put(pg, t, l.(state := NO_ACCESS, prot := PROT_NONE)).(tx := Drain(c, h))
  }

  /** The end of write_fault on a READ page, once the queue of readers is empty. */
  function EndDrain(pg: Page): (pg': Page)
    requires WF(pg) && pg.tx.Drain?
    ensures SameShape(pg, pg')
  {
    var c, own := pg.tx.client, Own(pg);
    if c == pg.owner then
      Answer(Put(pg, c, own.(state := WRITE, prot := PROT_ALL)).(writer := Some(c)), c, WritePerm)
    else
      var pg1 := Put(pg, pg.owner, own.(state := NO_ACCESS, prot := PROT_NONE)).(writer := Some(c));
      Answer(pg1, c, if pg.tx.hasData then WritePerm else WriteData(own.data))
  }

  /** The next stretch of the handler that holds the lock and awaits nothing. */
  function Proceed(pg: Page): (pg': Page)
    requires WF(pg) && (pg.tx.GotRead? || pg.tx.Window? || pg.tx.GotWrite? || pg.tx.Drain?)
    ensures SameShape(pg, pg')
  {
    var own := Own(pg);
    match pg.tx
    case GotRead(c, data) =>
      Put(pg, pg.owner, own.(state := READ, prot := PROT_ALL))
      .(readers := pg.readers + [pg.writer.value], writer := None, tx := Window(c, data))
    case Window(c, data) =>
      var pg1 := Put(pg, pg.owner, own.(data := data, prot := PROT_READ));
      if c != pg.owner then
        Answer(pg1.(readers := pg.readers + [c]), c, ReadData(data))
      else
        Answer(pg1, c, ReadData(data))
    case GotWrite(c, data) =>
      if c == pg.owner then
        Answer(Put(pg, c, own.(state := WRITE, prot := PROT_ALL, data := data)).(writer := Some(c)), c, WriteData(data))
      else
        Answer(pg.(writer := Some(c)), c, WriteData(data))
    case Drain(c, h) =>
      if pg.readers == [] then
        EndDrain(pg)
      else if pg.readers[0] != c then
        pg.(readers := pg.readers[1..], tx := AskInval(c, h, pg.readers[0]))
      else
        pg.(readers := pg.readers[1..], tx := Drain(c, true))
  }

  /** The remote half of a fault: the answer is installed under the client's own lock. */
  function Installed(l: Local): Local
    requires l.request.Granted?
  {
    match l.request.grant
    case ReadData(data) => l.(prot := PROT_READ, data := data, request := Quiet)
    case WriteData(data) => l.(prot := PROT_ALL, state := WRITE, data := data, request := Quiet)
    case WritePerm => l.(prot := PROT_ALL, state := WRITE, request := Quiet)
  }

  /** A client's application thread may touch the page: it has no fault outstanding here. */
  predicate AppRuns(d: Discipline, pg: Page, c: nat) {
    && c < |pg.locals|
    && pg.locals[c].request.Quiet?
    && (d.windowQuiet && pg.tx.Window? ==> c != pg.owner)
  }

  /** The successor of pg under action a, or None if a is not enabled. */
  function Next(d: Discipline, pg: Page, a: Action): (r: Option<Page>)
    requires WF(pg)
    ensures r.Some? ==> SameShape(pg, r.value)
  {
    match a
    case Raise(c, f) =>
      if && AppRuns(d, pg, c)
         && (if f.ReadFault? then pg.locals[c].prot == PROT_NONE else pg.locals[c].prot != PROT_ALL)
      then Some(Put(pg, c, pg.locals[c].(request := Waiting(f)))) else None
    case Begin(c) =>
      if c < |pg.locals| && pg.tx.Idle? && pg.locals[c].request.Waiting? then
        Some(if pg.locals[c].request.fault.ReadFault? then BeginRead(pg, c) else BeginWrite(pg, c))
      else None
    case Handle =>
      if Target(pg).Some? && (d.installFirst ==> !pg.locals[Target(pg).value].request.Granted?) then
        Some(Obey(pg))
      else None
    case Advance =>
      if pg.tx.GotRead? || pg.tx.Window? || pg.tx.GotWrite? || pg.tx.Drain? then
        Some(Proceed(pg))
      else None
    case Install(c) =>
      if c < |pg.locals| && pg.locals[c].request.Granted? then
        Some(Put(pg, c, Installed(pg.locals[c])))
      else None
    case Load(c, i, v) =>
      if && AppRuns(d, pg, c) && pg.locals[c].prot != PROT_NONE
         && i < |pg.locals[c].data| && pg.locals[c].data[i] == v
      then Some(pg) else None
    case Store(c, i, v) =>
      if && AppRuns(d, pg, c) && pg.locals[c].prot == PROT_ALL && i < |pg.locals[c].data|
      then Some(Put(pg, c, pg.locals[c].(data := pg.locals[c].data[i := v]))) else None
  }

  /** The page as the constructor leaves it: the owner holds it for writing, nobody else has access. */
  function Fresh(n: nat, owner: nat, contents: seq<int>): Page
    requires owner < n
  {
    Page(owner, None, [],
         seq(n, c => if c == owner then Local(PROT_ALL, WRITE, contents, Quiet)
                     else Local(PROT_NONE, NO_ACCESS, seq(|contents|, i => 0), Quiet)),
         Idle)
  }
}
