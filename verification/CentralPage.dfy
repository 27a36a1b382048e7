/**
 One page of the central-server protocol, for any number of clients, as a
 machine whose actions are the points between which clients can run.  The
 server keeps the page's state, its owner while it is written, the queue Q of
 readers, and a master copy.  Client number k of the system is index k - 1 here.
 */
module CentralPage {
  import opened Base
  import opened Paging

  datatype ServerState = INIT | READ | WRITE

  /**
   A client's protection, frame and fault.  `late` is a protection change it has
   acknowledged and not yet made.
   */
  datatype Client = Client(prot: Protection, data: seq<int>, request: Request, late: Option<Protection>)

  /** Progress of the fault the server is serving. */
  datatype Tx =
    | Idle
    | AskRead(client: nat)                                // READ_DATA_REQUESTED sent to the owner
    | GotRead(client: nat, data: seq<int>)
    | AskWrite(client: nat, from: nat)                    // WRITE_DATA_REQUESTED sent to the old owner
    | GotWrite(client: nat, data: seq<int>)
    | Drain(client: nat, hasData: bool)                   // at the head of the loop over Q
    | AskInval(client: nat, hasData: bool, target: nat)   // PAGE_INVALID sent to a reader

  datatype Page = Page(state: ServerState, owner: Option<nat>, queue: seq<nat>, master: seq<int>,
                       clients: seq<Client>, tx: Tx)

  datatype Action =
    | Raise(client: nat, fault: Fault)
    | Begin(client: nat)
    | Handle
    | Protect(client: nat)
    | Advance
    | Install(client: nat)
    | Load(client: nat, offset: nat, value: int)
    | Store(client: nat, offset: nat, value: int)

  /**
   The scheduling assumptions under which the protocol is coherent.

   installFirst: a client obeys a directive for a page only after installing
   any grant for that page already sent to it.

   protectAtOnce: a client's reply to a directive and its change of protection
   are one step; the code replies first.
   */
  datatype Discipline = Discipline(installFirst: bool, protectAtOnce: bool)

  const ORDERLY := Discipline(true, true)

  ghost predicate WF(pg: Page) {
    && (pg.owner.Some? ==> pg.owner.value < |pg.clients|)
    && (pg.state == WRITE || pg.tx.AskRead? || pg.tx.GotRead? ==> pg.owner.Some?)
    && (forall i :: 0 <= i < |pg.queue| ==> pg.queue[i] < |pg.clients|)
    && (!pg.tx.Idle? ==> pg.tx.client < |pg.clients|)
    && (pg.tx.AskWrite? ==> pg.tx.from < |pg.clients|)
    && (pg.tx.AskInval? ==> pg.tx.target < |pg.clients|)
  }

  ghost predicate SameShape(pg: Page, pg': Page) {
    WF(pg') && |pg'.clients| == |pg.clients|
  }

  function Put(pg: Page, c: nat, l: Client): Page
    requires c < |pg.clients|
  {
    pg.(clients := pg.clients[c := l])
  }

  function Answer(pg: Page, c: nat, g: Grant): Page
    requires c < |pg.clients|
  {
    Put(pg, c, pg.clients[c].(request := Granted(g))).(tx := Idle)
  }

  function Target(pg: Page): Option<nat>
    requires WF(pg)
  {
    match pg.tx
    case AskRead(_) => pg.owner
    case AskWrite(_, from) => Some(from)
    case AskInval(_, _, t) => Some(t)
    case _ => None
  }

  /** do_read_fault, up to the first message awaited. */
  function BeginRead(pg: Page, c: nat): (pg': Page)
    requires WF(pg) && c < |pg.clients| && pg.tx.Idle?
    ensures SameShape(pg, pg')
  {
    var enqueued := pg.(queue := pg.queue + [c], state := READ);
    match pg.state
    case INIT => Answer(enqueued, c, ReadData(pg.master))
    case READ => Answer(enqueued, c, ReadData(pg.master))
    case WRITE => enqueued.(tx := AskRead(c))
  }

  /** do_write_fault, up to the first message awaited. */
  function BeginWrite(pg: Page, c: nat): (pg': Page)
    requires WF(pg) && c < |pg.clients| && pg.tx.Idle?
    ensures SameShape(pg, pg')
  {
    var owned := pg.(owner := Some(c), state := WRITE);
    match pg.state
    case INIT => Answer(owned, c, WriteData(pg.master))
    case WRITE => owned.(tx := AskWrite(c, pg.owner.value))
    case READ => owned.(tx := Drain(c, false))
  }

  /** A client's protection after a directive. */
  function Obeyed(d: Discipline, l: Client, p: Protection): Client {
    if d.protectAtOnce then l.(prot := p) else l.(late := Some(p))
  }

  /** The target of a directive replies to it. */
  function Obey(d: Discipline, pg: Page): (pg': Page)
    requires WF(pg) && Target(pg).Some?
    ensures SameShape(pg, pg')
  {
    var t := Target(pg).value;
    var l := pg.clients[t];
    match pg.tx
    case AskRead(c) => Put(pg, t, Obeyed(d, l, PROT_READ)).(tx := GotRead(c, l.data))
    case AskWrite(c, _) => Put(pg, t, Obeyed(d, l, PROT_NONE)).(tx := GotWrite(c, l.data))
    case AskInval(c, h, _) => Put(pg, t, Obeyed(d, l, PROT_NONE)).(tx := Drain(c, h))
  }

  /** The server's next stretch when it awaits nothing. */
  function Proceed(pg: Page): (pg': Page)
    requires WF(pg) && (pg.tx.GotRead? || pg.tx.GotWrite? || pg.tx.Drain?)
    ensures SameShape(pg, pg')
  {
    match pg.tx
    case GotRead(c, data) =>
      Answer(pg.(queue := pg.queue + [pg.owner.value], master := data), c, ReadData(data))
    case GotWrite(c, data) =>
      Answer(pg.(master := data), c, WriteData(data))
    case Drain(c, h) =>
      if pg.queue == [] then
        Answer(pg, c, if h then WritePerm else WriteData(pg.master))
      else if pg.queue[0] == c then
        pg.(queue := pg.queue[1..], tx := Drain(c, true))
      else
        pg.(queue := pg.queue[1..], tx := AskInval(c, h, pg.queue[0]))
  }

  /** The client's exception handler installs the server's answer. */
  function Installed(l: Client): Client
    requires l.request.Granted?
  {
    match l.request.grant
    case ReadData(data) => l.(prot := PROT_READ, data := data, request := Quiet)
    case WriteData(data) => l.(prot := PROT_ALL, data := data, request := Quiet)
    case WritePerm => l.(prot := PROT_ALL, request := Quiet)
  }

  predicate AppRuns(pg: Page, c: nat) {
    c < |pg.clients| && pg.clients[c].request.Quiet?
  }

  /** The successor of pg under action a, or None if a is not enabled. */
  function Next(d: Discipline, pg: Page, a: Action): (r: Option<Page>)
    requires WF(pg)
    ensures r.Some? ==> SameShape(pg, r.value)
  {
    match a
    case Raise(c, f) =>
      if && AppRuns(pg, c)
         && (if f.ReadFault? then pg.clients[c].prot == PROT_NONE else pg.clients[c].prot != PROT_ALL)
      then Some(Put(pg, c, pg.clients[c].(request := Waiting(f)))) else None
    case Begin(c) =>
      if c < |pg.clients| && pg.tx.Idle? && pg.clients[c].request.Waiting? then
        Some(if pg.clients[c].request.fault.ReadFault? then BeginRead(pg, c) else BeginWrite(pg, c))
      else None
    case Handle =>
      if Target(pg).Some? && (d.installFirst ==> !pg.clients[Target(pg).value].request.Granted?) then
        Some(Obey(d, pg))
      else None
    case Protect(c) =>
      if c < |pg.clients| && pg.clients[c].late.Some? then
        Some(Put(pg, c, pg.clients[c].(prot := pg.clients[c].late.value, late := None)))
      else None
    case Advance =>
      if pg.tx.GotRead? || pg.tx.GotWrite? || pg.tx.Drain? then Some(Proceed(pg)) else None
    case Install(c) =>
      if c < |pg.clients| && pg.clients[c].request.Granted? then
        Some(Put(pg, c, Installed(pg.clients[c])))
      else None
    case Load(c, i, v) =>
      if && AppRuns(pg, c) && pg.clients[c].prot != PROT_NONE
         && i < |pg.clients[c].data| && pg.clients[c].data[i] == v
      then Some(pg) else None
    case Store(c, i, v) =>
      if && AppRuns(pg, c) && pg.clients[c].prot == PROT_ALL && i < |pg.clients[c].data|
      then Some(Put(pg, c, pg.clients[c].(data := pg.clients[c].data[i := v]))) else None
  }

  /** The page as dsm_init leaves it: only the server has its contents. */
  function Fresh(n: nat, contents: seq<int>): Page {
    Page(INIT, None, [], contents,
         seq(n, c => Client(PROT_NONE, seq(|contents|, i => 0), Quiet, None)), Idle)
  }
}
