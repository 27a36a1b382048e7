/**
 The fault handlers as the code runs them: methods that update page-table
 entries and copy frames word by word, with the remote clients' parts called
 where the code awaits their replies.  Each is proved to do what the protocol
 machine does when the fault is served without interruption.
 */
module Handlers {
  import opened Base
  import opened Paging
  import opened ServerlessPage
  import opened ServerlessSafety
  import opened ServerlessTraces

  /** One client's page-table entry for a page, and its frame in that client's memory. */
  class Node {
    var prot: Protection
    var state: PageState
    var writer: Option<nat>
    var readers: seq<nat>
    const frame: array<int>

    constructor (words: nat, owner: bool)
      requires words > 0
      ensures fresh(frame) && frame.Length == words
      ensures prot == (if owner then PROT_ALL else PROT_NONE) && state == (if owner then WRITE else NO_ACCESS)
      ensures writer == None && readers == []
      ensures forall i :: 0 <= i < words ==> frame[i] == 0
    {
      frame := new int[words](i => 0);
      prot := if owner then PROT_ALL else PROT_NONE;
      state := if owner then WRITE else NO_ACCESS;
      writer, readers := None, [];
    }

    /** copy_page: the fetched page overwrites the frame. */
    method CopyPage(page: seq<int>)
      requires |page| == frame.Length > 0
      modifies frame
      ensures frame[..] == page
    {
      frame[0] := 15;
      for i := 0 to frame.Length
        invariant frame[..i] == page[..i]
      {
        frame[i] := page[i];
      }
    }

    /** temp_copy: a snapshot of the frame, unaffected by what happens to the frame later. */
    method TempCopy() returns (temp: array<int>)
      ensures fresh(temp) && temp[..] == frame[..]
    {
      temp := new int[frame.Length];
      for i := 0 to frame.Length
        invariant temp[..i] == frame[..i]
      {
        temp[i] := frame[i];
      }
    }

    method Invalidate()
      modifies this`state, this`prot
      ensures state == NO_ACCESS && prot == PROT_NONE
    {
      state := NO_ACCESS;
      prot := PROT_NONE;
    }

    method SendReadPage() returns (page: seq<int>)
      modifies this`state, this`prot
      ensures state == READ && prot == PROT_READ && page == frame[..]
    {
      state := READ;
      prot := PROT_READ;
      page := frame[..];
    }

    method SendWritePage(who: nat) returns (page: seq<int>)
      modifies this`state, this`prot, this`writer
      ensures state == NO_ACCESS && prot == PROT_NONE && page == frame[..]
    {
      state := NO_ACCESS;
      writer := Some(who);
      prot := PROT_READ;
      var temp := TempCopy();
      prot := PROT_NONE;
      page := temp[..];
    }
  }

  /** One page of the shared memory: the entries and frames of all clients for it. */
  class SharedPage {
    const owner: nat
    const nodes: seq<Node>

    constructor (owner: nat, nodes: seq<Node>)
      ensures this.owner == owner && this.nodes == nodes
    {
      this.owner, this.nodes := owner, nodes;
    }

    ghost function Frames(): set<array<int>> {
      set i | 0 <= i < |nodes| :: nodes[i].frame
    }

    ghost predicate Valid() {
      && owner < |nodes|
      && (forall i, j :: 0 <= i < j < |nodes| ==> nodes[i] != nodes[j] && nodes[i].frame != nodes[j].frame)
      && (forall i :: 0 <= i < |nodes| ==> nodes[i].frame.Length == nodes[owner].frame.Length > 0)
    }

    /** The page of the protocol machine that the entries and frames stand for. */
    ghost function View(requests: seq<Request>, tx: Tx): Page
      requires Valid() && |requests| == |nodes|
      reads nodes, Frames()
    {
      Page(owner, nodes[owner].writer, nodes[owner].readers,
           seq(|nodes|, c requires 0 <= c < |nodes| reads nodes, Frames() =>
             Local(nodes[c].prot, nodes[c].state, nodes[c].frame[..], requests[c])),
           tx)
    }

    /** Nobody has a fault. */
    ghost function Peace(): seq<Request> {
      seq(|nodes|, i => Quiet)
    }

    /** Only c's fault f is outstanding. */
    ghost function Asking(c: nat, f: Fault): seq<Request> {
      seq(|nodes|, i => if i == c then Waiting(f) else Quiet)
    }

    /** Only c's answer is outstanding, if it has one to install. */
    ghost function Replied(c: nat, reply: Option<Grant>): seq<Request> {
      seq(|nodes|, i => if i == c && reply.Some? then Granted(reply.value) else Quiet)
    }

    /** The first part of read_fault on a page lent for writing: the owner fetches it back and both keep it readable. */
    method Reclaim(ghost requests: seq<Request>)
      requires Valid() && |requests| == |nodes| && WF(View(requests, Idle))
      requires nodes[owner].writer.Some? && nodes[owner].writer.value < |nodes| && nodes[owner].writer.value != owner
      modifies nodes, Frames()
      ensures Valid() && View(requests, Idle) == Reclaimed(old(View(requests, Idle)))
    {
      var own, w := nodes[owner], nodes[owner].writer.value;
      var page := nodes[w].SendReadPage();
      own.readers := own.readers + [w];
      own.writer := None;
      own.state := READ;
      own.prot := PROT_ALL;
      own.CopyPage(page);
      own.prot := PROT_READ;
      AlikeIsEqual(View(requests, Idle), Reclaimed(old(View(requests, Idle))));
    }

    /** The owner gives up writing its page, to share it. */
    method Downgrade(ghost requests: seq<Request>)
      requires Valid() && |requests| == |nodes|
      modifies nodes[owner]
      ensures Valid() && View(requests, Idle) == Downgraded(old(View(requests, Idle)))
    {
      ghost var v := View(requests, Idle);
      nodes[owner].state, nodes[owner].writer, nodes[owner].prot := READ, None, PROT_READ;
      AlikeIsEqual(View(requests, Idle), Downgraded(v));
    }

    /** A requester other than the owner becomes a reader and is sent the owner's page. */
    method ShareWith(client: nat) returns (reply: Option<Grant>)
      requires Valid() && client < |nodes|
      modifies nodes[owner]
      ensures Valid() && (reply.Some? <==> client != owner)
      ensures View(Replied(client, reply), Idle)
              == ReadAnswer(old(View(Asking(client, ReadFault), Idle)), client, old(nodes[owner].frame[..]))
    {
      reply := None;
      if client != owner {
        nodes[owner].readers := nodes[owner].readers + [client];
        reply := Some(ReadData(nodes[owner].frame[..]));
      }
      AlikeIsEqual(View(Replied(client, reply), Idle),
                   ReadAnswer(old(View(Asking(client, ReadFault), Idle)), client, nodes[owner].frame[..]));
    }

    /** read_fault on the owner: its own fault, or a remote client's, whose answer is returned. */
    method ReadFaultAtOwner(client: nat, ghost mem: seq<int>) returns (reply: Option<Grant>)
      requires Valid() && client < |nodes|
      requires Coherent(View(Asking(client, ReadFault), Idle), mem)
      modifies nodes, Frames()
      ensures Valid() && (reply.Some? <==> client != owner)
      ensures View(Replied(client, reply), Idle)
              == Served(old(View(Asking(client, ReadFault), Idle)), mem, client, ReadFault)
    {
      var own := nodes[owner];
      ghost var v0 := View(Asking(client, ReadFault), Idle);
      ServedRead(v0, mem, client);
      hide Coherent, Served;
      match own.state
      case NO_ACCESS =>
        Reclaim(Asking(client, ReadFault));
        reply := ShareWith(client);
      case READ =>
        reply := ShareWith(client);
      case WRITE =>
        if client != owner {
          Downgrade(Asking(client, ReadFault));
          reply := ShareWith(client);
        } else {
          assert false;
        }
    }

    /**
     One turn of the loop of write_fault: the first queued reader is dequeued and, unless it is the
     requester, invalidated.
     */
    method Dismiss(client: nat, hadData: bool, ghost mem: seq<int>) returns (hasData: bool)
      requires Valid() && client < |nodes| && Draining(client, hadData, mem) && nodes[owner].readers != []
      modifies nodes
      ensures Valid() && DrainView(client, hasData) == Stretch(old(DrainView(client, hadData)), client)
      ensures |nodes[owner].readers| < |old(nodes[owner].readers)|
    {
      ghost var v := DrainView(client, hadData);
      DrainStretch(v, mem, client);
      hide Coherent, Served, Solo, Stretch;
      hasData := hadData;
      var reader := nodes[owner].readers[0];
      nodes[owner].readers := nodes[owner].readers[1..];
      if reader != client {
        nodes[reader].Invalidate();
      } else {
        hasData := true;
      }
      AlikeIsEqual(DrainView(client, hasData), Stretch(v, client));
    }

    /** The loop of write_fault over the queue of readers. */
    method DrainReaders(client: nat, ghost mem: seq<int>) returns (hasData: bool)
      requires Valid() && client < |nodes| && Draining(client, false, mem)
      modifies nodes
      ensures Valid() && Draining(client, hasData, mem) && nodes[owner].readers == []
      ensures Served(DrainView(client, hasData), mem, client, WriteFault)
              == Served(old(DrainView(client, false)), mem, client, WriteFault)
    {
      hasData := false;
      ghost var v0 := DrainView(client, false);
      while nodes[owner].readers != []
        invariant Draining(client, hasData, mem)
        invariant Served(DrainView(client, hasData), mem, client, WriteFault) == Served(v0, mem, client, WriteFault)
        decreases |nodes[owner].readers|
      {
        DrainStretch(DrainView(client, hasData), mem, client);
        hasData := Dismiss(client, hasData, mem);
      }
    }

    /** write_fault on the owner: its own fault, or a remote client's, whose answer is returned. */
    method WriteFaultAtOwner(client: nat, ghost mem: seq<int>) returns (reply: Option<Grant>)
      requires Valid() && client < |nodes|
      requires Coherent(View(Asking(client, WriteFault), Idle), mem)
      modifies nodes, Frames()
      ensures Valid() && (reply.Some? <==> client != owner)
      ensures View(Replied(client, reply), Idle)
              == Served(old(View(Asking(client, WriteFault), Idle)), mem, client, WriteFault)
    {
      var own := nodes[owner];
      ghost var v0 := View(Asking(client, WriteFault), Idle);
      ServedWrite(v0, mem, client);
      match own.state
      case NO_ACCESS =>
        reply := PassOn(client);
      case READ =>
        AlikeIsEqual(DrainView(client, false), v0.(tx := Drain(client, false)));
        var hasData := DrainReaders(client, mem);
        ServedDrained(DrainView(client, hasData), mem, client);
        reply := TakeOver(client, hasData);
      case WRITE =>
        if client != owner {
          reply := HandOver(client, WriteFault);
        } else {
          assert false;
        }
    }

    /** write_fault on a page lent to another client: the page goes from the old writer to the new one. */
    method PassOn(client: nat) returns (reply: Option<Grant>)
      requires Valid() && client < |nodes| && WF(View(Asking(client, WriteFault), Idle))
      requires nodes[owner].writer.Some? && nodes[owner].writer.value != owner && nodes[owner].writer.value != client
      modifies nodes, Frames()
      ensures Valid() && (reply.Some? <==> client != owner)
      ensures View(Replied(client, reply), Idle) == PassedOn(old(View(Asking(client, WriteFault), Idle)), client)
    {
      var own := nodes[owner];
      ghost var v0 := View(Asking(client, WriteFault), Idle);
      var page := nodes[own.writer.value].SendWritePage(owner);
      reply := None;
      own.writer := Some(client);
      if client == owner {
        own.state := WRITE;
        own.prot := PROT_ALL;
        own.CopyPage(page);
      } else {
        reply := Some(WriteData(page));
      }
      AlikeIsEqual(View(Replied(client, reply), Idle), PassedOn(v0, client));
    }

    /** The end of write_fault on a READ page, once no other client has a copy. */
    method TakeOver(client: nat, hasData: bool) returns (reply: Option<Grant>)
      requires Valid() && client < |nodes|
      modifies nodes
      ensures Valid() && (reply.Some? <==> client != owner)
      ensures View(Replied(client, reply), Idle) == TakenOver(old(DrainView(client, hasData)), client, hasData)
    {
      var own := nodes[owner];
      ghost var v0 := DrainView(client, hasData);
      if client == owner {
        own.state := WRITE;
        own.writer := Some(owner);
        own.prot := PROT_ALL;
        reply := None;
      } else if hasData {
        own.state := NO_ACCESS;
        own.writer := Some(client);
        own.prot := PROT_NONE;
        reply := Some(WritePerm);
      } else {
        reply := HandOver(client, WriteFault);
      }
      AlikeIsEqual(View(Replied(client, reply), Idle), TakenOver(v0, client, hasData));
    }

    /** The owner gives its copy and its access to another client. */
    method HandOver(client: nat, ghost f: Fault) returns (reply: Option<Grant>)
      requires Valid() && client < |nodes| && client != owner
      modifies nodes[owner]
      ensures Valid() && reply == Some(WriteData(old(nodes[owner].frame[..])))
      ensures View(Replied(client, reply), Idle) == HandedOver(old(View(Asking(client, f), Idle)), client)
    {
      var own := nodes[owner];
      ghost var v0 := View(Asking(client, f), Idle);
      own.state := NO_ACCESS;
      own.writer := Some(client);
      own.prot := PROT_READ;
      var temp := own.TempCopy();
      own.prot := PROT_NONE;
      reply := Some(WriteData(temp[..]));
      AlikeIsEqual(View(Replied(client, reply), Idle), HandedOver(v0, client));
    }

    /** A client installs the owner's answer to its fault: the remote halves of read_fault and write_fault. */
    method InstallReply(client: nat, f: Fault, reply: Grant)
      requires Valid() && client < |nodes| && client != owner
      requires reply.ReadData? <==> f.ReadFault?
      requires !reply.WritePerm? ==> |reply.data| == nodes[client].frame.Length
      modifies nodes[client], nodes[client].frame
      ensures Valid() && View(Peace(), Idle) == Installs(old(View(Replied(client, Some(reply)), Idle)), client)
    {
      var node := nodes[client];
      ghost var v := View(Replied(client, Some(reply)), Idle);
      if f.ReadFault? {
        node.prot := PROT_ALL;
        node.CopyPage(reply.data);
        node.prot := PROT_READ;
      } else {
        node.state := WRITE;
        node.writer := Some(client);
        node.prot := PROT_ALL;
        if reply.WriteData? {
          node.CopyPage(reply.data);
        }
      }
      AlikeIsEqual(View(Peace(), Idle), Installs(v, client));
    }

    /**
     A fault of one client, from the exception to its return: the page is left
     coherent, and the client has exactly the access it asked for and the latest contents.
     */
    method HandleFault(client: nat, f: Fault, ghost mem: seq<int>)
      requires Valid() && client < |nodes| && Coherent(View(Peace(), Idle), mem)
      requires if f.ReadFault? then nodes[client].prot == PROT_NONE else nodes[client].prot != PROT_ALL
      modifies nodes, Frames()
      ensures Valid() && Coherent(View(Peace(), Idle), mem)
      ensures nodes[client].frame[..] == mem
      ensures nodes[client].prot == if f.ReadFault? then PROT_READ else PROT_ALL
    {
      ghost var calm, asking := View(Peace(), Idle), View(Asking(client, f), Idle);
      assert WF(calm);
      hide Coherent, Served, Stretch, Solo, Answered, LocalOk, WF;
      AlikeIsEqual(asking, Raised(calm, client, f));
      RaisedIsSolo(calm, mem, client, f);
      var reply;
      if f.ReadFault? {
        reply := ReadFaultAtOwner(client, mem);
      } else {
        reply := WriteFaultAtOwner(client, mem);
      }
      ghost var served := View(Replied(client, reply), Idle);
      ReplyFits(served, mem, client, f);
      if client != owner {
        InstallReply(client, f, reply.value);
        InstallKeeps(served, mem, client);
      } else {
        AlikeIsEqual(served, View(Peace(), Idle));
      }
      AccessIsLatest(View(Peace(), Idle), mem, client);
    }

    /** The page at the head of the drain loop. */
    ghost function DrainView(client: nat, hasData: bool): Page
      requires Valid()
      reads nodes, Frames()
    {
      View(Asking(client, WriteFault), Drain(client, hasData))
    }

    ghost predicate Draining(client: nat, hasData: bool, mem: seq<int>)
      requires Valid()
      reads nodes, Frames()
    {
      Coherent(DrainView(client, hasData), mem) && Solo(DrainView(client, hasData), client, WriteFault)
    }
  }

  /** Equality of pages, field by field. */
  ghost predicate Alike(pg: Page, pg': Page) {
    && pg.owner == pg'.owner && pg.writer == pg'.writer && pg.readers == pg'.readers && pg.tx == pg'.tx
    && |pg.locals| == |pg'.locals|
    && forall c :: 0 <= c < |pg.locals| ==>
                     && pg.locals[c].prot == pg'.locals[c].prot && pg.locals[c].state == pg'.locals[c].state
                     && pg.locals[c].data == pg'.locals[c].data && pg.locals[c].request == pg'.locals[c].request
  }

  lemma AlikeIsEqual(pg: Page, pg': Page)
    requires Alike(pg, pg')
    ensures pg == pg'
  {
    assert pg.locals == pg'.locals;
  }

  /** The owner has the writer's contents, and both have read access. */
  function Reclaimed(pg: Page): (pg': Page)
    requires WF(pg) && pg.writer.Some? && pg.tx.Idle?
    ensures |pg'.locals| == |pg.locals| && pg'.owner == pg.owner && pg'.tx == pg.tx && WF(pg')
    ensures pg'.readers == pg.readers + [pg.writer.value] && pg'.writer == None
  {
    var w := pg.writer.value;
    var fetched := Put(pg, w, pg.locals[w].(state := READ, prot := PROT_READ));
    Put(fetched, pg.owner, fetched.locals[pg.owner].(state := READ, prot := PROT_READ, data := pg.locals[w].data))
    .(readers := pg.readers + [w], writer := None)
  }

  /** What a read fault of c does to a page: where the latest copy comes from, who keeps one, what c is sent. */
  function AfterRead(pg: Page, c: nat): Page
    requires WF(pg) && c < |pg.locals| && pg.tx.Idle? && (Own(pg).state == NO_ACCESS ==> pg.writer.Some?)
  {
    var own := Own(pg);
    match own.state
    case NO_ACCESS =>
      ReadAnswer(Reclaimed(pg), c, Own(Reclaimed(pg)).data)
    case READ => ReadAnswer(pg, c, own.data)
    case WRITE => ReadAnswer(Downgraded(pg), c, own.data)
  }

  /** The owner has read access where it had write access. */
  function Downgraded(pg: Page): Page
    requires pg.owner < |pg.locals|
  {
    Put(pg, pg.owner, pg.locals[pg.owner].(state := READ, prot := PROT_READ)).(writer := None)
  }

  lemma ServedRead(pg: Page, mem: seq<int>, c: nat)
    requires Coherent(pg, mem) && Solo(pg, c, ReadFault) && pg.tx.Idle?
    ensures Own(pg).state == NO_ACCESS ==> pg.writer.Some? && pg.writer.value != pg.owner
    ensures Own(pg).state == WRITE ==> c != pg.owner
    ensures Served(pg, mem, c, ReadFault) == AfterRead(pg, c)
  {
    StretchIsCoherent(pg, mem, c, ReadFault);
    if Own(pg).state == NO_ACCESS {
      ServedReadLent(pg, mem, c);
    } else {
      ReadShared(pg, mem, c);
    }
  }

  lemma ServedReadLent(pg: Page, mem: seq<int>, c: nat)
    requires Coherent(pg, mem) && Solo(pg, c, ReadFault) && pg.tx.Idle? && Own(pg).state == NO_ACCESS
    ensures pg.writer.Some? && pg.writer.value != pg.owner
    ensures Served(pg, mem, c, ReadFault) == AfterRead(pg, c)
  {
    assert WF(pg);
    hide Stretch, Served, Coherent, Solo, WF;
    ReadFetch(pg, mem, c);
    ServedUnfolds(pg, mem, c, ReadFault);
    var pg1 := Stretch(pg, c);
    ReadOpen(pg1, mem, c);
    ServedUnfolds(pg1, mem, c, ReadFault);
    var pg2 := Stretch(pg1, c);
    ReadClose(pg2, mem, c);
    ServedUnfolds(pg2, mem, c, ReadFault);
    ReadLentEnds(pg, pg1, pg2, c);
  }

  /** Fetching, opening the frame, copying and answering amount to reclaiming the page and sharing it. */
  lemma ReadLentEnds(pg: Page, pg1: Page, pg2: Page, c: nat)
    requires WF(pg) && c < |pg.locals| && pg.tx.Idle? && Own(pg).state == NO_ACCESS
    requires pg.writer.Some? && pg.writer.value != pg.owner
    requires var w := pg.writer.value;
             pg1 == Put(pg, w, pg.locals[w].(state := READ, prot := PROT_READ)).(tx := GotRead(c, pg.locals[w].data))
    requires pg2 == Put(pg1, pg.owner, Own(pg).(state := READ, prot := PROT_ALL))
                    .(readers := pg.readers + [pg.writer.value], writer := None, tx := Window(c, pg1.tx.data))
    ensures ReadAnswer(Put(pg2, pg.owner, pg2.locals[pg.owner].(data := pg2.tx.data, prot := PROT_READ)), c,
                       pg2.tx.data)
            == AfterRead(pg, c)
  {
    AlikeIsEqual(ReadAnswer(Put(pg2, pg.owner, pg2.locals[pg.owner].(data := pg2.tx.data, prot := PROT_READ)),
                            c, pg2.tx.data),
                 AfterRead(pg, c));
  }

  lemma ServedUnfolds(pg: Page, mem: seq<int>, c: nat, f: Fault)
    requires Coherent(pg, mem) && Solo(pg, c, f)
    ensures Coherent(Stretch(pg, c), mem)
    ensures if Stretch(pg, c).tx.Idle? then Served(pg, mem, c, f) == Stretch(pg, c)
            else Solo(Stretch(pg, c), c, f) && Served(pg, mem, c, f) == Served(Stretch(pg, c), mem, c, f)
  {
    StretchIsCoherent(pg, mem, c, f);
  }

  /** The writer sends the page and keeps a readable copy. */
  lemma ReadFetch(pg: Page, mem: seq<int>, c: nat)
    requires Coherent(pg, mem) && Solo(pg, c, ReadFault) && pg.tx.Idle? && Own(pg).state == NO_ACCESS
    ensures pg.writer.Some? && pg.writer.value < |pg.locals| && pg.writer.value != pg.owner && pg.writer.value != c
    ensures var w := pg.writer.value;
            Stretch(pg, c) == Put(pg, w, pg.locals[w].(state := READ, prot := PROT_READ))
                              .(tx := GotRead(c, pg.locals[w].data))
    ensures |pg.locals[pg.writer.value].data| == |mem|
  {
    assert LocalOk(pg, c, mem) && LocalOk(pg, pg.owner, mem) && LocalOk(pg, pg.writer.value, mem);
  }

  lemma ReadOpen(pg: Page, mem: seq<int>, c: nat)
    requires Coherent(pg, mem) && Solo(pg, c, ReadFault) && pg.tx.GotRead?
    ensures pg.writer.Some?
    ensures Stretch(pg, c) == Put(pg, pg.owner, Own(pg).(state := READ, prot := PROT_ALL))
                              .(readers := pg.readers + [pg.writer.value], writer := None, tx := Window(c, pg.tx.data))
  {
  }

  lemma ReadClose(pg: Page, mem: seq<int>, c: nat)
    requires Coherent(pg, mem) && Solo(pg, c, ReadFault) && pg.tx.Window?
    ensures |pg.tx.data| == |mem| == |Own(pg).data|
    ensures Stretch(pg, c) == ReadAnswer(Put(pg, pg.owner, Own(pg).(data := pg.tx.data, prot := PROT_READ)), c,
                                         pg.tx.data)
  {
    assert LocalOk(pg, pg.owner, mem);
  }

  /** The requester, if it is another client, is enqueued and sent the page. */
  function ReadAnswer(pg: Page, c: nat, data: seq<int>): Page
    requires c < |pg.locals|
  {
    if c == pg.owner then Put(pg, c, pg.locals[c].(request := Quiet)).(tx := Idle)
    else Put(pg, c, pg.locals[c].(request := Granted(ReadData(data)))).(readers := pg.readers + [c], tx := Idle)
  }

  lemma ReadShared(pg: Page, mem: seq<int>, c: nat)
    requires Coherent(pg, mem) && Solo(pg, c, ReadFault) && pg.tx.Idle? && Own(pg).state != NO_ACCESS
    ensures Own(pg).state == WRITE ==> c != pg.owner
    ensures Stretch(pg, c) ==
            var shared := if Own(pg).state == READ then pg else Downgraded(pg);
            ReadAnswer(shared, c, Own(pg).data)
  {
    assert LocalOk(pg, c, mem) && LocalOk(pg, pg.owner, mem);
  }

  /** One turn of the drain loop. */
  lemma DrainStretch(pg: Page, mem: seq<int>, c: nat)
    requires Coherent(pg, mem) && Solo(pg, c, WriteFault) && pg.tx.Drain? && pg.readers != []
    ensures pg.readers[0] != pg.owner
    ensures var a, rest := pg.readers[0], pg.(readers := pg.readers[1..]);
            Stretch(pg, c) == if a == c then rest.(tx := Drain(c, true))
                              else Put(rest, a, pg.locals[a].(state := NO_ACCESS, prot := PROT_NONE))
    ensures Coherent(Stretch(pg, c), mem) && Solo(Stretch(pg, c), c, WriteFault)
    ensures Served(pg, mem, c, WriteFault) == Served(Stretch(pg, c), mem, c, WriteFault)
  {
    var a := pg.readers[0];
    assert a in pg.readers;
    StretchIsCoherent(pg, mem, c, WriteFault);
  }

  function PassedOn(pg: Page, c: nat): Page
    requires pg.owner < |pg.locals| && c < |pg.locals| && pg.writer.Some? && pg.writer.value < |pg.locals|
  {
    var w := pg.writer.value;
    var data := pg.locals[w].data;
    var fetched := Put(pg, w, pg.locals[w].(state := NO_ACCESS, prot := PROT_NONE)).(writer := Some(c), tx := Idle);
    if c == pg.owner then
      Put(fetched, c, pg.locals[c].(state := WRITE, prot := PROT_ALL, data := data, request := Quiet))
    else
      Put(fetched, c, pg.locals[c].(request := Granted(WriteData(data))))
  }

  function HandedOver(pg: Page, c: nat): Page
    requires pg.owner < |pg.locals| && c < |pg.locals|
  {
    var own := pg.locals[pg.owner];
    Put(Put(pg, pg.owner, own.(state := NO_ACCESS, prot := PROT_NONE)),
        c, pg.locals[c].(request := Granted(WriteData(own.data)))).(writer := Some(c), tx := Idle)
  }

  function TakenOver(pg: Page, c: nat, hasData: bool): Page
    requires pg.owner < |pg.locals| && c < |pg.locals|
  {
    var own := pg.locals[pg.owner];
    if c == pg.owner then
      Put(pg, c, own.(state := WRITE, prot := PROT_ALL, request := Quiet)).(writer := Some(c), tx := Idle)
    else if hasData then
      Put(Put(pg, pg.owner, own.(state := NO_ACCESS, prot := PROT_NONE)),
          c, pg.locals[c].(request := Granted(WritePerm))).(writer := Some(c), tx := Idle)
    else HandedOver(pg, c)
  }

  lemma ServedDrained(pg: Page, mem: seq<int>, c: nat)
    requires Coherent(pg, mem) && Solo(pg, c, WriteFault) && pg.tx.Drain? && pg.readers == []
    ensures Served(pg, mem, c, WriteFault) == TakenOver(pg, c, pg.tx.hasData)
  {
    StretchIsCoherent(pg, mem, c, WriteFault);
    AlikeIsEqual(Stretch(pg, c), TakenOver(pg, c, pg.tx.hasData));
  }

  /** How a write fault is served, up to the drain of a READ page's queue. */
  lemma ServedWrite(pg: Page, mem: seq<int>, c: nat)
    requires Coherent(pg, mem) && Solo(pg, c, WriteFault) && pg.tx.Idle?
    ensures Own(pg).state == NO_ACCESS ==>
              && pg.writer.Some? && pg.writer.value < |pg.locals|
              && pg.writer.value != pg.owner && pg.writer.value != c
              && Served(pg, mem, c, WriteFault) == PassedOn(pg, c)
    ensures Own(pg).state == READ ==>
              var drains := pg.(tx := Drain(c, false));
              && Coherent(drains, mem) && Solo(drains, c, WriteFault)
              && Served(pg, mem, c, WriteFault) == Served(drains, mem, c, WriteFault)
    ensures Own(pg).state == WRITE ==> c != pg.owner && Served(pg, mem, c, WriteFault) == HandedOver(pg, c)
  {
    StretchIsCoherent(pg, mem, c, WriteFault);
    match Own(pg).state
    case NO_ACCESS => ServedWriteLent(pg, mem, c);
    case READ => assert Stretch(pg, c) == pg.(tx := Drain(c, false));
    case WRITE =>
      assert LocalOk(pg, c, mem) && LocalOk(pg, pg.owner, mem);
      AlikeIsEqual(Stretch(pg, c), HandedOver(pg, c));
  }

  lemma ServedWriteLent(pg: Page, mem: seq<int>, c: nat)
    requires Coherent(pg, mem) && Solo(pg, c, WriteFault) && pg.tx.Idle? && Own(pg).state == NO_ACCESS
    ensures pg.writer.Some? && pg.writer.value < |pg.locals| && pg.writer.value != pg.owner && pg.writer.value != c
    ensures Served(pg, mem, c, WriteFault) == PassedOn(pg, c)
  {
    assert WF(pg);
    hide Stretch, Served, Coherent, Solo, WF;
    WriteFetch(pg, mem, c);
    ServedUnfolds(pg, mem, c, WriteFault);
    var pg1 := Stretch(pg, c);
    WriteClose(pg1, mem, c);
    ServedUnfolds(pg1, mem, c, WriteFault);
    AlikeIsEqual(Stretch(pg1, c), PassedOn(pg, c));
  }

  /** The writer sends the page and gives up its copy. */
  lemma WriteFetch(pg: Page, mem: seq<int>, c: nat)
    requires Coherent(pg, mem) && Solo(pg, c, WriteFault) && pg.tx.Idle? && Own(pg).state == NO_ACCESS
    ensures pg.writer.Some? && pg.writer.value < |pg.locals| && pg.writer.value != pg.owner && pg.writer.value != c
    ensures var w := pg.writer.value;
            Stretch(pg, c) == Put(pg, w, pg.locals[w].(state := NO_ACCESS, prot := PROT_NONE))
                              .(tx := GotWrite(c, pg.locals[w].data))
  {
    assert LocalOk(pg, c, mem) && LocalOk(pg, pg.owner, mem) && LocalOk(pg, pg.writer.value, mem);
  }

  lemma WriteClose(pg: Page, mem: seq<int>, c: nat)
    requires Coherent(pg, mem) && Solo(pg, c, WriteFault) && pg.tx.GotWrite?
    ensures c < |pg.locals|
    ensures var passed := pg.(writer := Some(c), tx := Idle);
            Stretch(pg, c) ==
            if c == pg.owner then
              Put(passed, c, Own(pg).(state := WRITE, prot := PROT_ALL, data := pg.tx.data, request := Quiet))
            else Put(passed, c, pg.locals[c].(request := Granted(WriteData(pg.tx.data))))
  {
  }

  function Installs(pg: Page, c: nat): Page
    requires c < |pg.locals| && pg.locals[c].request.Granted?
  {
    Put(pg, c, Installed(pg.locals[c]))
  }

  /** An answered fault: the answer is of the kind asked for and carries a whole page. */
  lemma ReplyFits(pg: Page, mem: seq<int>, c: nat, f: Fault)
    requires Coherent(pg, mem) && Answered(pg, c, f)
    requires c != pg.owner ==> pg.locals[c].request.Granted?
    ensures |pg.locals[c].data| == |mem|
    ensures c != pg.owner ==>
              var g := pg.locals[c].request.grant;
              && (g.ReadData? <==> f.ReadFault?) && (!g.WritePerm? ==> |g.data| == |mem|)
              && Next(ORDERLY, pg, Install(c)) == Some(Installs(pg, c))
    ensures c == pg.owner ==>
              pg.locals[c].prot == if f.ReadFault? then PROT_READ else PROT_ALL
  {
    assert LocalOk(pg, c, mem);
  }

  lemma AccessIsLatest(pg: Page, mem: seq<int>, c: nat)
    requires Coherent(pg, mem) && pg.tx.Idle? && c < |pg.locals|
    ensures pg.locals[c].prot != PROT_NONE ==> pg.locals[c].data == mem
  {
    assert LocalOk(pg, c, mem);
  }
}
