/**
 do_read_fault and do_write_fault as the server runs them, with the clients'
 replies called where the server awaits them, each proved to do what the
 protocol machine does when the fault is served without interruption.
 */
module CentralHandlers {
  import opened Base
  import opened Paging
  import opened CentralPage
  import opened CentralSafety
  import opened CentralTraces

  /** A client's view of one page: its protection and its frame. */
  class Station {
    var prot: Protection
    const frame: array<int>

    constructor (words: nat)
      requires words > 0
      ensures fresh(frame) && frame.Length == words && prot == PROT_NONE
      ensures forall i :: 0 <= i < words ==> frame[i] == 0
    {
      frame := new int[words](i => 0);
      prot := PROT_NONE;
    }

    method CopyPage(page: seq<int>)
      requires |page| == frame.Length
      modifies frame
      ensures frame[..] == page
    {
      for i := 0 to frame.Length
        invariant frame[..i] == page[..i]
      {
        frame[i] := page[i];
      }
    }

    /** A directive: the reply carries the frame, then the protection changes. */
    method Obey(protection: Protection) returns (page: seq<int>)
      modifies this`prot
      ensures prot == protection && page == frame[..]
    {
      page := frame[..];
      prot := protection;
    }

    /** The exception handler's half of a fault. */
    method InstallReply(f: Fault, reply: Grant)
      requires reply.ReadData? <==> f.ReadFault?
      requires !reply.WritePerm? ==> |reply.data| == frame.Length
      modifies this`prot, frame
      ensures prot == (if f.ReadFault? then PROT_READ else PROT_ALL)
      ensures frame[..] == if reply.WritePerm? then old(frame[..]) else reply.data
    {
      prot := PROT_ALL;
      if f.WriteFault? {
        if reply.WriteData? {
          CopyPage(reply.data);
        }
      } else {
        CopyPage(reply.data);
        prot := PROT_READ;
      }
    }
  }

  /** The server's page-table entry and master copy of one page, with the clients' stations for it. */
  class ServerPage {
    var state: ServerState
    var owner: Option<nat>
    var queue: seq<nat>
    const master: array<int>
    const stations: seq<Station>

    constructor (master: array<int>, stations: seq<Station>)
      ensures this.master == master && this.stations == stations
      ensures state == INIT && owner == None && queue == []
    {
      this.master, this.stations := master, stations;
      state, owner, queue := INIT, None, [];
    }

    ghost function Frames(): set<array<int>> {
      set i | 0 <= i < |stations| :: stations[i].frame
    }

    ghost predicate Valid() {
      && (forall i, j :: 0 <= i < j < |stations| ==>
            stations[i] != stations[j] && stations[i].frame != stations[j].frame)
      && (forall i :: 0 <= i < |stations| ==> stations[i].frame.Length == master.Length && stations[i].frame != master)
    }

    /** The page of the protocol machine that the entry and the stations stand for. */
    ghost function View(requests: seq<Request>, tx: Tx): Page
      requires Valid() && |requests| == |stations|
      reads this, master, stations, Frames()
    {
      Page(state, owner, queue, master[..],
           seq(|stations|, c requires 0 <= c < |stations| reads stations, Frames() =>
             Client(stations[c].prot, stations[c].frame[..], requests[c], None)),
           tx)
    }

    ghost function Peace(): seq<Request> {
      seq(|stations|, i => Quiet)
    }

    ghost function Asking(c: nat, f: Fault): seq<Request> {
      seq(|stations|, i => if i == c then Waiting(f) else Quiet)
    }

    ghost function Replied(c: nat, reply: Grant): seq<Request> {
      seq(|stations|, i => if i == c then Granted(reply) else Quiet)
    }

    /** page_copy: a fetched page becomes the master copy. */
    method PageCopy(source: seq<int>)
      requires |source| == master.Length
      modifies master
      ensures master[..] == source
    {
      for i := 0 to master.Length
        invariant master[..i] == source[..i]
      {
        master[i] := source[i];
      }
    }

    method DoReadFault(client: nat, ghost mem: seq<int>) returns (reply: Grant)
      requires Valid() && client < |stations|
      requires Coherent(View(Asking(client, ReadFault), Idle), mem)
      modifies this, master, stations
      ensures Valid()
      ensures View(Replied(client, reply), Idle)
              == Served(old(View(Asking(client, ReadFault), Idle)), mem, client, ReadFault)
    {
      ghost var v0 := View(Asking(client, ReadFault), Idle);
      ServedRead(v0, mem, client);
      hide Coherent, Served;
      queue := queue + [client];
      match state
      case INIT | READ =>
        state := READ;
        reply := ReadData(master[..]);
      case WRITE =>
        state := READ;
        Reclaim();
        reply := ReadData(master[..]);
      AlikeIsEqual(View(Replied(client, reply), Idle), AfterRead(v0, client));
    }

    /** The server fetches the page from its owner, which stays a reader. */
    method Reclaim()
      requires Valid() && owner.Some? && owner.value < |stations|
      modifies this`queue, master, stations
      ensures Valid() && queue == old(queue) + [owner.value]
      ensures master[..] == old(stations[owner.value].frame[..])
      ensures forall i :: 0 <= i < |stations| ==>
                            stations[i].prot == if i == owner.value then PROT_READ else old(stations[i].prot)
    {
      var page := stations[owner.value].Obey(PROT_READ);
      queue := queue + [owner.value];
      PageCopy(page);
    }

    /** The loop over Q: every reader but the requester is told to invalidate, in queue order. */
    method DrainReaders(client: nat, ghost mem: seq<int>) returns (hasData: bool)
      requires Valid() && client < |stations| && Draining(client, false, mem)
      modifies this, stations
      ensures Valid() && Draining(client, hasData, mem) && queue == [] && state == old(state) && owner == old(owner)
      ensures Served(DrainView(client, hasData), mem, client, WriteFault)
              == Served(old(DrainView(client, false)), mem, client, WriteFault)
    {
      hasData := false;
      ghost var v0 := DrainView(client, false);
      while queue != []
        invariant Draining(client, hasData, mem) && state == old(state) && owner == old(owner)
        invariant Served(DrainView(client, hasData), mem, client, WriteFault) == Served(v0, mem, client, WriteFault)
        decreases |queue|
      {
        DrainStretch(DrainView(client, hasData), mem, client);
        hasData := Dismiss(client, hasData, mem);
      }
    }

    /** One turn of the loop. */
    method Dismiss(client: nat, hadData: bool, ghost mem: seq<int>) returns (hasData: bool)
      requires Valid() && client < |stations| && Draining(client, hadData, mem) && queue != []
      modifies this`queue, stations
      ensures Valid() && DrainView(client, hasData) == Stretch(old(DrainView(client, hadData)), client)
      ensures |queue| < |old(queue)|
    {
      ghost var v := DrainView(client, hadData);
      DrainStretch(v, mem, client);
      hide Coherent, Served, Solo, Stretch;
      hasData := hadData;
      var reader := queue[0];
      queue := queue[1..];
      if reader == client {
        hasData := true;
      } else {
        var _ := stations[reader].Obey(PROT_NONE);
      }
      AlikeIsEqual(DrainView(client, hasData), Stretch(v, client));
    }

    ghost function DrainView(client: nat, hasData: bool): Page
      requires Valid()
      reads this, master, stations, Frames()
    {
      View(Asking(client, WriteFault), Drain(client, hasData))
    }

    ghost predicate Draining(client: nat, hasData: bool, mem: seq<int>)
      requires Valid()
      reads this, master, stations, Frames()
    {
      Coherent(DrainView(client, hasData), mem) && Solo(DrainView(client, hasData), client, WriteFault)
    }

    /** do_write_fault on a page some client is writing: it goes through the master copy to the new owner. */
    method PassOn(client: nat) returns (reply: Grant)
      requires Valid() && client < |stations| && owner.Some? && owner.value < |stations|
      modifies this`owner, master, stations
      ensures Valid()
      ensures View(Replied(client, reply), Idle) == PassedOn(old(View(Asking(client, WriteFault), Idle)), client)
    {
      ghost var v0 := View(Asking(client, WriteFault), Idle);
      var oldOwner := owner.value;
      owner := Some(client);
      var page := stations[oldOwner].Obey(PROT_NONE);
      PageCopy(page);
      reply := WriteData(master[..]);
      AlikeIsEqual(View(Replied(client, reply), Idle), PassedOn(v0, client));
    }

    method DoWriteFault(client: nat, ghost mem: seq<int>) returns (reply: Grant)
      requires Valid() && client < |stations|
      requires Coherent(View(Asking(client, WriteFault), Idle), mem)
      modifies this, master, stations
      ensures Valid()
      ensures View(Replied(client, reply), Idle)
              == Served(old(View(Asking(client, WriteFault), Idle)), mem, client, WriteFault)
    {
      ghost var v0 := View(Asking(client, WriteFault), Idle);
      ServedWrite(v0, mem, client);
      match state
      case INIT =>
        owner, state := Some(client), WRITE;
        reply := WriteData(master[..]);
        AlikeIsEqual(View(Replied(client, reply), Idle),
                     GivenOut(v0.(owner := Some(client), state := WRITE), client, false));
      case WRITE =>
        reply := PassOn(client);
      case READ =>
        state, owner := WRITE, Some(client);
        AlikeIsEqual(DrainView(client, false), v0.(owner := Some(client), state := WRITE, tx := Drain(client, false)));
        reply := Revoke(client, mem);
    }

    /** The case of a READ page: all other readers lose their copies, then the client is answered. */
    method Revoke(client: nat, ghost mem: seq<int>) returns (reply: Grant)
      requires Valid() && client < |stations| && Draining(client, false, mem)
      modifies this, stations
      ensures Valid()
      ensures View(Replied(client, reply), Idle) == Served(old(DrainView(client, false)), mem, client, WriteFault)
    {
      var hasData := DrainReaders(client, mem);
      ServedDrained(DrainView(client, hasData), mem, client);
      reply := if hasData then WritePerm else WriteData(master[..]);
      AlikeIsEqual(View(Replied(client, reply), Idle), GivenOut(DrainView(client, hasData), client, hasData));
    }

    /**
     A fault of one client, from the exception to its return: the page is left
     coherent, and the client has the access it asked for and the latest contents.
     */
    method HandleFault(client: nat, f: Fault, ghost mem: seq<int>)
      requires Valid() && client < |stations| && Coherent(View(Peace(), Idle), mem)
      requires if f.ReadFault? then stations[client].prot == PROT_NONE else stations[client].prot != PROT_ALL
      modifies this, master, stations, Frames()
      ensures Valid() && Coherent(View(Peace(), Idle), mem)
      ensures stations[client].frame[..] == mem
      ensures stations[client].prot == if f.ReadFault? then PROT_READ else PROT_ALL
    {
      ghost var calm, asking := View(Peace(), Idle), View(Asking(client, f), Idle);
      assert WF(calm);
      hide Coherent, Served, Stretch, Solo, Answered, ClientOk, WF;
      AlikeIsEqual(asking, Raised(calm, client, f));
      RaisedIsSolo(calm, mem, client, f);
      var reply;
      if f.ReadFault? {
        reply := DoReadFault(client, mem);
      } else {
        reply := DoWriteFault(client, mem);
      }
      ghost var served := View(Replied(client, reply), Idle);
      ReplyFits(served, mem, client, f);
      stations[client].InstallReply(f, reply);
      AlikeIsEqual(View(Peace(), Idle), Put(served, client, Installed(served.clients[client])));
    }
  }

  /** Equality of pages, field by field. */
  ghost predicate Alike(pg: Page, pg': Page) {
    && pg.state == pg'.state && pg.owner == pg'.owner && pg.queue == pg'.queue
    && pg.master == pg'.master && pg.tx == pg'.tx
    && |pg.clients| == |pg'.clients|
    && forall c :: 0 <= c < |pg.clients| ==>
                     && pg.clients[c].prot == pg'.clients[c].prot && pg.clients[c].data == pg'.clients[c].data
                     && pg.clients[c].request == pg'.clients[c].request && pg.clients[c].late == pg'.clients[c].late
  }

  lemma AlikeIsEqual(pg: Page, pg': Page)
    requires Alike(pg, pg')
    ensures pg == pg'
  {
    assert pg.clients == pg'.clients;
  }

  /** What a read fault of c does to a page. */
  function AfterRead(pg: Page, c: nat): Page
    requires c < |pg.clients| && (pg.state == WRITE ==> pg.owner.Some? && pg.owner.value < |pg.clients|)
  {
    if pg.state != WRITE then
      Answer(pg.(state := READ, queue := pg.queue + [c]), c, ReadData(pg.master))
    else
      var w := pg.owner.value;
      var data := pg.clients[w].data;
      Answer(Put(pg, w, pg.clients[w].(prot := PROT_READ))
             .(state := READ, queue := pg.queue + [c] + [w], master := data),
             c, ReadData(data))
  }

  lemma ServedRead(pg: Page, mem: seq<int>, c: nat)
    requires Coherent(pg, mem) && Solo(pg, c, ReadFault) && pg.tx.Idle?
    ensures pg.state == WRITE ==> pg.owner.Some? && pg.owner.value < |pg.clients|
    ensures Served(pg, mem, c, ReadFault) == AfterRead(pg, c)
  {
    assert ClientOk(pg, c, mem);
    ServedUnfolds(pg, mem, c, ReadFault);
    var pg1 := Stretch(pg, c);
    if pg.state == WRITE {
      assert ClientOk(pg, pg.owner.value, mem);
      ServedUnfolds(pg1, mem, c, ReadFault);
      AlikeIsEqual(Stretch(pg1, c), AfterRead(pg, c));
    }
  }

  lemma ServedUnfolds(pg: Page, mem: seq<int>, c: nat, f: Fault)
    requires Coherent(pg, mem) && Solo(pg, c, f)
    ensures Coherent(Stretch(pg, c), mem)
    ensures if Stretch(pg, c).tx.Idle? then Served(pg, mem, c, f) == Stretch(pg, c)
            else Solo(Stretch(pg, c), c, f) && Served(pg, mem, c, f) == Served(Stretch(pg, c), mem, c, f)
  {
    StretchIsCoherent(pg, mem, c, f);
  }

  /** One turn of the drain loop. */
  lemma DrainStretch(pg: Page, mem: seq<int>, c: nat)
    requires Coherent(pg, mem) && Solo(pg, c, WriteFault) && pg.tx.Drain? && pg.queue != []
    ensures pg.queue[0] < |pg.clients|
    ensures var a, rest := pg.queue[0], pg.(queue := pg.queue[1..]);
            Stretch(pg, c) == if a == c then rest.(tx := Drain(c, true))
                              else Put(rest, a, pg.clients[a].(prot := PROT_NONE))
    ensures Coherent(Stretch(pg, c), mem) && Solo(Stretch(pg, c), c, WriteFault)
    ensures Served(pg, mem, c, WriteFault) == Served(Stretch(pg, c), mem, c, WriteFault)
  {
    ServedUnfolds(pg, mem, c, WriteFault);
    assert ClientOk(pg, pg.queue[0], mem);
  }

  /** The client is answered from the master copy, or by bare permission. */
  function GivenOut(pg: Page, c: nat, hasData: bool): Page
    requires c < |pg.clients|
  {
    Answer(pg, c, if hasData then WritePerm else WriteData(pg.master))
  }

  function PassedOn(pg: Page, c: nat): Page
    requires c < |pg.clients| && pg.owner.Some? && pg.owner.value < |pg.clients|
  {
    var w := pg.owner.value;
    GivenOut(Put(pg, w, pg.clients[w].(prot := PROT_NONE)).(owner := Some(c), master := pg.clients[w].data), c, false)
  }

  lemma ServedDrained(pg: Page, mem: seq<int>, c: nat)
    requires Coherent(pg, mem) && Solo(pg, c, WriteFault) && pg.tx.Drain? && pg.queue == []
    ensures Served(pg, mem, c, WriteFault) == GivenOut(pg, c, pg.tx.hasData)
  {
    ServedUnfolds(pg, mem, c, WriteFault);
  }

  lemma ServedWrite(pg: Page, mem: seq<int>, c: nat)
    requires Coherent(pg, mem) && Solo(pg, c, WriteFault) && pg.tx.Idle?
    ensures pg.state == INIT ==>
              Served(pg, mem, c, WriteFault) == GivenOut(pg.(owner := Some(c), state := WRITE), c, false)
    ensures pg.state == READ ==>
              var drains := pg.(owner := Some(c), state := WRITE, tx := Drain(c, false));
              && Coherent(drains, mem) && Solo(drains, c, WriteFault)
              && Served(pg, mem, c, WriteFault) == Served(drains, mem, c, WriteFault)
    ensures pg.state == WRITE ==>
              && pg.owner.Some? && pg.owner.value < |pg.clients|
              && Served(pg, mem, c, WriteFault) == PassedOn(pg, c)
  {
    if pg.state == WRITE {
      ServedWriteOwned(pg, mem, c);
    } else {
      assert ClientOk(pg, c, mem);
      ServedUnfolds(pg, mem, c, WriteFault);
    }
  }

  lemma ServedWriteOwned(pg: Page, mem: seq<int>, c: nat)
    requires Coherent(pg, mem) && Solo(pg, c, WriteFault) && pg.tx.Idle? && pg.state == WRITE
    ensures pg.owner.Some? && pg.owner.value < |pg.clients|
    ensures Served(pg, mem, c, WriteFault) == PassedOn(pg, c)
  {
    assert ClientOk(pg, c, mem) && ClientOk(pg, pg.owner.value, mem);
    ServedUnfolds(pg, mem, c, WriteFault);
    var pg1 := Stretch(pg, c);
    ServedUnfolds(pg1, mem, c, WriteFault);
    AlikeIsEqual(Stretch(pg1, c), PassedOn(pg, c));
  }

  lemma ReplyFits(pg: Page, mem: seq<int>, c: nat, f: Fault)
    requires Coherent(pg, mem) && Answered(pg, c, f)
    ensures c < |pg.clients| && pg.clients[c].request.Granted? && |pg.clients[c].data| == |mem|
    ensures var g := pg.clients[c].request.grant;
            && (g.ReadData? <==> f.ReadFault?) && (!g.WritePerm? ==> g.data == mem)
            && (g.WritePerm? ==> pg.clients[c].data == mem)
    ensures Coherent(Put(pg, c, Installed(pg.clients[c])), mem)
  {
    assert ClientOk(pg, c, mem);
    NextKeepsCoherent(pg, mem, Install(c));
  }
}
