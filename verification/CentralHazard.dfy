/**
 What goes wrong in the central-server system without a scheduling assumption:
 with two clients, on any page with a word in it, runs that load a stale word.
 */
module CentralHazard {
  import opened Base
  import opened Paging
  import opened FlatMemory
  import opened CentralPage
  import opened CentralCluster
  import Hazards

  /** Page p of n clients, of which 0 and 1 take part; the other pages rest. */
  datatype Cast = Cast(n: nat, pages: seq<Page>, p: nat, words: seq<int>)

  ghost predicate ValidCast(k: Cast) {
    && k.n >= 2 && WFC(k.n, k.pages) && k.p < |k.pages| && k.words != []
    && forall q :: 0 <= q < |k.pages| ==>
         && k.pages[q].tx.Idle?
         && forall c :: 0 <= c < k.n ==> k.pages[q].clients[c].request.Quiet? && k.pages[q].clients[c].late.None?
  }

  function NewWord(k: Cast): int
    requires k.words != []
  {
    k.words[0] + 1
  }

  function New(k: Cast): seq<int>
    requires k.words != []
  {
    k.words[0 := NewWord(k)]
  }

  function Off(k: Cast): Client {
    Client(PROT_NONE, seq(|k.words|, i => 0), Quiet, None)
  }

  function Holds(k: Cast): Client {
    Client(PROT_ALL, k.words, Quiet, None)
  }

  function Scene(k: Cast, state: ServerState, owner: Option<nat>, queue: seq<nat>, a: Client, b: Client, tx: Tx): Page {
    Page(state, owner, queue, k.words, seq(k.n, c => if c == 0 then a else if c == 1 then b else Off(k)), tx)
  }

  /**
   Some run, in order, leads from the start to the page at pg with the accesses of trace, no fault
   being on its way.
   */
  ghost predicate Reaches(d: Discipline, k: Cast, pg: Page, trace: seq<Event>)
    requires ValidCast(k)
  {
    exists steps ::
      && Run(d, k.n, k.pages, steps) == Some(k.pages[k.p := pg])
      && Trace(steps) == trace && Port([], steps) == Some([])
  }

  ghost predicate Goes(d: Discipline, k: Cast, pg: Page, act: Action, pg': Page) {
    && WF(pg) && |pg.clients| == |pg'.clients| == k.n
    && Next(d, pg, act).Some?
    && var q := Next(d, pg, act).value;
       && q.state == pg'.state && q.owner == pg'.owner && q.queue == pg'.queue
       && q.master == pg'.master && q.tx == pg'.tx
       && forall c :: 0 <= c < k.n ==>
                        && q.clients[c].prot == pg'.clients[c].prot && q.clients[c].data == pg'.clients[c].data
                        && q.clients[c].request == pg'.clients[c].request && q.clients[c].late == pg'.clients[c].late
  }

  lemma GoesTo(d: Discipline, k: Cast, pg: Page, act: Action, pg': Page)
    requires Goes(d, k, pg, act, pg')
    ensures Next(d, pg, act) == Some(pg') && WF(pg) && WF(pg') && |pg.clients| == |pg'.clients| == k.n
  {
    assert Next(d, pg, act).value.clients == pg'.clients;
  }

  /** One more step that is no fault and takes up none. */
  lemma Extend(d: Discipline, k: Cast, e: seq<Event>, pg: Page, st: Step, pg': Page)
    requires ValidCast(k) && Reaches(d, k, pg, e) && st.page == k.p && !st.Fault? && !st.Serve?
    requires Goes(d, k, pg, ActionOf(st), pg') && Allows(k, pg, st)
    ensures Reaches(d, k, pg', e + EventOf(st))
    ensures EventOf(st) == [] ==> Reaches(d, k, pg', e)
  {
    GoesTo(d, k, pg, ActionOf(st), pg');
    hide Next, Goes, WF, Allows;
    var t :| Run(d, k.n, k.pages, t) == Some(k.pages[k.p := pg]) && Trace(t) == e && Port([], t) == Some([]);
    StepTo(d, k, pg, st, pg');
    RunAppend(d, k.n, k.pages, t, [st]);
    TraceAppend(t, [st]);
    PortAppend([], t, [st]);
    PortOne([], st);
    assert EventOf(st) == [] ==> e + EventOf(st) == e;
  }

  /** A fault is raised and taken up at once. */
  lemma ExtendServed(d: Discipline, k: Cast, e: seq<Event>, pg: Page, c: nat, f: Paging.Fault, pg1: Page, pg': Page)
    requires ValidCast(k) && Reaches(d, k, pg, e) && c < k.n
    requires Goes(d, k, pg, Raise(c, f), pg1) && Goes(d, k, pg1, Begin(c), pg')
    requires pg.tx.Idle? && pg.clients[c].request.Quiet?
    ensures Reaches(d, k, pg', e)
  {
    GoesTo(d, k, pg, Raise(c, f), pg1);
    GoesTo(d, k, pg1, Begin(c), pg');
    assert pg1.tx.Idle?;
    var fault, serve := Fault(c, k.p, f), Serve(c, k.p);
    assert Allows(k, pg, fault) && Allows(k, pg1, serve);
    hide Next, Goes, WF, Allows;
    var t :| Run(d, k.n, k.pages, t) == Some(k.pages[k.p := pg]) && Trace(t) == e && Port([], t) == Some([]);
    StepTo(d, k, pg, fault, pg1);
    StepTo(d, k, pg1, serve, pg');
    RunAppend(d, k.n, k.pages, t, [fault]);
    RunAppend(d, k.n, k.pages, t + [fault], [serve]);
    TraceAppend(t, [fault]);
    TraceAppend(t + [fault], [serve]);
    CallServed(t, fault, serve);
    assert e + [] == e;
  }

  lemma CallServed(t: seq<Step>, fault: Step, serve: Step)
    requires Port([], t) == Some([]) && fault.Fault? && serve == Serve(fault.client, fault.page)
    ensures Port([], t + [fault] + [serve]) == Some([])
  {
    var call := [Call(fault.client, fault.page)];
    PortAppend([], t, [fault]);
    PortOne([], fault);
    PortAppend([], t + [fault], [serve]);
    PortOne(call, serve);
    PortServed(fault.client, fault.page);
    assert [] + call == call;
  }

  /** The step is one the rest of the system allows. */
  ghost predicate Allows(k: Cast, pg: Page, st: Step) {
    && |pg.clients| == k.n
    && (st.Serve? ==> pg.tx.Idle?)
    && (st.Comply? ==> forall c :: 0 <= c < k.n ==> pg.clients[c].late.None?)
    && (st.Fault? || st.Read? || st.Write? ==> st.client < k.n && pg.clients[st.client].request.Quiet?)
  }

  lemma StepTo(d: Discipline, k: Cast, pg: Page, st: Step, pg': Page)
    requires ValidCast(k) && WF(pg) && |pg.clients| == k.n && st.page == k.p && Allows(k, pg, st)
    requires Next(d, pg, ActionOf(st)) == Some(pg')
    ensures Run(d, k.n, k.pages[k.p := pg], [st]) == Some(k.pages[k.p := pg'])
    ensures Trace([st]) == EventOf(st)
  {
    assert WFC(k.n, k.pages[k.p := pg]);
    hide Next, WF;
    assert [st][0] == st && [st][1..] == [];
    assert Trace([st]) == EventOf(st) + Trace([]);
    assert k.pages[k.p := pg][k.p := pg'] == k.pages[k.p := pg'];
  }

  // ---------- the opening ----------

  function Opening(n: nat, mem: Memory, p: nat): Cast
    requires p < |mem|
  {
    Cast(n, Start(n, mem), p, mem[p])
  }

  function Absent(k: Cast): Page {
    Scene(k, INIT, None, [], Off(k), Off(k), Idle)
  }

  lemma OpeningIsStart(d: Discipline, n: nat, mem: Memory, p: nat)
    requires n >= 2 && p < |mem| && mem[p] != []
    ensures ValidCast(Opening(n, mem, p)) && Reaches(d, Opening(n, mem, p), Absent(Opening(n, mem, p)), [])
  {
    var k := Opening(n, mem, p);
    var none: seq<Step> := [];
    assert k.pages[p].clients == Absent(k).clients;
    assert k.pages[p := Absent(k)] == k.pages;
    assert Run(d, n, k.pages, none) == Some(k.pages) && Trace(none) == [];
  }

  /** A run that stores a new word and then loads the old one is no run of a flat memory. */
  lemma Conclude(d: Discipline, n: nat, mem: Memory, p: nat, pg: Page, c: nat, c': nat) returns (steps: seq<Step>)
    requires n >= 2 && p < |mem| && mem[p] != [] && ValidCast(Opening(n, mem, p))
    requires var k := Opening(n, mem, p);
             Reaches(d, k, pg, [StoreEvent(c, p, 0, NewWord(k))] + [LoadEvent(c', p, 0, k.words[0])])
    ensures Run(d, n, Start(n, mem), steps).Some? && InOrder(steps) && Replay(mem, Trace(steps)).None?
  {
    var k := Opening(n, mem, p);
    var trace := [StoreEvent(c, p, 0, NewWord(k))] + [LoadEvent(c', p, 0, k.words[0])];
    steps :| Run(d, n, k.pages, steps) == Some(k.pages[p := pg])
             && Trace(steps) == trace && Port([], steps) == Some([]);
    Hazards.StaleTrace(mem, p, c, c', NewWord(k), trace);
  }

  // ---------- a reply before the protection ----------

  /** Client 0 has the page to write. */
  function Lent(k: Cast): Page {
    Scene(k, WRITE, Some(0), [], Holds(k), Off(k), Idle)
  }

  lemma PageLent(d: Discipline, k: Cast)
    requires ValidCast(k) && Reaches(d, k, Absent(k), [])
    ensures Reaches(d, k, Lent(k), [])
  {
    hide Reaches;
    var pg1 := Scene(k, INIT, None, [], Off(k).(request := Waiting(WriteFault)), Off(k), Idle);
    var pg2 := Scene(k, WRITE, Some(0), [], Off(k).(request := Granted(WriteData(k.words))), Off(k), Idle);
    ExtendServed(d, k, [], Absent(k), 0, WriteFault, pg1, pg2);
    Extend(d, k, [], pg2, Settle(0, k.p), Lent(k));
  }

  function Wants(k: Cast): Client {
    Off(k).(request := Waiting(WriteFault))
  }

  /** Client 0 has replied to WRITE_DATA_REQUESTED, but has not yet given up its access. */
  function Lender(k: Cast): Client {
    Holds(k).(late := Some(PROT_NONE))
  }

  function Replied(k: Cast): Page {
    Scene(k, WRITE, Some(1), [], Lender(k), Wants(k), GotWrite(1, k.words))
  }

  lemma RepliedFirst(d: Discipline, k: Cast)
    requires ValidCast(k) && !d.protectAtOnce && Reaches(d, k, Lent(k), [])
    ensures Reaches(d, k, Replied(k), [])
  {
    hide Reaches;
    var pg1 := Scene(k, WRITE, Some(0), [], Holds(k), Wants(k), Idle);
    var pg2 := Scene(k, WRITE, Some(1), [], Holds(k), Wants(k), AskWrite(1, 0));
    ExtendServed(d, k, [], Lent(k), 1, WriteFault, pg1, pg2);
    Extend(d, k, [], pg2, Comply(k.p), Replied(k));
  }

  /** Client 0 stores once more, and client 1 becomes the writer of the page as it was before. */
  function Lost(k: Cast): Page
    requires k.words != []
  {
    Scene(k, WRITE, Some(1), [], Lender(k).(data := New(k)), Holds(k), Idle)
  }

  function Stored(k: Cast): Page
    requires k.words != []
  {
    Scene(k, WRITE, Some(1), [], Lender(k).(data := New(k)), Wants(k), GotWrite(1, k.words))
  }

  lemma LateStore(d: Discipline, k: Cast)
    requires ValidCast(k) && Reaches(d, k, Replied(k), [])
    ensures Reaches(d, k, Stored(k), [StoreEvent(0, k.p, 0, NewWord(k))])
  {
    hide Reaches;
    Extend(d, k, [], Replied(k), Write(0, k.p, 0, NewWord(k)), Stored(k));
    assert [] + [StoreEvent(0, k.p, 0, NewWord(k))] == [StoreEvent(0, k.p, 0, NewWord(k))];
  }

  lemma StoreLost(d: Discipline, k: Cast)
    requires ValidCast(k) && Reaches(d, k, Stored(k), [StoreEvent(0, k.p, 0, NewWord(k))])
    ensures Reaches(d, k, Lost(k), [StoreEvent(0, k.p, 0, NewWord(k))])
  {
    hide Reaches;
    var store := [StoreEvent(0, k.p, 0, NewWord(k))];
    var pg2 := Scene(k, WRITE, Some(1), [], Lender(k).(data := New(k)),
                     Off(k).(request := Granted(WriteData(k.words))), Idle);
    Extend(d, k, store, Stored(k), Resume(k.p), pg2);
    Extend(d, k, store, pg2, Settle(1, k.p), Lost(k));
  }

  /** Client 0 stores after its reply has left; client 1, now the writer, never sees that store. */
  lemma ProtectAtOnceIsNeeded(d: Discipline, n: nat, mem: Memory, p: nat) returns (steps: seq<Step>)
    requires !d.protectAtOnce && n >= 2 && p < |mem| && mem[p] != []
    ensures Run(d, n, Start(n, mem), steps).Some? && InOrder(steps) && Replay(mem, Trace(steps)).None?
  {
    hide Reaches;
    var k := Opening(n, mem, p);
    OpeningIsStart(d, n, mem, p);
    PageLent(d, k);
    RepliedFirst(d, k);
    LateStore(d, k);
    StoreLost(d, k);
    Extend(d, k, [StoreEvent(0, p, 0, NewWord(k))], Lost(k), Read(1, p, 0, k.words[0]), Lost(k));
    steps := Conclude(d, n, mem, p, Lost(k), 0, 1);
  }

  // ---------- a directive overtakes a grant ----------

  function Expects(k: Cast): Client {
    Off(k).(request := Granted(ReadData(k.words)))
  }

  /** Client 0 is sent a read grant. */
  function Shared(k: Cast): Page {
    Scene(k, READ, None, [0], Expects(k), Off(k), Idle)
  }

  lemma GrantSent(d: Discipline, k: Cast)
    requires ValidCast(k) && Reaches(d, k, Absent(k), [])
    ensures Reaches(d, k, Shared(k), [])
  {
    hide Reaches;
    var pg1 := Scene(k, INIT, None, [], Off(k).(request := Waiting(ReadFault)), Off(k), Idle);
    ExtendServed(d, k, [], Absent(k), 0, ReadFault, pg1, Shared(k));
  }

  /** Client 1's write fault makes the server send client 0 PAGE_INVALID. */
  function Invalidates(k: Cast): Page {
    Scene(k, WRITE, Some(1), [], Expects(k), Wants(k), AskInval(1, false, 0))
  }

  lemma InvalidSent(d: Discipline, k: Cast)
    requires ValidCast(k) && Reaches(d, k, Shared(k), [])
    ensures Reaches(d, k, Invalidates(k), [])
  {
    hide Reaches;
    var pg1 := Scene(k, READ, None, [0], Expects(k), Wants(k), Idle);
    var pg2 := Scene(k, WRITE, Some(1), [0], Expects(k), Wants(k), Drain(1, false));
    ExtendServed(d, k, [], Shared(k), 1, WriteFault, pg1, pg2);
    Extend(d, k, [], pg2, Resume(k.p), Invalidates(k));
  }

  /** Client 1 is the writer, and the grant of client 0 still on the way. */
  function Taken(d: Discipline, k: Cast): Page {
    Scene(k, WRITE, Some(1), [], Obeyed(d, Expects(k), PROT_NONE), Holds(k), Idle)
  }

  /** Client 0 has obeyed with its grant still on the way. */
  function Drained(d: Discipline, k: Cast): Page {
    Scene(k, WRITE, Some(1), [], Obeyed(d, Expects(k), PROT_NONE), Wants(k), Drain(1, false))
  }

  lemma GrantOvertaken(d: Discipline, k: Cast)
    requires ValidCast(k) && !d.installFirst && Reaches(d, k, Invalidates(k), [])
    ensures Reaches(d, k, Drained(d, k), [])
  {
    hide Reaches;
    Extend(d, k, [], Invalidates(k), Comply(k.p), Drained(d, k));
  }

  lemma ObeyedTooSoon(d: Discipline, k: Cast)
    requires ValidCast(k) && !d.installFirst && Reaches(d, k, Invalidates(k), [])
    ensures Reaches(d, k, Taken(d, k), [])
  {
    hide Reaches;
    var a := Obeyed(d, Expects(k), PROT_NONE);
    var pg1 := Drained(d, k);
    GrantOvertaken(d, k);
    var pg2 := Scene(k, WRITE, Some(1), [], a, Off(k).(request := Granted(WriteData(k.words))), Idle);
    Extend(d, k, [], pg1, Resume(k.p), pg2);
    Extend(d, k, [], pg2, Settle(1, k.p), Taken(d, k));
  }

  /** Client 1 stores, and only then does client 0 install its grant. */
  function Stale(d: Discipline, k: Cast): Page
    requires k.words != []
  {
    Scene(k, WRITE, Some(1), [],
          Obeyed(d, Expects(k), PROT_NONE).(prot := PROT_READ, data := k.words, request := Quiet),
          Holds(k).(data := New(k)), Idle)
  }

  lemma InstalledTooLate(d: Discipline, k: Cast)
    requires ValidCast(k) && Reaches(d, k, Taken(d, k), [])
    ensures Reaches(d, k, Stale(d, k), [StoreEvent(1, k.p, 0, NewWord(k))])
  {
    hide Reaches;
    var store := [StoreEvent(1, k.p, 0, NewWord(k))];
    var pg1 := Scene(k, WRITE, Some(1), [], Obeyed(d, Expects(k), PROT_NONE), Holds(k).(data := New(k)), Idle);
    Extend(d, k, [], Taken(d, k), Write(1, k.p, 0, NewWord(k)), pg1);
    assert [] + store == store;
    Extend(d, k, store, pg1, Settle(0, k.p), Stale(d, k));
  }

  /**
   Client 0 obeys PAGE_INVALID before installing the read grant already sent to it, installs it
   later and loads from it.
   */
  lemma InstallFirstIsNeeded(d: Discipline, n: nat, mem: Memory, p: nat) returns (steps: seq<Step>)
    requires !d.installFirst && n >= 2 && p < |mem| && mem[p] != []
    ensures Run(d, n, Start(n, mem), steps).Some? && InOrder(steps) && Replay(mem, Trace(steps)).None?
  {
    hide Reaches;
    var k := Opening(n, mem, p);
    OpeningIsStart(d, n, mem, p);
    GrantSent(d, k);
    InvalidSent(d, k);
    ObeyedTooSoon(d, k);
    InstalledTooLate(d, k);
    Extend(d, k, [StoreEvent(1, p, 0, NewWord(k))], Stale(d, k), Read(0, p, 0, k.words[0]), Stale(d, k));
    steps := Conclude(d, n, mem, p, Stale(d, k), 1, 0);
  }
}
