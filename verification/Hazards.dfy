/**
 What goes wrong in the serverless system without a scheduling assumption: on any
 page with a word in it, runs that load a stale word.
 */
module Hazards {
  import opened Base
  import opened FlatMemory
  import opened Paging
  import opened ServerlessPage
  import opened ServerlessCluster
  import opened ServerlessSchedule
  import opened Scenes

  /** A store of a new word followed by a load of the old one is no trace of a flat memory. */
  lemma StaleTrace(mem: Memory, p: nat, c: nat, c': nat, v: int, trace: seq<Event>)
    requires p < |mem| && mem[p] != [] && v != mem[p][0]
    requires trace == [StoreEvent(c, p, 0, v)] + [LoadEvent(c', p, 0, mem[p][0])]
    ensures Replay(mem, trace).None?
  {
    var stored := Access(mem, trace[0]).value;
    assert stored[p][0] == v;
    assert Access(stored, trace[1..][0]).None?;
  }

  lemma Conclude(d: Discipline, n: nat, mem: Memory, p: nat, pg: Page, held: Held, c: nat, c': nat)
    returns (steps: seq<Step>)
    requires n >= 2 && p < |mem| && mem[p] != []
    requires var k := Opening(n, mem, p);
             && WFC(At(k, Fresh0(k), None))
             && Reaches(d, At(k, Fresh0(k), None), At(k, pg, held), [StoreEvent(c, p, 0, NewWord(k))])
             && Reaches(d, At(k, pg, held), At(k, pg, held), [LoadEvent(c', p, 0, k.words[0])])
    ensures Run(d, Start(n, mem), steps).Some? && Replay(mem, Trace(steps)).None?
  {
    var k := Opening(n, mem, p);
    OpeningIsStart(n, mem, p);
    var store, load := [StoreEvent(c, p, 0, NewWord(k))], [LoadEvent(c', p, 0, k.words[0])];
    Chain(d, Start(n, mem), At(k, pg, held), store, At(k, pg, held), load);
    steps :| Leads(d, Start(n, mem), steps, At(k, pg, held), store + load);
    StaleTrace(mem, p, c, c', NewWord(k), store + load);
  }

  // ---------- a directive overtakes a grant ----------

  function Upgrades(k: Cast): Local {
    Local(PROT_READ, READ, k.words, Waiting(WriteFault))
  }

  function Expects(k: Cast): Local {
    Off(k).(request := Granted(ReadData(k.words)))
  }

  /** Client a is sent a read grant. */
  function Shared(k: Cast): Page {
    Scene(k, None, [k.a], Upgrades(k).(request := Quiet), Expects(k), Off(k), Idle)
  }

  lemma GrantSent(d: Discipline, k: Cast)
    requires ValidCast(k)
    ensures Reaches(d, At(k, Fresh0(k), None), At(k, Shared(k), None), [])
  {
    hide Reaches;
    var pg1 := Scene(k, None, [], Owns(k), Off(k).(request := Waiting(ReadFault)), Off(k), Idle);
    RequestTo(d, k, Fresh0(k), k.a, ReadFault, pg1);
    HandlerTo(d, k, pg1, k.a, Begin(k.a), Shared(k));
    Chain(d, At(k, Fresh0(k), None), At(k, pg1, Holding(Fresh0(k), k.p, k.a)), [], At(k, Shared(k), None), []);
  }

  /** The owner's own write fault reaches the drain loop. */
  function Drains(k: Cast): Page {
    Scene(k, None, [k.a], Upgrades(k), Expects(k), Off(k), Drain(k.o, false))
  }

  lemma OwnerDrains(d: Discipline, k: Cast)
    requires ValidCast(k)
    ensures Reaches(d, At(k, Shared(k), None), At(k, Drains(k), None), [])
  {
    hide Reaches;
    var pg1 := Drains(k).(tx := Idle);
    RequestTo(d, k, Shared(k), k.o, WriteFault, pg1);
    HandlerTo(d, k, pg1, k.o, Begin(k.o), Drains(k));
    Chain(d, At(k, Shared(k), None), At(k, pg1, None), [], At(k, Drains(k), None), []);
  }

  function Drained(k: Cast): Page {
    Scene(k, None, [], Upgrades(k), Expects(k), Off(k), Drain(k.o, false))
  }

  /** Client a obeys PAGE_INVALID with its grant still on the way. */
  lemma ObeyedTooSoon(d: Discipline, k: Cast)
    requires ValidCast(k) && !d.installFirst
    ensures Reaches(d, At(k, Drains(k), None), At(k, Drained(k), None), [])
  {
    DirectiveTo(d, k, Drains(k), k.o, Advance, Drained(k).(tx := AskInval(k.o, false, k.a)), Drained(k));
  }

  function Cleared(k: Cast): Page {
    Scene(k, Some(k.o), [], Owns(k), Expects(k), Off(k), Idle)
  }

  lemma OwnerWrites(d: Discipline, k: Cast)
    requires ValidCast(k) && k.words != []
    ensures Reaches(d, At(k, Drained(k), None), At(k, Written(k), None), [StoreEvent(k.o, k.p, 0, NewWord(k))])
  {
    hide Reaches;
    HandlerTo(d, k, Drained(k), k.o, Advance, Cleared(k));
    StoreTo(d, k, Cleared(k), None, k.o, NewWord(k), Written(k));
    Chain(d, At(k, Drained(k), None), At(k, Cleared(k), None), [], At(k, Written(k), None),
          [StoreEvent(k.o, k.p, 0, NewWord(k))]);
  }

  function Written(k: Cast): Page
    requires k.words != []
  {
    Scene(k, Some(k.o), [], Owns(k).(data := New(k)), Expects(k), Off(k), Idle)
  }

  /** Only now does client a install its grant. */
  function Stale(k: Cast): Page
    requires k.words != []
  {
    Scene(k, Some(k.o), [], Owns(k).(data := New(k)), Off(k).(prot := PROT_READ, data := k.words), Off(k), Idle)
  }

  lemma GrantOvertaken(d: Discipline, k: Cast)
    requires ValidCast(k) && k.words != [] && !d.installFirst
    ensures Reaches(d, At(k, Fresh0(k), None), At(k, Stale(k), None), [StoreEvent(k.o, k.p, 0, NewWord(k))])
  {
    hide Reaches;
    var s0, store := At(k, Fresh0(k), None), [StoreEvent(k.o, k.p, 0, NewWord(k))];
    GrantSent(d, k);
    OwnerDrains(d, k);
    Chain(d, s0, At(k, Shared(k), None), [], At(k, Drains(k), None), []);
    ObeyedTooSoon(d, k);
    Chain(d, s0, At(k, Drains(k), None), [], At(k, Drained(k), None), []);
    OwnerWrites(d, k);
    Chain(d, s0, At(k, Drained(k), None), [], At(k, Written(k), None), store);
    InstallTo(d, k, Written(k), None, k.a, Stale(k));
    Chain(d, s0, At(k, Written(k), None), store, At(k, Stale(k), None), []);
  }

  /**
   Two clients are enough: one obeys PAGE_INVALID before installing the read grant
   already sent to it, then installs the stale page and loads from it.
   */
  lemma InstallFirstIsNeeded(d: Discipline, n: nat, mem: Memory, p: nat) returns (steps: seq<Step>)
    requires !d.installFirst && n >= 2 && p < |mem| && mem[p] != []
    ensures Run(d, Start(n, mem), steps).Some? && Replay(mem, Trace(steps)).None?
  {
    var k := Opening(n, mem, p);
    OpeningIsStart(n, mem, p);
    GrantOvertaken(d, k);
    LoadTo(d, k, Stale(k), None, k.a, k.words[0]);
    steps := Conclude(d, n, mem, p, Stale(k), None, k.o, k.a);
  }

  // ---------- the owner looks through its open frame ----------

  function Asks(k: Cast): Local {
    Off(k).(request := Waiting(ReadFault))
  }

  function Lost(k: Cast): Local {
    Owns(k).(state := NO_ACCESS, prot := PROT_NONE)
  }

  /** Client a has stored; client b's read fault is in service and the page fetched for it. */
  function Fetched(k: Cast): Page
    requires k.words != []
  {
    Scene(k, Some(k.a), [], Lost(k), Local(PROT_READ, READ, New(k), Quiet), Asks(k), GotRead(k.b, New(k)))
  }

  function Held0(k: Cast): Held {
    Some((k.o, FaultMsg(k.p, k.b)))
  }

  function LentAndStored(k: Cast): Page
    requires k.words != []
  {
    Scene(k, Some(k.a), [], Lost(k), Owns(k).(data := New(k)), Off(k), Idle)
  }

  function Asked(k: Cast): Page
    requires k.words != []
  {
    Scene(k, Some(k.a), [], Lost(k), Owns(k).(data := New(k)), Asks(k), Idle)
  }

  lemma WriterObeys(d: Discipline, k: Cast)
    requires ValidCast(k) && k.words != [] && k.a != k.b
    ensures Reaches(d, At(k, Asked(k), Held0(k)), At(k, Fetched(k), Held0(k)), [])
  {
    DirectiveTo(d, k, Asked(k), k.b, Begin(k.b), Asked(k).(tx := AskRead(k.b)), Fetched(k));
  }

  /** Client b's read fault reaches the owner, whose directive client a obeys. */
  lemma PageFetched(d: Discipline, k: Cast)
    requires ValidCast(k) && k.words != [] && k.a != k.b
    ensures Reaches(d, At(k, LentAndStored(k), None), At(k, Fetched(k), Held0(k)), [])
  {
    hide Reaches;
    RequestTo(d, k, LentAndStored(k), k.b, ReadFault, Asked(k));
    WriterObeys(d, k);
    Chain(d, At(k, LentAndStored(k), None), At(k, Asked(k), Held0(k)), [], At(k, Fetched(k), Held0(k)), []);
  }

  /** The owner's frame is open for the copy, still with the old word. */
  function Opened(k: Cast): Page
    requires k.words != []
  {
    Scene(k, None, [k.a], Local(PROT_ALL, READ, k.words, Quiet), Local(PROT_READ, READ, New(k), Quiet), Asks(k),
          Window(k.b, New(k)))
  }

  lemma WindowOpens(d: Discipline, k: Cast)
    requires ValidCast(k) && k.words != [] && k.a != k.b
    ensures Reaches(d, At(k, Fresh0(k), None), At(k, Opened(k), Held0(k)), [StoreEvent(k.a, k.p, 0, NewWord(k))])
  {
    hide Reaches;
    var s0, store := At(k, Fresh0(k), None), [StoreEvent(k.a, k.p, 0, NewWord(k))];
    PageLent(d, k);
    StoreTo(d, k, Lent(k), None, k.a, NewWord(k), LentAndStored(k));
    Chain(d, s0, At(k, Lent(k), None), [], At(k, LentAndStored(k), None), store);
    PageFetched(d, k);
    Chain(d, s0, At(k, LentAndStored(k), None), store, At(k, Fetched(k), Held0(k)), []);
    HandlerTo(d, k, Fetched(k), k.b, Advance, Opened(k));
    Chain(d, s0, At(k, Fetched(k), Held0(k)), store, At(k, Opened(k), Held0(k)), []);
  }

  /**
   Three clients are enough: while the owner serves a remote read fault on a page
   another client wrote, its own frame is open for the copy, and its
   application loads the old word from it.
   */
  lemma QuietWindowIsNeeded(d: Discipline, n: nat, mem: Memory, p: nat) returns (steps: seq<Step>)
    requires !d.windowQuiet && n >= 3 && p < |mem| && mem[p] != []
    ensures Run(d, Start(n, mem), steps).Some? && Replay(mem, Trace(steps)).None?
  {
    var k := Opening(n, mem, p);
    OpeningIsStart(n, mem, p);
    WindowOpens(d, k);
    LoadTo(d, k, Opened(k), Held0(k), k.o, k.words[0]);
    steps := Conclude(d, n, mem, p, Opened(k), Held0(k), k.a, k.o);
  }
}
