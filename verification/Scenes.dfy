/**
 Particular runs of the serverless system, one action of one page at a time: a
 page with an owner and two other clients in named parts, in a cluster whose
 other pages rest.
 */
module Scenes {
  import opened Base
  import opened FlatMemory
  import opened Paging
  import opened ServerlessPage
  import opened ServerlessCluster
  import opened ServerlessSchedule

  /** Page p of n clients, with its owner o and two others; for two clients b is a as well. */
  datatype Cast = Cast(n: nat, pages: seq<Page>, p: nat, o: nat, a: nat, b: nat, words: seq<int>)

  ghost predicate ValidCast(k: Cast) {
    && Pages(k.n, k.pages) && k.p < |k.pages|
    && k.o < k.n && k.a < k.n && k.b < k.n && k.a != k.o && k.b != k.o
    && forall q, c :: 0 <= q < |k.pages| && 0 <= c < k.n ==> k.pages[q].locals[c].request.Quiet?
  }

  /** A frame of somebody who never had the page. */
  function Off(k: Cast): Local {
    Local(PROT_NONE, NO_ACCESS, seq(|k.words|, i => 0), Quiet)
  }

  function Owns(k: Cast): Local {
    Local(PROT_ALL, WRITE, k.words, Quiet)
  }

  /** The contents after one store to the first word. */
  function NewWord(k: Cast): int
    requires k.words != []
  {
    k.words[0] + 1
  }

  function New(k: Cast): seq<int>
    requires k.words != []
  {
    k.words[0 := NewWord(k)]
  }

  function Scene(k: Cast, writer: Option<nat>, readers: seq<nat>, lo: Local, la: Local, lb: Local, tx: Tx): Page {
    Page(k.o, writer, readers,
         seq(k.n, c => if c == k.o then lo else if c == k.a then la else if c == k.b then lb else Off(k)), tx)
  }

  /** The cluster with the page at pg and at most one busy responder thread. */
  function At(k: Cast, pg: Page, held: Held): Cluster
    requires k.p < |k.pages|
  {
    Staged(k.n, k.pages[k.p := pg], held)
  }

  /** The step from pg to pg' by action act, checked field by field. */
  ghost predicate Goes(d: Discipline, k: Cast, pg: Page, act: Action, pg': Page) {
    && WF(pg) && |pg.locals| == k.n
    && Next(d, pg, act).Some?
    && var q := Next(d, pg, act).value;
       && q.owner == pg'.owner && q.writer == pg'.writer && q.readers == pg'.readers && q.tx == pg'.tx
       && |q.locals| == |pg'.locals|
       && forall c :: 0 <= c < |q.locals| ==>
                        && q.locals[c].prot == pg'.locals[c].prot && q.locals[c].state == pg'.locals[c].state
                        && q.locals[c].data == pg'.locals[c].data && q.locals[c].request == pg'.locals[c].request
  }

  lemma GoesTo(d: Discipline, k: Cast, pg: Page, act: Action, pg': Page)
    requires Goes(d, k, pg, act, pg')
    ensures Next(d, pg, act) == Some(pg') && WF(pg') && |pg'.locals| == k.n
  {
    assert Next(d, pg, act).value.locals == pg'.locals;
  }

  lemma RequestTo(d: Discipline, k: Cast, pg: Page, c: nat, f: Paging.Fault, pg': Page)
    requires ValidCast(k) && Goes(d, k, pg, Raise(c, f), pg')
    ensures Reaches(d, At(k, pg, None), At(k, pg', Holding(pg, k.p, c)), [])
  {
    GoesTo(d, k, pg, Raise(c, f), pg');
    var steps := RequestRule(d, k.n, k.pages[k.p := pg], k.p, c, f);
    assert k.pages[k.p := pg][k.p := pg'] == k.pages[k.p := pg'];
  }

  lemma HandlerTo(d: Discipline, k: Cast, pg: Page, c: nat, act: Action, pg': Page)
    requires ValidCast(k) && Goes(d, k, pg, act, pg') && c < k.n && Target(pg').None?
    requires act == Begin(c) || (act.Advance? && !pg.tx.Idle? && !pg.tx.Crashed? && pg.tx.client == c)
    ensures Reaches(d, At(k, pg, Holding(pg, k.p, c)),
                    At(k, pg', if pg'.tx.Idle? then None else Holding(pg, k.p, c)), [])
  {
    GoesTo(d, k, pg, act, pg');
    HandlerRule(d, k.n, k.pages[k.p := pg], k.p, c, act);
    assert k.pages[k.p := pg][k.p := pg'] == k.pages[k.p := pg'];
  }

  lemma DirectiveTo(d: Discipline, k: Cast, pg: Page, c: nat, act: Action, pg1: Page, pg': Page)
    requires ValidCast(k) && Goes(d, k, pg, act, pg1) && c < k.n && Target(pg1).Some? && Goes(d, k, pg1, Handle, pg')
    requires act == Begin(c) || (act.Advance? && !pg.tx.Idle? && !pg.tx.Crashed? && pg.tx.client == c)
    ensures Reaches(d, At(k, pg, Holding(pg, k.p, c)), At(k, pg', Holding(pg, k.p, c)), [])
  {
    GoesTo(d, k, pg, act, pg1);
    GoesTo(d, k, pg1, Handle, pg');
    var steps := DirectiveRule(d, k.n, k.pages[k.p := pg], k.p, c, act);
    assert k.pages[k.p := pg][k.p := pg'] == k.pages[k.p := pg'];
  }

  lemma InstallTo(d: Discipline, k: Cast, pg: Page, held: Held, c: nat, pg': Page)
    requires ValidCast(k) && Goes(d, k, pg, Install(c), pg')
    ensures Reaches(d, At(k, pg, held), At(k, pg', held), [])
  {
    GoesTo(d, k, pg, Install(c), pg');
    TouchRule(d, k.n, k.pages[k.p := pg], held, k.p, Settle(c, k.p));
    assert k.pages[k.p := pg][k.p := pg'] == k.pages[k.p := pg'];
  }

  lemma LoadTo(d: Discipline, k: Cast, pg: Page, held: Held, c: nat, v: int)
    requires ValidCast(k) && WF(pg) && |pg.locals| == k.n && Next(d, pg, Load(c, 0, v)).Some?
    ensures Reaches(d, At(k, pg, held), At(k, pg, held), [LoadEvent(c, k.p, 0, v)])
  {
    TouchRule(d, k.n, k.pages[k.p := pg], held, k.p, Read(c, k.p, 0, v));
    assert k.pages[k.p := pg][k.p := pg] == k.pages[k.p := pg];
  }

  lemma StoreTo(d: Discipline, k: Cast, pg: Page, held: Held, c: nat, v: int, pg': Page)
    requires ValidCast(k) && Goes(d, k, pg, Store(c, 0, v), pg')
    ensures Reaches(d, At(k, pg, held), At(k, pg', held), [StoreEvent(c, k.p, 0, v)])
  {
    GoesTo(d, k, pg, Store(c, 0, v), pg');
    TouchRule(d, k.n, k.pages[k.p := pg], held, k.p, Write(c, k.p, 0, v));
    assert k.pages[k.p := pg][k.p := pg'] == k.pages[k.p := pg'];
  }

  // ---------- the opening ----------

  /** The cast of page p at the start: b is a third client if there is one. */
  function Opening(n: nat, mem: Memory, p: nat): Cast
    requires n >= 2 && p < |mem|
  {
    var o := Hash(p, n);
    var a := if o == 0 then 1 else 0;
    Cast(n, Start(n, mem).pages, p, o, a, if n == 2 then a else if o <= 1 then 2 else 1, mem[p])
  }

  function Fresh0(k: Cast): Page {
    Scene(k, None, [], Owns(k), Off(k), Off(k), Idle)
  }

  lemma OpeningIsStart(n: nat, mem: Memory, p: nat)
    requires n >= 2 && p < |mem|
    ensures var k := Opening(n, mem, p);
            && ValidCast(k) && (n >= 3 ==> k.a != k.b)
            && Start(n, mem) == At(k, Fresh0(k), None)
  {
    var k := Opening(n, mem, p);
    var pages := Start(n, mem).pages;
    StartIsStaged(n, mem);
    FreshIsScene(k);
    assert pages[p] == Fresh(n, k.o, k.words);
    assert pages[p := Fresh0(k)] == pages;
    hide Fresh, Scene;
  }

  lemma FreshIsScene(k: Cast)
    requires k.o < k.n && k.a != k.o && k.b != k.o
    ensures Fresh(k.n, k.o, k.words) == Fresh0(k)
  {
    assert Fresh(k.n, k.o, k.words).locals == Fresh0(k).locals;
  }

  /** Client a is sent the page to write. */
  function Sent(k: Cast): Page {
    Scene(k, Some(k.a), [], Owns(k).(state := NO_ACCESS, prot := PROT_NONE),
          Off(k).(request := Granted(WriteData(k.words))), Off(k), Idle)
  }

  /** Client a has the page to write. */
  function Lent(k: Cast): Page {
    Scene(k, Some(k.a), [], Owns(k).(state := NO_ACCESS, prot := PROT_NONE), Owns(k), Off(k), Idle)
  }

  lemma PageSent(d: Discipline, k: Cast)
    requires ValidCast(k)
    ensures Reaches(d, At(k, Fresh0(k), None), At(k, Sent(k), None), [])
  {
    hide Reaches;
    var pg0 := Fresh0(k);
    var pg1 := Scene(k, None, [], Owns(k), Off(k).(request := Waiting(WriteFault)), Off(k), Idle);
    RequestTo(d, k, pg0, k.a, WriteFault, pg1);
    HandlerTo(d, k, pg1, k.a, Begin(k.a), Sent(k));
    Chain(d, At(k, pg0, None), At(k, pg1, Holding(pg0, k.p, k.a)), [], At(k, Sent(k), None), []);
  }

  lemma PageLent(d: Discipline, k: Cast)
    requires ValidCast(k)
    ensures Reaches(d, At(k, Fresh0(k), None), At(k, Lent(k), None), [])
  {
    hide Reaches;
    PageSent(d, k);
    InstallTo(d, k, Sent(k), None, k.a, Lent(k));
    Chain(d, At(k, Fresh0(k), None), At(k, Sent(k), None), [], At(k, Lent(k), None), []);
  }
}
