/** How a page's protocol gives a client the access it asked for, and leaves others alone. */
module Provision {
  import opened Paging
  import opened ServerlessPage
  import opened ServerlessSafety
  import opened Responders

  /** A client's protection allows an access of this kind. */
  predicate Suffices(prot: Protection, f: Paging.Fault) {
    if f.ReadFault? then prot != PROT_NONE else prot == PROT_ALL
  }

  /** Client c's fault is over and it can use the page; the owner's open frame does not count. */
  predicate Provided(pg: Page, c: nat, f: Paging.Fault) {
    && c < |pg.locals| && pg.locals[c].request.Quiet? && Suffices(pg.locals[c].prot, f)
    && !(pg.tx.Window? && c == pg.owner)
  }

  /** Client c's fault of this kind is outstanding. */
  predicate Underway(pg: Page, c: nat, f: Paging.Fault) {
    && c < |pg.locals|
    && match pg.locals[c].request
       case Quiet => false
       case Waiting(g) => g == f
       case Granted(g) => g.ReadData? <==> f.ReadFault?
  }

  /** A fault outstanding stays outstanding until the client has what it asked for. */
  lemma ActionProvides(pg: Page, mem: seq<int>, a: Action, c: nat, f: Paging.Fault)
    requires Coherent(pg, mem) && Next(ORDERLY, pg, a).Some? && Underway(pg, c, f)
    ensures Underway(Next(ORDERLY, pg, a).value, c, f) || Provided(Next(ORDERLY, pg, a).value, c, f)
  {
    var pg' := Next(ORDERLY, pg, a).value;
    assert LocalOk(pg, c, mem) && LocalOk(pg, pg.owner, mem);
    if a.Begin? || a.Advance? {
      HandlerFootprint(pg, mem, if a.Begin? then a.client else pg.tx.client, a);
    }
  }

  /** A client that raises no fault on a page and has none there goes on having none. */
  lemma ActionLeavesQuiet(pg: Page, mem: seq<int>, a: Action, c: nat)
    requires Coherent(pg, mem) && Next(ORDERLY, pg, a).Some? && c < |pg.locals| && pg.locals[c].request.Quiet?
    requires !(a.Raise? && a.client == c)
    ensures Next(ORDERLY, pg, a).value.locals[c].request.Quiet?
  {
    if a.Begin? || a.Advance? {
      HandlerFootprint(pg, mem, if a.Begin? then a.client else pg.tx.client, a);
    }
  }
}
