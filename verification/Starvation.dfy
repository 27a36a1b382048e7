/**
 How often a waiting fault can be overtaken in the serverless system.  The owner's
 page lock favours nobody, so with three clients two of them can take a page
 from each other while the third waits, again and again; with two clients
 the other one runs out of faults to raise.
 */
module Starvation {
  import opened Base
  import opened FlatMemory
  import opened Paging
  import opened ServerlessPage
  import opened ServerlessSafety
  import opened ServerlessCluster
  import opened ServerlessSchedule
  import opened Responders
  import opened Scenes

  predicate IsWaiting(s: Cluster, c: nat, p: nat) {
    p < |s.pages| && c < |s.pages[p].locals| && s.pages[p].locals[c].request.Waiting?
  }

  /** One and the same fault of client c on page p waits in every state of the run. */
  ghost predicate WaitsThroughout(s: Cluster, steps: seq<Step>, c: nat, p: nat)
    requires WFC(s)
    decreases |steps|
  {
    && IsWaiting(s, c, p)
    && (steps != [] ==>
          Perform(ORDERLY, s, steps[0]).Some? && WaitsThroughout(Perform(ORDERLY, s, steps[0]).value, steps[1..], c, p))
  }

  /** Some run of n clients leads to a state after which client c's fault on page p waits while k more are raised. */
  ghost predicate Overtaken(n: nat, mem: Memory, c: nat, p: nat, k: nat)
    requires n > 0
  {
    exists before, after ::
      && Run(ORDERLY, Start(n, mem), before).Some?
      && WaitsThroughout(Run(ORDERLY, Start(n, mem), before).value, after, c, p)
      && FaultsRaised(after) >= k
  }

  // ---------- two clients ----------

  /** Faults a client can still raise before it can do all it wants with a page nobody takes from it. */
  function Need(l: Local): nat {
    match l.request
    case Quiet => (match l.prot case PROT_NONE => 2 case PROT_READ => 1 case PROT_ALL => 0)
    case Waiting(ReadFault) => 1
    case Waiting(WriteFault) => 0
    case Granted(ReadData(_)) => 1
    case Granted(_) => 0
  }

  /**
   The faults client b can still raise on a page while client c's fault waits,
   here or elsewhere.  Once c's fault is in service here, one more of b's must
   wait for it.
   */
  function Allowance(pg: Page, b: nat, c: nat, here: bool): nat
    requires b < |pg.locals|
  {
    if here && !pg.tx.Idle? && !pg.tx.Crashed? && pg.tx.client == c then
      if pg.locals[b].request.Waiting? then 0 else 1
    else
      Need(pg.locals[b]) + if here then 1 else 0
  }

  /** Client c's fault waits on this page, before and after, or it has none here; any new fault is b's. */
  ghost predicate Overtaking(pg: Page, mem: seq<int>, a: Action, b: nat, c: nat, here: bool) {
    && Coherent(pg, mem) && Next(ORDERLY, pg, a).Some?
    && |pg.locals| == 2 && b < 2 && c < 2 && b != c
    && (if here then pg.locals[c].request.Waiting? && Next(ORDERLY, pg, a).value.locals[c].request.Waiting?
        else pg.locals[c].request.Quiet?)
    && (a.Raise? ==> a.client == b)
  }

  /** While c's fault waits the other client's faults use up its allowance, and nothing renews it. */
  lemma ActionSpendsAllowance(pg: Page, mem: seq<int>, a: Action, b: nat, c: nat, here: bool)
    requires Overtaking(pg, mem, a, b, c, here)
    ensures Allowance(Next(ORDERLY, pg, a).value, b, c, here) + (if a.Raise? then 1 else 0) <= Allowance(pg, b, c, here)
  {
    match a
    case Begin(_) => BeginSpendsNothing(pg, mem, a, b, c, here);
    case Advance => AdvanceSpendsNothing(pg, mem, a, b, c, here);
    case Handle => ObeyingSpendsNothing(pg, mem, a, b, c, here);
    case _ => assert LocalOk(pg, b, mem) && LocalOk(pg, c, mem);
  }

  lemma BeginSpendsNothing(pg: Page, mem: seq<int>, a: Action, b: nat, c: nat, here: bool)
    requires Overtaking(pg, mem, a, b, c, here) && a.Begin?
    ensures Allowance(Next(ORDERLY, pg, a).value, b, c, here) <= Allowance(pg, b, c, here)
  {
    assert LocalOk(pg, b, mem) && LocalOk(pg, c, mem);
  }

  lemma AdvanceSpendsNothing(pg: Page, mem: seq<int>, a: Action, b: nat, c: nat, here: bool)
    requires Overtaking(pg, mem, a, b, c, here) && a.Advance?
    ensures Allowance(Next(ORDERLY, pg, a).value, b, c, here) <= Allowance(pg, b, c, here)
  {
    if pg.tx.Drain? {
      DrainSpendsNothing(pg, mem, a, b, c, here);
    } else {
      FetchSpendsNothing(pg, mem, a, b, c, here);
    }
  }

  lemma DrainSpendsNothing(pg: Page, mem: seq<int>, a: Action, b: nat, c: nat, here: bool)
    requires Overtaking(pg, mem, a, b, c, here) && a.Advance? && pg.tx.Drain?
    ensures Allowance(Next(ORDERLY, pg, a).value, b, c, here) <= Allowance(pg, b, c, here)
  {
    assert LocalOk(pg, b, mem) && LocalOk(pg, c, mem);
  }

  lemma FetchSpendsNothing(pg: Page, mem: seq<int>, a: Action, b: nat, c: nat, here: bool)
    requires Overtaking(pg, mem, a, b, c, here) && a.Advance? && !pg.tx.Drain?
    ensures Allowance(Next(ORDERLY, pg, a).value, b, c, here) <= Allowance(pg, b, c, here)
  {
    assert LocalOk(pg, b, mem) && LocalOk(pg, c, mem);
  }

  lemma ObeyingSpendsNothing(pg: Page, mem: seq<int>, a: Action, b: nat, c: nat, here: bool)
    requires Overtaking(pg, mem, a, b, c, here) && a.Handle?
    ensures Allowance(Next(ORDERLY, pg, a).value, b, c, here) <= Allowance(pg, b, c, here)
  {
    assert LocalOk(pg, b, mem) && LocalOk(pg, c, mem);
  }

  function Allowances(pages: seq<Page>, b: nat, c: nat, p: nat): seq<int> {
    seq(|pages|, q requires 0 <= q < |pages| =>
      if b < |pages[q].locals| then Allowance(pages[q], b, c, q == p) else 0)
  }

  lemma AllowancesUpdate(pages: seq<Page>, q: nat, pg': Page, b: nat, c: nat, p: nat)
    requires q < |pages| && b < |pages[q].locals| == |pg'.locals|
    ensures Sum(Allowances(pages[q := pg'], b, c, p)) ==
            Sum(Allowances(pages, b, c, p)) - Allowance(pages[q], b, c, q == p) + Allowance(pg', b, c, q == p)
  {
    assert Allowances(pages[q := pg'], b, c, p) == Allowances(pages, b, c, p)[q := Allowance(pg', b, c, q == p)];
    SumUpdate(Allowances(pages, b, c, p), q, Allowance(pg', b, c, q == p));
  }

  /** A client that waits on page p has no fault elsewhere, and raises none. */
  lemma OnlyHere(s: Cluster, mem: Memory, st: Step, c: nat, p: nat, q: nat)
    requires Orderly(s, mem) && Perform(ORDERLY, s, st).Some? && IsWaiting(s, c, p) && c < |s.ports| && q < |s.pages|
    ensures q != p ==> s.pages[q].locals[c].request.Quiet?
    ensures !(st.Fault? && st.client == c)
  {
    assert Outstanding(s, c, p) && (Outstanding(s, c, q) ==> q == p);
  }

  lemma StepIsOvertaking(s: Cluster, mem: Memory, st: Step, b: nat, c: nat, p: nat)
    requires Orderly(s, mem) && Perform(ORDERLY, s, st).Some? && !st.Receive?
    requires |s.ports| == 2 && b < 2 && c < 2 && b != c
    requires IsWaiting(s, c, p) && IsWaiting(Perform(ORDERLY, s, st).value, c, p)
    ensures var (q, a) := PageStep(st).value;
            && q < |s.pages| && q < |mem| && Overtaking(s.pages[q], mem[q], a, b, c, q == p)
            && Perform(ORDERLY, s, st).value.pages == s.pages[q := Next(ORDERLY, s.pages[q], a).value]
            && (st.Fault? <==> a.Raise?)
  {
    var (q, a) := PageStep(st).value;
    OnlyHere(s, mem, st, c, p, q);
    assert Coherent(s.pages[q], mem[q]);
    hide Next, Orderly;
  }

  lemma StepSpendsAllowance(s: Cluster, mem: Memory, st: Step, b: nat, c: nat, p: nat)
    requires Orderly(s, mem) && Perform(ORDERLY, s, st).Some?
    requires |s.ports| == 2 && b < 2 && c < 2 && b != c
    requires IsWaiting(s, c, p) && IsWaiting(Perform(ORDERLY, s, st).value, c, p)
    ensures Sum(Allowances(Perform(ORDERLY, s, st).value.pages, b, c, p)) + (if st.Fault? then 1 else 0)
            <= Sum(Allowances(s.pages, b, c, p))
  {
    assert WFC(s);
    hide Next, Allowance, Orderly;
    var s' := Perform(ORDERLY, s, st).value;
    if st.Receive? {
      assert Allowances(s'.pages, b, c, p) == Allowances(s.pages, b, c, p);
    } else {
      var (q, a) := PageStep(st).value;
      StepIsOvertaking(s, mem, st, b, c, p);
      hide Perform;
      ActionSpendsAllowance(s.pages[q], mem[q], a, b, c, q == p);
      AllowancesUpdate(s.pages, q, Next(ORDERLY, s.pages[q], a).value, b, c, p);
    }
  }

  lemma {:induction false} RunSpendsAllowance(s: Cluster, mem: Memory, steps: seq<Step>, b: nat, c: nat, p: nat)
    requires Orderly(s, mem) && WaitsThroughout(s, steps, c, p)
    requires |s.ports| == 2 && b < 2 && c < 2 && b != c
    ensures FaultsRaised(steps) <= Sum(Allowances(s.pages, b, c, p))
    decreases |steps|
  {
    if steps == [] {
      SumNonNegative(Allowances(s.pages, b, c, p));
    } else {
      var st := steps[0];
      StepSpendsAllowance(s, mem, st, b, c, p);
      PerformKeepsOrderly(s, mem, st);
      RunSpendsAllowance(Perform(ORDERLY, s, st).value, Replay(mem, EventOf(st)).value, steps[1..], b, c, p);
    }
  }

  /** A sum of terms at most two, and one at most three. */
  lemma {:induction false} SumOfTwos(s: seq<int>, p: int)
    requires forall i :: 0 <= i < |s| ==> s[i] <= if i == p then 3 else 2
    ensures Sum(s) <= 2 * |s| + if 0 <= p < |s| then 1 else 0
  {
    if s == [] {
    } else {
      SumOfTwos(s[1..], p - 1);
    }
  }

  /** A client alone has nobody to overtake it; of two, the other raises at most two faults a page and one more. */
  lemma FewOvertake(s: Cluster, mem: Memory, steps: seq<Step>, c: nat, p: nat)
    requires Orderly(s, mem) && WaitsThroughout(s, steps, c, p) && |s.ports| <= 2
    ensures FaultsRaised(steps) <= 2 * |mem| + 1
  {
    if |s.ports| == 2 {
      var b := 1 - c;
      RunSpendsAllowance(s, mem, steps, b, c, p);
      SumOfTwos(Allowances(s.pages, b, c, p), p);
    } else {
      AloneRaisesNothing(s, mem, steps, c, p);
    }
  }

  lemma {:induction false} AloneRaisesNothing(s: Cluster, mem: Memory, steps: seq<Step>, c: nat, p: nat)
    requires ClusterCoherent(s, mem) && WaitsThroughout(s, steps, c, p) && |s.ports| == 1
    ensures FaultsRaised(steps) == 0
    decreases |steps|
  {
    if steps == [] {
    } else {
      PerformRefines(s, mem, steps[0]);
      AloneRaisesNothing(Perform(ORDERLY, s, steps[0]).value, Replay(mem, EventOf(steps[0])).value, steps[1..], c, p);
    }
  }

  // ---------- runs told by their faults ----------

  /** The clients that raise a run's faults, in order. */
  function Faulters(steps: seq<Step>): (r: seq<nat>)
    ensures |r| == FaultsRaised(steps)
  {
    if steps == [] then [] else (if steps[0].Fault? then [steps[0].client] else []) + Faulters(steps[1..])
  }

  lemma {:induction false} FaultersAppend(t: seq<Step>, u: seq<Step>)
    ensures Faulters(t + u) == Faulters(t) + Faulters(u)
  {
    if t == [] {
      assert t + u == u;
    } else {
      assert (t + u)[0] == t[0] && (t + u)[1..] == t[1..] + u;
      FaultersAppend(t[1..], u);
    }
  }

  /** Some run without an access leads from s to s', its faults raised by these clients. */
  ghost predicate Turns(s: Cluster, s': Cluster, who: seq<nat>) {
    exists steps :: Leads(ORDERLY, s, steps, s', []) && Faulters(steps) == who
  }

  lemma Then(s: Cluster, s': Cluster, who: seq<nat>, s'': Cluster, who': seq<nat>)
    requires Turns(s, s', who) && Turns(s', s'', who')
    ensures Turns(s, s'', who + who')
  {
    var t :| Leads(ORDERLY, s, t, s', []) && Faulters(t) == who;
    var u :| Leads(ORDERLY, s', u, s'', []) && Faulters(u) == who';
    Compose(ORDERLY, s, t, s', [], u, s'', []);
    FaultersAppend(t, u);
  }

  lemma RequestTurn(k: Cast, pg: Page, c: nat, f: Paging.Fault, pg': Page)
    requires ValidCast(k) && Goes(ORDERLY, k, pg, Raise(c, f), pg')
    ensures Turns(At(k, pg, None), At(k, pg', Holding(pg, k.p, c)), [c])
  {
    GoesTo(ORDERLY, k, pg, Raise(c, f), pg');
    var steps := RequestRule(ORDERLY, k.n, k.pages[k.p := pg], k.p, c, f);
    assert k.pages[k.p := pg][k.p := pg'] == k.pages[k.p := pg'];
    assert Faulters(steps) == [c] + Faulters(steps[1..]);
  }

  lemma HandlerTurn(k: Cast, pg: Page, c: nat, act: Action, pg': Page)
    requires ValidCast(k) && Goes(ORDERLY, k, pg, act, pg') && c < k.n && Target(pg').None?
    requires act == Begin(c) || (act.Advance? && !pg.tx.Idle? && !pg.tx.Crashed? && pg.tx.client == c)
    ensures Turns(At(k, pg, Holding(pg, k.p, c)), At(k, pg', if pg'.tx.Idle? then None else Holding(pg, k.p, c)), [])
  {
    GoesTo(ORDERLY, k, pg, act, pg');
    HandlerRule(ORDERLY, k.n, k.pages[k.p := pg], k.p, c, act);
    assert k.pages[k.p := pg][k.p := pg'] == k.pages[k.p := pg'];
    assert Faulters([HandlerStep(k.p, c, act)]) == [];
  }

  lemma DirectiveTurn(k: Cast, pg: Page, c: nat, act: Action, pg1: Page, pg': Page)
    requires ValidCast(k) && Goes(ORDERLY, k, pg, act, pg1) && c < k.n && Target(pg1).Some?
    requires Goes(ORDERLY, k, pg1, Handle, pg')
    requires act == Begin(c) || (act.Advance? && !pg.tx.Idle? && !pg.tx.Crashed? && pg.tx.client == c)
    ensures Turns(At(k, pg, Holding(pg, k.p, c)), At(k, pg', Holding(pg, k.p, c)), [])
  {
    GoesTo(ORDERLY, k, pg, act, pg1);
    GoesTo(ORDERLY, k, pg1, Handle, pg');
    var steps := DirectiveRule(ORDERLY, k.n, k.pages[k.p := pg], k.p, c, act);
    assert k.pages[k.p := pg][k.p := pg'] == k.pages[k.p := pg'];
    assert Faulters(steps) == [];
  }

  lemma InstallTurn(k: Cast, pg: Page, c: nat, pg': Page)
    requires ValidCast(k) && Goes(ORDERLY, k, pg, Install(c), pg')
    ensures Turns(At(k, pg, None), At(k, pg', None), [])
  {
    GoesTo(ORDERLY, k, pg, Install(c), pg');
    TouchRule(ORDERLY, k.n, k.pages[k.p := pg], None, k.p, Settle(c, k.p));
    assert k.pages[k.p := pg][k.p := pg'] == k.pages[k.p := pg'];
    assert Faulters([Settle(c, k.p)]) == [];
  }

  // ---------- three clients ----------

  /** A frame of a client that has had the page and lost it. */
  function Had(k: Cast): Local {
    Owns(k).(state := NO_ACCESS, prot := PROT_NONE)
  }

  function Wants(k: Cast): Local {
    Had(k).(request := Waiting(WriteFault))
  }

  /** Client a has the page; the owner waits to write it. */
  function Carousel(k: Cast): Page {
    Scene(k, Some(k.a), [], Wants(k), Owns(k), Had(k), Idle)
  }

  function Asked(k: Cast): Page {
    Scene(k, Some(k.a), [], Wants(k), Owns(k), Wants(k), Idle)
  }

  function Taken(k: Cast): Page {
    Scene(k, Some(k.a), [], Wants(k), Had(k), Wants(k), GotWrite(k.b, k.words))
  }

  function Given(k: Cast): Page {
    Scene(k, Some(k.b), [], Wants(k), Had(k), Had(k).(request := Granted(WriteData(k.words))), Idle)
  }

  function Turned(k: Cast): Cast {
    k.(a := k.b, b := k.a)
  }

  lemma OtherSide(k: Cast)
    requires ValidCast(k) && k.a != k.b
    ensures Carousel(Turned(k)) == Scene(k, Some(k.b), [], Wants(k), Had(k), Owns(k), Idle)
  {
    assert Off(Turned(k)).data == Off(k).data;
    assert Carousel(Turned(k)).locals == Scene(k, Some(k.b), [], Wants(k), Had(k), Owns(k), Idle).locals;
  }

  /** Client b takes the page from a, past the waiting owner. */
  lemma HalfTurn(k: Cast)
    requires ValidCast(k) && k.a != k.b
    ensures Turns(At(k, Carousel(k), None), At(k, Carousel(Turned(k)), None), [k.b])
  {
    hide Turns;
    var s0, held := At(k, Carousel(k), None), Some((k.o, FaultMsg(k.p, k.b)));
    RequestTurn(k, Carousel(k), k.b, WriteFault, Asked(k));
    FetchTurn(k);
    Then(s0, At(k, Asked(k), held), [k.b], At(k, Taken(k), held), []);
    GiveTurn(k);
    Then(s0, At(k, Taken(k), held), [k.b] + [], At(k, Given(k), None), []);
    OtherSide(k);
    InstallTurn(k, Given(k), k.b, Carousel(Turned(k)));
    Then(s0, At(k, Given(k), None), [k.b] + [] + [], At(k, Carousel(Turned(k)), None), []);
    assert [k.b] + [] + [] + [] == [k.b];
  }

  lemma GiveTurn(k: Cast)
    requires ValidCast(k) && k.a != k.b
    ensures Turns(At(k, Taken(k), Some((k.o, FaultMsg(k.p, k.b)))), At(k, Given(k), None), [])
  {
    HandlerTurn(k, Taken(k), k.b, Advance, Given(k));
  }

  lemma FetchTurn(k: Cast)
    requires ValidCast(k) && k.a != k.b
    ensures var held := Some((k.o, FaultMsg(k.p, k.b)));
            Turns(At(k, Asked(k), held), At(k, Taken(k), held), [])
  {
    DirectiveTurn(k, Asked(k), k.b, Begin(k.b), Asked(k).(tx := AskWrite(k.b)), Taken(k));
  }

  /** The two clients have taken the page from each other once. */
  lemma FullTurn(k: Cast)
    requires ValidCast(k) && k.a != k.b
    ensures Turns(At(k, Carousel(k), None), At(k, Carousel(k), None), [k.b, k.a])
  {
    HalfTurn(k);
    HalfTurn(Turned(k));
    hide Turns;
    assert Turned(Turned(k)) == k;
    Then(At(k, Carousel(k), None), At(k, Carousel(Turned(k)), None), [k.b], At(k, Carousel(k), None), [k.a]);
    assert [k.b] + [k.a] == [k.b, k.a];
  }

  /** A state that can be returned to can be returned to any number of times. */
  lemma {:induction false} Repeat(s: Cluster, who: seq<nat>, k: nat) returns (all: seq<nat>)
    requires WFC(s) && Turns(s, s, who) && who != []
    ensures Turns(s, s, all) && |all| >= k
    ensures forall x :: x in all ==> x in who
  {
    if k == 0 {
      all := [];
      assert Leads(ORDERLY, s, [], s, []) && Faulters([]) == [];
    } else {
      var most := Repeat(s, who, k - 1);
      Then(s, s, most, s, who);
      all := most + who;
    }
  }

  // ---------- the fault waits throughout ----------

  /** A client that waits for nothing on a page waits for nothing there until it raises a fault. */
  lemma StillNotWaiting(s: Cluster, mem: Memory, st: Step, c: nat, p: nat)
    requires ClusterCoherent(s, mem) && Perform(ORDERLY, s, st).Some? && p < |s.pages|
    requires !IsWaiting(s, c, p) && !(st.Fault? && st.client == c)
    ensures !IsWaiting(Perform(ORDERLY, s, st).value, c, p)
  {
    if !st.Receive? {
      var (q, a) := PageStep(st).value;
      var pg := s.pages[q];
      if a.Begin? || a.Advance? {
        HandlerFootprint(pg, mem[q], if a.Begin? then a.client else pg.tx.client, a);
      }
    }
  }

  lemma {:induction false} NeverWaiting(s: Cluster, mem: Memory, steps: seq<Step>, c: nat, p: nat)
    requires ClusterCoherent(s, mem) && Run(ORDERLY, s, steps).Some? && p < |s.pages|
    requires !IsWaiting(s, c, p) && c !in Faulters(steps)
    ensures !IsWaiting(Run(ORDERLY, s, steps).value, c, p)
    decreases |steps|
  {
    if steps == [] {
    } else {
      var st := steps[0];
      StillNotWaiting(s, mem, st, c, p);
      PerformRefines(s, mem, st);
      NeverWaiting(Perform(ORDERLY, s, st).value, Replay(mem, EventOf(st)).value, steps[1..], c, p);
    }
  }

  lemma StillWaiting(s: Cluster, mem: Memory, st: Step, rest: seq<Step>, c: nat, p: nat)
    requires ClusterCoherent(s, mem) && Perform(ORDERLY, s, st).Some? && p < |s.pages|
    requires Run(ORDERLY, Perform(ORDERLY, s, st).value, rest).Some?
    requires IsWaiting(Run(ORDERLY, Perform(ORDERLY, s, st).value, rest).value, c, p) && c !in Faulters(rest)
    ensures Replay(mem, EventOf(st)).Some?
    ensures ClusterCoherent(Perform(ORDERLY, s, st).value, Replay(mem, EventOf(st)).value)
    ensures IsWaiting(Perform(ORDERLY, s, st).value, c, p)
  {
    PerformRefines(s, mem, st);
    var s', mem' := Perform(ORDERLY, s, st).value, Replay(mem, EventOf(st)).value;
    hide ClusterCoherent, Perform;
    if !IsWaiting(s', c, p) {
      NeverWaiting(s', mem', rest, c, p);
    }
  }

  /** A client that waits at both ends of a run and raises no fault in between has waited all the while. */
  lemma {:induction false} WaitedAllTheWhile(s: Cluster, mem: Memory, steps: seq<Step>, c: nat, p: nat)
    requires ClusterCoherent(s, mem) && Run(ORDERLY, s, steps).Some?
    requires IsWaiting(s, c, p) && IsWaiting(Run(ORDERLY, s, steps).value, c, p) && c !in Faulters(steps)
    ensures WaitsThroughout(s, steps, c, p)
    decreases |steps|
  {
    if steps == [] {
    } else {
      var st, rest := steps[0], steps[1..];
      assert c !in Faulters(rest);
      StillWaiting(s, mem, st, rest, c, p);
      WaitedAllTheWhile(Perform(ORDERLY, s, st).value, Replay(mem, EventOf(st)).value, rest, c, p);
    }
  }

  // ---------- the exact condition ----------

  /** The owner's fault waits while client a has the page, and b has had it. */
  lemma CarouselReached(k: Cast)
    requires ValidCast(k) && k.a != k.b
    ensures Reaches(ORDERLY, At(k, Fresh0(k), None), At(k, Carousel(k), None), [])
  {
    hide Reaches;
    var s0 := At(k, Fresh0(k), None);
    PageLent(ORDERLY, Turned(k));
    LentToOther(k);
    OwnerAsks(k);
    Chain(ORDERLY, s0, At(k, LentToB(k), None), [], At(k, WithB(k), None), []);
    PassedToA(k);
    Chain(ORDERLY, s0, At(k, WithB(k), None), [], At(k, Carousel(k), None), []);
  }

  function LentToB(k: Cast): Page {
    Scene(k, Some(k.b), [], Had(k), Off(k), Owns(k), Idle)
  }

  lemma LentToOther(k: Cast)
    requires ValidCast(k) && k.a != k.b
    ensures Lent(Turned(k)) == LentToB(k) && Fresh0(Turned(k)) == Fresh0(k)
  {
    assert Lent(Turned(k)).locals == LentToB(k).locals;
    assert Fresh0(Turned(k)).locals == Fresh0(k).locals;
  }

  function WithB(k: Cast): Page {
    Scene(k, Some(k.b), [], Wants(k), Off(k), Owns(k), Idle)
  }

  lemma OwnerAsks(k: Cast)
    requires ValidCast(k) && k.a != k.b
    ensures Reaches(ORDERLY, At(k, LentToB(k), None), At(k, WithB(k), None), [])
  {
    RequestTo(ORDERLY, k, LentToB(k), k.o, WriteFault, WithB(k));
  }

  /** Client a's write fault is served before the owner's. */
  lemma PassedToA(k: Cast)
    requires ValidCast(k) && k.a != k.b
    ensures Reaches(ORDERLY, At(k, WithB(k), None), At(k, Carousel(k), None), [])
  {
    hide Reaches;
    var held := Some((k.o, FaultMsg(k.p, k.a)));
    var s0, asks := At(k, WithB(k), None), Off(k).(request := Waiting(WriteFault));
    var pg1 := Scene(k, Some(k.b), [], Wants(k), asks, Owns(k), Idle);
    RequestTo(ORDERLY, k, WithB(k), k.a, WriteFault, pg1);
    var pg2 := Scene(k, Some(k.b), [], Wants(k), asks, Had(k), GotWrite(k.a, k.words));
    TakenFromB(k, pg1, pg2);
    Chain(ORDERLY, s0, At(k, pg1, held), [], At(k, pg2, held), []);
    var pg3 := Scene(k, Some(k.a), [], Wants(k), Off(k).(request := Granted(WriteData(k.words))), Had(k), Idle);
    HandlerTo(ORDERLY, k, pg2, k.a, Advance, pg3);
    Chain(ORDERLY, s0, At(k, pg2, held), [], At(k, pg3, None), []);
    InstallTo(ORDERLY, k, pg3, None, k.a, Carousel(k));
    Chain(ORDERLY, s0, At(k, pg3, None), [], At(k, Carousel(k), None), []);
  }

  lemma TakenFromB(k: Cast, pg1: Page, pg2: Page)
    requires ValidCast(k) && k.a != k.b
    requires var asks := Off(k).(request := Waiting(WriteFault));
             && pg1 == Scene(k, Some(k.b), [], Wants(k), asks, Owns(k), Idle)
             && pg2 == Scene(k, Some(k.b), [], Wants(k), asks, Had(k), GotWrite(k.a, k.words))
    ensures var held := Some((k.o, FaultMsg(k.p, k.a)));
            Reaches(ORDERLY, At(k, pg1, held), At(k, pg2, held), [])
  {
    DirectiveTo(ORDERLY, k, pg1, k.a, Begin(k.a), pg1.(tx := AskWrite(k.a)), pg2);
  }

  /** With three clients, on any page, the owner's fault can be overtaken any number of times. */
  lemma OwnerStarves(n: nat, mem: Memory, p: nat, k: nat)
    requires n >= 3 && p < |mem|
    ensures Overtaken(n, mem, Hash(p, n), p, k)
  {
    var cast := Opening(n, mem, p);
    OpeningIsStart(n, mem, p);
    CarouselReached(cast);
    var s := At(cast, Carousel(cast), None);
    var before :| Leads(ORDERLY, Start(n, mem), before, s, []);
    StartIsCoherent(n, mem);
    RunRefinesFlatMemory(Start(n, mem), mem, before);
    var after := CarouselTurns(cast, mem, k);
  }

  lemma CarouselTurns(cast: Cast, mem: Memory, k: nat) returns (after: seq<Step>)
    requires ValidCast(cast) && cast.a != cast.b
    requires ClusterCoherent(At(cast, Carousel(cast), None), mem)
    ensures WaitsThroughout(At(cast, Carousel(cast), None), after, cast.o, cast.p) && FaultsRaised(after) >= k
  {
    var s := At(cast, Carousel(cast), None);
    assert IsWaiting(s, cast.o, cast.p);
    assert cast.o !in [cast.b, cast.a];
    FullTurn(cast);
    hide At, Carousel, ClusterCoherent, ValidCast;
    var all := Repeat(s, [cast.b, cast.a], k);
    after :| Leads(ORDERLY, s, after, s, []) && Faulters(after) == all;
    WaitedAllTheWhile(s, mem, after, cast.o, cast.p);
  }

  /**
   Exactly when a fault can be overtaken without end, with the others' faults
   served before it again and again: when there are three clients and a page.
   */
  lemma OvertakenWithoutEndExactly(n: nat, mem: Memory)
    requires n > 0
    ensures (forall k: nat :: SomeFaultOvertaken(n, mem, k)) <==> n >= 3 && |mem| >= 1
  {
    if n >= 3 && |mem| >= 1 {
      forall k: nat ensures SomeFaultOvertaken(n, mem, k) {
        OwnerStarves(n, mem, 0, k);
      }
    } else {
      FewOrNonePage(n, mem);
      assert !SomeFaultOvertaken(n, mem, 2 * |mem| + 2);
    }
  }

  ghost predicate SomeFaultOvertaken(n: nat, mem: Memory, k: nat)
    requires n > 0
  {
    exists c, p :: Overtaken(n, mem, c, p, k)
  }

  lemma FewOrNonePage(n: nat, mem: Memory)
    requires n > 0 && (n < 3 || |mem| == 0)
    ensures !SomeFaultOvertaken(n, mem, 2 * |mem| + 2)
  {
    StartIsOrderly(n, mem);
    forall c, p, before, after |
      && Run(ORDERLY, Start(n, mem), before).Some?
      && WaitsThroughout(Run(ORDERLY, Start(n, mem), before).value, after, c, p)
      ensures FaultsRaised(after) <= 2 * |mem| + 1
    {
      RunKeepsOrderly(Start(n, mem), mem, before);
      FewOvertake(Run(ORDERLY, Start(n, mem), before).value, Replay(mem, Trace(before)).value, after, c, p);
    }
  }
}
