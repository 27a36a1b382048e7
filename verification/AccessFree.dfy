/**
 Runs in which clients only take a page from each other and nobody ever gets to use
 it: what keeps a program from being sure to finish without a fair schedule.
 */
module AccessFree {
  import opened Base
  import opened FlatMemory
  import opened Paging
  import opened ServerlessPage
  import opened ServerlessCluster
  import opened ServerlessSchedule
  import opened Scenes
  import opened Starvation

  /** Some run of at least k steps contains no load and no store. */
  ghost predicate RunsWithoutAccess(n: nat, mem: Memory, k: nat)
    requires n > 0
  {
    exists steps :: Run(ORDERLY, Start(n, mem), steps).Some? && Trace(steps) == [] && |steps| >= k
  }

  function Fetched(k: Cast): Page {
    Scene(k, Some(k.a), [], Wants(k), Had(k), Off(k), GotWrite(k.o, k.words))
  }

  /** The owner has its page back. */
  function Regained(k: Cast): Page {
    Scene(k, Some(k.o), [], Owns(k), Had(k), Off(k), Idle)
  }

  lemma OwnerTakesBack(k: Cast)
    requires ValidCast(k)
    ensures Turns(At(k, Lent(k), None), At(k, Regained(k), None), [k.o])
  {
    hide Turns;
    var asked := Scene(k, Some(k.a), [], Wants(k), Owns(k), Off(k), Idle);
    RequestTurn(k, Lent(k), k.o, WriteFault, asked);
    DirectiveTurn(k, asked, k.o, Begin(k.o), asked.(tx := AskWrite(k.o)), Fetched(k));
    Then(At(k, Lent(k), None), At(k, asked, None), [k.o], At(k, Fetched(k), None), []);
    OwnerInstalls(k);
    Then(At(k, Lent(k), None), At(k, Fetched(k), None), [k.o] + [], At(k, Regained(k), None), []);
    assert [k.o] + [] + [] == [k.o];
  }

  lemma OwnerInstalls(k: Cast)
    requires ValidCast(k)
    ensures Turns(At(k, Fetched(k), None), At(k, Regained(k), None), [])
  {
    HandlerTurn(k, Fetched(k), k.o, Advance, Regained(k));
  }

  function AskedAgain(k: Cast): Page {
    Scene(k, Some(k.o), [], Owns(k), Wants(k), Off(k), Idle)
  }

  function SentAgain(k: Cast): Page {
    Scene(k, Some(k.a), [], Had(k), Had(k).(request := Granted(WriteData(k.words))), Off(k), Idle)
  }

  lemma OtherTakesBack(k: Cast)
    requires ValidCast(k)
    ensures Turns(At(k, Regained(k), None), At(k, Lent(k), None), [k.a])
  {
    hide Turns;
    RequestTurn(k, Regained(k), k.a, WriteFault, AskedAgain(k));
    OwnerSends(k);
    Then(At(k, Regained(k), None), At(k, AskedAgain(k), Some((k.o, FaultMsg(k.p, k.a)))), [k.a],
         At(k, SentAgain(k), None), []);
    InstallTurn(k, SentAgain(k), k.a, Lent(k));
    Then(At(k, Regained(k), None), At(k, SentAgain(k), None), [k.a] + [], At(k, Lent(k), None), []);
    assert [k.a] + [] + [] == [k.a];
  }

  lemma OwnerSends(k: Cast)
    requires ValidCast(k)
    ensures Turns(At(k, AskedAgain(k), Some((k.o, FaultMsg(k.p, k.a)))), At(k, SentAgain(k), None), [])
  {
    HandlerTurn(k, AskedAgain(k), k.a, Begin(k.a), SentAgain(k));
  }

  lemma LongRun(n: nat, mem: Memory, k: nat)
    requires n >= 2 && |mem| >= 1
    ensures RunsWithoutAccess(n, mem, k)
  {
    hide Turns, Reaches;
    var cast := Opening(n, mem, 0);
    OpeningIsStart(n, mem, 0);
    PageLent(ORDERLY, cast);
    var s := At(cast, Lent(cast), None);
    OwnerTakesBack(cast);
    OtherTakesBack(cast);
    Then(s, At(cast, Regained(cast), None), [cast.o], s, [cast.a]);
    var all := Repeat(s, [cast.o] + [cast.a], k);
    TheLongRun(n, mem, s, all, k);
  }

  lemma TheLongRun(n: nat, mem: Memory, s: Cluster, all: seq<nat>, k: nat)
    requires n > 0 && Reaches(ORDERLY, Start(n, mem), s, []) && Turns(s, s, all) && |all| >= k
    ensures RunsWithoutAccess(n, mem, k)
  {
    var before :| Leads(ORDERLY, Start(n, mem), before, s, []);
    var after :| Leads(ORDERLY, s, after, s, []) && Faulters(after) == all;
    Compose(ORDERLY, Start(n, mem), before, s, [], after, s, []);
    FewerFaultsThanSteps(after);
    assert |before + after| >= k;
    hide Start, Perform, WFC;
    assert Leads(ORDERLY, Start(n, mem), before + after, s, [] + []);
  }

  lemma {:induction false} FewerFaultsThanSteps(steps: seq<Step>)
    ensures FaultsRaised(steps) <= |steps|
  {
    if steps == [] {
    } else {
      FewerFaultsThanSteps(steps[1..]);
    }
  }

  /** A client alone, or clients without a page, can do nothing but access what they have. */
  lemma OnlyAccesses(n: nat, mem: Memory, st: Step)
    requires n > 0 && (n == 1 || |mem| == 0) && EventOf(st) == []
    ensures Perform(ORDERLY, Start(n, mem), st).None?
  {
    if st.Fault? && st.page < |mem| {
      assert st.client < n ==> Start(n, mem).pages[st.page].locals[st.client].prot == PROT_ALL;
    }
    hide Fresh;
  }

  lemma NoLongRun(n: nat, mem: Memory)
    requires n > 0 && (n == 1 || |mem| == 0)
    ensures !RunsWithoutAccess(n, mem, 1)
  {
    forall st | EventOf(st) == [] ensures Perform(ORDERLY, Start(n, mem), st).None? {
      OnlyAccesses(n, mem, st);
    }
    hide Perform, Start;
  }

  /** Exactly when a run can go on without end and without a single access: when two clients share a page. */
  lemma AccessFreeRunsExactly(n: nat, mem: Memory)
    requires n > 0
    ensures (forall k: nat :: RunsWithoutAccess(n, mem, k)) <==> n >= 2 && |mem| >= 1
  {
    if n >= 2 && |mem| >= 1 {
      forall k: nat ensures RunsWithoutAccess(n, mem, k) {
        LongRun(n, mem, k);
      }
    } else {
      NoLongRun(n, mem);
    }
  }
}
