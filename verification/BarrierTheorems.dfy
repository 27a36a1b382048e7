/** What the barriers promise the matrix program, over every run of any number of clients. */
module BarrierTheorems {
  import opened Base
  import opened SyncService
  import opened Barrier
  import opened BarrierProof

  /** A state some run of n clients leads to. */
  ghost predicate Reached(n: nat, actions: seq<Action>, s: Sys) {
    n > 0 && Run(Start(n), actions) == Some(s)
  }

  lemma ReachedIsGood(n: nat, actions: seq<Action>, s: Sys)
    requires Reached(n, actions, s)
    ensures Good(s) && |s.phases| == n
  {
    StartIsGood(n);
    RunIsGood(Start(n), actions);
  }

  /** All replies client c is ever to get, in order. */
  function Script(c: nat): seq<Kind> {
    if c == 0 then [Go, Clean, Bye] else [Go, Bye]
  }

  /** Every client is sent the replies of its script, each once and in order, and none that it does not await. */
  lemma RepliesFollowTheScript(n: nat, actions: seq<Action>, s: Sys, c: nat)
    requires Reached(n, actions, s) && c < n
    ensures For(s.log, c) <= Script(c)
    ensures WFS(s) && c < |s.phases| && (s.phases[c].Finished? ==> For(s.log, c) == Script(c))
  {
    ReachedIsGood(n, actions, s);
    assert ClientOk(s, c);
  }

  /**
   The start barrier: no client is released before the service has received
   the announcement of every initialiser.
   */
  lemma StartBarrier(n: nat, actions: seq<Action>, s: Sys, c: nat, k: nat)
    requires Reached(n, actions, s) && c < n && k < WaitCount(n)
    requires Go in For(s.log, c)
    ensures WFS(s) && |s.phases| == n && Announced(s, k) && s.service.initCount == WaitCount(n)
  {
    ReachedIsGood(n, actions, s);
    assert ClientOk(s, c) && Linked(s, c);
    AllAnnounced(s, k);
  }

  lemma AllAnnounced(s: Sys, k: nat)
    requires Good(s) && s.service.initCount == WaitCount(|s.phases|) && k < WaitCount(|s.phases|)
    ensures k < |s.phases| && Announced(s, k)
  {
    if !Announced(s, k) {
      assert AnnouncedClients(s) <= Below(WaitCount(|s.phases|)) - {k};
      SubsetSize(AnnouncedClients(s), Below(WaitCount(|s.phases|)) - {k});
    }
  }

  lemma {:induction false} OneKindOfReply(q: seq<nat>, except: Option<nat>, kind: Kind)
    ensures forall i :: 0 <= i < |ToOthers(q, except, kind)| ==> ToOthers(q, except, kind)[i].kind == kind
  {
    if q == [] {
    } else {
      OneKindOfReply(q[1..], except, kind);
    }
  }

  /**
   An INIT_DONE that comes after the last WAIT_INIT releases nobody, and so would
   any other message; StartBarrierExactly says what order the barrier needs.
   */
  lemma OnlyWaitInitReleases(n: nat, s: Service, from: nat, m: Request)
    requires !m.WaitInit?
    ensures Serve(n, s, from, m).0.waitQ == s.waitQ
    ensures forall i :: 0 <= i < |Serve(n, s, from, m).1| ==> Serve(n, s, from, m).1[i].kind != Go
  {
    if m.ClientDone? {
      var client0 := if from == 0 then Some(from) else s.client0;
      OneKindOfReply(s.doneQ + [from], client0, Bye);
    }
  }

  /** The clean-up barrier: client 0's CLEAN_UP is answered only after every other client's CLIENT_DONE arrived. */
  lemma CleanUpBarrier(n: nat, actions: seq<Action>, s: Sys, c: nat)
    requires Reached(n, actions, s) && 0 < c < n
    requires Clean in For(s.log, 0)
    ensures WFS(s) && |s.phases| == n && Done(s, c)
  {
    ReachedIsGood(n, actions, s);
    assert ClientOk(s, 0) && Linked(s, c);
  }

  /**
   The final hand-shake: nobody is dismissed before every client's CLIENT_DONE
   has arrived; then everybody is, each exactly once, client 0 last.
   */
  lemma DismissalIsTogether(n: nat, actions: seq<Action>, s: Sys, c: nat, c': nat)
    requires Reached(n, actions, s) && c < n && c' < n
    requires Bye in For(s.log, c)
    ensures WFS(s) && |s.phases| == n && Done(s, c')
    ensures For(s.log, c') == Script(c')
    ensures s.log != [] && s.log[|s.log| - 1] == Reply(0, Bye)
  {
    ReachedIsGood(n, actions, s);
    assert ClientOk(s, c) && Linked(s, c) && ClientOk(s, c') && Linked(s, c');
  }

  // ---------- no deadlock, and every run comes to its end ----------

  ghost predicate AllFinished(s: Sys) {
    forall c :: 0 <= c < |s.phases| ==> s.phases[c].Finished?
  }

  /** Client c cannot move and nothing is on its way to or from it. */
  ghost predicate AtRest(s: Sys, c: nat)
    requires WFS(s) && c < |s.phases|
  {
    s.outbox[c] == [] && s.inbox[c] == [] && (s.phases[c].Finished? || Awaiting(s.phases[c]))
  }

  lemma MoveOf(s: Sys, c: nat) returns (a: Action)
    requires Good(s) && c < |s.phases| && !AtRest(s, c)
    ensures Next(s, a).Some?
  {
    assert ClientOk(s, c);
    if s.outbox[c] != [] {
      return Deliver(c);
    }
    match s.phases[c]
    case Preparing => a := Announce(c);
    case Ready => a := Await(c);
    case Working => a := if c == 0 then AskClean(c) else Finish(c);
    case Checking => a := Finish(c);
    case _ => a := Wake(c);
  }

  /** A client at rest has either finished or is one of those the service holds back at the end. */
  lemma RestingClient(s: Sys, c: nat)
    requires Good(s) && c < |s.phases| && forall k :: 0 <= k < |s.phases| ==> AtRest(s, k)
    ensures s.phases[c].Finished? || (c == 0 && s.phases[c].AwaitClean? && |s.service.doneQ| < |s.phases| - 1)
            || (s.phases[c].AwaitDone? && c in s.service.doneQ)
  {
    forall k | 0 <= k < |s.phases| ensures HasWaited(s, k) {
      assert AtRest(s, k);
    }
    assert AtRest(s, c) && ClientOk(s, c);
  }

  /** A queue that lists every client, or every client but 0, is that long. */
  lemma QueueSize(q: seq<nat>, n: nat)
    requires QueueOk(q, n) && n > 0
    requires forall c :: 0 < c < n ==> c in q
    ensures |q| == if 0 in q then n else n - 1
  {
    MembersSize(q);
    assert 0 in Below(n);
    if 0 in q {
      assert Members(q) == Below(n);
    } else {
      assert Members(q) == Below(n) - {0};
    }
  }

  /** Whatever the order of messages, some client or the service can always go on until everybody has finished. */
  lemma NeverStuck(s: Sys) returns (a: Action)
    requires Good(s) && !AllFinished(s)
    ensures Next(s, a).Some?
  {
    if c: nat :| c < |s.phases| && !AtRest(s, c) {
      a := MoveOf(s, c);
    } else {
      var n, q := |s.phases|, s.service.doneQ;
      var k :| 0 <= k < n && !s.phases[k].Finished?;
      forall c | 0 <= c < n ensures !s.phases[c].Finished? {
        assert AtRest(s, k) && Linked(s, k) && Linked(s, c);
      }
      forall c | 0 <= c < n ensures c in q || (c == 0 && |q| < n - 1) {
        RestingClient(s, c);
      }
      QueueSize(q, n);
      assert false;
    }
  }

  /** How many actions client c still has to take or have taken for it. */
  function Life(s: Sys, c: nat): nat
    requires WFS(s) && c < |s.phases|
  {
    var work := if c == 0 then 6 else 3;
    match s.phases[c]
    case Preparing => 5 + work
    case Ready => 3 + work + |s.outbox[c]|
    case AwaitStart => 1 + work + |s.outbox[c]|
    case Working => work
    case AwaitClean => 4 + |s.outbox[c]|
    case Checking => 3
    case AwaitDone => 1 + |s.outbox[c]|
    case Finished => 0
  }

  function Lives(s: Sys): seq<int>
    requires WFS(s)
  {
    seq(|s.phases|, c requires 0 <= c < |s.phases| => Life(s, c))
  }

  lemma LifeSpent(s: Sys, a: Action)
    requires Good(s) && Next(s, a).Some?
    ensures var s' := Next(s, a).value;
            && a.client < |s.phases| && Life(s', a.client) == Life(s, a.client) - 1
            && forall c :: 0 <= c < |s.phases| && c != a.client ==> Life(s', c) == Life(s, c)
  {
    hide For, Serve, History, Linked, ServiceOk;
    assert ClientOk(s, a.client);
    hide Good;
  }

  /** Every action uses up exactly one unit of exactly one client's life. */
  lemma ActionSpendsOne(s: Sys, a: Action)
    requires Good(s) && Next(s, a).Some?
    ensures Sum(Lives(Next(s, a).value)) == Sum(Lives(s)) - 1
  {
    hide For, Serve, History, Linked, ServiceOk;
    var s', c := Next(s, a).value, a.client;
    LifeSpent(s, a);
    assert |s'.phases| == |s.phases|;
    hide Good, Next, Life;
    assert Lives(s') == Lives(s)[c := Life(s, c) - 1];
    SumUpdate(Lives(s), c, Life(s, c) - 1);
  }

  lemma {:induction false} RunSpendsItsLength(s: Sys, actions: seq<Action>)
    requires Good(s) && Run(s, actions).Some?
    ensures Sum(Lives(s)) == |actions| + Sum(Lives(Run(s, actions).value))
    decreases |actions|
  {
    if actions == [] {
    } else {
      ActionSpendsOne(s, actions[0]);
      NextIsGood(s, actions[0]);
      RunSpendsItsLength(Next(s, actions[0]).value, actions[1..]);
    }
  }

  lemma {:induction false} SumOfConstants(s: seq<int>, v: int)
    requires forall i :: 0 <= i < |s| ==> s[i] == v
    ensures Sum(s) == v * |s|
  {
    if s == [] {
    } else {
      SumOfConstants(s[1..], v);
    }
  }

  lemma {:induction false} SumSplit(a: seq<int>, b: seq<int>)
    ensures Sum(a + b) == Sum(a) + Sum(b)
  {
    if a == [] {
      assert a + b == b;
    } else {
      assert (a + b)[1..] == a[1..] + b;
      SumSplit(a[1..], b);
    }
  }

  /** The number of messages and moves in the whole program of n clients. */
  function ProgramLength(n: nat): nat {
    6 * n + 3 + 2 * WaitCount(n)
  }

  lemma StartLives(n: nat)
    requires n > 0
    ensures Sum(Lives(Start(n))) == ProgramLength(n)
  {
    var lives, w := Lives(Start(n)), WaitCount(n);
    assert |lives| == n && lives[0] == 11;
    assert forall c :: 1 <= c < w ==> lives[c] == 8;
    assert forall c :: w <= c < n ==> lives[c] == 6;
    SumOfThreeParts(lives, w);
  }

  /** One client that checks, the other initialisers, and the rest. */
  lemma SumOfThreeParts(lives: seq<int>, w: nat)
    requires 1 <= w <= |lives| && lives[0] == 11
    requires forall c :: 1 <= c < w ==> lives[c] == 8
    requires forall c :: w <= c < |lives| ==> lives[c] == 6
    ensures Sum(lives) == 11 + 8 * (w - 1) + 6 * (|lives| - w)
  {
    assert lives == lives[..1] + (lives[1..w] + lives[w..]);
    SumSplit(lives[..1], lives[1..w] + lives[w..]);
    SumSplit(lives[1..w], lives[w..]);
    SumOfConstants(lives[..1], 11);
    SumOfConstants(lives[1..w], 8);
    SumOfConstants(lives[w..], 6);
  }

  /**
   Every run, whatever the order of messages, can be continued until it has
   ProgramLength(n) actions, never further, and everybody has finished exactly
   when it has that many.
   */
  lemma EveryRunCompletes(n: nat, actions: seq<Action>, s: Sys)
    requires Reached(n, actions, s)
    ensures |actions| <= ProgramLength(n)
    ensures |actions| == ProgramLength(n) <==> AllFinished(s)
    ensures |actions| < ProgramLength(n) <==> exists a :: WFS(s) && Next(s, a).Some?
  {
    ReachedIsGood(n, actions, s);
    StartIsGood(n);
    StartLives(n);
    RunSpendsItsLength(Start(n), actions);
    var left := Lives(s);
    if AllFinished(s) {
      SumOfConstants(left, 0);
      forall a ensures Next(s, a).None? {
        if a.client < n {
          assert ClientOk(s, a.client);
        }
      }
    } else {
      var a := NeverStuck(s);
      var c :| 0 <= c < n && !s.phases[c].Finished?;
      SumAtLeast(left, c);
    }
  }
}
