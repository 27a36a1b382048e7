/** Every action of the clients and the synchronisation service keeps the invariant. */
module BarrierProof {
  import opened Base
  import opened SyncService
  import opened Barrier

  /** A client nothing happened to, in a service nothing happened to. */
  lemma UntouchedClient(s: Sys, s': Sys, c: nat)
    requires WFS(s) && WFS(s') && |s'.phases| == |s.phases| && c < |s.phases|
    requires s'.log == s.log && s'.service.waitQ == s.service.waitQ && s'.service.doneQ == s.service.doneQ
    requires s'.service.cleanUpFlag == s.service.cleanUpFlag && s'.service.cleanUpPort == s.service.cleanUpPort
    requires s'.phases[c] == s.phases[c] && s'.outbox[c] == s.outbox[c] && s'.inbox[c] == s.inbox[c]
    requires ClientOk(s, c)
    ensures ClientOk(s', c)
    ensures Released(s', c) == Released(s, c) && Dismissed(s', c) == Dismissed(s, c) && Done(s', c) == Done(s, c)
  {
  }

  /** What a client does on its own tells the service nothing yet. */
  lemma SenderKept(s: Sys, a: Action)
    requires Good(s) && (a.Announce? || a.Await? || a.AskClean? || a.Finish?) && Next(s, a).Some?
    ensures var s', c := Next(s, a).value, a.client;
            && ClientOk(s', c) && Released(s', c) == Released(s, c)
            && Dismissed(s', c) == Dismissed(s, c) && Done(s', c) == Done(s, c)
            && (c == 0 ==> Cleaned(s') == Cleaned(s))
  {
    assert ClientOk(s, a.client);
  }

  lemma SendingKeepsClients(s: Sys, a: Action, c': nat)
    requires Good(s) && (a.Announce? || a.Await? || a.AskClean? || a.Finish?) && Next(s, a).Some?
    requires c' < |s.phases|
    ensures ClientOk(Next(s, a).value, c') && Linked(Next(s, a).value, c')
  {
    hide For, Serve, ServiceOk, History;
    var s' := Next(s, a).value;
    assert ClientOk(s, c') && Linked(s, c') && ClientOk(s, 0);
    SenderKept(s, a);
    assert Cleaned(s') == Cleaned(s);
    if c' != a.client {
      UntouchedClient(s, s', c');
    }
    if 0 != a.client {
      UntouchedClient(s, s', 0);
    }
    hide ClientOk, Released, Dismissed, Done, Cleaned, Next, ServiceOk;
  }

  lemma SendingKeepsService(s: Sys, a: Action)
    requires Good(s) && (a.Announce? || a.Await? || a.AskClean? || a.Finish?) && Next(s, a).Some?
    ensures ServiceOk(Next(s, a).value)
  {
    var s' := Next(s, a).value;
    assert ClientOk(s, a.client) && ClientOk(s, 0);
    assert AnnouncedClients(s') == AnnouncedClients(s);
    forall k | 0 <= k < |s.phases| && Initialiser(|s.phases|, k) && !HasWaited(s, k)
      ensures !HasWaited(s', k)
    {
      assert ClientOk(s, k);
    }
  }

  lemma WakingKeepsClients(s: Sys, a: Action, c': nat)
    requires Good(s) && a.Wake? && Next(s, a).Some? && c' < |s.phases|
    ensures ClientOk(Next(s, a).value, c') && Linked(Next(s, a).value, c')
  {
    assert ClientOk(s, c') && Linked(s, c');
    assert ClientOk(s, 0) && Linked(s, 0);
    if c' != a.client {
      WakingKeepsOthers(s, a, c');
    }
  }

  lemma WakingKeepsOthers(s: Sys, a: Action, c': nat)
    requires Good(s) && a.Wake? && Next(s, a).Some? && c' < |s.phases| && c' != a.client
    ensures ClientOk(Next(s, a).value, c') && Linked(Next(s, a).value, c')
  {
    hide For, Serve, ServiceOk, History;
    var s' := Next(s, a).value;
    assert ClientOk(s, c') && Linked(s, c') && Linked(s, a.client);
    WakerKept(s, a);
    UntouchedClient(s, s', c');
    if 0 != a.client {
      assert ClientOk(s, 0);
      UntouchedClient(s, s', 0);
    }
    hide Good, ClientOk, Released, Dismissed, Done, Cleaned, Next;
  }

  /** Waking up tells nobody anything new. */
  lemma WakerKept(s: Sys, a: Action)
    requires Good(s) && a.Wake? && Next(s, a).Some?
    ensures var s', c := Next(s, a).value, a.client;
            && ClientOk(s', c) && Released(s', c) == Released(s, c)
            && Dismissed(s', c) == Dismissed(s, c) && Done(s', c) == Done(s, c)
            && Cleaned(s') == Cleaned(s)
  {
    assert ClientOk(s, a.client);
  }

  lemma WakingKeepsService(s: Sys, a: Action)
    requires Good(s) && a.Wake? && Next(s, a).Some?
    ensures ServiceOk(Next(s, a).value)
  {
    var s' := Next(s, a).value;
    assert ClientOk(s, a.client) && ClientOk(s, 0);
    assert AnnouncedClients(s') == AnnouncedClients(s);
    forall k | 0 <= k < |s.phases| && Initialiser(|s.phases|, k) && !HasWaited(s, k)
      ensures !HasWaited(s', k)
    {
      assert ClientOk(s, k);
    }
  }

  // ---------- deliveries ----------

  ghost predicate Delivers(s: Sys, c: nat, m: Request) {
    Good(s) && c < |s.phases| && s.outbox[c] != [] && s.outbox[c][0] == m
  }

  /** What the sender of a message not yet received is doing. */
  lemma SenderIs(s: Sys, c: nat)
    requires Good(s) && c < |s.phases| && s.outbox[c] != []
    ensures s.inbox[c] == [] && c !in s.service.waitQ && c !in s.service.doneQ
    ensures match s.outbox[c][0]
            case InitDone => Initialiser(|s.phases|, c)
            case WaitInit(_) => s.phases[c].AwaitStart? && s.outbox[c] == [WaitInit(WaitCount(|s.phases|))]
            case CleanUp => c == 0 && s.phases[c].AwaitClean? && s.outbox[c] == [CleanUp]
            case ClientDone => s.phases[c].AwaitDone? && s.outbox[c] == [ClientDone]
  {
    hide For, History, ServiceOk, Linked;
    assert ClientOk(s, c);
  }

  lemma WaiterIs(s: Sys, c: nat)
    requires Good(s) && c < |s.phases| && c in s.service.waitQ
    ensures s.phases[c].AwaitStart? && s.outbox[c] == [] && s.inbox[c] == []
  {
    hide For, History, ServiceOk, Linked;
    assert ClientOk(s, c);
  }

  /** A message the service answers with nothing puts nothing in any inbox. */
  lemma SilentDelivery(s: Sys, c: nat)
    requires WFS(s) && c < |s.phases| && s.outbox[c] != []
    requires Serve(|s.phases|, s.service, c, s.outbox[c][0]).1 == []
    ensures var s' := Next(s, Deliver(c)).value;
            && s'.inbox == s.inbox && s'.log == s.log && s'.phases == s.phases
            && s'.outbox == s.outbox[c := s.outbox[c][1..]]
            && s'.service == Serve(|s.phases|, s.service, c, s.outbox[c][0]).0
  {
    var s' := Next(s, Deliver(c)).value;
    assert s.log + [] == s.log;
    forall i | 0 <= i < |s.phases| ensures s'.inbox[i] == s.inbox[i] {
      assert s.inbox[i] + [] == s.inbox[i];
    }
  }

  /** Replies lengthen a client's inbox and the record of what it was sent alike. */
  lemma Replying(s: Sys, c: nat, c': nat)
    requires WFS(s) && c < |s.phases| && c' < |s.phases| && s.outbox[c] != []
    ensures var replies := Serve(|s.phases|, s.service, c, s.outbox[c][0]).1;
            var s' := Next(s, Deliver(c)).value;
            && s'.inbox[c'] == s.inbox[c'] + For(replies, c')
            && For(s'.log, c') == For(s.log, c') + For(replies, c')
  {
    ForAppend(s.log, Serve(|s.phases|, s.service, c, s.outbox[c][0]).1, c');
  }

  lemma AnnouncedBound(s: Sys)
    requires WFS(s)
    ensures |AnnouncedClients(s)| <= WaitCount(|s.phases|)
  {
    BoundedSetSize(AnnouncedClients(s), WaitCount(|s.phases|));
  }

  lemma InitDoneCounts(s: Sys, c: nat)
    requires Delivers(s, c, InitDone)
    ensures var s' := Next(s, Deliver(c)).value;
            && s'.service.initCount == |AnnouncedClients(s')| <= WaitCount(|s.phases|)
            && s.service.initCount < WaitCount(|s.phases|)
  {
    hide For, History, Linked;
    var s' := Next(s, Deliver(c)).value;
    assert ClientOk(s, c) && s.service.initCount == |AnnouncedClients(s)|;
    SilentDelivery(s, c);
    hide Good, Serve, ServiceOk;
    assert AnnouncedClients(s') == AnnouncedClients(s) + {c};
    assert |AnnouncedClients(s')| == |AnnouncedClients(s)| + 1;
    AnnouncedBound(s');
  }

  lemma InitDoneKeepsClients(s: Sys, c: nat, c': nat)
    requires Delivers(s, c, InitDone) && c' < |s.phases|
    ensures ClientOk(Next(s, Deliver(c)).value, c') && Linked(Next(s, Deliver(c)).value, c')
  {
    hide For, ServiceOk;
    var s' := Next(s, Deliver(c)).value;
    InitDoneCounts(s, c);
    SilentDelivery(s, c);
    assert ClientOk(s, c) && ClientOk(s, c') && Linked(s, c') && Linked(s, 0);
    hide Good, Serve, Next;
    if c' != c {
      UntouchedClient(s, s', c');
    }
  }

  lemma InitDoneKeepsService(s: Sys, c: nat)
    requires Delivers(s, c, InitDone)
    ensures ServiceOk(Next(s, Deliver(c)).value)
  {
    hide For, History, Linked;
    var s' := Next(s, Deliver(c)).value;
    InitDoneCounts(s, c);
    SilentDelivery(s, c);
    assert ClientOk(s, 0) && ClientOk(s, c) && ServiceOk(s);
    hide Good, Serve, Next;
    forall k | 0 <= k < |s.phases| && Initialiser(|s.phases|, k) && !HasWaited(s, k) ensures !HasWaited(s', k) {
    }
  }

  lemma InitDoneIsGood(s: Sys, c: nat)
    requires Delivers(s, c, InitDone)
    ensures Good(Next(s, Deliver(c)).value)
  {
    hide ClientOk, Linked, ServiceOk, For, Serve;
    InitDoneKeepsService(s, c);
    forall c' | 0 <= c' < |s.phases|
      ensures ClientOk(Next(s, Deliver(c)).value, c') && Linked(Next(s, Deliver(c)).value, c')
    {
      InitDoneKeepsClients(s, c, c');
    }
  }

  lemma EverybodyAnnounced(s: Sys)
    requires WFS(s) && forall k :: 0 <= k < WaitCount(|s.phases|) ==> Announced(s, k)
    ensures |AnnouncedClients(s)| == WaitCount(|s.phases|)
  {
    assert AnnouncedClients(s) == if |s.phases| >= 3 then {0, 1, 2} else {0};
  }

  /**
   A client that waits before all initialisers have announced themselves leaves one whose WAIT_INIT
   is still to come.
   */
  lemma SomeInitialiserIsBehind(s: Sys, c: nat) returns (k: nat)
    requires Good(s) && c < |s.phases| && s.service.initCount != WaitCount(|s.phases|)
    requires InitDone !in s.outbox[c] && !s.phases[c].Preparing?
    ensures k < |s.phases| && k != c && Initialiser(|s.phases|, k) && !HasWaited(s, k)
  {
    var n := |s.phases|;
    if forall k :: 0 <= k < WaitCount(n) ==> Announced(s, k) {
      EverybodyAnnounced(s);
      assert false;
    }
    k :| 0 <= k < WaitCount(n) && !Announced(s, k);
    assert ClientOk(s, k);
  }

  lemma EarlyWaitIsGood(s: Sys, c: nat)
    requires Delivers(s, c, WaitInit(WaitCount(|s.phases|))) && s.service.initCount != WaitCount(|s.phases|)
    ensures Good(Next(s, Deliver(c)).value)
  {
    var s' := Next(s, Deliver(c)).value;
    assert ClientOk(s, c) && Linked(s, c);
    SilentDelivery(s, c);
    DistinctAppend(s.service.waitQ, c);
    var k := SomeInitialiserIsBehind(s, c);
    assert !HasWaited(s', k);
    assert AnnouncedClients(s') == AnnouncedClients(s);
    forall c' | 0 <= c' < |s'.phases| ensures ClientOk(s', c') && Linked(s', c') {
      assert ClientOk(s, c') && Linked(s, c');
    }
  }

  /** The barrier opens: every waiting client, the last comer included, is released. */
  lemma FinalWaitSends(s: Sys, c: nat, c': nat)
    requires Delivers(s, c, WaitInit(WaitCount(|s.phases|))) && s.service.initCount == WaitCount(|s.phases|)
    requires c' < |s.phases|
    ensures var s' := Next(s, Deliver(c)).value;
            var sent := if c' in s.service.waitQ || c' == c then [Go] else [];
            && s'.inbox[c'] == s.inbox[c'] + sent && For(s'.log, c') == For(s.log, c') + sent
            && s'.phases == s.phases && s'.outbox == s.outbox[c := s.outbox[c][1..]]
            && s'.service == s.service.(waitQ := [])
  {
    hide For, History, Linked;
    var q := s.service.waitQ + [c];
    assert ClientOk(s, c) && Distinct(s.service.waitQ) && c !in s.service.waitQ;
    hide Good, ServiceOk, ClientOk;
    DistinctAppend(s.service.waitQ, c);
    Replying(s, c, c');
    ForAll(q, Go, c');
    assert c' in q <==> c' in s.service.waitQ || c' == c;
  }

  lemma FinalWaitKeepsClients(s: Sys, c: nat, c': nat)
    requires Delivers(s, c, WaitInit(WaitCount(|s.phases|))) && s.service.initCount == WaitCount(|s.phases|)
    requires c' < |s.phases|
    ensures ClientOk(Next(s, Deliver(c)).value, c') && Linked(Next(s, Deliver(c)).value, c')
    ensures s.phases[c'].AwaitDone? || s.phases[c'].AwaitClean? ==> Next(s, Deliver(c)).value.inbox[c'] == s.inbox[c']
  {
    hide For, ServiceOk, Linked, Serve;
    FinalWaitSends(s, c, c');
    SenderIs(s, c);
    FinalWaitKeepsLinks(s, c, c');
    if c' in s.service.waitQ {
      WaiterIs(s, c');
    }
    assert ClientOk(s, c');
    hide Good, Next;
  }

  lemma FinalWaitKeepsLinks(s: Sys, c: nat, c': nat)
    requires Delivers(s, c, WaitInit(WaitCount(|s.phases|))) && s.service.initCount == WaitCount(|s.phases|)
    requires c' < |s.phases|
    ensures Linked(Next(s, Deliver(c)).value, c')
  {
    hide For, History, ServiceOk, Serve, ClientOk;
    FinalWaitSends(s, c, c');
    FinalWaitSends(s, c, 0);
    SenderIs(s, c);
    if c' in s.service.waitQ {
      WaiterIs(s, c');
    }
    if 0 in s.service.waitQ {
      WaiterIs(s, 0);
    }
    assert Linked(s, c');
    hide Good, Next;
  }

  lemma FinalWaitIsGood(s: Sys, c: nat)
    requires Delivers(s, c, WaitInit(WaitCount(|s.phases|))) && s.service.initCount == WaitCount(|s.phases|)
    ensures Good(Next(s, Deliver(c)).value)
  {
    var s' := Next(s, Deliver(c)).value;
    assert ClientOk(s, c) && Linked(s, c);
    assert Linked(s, 0) && ClientOk(s, 0);
    assert AnnouncedClients(s') == AnnouncedClients(s);
    forall c' | 0 <= c' < |s'.phases| ensures ClientOk(s', c') && Linked(s', c') {
      FinalWaitKeepsClients(s, c, c');
    }
    FinalWaitKeepsClients(s, c, 0);
  }

  /** CLEAN_UP that comes before the other clients are done is remembered. */
  lemma EarlyCleanIsGood(s: Sys, c: nat)
    requires Delivers(s, c, CleanUp) && |s.service.doneQ| != |s.phases| - 1
    ensures Good(Next(s, Deliver(c)).value)
  {
    var s' := Next(s, Deliver(c)).value;
    assert ClientOk(s, c) && Linked(s, c);
    SilentDelivery(s, c);
    assert AnnouncedClients(s') == AnnouncedClients(s);
    forall c' | 0 <= c' < |s'.phases| ensures ClientOk(s', c') && Linked(s', c') {
      assert ClientOk(s, c') && Linked(s, c');
    }
    forall k | 0 <= k < |s.phases| && Initialiser(|s.phases|, k) && !HasWaited(s, k) ensures !HasWaited(s', k) {
    }
  }

  /** With client 0 not done and n - 1 clients queued, every other client is done. */
  lemma OthersAreDone(s: Sys, c: nat)
    requires Good(s) && |s.service.doneQ| == |s.phases| - 1 && 0 !in s.service.doneQ && 0 < c < |s.phases|
    ensures Done(s, c)
  {
    FullQueue(s.service.doneQ, |s.phases|, {0}, c);
    assert ClientOk(s, c);
  }

  lemma LateCleanKeepsClients(s: Sys, c: nat, c': nat)
    requires Delivers(s, c, CleanUp) && |s.service.doneQ| == |s.phases| - 1 && c' < |s.phases|
    ensures ClientOk(Next(s, Deliver(c)).value, c') && Linked(Next(s, Deliver(c)).value, c')
  {
    hide For, ServiceOk, Serve;
    SenderIs(s, c);
    assert ClientOk(s, c') && Linked(s, c');
    LateCleanSends(s, c, c');
    LateCleanSends(s, c, 0);
    if c' != 0 {
      OthersAreDone(s, c');
    }
    hide Good, Next;
  }

  lemma LateCleanSends(s: Sys, c: nat, c': nat)
    requires Delivers(s, c, CleanUp) && |s.service.doneQ| == |s.phases| - 1 && c' < |s.phases|
    ensures var s' := Next(s, Deliver(c)).value;
            var sent := if c' == 0 then [Clean] else [];
            && s'.inbox[c'] == s.inbox[c'] + sent && For(s'.log, c') == For(s.log, c') + sent
            && s'.phases == s.phases && s'.outbox == s.outbox[c := s.outbox[c][1..]]
            && s'.service == s.service.(cleanUpPort := Some(0))
  {
    hide For, History, ServiceOk;
    assert ClientOk(s, c);
    Replying(s, c, c');
    ForOne(0, Clean, c');
  }

  lemma LateCleanIsGood(s: Sys, c: nat)
    requires Delivers(s, c, CleanUp) && |s.service.doneQ| == |s.phases| - 1
    ensures Good(Next(s, Deliver(c)).value)
  {
    var s' := Next(s, Deliver(c)).value;
    assert ClientOk(s, c) && Linked(s, c);
    assert AnnouncedClients(s') == AnnouncedClients(s);
    Replying(s, c, 0);
    ForOne(0, Clean, 0);
    forall c' | 0 <= c' < |s'.phases| ensures ClientOk(s', c') && Linked(s', c') {
      LateCleanKeepsClients(s, c, c');
    }
  }

  /** The numbers below n. */
  ghost function Below(n: nat): (r: set<nat>)
    ensures |r| == n && forall x: nat :: x in r <==> x < n
  {
    if n == 0 then {} else Below(n - 1) + {n - 1}
  }

  /** Once every other client is done, client 0's CLIENT_DONE is the last. */
  lemma ClientZeroIsLast(s: Sys)
    requires Delivers(s, 0, ClientDone)
    ensures |s.service.doneQ| == |s.phases| - 1
  {
    hide For, History, Serve;
    var n, q := |s.phases|, s.service.doneQ;
    assert ClientOk(s, 0) && Linked(s, 0);
    forall c | 0 < c < n ensures c in q {
      assert ClientOk(s, c) && Linked(s, c);
    }
    MembersSize(q);
    assert Below(n) == Members(q) + {0};
  }

  lemma EarlyDoneIsGood(s: Sys, c: nat)
    requires Delivers(s, c, ClientDone) && |s.service.doneQ| + 1 != |s.phases|
    requires |s.service.doneQ| + 1 != |s.phases| - 1 || !s.service.cleanUpFlag
    ensures Good(Next(s, Deliver(c)).value)
  {
    var s' := Next(s, Deliver(c)).value;
    assert ClientOk(s, c) && Linked(s, c);
    if c == 0 {
      ClientZeroIsLast(s);
    }
    SilentDelivery(s, c);
    DistinctAppend(s.service.doneQ, c);
    assert AnnouncedClients(s') == AnnouncedClients(s);
    forall c' | 0 <= c' < |s'.phases| ensures ClientOk(s', c') && Linked(s', c') {
      assert ClientOk(s, c') && Linked(s, c');
    }
    forall k | 0 <= k < |s.phases| && Initialiser(|s.phases|, k) && !HasWaited(s, k) ensures !HasWaited(s', k) {
      assert ClientOk(s, k);
    }
  }

  /** The last of the other clients is done: client 0's remembered CLEAN_UP is answered. */
  ghost predicate LastButOne(s: Sys, c: nat) {
    Delivers(s, c, ClientDone) && |s.service.doneQ| + 1 == |s.phases| - 1 && s.service.cleanUpFlag
  }

  lemma LastButOneFacts(s: Sys, c: nat)
    requires LastButOne(s, c)
    ensures c != 0 && s.service.cleanUpPort == Some(0)
    ensures s.phases[0].AwaitClean? && s.outbox[0] == [] && s.inbox[0] == []
    ensures Distinct(s.service.doneQ + [c]) && 0 !in s.service.doneQ && c !in s.service.doneQ
  {
    var n, q := |s.phases|, s.service.doneQ + [c];
    assert ClientOk(s, c) && Linked(s, c);
    if c == 0 {
      ClientZeroIsLast(s);
    }
    DistinctAppend(s.service.doneQ, c);
    assert ClientOk(s, 0) && Linked(s, 0);
    assert !Done(s, c);
  }

  lemma LastButOneKeepsOthers(s: Sys, c: nat, c': nat)
    requires LastButOne(s, c) && 0 < c' < |s.phases|
    ensures ClientOk(Next(s, Deliver(c)).value, c') && Linked(Next(s, Deliver(c)).value, c')
  {
    hide For, Serve, ServiceOk;
    LastButOneListsOthers(s, c, c');
    LastButOneFacts(s, c);
    LastButOneSends(s, c, c');
    LastButOneSends(s, c, 0);
    SenderIs(s, c);
    assert ClientOk(s, c') && Linked(s, c');
    hide Good, Next, Serve;
  }

  lemma LastButOneListsOthers(s: Sys, c: nat, c': nat)
    requires LastButOne(s, c) && 0 < c' < |s.phases|
    ensures c' in s.service.doneQ + [c]
  {
    hide ClientOk, Linked, Serve, Next;
    LastButOneFacts(s, c);
    FullQueue(s.service.doneQ + [c], |s.phases|, {0}, c');
  }

  lemma LastButOneKeepsClientZero(s: Sys, c: nat)
    requires LastButOne(s, c)
    ensures ClientOk(Next(s, Deliver(c)).value, 0) && Linked(Next(s, Deliver(c)).value, 0)
  {
    LastButOneFacts(s, c);
    LastButOneSends(s, c, 0);
    assert ClientOk(s, c) && ClientOk(s, 0) && Linked(s, 0);
  }

  lemma LastButOneSends(s: Sys, c: nat, c': nat)
    requires LastButOne(s, c) && c' < |s.phases|
    ensures var s' := Next(s, Deliver(c)).value;
            var sent := if c' == 0 then [Clean] else [];
            && s'.inbox[c'] == s.inbox[c'] + sent && For(s'.log, c') == For(s.log, c') + sent
            && s'.phases == s.phases && s'.outbox == s.outbox[c := s.outbox[c][1..]]
            && s'.service == s.service.(doneQ := s.service.doneQ + [c])
  {
    hide For, History;
    LastButOneFacts(s, c);
    Replying(s, c, c');
    ForOne(0, Clean, c');
  }

  lemma LastButOneIsGood(s: Sys, c: nat)
    requires LastButOne(s, c)
    ensures Good(Next(s, Deliver(c)).value)
  {
    var s' := Next(s, Deliver(c)).value;
    LastButOneFacts(s, c);
    assert ClientOk(s, c) && Linked(s, 0) && ClientOk(s, 0);
    assert AnnouncedClients(s') == AnnouncedClients(s);
    Replying(s, c, 0);
    ForOne(0, Clean, 0);
    forall c' | 0 <= c' < |s'.phases| ensures ClientOk(s', c') && Linked(s', c') {
      if c' == 0 {
        LastButOneKeepsClientZero(s, c);
      } else {
        LastButOneKeepsOthers(s, c, c');
      }
    }
    forall k | 0 <= k < |s.phases| && Initialiser(|s.phases|, k) && !HasWaited(s, k) ensures !HasWaited(s', k) {
      assert ClientOk(s, k);
    }
  }

  /** The last client is done: all are dismissed. */
  ghost predicate Last(s: Sys, c: nat) {
    Delivers(s, c, ClientDone) && |s.service.doneQ| + 1 == |s.phases|
  }

  lemma LastFacts(s: Sys, c: nat)
    requires Last(s, c)
    ensures Distinct(s.service.doneQ + [c])
    ensures forall c' :: 0 <= c' < |s.phases| ==> c' in s.service.doneQ + [c]
    ensures (if c == 0 then Some(0) else s.service.client0) == Some(0)
    ensures Serve(|s.phases|, s.service, c, ClientDone) ==
            (s.service.(doneQ := [], client0 := Some(0)),
             ToOthers(s.service.doneQ + [c], Some(0), Bye) + [Reply(0, Bye)])
  {
    hide For, History;
    assert ClientOk(s, c);
    DistinctAppend(s.service.doneQ, c);
    forall c' | 0 <= c' < |s.phases| ensures c' in s.service.doneQ + [c] {
      FullQueue(s.service.doneQ + [c], |s.phases|, {}, c');
    }
    assert 0 in s.service.doneQ + [c];
  }

  lemma LastSends(s: Sys, c: nat, c': nat)
    requires Last(s, c) && c' < |s.phases|
    ensures var s' := Next(s, Deliver(c)).value;
            && s'.inbox[c'] == s.inbox[c'] + [Bye] && For(s'.log, c') == For(s.log, c') + [Bye]
            && s'.phases == s.phases && s'.outbox == s.outbox[c := s.outbox[c][1..]]
            && s'.service == s.service.(doneQ := [], client0 := Some(0))
  {
    hide For, History;
    var q := s.service.doneQ + [c];
    LastFacts(s, c);
    Replying(s, c, c');
    assert c' in q;
    hide Good, Serve;
    LastReplies(q, c');
  }

  lemma LastKeepsClients(s: Sys, c: nat, c': nat)
    requires Last(s, c) && c' < |s.phases|
    ensures ClientOk(Next(s, Deliver(c)).value, c') && Linked(Next(s, Deliver(c)).value, c')
    ensures Dismissed(Next(s, Deliver(c)).value, c')
  {
    hide For, ServiceOk, Serve;
    LastFacts(s, c);
    SenderIs(s, c);
    assert ClientOk(s, c') && Linked(s, c') && Linked(s, 0);
    assert c' in s.service.doneQ + [c];
    LastSends(s, c, c');
    LastDismissesZero(s, c);
    hide Good, Next;
  }

  lemma LastDismissesZero(s: Sys, c: nat)
    requires Last(s, c)
    ensures Dismissed(Next(s, Deliver(c)).value, 0)
  {
    hide For, ServiceOk, Serve, History, Linked;
    LastFacts(s, c);
    SenderIs(s, c);
    LastSends(s, c, 0);
    assert ClientOk(s, 0) && 0 in s.service.doneQ + [c];
    hide Good, Next;
  }

  lemma LastReplies(q: seq<nat>, c: nat)
    requires Distinct(q) && c in q
    ensures For(ToOthers(q, Some(0), Bye) + [Reply(0, Bye)], c) == [Bye]
  {
    ForAppend(ToOthers(q, Some(0), Bye), [Reply(0, Bye)], c);
    ForOthers(q, 0, Bye, c);
    ForOne(0, Bye, c);
  }

  lemma LastIsGood(s: Sys, c: nat)
    requires Last(s, c)
    ensures Good(Next(s, Deliver(c)).value)
  {
    var s' := Next(s, Deliver(c)).value;
    forall w | w in s.service.waitQ ensures w < |s.phases| && w !in s.service.doneQ + [c] {
      assert w < |s.phases| && ClientOk(s, w);
    }
    LastFacts(s, c);
    assert Members(s.service.waitQ) == {};
    MembersSize(s.service.waitQ);
    assert ClientOk(s, c) && ClientOk(s, 0);
    assert AnnouncedClients(s') == AnnouncedClients(s);
    forall c' | 0 <= c' < |s'.phases| ensures ClientOk(s', c') && Linked(s', c') && Dismissed(s', c') {
      LastKeepsClients(s, c, c');
    }
  }

  // ---------- runs ----------

  lemma NextIsGood(s: Sys, a: Action)
    requires Good(s) && Next(s, a).Some?
    ensures Good(Next(s, a).value)
  {
    match a
    case Wake(_) =>
      WakingKeepsService(s, a);
      forall c | 0 <= c < |s.phases| ensures ClientOk(Next(s, a).value, c) && Linked(Next(s, a).value, c) {
        WakingKeepsClients(s, a, c);
      }
    case Deliver(c) => DeliveryIsGood(s, c);
    case _ =>
      SendingKeepsService(s, a);
      forall c | 0 <= c < |s.phases| ensures ClientOk(Next(s, a).value, c) && Linked(Next(s, a).value, c) {
        SendingKeepsClients(s, a, c);
      }
  }

  lemma DeliveryIsGood(s: Sys, c: nat)
    requires Good(s) && c < |s.phases| && s.outbox[c] != []
    ensures Good(Next(s, Deliver(c)).value)
  {
    var n, m := |s.phases|, s.outbox[c][0];
    assert ClientOk(s, c);
    match m
    case InitDone => InitDoneIsGood(s, c);
    case WaitInit(_) =>
      if s.service.initCount == WaitCount(n) {
        FinalWaitIsGood(s, c);
      } else {
        EarlyWaitIsGood(s, c);
      }
    case CleanUp =>
      if |s.service.doneQ| == n - 1 {
        LateCleanIsGood(s, c);
      } else {
        EarlyCleanIsGood(s, c);
      }
    case ClientDone =>
      if |s.service.doneQ| + 1 == n {
        LastIsGood(s, c);
      } else if |s.service.doneQ| + 1 == n - 1 && s.service.cleanUpFlag {
        LastButOneIsGood(s, c);
      } else {
        EarlyDoneIsGood(s, c);
      }
  }

  lemma {:induction false} RunIsGood(s: Sys, actions: seq<Action>)
    requires Good(s) && Run(s, actions).Some?
    ensures Good(Run(s, actions).value)
    decreases |actions|
  {
    if actions == [] {
    } else {
      NextIsGood(s, actions[0]);
      RunIsGood(Next(s, actions[0]).value, actions[1..]);
    }
  }
}
