/**
 The clients of the matrix program and the synchronisation service: what each
 client sends and awaits, in any interleaving that keeps each sender's messages
 in order.
 */
module Barrier {
  import opened Base
  import opened SyncService

  /**
   Where a client is in its program.  Preparing: an initialiser that has not
   sent INIT_DONE.  Ready: about to send WAIT_INIT.  Working: in the
   multiplication.  Checking: client 0 looking at the result.
   */
  datatype Phase = Preparing | Ready | AwaitStart | Working | AwaitClean | Checking | AwaitDone | Finished

  /**
   outbox: messages sent and not yet received by the service; inbox: replies sent and not yet
   received; log: all replies ever sent.
   */
  datatype Sys = Sys(service: Service, phases: seq<Phase>, outbox: seq<seq<Request>>, inbox: seq<seq<Kind>>,
                     log: seq<Reply>)

  datatype Action =
    | Announce(client: nat)
    | Await(client: nat)
    | AskClean(client: nat)
    | Finish(client: nat)
    | Deliver(client: nat)
    | Wake(client: nat)

  function WaitCount(n: nat): nat {
    if n >= 3 then 3 else 1
  }

  /** Clients 0, 1 and 2 share the initialisation if there are so many, else client 0 does it alone. */
  predicate Initialiser(n: nat, c: nat) {
    c < WaitCount(n)
  }

  function Start(n: nat): Sys {
    Sys(IDLE, seq(n, c requires 0 <= c < n => if Initialiser(n, c) then Preparing else Ready), seq(n, c => []),
        seq(n, c => []), [])
  }

  ghost predicate WFS(s: Sys) {
    |s.phases| > 0 && |s.outbox| == |s.phases| && |s.inbox| == |s.phases|
  }

  function Send(s: Sys, c: nat, m: Request, ph: Phase): Sys
    requires c < |s.phases| && c < |s.outbox|
  {
    s.(phases := s.phases[c := ph], outbox := s.outbox[c := s.outbox[c] + [m]])
  }

  /** The replies of a list that go to client c. */
  function For(replies: seq<Reply>, c: nat): seq<Kind> {
    if replies == [] then []
    else (if replies[0].to == c then [replies[0].kind] else []) + For(replies[1..], c)
  }

  function Woken(ph: Phase): Phase {
    match ph
    case AwaitStart => Working
    case AwaitClean => Checking
    case AwaitDone => Finished
    case _ => ph
  }

  predicate Awaiting(ph: Phase) {
    ph.AwaitStart? || ph.AwaitClean? || ph.AwaitDone?
  }

  function Next(s: Sys, a: Action): (r: Option<Sys>)
    requires WFS(s)
    ensures r.Some? ==> WFS(r.value) && |r.value.phases| == |s.phases|
  {
    var c, n := a.client, |s.phases|;
    if c >= n then None
    else
      match a
      case Announce(_) => if s.phases[c].Preparing? then Some(Send(s, c, InitDone, Ready)) else None
      case Await(_) => if s.phases[c].Ready? then Some(Send(s, c, WaitInit(WaitCount(n)), AwaitStart)) else None
      case AskClean(_) => if c == 0 && s.phases[c].Working? then Some(Send(s, c, CleanUp, AwaitClean)) else None
      case Finish(_) =>
        if (if c == 0 then s.phases[c].Checking? else s.phases[c].Working?)
        then Some(Send(s, c, ClientDone, AwaitDone)) else None
      case Deliver(_) =>
        if s.outbox[c] == [] then None
        else
          var (service, replies) := Serve(n, s.service, c, s.outbox[c][0]);
          Some(Sys(service, s.phases, s.outbox[c := s.outbox[c][1..]],
                   seq(n, i requires 0 <= i < n => s.inbox[i] + For(replies, i)), s.log + replies))
      case Wake(_) =>
        if Awaiting(s.phases[c]) && s.inbox[c] != [] then
          Some(s.(phases := s.phases[c := Woken(s.phases[c])], inbox := s.inbox[c := s.inbox[c][1..]]))
        else None
  }

  function Run(s: Sys, actions: seq<Action>): (r: Option<Sys>)
    requires WFS(s)
    ensures r.Some? ==> WFS(r.value) && |r.value.phases| == |s.phases|
    decreases |actions|
  {
    if actions == [] then Some(s)
    else
      match Next(s, actions[0])
      case None => None
      case Some(s') => Run(s', actions[1..])
  }

  // ---------- the invariant ----------

  /** The service has been told that c has prepared its part. */
  predicate Announced(s: Sys, c: nat)
    requires WFS(s) && c < |s.phases|
  {
    Initialiser(|s.phases|, c) && !s.phases[c].Preparing? && InitDone !in s.outbox[c]
  }

  ghost function AnnouncedClients(s: Sys): set<nat>
    requires WFS(s)
  {
    set c: nat | c < |s.phases| && Announced(s, c)
  }

  /** The service has received c's WAIT_INIT. */
  predicate HasWaited(s: Sys, c: nat)
    requires WFS(s) && c < |s.phases|
  {
    !s.phases[c].Preparing? && !s.phases[c].Ready? && (s.phases[c].AwaitStart? ==> s.outbox[c] == [])
  }

  /** c's start barrier has been answered. */
  predicate Released(s: Sys, c: nat)
    requires WFS(s) && c < |s.phases|
  {
    match s.phases[c]
    case Preparing => false
    case Ready => false
    case AwaitStart => s.inbox[c] != []
    case _ => true
  }

  /** c's CLIENT_DONE has been answered. */
  predicate Dismissed(s: Sys, c: nat)
    requires WFS(s) && c < |s.phases|
  {
    s.phases[c].Finished? || (s.phases[c].AwaitDone? && s.inbox[c] != [])
  }

  /** The service has received c's CLIENT_DONE. */
  predicate Done(s: Sys, c: nat)
    requires WFS(s) && c < |s.phases|
  {
    s.phases[c].Finished? || (s.phases[c].AwaitDone? && s.outbox[c] == [])
  }

  /** Client 0's CLEAN_UP has been answered. */
  predicate Cleaned(s: Sys)
    requires WFS(s)
  {
    || s.phases[0].Checking? || s.phases[0].AwaitDone? || s.phases[0].Finished?
    || (s.phases[0].AwaitClean? && s.inbox[0] != [])
  }

  /** The replies client c must have been sent by now, in order. */
  function History(s: Sys, c: nat): seq<Kind>
    requires WFS(s) && c < |s.phases|
  {
    var worked := if c == 0 then [Go, Clean] else [Go];
    match s.phases[c]
    case Preparing => []
    case Ready => []
    case AwaitStart => s.inbox[c]
    case Working => [Go]
    case AwaitClean => [Go] + s.inbox[c]
    case Checking => [Go, Clean]
    case AwaitDone => worked + s.inbox[c]
    case Finished => worked + [Bye]
  }

  /** A client's phase, messages and places in the service's queues fit together. */
  ghost predicate ClientOk(s: Sys, c: nat)
    requires WFS(s) && c < |s.phases|
  {
    var n, out, mail := |s.phases|, s.outbox[c], s.inbox[c];
    var waits, done := c in s.service.waitQ, c in s.service.doneQ;
    && For(s.log, c) == History(s, c)
    && match s.phases[c]
       case Preparing => Initialiser(n, c) && out == [] && mail == [] && !waits && !done
       case Ready => (out == [] || (Initialiser(n, c) && out == [InitDone])) && mail == [] && !waits && !done
       case AwaitStart =>
         && !done
         && (|| (Initialiser(n, c) && out == [InitDone, WaitInit(WaitCount(n))] && mail == [] && !waits)
             || (out == [WaitInit(WaitCount(n))] && mail == [] && !waits)
             || (out == [] && mail == [] && waits)
             || (out == [] && mail == [Go] && !waits))
       case Working => out == [] && mail == [] && !waits && !done
       case AwaitClean =>
         && c == 0 && !waits && !done
         && (|| (out == [CleanUp] && mail == [])
             || (out == [] && mail == [] && s.service.cleanUpFlag && s.service.cleanUpPort == Some(0)
                 && |s.service.doneQ| < n - 1)
             || (out == [] && mail == [Clean]))
       case Checking => c == 0 && out == [] && mail == [] && !waits && !done
       case AwaitDone =>
         && !waits
         && (|| (out == [ClientDone] && mail == [] && !done)
             || (out == [] && mail == [] && done)
             || (out == [] && mail == [Bye] && !done))
       case Finished => out == [] && mail == [] && !waits && !done
  }

  /** What a client's progress says about the service and the other clients. */
  ghost predicate Linked(s: Sys, c: nat)
    requires WFS(s) && c < |s.phases|
  {
    && (Released(s, c) ==> s.service.initCount == WaitCount(|s.phases|))
    && (Cleaned(s) && c != 0 ==> Done(s, c))
    && (Dismissed(s, c) <==> Dismissed(s, 0))
  }

  ghost predicate QueueOk(q: seq<nat>, n: nat) {
    Distinct(q) && forall i :: 0 <= i < |q| ==> q[i] < n
  }

  /** The service's state and the clients' phases fit together. */
  ghost predicate ServiceOk(s: Sys)
    requires WFS(s)
  {
    var n, v := |s.phases|, s.service;
    && QueueOk(v.waitQ, n) && QueueOk(v.doneQ, n) && |v.doneQ| < n
    && v.initCount == |AnnouncedClients(s)|
    && (v.waitQ != [] ==> exists k :: 0 <= k < n && Initialiser(n, k) && !HasWaited(s, k))
    && (0 in v.doneQ ==> v.client0 == Some(0)) && (v.client0.Some? ==> v.client0 == Some(0))
    && (v.cleanUpFlag ==> v.cleanUpPort == Some(0) && HasAskedClean(s))
    && (Dismissed(s, 0) ==> s.log != [] && s.log[|s.log| - 1] == Reply(0, Bye))
  }

  /** The service has received client 0's CLEAN_UP. */
  predicate HasAskedClean(s: Sys)
    requires WFS(s)
  {
    Cleaned(s) || (s.phases[0].AwaitClean? && s.outbox[0] == [])
  }

  ghost predicate Good(s: Sys) {
    WFS(s) && ServiceOk(s) && forall c :: 0 <= c < |s.phases| ==> ClientOk(s, c) && Linked(s, c)
  }

  lemma StartIsGood(n: nat)
    requires n > 0
    ensures Good(Start(n))
  {
    assert AnnouncedClients(Start(n)) == {};
  }

  // ---------- queues and counts ----------

  ghost function Members(q: seq<nat>): set<nat> {
    set x | x in q
  }

  lemma {:induction false} MembersSize(q: seq<nat>)
    requires Distinct(q)
    ensures |Members(q)| == |q|
  {
    if q == [] {
      assert Members(q) == {};
    } else {
      MembersSize(q[1..]);
      assert q[0] !in q[1..];
      assert Members(q) == Members(q[1..]) + {q[0]};
    }
  }

  /** A queue of n - |missing| distinct clients lists every client not missing. */
  lemma FullQueue(q: seq<nat>, n: nat, missing: set<nat>, c: nat)
    requires QueueOk(q, n) && c < n && c !in missing
    requires forall x :: x in missing ==> x < n && x !in q
    requires |q| + |missing| >= n
    ensures c in q
  {
    MembersSize(q);
    if c !in q {
      var all := Members(q) + missing + {c};
      assert |Members(q) + missing| == |Members(q)| + |missing|;
      BoundedSetSize(all, n);
    }
  }

  lemma {:induction false} ForAppend(a: seq<Reply>, b: seq<Reply>, c: nat)
    ensures For(a + b, c) == For(a, c) + For(b, c)
  {
    if a == [] {
      assert a + b == b;
    } else {
      assert (a + b)[0] == a[0] && (a + b)[1..] == a[1..] + b;
      ForAppend(a[1..], b, c);
    }
  }

  lemma {:induction false} ForAll(q: seq<nat>, kind: Kind, c: nat)
    requires Distinct(q)
    ensures For(ToAll(q, kind), c) == if c in q then [kind] else []
  {
    if q == [] {
    } else {
      ForAll(q[1..], kind, c);
      assert q[0] !in q[1..];
      assert ToAll(q, kind)[1..] == ToAll(q[1..], kind);
    }
  }

  lemma {:induction false} ForOthers(q: seq<nat>, except: nat, kind: Kind, c: nat)
    requires Distinct(q)
    ensures For(ToOthers(q, Some(except), kind), c) == if c in q && c != except then [kind] else []
  {
    if q == [] {
    } else {
      ForOthers(q[1..], except, kind, c);
      assert q[0] !in q[1..];
      if q[0] != except {
        assert ToOthers(q, Some(except), kind)[1..] == ToOthers(q[1..], Some(except), kind);
      } else {
        assert ToOthers(q, Some(except), kind) == ToOthers(q[1..], Some(except), kind);
      }
    }
  }

  lemma ForOne(c: nat, kind: Kind, c': nat)
    ensures For([Reply(c, kind)], c') == if c' == c then [kind] else []
  {
    assert [Reply(c, kind)][1..] == [];
  }
}
