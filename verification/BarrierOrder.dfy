/** Why the start barrier needs each initialiser to announce itself before it waits: the order of messages decides. */
module BarrierOrder {
  import opened SyncService
  import opened Barrier

  datatype Message = Message(from: nat, request: Request)

  /** What the service makes of a sequence of messages, and its replies to them. */
  function Receives(n: nat, s: Service, ms: seq<Message>): (Service, seq<Reply>)
    decreases |ms|
  {
    if ms == [] then (s, [])
    else
      var (s1, r1) := Serve(n, s, ms[0].from, ms[0].request);
      var (s2, r2) := Receives(n, s1, ms[1..]);
      (s2, r1 + r2)
  }

  lemma {:induction false} ReceivesAppend(n: nat, s: Service, t: seq<Message>, u: seq<Message>)
    ensures var (s1, r1) := Receives(n, s, t);
            var (s2, r2) := Receives(n, s1, u);
            Receives(n, s, t + u) == (s2, r1 + r2)
    decreases |t|
  {
    if t == [] {
      assert t + u == u;
      assert [] + Receives(n, s, u).1 == Receives(n, s, u).1;
    } else {
      assert (t + u)[0] == t[0] && (t + u)[1..] == t[1..] + u;
      var (s', r) := Serve(n, s, t[0].from, t[0].request);
      ReceivesAppend(n, s', t[1..], u);
      var (s1, r1) := Receives(n, s', t[1..]);
      assert r + (r1 + Receives(n, s1, u).1) == r + r1 + Receives(n, s1, u).1;
    }
  }

  function Announcements(ms: seq<Message>): nat {
    if ms == [] then 0 else (if ms[0].request.InitDone? then 1 else 0) + Announcements(ms[1..])
  }

  /** How often client c waits. */
  function Waits(ms: seq<Message>, c: nat): nat {
    if ms == [] then 0 else (if ms[0].request.WaitInit? && ms[0].from == c then 1 else 0) + Waits(ms[1..], c)
  }

  /** The messages are those of a start barrier of w announcements. */
  ghost predicate StartMessages(ms: seq<Message>, w: int) {
    forall i :: 0 <= i < |ms| ==> ms[i].request == InitDone || ms[i].request == WaitInit(w)
  }

  function Count(q: seq<nat>, c: nat): nat {
    if q == [] then 0 else (if q[0] == c then 1 else 0) + Count(q[1..], c)
  }

  function Gos(k: nat): seq<Kind> {
    seq(k, i => Go)
  }

  lemma {:induction false} CountAppend(q: seq<nat>, r: seq<nat>, c: nat)
    ensures Count(q + r, c) == Count(q, c) + Count(r, c)
  {
    if q == [] {
      assert q + r == r;
    } else {
      assert (q + r)[0] == q[0] && (q + r)[1..] == q[1..] + r;
      CountAppend(q[1..], r, c);
    }
  }

  lemma {:induction false} AllReleased(q: seq<nat>, c: nat)
    ensures For(ToAll(q, Go), c) == Gos(Count(q, c))
  {
    if q == [] {
    } else {
      assert ToAll(q, Go)[1..] == ToAll(q[1..], Go);
      AllReleased(q[1..], c);
    }
  }

  /** Every WAIT_INIT is answered or still queued, and before the last announcement none is answered. */
  lemma {:induction false} WaitsAccounted(n: nat, s: Service, ms: seq<Message>, w: int, c: nat) returns (k: nat)
    requires StartMessages(ms, w)
    ensures var (s', log) := Receives(n, s, ms);
            && s'.initCount == s.initCount + Announcements(ms)
            && For(log, c) == Gos(k)
            && k + Count(s'.waitQ, c) == Count(s.waitQ, c) + Waits(ms, c)
            && (s.initCount + Announcements(ms) < w ==> log == [])
    decreases |ms|
  {
    if ms == [] {
      k := 0;
    } else {
      var (s1, r1) := Serve(n, s, ms[0].from, ms[0].request);
      var rest := WaitsAccounted(n, s1, ms[1..], w, c);
      ForAppend(r1, Receives(n, s1, ms[1..]).1, c);
      if ms[0].request.WaitInit? {
        var q := s.waitQ + [ms[0].from];
        CountAppend(s.waitQ, [ms[0].from], c);
        AllReleased(q, c);
        assert Count([ms[0].from], c) == if ms[0].from == c then 1 else 0;
        k := rest + if s.initCount == w then Count(q, c) else 0;
      } else {
        k := rest;
      }
    }
  }

  lemma {:induction false} CountsAppend(t: seq<Message>, u: seq<Message>)
    ensures Announcements(t + u) == Announcements(t) + Announcements(u)
  {
    if t == [] {
      assert t + u == u;
    } else {
      assert (t + u)[0] == t[0] && (t + u)[1..] == t[1..] + u;
      CountsAppend(t[1..], u);
    }
  }

  /**
   Exactly when a start barrier releases everybody: w announcements and one
   WAIT_INIT(w) from each client, in any order, release every client, each
   once, if and only if a WAIT_INIT comes last.
   */
  lemma StartBarrierExactly(n: nat, w: nat, ms: seq<Message>)
    requires n > 0 && StartMessages(ms, w) && Announcements(ms) == w
    requires forall c :: 0 <= c < n ==> Waits(ms, c) == 1
    ensures ms != []
    ensures (forall c :: 0 <= c < n ==> For(Receives(n, IDLE, ms).1, c) == [Go]) <==> ms[|ms| - 1].request.WaitInit?
  {
    assert Waits(ms, 0) == 1;
    var first, last := ms[..|ms| - 1], ms[|ms| - 1];
    assert ms == first + [last] && [last][1..] == [];
    CountsAppend(first, [last]);
    ReceivesAppend(n, IDLE, first, [last]);
    assert forall i :: 0 <= i < |first| ==> first[i] == ms[i];
    if last.request.WaitInit? {
      var _ := WaitsAccounted(n, IDLE, first, w, 0);
      assert Receives(n, IDLE, ms).0.waitQ == [];
      forall c | 0 <= c < n ensures For(Receives(n, IDLE, ms).1, c) == [Go] {
        var k := WaitsAccounted(n, IDLE, ms, w, c);
        assert k == 1 && Gos(1) == [Go];
      }
    } else {
      var _ := WaitsAccounted(n, IDLE, first, w, 0);
      assert Receives(n, IDLE, ms).1 == [];
      assert For(Receives(n, IDLE, ms).1, 0) == [];
    }
  }
}
