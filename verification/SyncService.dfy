/**
 The synchronisation service: one thread on client 0 that answers the start
 barrier, the clean-up request of client 0 and the final hand-shake.  A
 client's event port is named by its client number.
 */
module SyncService {
  import opened Base

  datatype Request =
    | InitDone
    | WaitInit(count: int)
    | ClientDone
    | CleanUp

  datatype Kind = Go | Clean | Bye

  /** Go answers WAIT_INIT (message INIT_DONE), Clean answers CLEAN_UP, Bye answers CLIENT_DONE. */
  datatype Reply = Reply(to: nat, kind: Kind)

  datatype Service = Service(initCount: int, waitQ: seq<nat>, doneQ: seq<nat>, client0: Option<nat>,
                             cleanUpFlag: bool, cleanUpPort: Option<nat>)

  const IDLE := Service(0, [], [], None, false, None)

  /** One reply of the given kind to each client of a queue, in queue order. */
  function ToAll(q: seq<nat>, kind: Kind): seq<Reply> {
    if q == [] then [] else [Reply(q[0], kind)] + ToAll(q[1..], kind)
  }

  /** As ToAll, leaving out one client. */
  function ToOthers(q: seq<nat>, except: Option<nat>, kind: Kind): seq<Reply> {
    if q == [] then []
    else (if Some(q[0]) != except then [Reply(q[0], kind)] else []) + ToOthers(q[1..], except, kind)
  }

  function ToOne(port: Option<nat>, kind: Kind): seq<Reply> {
    if port.Some? then [Reply(port.value, kind)] else []
  }

  /** What the service makes of a message, and the replies it sends, in order. */
  function Serve(n: nat, s: Service, from: nat, m: Request): (Service, seq<Reply>) {
    match m
    case InitDone => (s.(initCount := s.initCount + 1), [])
    case WaitInit(count) =>
      var queued := s.(waitQ := s.waitQ + [from]);
      if s.initCount == count then (queued.(waitQ := []), ToAll(queued.waitQ, Go)) else (queued, [])
    case ClientDone =>
      var queued := s.(doneQ := s.doneQ + [from], client0 := if from == 0 then Some(from) else s.client0);
      if |queued.doneQ| == n then
        (queued.(doneQ := []), ToOthers(queued.doneQ, queued.client0, Bye) + ToOne(queued.client0, Bye))
      else if |queued.doneQ| == n - 1 && s.cleanUpFlag then (queued, ToOne(s.cleanUpPort, Clean))
      else (queued, [])
    case CleanUp =>
      if |s.doneQ| == n - 1 then (s.(cleanUpPort := Some(from)), [Reply(from, Clean)])
      else if !s.cleanUpFlag then (s.(cleanUpFlag := true, cleanUpPort := Some(from)), [])
      else (s, [])
  }

  /** The thread's own state, updated in place by each message it receives. */
  class SyncThread {
    const clientCount: nat
    var initCount: int
    var waitQ: seq<nat>
    var doneQ: seq<nat>
    var client0: Option<nat>
    var cleanUpFlag: bool
    var cleanUpPort: Option<nat>

    constructor (clientCount: nat)
      ensures this.clientCount == clientCount && View() == IDLE
    {
      this.clientCount := clientCount;
      initCount, waitQ, doneQ, client0, cleanUpFlag, cleanUpPort := 0, [], [], None, false, None;
    }

    function View(): Service
      reads this
    {
      Service(initCount, waitQ, doneQ, client0, cleanUpFlag, cleanUpPort)
    }

    /** One turn of the receive loop. */
    method Receive(from: nat, m: Request) returns (sent: seq<Reply>)
      modifies this
      ensures (View(), sent) == Serve(clientCount, old(View()), from, m)
    {
      sent := [];
      match m
      case InitDone =>
        initCount := initCount + 1;
      case WaitInit(count) =>
        waitQ := waitQ + [from];
        if initCount == count {
          sent := ReleaseWaiters();
        }
      case ClientDone =>
        doneQ := doneQ + [from];
        if from == 0 {
          client0 := Some(from);
        }
        if |doneQ| == clientCount {
          sent := DismissAll();
        } else if |doneQ| == clientCount - 1 && cleanUpFlag {
          sent := ToOne(cleanUpPort, Clean);
        }
      case CleanUp =>
        if |doneQ| == clientCount - 1 {
          cleanUpPort := Some(from);
          sent := [Reply(from, Clean)];
        } else if !cleanUpFlag {
          cleanUpFlag := true;
          cleanUpPort := Some(from);
        }
    }

    /** The loop that answers every waiting client. */
    method ReleaseWaiters() returns (sent: seq<Reply>)
      modifies this`waitQ
      ensures waitQ == [] && sent == ToAll(old(waitQ), Go)
    {
      sent := [];
      while waitQ != []
        invariant sent + ToAll(waitQ, Go) == ToAll(old(waitQ), Go)
        decreases |waitQ|
      {
        var c := waitQ[0];
        waitQ := waitQ[1..];
        sent := sent + [Reply(c, Go)];
      }
    }

    /** The loop that answers every client that is done, client 0 last. */
    method DismissAll() returns (sent: seq<Reply>)
      modifies this`doneQ
      ensures doneQ == [] && sent == ToOthers(old(doneQ), client0, Bye) + ToOne(client0, Bye)
    {
      sent := [];
      while doneQ != []
        invariant sent + ToOthers(doneQ, client0, Bye) == ToOthers(old(doneQ), client0, Bye)
        decreases |doneQ|
      {
        var c := doneQ[0];
        doneQ := doneQ[1..];
        if Some(c) != client0 {
          sent := sent + [Reply(c, Bye)];
        }
      }
      sent := sent + ToOne(client0, Bye);
    }
  }
}
