/** The memory both protocols promise: one flat store, every access atomic. */
module FlatMemory {
  import opened Base

  /** Contents by page and offset. */
  type Memory = seq<seq<int>>

  datatype Event =
    | LoadEvent(client: nat, page: nat, offset: nat, value: int)
    | StoreEvent(client: nat, page: nat, offset: nat, value: int)

  predicate InRange(mem: Memory, e: Event) {
    e.page < |mem| && e.offset < |mem[e.page]|
  }

  /** One access; a load that does not return the stored value is not an access of this memory. */
  function Access(mem: Memory, e: Event): Option<Memory> {
    if !InRange(mem, e) then None
    else if e.LoadEvent? then
      if mem[e.page][e.offset] == e.value then Some(mem) else None
    else
      Some(mem[e.page := mem[e.page][e.offset := e.value]])
  }

  /** The memory after a trace, or None when some load in it is wrong. */
  function Replay(mem: Memory, trace: seq<Event>): Option<Memory>
    decreases |trace|
  {
    if trace == [] then Some(mem)
    else
      match Access(mem, trace[0])
      case None => None
      case Some(mem') => Replay(mem', trace[1..])
  }

  /** A trace of n clients that a flat memory with contents mem admits. */
  ghost predicate Legal(n: nat, mem: Memory, trace: seq<Event>) {
    && Replay(mem, trace).Some?
    && forall i :: 0 <= i < |trace| ==> trace[i].client < n
  }

  lemma {:induction false} ReplayAppend(mem: Memory, t: seq<Event>, u: seq<Event>)
    ensures Replay(mem, t + u) ==
            match Replay(mem, t) case None => None case Some(mem') => Replay(mem', u)
    decreases |t|
  {
    if t == [] {
      assert t + u == u;
    } else {
      assert (t + u)[0] == t[0] && (t + u)[1..] == t[1..] + u;
      var next := Access(mem, t[0]);
      if next.Some? {
        ReplayAppend(next.value, t[1..], u);
      }
    }
  }
}
