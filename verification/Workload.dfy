/**
 The parallel matrix program on one flat memory: n clients, each between its
 barriers a sequence of single loads and stores, interleaved in any way with
 the others and with the barrier messages.  The contents the three matrices
 are filled with are a parameter.
 */
module Workload {
  import opened Base
  import opened Barrier
  import opened Matrix
  import opened Layout

  /** The result matrix and its two factors. */
  datatype Area = M | X | Y

  datatype Config = Config(n: nat, size: nat, m0: seq<int>, x0: seq<int>, y0: seq<int>)

  predicate ValidConfig(k: Config) {
    k.n > 0 && |k.m0| == k.size * k.size && |k.x0| == k.size * k.size && |k.y0| == k.size * k.size
  }

  function Cells(k: Config): nat {
    k.size * k.size
  }

  function Contents(k: Config, r: Area): (m: seq<int>)
    requires ValidConfig(k)
    ensures |m| == Cells(k)
  {
    match r case M => k.m0 case X => k.x0 case Y => k.y0
  }

  /** The pointers m, x and y: three matrices laid end to end. */
  function Place(k: Config, r: Area, i: nat): nat {
    Element(k.size, match r case M => 0 case X => 1 case Y => 2, i)
  }

  /** What each client fills before it announces itself. */
  function Jobs(n: nat, c: nat): seq<Area> {
    if n >= 3 then (if c == 0 then [X] else if c == 1 then [Y] else if c == 2 then [M] else [])
    else if c == 0 then [X, Y, M]
    else []
  }

  /**
   Where a client is between two barriers, with its loop variables.  Multiply's
   registers hold what the current turn of the inner loop has loaded so far.
   */
  datatype Pc =
    | Rest
    | Fill(job: nat, i: nat)
    | Multiply(i: nat, j: nat, pos1: nat, pos2: nat, regs: seq<int>)
    | Check(i: nat, worked: bool)

  function FillFrom(k: Config, c: nat, job: nat, i: nat): Pc {
    if Cells(k) == 0 || job >= |Jobs(k.n, c)| then Rest
    else if i < Cells(k) then Fill(job, i)
    else if job + 1 < |Jobs(k.n, c)| then Fill(job + 1, 0)
    else Rest
  }

  function MultiplyFrom(k: Config, c: nat, i: nat): Pc
    requires ValidConfig(k)
  {
    if i < StopIndex(c, k.n, k.size) && k.size > 0 then Multiply(i, 0, i - i % k.size, i % k.size, []) else Rest
  }

  datatype Want = Get(addr: nat) | Put(addr: nat, value: int)

  /** The next access of a client's program, if it is not at a barrier. */
  function Wants(k: Config, c: nat, pc: Pc): Option<Want>
    requires ValidConfig(k)
  {
    match pc
    case Rest => None
    case Fill(job, i) =>
      if job < |Jobs(k.n, c)| && i < Cells(k) then
        Some(Put(Place(k, Jobs(k.n, c)[job], i), Contents(k, Jobs(k.n, c)[job])[i]))
      else None
    case Multiply(i, j, pos1, pos2, regs) =>
      if |regs| == 0 then Some(Get(Place(k, M, i)))
      else if |regs| == 1 then Some(Get(Place(k, X, pos1)))
      else if |regs| == 2 then Some(Get(Place(k, Y, pos2)))
      else Some(Put(Place(k, M, i), regs[0] + regs[1] * regs[2]))
    case Check(i, _) =>
      if i < Cells(k) then Some(Get(Place(k, M, i))) else None
  }

  /** Where the program is after that access; v is the value loaded. */
  function After(k: Config, c: nat, pc: Pc, v: int): Pc
    requires ValidConfig(k)
  {
    match pc
    case Rest => Rest
    case Fill(job, i) => FillFrom(k, c, job, i + 1)
    case Multiply(i, j, pos1, pos2, regs) =>
      if |regs| < 3 then pc.(regs := regs + [v])
      else if j + 1 < k.size then Multiply(i, j + 1, pos1 + 1, pos2 + k.size, [])
      else MultiplyFrom(k, c, i + 1)
    case Check(i, worked) => Check(i + 1, worked && v == i)
  }

  /** Where the program goes on when a barrier lets it. */
  function Enter(k: Config, c: nat, ph: Phase, pc: Pc): Pc
    requires ValidConfig(k)
  {
    match ph
    case Working => MultiplyFrom(k, c, StartIndex(c, k.n, k.size))
    case Checking => Check(0, true)
    case _ => pc
  }

  datatype State = State(words: seq<int>, sync: Sys, pcs: seq<Pc>)

  datatype Step = Op(client: nat) | Sync(action: Action)

  /** The program sends this message only once the loops before it are over. */
  predicate NeedsRest(a: Action) {
    a.Announce? || a.AskClean? || a.Finish?
  }

  predicate MaySync(k: Config, sync: Sys, pcs: seq<Pc>, a: Action)
    requires ValidConfig(k)
  {
    a.client < |pcs| && (NeedsRest(a) ==> Wants(k, a.client, pcs[a.client]).None?)
  }

  function Resumed(k: Config, sync: Sys, pcs: seq<Pc>, a: Action): seq<Pc>
    requires ValidConfig(k) && a.client < |pcs| && a.client < |sync.phases|
  {
    var c := a.client;
    if a.Wake? then pcs[c := Enter(k, c, sync.phases[c], pcs[c])] else pcs
  }

  ghost predicate WFP(k: Config, s: State) {
    ValidConfig(k) && WFS(s.sync) && |s.sync.phases| == k.n && |s.pcs| == k.n
  }

  function Move(k: Config, s: State, st: Step): (r: Option<State>)
    requires WFP(k, s)
    ensures r.Some? ==> WFP(k, r.value) && |r.value.words| == |s.words|
  {
    match st
    case Op(c) =>
      if c >= k.n then None
      else (
        match Wants(k, c, s.pcs[c])
        case None => None
        case Some(Get(a)) =>
          if a < |s.words| then Some(s.(pcs := s.pcs[c := After(k, c, s.pcs[c], s.words[a])])) else None
        case Some(Put(a, v)) =>
          if a < |s.words| then Some(s.(words := s.words[a := v], pcs := s.pcs[c := After(k, c, s.pcs[c], v)]))
          else None
      )
    case Sync(a) =>
      if !MaySync(k, s.sync, s.pcs, a) then None
      else
        var next := Barrier.Next(s.sync, a);
        if next.None? then None
        else Some(s.(sync := next.value, pcs := Resumed(k, next.value, s.pcs, a)))
  }

  function Begin(k: Config, words: seq<int>): State {
    State(words, Barrier.Start(k.n), seq(k.n, c requires 0 <= c < k.n => FillFrom(k, c, 0, 0)))
  }

  function Execute(k: Config, s: State, steps: seq<Step>): (r: Option<State>)
    requires WFP(k, s)
    ensures r.Some? ==> WFP(k, r.value) && |r.value.words| == |s.words|
    decreases |steps|
  {
    if steps == [] then Some(s)
    else
      match Move(k, s, steps[0])
      case None => None
      case Some(s') => Execute(k, s', steps[1..])
  }

  // ---------- the invariant ----------

  function Filler(n: nat, r: Area): nat {
    if n >= 3 then (match r case X => 0 case Y => 1 case M => 2) else 0
  }

  function JobOf(n: nat, r: Area): nat {
    if n >= 3 then 0 else match r case X => 0 case Y => 1 case M => 2
  }

  /** Which client fills an area, and when, is no matter of choice. */
  lemma OneJobPerArea(n: nat, r: Area, c: nat, job: nat)
    requires n > 0
    ensures Filler(n, r) < WaitCount(n) <= n
    ensures job < |Jobs(n, c)| && Jobs(n, c)[job] == r <==> c == Filler(n, r) && job == JobOf(n, r)
  {
  }

  /** How many cells of an area hold what they are filled with. */
  function Filled(k: Config, s: State, r: Area): nat
    requires WFP(k, s)
  {
    OneJobPerArea(k.n, r, 0, 0);
    var pc, job := s.pcs[Filler(k.n, r)], JobOf(k.n, r);
    if pc.Fill? && pc.job <= job then (if pc.job == job then pc.i else 0) else Cells(k)
  }

  /** How many terms client c has added to its cell i. */
  function Depth(k: Config, s: State, c: nat, i: nat): nat
    requires WFP(k, s) && c < k.n
  {
    match s.sync.phases[c]
    case Preparing => 0
    case Ready => 0
    case AwaitStart => 0
    case Working =>
      var pc := s.pcs[c];
      if pc.Multiply? && pc.i <= i then (if pc.i == i then pc.j else 0) else k.size
    case _ => k.size
  }

  /** The value of result cell i after k terms, and in the end. */
  function Partial(k: Config, i: nat, depth: nat): int
    requires ValidConfig(k) && i < Cells(k) && depth <= k.size
  {
    k.m0[i] + DotAt(k.x0, k.y0, k.size, i, depth)
  }

  function Final(k: Config, i: nat): int
    requires ValidConfig(k) && i < Cells(k)
  {
    Partial(k, i, k.size)
  }

  ghost predicate CheckOk(k: Config, i: nat, worked: bool)
    requires ValidConfig(k)
  {
    i <= Cells(k) && (worked <==> forall t :: 0 <= t < i ==> Final(k, t) == t)
  }

  /** The registers hold what the specification says the cells contain. */
  ghost predicate MultiplyOk(k: Config, c: nat, pc: Pc)
    requires ValidConfig(k) && pc.Multiply?
  {
    && InSlice(pc.i, c, k.n, k.size) && pc.i < Cells(k) && pc.j < k.size
    && pc.pos1 == pc.i - pc.i % k.size + pc.j && pc.pos2 == pc.i % k.size + pc.j * k.size
    && pc.pos1 < Cells(k) && pc.pos2 < Cells(k)
    && |pc.regs| <= 3
    && (|pc.regs| > 0 ==> pc.regs[0] == Partial(k, pc.i, pc.j))
    && (|pc.regs| > 1 ==> pc.regs[1] == k.x0[pc.pos1])
    && (|pc.regs| > 2 ==> pc.regs[2] == k.y0[pc.pos2])
  }

  ghost predicate PcOk(k: Config, c: nat, ph: Phase, pc: Pc)
    requires ValidConfig(k)
  {
    match ph
    case Preparing => pc.Rest? || (pc.Fill? && pc.job < |Jobs(k.n, c)| && pc.i < Cells(k))
    case Working => pc.Rest? || (pc.Multiply? && MultiplyOk(k, c, pc))
    case Checking => pc.Check? && CheckOk(k, pc.i, pc.worked)
    case AwaitDone => if c == 0 then pc.Check? && pc.i == Cells(k) && CheckOk(k, pc.i, pc.worked) else pc.Rest?
    case Finished => if c == 0 then pc.Check? && pc.i == Cells(k) && CheckOk(k, pc.i, pc.worked) else pc.Rest?
    case _ => pc.Rest?
  }

  ghost predicate FactorOk(k: Config, s: State, r: Area)
    requires WFP(k, s) && |s.words| >= 3 * Cells(k)
  {
    forall i :: 0 <= i < Cells(k) && i < Filled(k, s, r) ==>
      Place(k, r, i) < |s.words| && s.words[Place(k, r, i)] == Contents(k, r)[i]
  }

  ghost predicate ResultOk(k: Config, s: State, c: nat)
    requires WFP(k, s) && c < k.n && |s.words| >= 3 * Cells(k)
  {
    forall i: nat :: InSlice(i, c, k.n, k.size) && i < Cells(k) && i < Filled(k, s, M) ==>
      && Depth(k, s, c, i) <= k.size
      && Place(k, M, i) < |s.words|
      && s.words[Place(k, M, i)] == Partial(k, i, Depth(k, s, c, i))
  }

  ghost predicate Inv(k: Config, s: State) {
    && WFP(k, s) && Good(s.sync) && |s.words| >= 3 * Cells(k)
    && (forall c :: 0 <= c < k.n ==> PcOk(k, c, s.sync.phases[c], s.pcs[c]))
    && FactorOk(k, s, X) && FactorOk(k, s, Y)
    && (forall c :: 0 <= c < k.n ==> ResultOk(k, s, c))
  }

  lemma PlaceInRange(k: Config, r: Area, i: nat)
    requires i < Cells(k)
    ensures Place(k, r, i) < 3 * Cells(k)
  {
  }

  /** Different cells have different places. */
  lemma PlacesApart(k: Config, r: Area, i: nat, r': Area, i': nat)
    requires i < Cells(k) && i' < Cells(k)
    ensures Place(k, r, i) == Place(k, r', i') <==> r == r' && i == i'
  {
  }

  lemma BeginIsInv(k: Config, words: seq<int>)
    requires ValidConfig(k) && |words| >= 3 * Cells(k)
    ensures Inv(k, Begin(k, words))
  {
    StartIsGood(k.n);
    var s := Begin(k, words);
    forall r ensures Filled(k, s, r) == 0 {
      OneJobPerArea(k.n, r, 0, 0);
    }
  }
}
