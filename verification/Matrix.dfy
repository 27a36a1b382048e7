/** The square matrices of the program, stored row after row, and the loops over them. */
module Matrix {
  import opened Arithmetic

  lemma CellInRange(side: nat, r: nat, c: nat)
    requires r < side && c < side
    ensures r * side + c < side * side
  {
    MulMonotone(r + 1, side, side);
  }

  lemma CellOf(side: nat, i: nat)
    requires i < side * side
    ensures side > 0 && i / side < side && i == i / side * side + i % side
  {
    DivBelow(i, side, side);
  }

  /** The first k terms of the product of row r of a and column c of b. */
  function Dot(a: seq<int>, b: seq<int>, side: nat, r: nat, c: nat, k: nat): int
    requires |a| == side * side && |b| == side * side && r < side && c < side && k <= side
  {
    if k == 0 then 0
    else
      CellInRange(side, r, k - 1);
      CellInRange(side, k - 1, c);
      Dot(a, b, side, r, c, k - 1) + a[r * side + (k - 1)] * b[(k - 1) * side + c]
  }

  /** The same for the cell at position i. */
  function DotAt(a: seq<int>, b: seq<int>, side: nat, i: nat, k: nat): int
    requires |a| == side * side && |b| == side * side && i < side * side && k <= side
  {
    CellOf(side, i);
    Dot(a, b, side, i / side, i % side, k)
  }

  /** The strided positions are the next cell of the row and of the column. */
  lemma NextTerm(a: seq<int>, b: seq<int>, side: nat, i: nat, j: nat)
    requires |a| == side * side && |b| == side * side && i < side * side && j < side
    ensures 0 <= i - i % side + j < side * side && 0 <= i % side + j * side < side * side
    ensures DotAt(a, b, side, i, j + 1) == DotAt(a, b, side, i, j) + a[i - i % side + j] * b[i % side + j * side]
  {
    CellOf(side, i);
    CellInRange(side, i / side, j);
    CellInRange(side, j, i % side);
  }

  // ---------- the fills ----------

  function Easy(side: nat): (m: seq<int>)
    ensures |m| == side * side
  {
    seq(side * side, i => i)
  }

  function Zero(side: nat): (m: seq<int>)
    ensures |m| == side * side
  {
    seq(side * side, i => 0)
  }

  /** What fill_identity writes at position i. */
  function IdentityCell(side: nat, i: nat): int {
    if i % (side + 1) != 0 then 0 else 1
  }

  function Identity(side: nat): (m: seq<int>)
    ensures |m| == side * side
  {
    seq(side * side, i requires i >= 0 => IdentityCell(side, i))
  }

  /** The test by remainder finds exactly the diagonal. */
  lemma DiagonalByModulus(side: nat, i: nat)
    requires i < side * side
    ensures side > 0
    ensures i % (side + 1) == 0 <==> i / side == i % side
  {
    CellOf(side, i);
    var r, c := i / side, i % side;
    if c >= r {
      assert i == r * (side + 1) + (c - r);
      DivModUnique(i, side + 1, r, c - r);
    } else {
      assert i == (r - 1) * (side + 1) + (side + 1 + c - r);
      DivModUnique(i, side + 1, r - 1, side + 1 + c - r);
    }
  }

  lemma IdentityByRowAndColumn(side: nat, r: nat, c: nat)
    requires r < side && c < side
    ensures r * side + c < side * side
    ensures Identity(side)[r * side + c] == if r == c then 1 else 0
  {
    CellInRange(side, r, c);
    DivModUnique(r * side + c, side, r, c);
    DiagonalByModulus(side, r * side + c);
  }

  /** The product with the identity collects the one term on the diagonal. */
  lemma {:induction false} DotWithIdentity(a: seq<int>, side: nat, r: nat, c: nat, k: nat)
    requires |a| == side * side && r < side && c < side && k <= side
    ensures r * side + c < side * side
    ensures Dot(a, Identity(side), side, r, c, k) == if c < k then a[r * side + c] else 0
  {
    CellInRange(side, r, c);
    if k == 0 {
    } else {
      DotWithIdentity(a, side, r, c, k - 1);
      CellInRange(side, r, k - 1);
      IdentityByRowAndColumn(side, k - 1, c);
    }
  }

  /** Multiplying any matrix by what fill_identity writes gives that matrix back. */
  lemma IdentityIsNeutral(a: seq<int>, side: nat, i: nat)
    requires |a| == side * side && i < side * side
    ensures side >= 0 && DotAt(a, Identity(side), side, i, side) == a[i]
  {
    CellOf(side, i);
    DotWithIdentity(a, side, i / side, i % side, side);
  }

  method FillEasy(m: array<int>, sizeX: nat, sizeY: nat)
    requires m.Length == sizeX * sizeY
    modifies m
    ensures forall i :: 0 <= i < m.Length ==> m[i] == i
  {
    for i := 0 to sizeX * sizeY
      invariant forall k :: 0 <= k < i ==> m[k] == k
    {
      m[i] := i;
    }
  }

  method FillZero(m: array<int>, sizeX: nat, sizeY: nat)
    requires m.Length == sizeX * sizeY
    modifies m
    ensures forall i :: 0 <= i < m.Length ==> m[i] == 0
  {
    for i := 0 to sizeX * sizeY
      invariant forall k :: 0 <= k < i ==> m[k] == 0
    {
      m[i] := 0;
    }
  }

  /** Writes the identity matrix, stated by row and column. */
  method FillIdentity(m: array<int>, side: nat)
    requires m.Length == side * side
    modifies m
    ensures m[..] == Identity(side)
    ensures forall i :: 0 <= i < m.Length ==> side > 0 && m[i] == if i / side == i % side then 1 else 0
  {
    for i := 0 to side * side
      invariant forall k :: 0 <= k < i ==> m[k] == IdentityCell(side, k)
    {
      if i % (side + 1) != 0 {
        m[i] := 0;
      } else {
        m[i] := 1;
      }
    }
    forall i | 0 <= i < m.Length ensures side > 0 && m[i] == if i / side == i % side then 1 else 0 {
      DiagonalByModulus(side, i);
    }
  }

  // ---------- the multiplication ----------

  /**
   The cell at i after k turns of the inner loop.  A factor that is the result
   itself is read as it is by then, which matters where the row or the column
   meets the cell.
   */
  ghost function Accumulated(x: seq<int>, y: seq<int>, side: nat, i: nat, k: nat, inX: bool, inY: bool, v: int): int
    requires |x| == side * side && |y| == side * side && i < side * side && k <= side
  {
    if k == 0 then v
    else
      NextTerm(x, y, side, i, k - 1);
      var acc := Accumulated(x, y, side, i, k - 1, inX, inY, v);
      var pos1, pos2 := i - i % side + (k - 1), i % side + (k - 1) * side;
      acc + (if inX && pos1 == i then acc else x[pos1]) * (if inY && pos2 == i then acc else y[pos2])
  }

  lemma AccumulatedNext(x: seq<int>, y: seq<int>, side: nat, i: nat, k: nat, inX: bool, inY: bool, v: int)
    requires |x| == side * side && |y| == side * side && i < side * side && k < side
    ensures Accumulated(x, y, side, i, 0, inX, inY, v) == v
    ensures 0 <= i - i % side + k < side * side && 0 <= i % side + k * side < side * side
    ensures var acc, pos1, pos2 := Accumulated(x, y, side, i, k, inX, inY, v), i - i % side + k, i % side + k * side;
            Accumulated(x, y, side, i, k + 1, inX, inY, v) ==
            acc + (if inX && pos1 == i then acc else x[pos1]) * (if inY && pos2 == i then acc else y[pos2])
  {
    NextTerm(x, y, side, i, k);
  }

  /** With the result apart from both factors the terms add up to the product of row and column. */
  lemma {:induction false} AccumulatedApart(x: seq<int>, y: seq<int>, side: nat, i: nat, k: nat, v: int)
    requires |x| == side * side && |y| == side * side && i < side * side && k <= side
    ensures Accumulated(x, y, side, i, k, false, false, v) == v + DotAt(x, y, side, i, k)
  {
    if k == 0 {
      NoTerms(x, y, side, i);
    } else {
      AccumulatedApart(x, y, side, i, k - 1, v);
      NextTerm(x, y, side, i, k - 1);
    }
  }

  /** The result after the cells of [start, i), each computed with what the ones before it have left in the factors. */
  ghost function InPlace(was: seq<int>, x: seq<int>, y: seq<int>, side: nat, start: nat, i: nat, inX: bool, inY: bool)
    : (r: seq<int>)
    requires |was| == side * side && |x| == side * side && |y| == side * side && i <= |was|
    ensures |r| == |was|
  {
    if i <= start then was
    else
      var now := InPlace(was, x, y, side, start, i - 1, inX, inY);
      var x', y' := if inX then now else x, if inY then now else y;
      now[i - 1 := Accumulated(x', y', side, i - 1, side, inX, inY, now[i - 1])]
  }

  /** The cells of [start, i) with their product added. */
  ghost function Multiplied(was: seq<int>, x: seq<int>, y: seq<int>, side: nat, start: nat, i: nat): (r: seq<int>)
    requires |was| == side * side && |x| == side * side && |y| == side * side
    ensures |r| == |was|
  {
    seq(|was|, k requires 0 <= k < |was| => if start <= k < i then was[k] + DotAt(x, y, side, k, side) else was[k])
  }

  /** With the result apart from both factors that is the product. */
  lemma {:induction false} InPlaceApart(was: seq<int>, x: seq<int>, y: seq<int>, side: nat, start: nat, i: nat)
    requires |was| == side * side && |x| == side * side && |y| == side * side && i <= |was|
    ensures InPlace(was, x, y, side, start, i, false, false) == Multiplied(was, x, y, side, start, i)
  {
    if i <= start {
      NothingMultiplied(was, x, y, side, start, i);
    } else {
      InPlaceApart(was, x, y, side, start, i - 1);
      NextMultiplied(was, x, y, side, start, i - 1);
      AccumulatedApart(x, y, side, i - 1, side, Multiplied(was, x, y, side, start, i - 1)[i - 1]);
    }
  }

  /** Whatever the result is, no cell outside [start, i) changes. */
  lemma {:induction false} InPlaceElsewhere(was: seq<int>, x: seq<int>, y: seq<int>, side: nat, start: nat, i: nat,
                                            inX: bool, inY: bool, k: nat)
    requires |was| == side * side && |x| == side * side && |y| == side * side && i <= |was|
    requires k < |was| && !(start <= k < i)
    ensures InPlace(was, x, y, side, start, i, inX, inY)[k] == was[k]
  {
    if i <= start {
    } else {
      InPlaceElsewhere(was, x, y, side, start, i - 1, inX, inY, k);
    }
  }

  /**
   Computes the cells of [start, stop) in order.  If the result is not one of the
   factors each gains the product of its row of a and its column of b.
   */
  method PmultMatrix(result: array<int>, a: array<int>, sideA: nat, b: array<int>, sideB: nat, start: nat, stop: nat)
    requires sideA == sideB && a.Length == sideA * sideA && b.Length == sideA * sideA && result.Length == sideA * sideA
    requires stop <= result.Length
    modifies result
    ensures result[..] ==
            InPlace(old(result[..]), old(a[..]), old(b[..]), sideA, start, stop, result == a, result == b)
    ensures result != a && result != b ==> result[..] == Multiplied(old(result[..]), a[..], b[..], sideA, start, stop)
    ensures forall k :: 0 <= k < result.Length && !(start <= k < stop) ==> result[k] == old(result[k])
  {
    ghost var was, x, y := result[..], a[..], b[..];
    var i := start;
    while i < stop
      invariant if start <= stop then start <= i <= stop else i == start
      invariant result[..] == InPlace(was, x, y, sideA, start, if i <= stop then i else stop, result == a, result == b)
    {
      MultiplyCell(result, a, sideA, b, sideB, i);
      i := i + 1;
    }
    InPlaceApart(was, x, y, sideA, start, stop);
    forall k | 0 <= k < result.Length && !(start <= k < stop) ensures result[k] == was[k] {
      InPlaceElsewhere(was, x, y, sideA, start, stop, result == a, result == b, k);
      assert result[k] == result[..][k];
    }
  }

  /** The inner loop: one cell of the result. */
  method MultiplyCell(result: array<int>, a: array<int>, sideA: nat, b: array<int>, sideB: nat, i: nat)
    requires sideA == sideB && a.Length == sideA * sideA && b.Length == sideA * sideA && result.Length == sideA * sideA
    requires i < result.Length
    modifies result
    ensures result[..] == old(result[..])[i := Accumulated(old(a[..]), old(b[..]), sideA, i, sideA,
                                                           result == a, result == b, old(result[i]))]
    ensures result != a && result != b ==>
              result[i] == old(result[i]) + DotAt(a[..], b[..], sideA, i, sideA)
  {
    hide *;
    CellOf(sideA, i);
    ghost var was, x, y := result[..], a[..], b[..];
    AccumulatedNext(x, y, sideA, i, 0, result == a, result == b, was[i]);
    var pos1, pos2 := i - i % sideA, i % sideB;
    for j := 0 to sideB
      invariant pos1 == i - i % sideA + j && pos2 == i % sideB + j * sideB
      invariant result[..] == was[i := Accumulated(x, y, sideA, i, j, result == a, result == b, was[i])]
    {
      AccumulatedNext(x, y, sideA, i, j, result == a, result == b, was[i]);
      FactorNow(result, a, was, x, i, pos1);
      FactorNow(result, b, was, y, i, pos2);
      result[i] := result[i] + a[pos1] * b[pos2];
      pos1 := pos1 + 1;
      pos2 := pos2 + sideB;
    }
    AccumulatedApart(x, y, sideA, i, sideA, was[i]);
  }

  /** A cell of a factor while cell i of the result has changed. */
  lemma FactorNow(result: array<int>, a: array<int>, was: seq<int>, x: seq<int>, i: nat, pos: nat)
    requires |was| == result.Length && i < |was| && result[..] == was[i := result[i]]
    requires |x| == a.Length == result.Length && pos < a.Length
    requires if a == result then x == was else x == a[..]
    ensures a[pos] == if a == result && pos == i then result[i] else x[pos]
  {
    assert a[pos] == a[..][pos];
  }

  lemma NothingMultiplied(was: seq<int>, x: seq<int>, y: seq<int>, side: nat, start: nat, i: nat)
    requires |was| == side * side && |x| == side * side && |y| == side * side && i <= start
    ensures Multiplied(was, x, y, side, start, i) == was
  {
  }

  lemma NextMultiplied(was: seq<int>, x: seq<int>, y: seq<int>, side: nat, start: nat, i: nat)
    requires |was| == side * side && |x| == side * side && |y| == side * side && start <= i < |was|
    ensures var now := Multiplied(was, x, y, side, start, i);
            Multiplied(was, x, y, side, start, i + 1) == now[i := now[i] + DotAt(x, y, side, i, side)]
  {
  }

  lemma NoTerms(a: seq<int>, b: seq<int>, side: nat, i: nat)
    requires |a| == side * side && |b| == side * side && i < side * side
    ensures DotAt(a, b, side, i, 0) == 0
  {
  }

  // ---------- the check ----------

  /** The serverless program looks at every cell. */
  method CheckResults(m: array<int>, size: nat) returns (worked: bool)
    requires m.Length == size * size
    ensures worked <==> forall i :: 0 <= i < m.Length ==> m[i] == i
  {
    worked := true;
    for i := 0 to size * size
      invariant worked <==> forall k :: 0 <= k < i ==> m[k] == k
    {
      if m[i] != i {
        worked := false;
      }
    }
  }

  /** The central-server program stops at the first wrong cell. */
  method CheckResultsEarly(m: array<int>, size: nat) returns (worked: bool)
    requires m.Length == size * size
    ensures worked <==> forall i :: 0 <= i < m.Length ==> m[i] == i
  {
    for i := 0 to size * size
      invariant forall k :: 0 <= k < i ==> m[k] == k
    {
      if m[i] != i {
        return false;
      }
    }
    return true;
  }

  /** The program on its own: with these fills the whole multiplication makes the check succeed. */
  method WholeProgram(m: array<int>, x: array<int>, y: array<int>, size: nat) returns (worked: bool)
    requires m.Length == size * size && x.Length == size * size && y.Length == size * size
    requires m != x && m != y && x != y
    modifies m, x, y
    ensures worked && m[..] == Easy(size)
  {
    FillEasy(x, size, size);
    FillIdentity(y, size);
    FillZero(m, size, size);
    assert y[..] == Identity(size);
    PmultMatrix(m, x, size, y, size, 0, size * size);
    forall i | 0 <= i < m.Length ensures m[i] == i {
      IdentityIsNeutral(x[..], size, i);
    }
    worked := CheckResults(m, size);
  }

  // ---------- the slices ----------

  function StartIndex(client: nat, clients: nat, size: nat): nat
    requires clients > 0
  {
    client * size * size / clients
  }

  function StopIndex(client: nat, clients: nat, size: nat): nat
    requires clients > 0
  {
    (client + 1) * size * size / clients
  }

  /** The central-server program numbers its clients from 1. */
  function CentralStartIndex(client: nat, clients: nat, size: nat): int
    requires clients > 0
  {
    (client - 1) * size * size / clients
  }

  function CentralStopIndex(client: nat, clients: nat, size: nat): nat
    requires clients > 0
  {
    client * size * size / clients
  }

  /** Both programs divide the work alike. */
  lemma SameSlices(client: nat, clients: nat, size: nat)
    requires 1 <= client <= clients
    ensures CentralStartIndex(client, clients, size) == StartIndex(client - 1, clients, size)
    ensures CentralStopIndex(client, clients, size) == StopIndex(client - 1, clients, size)
  {
  }

  lemma SlicesAreOrdered(c: nat, d: nat, clients: nat, size: nat)
    requires clients > 0 && c <= d
    ensures StartIndex(c, clients, size) <= StartIndex(d, clients, size)
  {
    MulMonotone(c, d, size);
    MulMonotone(c * size, d * size, size);
    DivMonotone(c * size * size, d * size * size, clients);
  }

  lemma SliceEnds(clients: nat, size: nat)
    requires clients > 0
    ensures StartIndex(0, clients, size) == 0 && StartIndex(clients, clients, size) == size * size
  {
    assert clients * size * size == size * size * clients;
    DivModUnique(clients * size * size, clients, size * size, 0);
  }

  lemma SliceInRange(c: nat, clients: nat, size: nat)
    requires c < clients
    ensures 0 <= StartIndex(c, clients, size) <= StopIndex(c, clients, size) <= size * size
  {
    SliceEnds(clients, size);
    SlicesAreOrdered(c, c + 1, clients, size);
    SlicesAreOrdered(c + 1, clients, clients, size);
  }

  predicate InSlice(i: nat, c: nat, clients: nat, size: nat)
    requires clients > 0
  {
    StartIndex(c, clients, size) <= i < StopIndex(c, clients, size)
  }

  lemma SlicesAreDisjoint(i: nat, c: nat, d: nat, clients: nat, size: nat)
    requires clients > 0 && InSlice(i, c, clients, size) && InSlice(i, d, clients, size)
    ensures c == d
  {
    if c < d {
      SlicesAreOrdered(c + 1, d, clients, size);
    } else if d < c {
      SlicesAreOrdered(d + 1, c, clients, size);
    }
  }

  lemma {:induction false} SliceBelow(i: nat, k: nat, clients: nat, size: nat) returns (c: nat)
    requires clients > 0 && i < StartIndex(k, clients, size)
    ensures c < k && InSlice(i, c, clients, size)
  {
    SliceEnds(clients, size);
    if StartIndex(k - 1, clients, size) <= i {
      c := k - 1;
    } else {
      c := SliceBelow(i, k - 1, clients, size);
    }
  }

  /** Every cell is in the slice of exactly one client. */
  lemma SlicesPartition(i: nat, clients: nat, size: nat) returns (c: nat)
    requires clients > 0
    requires i < size * size
    ensures c < clients && InSlice(i, c, clients, size)
    ensures forall d :: 0 <= d && InSlice(i, d, clients, size) ==> d == c
  {
    SliceEnds(clients, size);
    c := SliceBelow(i, clients, clients, size);
    forall d: nat | InSlice(i, d, clients, size) ensures d == c {
      SlicesAreDisjoint(i, c, d, clients, size);
    }
  }

  /** No slice is more than one cell longer than another. */
  lemma SlicesAreBalanced(c: nat, clients: nat, size: nat)
    requires clients > 0
    ensures 0 <= StopIndex(c, clients, size) - StartIndex(c, clients, size) - size * size / clients <= 1
  {
    var e := size * size;
    assert c * size * size == c * e && (c + 1) * size * size == c * e + e;
    var q, m := c * e / clients, c * e % clients;
    var q', m' := e / clients, e % clients;
    assert c * e == q * clients + m && e == q' * clients + m';
    if m + m' < clients {
      DivModUnique(c * e + e, clients, q + q', m + m');
    } else {
      DivModUnique(c * e + e, clients, q + q' + 1, m + m' - clients);
    }
  }
}
