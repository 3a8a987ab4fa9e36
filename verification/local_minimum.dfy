/** find_local_minimum_gradient_descent (libs/lib_algorithms/algorithms.cpp):
    from a start cell, repeatedly move to the smallest strictly smaller
    4-neighbour until there is none. The random start cell is a parameter. */
module LocalMinimum {
  import opened Wrappers

  /** A rectangular integer matrix as its rows. */
  type Grid = seq<seq<int>>

  datatype Pos = Pos(row: int, col: int)

  /** At least one cell, and all rows as long as the first. */
  predicate Rectangular(g: Grid) {
    |g| > 0 && |g[0]| > 0 && forall r :: 0 <= r < |g| ==> |g[r]| == |g[0]|
  }

  predicate InBounds(g: Grid, p: Pos)
    requires Rectangular(g)
  {
    0 <= p.row < |g| && 0 <= p.col < |g[0]|
  }

  function At(g: Grid, p: Pos): int
    requires Rectangular(g) && InBounds(g, p)
  {
    g[p.row][p.col]
  }

  /** The four directions in the order the loop tries them: up, left, down,
      right (algorithms.cpp:22-27). */
  const Directions: seq<Pos> := [Pos(-1, 0), Pos(0, -1), Pos(1, 0), Pos(0, 1)]

  function Neighbour(p: Pos, i: nat): Pos
    requires i < 4
  {
    Pos(p.row + Directions[i].row, p.col + Directions[i].col)
  }

  /** No in-bounds 4-neighbour is smaller. */
  predicate IsLocalMin(g: Grid, p: Pos)
    requires Rectangular(g) && InBounds(g, p)
  {
    forall i :: 0 <= i < 4 && InBounds(g, Neighbour(p, i)) ==> At(g, p) <= At(g, Neighbour(p, i))
  }

  /** Every in-bounds neighbour tried before direction k, from direction i
      on, is strictly larger than neighbour k: ties go to the earlier
      direction, because the loop only moves on a strict <. */
  predicate EarliestFrom(g: Grid, p: Pos, i: nat, k: nat)
    requires Rectangular(g) && k < 4 && InBounds(g, Neighbour(p, k))
  {
    forall j :: i <= j < k && InBounds(g, Neighbour(p, j)) ==> At(g, Neighbour(p, k)) < At(g, Neighbour(p, j))
  }

  predicate Earliest(g: Grid, p: Pos, k: nat)
    requires Rectangular(g) && k < 4 && InBounds(g, Neighbour(p, k))
  {
    EarliestFrom(g, p, 0, k)
  }

  /** The for loop over the directions from index i on (algorithms.cpp:34-47),
      with the running minimum and the cell it was found at. */
  function Scan(g: Grid, p: Pos, i: nat, min: int, pick: Option<Pos>): (r: Option<Pos>)
    requires Rectangular(g) && InBounds(g, p) && i <= 4
    requires pick.Some? ==> InBounds(g, pick.value) && At(g, pick.value) == min
    ensures r.Some? ==> InBounds(g, r.value)
    decreases 4 - i
  {
    if i == 4 then pick
    else
      var q := Neighbour(p, i);
      if InBounds(g, q) && At(g, q) < min then Scan(g, p, i + 1, At(g, q), Some(q))
      else Scan(g, p, i + 1, min, pick)
  }

  /** One pass of the loop body: the smallest in-bounds neighbour that is
      strictly smaller than the current cell, the earliest in direction order
      among equals; None when the current cell is a local minimum. */
  function BestNeighbour(g: Grid, p: Pos): (r: Option<Pos>)
    requires Rectangular(g) && InBounds(g, p)
    ensures r.None? <==> IsLocalMin(g, p)
    ensures r.Some? ==> InBounds(g, r.value) && At(g, r.value) < At(g, p)
    ensures r.Some? ==> forall i :: 0 <= i < 4 && InBounds(g, Neighbour(p, i)) ==> At(g, r.value) <= At(g, Neighbour(p, i))
    ensures r.Some? ==> exists k :: 0 <= k < 4 && r.value == Neighbour(p, k) && Earliest(g, p, k)
  {
    ScanKeeps(g, p, 0, At(g, p), None);
    ScanBelow(g, p, 0, At(g, p), None);
    ScanLeast(g, p, 0, At(g, p), None);
    ScanFirst(g, p, 0, At(g, p), None);
    Scan(g, p, 0, At(g, p), None)
  }

  /** A scan returns the earlier pick exactly when no remaining neighbour
      beats the running minimum. */
  lemma {:induction false} ScanKeeps(g: Grid, p: Pos, i: nat, min: int, pick: Option<Pos>)
    requires Rectangular(g) && InBounds(g, p) && i <= 4
    requires pick.Some? ==> InBounds(g, pick.value) && At(g, pick.value) == min
    ensures Scan(g, p, i, min, pick) == pick <==>
      forall k :: i <= k < 4 && InBounds(g, Neighbour(p, k)) ==> min <= At(g, Neighbour(p, k))
    decreases 4 - i
  {
    if i < 4 {
      var q := Neighbour(p, i);
      if InBounds(g, q) && At(g, q) < min {
        ScanKeeps(g, p, i + 1, At(g, q), Some(q));
        ScanBelow(g, p, i + 1, At(g, q), Some(q));
      } else {
        ScanKeeps(g, p, i + 1, min, pick);
      }
    }
  }

  /** A scan's result is never above the running minimum, and strictly
      below it when it is a new cell. */
  lemma {:induction false} ScanBelow(g: Grid, p: Pos, i: nat, min: int, pick: Option<Pos>)
    requires Rectangular(g) && InBounds(g, p) && i <= 4
    requires pick.Some? ==> InBounds(g, pick.value) && At(g, pick.value) == min
    ensures var r := Scan(g, p, i, min, pick);
      && (r.Some? ==> At(g, r.value) <= min)
      && (r != pick ==> r.Some? && At(g, r.value) < min)
    decreases 4 - i
  {
    if i < 4 {
      var q := Neighbour(p, i);
      if InBounds(g, q) && At(g, q) < min {
        ScanBelow(g, p, i + 1, At(g, q), Some(q));
      } else {
        ScanBelow(g, p, i + 1, min, pick);
      }
    }
  }

  /** A scan's result is at most every remaining in-bounds neighbour. */
  lemma {:induction false} ScanLeast(g: Grid, p: Pos, i: nat, min: int, pick: Option<Pos>)
    requires Rectangular(g) && InBounds(g, p) && i <= 4
    requires pick.Some? ==> InBounds(g, pick.value) && At(g, pick.value) == min
    ensures var r := Scan(g, p, i, min, pick);
      r.Some? ==> forall k :: i <= k < 4 && InBounds(g, Neighbour(p, k)) ==> At(g, r.value) <= At(g, Neighbour(p, k))
    decreases 4 - i
  {
    if i < 4 {
      var q := Neighbour(p, i);
      if InBounds(g, q) && At(g, q) < min {
        ScanLeast(g, p, i + 1, At(g, q), Some(q));
        ScanBelow(g, p, i + 1, At(g, q), Some(q));
      } else {
        ScanLeast(g, p, i + 1, min, pick);
        ScanBelow(g, p, i + 1, min, pick);
      }
    }
  }

  /** A new cell found by a scan is a remaining neighbour strictly below
      every in-bounds neighbour tried before it. */
  lemma {:induction false} ScanFirst(g: Grid, p: Pos, i: nat, min: int, pick: Option<Pos>)
    requires Rectangular(g) && InBounds(g, p) && i <= 4
    requires pick.Some? ==> InBounds(g, pick.value) && At(g, pick.value) == min
    ensures var r := Scan(g, p, i, min, pick);
      r != pick ==> exists k :: i <= k < 4 && r.value == Neighbour(p, k) && EarliestFrom(g, p, i, k)
    decreases 4 - i
  {
    if i < 4 {
      var q := Neighbour(p, i);
      var r := Scan(g, p, i, min, pick);
      if InBounds(g, q) && At(g, q) < min {
        var r' := Scan(g, p, i + 1, At(g, q), Some(q));
        ScanFirst(g, p, i + 1, At(g, q), Some(q));
        ScanBelow(g, p, i + 1, At(g, q), Some(q));
        if r' == Some(q) {
          assert EarliestFrom(g, p, i, i);
        } else {
          var k :| i + 1 <= k < 4 && r'.value == Neighbour(p, k) && EarliestFrom(g, p, i + 1, k);
          assert EarliestFrom(g, p, i, k);
        }
      } else if r != pick {
        ScanFirst(g, p, i + 1, min, pick);
        ScanBelow(g, p, i + 1, min, pick);
        var k :| i + 1 <= k < 4 && r.value == Neighbour(p, k) && EarliestFrom(g, p, i + 1, k);
        assert EarliestFrom(g, p, i, k);
      }
    }
  }

  /** The smallest entry of the grid, the floor the descent cannot pass. */
  function Floor(g: Grid): (m: int)
    requires Rectangular(g)
    ensures forall p :: InBounds(g, p) ==> m <= At(g, p)
  {
    var m := RowsFloor(g, |g|);
    m
  }

  function RowsFloor(g: Grid, n: nat): (m: int)
    requires Rectangular(g) && 0 < n <= |g|
    ensures forall r, c :: 0 <= r < n && 0 <= c < |g[0]| ==> m <= g[r][c]
  {
    var here := RowFloor(g[n - 1], |g[0]|);
    if n == 1 then here
    else
      var rest := RowsFloor(g, n - 1);
      if here < rest then here else rest
  }

  function RowFloor(row: seq<int>, n: nat): (m: int)
    requires 0 < n <= |row|
    ensures forall c :: 0 <= c < n ==> m <= row[c]
  {
    if n == 1 then row[0]
    else
      var rest := RowFloor(row, n - 1);
      if row[n - 1] < rest then row[n - 1] else rest
  }

  /** find_local_minimum_gradient_descent (algorithms.cpp:7-58) from the
      given start cell: the returned value is the value at a cell that is a
      local minimum, reached by strict descent, so it is at most the start
      value. The walk ends because the current value strictly decreases and
      cannot go below the grid's floor. */
  method Descend(g: Grid, start: Pos) returns (min: int, at: Pos)
    requires Rectangular(g) && InBounds(g, start)
    ensures InBounds(g, at) && min == At(g, at)
    ensures IsLocalMin(g, at)
    ensures min <= At(g, start)
  {
    var current := start;
    while true
      invariant InBounds(g, current) && At(g, current) <= At(g, start)
      decreases At(g, current) - Floor(g)
    {
      min := At(g, current);
      match BestNeighbour(g, current)
      case None =>
        return min, current;
      case Some(next) =>
        current := next;
    }
  }

  // ----- the two grids of the test suite -----

  const Mixed: Grid := [[3, 1, 2], [5, 8, 4], [7, 6, 9]]
  const Monotone: Grid := [[9, 8, 7], [6, 4, 3], [5, 2, 1]]

  /** A local minimum compared with its four neighbours, as grid cells. */
  lemma {:induction false} LocalMinSides(g: Grid, p: Pos)
    requires Rectangular(g) && InBounds(g, p) && IsLocalMin(g, p)
    ensures p.row > 0 ==> At(g, p) <= g[p.row - 1][p.col]
    ensures p.col > 0 ==> At(g, p) <= g[p.row][p.col - 1]
    ensures p.row + 1 < |g| ==> At(g, p) <= g[p.row + 1][p.col]
    ensures p.col + 1 < |g[0]| ==> At(g, p) <= g[p.row][p.col + 1]
  {
    assert Neighbour(p, 0) == Pos(p.row - 1, p.col);
    assert Neighbour(p, 1) == Pos(p.row, p.col - 1);
    assert Neighbour(p, 2) == Pos(p.row + 1, p.col);
    assert Neighbour(p, 3) == Pos(p.row, p.col + 1);
  }

  /** The local minima of the first test grid hold 1 and 6. */
  lemma {:induction false} MixedMinima(p: Pos)
    requires Rectangular(Mixed) && InBounds(Mixed, p) && IsLocalMin(Mixed, p)
    ensures At(Mixed, p) == 1 || At(Mixed, p) == 6
  {
    LocalMinSides(Mixed, p);
    assert p.row == 0 || p.row == 1 || p.row == 2;
    assert p.col == 0 || p.col == 1 || p.col == 2;
  }

  /** The only local minimum of the monotone test grid holds 1. */
  lemma {:induction false} MonotoneMinimum(p: Pos)
    requires Rectangular(Monotone) && InBounds(Monotone, p) && IsLocalMin(Monotone, p)
    ensures At(Monotone, p) == 1
  {
    LocalMinSides(Monotone, p);
    assert p.row == 0 || p.row == 1 || p.row == 2;
    assert p.col == 0 || p.col == 1 || p.col == 2;
  }

  /** Whatever the start cell, the descent on the first test grid returns 1
      or 6, and on the monotone grid it returns 1. */
  method DescendTestGrids(start: Pos) returns (mixed: int, monotone: int)
    requires 0 <= start.row < 3 && 0 <= start.col < 3
    ensures mixed == 1 || mixed == 6
    ensures monotone == 1
  {
    var at;
    mixed, at := Descend(Mixed, start);
    MixedMinima(at);
    monotone, at := Descend(Monotone, start);
    MonotoneMinimum(at);
  }
}
