/** Coordinates of an n-by-n grid: 1-based (row, col) pairs, their linear
    index in [0, n*n), the two sentinel indices that follow the cells, and
    the number of open cells in a dense open/blocked array. */
module Grid {

  /** (row, col) names a cell of the n-by-n grid. */
  predicate InGrid(n: int, row: int, col: int)
  {
    1 <= row <= n && 1 <= col <= n
  }

  /** i is the linear index of a cell. */
  predicate IsCell(n: int, i: int)
  {
    0 <= i < n * n
  }

  /** Row-major linear index of (row, col). */
  function RowCol(n: int, row: int, col: int): (i: int)
    ensures InGrid(n, row, col) ==> IsCell(n, i)
  {
    var i := n * (row - 1) + (col - 1);
    if InGrid(n, row, col) then
      BelowSquare(n, row - 1, col - 1);
      i
    else
      i
  }

  /** RowOf and ColOf recover the coordinates a cell index was made from. */
  lemma RowColInverse(n: int, row: int, col: int)
    requires InGrid(n, row, col)
    ensures RowOf(n, RowCol(n, row, col)) == row && ColOf(n, RowCol(n, row, col)) == col
  {
    DivModUnique(n, row - 1, col - 1);
  }

  /** The row of the cell with linear index i. */
  function RowOf(n: int, i: int): int
    requires n >= 1
  {
    i / n + 1
  }

  /** The column of the cell with linear index i. */
  function ColOf(n: int, i: int): int
    requires n >= 1
  {
    i % n + 1
  }

  /** The virtual top node: the index just after the last cell. */
  function Top(n: int): (t: int)
    ensures t == n * n
  {
    RowCol(n, n, n) + 1
  }

  /** The virtual bottom node: the index after the virtual top. */
  function Bottom(n: int): (b: int)
    ensures b == n * n + 1
  {
    RowCol(n, n, n) + 2
  }

  /** Euclidean division of n*q + r by n, for 0 <= r < n. */
  lemma DivModUnique(n: int, q: int, r: int)
    requires n >= 1 && 0 <= r < n
    ensures (n * q + r) / n == q && (n * q + r) % n == r
  {
    var i := n * q + r;
    var q', r' := i / n, i % n;
    assert n * q' + r' == n * q + r;
    assert n * (q' - q) == r - r';
    if q' > q {
      MulAtLeast(n, q' - q);
    } else if q' < q {
      MulAtLeast(n, q - q');
    }
  }

  lemma MulAtLeast(n: int, k: int)
    requires n >= 1 && k >= 1
    ensures n * k >= n
  {
  }

  /** n*q + r stays below n*n when q < n and r < n. */
  lemma BelowSquare(n: int, q: int, r: int)
    requires 0 <= q < n && 0 <= r < n
    ensures 0 <= n * q + r < n * n
  {
    assert n * q <= n * (n - 1) by { MulMonotone(n, q, n - 1); }
    assert n * (n - 1) == n * n - n;
  }

  lemma MulMonotone(n: int, a: int, b: int)
    requires n >= 0 && a <= b
    ensures n * a <= n * b
  {
    assert n * b - n * a == n * (b - a);
  }

  /** Every cell index is the index of exactly the cell (RowOf, ColOf):
      RowCol maps the grid onto [0, n*n). */
  lemma {:induction false} CellCoordinates(n: int, i: int)
    requires n >= 1 && IsCell(n, i)
    ensures InGrid(n, RowOf(n, i), ColOf(n, i))
    ensures RowCol(n, RowOf(n, i), ColOf(n, i)) == i
  {
    var q, r := i / n, i % n;
    assert i == n * q + r;
    if q >= n {
      MulMonotone(n, n, q);
    }
    if q < 0 {
      MulMonotone(n, q, -1);
    }
  }

  /** RowCol is one-to-one on the grid. */
  lemma RowColInjective(n: int, r1: int, c1: int, r2: int, c2: int)
    requires InGrid(n, r1, c1) && InGrid(n, r2, c2)
    requires RowCol(n, r1, c1) == RowCol(n, r2, c2)
    ensures r1 == r2 && c1 == c2
  {
    RowColInverse(n, r1, c1);
    RowColInverse(n, r2, c2);
  }

  /** The cells before row `row + 1` are those before row `row` and n more. */
  lemma NextRowStart(n: int, row: int)
    ensures n * (row - 1) + n == n * row
  {
  }

  /** The two sentinels are distinct, are not cells, and fit in n*n+2 slots. */
  lemma SentinelsReserved(n: int, row: int, col: int)
    requires InGrid(n, row, col)
    ensures Top(n) != Bottom(n)
    ensures RowCol(n, row, col) != Top(n) && RowCol(n, row, col) != Bottom(n)
    ensures 0 <= Top(n) < n * n + 2 && 0 <= Bottom(n) < n * n + 2
  {
  }

  /** The number of open cells in a dense open/blocked array. */
  function Count(o: seq<bool>): (k: nat)
    ensures k <= |o|
  {
    if o == [] then 0
    else Count(o[..|o| - 1]) + (if o[|o| - 1] then 1 else 0)
  }

  /** A grid with every cell blocked has no open cell. */
  lemma {:induction false} CountAllBlocked(o: seq<bool>)
    requires forall i :: 0 <= i < |o| ==> !o[i]
    ensures Count(o) == 0
  {
    if o != [] {
      CountAllBlocked(o[..|o| - 1]);
    }
  }

  /** Opening a blocked cell adds exactly one open cell. */
  lemma {:induction false} CountOpenOne(o: seq<bool>, i: int)
    requires 0 <= i < |o| && !o[i]
    ensures Count(o[i := true]) == Count(o) + 1
  {
    var o' := o[i := true];
    var last := |o| - 1;
    if i < last {
      assert o'[..last] == o[..last][i := true];
      CountOpenOne(o[..last], i);
    } else {
      assert o'[..last] == o[..last];
    }
  }
}
