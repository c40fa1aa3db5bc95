/** The graph a percolation grid's forests describe. Its nodes are the n*n
    cells and the two sentinels; an edge joins two grid-adjacent open cells,
    the virtual top and an open cell of row 1, and, when the bottom is wired,
    the virtual bottom and an open cell of row n. */
module OpenGraph {
  import opened Grid

  /** i is a node of the graph: a cell or one of the two sentinels. */
  predicate IsNode(n: int, i: int)
  {
    0 <= i < n * n + 2
  }

  predicate IsOpen(o: seq<bool>, i: int)
  {
    0 <= i < |o| && o[i]
  }

  /** i and j are cells that share a side. */
  predicate Adjacent(n: int, i: int, j: int)
    requires n >= 1
  {
    IsCell(n, i) && IsCell(n, j) &&
    ((RowOf(n, i) == RowOf(n, j) && (ColOf(n, i) - ColOf(n, j) == 1 || ColOf(n, j) - ColOf(n, i) == 1)) ||
     (ColOf(n, i) == ColOf(n, j) && (RowOf(n, i) - RowOf(n, j) == 1 || RowOf(n, j) - RowOf(n, i) == 1)))
  }

  /** cell is an open cell of the given row. */
  predicate OpenInRow(n: int, o: seq<bool>, cell: int, row: int)
    requires n >= 1
  {
    IsCell(n, cell) && IsOpen(o, cell) && RowOf(n, cell) == row
  }

  /** The edges of the graph; `wired` says whether the virtual bottom is
      joined to the open cells of row n. */
  predicate Edge(n: int, o: seq<bool>, wired: bool, i: int, j: int)
  {
    n >= 1 &&
    ((IsOpen(o, i) && IsOpen(o, j) && Adjacent(n, i, j))
     || (i == Top(n) && OpenInRow(n, o, j, 1))
     || (j == Top(n) && OpenInRow(n, o, i, 1))
     || (wired && i == Bottom(n) && OpenInRow(n, o, j, n))
     || (wired && j == Bottom(n) && OpenInRow(n, o, i, n)))
  }

  /** p is a walk along edges of the graph. */
  predicate IsPath(n: int, o: seq<bool>, wired: bool, p: seq<int>)
  {
    |p| >= 1 &&
    (forall k :: 0 <= k < |p| ==> IsNode(n, p[k])) &&
    (forall k :: 0 <= k < |p| - 1 ==> Edge(n, o, wired, p[k], p[k + 1]))
  }

  /** Some walk leads from i to j. */
  ghost predicate Connected(n: int, o: seq<bool>, wired: bool, i: int, j: int)
  {
    exists p :: IsPath(n, o, wired, p) && p[0] == i && p[|p| - 1] == j
  }

  /** Every cell open in o is open in o' (cells only ever open). */
  ghost predicate Grows(o: seq<bool>, o': seq<bool>)
  {
    |o| == |o'| && forall i :: 0 <= i < |o| && o[i] ==> o'[i]
  }

  lemma EdgeNodes(n: int, o: seq<bool>, wired: bool, i: int, j: int)
    requires Edge(n, o, wired, i, j)
    ensures IsNode(n, i) && IsNode(n, j) && i != j
  {
  }

  lemma EdgeSymmetric(n: int, o: seq<bool>, wired: bool, i: int, j: int)
    requires Edge(n, o, wired, i, j)
    ensures Edge(n, o, wired, j, i)
  {
  }

  /** Edges survive cells opening and the bottom being wired. */
  lemma EdgeGrows(n: int, o: seq<bool>, o': seq<bool>, wired: bool, wired': bool, i: int, j: int)
    requires Edge(n, o, wired, i, j) && Grows(o, o') && (wired ==> wired')
    ensures Edge(n, o', wired', i, j)
  {
  }

  /** A blocked cell has no edge at all. */
  lemma BlockedHasNoEdge(n: int, o: seq<bool>, wired: bool, i: int, j: int)
    requires IsCell(n, i) && !IsOpen(o, i)
    ensures !Edge(n, o, wired, i, j)
  {
  }

  /** Without the bottom wired, the virtual bottom has no edge at all. */
  lemma UnwiredBottomHasNoEdge(n: int, o: seq<bool>, j: int)
    ensures !Edge(n, o, false, Bottom(n), j)
  {
  }

  lemma ConnectedRefl(n: int, o: seq<bool>, wired: bool, i: int)
    requires IsNode(n, i)
    ensures Connected(n, o, wired, i, i)
  {
    assert IsPath(n, o, wired, [i]);
  }

  lemma EdgeConnected(n: int, o: seq<bool>, wired: bool, i: int, j: int)
    requires Edge(n, o, wired, i, j)
    ensures Connected(n, o, wired, i, j)
  {
    EdgeNodes(n, o, wired, i, j);
    assert IsPath(n, o, wired, [i, j]);
  }

  lemma ConnectedTrans(n: int, o: seq<bool>, wired: bool, i: int, j: int, k: int)
    requires Connected(n, o, wired, i, j) && Connected(n, o, wired, j, k)
    ensures Connected(n, o, wired, i, k)
  {
    var p :| IsPath(n, o, wired, p) && p[0] == i && p[|p| - 1] == j;
    var q :| IsPath(n, o, wired, q) && q[0] == j && q[|q| - 1] == k;
    var pq := p + q[1..];
    assert forall t :: |p| <= t < |pq| ==> pq[t] == q[t - |p| + 1];
    assert forall t :: 0 <= t < |pq| - 1 ==> Edge(n, o, wired, pq[t], pq[t + 1]) by {
      forall t | 0 <= t < |pq| - 1
        ensures Edge(n, o, wired, pq[t], pq[t + 1])
      {
        if t < |p| - 1 {
          assert pq[t] == p[t] && pq[t + 1] == p[t + 1];
        } else {
          assert pq[t] == q[t - |p| + 1] && pq[t + 1] == q[t - |p| + 2];
        }
      }
    }
    assert IsPath(n, o, wired, pq);
  }

  lemma ConnectedSym(n: int, o: seq<bool>, wired: bool, i: int, j: int)
    requires Connected(n, o, wired, i, j)
    ensures Connected(n, o, wired, j, i)
  {
    var p :| IsPath(n, o, wired, p) && p[0] == i && p[|p| - 1] == j;
    var r := seq(|p|, t requires 0 <= t < |p| => p[|p| - 1 - t]);
    forall t | 0 <= t < |r| - 1
      ensures Edge(n, o, wired, r[t], r[t + 1])
    {
      var u := |p| - 2 - t;
      assert Edge(n, o, wired, p[u], p[u + 1]);
      EdgeSymmetric(n, o, wired, p[u], p[u + 1]);
    }
    assert IsPath(n, o, wired, r);
  }

  /** Walks survive cells opening and the bottom being wired. */
  lemma ConnectedGrows(n: int, o: seq<bool>, o': seq<bool>, wired: bool, wired': bool, i: int, j: int)
    requires Connected(n, o, wired, i, j) && Grows(o, o') && (wired ==> wired')
    ensures Connected(n, o', wired', i, j)
  {
    var p :| IsPath(n, o, wired, p) && p[0] == i && p[|p| - 1] == j;
    forall t | 0 <= t < |p| - 1
      ensures Edge(n, o', wired', p[t], p[t + 1])
    {
      EdgeGrows(n, o, o', wired, wired', p[t], p[t + 1]);
    }
    assert IsPath(n, o', wired', p);
  }

  /** A node without edges reaches only itself. */
  lemma IsolatedReachesItself(n: int, o: seq<bool>, wired: bool, i: int, j: int)
    requires forall k :: !Edge(n, o, wired, i, k)
    requires Connected(n, o, wired, i, j)
    ensures j == i
  {
    var p :| IsPath(n, o, wired, p) && p[0] == i && p[|p| - 1] == j;
    if |p| > 1 {
      PathStartsWithEdge(n, o, wired, p);
    }
  }

  lemma PathStartsWithEdge(n: int, o: seq<bool>, wired: bool, p: seq<int>)
    requires IsPath(n, o, wired, p) && |p| > 1
    ensures Edge(n, o, wired, p[0], p[1])
  {
  }

  /** An open cell of row 1 is joined to the virtual top. */
  lemma TopConnected(n: int, o: seq<bool>, wired: bool, col: int)
    requires InGrid(n, 1, col) && |o| == n * n && o[RowCol(n, 1, col)]
    ensures Connected(n, o, wired, Top(n), RowCol(n, 1, col))
  {
    RowColInverse(n, 1, col);
    EdgeConnected(n, o, wired, Top(n), RowCol(n, 1, col));
  }

  /** With the bottom wired, an open cell of row n is joined to the virtual
      bottom, both ways. */
  lemma BottomConnected(n: int, o: seq<bool>, col: int)
    requires InGrid(n, n, col) && |o| == n * n && o[RowCol(n, n, col)]
    ensures Connected(n, o, true, RowCol(n, n, col), Bottom(n))
    ensures Connected(n, o, true, Bottom(n), RowCol(n, n, col))
  {
    RowColInverse(n, n, col);
    EdgeConnected(n, o, true, RowCol(n, n, col), Bottom(n));
    EdgeConnected(n, o, true, Bottom(n), RowCol(n, n, col));
  }

  /** The only cells adjacent to the cell (row, col) are its grid neighbours. */
  lemma AdjacentIsNeighbour(n: int, row: int, col: int, j: int)
    requires n >= 1 && InGrid(n, row, col) && Adjacent(n, RowCol(n, row, col), j)
    ensures (row - 1 >= 1 && j == RowCol(n, row - 1, col)) ||
            (col - 1 >= 1 && j == RowCol(n, row, col - 1)) ||
            (row + 1 <= n && j == RowCol(n, row + 1, col)) ||
            (col + 1 <= n && j == RowCol(n, row, col + 1))
  {
    RowColInverse(n, row, col);
    CellCoordinates(n, j);
    var c := RowCol(n, row, col);
    var r, k := RowOf(n, j), ColOf(n, j);
    assert RowOf(n, c) == row && ColOf(n, c) == col;
    assert j == RowCol(n, r, k);
    if r == row {
      assert k == col - 1 || k == col + 1;
    } else {
      assert k == col && (r == row - 1 || r == row + 1);
    }
  }

  /** Without the virtual bottom, a cell outside row 1 whose grid
      neighbours are all blocked reaches only itself. */
  lemma WalledInCellAlone(n: int, o: seq<bool>, row: int, col: int, j: int)
    requires InGrid(n, row, col) && |o| == n * n && row != 1
    requires row - 1 >= 1 ==> !o[RowCol(n, row - 1, col)]
    requires col - 1 >= 1 ==> !o[RowCol(n, row, col - 1)]
    requires row + 1 <= n ==> !o[RowCol(n, row + 1, col)]
    requires col + 1 <= n ==> !o[RowCol(n, row, col + 1)]
    requires Connected(n, o, false, RowCol(n, row, col), j)
    ensures j == RowCol(n, row, col)
  {
    var c := RowCol(n, row, col);
    RowColInverse(n, row, col);
    forall k
      ensures !Edge(n, o, false, c, k)
    {
      if Adjacent(n, c, k) {
        AdjacentIsNeighbour(n, row, col, k);
      }
    }
    IsolatedReachesItself(n, o, false, c, j);
  }

  /** Each grid neighbour of the cell (row, col) is adjacent to it. */
  lemma NeighbourIsAdjacent(n: int, row: int, col: int, row': int, col': int)
    requires n >= 1 && InGrid(n, row, col) && InGrid(n, row', col')
    requires (row' == row && (col' == col - 1 || col' == col + 1)) ||
             (col' == col && (row' == row - 1 || row' == row + 1))
    ensures Adjacent(n, RowCol(n, row, col), RowCol(n, row', col'))
  {
    RowColInverse(n, row, col);
    RowColInverse(n, row', col');
  }
}
