/** Two small grids opened cell by cell: the single-cell grid, and a 3-by-3
    grid whose open left column lets the system percolate while the open
    bottom-right corner touches only the virtual bottom (the backwash case
    the second forest exists for). The grid size is a parameter fixed by a
    precondition rather than a literal. */
module Scenarios {
  import opened Grid
  import opened OpenGraph
  import opened Connectivity
  import opened Percolation

  /** On the 1-by-1 grid with its cell open, the virtual top reaches the
      virtual bottom through that cell. */
  lemma SingleCellConnected(n: int, o: seq<bool>)
    requires n == 1 && |o| == 1 && o[0]
    ensures Connected(n, o, true, Top(n), Bottom(n))
  {
    var c := RowCol(n, 1, 1);
    TopConnected(n, o, true, 1);
    BottomConnected(n, o, 1);
    ConnectedTrans(n, o, true, Top(n), c, Bottom(n));
  }

  /** Opening the only cell of a 1-by-1 grid makes it percolate. */
  method SingleCellPercolates() returns (percolates: bool)
    ensures percolates
  {
    var n := 1;
    var g := new Percolation(n);
    var r := g.Open(1, 1);
    assert g.open[0];
    SingleCellConnected(n, g.open[..]);
    percolates := g.Percolates();
  }

  /** The 3-by-3 grid with the left column and the bottom-right corner open. */
  predicate ColumnAndCorner(o: seq<bool>)
  {
    |o| == 9 &&
    o[0] && !o[1] && !o[2] &&
    o[3] && !o[4] && !o[5] &&
    o[6] && !o[7] && o[8]
  }

  /** Opening (1, 1), (2, 1), (3, 1) and (3, 3) of a blocked 3-by-3 grid, in
      that order, gives that grid. */
  lemma FourOpens(o0: seq<bool>, o4: seq<bool>)
    requires |o0| == 9 && forall i :: 0 <= i < 9 ==> !o0[i]
    requires o4 == o0[0 := true][3 := true][6 := true][8 := true]
    ensures ColumnAndCorner(o4)
  {
  }

  /** On a 3-by-3 grid whose left column is open, the column is a walk from
      the virtual top to the virtual bottom, and each of its cells reaches
      the virtual top without it. */
  lemma ColumnWalks(n: int, o: seq<bool>)
    requires n == 3 && |o| == 9 && o[0] && o[3] && o[6]
    ensures Connected(n, o, true, Top(n), Bottom(n))
    ensures Connected(n, o, false, RowCol(n, 1, 1), Top(n))
    ensures Connected(n, o, false, RowCol(n, 2, 1), Top(n))
    ensures Connected(n, o, false, RowCol(n, 3, 1), Top(n))
  {
    var c11, c21, c31 := RowCol(n, 1, 1), RowCol(n, 2, 1), RowCol(n, 3, 1);
    TopConnected(n, o, true, 1);
    NeighbourConnected(n, o, true, 1, 1, 2, 1);
    NeighbourConnected(n, o, true, 2, 1, 3, 1);
    BottomConnected(n, o, 1);
    ConnectedTrans(n, o, true, Top(n), c11, c21);
    ConnectedTrans(n, o, true, Top(n), c21, c31);
    ConnectedTrans(n, o, true, Top(n), c31, Bottom(n));
    TopConnected(n, o, false, 1);
    NeighbourConnected(n, o, false, 1, 1, 2, 1);
    NeighbourConnected(n, o, false, 2, 1, 3, 1);
    ConnectedTrans(n, o, false, Top(n), c11, c21);
    ConnectedTrans(n, o, false, Top(n), c21, c31);
    ConnectedSym(n, o, false, Top(n), c11);
    ConnectedSym(n, o, false, Top(n), c21);
    ConnectedSym(n, o, false, Top(n), c31);
  }

  /** Once the system percolates, an open corner (3, 3) of the last row
      reaches the virtual top through the virtual bottom. */
  lemma CornerJoinedThroughBottom(n: int, o: seq<bool>)
    requires n == 3 && |o| == 9 && o[8]
    requires Connected(n, o, true, Top(n), Bottom(n))
    ensures Connected(n, o, true, RowCol(n, 3, 3), Top(n))
  {
    BottomConnected(n, o, 3);
    ConnectedTrans(n, o, true, Top(n), Bottom(n), RowCol(n, 3, 3));
    ConnectedSym(n, o, true, Top(n), RowCol(n, 3, 3));
  }

  /** On a 3-by-3 grid whose last row is blocked, no walk joins the virtual
      top to the virtual bottom. */
  lemma LastRowBlocked(n: int, o: seq<bool>)
    requires n == 3 && |o| == 9 && !o[6] && !o[7] && !o[8]
    ensures !Connected(n, o, true, Top(n), Bottom(n))
  {
    if Connected(n, o, true, Top(n), Bottom(n)) {
      ConnectedSym(n, o, true, Top(n), Bottom(n));
      forall k
        ensures !Edge(n, o, true, Bottom(n), k)
      {
        if IsCell(n, k) && RowOf(n, k) == n {
          CellCoordinates(n, k);
          assert k == 6 + (ColOf(n, k) - 1);
        }
      }
      IsolatedReachesItself(n, o, true, Bottom(n), Top(n));
    }
  }

  /** Without the virtual bottom, the corner (3, 3) reaches only itself: both
      its neighbours are blocked and it lies outside row 1. */
  lemma CornerAlone(n: int, o: seq<bool>, j: int)
    requires n == 3 && ColumnAndCorner(o)
    requires Connected(n, o, false, RowCol(n, 3, 3), j)
    ensures j == RowCol(n, 3, 3)
  {
    assert RowCol(n, 2, 3) == 5 && RowCol(n, 3, 2) == 7;
    WalledInCellAlone(n, o, 3, 3, j);
  }

  /** `open` on a blocked cell of the grid, seen only through the grid it
      leaves behind. */
  method OpenBlockedCell(g: Percolation, row: int, col: int)
    requires g.Valid() && InGrid(g.n, row, col) && !g.open[RowCol(g.n, row, col)]
    modifies g.Repr()
    ensures g.Valid() && g.open[..] == old(g.open[..])[RowCol(g.n, row, col) := true]
  {
    var r := g.Open(row, col);
  }

  /** `open` on a blocked cell followed by `percolates`. */
  method OpenThenPercolates(g: Percolation, row: int, col: int) returns (p: bool)
    requires g.Valid() && InGrid(g.n, row, col) && !g.open[RowCol(g.n, row, col)]
    modifies g.Repr()
    ensures g.Valid() && g.open[..] == old(g.open[..])[RowCol(g.n, row, col) := true]
    ensures p <==> Connected(g.n, g.open[..], true, Top(g.n), Bottom(g.n))
  {
    OpenBlockedCell(g, row, col);
    p := g.Percolates();
  }

  /** Opening (1, 1), (2, 1), (3, 1) and (3, 3) of a 3-by-3 grid: the system
      percolates, and the full forest joins the corner to the virtual top
      through the virtual bottom, yet the corner is not full. */
  method Backwash(n: int) returns (percolates: bool, joined: bool, full: Result<bool>)
    requires n == 3
    ensures percolates && joined && full == Ok(false)
  {
    var g := new Percolation(n);
    ghost var o0 := g.open[..];
    assert !o0[0] && !o0[3] && !o0[6] && !o0[8];
    OpenBlockedCell(g, 1, 1);
    ghost var o1 := g.open[..];
    assert o1 == o0[0 := true];
    OpenBlockedCell(g, 2, 1);
    ghost var o2 := g.open[..];
    assert o2 == o1[3 := true];
    OpenBlockedCell(g, 3, 1);
    ghost var o3 := g.open[..];
    assert o3 == o2[6 := true];
    OpenBlockedCell(g, 3, 3);
    assert g.open[..] == o3[8 := true];
    FourOpens(o0, g.open[..]);
    ColumnWalks(n, g.open[..]);
    CornerJoinedThroughBottom(n, g.open[..]);
    SentinelsReserved(n, 3, 3);
    if Connected(n, g.open[..], false, RowCol(n, 3, 3), Top(n)) {
      CornerAlone(n, g.open[..], Top(n));
    }
    SameIffConnected(g.uf.id[..], n, g.open[..], true, RowCol(n, 3, 3), Top(n));
    percolates := g.Percolates();
    joined := g.uf.Find(RowCol(n, 3, 3)) == g.uf.Find(Top(n));
    full := g.IsFull(3, 3);
  }

  /** Opening (1, 1), (2, 1) and (3, 1) of a 3-by-3 grid in that order: the
      system percolates only after the third, and then all three are full. */
  method LeftColumn(n: int) returns (p1: bool, p2: bool, p3: bool, f1: Result<bool>, f2: Result<bool>, f3: Result<bool>)
    requires n == 3
    ensures !p1 && !p2 && p3
    ensures f1 == Ok(true) && f2 == Ok(true) && f3 == Ok(true)
  {
    var g := new Percolation(n);
    ghost var o0 := g.open[..];
    assert !o0[0] && !o0[3] && !o0[6] && !o0[7] && !o0[8];
    p1 := OpenThenPercolates(g, 1, 1);
    ghost var o1 := g.open[..];
    assert o1 == o0[0 := true];
    LastRowBlocked(n, o1);
    p2 := OpenThenPercolates(g, 2, 1);
    ghost var o2 := g.open[..];
    assert o2 == o1[3 := true];
    LastRowBlocked(n, o2);
    p3 := OpenThenPercolates(g, 3, 1);
    assert g.open[..] == o2[6 := true];
    ColumnWalks(n, g.open[..]);
    f1 := g.IsFull(1, 1);
    f2 := g.IsFull(2, 1);
    f3 := g.IsFull(3, 1);
  }
}
