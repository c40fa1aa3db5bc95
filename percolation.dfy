/** The percolation grid: an n-by-n grid of cells that start blocked and can
    only be opened, with two disjoint-set forests over the cells and two
    sentinel nodes. The full forest `uf` joins the open cells of the last row
    to the virtual bottom and answers whether the system percolates; the
    backwash-free forest `ufBackwashFix` never does, and answers whether a
    cell is full. */
module Percolation {
  import opened Grid
  import opened OpenGraph
  import opened DisjointSet
  import opened Connectivity

  /** A value, or the IllegalArgumentException the grid throws. */
  datatype Result<T> = Ok(value: T) | IllegalArgument

  class Percolation {
    const n: int
    const open: array<bool>
    var openSiteCount: int
    const uf: QuickFindUF
    const ufBackwashFix: QuickFindUF

    /** The objects whose contents the grid owns. */
    function Repr(): set<object>
    {
      {this, open, uf.id, ufBackwashFix.id}
    }

    /** The sizes the constructor fixes: n*n cells, n*n+2 forest nodes. */
    predicate Shaped()
    {
      n >= 1 && open.Length == n * n &&
      uf.id.Length == n * n + 2 && ufBackwashFix.id.Length == n * n + 2
    }

    /** The object invariant: the counter counts the open cells, and each
        forest's sets are the connected components of its open graph. */
    ghost predicate Valid()
      reads Repr()
    {
      Shaped() && uf.id != ufBackwashFix.id &&
      uf.Valid() && ufBackwashFix.Valid() &&
      openSiteCount == Count(open[..]) &&
      Describes(uf.id[..], n, open[..], true) &&
      Describes(ufBackwashFix.id[..], n, open[..], false)
    }

    /** Creates an n-by-n grid with every cell blocked. */
    constructor (n: int)
      requires n >= 1
      ensures Valid() && fresh(open) && fresh(uf.id) && fresh(ufBackwashFix.id)
      ensures this.n == n && openSiteCount == 0
      ensures forall i :: 0 <= i < open.Length ==> !open[i]
    {
      this.n := n;
      var a := new bool[n * n];
      openSiteCount := 0;
      BlockAll(a, n);
      open := a;
      uf := new QuickFindUF(n * n + 2);
      ufBackwashFix := new QuickFindUF(n * n + 2);
      new;
      ghost var o := open[..];
      assert forall i :: 0 <= i < |o| ==> !o[i];
      CountAllBlocked(o);
      FreshDescribes(n, o, true);
      FreshDescribes(n, o, false);
    }

    /** The constructor's loop: marks every cell of the n-by-n grid
        blocked, row by row. */
    static method BlockAll(a: array<bool>, n: int)
      requires n >= 1 && a.Length == n * n
      modifies a
      ensures forall k :: 0 <= k < a.Length ==> !a[k]
    {
      var row := 1;
      ghost var start := 0;
      while row <= n
        invariant 1 <= row <= n + 1 && start == n * (row - 1)
        invariant forall k :: 0 <= k < start ==> !a[k]
      {
        var col := 1;
        BelowSquare(n, row - 1, n - 1);
        while col <= n
          invariant 1 <= col <= n + 1 && start + (col - 1) <= a.Length
          invariant forall k :: 0 <= k < start + (col - 1) ==> !a[k]
        {
          a[RowCol(n, row, col)] := false;
          col := col + 1;
        }
        NextRowStart(n, row);
        row, start := row + 1, start + n;
      }
    }

    /** The grid constructor: rejects a size below 1. */
    static method Create(n: int) returns (r: Result<Percolation>)
      ensures r.IllegalArgument? <==> n <= 0
      ensures r.Ok? ==> fresh(r.value.Repr()) && r.value.Valid() && r.value.n == n
      ensures r.Ok? ==> r.value.NumberOfOpenSites() == 0
      ensures r.Ok? ==> forall row, col :: InGrid(n, row, col) ==> r.value.IsOpen(row, col) == Ok(false)
    {
      if n <= 0 {
        return IllegalArgument;
      }
      var p := new Percolation(n);
      return Ok(p);
    }

    /** Whether (row, col) is open; IllegalArgument outside the grid. */
    function IsOpen(row: int, col: int): (r: Result<bool>)
      reads open
      requires Shaped()
      ensures r.IllegalArgument? <==> !InGrid(n, row, col)
      ensures r.Ok? ==> r.value == open[RowCol(n, row, col)]
    {
      if row < 1 || row > n then IllegalArgument
      else if col < 1 || col > n then IllegalArgument
      else Ok(open[RowCol(n, row, col)])
    }

    /** Whether (row, col) is full: joined to the virtual top through open
        cells, never through the virtual bottom; IllegalArgument outside
        the grid. */
    function IsFull(row: int, col: int): (r: Result<bool>)
      reads Repr()
      requires Valid()
      ensures r.IllegalArgument? <==> !InGrid(n, row, col)
      ensures r.Ok? ==> (r.value <==> Connected(n, open[..], false, RowCol(n, row, col), Top(n)))
      ensures r.Ok? && !open[RowCol(n, row, col)] ==> !r.value
    {
      if row < 1 || row > n then IllegalArgument
      else if col < 1 || col > n then IllegalArgument
      else
        var c := RowCol(n, row, col);
        SameIffConnected(ufBackwashFix.id[..], n, open[..], false, c, Top(n));
        if IsOpen(row, col).value then
          Ok(ufBackwashFix.Find(c) == ufBackwashFix.Find(Top(n)))
        else
          BlockedCellAlone(ufBackwashFix.id[..], n, open[..], false, c, Top(n));
          Ok(false)
    }

    /** The number of open cells. */
    function NumberOfOpenSites(): (k: int)
      reads Repr()
      requires Valid()
      ensures k == Count(open[..]) && 0 <= k <= n * n
    {
      openSiteCount
    }

    /** Whether the system percolates: a walk of open cells joins the virtual
        top to the virtual bottom. */
    function Percolates(): (b: bool)
      reads Repr()
      requires Valid()
      ensures b <==> Connected(n, open[..], true, Top(n), Bottom(n))
    {
      SameIffConnected(uf.id[..], n, open[..], true, Top(n), Bottom(n));
      uf.Find(Top(n)) == uf.Find(Bottom(n))
    }

    /** Opens (row, col) if it is not open already, and joins it in both
        forests to the virtual top (row 1) and to its open neighbours, and
        in the full forest only to the virtual bottom (row n). */
    method Open(row: int, col: int) returns (r: Result<()>)
      requires Valid()
      modifies Repr()
      ensures Valid()
      ensures r == if InGrid(n, row, col) then Ok(()) else IllegalArgument
      ensures !InGrid(n, row, col) || old(open[RowCol(n, row, col)]) ==>
        open[..] == old(open[..]) && openSiteCount == old(openSiteCount) &&
        uf.id[..] == old(uf.id[..]) && ufBackwashFix.id[..] == old(ufBackwashFix.id[..])
      ensures InGrid(n, row, col) && !old(open[RowCol(n, row, col)]) ==>
        open[..] == old(open[..])[RowCol(n, row, col) := true] &&
        openSiteCount == old(openSiteCount) + 1 &&
        uf.id[..] == MergeAll(old(uf.id[..]), OpenPairs(n, open[..], row, col, true)) &&
        ufBackwashFix.id[..] == MergeAll(old(ufBackwashFix.id[..]), OpenPairs(n, open[..], row, col, false))
      ensures old(Percolates()) ==> Percolates()
    {
      if row < 1 || row > n {
        return IllegalArgument;
      }
      if col < 1 || col > n {
        return IllegalArgument;
      }
      r := Ok(());
      if !IsOpen(row, col).value {
        ghost var o0 := open[..];
        OpenBlocked(row, col);
        if old(Percolates()) {
          assert Grows(o0, open[..]);
          ConnectedGrows(n, o0, open[..], true, true, Top(n), Bottom(n));
        }
      }
    }

    /** The body of `open` for a blocked cell: marks it open, counts it, and
        applies the unions. */
    method OpenBlocked(row: int, col: int)
      requires Valid() && InGrid(n, row, col) && !open[RowCol(n, row, col)]
      modifies Repr()
      ensures Valid()
      ensures open[..] == old(open[..])[RowCol(n, row, col) := true]
      ensures openSiteCount == old(openSiteCount) + 1
      ensures uf.id[..] == MergeAll(old(uf.id[..]), OpenPairs(n, open[..], row, col, true))
      ensures ufBackwashFix.id[..] == MergeAll(old(ufBackwashFix.id[..]), OpenPairs(n, open[..], row, col, false))
    {
      var c := RowCol(n, row, col);
      ghost var o0, all0, fix0 := open[..], uf.id[..], ufBackwashFix.id[..];
      open[c] := true;
      assert open[..] == o0[c := true];
      openSiteCount := openSiteCount + 1;
      JoinOpened(row, col);
      OpenStepDescribes(all0, uf.id[..], n, o0, open[..], true, row, col);
      OpenStepDescribes(fix0, ufBackwashFix.id[..], n, o0, open[..], false, row, col);
      CountOpenOne(o0, c);
    }

    /** The forests are sized for the grid and are two separate objects. */
    ghost predicate Forests()
      reads uf.id, ufBackwashFix.id
    {
      Shaped() && uf.id != ufBackwashFix.id && uf.Valid() && ufBackwashFix.Valid()
    }

    /** The unions `open` applies once (row, col) is marked open, in the
        order it applies them. */
    method JoinOpened(row: int, col: int)
      requires Forests() && InGrid(n, row, col)
      modifies uf.id, ufBackwashFix.id
      ensures Forests()
      ensures uf.id[..] == OpenMerge(old(uf.id[..]), n, open[..], row, col, true)
      ensures ufBackwashFix.id[..] == OpenMerge(old(ufBackwashFix.id[..]), n, open[..], row, col, false)
    {
      var c := RowCol(n, row, col);
      ghost var o, a0, f0 := open[..], uf.id[..], ufBackwashFix.id[..];
      ghost var a1, f1 := MergeIf(a0, row == 1, c, Top(n)), MergeIf(f0, row == 1, c, Top(n));
      JoinTop(row, col, a0, f0);
      ghost var a2, f2 := MergeIf(a1, row == n, c, Bottom(n)), f1;
      JoinBottom(row, col, a1, f1);
      JoinNeighbours(row, col, o, a2, f2);
      OpenMergeSplit(n, o, row, col, true, a0, a1, a2, uf.id[..]);
      OpenMergeSplit(n, o, row, col, false, f0, f1, f2, ufBackwashFix.id[..]);
    }

    /** The virtual-top block of `open`: a cell of row 1 joins the virtual
        top in both forests. */
    method JoinTop(row: int, col: int, ghost a: seq<int>, ghost f: seq<int>)
      requires Forests() && InGrid(n, row, col)
      requires uf.id[..] == a && ufBackwashFix.id[..] == f
      modifies uf.id, ufBackwashFix.id
      ensures Forests()
      ensures uf.id[..] == MergeIf(a, row == 1, RowCol(n, row, col), Top(n))
      ensures ufBackwashFix.id[..] == MergeIf(f, row == 1, RowCol(n, row, col), Top(n))
    {
      if row == 1 {
        var c := RowCol(n, row, col);
        uf.Union(c, Top(n));
        ufBackwashFix.Union(c, Top(n));
      }
    }

    /** The virtual-bottom block of `open`: a cell of row n joins the virtual
        bottom in the full forest only. */
    method JoinBottom(row: int, col: int, ghost a: seq<int>, ghost f: seq<int>)
      requires Forests() && InGrid(n, row, col)
      requires uf.id[..] == a && ufBackwashFix.id[..] == f
      modifies uf.id
      ensures Forests()
      ensures uf.id[..] == MergeIf(a, row == n, RowCol(n, row, col), Bottom(n))
      ensures ufBackwashFix.id[..] == f
    {
      if row == n {
        uf.Union(RowCol(n, row, col), Bottom(n));
      }
    }

    /** The four neighbour blocks of `open`, in the order it applies them. */
    method JoinNeighbours(row: int, col: int, ghost o: seq<bool>, ghost a: seq<int>, ghost f: seq<int>)
      requires Forests() && InGrid(n, row, col) && o == open[..]
      requires uf.id[..] == a && ufBackwashFix.id[..] == f
      modifies uf.id, ufBackwashFix.id
      ensures Forests()
      ensures uf.id[..] == NeighbourMerge(a, n, o, row, col)
      ensures ufBackwashFix.id[..] == NeighbourMerge(f, n, o, row, col)
    {
      var c := RowCol(n, row, col);
      JoinNeighbour(c, row - 1, col, o, a, f);
      ghost var a3, f3 := uf.id[..], ufBackwashFix.id[..];
      JoinNeighbour(c, row, col - 1, o, a3, f3);
      ghost var a4, f4 := uf.id[..], ufBackwashFix.id[..];
      JoinNeighbour(c, row + 1, col, o, a4, f4);
      ghost var a5, f5 := uf.id[..], ufBackwashFix.id[..];
      JoinNeighbour(c, row, col + 1, o, a5, f5);
      NeighbourMergeSteps(n, o, row, col, a, a3, a4, a5, uf.id[..]);
      NeighbourMergeSteps(n, o, row, col, f, f3, f4, f5, ufBackwashFix.id[..]);
    }

    /** One neighbour step of `open`: when (row', col') lies in the grid and
        is open, unions the cell c with it in both forests. */
    method JoinNeighbour(c: int, row': int, col': int, ghost o: seq<bool>, ghost a: seq<int>, ghost f: seq<int>)
      requires Forests() && IsCell(n, c) && o == open[..]
      requires uf.id[..] == a && ufBackwashFix.id[..] == f
      modifies uf.id, ufBackwashFix.id
      ensures Forests() && o == open[..]
      ensures uf.id[..] == MergeIf(a, NeighbourOpen(n, o, row', col'), c, RowCol(n, row', col'))
      ensures ufBackwashFix.id[..] == MergeIf(f, NeighbourOpen(n, o, row', col'), c, RowCol(n, row', col'))
    {
      if 1 <= row' <= n && 1 <= col' <= n {
        if IsOpen(row', col').value {
          var j := RowCol(n, row', col');
          uf.Union(c, j);
          ufBackwashFix.Union(c, j);
        }
      }
    }
  }
}
