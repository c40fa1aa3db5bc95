/** What the two forests of a percolation grid mean. A forest's sets are
    exactly the connected components of the open graph: the full forest
    with the virtual bottom wired to the open cells of the last row, the
    backwash-free forest without it. Opening a cell merges it with exactly
    its edges in that graph, which keeps this so. */
module Connectivity {
  import opened Grid
  import opened OpenGraph
  import opened DisjointSet

  /** Two nodes share a set only if a walk joins them. */
  ghost predicate Sound(s: seq<int>, n: int, o: seq<bool>, wired: bool)
  {
    forall i, j {:trigger Connected(n, o, wired, i, j)} :: Same(s, i, j) ==> Connected(n, o, wired, i, j)
  }

  /** Every edge lies within one set. */
  ghost predicate Complete(s: seq<int>, n: int, o: seq<bool>, wired: bool)
  {
    forall i, j {:trigger Edge(n, o, wired, i, j)} :: Edge(n, o, wired, i, j) ==> Same(s, i, j)
  }

  /** The sets of s are the connected components of the n-by-n grid o. */
  ghost predicate Describes(s: seq<int>, n: int, o: seq<bool>, wired: bool)
  {
    n >= 1 && |o| == n * n && |s| == n * n + 2 &&
    Sound(s, n, o, wired) && Complete(s, n, o, wired)
  }

  /** The unions `Percolation.Open(row, col)` applies to one forest, in the
      order it applies them, given the grid o after the cell was marked
      open: the virtual top for row 1, the virtual bottom for row n (only
      when wired), then the open neighbours above, left, below and right. */
  function OpenPairs(n: int, o: seq<bool>, row: int, col: int, wired: bool): (ps: seq<(int, int)>)
    requires InGrid(n, row, col) && |o| == n * n
    ensures forall p :: p in ps ==> p.0 == RowCol(n, row, col) && 0 <= p.0 < n * n + 2 && 0 <= p.1 < n * n + 2
  {
    var c := RowCol(n, row, col);
    Link(c, row == 1, Top(n))
    + Link(c, wired && row == n, Bottom(n))
    + NeighbourLink(n, o, c, row - 1, col)
    + NeighbourLink(n, o, c, row, col - 1)
    + NeighbourLink(n, o, c, row + 1, col)
    + NeighbourLink(n, o, c, row, col + 1)
  }

  /** The cells and sentinels `open(row, col)` unions the cell with. */
  lemma OpenPairsMembers(n: int, o: seq<bool>, row: int, col: int, wired: bool, j: int)
    requires InGrid(n, row, col) && |o| == n * n
    ensures (RowCol(n, row, col), j) in OpenPairs(n, o, row, col, wired) <==>
      (row == 1 && j == Top(n)) ||
      (wired && row == n && j == Bottom(n)) ||
      (row - 1 >= 1 && j == RowCol(n, row - 1, col) && o[j]) ||
      (col - 1 >= 1 && j == RowCol(n, row, col - 1) && o[j]) ||
      (row + 1 <= n && j == RowCol(n, row + 1, col) && o[j]) ||
      (col + 1 <= n && j == RowCol(n, row, col + 1) && o[j])
  {
  }

  /** The union of c with j, when `wanted` holds. */
  function Link(c: int, wanted: bool, j: int): (ps: seq<(int, int)>)
    ensures forall p :: p in ps <==> wanted && p == (c, j)
  {
    if wanted then [(c, j)] else []
  }

  /** Merging the pairs of one link is one merge, or none. */
  lemma MergeAllLink(s: seq<int>, c: int, wanted: bool, j: int)
    ensures MergeAll(s, Link(c, wanted, j)) == MergeIf(s, wanted, c, j)
  {
    if wanted {
      assert [(c, j)][..0] == [];
    }
  }

  /** The union of c with the cell (row, col), when that cell lies in the
      grid and is open. */
  function NeighbourLink(n: int, o: seq<bool>, c: int, row: int, col: int): (ps: seq<(int, int)>)
    requires |o| == n * n
    ensures forall p :: p in ps ==> InGrid(n, row, col) && p == (c, RowCol(n, row, col))
  {
    Link(c, NeighbourOpen(n, o, row, col), RowCol(n, row, col))
  }

  /** (row, col) lies in the grid and is open. */
  predicate NeighbourOpen(n: int, o: seq<bool>, row: int, col: int)
    requires |o| == n * n
  {
    InGrid(n, row, col) && o[RowCol(n, row, col)]
  }

  /** The labelling after the four guarded neighbour unions of
      `Percolation.Open(row, col)`: above, left, below, right, in that order. */
  function NeighbourMerge(s: seq<int>, n: int, o: seq<bool>, row: int, col: int): (r: seq<int>)
    requires InGrid(n, row, col) && |o| == n * n
    ensures |r| == |s|
  {
    var c := RowCol(n, row, col);
    var s3 := MergeIf(s, NeighbourOpen(n, o, row - 1, col), c, RowCol(n, row - 1, col));
    var s4 := MergeIf(s3, NeighbourOpen(n, o, row, col - 1), c, RowCol(n, row, col - 1));
    var s5 := MergeIf(s4, NeighbourOpen(n, o, row + 1, col), c, RowCol(n, row + 1, col));
    MergeIf(s5, NeighbourOpen(n, o, row, col + 1), c, RowCol(n, row, col + 1))
  }

  /** Four labellings, each one guarded neighbour union of
      `Percolation.Open(row, col)` after the one before, end in
      NeighbourMerge of the first. */
  lemma NeighbourMergeSteps(n: int, o: seq<bool>, row: int, col: int,
                            s2: seq<int>, s3: seq<int>, s4: seq<int>, s5: seq<int>, s6: seq<int>)
    requires InGrid(n, row, col) && |o| == n * n
    requires s3 == MergeIf(s2, NeighbourOpen(n, o, row - 1, col), RowCol(n, row, col), RowCol(n, row - 1, col))
    requires s4 == MergeIf(s3, NeighbourOpen(n, o, row, col - 1), RowCol(n, row, col), RowCol(n, row, col - 1))
    requires s5 == MergeIf(s4, NeighbourOpen(n, o, row + 1, col), RowCol(n, row, col), RowCol(n, row + 1, col))
    requires s6 == MergeIf(s5, NeighbourOpen(n, o, row, col + 1), RowCol(n, row, col), RowCol(n, row, col + 1))
    ensures s6 == NeighbourMerge(s2, n, o, row, col)
  {
  }

  /** The labelling after the six guarded unions of `Percolation.Open(row,
      col)`, one after another, in the order it applies them: the virtual top,
      the virtual bottom (when wired), then the four neighbours. */
  function OpenMerge(s: seq<int>, n: int, o: seq<bool>, row: int, col: int, wired: bool): (r: seq<int>)
    requires InGrid(n, row, col) && |o| == n * n
    ensures |r| == |s|
  {
    var c := RowCol(n, row, col);
    var s1 := MergeIf(s, row == 1, c, Top(n));
    NeighbourMerge(MergeIf(s1, wired && row == n, c, Bottom(n)), n, o, row, col)
  }

  /** The two sentinel unions followed by the neighbour unions. */
  lemma OpenMergeSplit(n: int, o: seq<bool>, row: int, col: int, wired: bool,
                       s0: seq<int>, s1: seq<int>, s2: seq<int>, s6: seq<int>)
    requires InGrid(n, row, col) && |o| == n * n
    requires s1 == MergeIf(s0, row == 1, RowCol(n, row, col), Top(n))
    requires s2 == if wired then MergeIf(s1, row == n, RowCol(n, row, col), Bottom(n)) else s1
    requires s6 == NeighbourMerge(s2, n, o, row, col)
    ensures s6 == OpenMerge(s0, n, o, row, col, wired)
  {
  }

  /** The six guarded unions of `open(row, col)` merge exactly its pair list. */
  lemma OpenMergeIsMergeAll(s: seq<int>, n: int, o: seq<bool>, row: int, col: int, wired: bool)
    requires InGrid(n, row, col) && |o| == n * n
    ensures OpenMerge(s, n, o, row, col, wired) == MergeAll(s, OpenPairs(n, o, row, col, wired))
  {
    var c := RowCol(n, row, col);
    var s1 := MergeIf(s, row == 1, c, Top(n));
    var s2 := MergeIf(s1, wired && row == n, c, Bottom(n));
    var s3 := MergeIf(s2, NeighbourOpen(n, o, row - 1, col), c, RowCol(n, row - 1, col));
    var s4 := MergeIf(s3, NeighbourOpen(n, o, row, col - 1), c, RowCol(n, row, col - 1));
    var s5 := MergeIf(s4, NeighbourOpen(n, o, row + 1, col), c, RowCol(n, row + 1, col));
    var l1, l2 := Link(c, row == 1, Top(n)), Link(c, wired && row == n, Bottom(n));
    var l3, l4 := NeighbourLink(n, o, c, row - 1, col), NeighbourLink(n, o, c, row, col - 1);
    var l5, l6 := NeighbourLink(n, o, c, row + 1, col), NeighbourLink(n, o, c, row, col + 1);
    MergeAllLink(s, c, row == 1, Top(n));
    MergeAllLink(s1, c, wired && row == n, Bottom(n));
    MergeAllLink(s2, c, NeighbourOpen(n, o, row - 1, col), RowCol(n, row - 1, col));
    MergeAllLink(s3, c, NeighbourOpen(n, o, row, col - 1), RowCol(n, row, col - 1));
    MergeAllLink(s4, c, NeighbourOpen(n, o, row + 1, col), RowCol(n, row + 1, col));
    MergeAllLink(s5, c, NeighbourOpen(n, o, row, col + 1), RowCol(n, row, col + 1));
    MergeAllAppend(s, l1, l2);
    MergeAllAppend(s, l1 + l2, l3);
    MergeAllAppend(s, l1 + l2 + l3, l4);
    MergeAllAppend(s, l1 + l2 + l3 + l4, l5);
    MergeAllAppend(s, l1 + l2 + l3 + l4 + l5, l6);
  }

  /** The four neighbour unions, applied to both labellings, keep the first
      finer than the second. */
  lemma NeighbourMergeKeepsFiner(s: seq<int>, t: seq<int>, n: int, o: seq<bool>, row: int, col: int)
    requires InGrid(n, row, col) && |o| == n * n && Finer(s, t)
    ensures Finer(NeighbourMerge(s, n, o, row, col), NeighbourMerge(t, n, o, row, col))
  {
    var c := RowCol(n, row, col);
    var s3 := MergeIf(s, NeighbourOpen(n, o, row - 1, col), c, RowCol(n, row - 1, col));
    var t3 := MergeIf(t, NeighbourOpen(n, o, row - 1, col), c, RowCol(n, row - 1, col));
    MergeBothKeepsFiner(s, t, NeighbourOpen(n, o, row - 1, col), c, RowCol(n, row - 1, col));
    var s4 := MergeIf(s3, NeighbourOpen(n, o, row, col - 1), c, RowCol(n, row, col - 1));
    var t4 := MergeIf(t3, NeighbourOpen(n, o, row, col - 1), c, RowCol(n, row, col - 1));
    MergeBothKeepsFiner(s3, t3, NeighbourOpen(n, o, row, col - 1), c, RowCol(n, row, col - 1));
    var s5 := MergeIf(s4, NeighbourOpen(n, o, row + 1, col), c, RowCol(n, row + 1, col));
    var t5 := MergeIf(t4, NeighbourOpen(n, o, row + 1, col), c, RowCol(n, row + 1, col));
    MergeBothKeepsFiner(s4, t4, NeighbourOpen(n, o, row + 1, col), c, RowCol(n, row + 1, col));
    MergeBothKeepsFiner(s5, t5, NeighbourOpen(n, o, row, col + 1), c, RowCol(n, row, col + 1));
  }

  /** One `Percolation.Open(row, col)` applies to the full forest every union
      it applies to the backwash-free forest, and the bottom union besides:
      so it keeps the backwash-free sets within the full forest's sets. */
  lemma OpenKeepsFiner(sFix: seq<int>, sAll: seq<int>, n: int, o: seq<bool>, row: int, col: int)
    requires InGrid(n, row, col) && |o| == n * n && Finer(sFix, sAll)
    ensures Finer(OpenMerge(sFix, n, o, row, col, false), OpenMerge(sAll, n, o, row, col, true))
    ensures Finer(MergeAll(sFix, OpenPairs(n, o, row, col, false)), MergeAll(sAll, OpenPairs(n, o, row, col, true)))
  {
    var c := RowCol(n, row, col);
    var f1, a1 := MergeIf(sFix, row == 1, c, Top(n)), MergeIf(sAll, row == 1, c, Top(n));
    MergeBothKeepsFiner(sFix, sAll, row == 1, c, Top(n));
    var f2, a2 := f1, MergeIf(a1, row == n, c, Bottom(n));
    MergeCoarserKeepsFiner(f1, a1, row == n, c, Bottom(n));
    NeighbourMergeKeepsFiner(f2, a2, n, o, row, col);
    OpenMergeSplit(n, o, row, col, false, sFix, f1, f2, NeighbourMerge(f2, n, o, row, col));
    OpenMergeSplit(n, o, row, col, true, sAll, a1, a2, NeighbourMerge(a2, n, o, row, col));
    OpenMergeIsMergeAll(sFix, n, o, row, col, false);
    OpenMergeIsMergeAll(sAll, n, o, row, col, true);
  }

  /** Once the cell is open, the pairs `open` unions are exactly the edges
      of that cell. */
  lemma OpenPairsAreCellEdges(n: int, o: seq<bool>, row: int, col: int, wired: bool, j: int)
    requires InGrid(n, row, col) && |o| == n * n && o[RowCol(n, row, col)]
    ensures (RowCol(n, row, col), j) in OpenPairs(n, o, row, col, wired)
        <==> Edge(n, o, wired, RowCol(n, row, col), j)
  {
    if (RowCol(n, row, col), j) in OpenPairs(n, o, row, col, wired) {
      PairIsEdge(n, o, row, col, wired, j);
    }
    if Edge(n, o, wired, RowCol(n, row, col), j) {
      EdgeIsPair(n, o, row, col, wired, j);
    }
  }

  lemma PairIsEdge(n: int, o: seq<bool>, row: int, col: int, wired: bool, j: int)
    requires InGrid(n, row, col) && |o| == n * n && o[RowCol(n, row, col)]
    requires (RowCol(n, row, col), j) in OpenPairs(n, o, row, col, wired)
    ensures Edge(n, o, wired, RowCol(n, row, col), j)
  {
    var c := RowCol(n, row, col);
    OpenPairsMembers(n, o, row, col, wired, j);
    RowColInverse(n, row, col);
    if row == 1 && j == Top(n) {
      assert OpenInRow(n, o, c, 1);
    } else if wired && row == n && j == Bottom(n) {
      assert OpenInRow(n, o, c, n);
    } else if row - 1 >= 1 && j == RowCol(n, row - 1, col) {
      NeighbourIsEdge(n, o, wired, row, col, row - 1, col);
    } else if col - 1 >= 1 && j == RowCol(n, row, col - 1) {
      NeighbourIsEdge(n, o, wired, row, col, row, col - 1);
    } else if row + 1 <= n && j == RowCol(n, row + 1, col) {
      NeighbourIsEdge(n, o, wired, row, col, row + 1, col);
    } else {
      NeighbourIsEdge(n, o, wired, row, col, row, col + 1);
    }
  }

  /** Two open grid neighbours are joined by an edge. */
  lemma NeighbourIsEdge(n: int, o: seq<bool>, wired: bool, row: int, col: int, row': int, col': int)
    requires InGrid(n, row, col) && InGrid(n, row', col') && |o| == n * n
    requires (row' == row && (col' == col - 1 || col' == col + 1)) ||
             (col' == col && (row' == row - 1 || row' == row + 1))
    requires o[RowCol(n, row, col)] && o[RowCol(n, row', col')]
    ensures Edge(n, o, wired, RowCol(n, row, col), RowCol(n, row', col'))
  {
    NeighbourIsAdjacent(n, row, col, row', col');
  }

  /** Two open grid neighbours are connected. */
  lemma NeighbourConnected(n: int, o: seq<bool>, wired: bool, row: int, col: int, row': int, col': int)
    requires InGrid(n, row, col) && InGrid(n, row', col') && |o| == n * n
    requires (row' == row && (col' == col - 1 || col' == col + 1)) ||
             (col' == col && (row' == row - 1 || row' == row + 1))
    requires o[RowCol(n, row, col)] && o[RowCol(n, row', col')]
    ensures Connected(n, o, wired, RowCol(n, row, col), RowCol(n, row', col'))
  {
    NeighbourIsEdge(n, o, wired, row, col, row', col');
    EdgeConnected(n, o, wired, RowCol(n, row, col), RowCol(n, row', col'));
  }

  lemma EdgeIsPair(n: int, o: seq<bool>, row: int, col: int, wired: bool, j: int)
    requires InGrid(n, row, col) && |o| == n * n && o[RowCol(n, row, col)]
    requires Edge(n, o, wired, RowCol(n, row, col), j)
    ensures (RowCol(n, row, col), j) in OpenPairs(n, o, row, col, wired)
  {
    var c := RowCol(n, row, col);
    OpenPairsMembers(n, o, row, col, wired, j);
    RowColInverse(n, row, col);
    if Adjacent(n, c, j) {
      AdjacentIsNeighbour(n, row, col, j);
    }
  }

  /** A walk whose edges all lie within sets of s stays within one set. */
  lemma {:induction false} PathInOneSet(s: seq<int>, n: int, o: seq<bool>, wired: bool, p: seq<int>)
    requires |s| == n * n + 2 && Complete(s, n, o, wired) && IsPath(n, o, wired, p)
    ensures Same(s, p[0], p[|p| - 1])
  {
    if |p| > 1 {
      var init := p[..|p| - 1];
      assert IsPath(n, o, wired, init) by {
        assert forall k :: 0 <= k < |init| ==> init[k] == p[k];
      }
      PathInOneSet(s, n, o, wired, init);
      assert Edge(n, o, wired, p[|p| - 2], p[|p| - 1]);
    }
  }

  /** Two nodes share a set exactly when a walk joins them. */
  lemma SameIffConnected(s: seq<int>, n: int, o: seq<bool>, wired: bool, i: int, j: int)
    requires Describes(s, n, o, wired)
    ensures Same(s, i, j) <==> Connected(n, o, wired, i, j)
  {
    if Connected(n, o, wired, i, j) {
      var p :| IsPath(n, o, wired, p) && p[0] == i && p[|p| - 1] == j;
      PathInOneSet(s, n, o, wired, p);
    }
  }

  /** A fresh forest describes a grid with every cell blocked. */
  lemma FreshDescribes(n: int, o: seq<bool>, wired: bool)
    requires n >= 1 && |o| == n * n && forall i :: 0 <= i < |o| ==> !o[i]
    ensures Describes(Singletons(n * n + 2), n, o, wired)
  {
    var s := Singletons(n * n + 2);
    forall i, j | Same(s, i, j)
      ensures Connected(n, o, wired, i, j)
    {
      ConnectedRefl(n, o, wired, i);
    }
  }

  /** Sets joined by a walk stay joined when more cells open. */
  lemma SoundGrows(s: seq<int>, n: int, o: seq<bool>, o': seq<bool>, wired: bool)
    requires Sound(s, n, o, wired) && Grows(o, o')
    ensures Sound(s, n, o', wired)
  {
    forall i, j | Same(s, i, j)
      ensures Connected(n, o', wired, i, j)
    {
      ConnectedGrows(n, o, o', wired, wired, i, j);
    }
  }

  /** Merging the two ends of an edge keeps every set joined by walks. */
  lemma MergeEdgeKeepsSound(s: seq<int>, n: int, o: seq<bool>, wired: bool, a: int, b: int)
    requires |s| == n * n + 2 && Sound(s, n, o, wired) && Edge(n, o, wired, a, b)
    ensures IsNode(n, a) && IsNode(n, b)
    ensures Sound(Merge(s, a, b), n, o, wired)
  {
    EdgeNodes(n, o, wired, a, b);
    var r := Merge(s, a, b);
    forall x, y | Same(r, x, y)
      ensures Connected(n, o, wired, x, y)
    {
      if !Same(s, x, y) {
        EdgeConnected(n, o, wired, a, b);
        ConnectedSym(n, o, wired, a, b);
        if Same(s, x, a) && Same(s, y, b) {
          assert Same(s, b, y);
          ConnectedTrans(n, o, wired, x, a, b);
          ConnectedTrans(n, o, wired, x, b, y);
        } else {
          assert Same(s, x, b) && Same(s, a, y);
          ConnectedTrans(n, o, wired, x, b, a);
          ConnectedTrans(n, o, wired, x, a, y);
        }
      }
    }
  }

  /** Merging the two ends of each of a list of edges keeps every set joined by walks. */
  lemma {:induction false} MergeEdgesKeepsSound(s: seq<int>, n: int, o: seq<bool>, wired: bool, ps: seq<(int, int)>)
    requires |s| == n * n + 2 && Sound(s, n, o, wired)
    requires forall p :: p in ps ==> 0 <= p.0 < |s| && 0 <= p.1 < |s|
    requires forall p :: p in ps ==> Edge(n, o, wired, p.0, p.1)
    ensures Sound(MergeAll(s, ps), n, o, wired)
  {
    if ps != [] {
      var init := ps[..|ps| - 1];
      var last := ps[|ps| - 1];
      assert ps == init + [last];
      MergeEdgesKeepsSound(s, n, o, wired, init);
      MergeEdgeKeepsSound(MergeAll(s, init), n, o, wired, last.0, last.1);
    }
  }

  /** Edges not touching the opened cell are edges of the old grid. */
  lemma EdgeAwayFromCell(n: int, o: seq<bool>, c: int, wired: bool, x: int, y: int)
    requires 0 <= c < |o| && x != c && y != c && Edge(n, o[c := true], wired, x, y)
    ensures Edge(n, o, wired, x, y)
  {
  }

  /** Opening a blocked cell and applying the unions `open` applies keeps a
      forest describing the grid. */
  lemma OpenKeepsDescribes(s: seq<int>, n: int, o: seq<bool>, wired: bool, row: int, col: int)
    requires Describes(s, n, o, wired) && InGrid(n, row, col) && !o[RowCol(n, row, col)]
    ensures Describes(MergeAll(s, OpenPairs(n, o[RowCol(n, row, col) := true], row, col, wired)),
                      n, o[RowCol(n, row, col) := true], wired)
  {
    var o' := o[RowCol(n, row, col) := true];
    var s' := MergeAll(s, OpenPairs(n, o', row, col, wired));
    OpenKeepsSound(s, n, o, wired, row, col);
    forall x, y | Edge(n, o', wired, x, y)
      ensures Same(s', x, y)
    {
      OpenEdgeJoined(s, n, o, wired, row, col, x, y);
    }
  }

  /** One forest across one `open(row, col)`: the labelling s' the six
      guarded unions produce is the pair list merged into s, and it describes
      the grid o' with the cell opened. */
  lemma OpenStepDescribes(s: seq<int>, s': seq<int>, n: int, o: seq<bool>, o': seq<bool>,
                          wired: bool, row: int, col: int)
    requires Describes(s, n, o, wired) && InGrid(n, row, col) && !o[RowCol(n, row, col)]
    requires o' == o[RowCol(n, row, col) := true]
    requires s' == OpenMerge(s, n, o', row, col, wired)
    ensures s' == MergeAll(s, OpenPairs(n, o', row, col, wired))
    ensures Describes(s', n, o', wired)
  {
    OpenMergeIsMergeAll(s, n, o', row, col, wired);
    OpenKeepsDescribes(s, n, o, wired, row, col);
  }

  /** Every walk a forest's set stood for survives the opening, and so does
      every walk the new unions join. */
  lemma OpenKeepsSound(s: seq<int>, n: int, o: seq<bool>, wired: bool, row: int, col: int)
    requires Describes(s, n, o, wired) && InGrid(n, row, col) && !o[RowCol(n, row, col)]
    ensures Sound(MergeAll(s, OpenPairs(n, o[RowCol(n, row, col) := true], row, col, wired)),
                  n, o[RowCol(n, row, col) := true], wired)
  {
    var c := RowCol(n, row, col);
    var o' := o[c := true];
    var ps := OpenPairs(n, o', row, col, wired);
    assert Grows(o, o');
    SoundGrows(s, n, o, o', wired);
    forall p | p in ps
      ensures Edge(n, o', wired, p.0, p.1)
    {
      OpenPairsAreCellEdges(n, o', row, col, wired, p.1);
    }
    MergeEdgesKeepsSound(s, n, o', wired, ps);
  }

  /** After the opening, each edge of the grid lies within one set: the
      edges of the opened cell are the pairs just merged, and every other
      edge was there before. */
  lemma OpenEdgeJoined(s: seq<int>, n: int, o: seq<bool>, wired: bool, row: int, col: int, x: int, y: int)
    requires Describes(s, n, o, wired) && InGrid(n, row, col) && !o[RowCol(n, row, col)]
    requires Edge(n, o[RowCol(n, row, col) := true], wired, x, y)
    ensures Same(MergeAll(s, OpenPairs(n, o[RowCol(n, row, col) := true], row, col, wired)), x, y)
  {
    var c := RowCol(n, row, col);
    var o' := o[c := true];
    var ps := OpenPairs(n, o', row, col, wired);
    if x == c || y == c {
      var other := if x == c then y else x;
      if y == c {
        EdgeSymmetric(n, o', wired, x, y);
      }
      OpenPairsAreCellEdges(n, o', row, col, wired, other);
      var k :| 0 <= k < |ps| && ps[k] == (c, other);
      MergeAllJoinsPairs(s, ps, k);
    } else {
      EdgeAwayFromCell(n, o, c, wired, x, y);
      MergeAllKeepsSame(s, ps, x, y);
    }
  }

  /** A blocked cell is alone in its set: nothing was ever merged with it. */
  lemma BlockedCellAlone(s: seq<int>, n: int, o: seq<bool>, wired: bool, i: int, j: int)
    requires Describes(s, n, o, wired) && IsCell(n, i) && !o[i]
    ensures Same(s, i, j) <==> j == i
  {
    if Same(s, i, j) {
      forall k ensures !Edge(n, o, wired, i, k) {
        BlockedHasNoEdge(n, o, wired, i, k);
      }
      IsolatedReachesItself(n, o, wired, i, j);
    }
  }

  /** In the backwash-free forest the virtual bottom is alone in its set. */
  lemma UnwiredBottomAlone(s: seq<int>, n: int, o: seq<bool>, j: int)
    requires Describes(s, n, o, false)
    ensures Same(s, Bottom(n), j) <==> j == Bottom(n)
  {
    if Same(s, Bottom(n), j) {
      forall k ensures !Edge(n, o, false, Bottom(n), k) {
        UnwiredBottomHasNoEdge(n, o, k);
      }
      IsolatedReachesItself(n, o, false, Bottom(n), j);
    }
  }

  /** Every set of the backwash-free forest lies within a set of the full one. */
  lemma BackwashFreeIsFiner(sFix: seq<int>, sAll: seq<int>, n: int, o: seq<bool>)
    requires Describes(sFix, n, o, false) && Describes(sAll, n, o, true)
    ensures Finer(sFix, sAll)
  {
    forall x, y | Same(sFix, x, y)
      ensures Same(sAll, x, y)
    {
      SameIffConnected(sFix, n, o, false, x, y);
      ConnectedGrows(n, o, o, false, true, x, y);
      SameIffConnected(sAll, n, o, true, x, y);
    }
  }

  /** Two nodes once in one set stay so however many more cells open:
      percolation and fullness, once reached, persist. */
  lemma JoinedStaysJoined(s: seq<int>, s': seq<int>, n: int, o: seq<bool>, o': seq<bool>, wired: bool, x: int, y: int)
    requires Describes(s, n, o, wired) && Describes(s', n, o', wired) && Grows(o, o')
    requires Same(s, x, y)
    ensures Same(s', x, y)
  {
    SameIffConnected(s, n, o, wired, x, y);
    ConnectedGrows(n, o, o', wired, wired, x, y);
    SameIffConnected(s', n, o', wired, x, y);
  }

  /** With no open cell in the last row, the virtual top and bottom are apart. */
  lemma NoOpenLastRowNoPercolation(s: seq<int>, n: int, o: seq<bool>)
    requires Describes(s, n, o, true)
    requires forall i :: IsCell(n, i) && RowOf(n, i) == n ==> !o[i]
    ensures !Same(s, Top(n), Bottom(n))
  {
    if Same(s, Bottom(n), Top(n)) {
      forall k ensures !Edge(n, o, true, Bottom(n), k) {
      }
      IsolatedReachesItself(n, o, true, Bottom(n), Top(n));
    }
  }
}
