# Percolation grid

A Dafny model of `Percolation.java`: an n-by-n grid of sites that start
blocked and can only be opened, with a running count of open sites and two
disjoint-set forests of n*n+2 nodes. Site (row, col), 1-based, has the linear
index `n*(row-1)+(col-1)`. Node n*n is the virtual top and n*n+1 the virtual
bottom. `open` marks a site and then unions it, in both forests, with the
virtual top (row 1) and with each open neighbour (above, left, below, right).
A site of row n is unioned with the virtual bottom in the full forest `uf`
only. `percolates` compares the sentinels' representatives in `uf`. `isFull`
compares the site's representative with the virtual top's in the
backwash-free forest `ufBackwashFix`. Keeping the bottom out of that forest
avoids backwash: a bottom-row site that reaches the top only through the
virtual bottom would otherwise count as full.

Modules, in dependency order:

- `Grid` (grid.dfy): coordinates and the index bijection, the sentinels, the
  count of open sites.
- `DisjointSet` (disjoint_set.dfy): the disjoint-set class `QuickFindUF`.
  This is a component-label array: `id[x]` is the representative of x's set,
  `Find` reads it and `Union` relabels with a loop. It stands in for the
  library's weighted quick-union class, whose internals are not part of this
  model, and meets its contract: after `union(a, b)` the two sets are one,
  and two `find` results are equal exactly when the elements share a set. A
  labelling as a value (`seq<int>`) with `Merge` and `MergeAll` is the
  specification the class is proved against.
- `OpenGraph` (open_graph.dfy): the graph the forests stand for.
  - Its nodes are the n*n sites and the two sentinels.
  - Two open grid neighbours are joined by an edge.
  - The virtual top is joined to each open site of row 1.
  - When the bottom is "wired", the virtual bottom is joined to each open
    site of row n.
  - `Connected` means some walk leads from one node to the other.
- `Connectivity` (connectivity.dfy): the meaning of the forests.
  - The invariant `Describes` says a forest's sets are exactly the connected
    components of its graph: wired for `uf`, unwired for `ufBackwashFix`.
  - `OpenPairs` lists the unions `open` performs, in source order.
  - `OpenKeepsDescribes` proves that `open` keeps the invariant.
  - From the invariant follow the listed properties: percolation means a walk
    from the top to the bottom, fullness means a walk to the top that avoids
    the virtual bottom, and more.
- `Percolation` (percolation.dfy): the class itself, with an `array<bool>`,
  the counter and two `QuickFindUF` objects. `open` is a method. The queries
  are functions whose contracts state what their answer means in the graph.
  The body of `open` is split into helper methods, one per block of unions in
  the source, so that each proof stays small. The unions themselves and their
  order are the source's.
- `Scenarios` (scenarios.dfy): concrete runs.
  - On a 1-by-1 grid, one `open` makes the system percolate.
  - On a 3-by-3 grid, opening the left column makes it percolate only at the
    third `open`, after which the column's sites are full.
  - Opening the bottom-right corner as well joins the corner to the top in
    `uf` through the virtual bottom, yet `isFull(3, 3)` stays false. This is
    the backwash case.

An `IllegalArgumentException` is modelled as the `IllegalArgument` value of
`Result`. The constructor's check is the static method `Create`. The
constructor itself takes `n >= 1` as a precondition.

The neighbour test in `open` checks one coordinate (say `row - 1 >= 1`) and
then calls `isOpen`, whose own bounds check covers the other. `JoinNeighbour`
tests both coordinates at once, which accepts exactly the same
neighbours.

## Model

| member | source | states |
|---|---|---|
| Grid.RowCol | Percolation.java:28-30 | a site in the grid has an index in [0, n*n) |
| Grid.RowColInverse | Percolation.java:28-30 | the row and column are recovered from the index |
| Grid.CellCoordinates | Percolation.java:28-30 | every index in [0, n*n) is the index of the site in the grid at its row and column (rowCol is onto) |
| Grid.RowColInjective | Percolation.java:28-30 | two sites in the grid with one index are the same site (rowCol is one-to-one) |
| Grid.Top | Percolation.java:46 | the virtual top `rowCol(n, n) + 1` is node n*n |
| Grid.Bottom | Percolation.java:52 | the virtual bottom `rowCol(n, n) + 2` is node n*n+1 |
| Grid.SentinelsReserved | Percolation.java:24-25 | the two sentinels differ from each other and from every site index, and lie below the forests' size n*n+2 |
| Grid.Count | Percolation.java:6 | the number of open sites never exceeds the number of sites |
| Grid.CountAllBlocked | Percolation.java:17-21 | a grid with every site blocked has a count of 0 |
| Grid.CountOpenOne | Percolation.java:41-42 | marking one blocked site open raises the count by exactly one |
| DisjointSet.Singletons | Percolation.java:24-25 | a fresh forest puts each node alone in its set, and its labels are canonical |
| DisjointSet.Merge | Percolation.java:46 | a union keeps the size and keeps every label canonical |
| DisjointSet.MergeSame | Percolation.java:46 | after union(a, b), two nodes share a set iff they did before, or one was with a and the other with b |
| DisjointSet.MergeIf | Percolation.java:45-47 | a guarded union keeps the size |
| DisjointSet.MergeAll | Percolation.java:44-77 | a list of unions keeps the size and keeps labels canonical |
| DisjointSet.MergeAllAppend | Percolation.java:44-77 | applying two lists of unions in turn is applying their concatenation |
| DisjointSet.MergeAllKeepsSame | Percolation.java:44-77 | unions never split a set |
| DisjointSet.MergeAllJoinsPairs | Percolation.java:44-77 | after a list of unions, the two nodes of each listed pair share a set |
| DisjointSet.MergeSameIsNoop | Percolation.java:46 | a union of two nodes already in one set changes nothing |
| DisjointSet.MergeBothKeepsFiner | Percolation.java:55-77 | a guarded union applied, when wanted, to both forests keeps the backwash-free sets within the full forest's sets |
| DisjointSet.MergeCoarserKeepsFiner | Percolation.java:51-53 | a guarded union applied, when wanted, to the full forest only (the bottom-row union) keeps that containment |
| DisjointSet.QuickFindUF.constructor | Percolation.java:24-25 | a forest of m nodes, each alone in its set |
| DisjointSet.QuickFindUF.Find | Percolation.java:106 | the representative is a member of p's set and its own representative, and two nodes share a set iff their representatives are equal |
| DisjointSet.QuickFindUF.Union | Percolation.java:46 | the new labelling is the old one with the sets of p and q merged, still canonical |
| OpenGraph.EdgeSymmetric | Percolation.java:55-77 | edges are undirected |
| OpenGraph.EdgeGrows | Percolation.java:40-41 | an edge survives more sites opening |
| OpenGraph.ConnectedGrows | Percolation.java:117-119 | a walk survives more sites opening and the bottom being wired |
| OpenGraph.ConnectedTrans | Percolation.java:55-77 | walks compose |
| OpenGraph.ConnectedSym | Percolation.java:55-77 | walks reverse |
| OpenGraph.BlockedHasNoEdge | Percolation.java:40-41 | a blocked site has no edge |
| OpenGraph.UnwiredBottomHasNoEdge | Percolation.java:51-53 | in the backwash-free graph the virtual bottom has no edge |
| OpenGraph.IsolatedReachesItself | Percolation.java:55-77 | a node without edges reaches only itself |
| OpenGraph.TopConnected | Percolation.java:45-48 | an open site of row 1 is joined to the virtual top |
| OpenGraph.BottomConnected | Percolation.java:51-53 | with the bottom wired, an open site of row n is joined to the virtual bottom, both ways |
| OpenGraph.AdjacentIsNeighbour | Percolation.java:55-77 | the only sites adjacent to (row, col) are the four neighbours `open` examines |
| OpenGraph.NeighbourIsAdjacent | Percolation.java:55-77 | each of those four neighbours that lies in the grid is adjacent |
| OpenGraph.WalledInCellAlone | Percolation.java:55-77 | without the bottom, a site outside row 1 whose neighbours are all blocked reaches only itself |
| Connectivity.OpenPairs | Percolation.java:44-77 | every union `open(row, col)` performs joins the opened site with a node of the forest |
| Connectivity.OpenPairsMembers | Percolation.java:44-77 | the site is unioned with j iff j is the top and row is 1, or j is the bottom, row is n and the forest is wired, or j is an open neighbour in the grid |
| Connectivity.Link | Percolation.java:45-53 | a guarded sentinel union is that one pair when its guard holds, and none otherwise |
| Connectivity.MergeAllLink | Percolation.java:45-53 | applying that link is the guarded union |
| Connectivity.NeighbourLink | Percolation.java:55-77 | a neighbour union names only a neighbour that lies in the grid |
| Connectivity.NeighbourMerge | Percolation.java:55-77 | the four neighbour blocks keep the forest's size |
| Connectivity.OpenMerge | Percolation.java:44-77 | the six union blocks keep the forest's size |
| Connectivity.OpenMergeSplit | Percolation.java:44-77 | the two sentinel blocks followed by the neighbour blocks are the whole sequence of blocks |
| Connectivity.NeighbourMergeSteps | Percolation.java:55-77 | the four neighbour blocks, above, left, below, right, in that order |
| Connectivity.NeighbourMergeKeepsFiner | Percolation.java:55-77 | the four neighbour unions, applied to both forests, keep the backwash-free sets within the full forest's sets |
| Connectivity.OpenKeepsFiner | Percolation.java:45-77 | one `open` applies to `uf` every union it applies to `ufBackwashFix`, plus the bottom union, so it keeps that containment |
| Connectivity.OpenMergeIsMergeAll | Percolation.java:44-77 | the six guarded union blocks merge exactly the pair list `OpenPairs` |
| Connectivity.OpenPairsAreCellEdges | Percolation.java:44-77 | once the site is open, the unions `open` performs are exactly the site's edges in the graph |
| Connectivity.PairIsEdge | Percolation.java:44-77 | every union `open` performs is along an edge of the graph |
| Connectivity.EdgeIsPair | Percolation.java:44-77 | every edge at the opened site is a union `open` performs |
| Connectivity.NeighbourIsEdge | Percolation.java:55-77 | two open neighbours are joined by an edge |
| Connectivity.NeighbourConnected | Percolation.java:55-77 | two open neighbours are connected |
| Connectivity.PathInOneSet | Percolation.java:44-77 | if every edge lies within a set, so does every walk |
| Connectivity.SameIffConnected | Percolation.java:106 | under the invariant, two nodes share a set iff a walk joins them |
| Connectivity.FreshDescribes | Percolation.java:24-25 | fresh forests satisfy the invariant on the all-blocked grid |
| Connectivity.SoundGrows | Percolation.java:40-41 | sets joined by walks stay so when sites open |
| Connectivity.MergeEdgeKeepsSound | Percolation.java:44-77 | uniting the two ends of an edge keeps every set joined by walks |
| Connectivity.MergeEdgesKeepsSound | Percolation.java:44-77 | uniting the ends of each of a list of edges keeps every set joined by walks |
| Connectivity.EdgeAwayFromCell | Percolation.java:40-41 | an edge not at the opened site was already an edge before |
| Connectivity.OpenKeepsSound | Percolation.java:40-77 | after `open`, every set is still joined by walks |
| Connectivity.OpenEdgeJoined | Percolation.java:40-77 | after `open`, every edge of the new grid lies within one set |
| Connectivity.OpenKeepsDescribes | Percolation.java:40-77 | opening a blocked site and applying its unions keeps the sets equal to the connected components, in both forests |
| Connectivity.OpenStepDescribes | Percolation.java:40-77 | one forest across one `open`: its new labelling is its pair list merged, and it keeps the invariant |
| Connectivity.BlockedCellAlone | Percolation.java:55-77 | a blocked site is alone in its set in either forest |
| Connectivity.UnwiredBottomAlone | Percolation.java:51-53 | in the backwash-free forest the virtual bottom is alone in its set |
| Connectivity.BackwashFreeIsFiner | Percolation.java:45-77 | nodes joined in the backwash-free forest are joined in the full forest |
| Connectivity.JoinedStaysJoined | Percolation.java:117-119 | nodes once joined stay joined as more sites open, so percolation and fullness persist |
| Connectivity.NoOpenLastRowNoPercolation | Percolation.java:117-119 | with no open site in row n, the virtual top and bottom are in different sets |
| Percolation.Percolation.constructor | Percolation.java:11-26 | every site blocked, count 0, both forests satisfy the invariant |
| Percolation.Percolation.BlockAll | Percolation.java:19-21 | the nested row/column loop leaves every site blocked |
| Percolation.Percolation.Create | Percolation.java:11-13 | construction fails iff n <= 0; otherwise the grid has no open site and `isOpen` is false everywhere |
| Percolation.Percolation.IsOpen | Percolation.java:82-90 | fails iff (row, col) is outside the grid; otherwise the site's state |
| Percolation.Percolation.IsFull | Percolation.java:96-109 | fails iff outside the grid; otherwise true iff a walk joins the site to the virtual top without the virtual bottom; false for a blocked site |
| Percolation.Percolation.NumberOfOpenSites | Percolation.java:112-114 | the number of open sites, at most n*n |
| Percolation.Percolation.Percolates | Percolation.java:117-119 | true iff a walk of open sites joins the virtual top to the virtual bottom |
| Percolation.Percolation.Open | Percolation.java:33-79 | fails iff outside the grid; a no-op on an open site; on a blocked site, opens exactly it, adds one to the count, and applies exactly `OpenPairs` to each forest; keeps the invariant; once percolating, stays so |
| Percolation.Percolation.OpenBlocked | Percolation.java:40-77 | marks the site open, counts it, applies its unions and keeps the invariant |
| Percolation.Percolation.JoinOpened | Percolation.java:44-77 | the six union blocks, in source order, on both forests |
| Percolation.Percolation.JoinTop | Percolation.java:45-48 | a site of row 1 is unioned with the virtual top in both forests |
| Percolation.Percolation.JoinBottom | Percolation.java:51-53 | a site of row n is unioned with the virtual bottom in the full forest only; the backwash-free forest is unchanged |
| Percolation.Percolation.JoinNeighbours | Percolation.java:55-77 | the four neighbour unions, above, left, below, right, on both forests |
| Percolation.Percolation.JoinNeighbour | Percolation.java:55-59 | the site is unioned with a neighbour in both forests iff that neighbour is in the grid and open |
| Scenarios.SingleCellConnected | Percolation.java:117-119 | on a 1-by-1 grid with its site open, the top reaches the bottom |
| Scenarios.SingleCellPercolates | Percolation.java:117-119 | opening (1, 1) of a 1-by-1 grid makes it percolate |
| Scenarios.OpenBlockedCell | Percolation.java:40-42 | `open` on a blocked site opens exactly that site |
| Scenarios.OpenThenPercolates | Percolation.java:117-119 | `open` on a blocked site, then `percolates`, answers whether the top reaches the bottom |
| Scenarios.FourOpens | Percolation.java:40-41 | four opens of a fresh 3-by-3 grid leave the left column and the corner open, and nothing else |
| Scenarios.LastRowBlocked | Percolation.java:51-53 | a 3-by-3 grid with its last row blocked has no walk from top to bottom |
| Scenarios.ColumnWalks | Percolation.java:55-77 | an open left column percolates, and each of its sites reaches the top without the bottom |
| Scenarios.CornerJoinedThroughBottom | Percolation.java:51-53 | once percolating, an open corner of row n reaches the top through the virtual bottom |
| Scenarios.CornerAlone | Percolation.java:55-77 | without the bottom, an open corner with blocked neighbours reaches only itself |
| Scenarios.LeftColumn | Percolation.java:117-119 | opening (1, 1), (2, 1), (3, 1): percolates reads false, false, true, and the three sites are full |
| Scenarios.Backwash | Percolation.java:96-109 | with the left column and (3, 3) open, the system percolates and `uf` joins (3, 3) to the top, yet (3, 3) is not full |

## Left out

- PercolationStats.java: Monte Carlo trials draw random sites, record floating-point mean, deviation and confidence bounds and print them; randomness, floating point and output are outside this model.
- The weighted quick-union internals (union by size, path compression, cost): the library class is foreign; `QuickFindUF` meets only its contract.
- DisjointSet.QuickFindUF.Find: an index outside [0, m) is a precondition rather than a modelled error, because every call in the grid passes a site index or a sentinel below n*n+2 (`Grid.SentinelsReserved`).
- DisjointSet.QuickFindUF.Union: the same; out-of-range indices are a precondition.
- Percolation.Percolation.constructor: a size below 1 is a precondition; the exception is modelled by `Create`.
- Java `int` overflow of `n * n` for very large n: integers are unbounded.
- The empty `main` of Percolation.java: it does nothing.
- Concurrency: the grid is single-owner and sequential.
- Scenarios: each scenario fixes the grid size through a parameter `n` with `requires n == 3` (or a local 1); only those grid sizes are covered.
