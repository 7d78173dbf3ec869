# Percolation engine, modelled and verified in Dafny

This project models the percolation engine of `Percolation.java`. An N-by-N grid
of sites starts with every site closed, and sites are opened one at a time. A site
is *full* when a chain of open, side-sharing sites leads to it from an open site of
the top row. The system *percolates* when such a chain leads from the top row to
the bottom row.

The engine keeps the following state:

- an open flag per flat index;
- a counter of open sites;
- a sticky `percolation` flag;
- two union-find forests over the flat indices. In them the site in row `i` and
  column `j` (both from 1) has index `(i - 1) * N + j`, the virtual top node is
  `0`, and the virtual bottom node is `N * N + 1`.

The forests split the work:

- The percolation forest `uf` has both virtual nodes and answers `percolates()`.
- The fullness forest `fullCheck` has only the virtual top and answers
  `isFull()`. A bottom-row site that is reached only through the virtual bottom
  therefore never reads as full. This is the "backwash" problem.

The project is organised as follows:

- `union_find.dfy` (`UnionFind`) is a quick-find union-find class over an array.
  It stands in for the library's weighted quick-union. Its contracts state
  connectivity only.
- `sites.dfy` (`Sites`) defines the grid's nodes and their flat indices.
- `paths.dfy` (`Paths`) is the reference meaning of the engine's answers:
  reachability in the graph of open sites, with or without the virtual bottom.
- `grid_model.dfy` (`PercolationModel`) gives the engine's state as a value
  (`Grid`) and `open` as a relation on that value (`OpenStep`). Both forests are
  compared up to connectivity: an open fuses the components of the new site's
  *anchors*. The anchors are the site itself, the virtual top for row 1, each open
  neighbour and, in `uf` only, the virtual bottom. The file also holds the
  invariant `Inv`, with the lemmas that establish it and preserve it. `Inv` says:
  - the counter counts the open sites;
  - `fullCheck` connects exactly what the graph without the virtual bottom links;
  - `uf` connects nothing the graph with the virtual bottom does not link, and it
    joins every edge that avoids the virtual bottom;
  - every open bottom-row site is joined to the virtual bottom in `uf` unless the
    percolation flag is set. Once `percolates()` has set the flag, a bottom-row
    site opened later is not joined to the virtual bottom (line 131), so `uf` may
    then miss such edges. `PercolationScenarios.LateBottomNotJoined` shows this;
  - the percolation flag is set only when `uf` joins the two virtual nodes.
- `grid_properties.dfy` (`PercolationProperties`) proves what the answers mean.
- `engine.dfy` (`Engine`) is the engine itself: the class `Percolation` with its
  arrays and forests. Each method is proved against the value model.
- `scenarios.dfy` (`PercolationScenarios`) works small grids from construction
  onward. One of them is the backwash grid, where the percolation forest joins a
  site to the top but `isFull` still answers false.

## Model

| member | source | states |
|---|---|---|
| Engine.Percolation.Create | Percolation.java:31-36 | The constructor fails with IllegalArgument exactly when N < 0; N = 0 and every positive N give a fresh, valid grid in the initial state, whose arrays and forests are new and so owned by the caller |
| Engine.Percolation.constructor | Percolation.java:37-51 | The side is N, the forests have N*N+2 and N*N+1 elements each in its own component, every site is closed, the counter is 0 and the flag is clear; the invariant holds |
| Engine.Percolation.IsOpen | Percolation.java:150-158 | IndexOutOfBounds exactly when i or j lies outside [1, N]; otherwise the open flag of site (i, j) at index (i-1)*N+j |
| Engine.Percolation.Open | Percolation.java:63-136 | Out of bounds: IndexOutOfBounds and no state change; an open site: no change; a closed site: exactly its flag is set, the counter goes up by one and each forest fuses the site's anchors (OpenStep); the invariant is kept |
| Engine.Percolation.Connect | Percolation.java:77-134 | After the flag is set, the unions leave uf fused over the anchors with the virtual bottom (row N, flag clear) and fullCheck fused over the anchors without it |
| Engine.Percolation.LinkTop | Percolation.java:77-82 | A row-1 site is unioned with the virtual top in both forests; other rows are not |
| Engine.Percolation.LinkNeighbours | Percolation.java:89-127 | Each of the four neighbours that passes its bounds test and is open is unioned with the site in both forests |
| Engine.Percolation.LinkVertical | Percolation.java:110-127 | The upper and lower neighbours are unioned with the site in both forests when in bounds and open |
| Engine.Percolation.LinkIfOpen | Percolation.java:89-127 | Any one of the four neighbour blocks: the neighbour is added to the anchors of both forests exactly when the bounds test passes and the neighbour is open |
| Engine.Percolation.UnionAnchor | Percolation.java:78-134 | Any one of open's unions (lines 80-81, 95-126 and 133), in either argument order, adds the second node to the fused anchors of that forest |
| Engine.Percolation.IsFull | Percolation.java:171-187 | IndexOutOfBounds exactly out of bounds; otherwise true iff a walk of open sites leads from the top row to (i, j) without passing through the virtual bottom; true implies open |
| Engine.Percolation.Percolates | Percolation.java:196-205 | True iff uf joins the two virtual nodes and a site is open, iff a walk of open sites leads from the top row to the bottom row; only the flag changes, and only to true |
| UnionFind.QuickFindUF.constructor | Percolation.java:40-41 | n elements, each alone in its component |
| UnionFind.QuickFindUF.Union | Percolation.java:80 | Two elements are connected afterwards iff they were before, or one was with p and the other with q |
| UnionFind.QuickFindUF.Connected | Percolation.java:181 | True iff p and q are in one component |
| Sites.Id | Percolation.java:157 | A site in bounds has index in [1, N*N], strictly between the virtual top 0 and the virtual bottom N*N+1 |
| Sites.IdInjective | Percolation.java:74 | Distinct nodes of the grid have distinct indices |
| Sites.IdForms | Percolation.java:95-126 | The index expressions of open's neighbour blocks are the indices of the left, right, upper and lower neighbours |
| PercolationModel.Anchors | Percolation.java:77-134 | The anchors always include the site; they include the virtual top iff the row is 1, and the virtual bottom iff the forest has it, the row is N and the flag is clear |
| PercolationModel.AfterPercolates | Percolation.java:199-204 | percolates() sets the flag iff it answers true, changes nothing else, and does not change the answer |
| PercolationModel.InitialInv | Percolation.java:31-51 | A fresh grid satisfies the invariant, has no open site and does not percolate |
| PercolationModel.OpenFlags | Percolation.java:72-74 | After open(i, j) a site is open iff it was before or it is (i, j) in bounds; N and the flag are unchanged |
| PercolationModel.OpenAddsOneSite | Percolation.java:72-76 | Opening a closed site sets its flag and no other, adding exactly one index to the open sites |
| PercolationModel.OpenPreservesInv | Percolation.java:63-136 | open keeps the invariant: the counter equals the number of open sites; fullCheck connects exactly what the graph without the bottom links; uf connects nothing its graph does not link and joins every edge that avoids the bottom; open bottom-row sites are joined to the bottom in uf while the flag is clear |
| PercolationModel.PercolatesPreservesInv | Percolation.java:196-205 | percolates() keeps the invariant |
| PercolationProperties.FullIffReachable | Percolation.java:171-187 | A site is full iff a walk of open sites leads to it from the top row without using the virtual bottom (no backwash) |
| PercolationProperties.PercolatesIffReachable | Percolation.java:196-205 | The grid percolates iff a walk of open sites leads from the top row to the bottom row, despite the flag test at line 131 |
| PercolationProperties.FullnessWithinPercolation | Percolation.java:89-127 | Whatever fullCheck connects, uf connects too |
| PercolationProperties.ClosedSiteIsolated | Percolation.java:72-127 | A closed site shares a component with no other node in either forest |
| PercolationProperties.TopClosedNothingFull | Percolation.java:77-82 | With no top-row site open nothing is full and the grid does not percolate, whatever else is open |
| PercolationProperties.OpenIdempotent | Percolation.java:72-87 | Opening a site a second time changes nothing |
| PercolationProperties.OpenOnlyGrows | Percolation.java:63-136 | open never closes a site, never splits a component of either forest and never lowers the counter |
| PercolationProperties.PercolatesStaysAfterOpen | Percolation.java:130-134 | Once the grid percolates it keeps percolating after any open |
| PercolationProperties.OpenTopRowFull | Percolation.java:78-82 | A top-row site is full once opened |
| PercolationScenarios.SingleSitePercolates | Percolation.java:63-136 | With N = 1, opening the only site makes the grid percolate and the site full |
| PercolationScenarios.BackwashHidden | Percolation.java:129-187 | With N = 3 and sites (1,1), (2,1), (3,1), (3,3) opened, the grid percolates and uf joins (3,3) to the top through the bottom, yet (3,3) is open and not full |
| PercolationScenarios.LateBottomNotJoined | Percolation.java:129-134 | With N = 3, opening (1,1), (2,1) and (3,1), calling percolates() and then opening (3,3) leaves the grid percolating with the invariant intact, but uf does not join (3,3) to the virtual bottom although they share an edge |

## Left out

- `PercolationStats.java` is not part of this model. It runs random trials and
  computes floating-point statistics in a `main` program.
- The library class `WeightedQuickUnionUF` is not part of this model. Its
  internals (weighting, tree shape, path structure) are replaced by a quick-find
  forest. Every contract speaks only of which elements are connected.
- Java's 32-bit `int` is not modelled. `N * N + 2` and the counter are unbounded
  integers, so the overflow of the array sizes for very large N is not captured.
- Exceptions are modelled as an `Error` value in a `Result`. The constructor takes
  a `nat`, and the static `Create` performs the `N < 0` test and returns
  `IllegalArgument` for it.
- Engine.Percolation.constructor: the flag at index N*N+1 is left unconstrained.
  The constructor's loop clears indices 0 .. N*N only. Java zero-fills the rest of
  the array, but that index is never read.
- Open, IsOpen and IsFull state their exceptions as returned errors, not as
  control flow that unwinds the caller.
