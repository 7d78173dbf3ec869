/// Small grids worked through the model from construction: a one-site grid
/// percolates as soon as its site opens, and a three-by-three grid shows the
/// backwash that the second forest exists to hide.
module PercolationScenarios {
  import opened Sites
  import opened Paths
  import opened PercolationModel
  import opened PercolationProperties

  /** N = 1: opening the only site joins it to both virtual nodes, so the grid
      percolates and the site is full. */
  lemma SingleSitePercolates(g0: Grid, g1: Grid)
    requires Initial(g0, 1) && OpenStep(g0, 1, 1, g1)
    ensures Percolating(g1) && IsFullAt(g1, 1, 1)
  {
    InitialInv(g0, 1);
    OpenPreservesInv(g0, 1, 1, g1);
    assert IsOpenAt(g1, 1, 1);
    assert IsPath(1, g1.open, true, [Top, Site(1, 1), Bottom]);
    PercolatesIffReachable(g1);
    assert IsPath(1, g1.open, false, [Top, Site(1, 1)]);
    FullIffReachable(g1, 1, 1);
  }

  /** In the grid of side 3 with only (3, 3) and (3, 1) open in row 3, no edge
      without the virtual bottom enters (3, 3). */
  lemma CornerHasNoEdge(g: Grid, w: Node)
    requires g.n == 3 && !IsOpenAt(g, 3, 2) && !IsOpenAt(g, 2, 3)
    ensures !Edge(3, g.open, false, w, Site(3, 3))
  {
  }

  /** The open flags of the backwash grid below that the argument needs: a column
      of open sites from (1, 1) down to (3, 1), the open corner (3, 3), and its two
      closed neighbours. */
  ghost predicate BackwashGrid(g: Grid)
  {
    !g.percolation && g.n == 3 &&
    IsOpenAt(g, 1, 1) && IsOpenAt(g, 2, 1) && IsOpenAt(g, 3, 1) && IsOpenAt(g, 3, 3) &&
    !IsOpenAt(g, 3, 2) && !IsOpenAt(g, 2, 3)
  }

  /** The invariant survives the four opens of the backwash
      scenario. */
  lemma BackwashInv(g0: Grid, g1: Grid, g2: Grid, g3: Grid, g4: Grid)
    requires Initial(g0, 3)
    requires OpenStep(g0, 1, 1, g1) && OpenStep(g1, 2, 1, g2)
    requires OpenStep(g2, 3, 1, g3) && OpenStep(g3, 3, 3, g4)
    ensures Inv(g4)
  {
    InitialInv(g0, 3);
    OpenPreservesInv(g0, 1, 1, g1);
    OpenPreservesInv(g1, 2, 1, g2);
    OpenPreservesInv(g2, 3, 1, g3);
    OpenPreservesInv(g3, 3, 3, g4);
  }

  /** After the four opens of the backwash scenario exactly the four opened sites
      are open, and the percolation flag is still clear. */
  lemma BackwashFlags(g0: Grid, g1: Grid, g2: Grid, g3: Grid, g4: Grid)
    requires Initial(g0, 3)
    requires OpenStep(g0, 1, 1, g1) && OpenStep(g1, 2, 1, g2)
    requires OpenStep(g2, 3, 1, g3) && OpenStep(g3, 3, 3, g4)
    ensures g4.n == 3 && !g4.percolation
    ensures forall a, b :: IsOpenAt(g4, a, b) <==> (a, b) == (1, 1) || (a, b) == (2, 1) || (a, b) == (3, 1) || (a, b) == (3, 3)
  {
    OpenFlags(g0, 1, 1, g1, 1, 1);
    OpenFlags(g1, 2, 1, g2, 1, 1);
    OpenFlags(g2, 3, 1, g3, 1, 1);
    OpenFlags(g3, 3, 3, g4, 1, 1);
    forall a, b
      ensures IsOpenAt(g4, a, b) <==> (a, b) == (1, 1) || (a, b) == (2, 1) || (a, b) == (3, 1) || (a, b) == (3, 3)
    {
      assert !IsOpenAt(g0, a, b);
      OpenFlags(g0, 1, 1, g1, a, b);
      OpenFlags(g1, 2, 1, g2, a, b);
      OpenFlags(g2, 3, 1, g3, a, b);
      OpenFlags(g3, 3, 3, g4, a, b);
    }
  }

  /** The flags BackwashFlags establishes are those of a backwash grid. */
  lemma BackwashState(g: Grid)
    requires g.n == 3 && !g.percolation
    requires forall a, b :: IsOpenAt(g, a, b) <==> (a, b) == (1, 1) || (a, b) == (2, 1) || (a, b) == (3, 1) || (a, b) == (3, 3)
    ensures BackwashGrid(g)
  {
    assert IsOpenAt(g, 1, 1) && IsOpenAt(g, 2, 1) && IsOpenAt(g, 3, 1) && IsOpenAt(g, 3, 3);
    assert !IsOpenAt(g, 3, 2) && !IsOpenAt(g, 2, 3);
  }

  /** In the backwash grid a walk leads from the top row to the bottom row, and one
      leads from (3, 3) through the virtual bottom up to the virtual top. */
  lemma BackwashPercolates(g: Grid)
    requires Inv(g) && BackwashGrid(g)
    ensures Percolating(g) && g.uf[Id(3, Site(3, 3))] == g.uf[0]
  {
    var down := [Top, Site(1, 1), Site(2, 1), Site(3, 1), Bottom];
    assert IsPath(3, g.open, true, down);
    PercolatesIffReachable(g);
    var back := [Site(3, 3), Bottom, Site(3, 1), Site(2, 1), Site(1, 1), Top];
    assert IsPath(3, g.open, true, back);
    EdgesJoinedWithBottom(g);
    LinkedJoined(3, g.open, true, g.uf, Site(3, 3), Top);
  }

  /** In the backwash grid no walk that avoids the virtual bottom reaches (3, 3). */
  lemma BackwashCornerNotFull(g: Grid)
    requires Inv(g) && BackwashGrid(g)
    ensures !IsFullAt(g, 3, 3)
  {
    FullIffReachable(g, 3, 3);
    if Linked(3, g.open, false, Top, Site(3, 3)) {
      LinkedLastEdge(3, g.open, false, Top, Site(3, 3));
      var w :| Edge(3, g.open, false, w, Site(3, 3));
      CornerHasNoEdge(g, w);
      assert false;
    }
  }

  /** N = 3, sites (1, 1), (2, 1), (3, 1) and (3, 3) opened in that order: the
      grid percolates, and the percolation forest puts (3, 3) in the component of
      the virtual top through the virtual bottom, yet isFull(3, 3) is false. */
  lemma BackwashHidden(g0: Grid, g1: Grid, g2: Grid, g3: Grid, g4: Grid)
    requires Initial(g0, 3)
    requires OpenStep(g0, 1, 1, g1) && OpenStep(g1, 2, 1, g2)
    requires OpenStep(g2, 3, 1, g3) && OpenStep(g3, 3, 3, g4)
    ensures Percolating(g4)
    ensures g4.uf[Id(3, Site(3, 3))] == g4.uf[0]
    ensures IsOpenAt(g4, 3, 3) && !IsFullAt(g4, 3, 3)
  {
    BackwashInv(g0, g1, g2, g3, g4);
    BackwashFlags(g0, g1, g2, g3, g4);
    BackwashState(g4);
    BackwashPercolates(g4);
    BackwashCornerNotFull(g4);
  }

  /** After (1, 1), (2, 1) and (3, 1) are opened in a grid of side 3, exactly those
      three sites are open and the percolation flag is still clear. */
  lemma LateFlags(g0: Grid, g1: Grid, g2: Grid, g3: Grid)
    requires Initial(g0, 3)
    requires OpenStep(g0, 1, 1, g1) && OpenStep(g1, 2, 1, g2) && OpenStep(g2, 3, 1, g3)
    ensures g3.n == 3 && !g3.percolation
    ensures forall a, b :: IsOpenAt(g3, a, b) <==> (a, b) == (1, 1) || (a, b) == (2, 1) || (a, b) == (3, 1)
  {
    OpenFlags(g0, 1, 1, g1, 1, 1);
    OpenFlags(g1, 2, 1, g2, 1, 1);
    OpenFlags(g2, 3, 1, g3, 1, 1);
    forall a, b
      ensures IsOpenAt(g3, a, b) <==> (a, b) == (1, 1) || (a, b) == (2, 1) || (a, b) == (3, 1)
    {
      assert !IsOpenAt(g0, a, b);
      OpenFlags(g0, 1, 1, g1, a, b);
      OpenFlags(g1, 2, 1, g2, a, b);
      OpenFlags(g2, 3, 1, g3, a, b);
    }
  }

  /** The invariant survives the three opens of the late-bottom scenario. */
  lemma LateInv(g0: Grid, g1: Grid, g2: Grid, g3: Grid)
    requires Initial(g0, 3)
    requires OpenStep(g0, 1, 1, g1) && OpenStep(g1, 2, 1, g2) && OpenStep(g2, 3, 1, g3)
    ensures Inv(g3)
  {
    InitialInv(g0, 3);
    OpenPreservesInv(g0, 1, 1, g1);
    OpenPreservesInv(g1, 2, 1, g2);
    OpenPreservesInv(g2, 3, 1, g3);
  }

  /** A grid of side 3 in which percolates() has set the flag, and whose corner
      (3, 3) and its two neighbours are still closed. */
  ghost predicate LateGrid(g: Grid)
  {
    Inv(g) && g.percolation && g.n == 3 &&
    !IsOpenAt(g, 3, 3) && !IsOpenAt(g, 3, 2) && !IsOpenAt(g, 2, 3)
  }

  /** With the column (1, 1), (2, 1), (3, 1) open, percolates() answers true and
      sets the flag. */
  lemma LatePercolates(g: Grid)
    requires Inv(g) && g.n == 3 && !g.percolation
    requires forall a, b :: IsOpenAt(g, a, b) <==> (a, b) == (1, 1) || (a, b) == (2, 1) || (a, b) == (3, 1)
    ensures Percolating(g) && LateGrid(AfterPercolates(g))
  {
    assert IsOpenAt(g, 1, 1) && IsOpenAt(g, 2, 1) && IsOpenAt(g, 3, 1);
    assert !IsOpenAt(g, 3, 3) && !IsOpenAt(g, 3, 2) && !IsOpenAt(g, 2, 3);
    assert IsPath(3, g.open, true, [Top, Site(1, 1), Site(2, 1), Site(3, 1), Bottom]);
    PercolatesIffReachable(g);
    PercolatesPreservesInv(g);
  }

  /** Opening the corner (3, 3) of a late grid: the site is next to the virtual
      bottom in the graph, but with the flag set open makes no union with it, so
      the percolation forest keeps the two apart. */
  lemma LateBottomStep(g: Grid, g': Grid)
    requires LateGrid(g) && OpenStep(g, 3, 3, g')
    ensures Inv(g') && Linked(3, g'.open, true, Site(3, 3), Bottom)
    ensures g'.uf[Id(3, Site(3, 3))] != g'.uf[Id(3, Bottom)]
  {
    OpenPreservesInv(g, 3, 3, g');
    OpenFlags(g, 3, 3, g', 3, 3);
    LinkedEdge(3, g'.open, true, Site(3, 3), Bottom);
    ClosedSiteIsolated(g, 3, 3, Bottom);
    var A := Anchors(g, 3, 3, true);
    assert A == {Site(3, 3)};
    assert FusedPair(3, g.uf, g'.uf, A, 9, 10);
  }

  /** N = 3: open (1, 1), (2, 1) and (3, 1), ask percolates() (true, so the flag is
      set), then open (3, 3). The grid still percolates and the invariant holds, yet
      the percolation forest does not join (3, 3) to the virtual bottom, although a
      walk of one edge leads there: the one visible effect of the flag test in
      open. */
  lemma LateBottomNotJoined(g0: Grid, g1: Grid, g2: Grid, g3: Grid, g4: Grid)
    requires Initial(g0, 3)
    requires OpenStep(g0, 1, 1, g1) && OpenStep(g1, 2, 1, g2) && OpenStep(g2, 3, 1, g3)
    requires OpenStep(AfterPercolates(g3), 3, 3, g4)
    ensures Inv(g4) && Percolating(g4)
    ensures Linked(3, g4.open, true, Site(3, 3), Bottom)
    ensures g4.uf[Id(3, Site(3, 3))] != g4.uf[Id(3, Bottom)]
  {
    LateFlags(g0, g1, g2, g3);
    LateInv(g0, g1, g2, g3);
    LatePercolates(g3);
    LateBottomStep(AfterPercolates(g3), g4);
    PercolatesStaysAfterOpen(AfterPercolates(g3), 3, 3, g4);
  }
}
