/// What the engine's answers mean, proved on the value model: isFull and
/// percolates() answer reachability questions about open sites, the fullness forest
/// never connects more than the percolation forest, closed sites stay alone,
/// open is idempotent, and percolation, once reached, is never lost.
module PercolationProperties {
  import opened Sites
  import opened Paths
  import opened UnionFind
  import opened PercolationModel

  /** A walk that reaches a site from another node ends on an open site. */
  lemma LinkedEndsOpen(n: nat, open: seq<bool>, withBottom: bool, u: Node, i: int, j: int)
    requires Linked(n, open, withBottom, u, Site(i, j)) && u != Site(i, j)
    ensures OpenAt(n, open, i, j)
  {
    var p :| |p| > 0 && IsPath(n, open, withBottom, p) && p[0] == u && p[|p| - 1] == Site(i, j);
    assert Edge(n, open, withBottom, p[|p| - 2], p[|p| - 1]);
  }

  /** A walk that leaves the virtual top starts on an open site of row 1. */
  lemma LinkedFromTop(n: nat, open: seq<bool>, withBottom: bool, v: Node)
    requires Linked(n, open, withBottom, Top, v) && v != Top
    ensures exists j :: OpenAt(n, open, 1, j)
  {
    LinkedFirstEdge(n, open, withBottom, Top, v);
    var w :| Edge(n, open, withBottom, Top, w);
    assert OpenAt(n, open, 1, w.col);
  }

  /** No anti-backwash leak: isFull holds of (i, j) exactly when a walk of open sites
      leads to it from an open site of row 1, and that walk never passes through
      the virtual bottom. */
  lemma FullIffReachable(g: Grid, i: int, j: int)
    requires Inv(g)
    ensures IsFullAt(g, i, j) <==> Linked(g.n, g.open, false, Top, Site(i, j))
  {
    var n := g.n;
    if IsFullAt(g, i, j) {
      assert g.fc[Id(n, Top)] == g.fc[Id(n, Site(i, j))];
    }
    if Linked(n, g.open, false, Top, Site(i, j)) {
      LinkedEndsOpen(n, g.open, false, Top, i, j);
      LinkedJoined(n, g.open, false, g.fc, Top, Site(i, j));
    }
  }

  /** While the percolation flag is clear, every edge of the graph with the virtual
      bottom is joined in the percolation forest. */
  lemma EdgesJoinedWithBottom(g: Grid)
    requires Inv(g) && !g.percolation
    ensures EdgesJoined(g.n, g.open, true, g.uf)
  {
    forall u, v | Edge(g.n, g.open, true, u, v)
      ensures 0 <= Id(g.n, u) < |g.uf| && 0 <= Id(g.n, v) < |g.uf| && g.uf[Id(g.n, u)] == g.uf[Id(g.n, v)]
    {
      if !Edge(g.n, g.open, false, u, v) {
        if u == Bottom {
          assert OpenAt(g.n, g.open, g.n, v.col);
        } else {
          assert OpenAt(g.n, g.open, g.n, u.col);
        }
      }
    }
  }

  /** percolates() answers exactly whether a walk of open sites leads from row 1 to
      row n, although open stops linking last-row sites to the virtual bottom once
      the flag is set; the counter test in it never changes the answer. */
  lemma PercolatesIffReachable(g: Grid)
    requires Inv(g)
    ensures Percolating(g) <==> Linked(g.n, g.open, true, Top, Bottom)
    ensures Linked(g.n, g.open, true, Top, Bottom) ==> g.uf[0] == g.uf[g.n * g.n + 1] && g.sitesOpen >= 1
  {
    var n := g.n;
    if Percolating(g) {
      assert g.uf[Id(n, Top)] == g.uf[Id(n, Bottom)];
    }
    if Linked(n, g.open, true, Top, Bottom) {
      if g.uf[0] != g.uf[n * n + 1] {
        EdgesJoinedWithBottom(g);
        LinkedJoined(n, g.open, true, g.uf, Top, Bottom);
      }
      LinkedFromTop(n, g.open, true, Bottom);
      var j :| OpenAt(n, g.open, 1, j);
      assert Id(n, Site(1, j)) in OpenIndices(g);
    }
  }

  /** The fullness forest connects no two nodes that the percolation forest does not:
      every union made in one is made in the other. */
  lemma FullnessWithinPercolation(g: Grid, u: Node, v: Node)
    requires Inv(g) && IsNode(g.n, false, u) && IsNode(g.n, false, v)
    requires g.fc[Id(g.n, u)] == g.fc[Id(g.n, v)]
    ensures g.uf[Id(g.n, u)] == g.uf[Id(g.n, v)]
  {
    LinkedJoined(g.n, g.open, false, g.uf, u, v);
  }

  /** A closed site is alone in both forests. */
  lemma ClosedSiteIsolated(g: Grid, i: int, j: int, v: Node)
    requires Inv(g) && InBounds(g.n, i, j) && !IsOpenAt(g, i, j) && v != Site(i, j)
    ensures IsNode(g.n, true, v) ==> g.uf[Id(g.n, Site(i, j))] != g.uf[Id(g.n, v)]
    ensures IsNode(g.n, false, v) ==> g.fc[Id(g.n, Site(i, j))] != g.fc[Id(g.n, v)]
  {
    var n, X := g.n, Site(i, j);
    if IsNode(n, true, v) && g.uf[Id(n, X)] == g.uf[Id(n, v)] {
      assert Linked(n, g.open, true, X, v);
      LinkedFirstEdge(n, g.open, true, X, v);
      assert false;
    }
    if IsNode(n, false, v) && g.fc[Id(n, X)] == g.fc[Id(n, v)] {
      assert Linked(n, g.open, false, X, v);
      LinkedFirstEdge(n, g.open, false, X, v);
      assert false;
    }
  }

  /** With no open site in row 1 the virtual top has no edge, so it reaches no other
      node. */
  lemma TopIsolated(n: nat, open: seq<bool>, withBottom: bool, v: Node)
    requires forall j :: !OpenAt(n, open, 1, j)
    requires v != Top
    ensures !Linked(n, open, withBottom, Top, v)
  {
    if Linked(n, open, withBottom, Top, v) {
      LinkedFromTop(n, open, withBottom, v);
      assert false;
    }
  }

  /** While no site of row 1 is open nothing is full and the grid does not
      percolate, however many sites of the other rows (the last one included) are
      open. */
  lemma TopClosedNothingFull(g: Grid)
    requires Inv(g) && forall j :: !IsOpenAt(g, 1, j)
    ensures forall i, j :: !IsFullAt(g, i, j)
    ensures !Percolating(g)
  {
    forall j
      ensures !OpenAt(g.n, g.open, 1, j)
    {
      assert !IsOpenAt(g, 1, j);
    }
    forall i, j
      ensures !IsFullAt(g, i, j)
    {
      FullIffReachable(g, i, j);
      TopIsolated(g.n, g.open, false, Site(i, j));
    }
    PercolatesIffReachable(g);
    TopIsolated(g.n, g.open, true, Bottom);
  }

  /** Opening a site twice is the same as opening it once. */
  lemma OpenIdempotent(g: Grid, i: int, j: int, g1: Grid, g2: Grid)
    requires OpenStep(g, i, j, g1) && OpenStep(g1, i, j, g2)
    ensures g2 == g1
  {
    if InBounds(g.n, i, j) && !IsOpenAt(g, i, j) {
      OpenAddsOneSite(g, i, j, g1);
    }
  }

  /** Opening a site never closes one, never splits a component of either forest
      and never lowers the counter. */
  lemma OpenOnlyGrows(g: Grid, i: int, j: int, g': Grid, a: int, b: int)
    requires OpenStep(g, i, j, g')
    ensures g'.n == g.n && g'.sitesOpen >= g.sitesOpen && OpenGrows(g.n, g.open, g'.open)
    ensures 0 <= a < |g.uf| && 0 <= b < |g.uf| && g.uf[a] == g.uf[b] ==> g'.uf[a] == g'.uf[b]
    ensures 0 <= a < |g.fc| && 0 <= b < |g.fc| && g.fc[a] == g.fc[b] ==> g'.fc[a] == g'.fc[b]
  {
    if InBounds(g.n, i, j) && !IsOpenAt(g, i, j) {
      if 0 <= a < |g.uf| && 0 <= b < |g.uf| && g.uf[a] == g.uf[b] {
        FusedGrows(g.n, g.uf, g'.uf, Anchors(g, i, j, true), a, b);
      }
      if 0 <= a < |g.fc| && 0 <= b < |g.fc| && g.fc[a] == g.fc[b] {
        FusedGrows(g.n, g.fc, g'.fc, Anchors(g, i, j, false), a, b);
      }
    }
  }

  /** Once the grid percolates it keeps percolating after any open. */
  lemma PercolatesStaysAfterOpen(g: Grid, i: int, j: int, g': Grid)
    requires OpenStep(g, i, j, g') && Percolating(g)
    ensures Percolating(g')
  {
    OpenOnlyGrows(g, i, j, g', 0, g.n * g.n + 1);
  }

  /** Opening a site of row 1 leaves it full, whether it was closed or already open. */
  lemma OpenTopRowFull(g: Grid, j: int, g': Grid)
    requires Inv(g) && OpenStep(g, 1, j, g') && InBounds(g.n, 1, j)
    ensures IsFullAt(g', 1, j)
  {
    OpenPreservesInv(g, 1, j, g');
    OpenFlags(g, 1, j, g', 1, j);
    assert Edge(g'.n, g'.open, false, Top, Site(1, j));
  }
}
