/// The state of a percolation engine as a value, and what its operations do to it.
/// The two forests appear as component labels; everything said about them is said
/// up to connectivity (which labels a component carries is not part of the model).
module PercolationModel {
  import opened Sites
  import opened Paths
  import opened UnionFind

  /** n: side of the grid; open: the open flag of every index 0 .. n * n + 1;
      uf: the percolation forest over n * n + 2 elements (with the virtual bottom);
      fc: the fullness forest over n * n + 1 elements (without it);
      sitesOpen: the open-site counter; percolation: the flag percolates() sets. */
  datatype Grid = Grid(n: nat, open: seq<bool>, uf: seq<int>, fc: seq<int>, sitesOpen: int, percolation: bool)

  ghost predicate WellFormed(g: Grid)
  {
    |g.open| == g.n * g.n + 2 && |g.uf| == g.n * g.n + 2 && |g.fc| == g.n * g.n + 1
  }

  /** The indices of the open sites (the virtual nodes are not sites). */
  ghost function OpenIndices(g: Grid): (S: set<int>)
  {
    set k | 1 <= k <= g.n * g.n && k < |g.open| && g.open[k]
  }

  /** Paths.OpenAt read off a Grid: only an alias, so that statements about a state
      need not spell out its side and flags. */
  predicate IsOpenAt(g: Grid, i: int, j: int)
  {
    OpenAt(g.n, g.open, i, j)
  }

  /** The answer of isFull for an in-bounds site: open, and with the virtual top in
      the fullness forest. */
  predicate IsFullAt(g: Grid, i: int, j: int)
  {
    IsOpenAt(g, i, j) && Id(g.n, Site(i, j)) < |g.fc| && 0 < |g.fc| &&
    g.fc[Id(g.n, Site(i, j))] == g.fc[0]
  }

  /** The answer of percolates(): the percolation forest joins the two virtual nodes
      and at least one site has been opened. */
  predicate Percolating(g: Grid)
  {
    |g.uf| == g.n * g.n + 2 && g.uf[0] == g.uf[g.n * g.n + 1] && g.sitesOpen >= 1
  }

  // ---------------------------------------------------------------------------
  // Connectivity changes made by one open

  /** a is in the component, under s, of one of the anchors A. */
  ghost predicate Touches(n: nat, s: seq<int>, A: set<Node>, a: int)
    requires 0 <= a < |s|
  {
    exists w :: w in A && 0 <= Id(n, w) < |s| && s[Id(n, w)] == s[a]
  }

  /** t is s with all the components that contain an anchor in A merged into one,
      and no other change of connectivity. */
  ghost predicate Fused(n: nat, s: seq<int>, t: seq<int>, A: set<Node>)
  {
    |t| == |s| && (forall w {:trigger HasIndex(n, s, w)} :: w in A ==> HasIndex(n, s, w)) &&
    forall a, b :: 0 <= a < |s| && 0 <= b < |s| ==> FusedPair(n, s, t, A, a, b)
  }

  /** The index of node w lies within s. */
  ghost predicate HasIndex(n: nat, s: seq<int>, w: Node)
  {
    0 <= Id(n, w) < |s|
  }

  /** Fused, for one pair of elements a and b: connected in t iff connected in s or
      both in the component of an anchor. */
  ghost predicate FusedPair(n: nat, s: seq<int>, t: seq<int>, A: set<Node>, a: int, b: int)
    requires |t| == |s| && 0 <= a < |s| && 0 <= b < |s|
  {
    t[a] == t[b] <==> s[a] == s[b] || (Touches(n, s, A, a) && Touches(n, s, A, b))
  }

  lemma FusedStart(n: nat, s: seq<int>, x: Node)
    requires 0 <= Id(n, x) < |s|
    ensures Fused(n, s, s, {x})
  {
  }

  lemma TouchesInsert(n: nat, s: seq<int>, A: set<Node>, q: Node, a: int)
    requires 0 <= a < |s| && 0 <= Id(n, q) < |s|
    ensures Touches(n, s, A + {q}, a) <==> Touches(n, s, A, a) || s[Id(n, q)] == s[a]
  {
    if Touches(n, s, A + {q}, a) {
      var w :| w in A + {q} && 0 <= Id(n, w) < |s| && s[Id(n, w)] == s[a];
      if w != q {
        assert w in A;
      }
    }
    if s[Id(n, q)] == s[a] {
      assert q in A + {q};
    }
  }

  /** One more union of an element of the fused group with q extends the group by q. */
  lemma FusedExtend(n: nat, s: seq<int>, t: seq<int>, u: seq<int>, A: set<Node>, p: Node, q: Node)
    requires Fused(n, s, t, A) && p in A && 0 <= Id(n, q) < |s|
    requires Joined(t, u, Id(n, p), Id(n, q)) || Joined(t, u, Id(n, q), Id(n, p))
    ensures Fused(n, s, u, A + {q})
  {
    var P, Q := Id(n, p), Id(n, q);
    assert HasIndex(n, s, p);
    assert Touches(n, s, A, P);
    forall w | w in A + {q}
      ensures HasIndex(n, s, w)
    {
      if w != q {
        assert HasIndex(n, s, w);
      }
    }
    assert FusedPair(n, s, t, A, P, Q);
    forall a, b | 0 <= a < |s| && 0 <= b < |s|
      ensures FusedPair(n, s, u, A + {q}, a, b)
    {
      assert FusedPair(n, s, t, A, a, b) && FusedPair(n, s, t, A, a, P) && FusedPair(n, s, t, A, b, P);
      assert FusedPair(n, s, t, A, a, Q) && FusedPair(n, s, t, A, b, Q);
      TouchesInsert(n, s, A, q, a);
      TouchesInsert(n, s, A, q, b);
      TouchesInsert(n, s, A, q, Q);
      assert t[a] == t[P] <==> Touches(n, s, A, a);
      assert t[b] == t[P] <==> Touches(n, s, A, b);
      assert t[a] == t[Q] <==> s[a] == s[Q] || (Touches(n, s, A, a) && Touches(n, s, A, Q));
      assert t[b] == t[Q] <==> s[b] == s[Q] || (Touches(n, s, A, b) && Touches(n, s, A, Q));
    }
  }

  /** Fusing never separates two elements that were connected. */
  lemma FusedGrows(n: nat, s: seq<int>, t: seq<int>, A: set<Node>, a: int, b: int)
    requires Fused(n, s, t, A) && 0 <= a < |s| && 0 <= b < |s| && s[a] == s[b]
    ensures t[a] == t[b]
  {
    assert FusedPair(n, s, t, A, a, b);
  }

  /** All the anchors end in one component. */
  lemma FusedAnchors(n: nat, s: seq<int>, t: seq<int>, A: set<Node>, w1: Node, w2: Node)
    requires Fused(n, s, t, A) && w1 in A && w2 in A
    ensures 0 <= Id(n, w1) < |t| && 0 <= Id(n, w2) < |t| && t[Id(n, w1)] == t[Id(n, w2)]
  {
    assert HasIndex(n, s, w1) && HasIndex(n, s, w2);
    assert Touches(n, s, A, Id(n, w1)) && Touches(n, s, A, Id(n, w2));
    assert FusedPair(n, s, t, A, Id(n, w1), Id(n, w2));
  }

  // ---------------------------------------------------------------------------
  // The operations

  /** The nodes that open(i, j) unions with the new site (i, j) in one forest,
      with the site itself: the virtual top for a row-1 site, each open neighbour
      and, in the percolation forest only, the virtual bottom for a row-n site
      while the percolation flag is still clear. */
  function Anchors(g: Grid, i: int, j: int, withBottom: bool): (A: set<Node>)
    ensures Site(i, j) in A
    ensures Top in A <==> i == 1
    ensures Bottom in A <==> withBottom && i == g.n && !g.percolation
  {
    SiteAnchors(g, i, j) + (if withBottom && i == g.n && !g.percolation then {Bottom} else {})
  }

  /** The anchors both forests share: the site, the virtual top for row 1, and the
      open neighbours, each behind the bounds test open makes for it. */
  function SiteAnchors(g: Grid, i: int, j: int): (A: set<Node>)
  {
    {Site(i, j)}
    + (if i == 1 then {Top} else {})
    + NeighbourAnchor(g, j - 1 > 0, i, j - 1)
    + NeighbourAnchor(g, j + 1 <= g.n, i, j + 1)
    + NeighbourAnchor(g, i - 1 > 0, i - 1, j)
    + NeighbourAnchor(g, i + 1 <= g.n, i + 1, j)
  }

  /** The fullness forest has no anchor beyond the shared ones. */
  lemma AnchorsNoBottom(g: Grid, i: int, j: int)
    ensures Anchors(g, i, j, false) == SiteAnchors(g, i, j)
  {
  }

  /** The neighbour (i2, j2) is an anchor when the bounds test in front of it passes
      and it is open. */
  function NeighbourAnchor(g: Grid, inside: bool, i2: int, j2: int): (A: set<Node>)
  {
    if inside && IsOpenAt(g, i2, j2) then {Site(i2, j2)} else {}
  }

  /** g' is g with the closed in-bounds site (i, j) marked open and no other flag
      changed. */
  ghost predicate Opened(g: Grid, i: int, j: int, g': Grid)
  {
    WellFormed(g) && InBounds(g.n, i, j) && !IsOpenAt(g, i, j) &&
    g'.n == g.n && g'.open == g.open[Id(g.n, Site(i, j)) := true]
  }

  /** open(i, j) takes g to g'. Out of bounds or already open: nothing changes.
      Otherwise the site's flag is set, the counter goes up by one, and each forest
      fuses the components of the site's anchors. */
  ghost predicate OpenStep(g: Grid, i: int, j: int, g': Grid)
  {
    WellFormed(g) &&
    if !InBounds(g.n, i, j) || IsOpenAt(g, i, j) then
      g' == g
    else
      Opened(g, i, j, g') && g'.sitesOpen == g.sitesOpen + 1 && g'.percolation == g.percolation &&
      Fused(g.n, g.uf, g'.uf, Anchors(g, i, j, true)) &&
      Fused(g.n, g.fc, g'.fc, Anchors(g, i, j, false))
  }

  /** percolates() takes g to this state: it sets the flag when it answers true. */
  function AfterPercolates(g: Grid): (g': Grid)
    ensures g'.percolation <==> g.percolation || Percolating(g)
    ensures g'.(percolation := g.percolation) == g
    ensures Percolating(g') <==> Percolating(g)
  {
    if Percolating(g) then g.(percolation := true) else g
  }

  /** The state right after construction with side n. */
  ghost predicate Initial(g: Grid, n: nat)
  {
    WellFormed(g) && g.n == n && (forall k :: 1 <= k <= n * n ==> !g.open[k]) &&
    g.sitesOpen == 0 && !g.percolation && Discrete(g.uf) && Discrete(g.fc)
  }

  // ---------------------------------------------------------------------------
  // The invariant

  /** Every open site of the last row is in the component of the virtual bottom in
      the percolation forest, or the percolation flag is set. */
  ghost predicate BottomJoined(g: Grid)
    requires WellFormed(g)
  {
    forall j :: OpenAt(g.n, g.open, g.n, j) ==>
      g.uf[Id(g.n, Site(g.n, j))] == g.uf[g.n * g.n + 1] || g.percolation
  }

  /** The counter counts the open sites. The fullness forest connects exactly what
      the graph without the virtual bottom links. The percolation forest connects
      nothing the graph with the virtual bottom does not link, joins every edge that
      avoids the virtual bottom, and joins the open sites of the last row to the
      virtual bottom while the flag is clear; once the flag is set it may miss edges
      to the virtual bottom. The flag is only set once the virtual nodes are joined. */
  ghost predicate Inv(g: Grid)
  {
    WellFormed(g) &&
    g.sitesOpen == |OpenIndices(g)| &&
    Sound(g.n, g.open, true, g.uf) && Sound(g.n, g.open, false, g.fc) &&
    EdgesJoined(g.n, g.open, false, g.uf) && EdgesJoined(g.n, g.open, false, g.fc) &&
    BottomJoined(g) &&
    (g.percolation ==> g.uf[0] == g.uf[g.n * g.n + 1])
  }

  // ---------------------------------------------------------------------------
  // The invariant is established and preserved

  /** A fresh grid satisfies the invariant, has no open site and does not percolate. */
  lemma InitialInv(g: Grid, n: nat)
    requires Initial(g, n)
    ensures Inv(g)
    ensures OpenIndices(g) == {} && forall i, j :: !IsOpenAt(g, i, j)
    ensures !Percolating(g)
  {
    assert OpenIndices(g) == {};
    IdsDistinct(n);
    forall u, v | IsNode(n, true, u) && IsNode(n, true, v) && g.uf[Id(n, u)] == g.uf[Id(n, v)]
      ensures Linked(n, g.open, true, u, v)
    {
      LinkedRefl(n, g.open, true, u);
    }
    forall u, v | IsNode(n, false, u) && IsNode(n, false, v) && g.fc[Id(n, u)] == g.fc[Id(n, v)]
      ensures Linked(n, g.open, false, u, v)
    {
      LinkedRefl(n, g.open, false, u);
    }
  }

  /** Opening a site changes no other site's flag. */
  lemma OtherSiteUnchanged(g: Grid, i: int, j: int, g': Grid, i': int, j': int)
    requires Opened(g, i, j, g') && (i', j') != (i, j)
    ensures IsOpenAt(g', i', j') <==> IsOpenAt(g, i', j')
  {
    if InBounds(g.n, i', j') && Id(g.n, Site(i', j')) == Id(g.n, Site(i, j)) {
      IdInjective(g.n, Site(i, j), Site(i', j'));
    }
  }

  /** After open(i, j) a site is open exactly when it was open before or it is
      (i, j) and (i, j) is on the grid; n and the percolation flag stay as they were. */
  lemma OpenFlags(g: Grid, i: int, j: int, g': Grid, a: int, b: int)
    requires OpenStep(g, i, j, g')
    ensures g'.n == g.n && g'.percolation == g.percolation
    ensures IsOpenAt(g', a, b) <==> IsOpenAt(g, a, b) || ((a, b) == (i, j) && InBounds(g.n, i, j))
  {
    if InBounds(g.n, i, j) && !IsOpenAt(g, i, j) {
      if (a, b) != (i, j) {
        OtherSiteUnchanged(g, i, j, g', a, b);
      } else {
        assert IsOpenAt(g', i, j);
      }
    }
  }

  /** Opening a closed in-bounds site sets that site's flag and no other, and adds
      exactly one index to the open sites. */
  lemma OpenAddsOneSite(g: Grid, i: int, j: int, g': Grid)
    requires Opened(g, i, j, g')
    ensures IsOpenAt(g', i, j)
    ensures forall i', j' :: (i', j') != (i, j) ==> (IsOpenAt(g', i', j') <==> IsOpenAt(g, i', j'))
    ensures OpenIndices(g') == OpenIndices(g) + {Id(g.n, Site(i, j))}
    ensures |OpenIndices(g')| == |OpenIndices(g)| + 1
  {
    forall i', j' | (i', j') != (i, j)
      ensures IsOpenAt(g', i', j') <==> IsOpenAt(g, i', j')
    {
      OtherSiteUnchanged(g, i, j, g', i', j');
    }
    assert OpenIndices(g') == OpenIndices(g) + {Id(g.n, Site(i, j))};
  }

  /** Every neighbour of the opened site in the graph without the virtual bottom is
      one of its anchors. */
  lemma NeighboursAreAnchors(g: Grid, i: int, j: int, g': Grid, w: Node)
    requires Opened(g, i, j, g')
    requires Edge(g.n, g'.open, false, Site(i, j), w)
    ensures w in Anchors(g, i, j, false)
  {
    match w
    case Top =>
    case Bottom =>
    case Site(i2, j2) =>
      assert Adjacent(i, j, i2, j2);
      OtherSiteUnchanged(g, i, j, g', i2, j2);
      assert IsOpenAt(g', i2, j2);
      assert IsOpenAt(g, i2, j2);
      if i2 == i && j2 == j - 1 {
        assert Site(i2, j2) in NeighbourAnchor(g, j - 1 > 0, i, j - 1);
      } else if i2 == i && j2 == j + 1 {
        assert Site(i2, j2) in NeighbourAnchor(g, j + 1 <= g.n, i, j + 1);
      } else if i2 == i - 1 {
        assert Site(i2, j2) in NeighbourAnchor(g, i - 1 > 0, i - 1, j);
      } else {
        assert Site(i2, j2) in NeighbourAnchor(g, i + 1 <= g.n, i + 1, j);
      }
  }

  /** An anchor is the site itself, the virtual top, the virtual bottom of the
      forest that has it, or an open neighbour. */
  lemma AnchorCases(g: Grid, i: int, j: int, withBottom: bool, w: Node)
    requires w in Anchors(g, i, j, withBottom)
    ensures w == Site(i, j) || w == Top || (w == Bottom && withBottom) ||
            (w.Site? && Adjacent(i, j, w.row, w.col) && IsOpenAt(g, w.row, w.col))
  {
  }

  /** Every anchor is linked to the opened site in both directions after the step. */
  lemma AnchorsLinked(g: Grid, i: int, j: int, g': Grid, withBottom: bool, w: Node)
    requires Opened(g, i, j, g')
    requires w in Anchors(g, i, j, withBottom)
    ensures IsNode(g.n, withBottom, w)
    ensures Linked(g.n, g'.open, withBottom, w, Site(i, j)) && Linked(g.n, g'.open, withBottom, Site(i, j), w)
  {
    AnchorCases(g, i, j, withBottom, w);
    assert IsOpenAt(g', i, j);
    if w == Site(i, j) {
      LinkedRefl(g.n, g'.open, withBottom, w);
    } else {
      if w.Site? {
        OtherSiteUnchanged(g, i, j, g', w.row, w.col);
      }
      assert Edge(g.n, g'.open, withBottom, w, Site(i, j));
      LinkedEdge(g.n, g'.open, withBottom, w, Site(i, j));
    }
  }

  /** Fusing the anchors of a newly opened site keeps a forest sound. */
  lemma FusedSound(g: Grid, i: int, j: int, g': Grid, withBottom: bool, s: seq<int>, t: seq<int>)
    requires Opened(g, i, j, g')
    requires Sound(g.n, g.open, withBottom, s) && Fused(g.n, s, t, Anchors(g, i, j, withBottom))
    ensures Sound(g.n, g'.open, withBottom, t)
  {
    var n, A, X := g.n, Anchors(g, i, j, withBottom), Site(i, j);
    assert OpenGrows(n, g.open, g'.open);
    forall u, v | IsNode(n, withBottom, u) && IsNode(n, withBottom, v) && Id(n, u) < |t| && Id(n, v) < |t| &&
                  t[Id(n, u)] == t[Id(n, v)]
      ensures Linked(n, g'.open, withBottom, u, v)
    {
      var a, b := Id(n, u), Id(n, v);
      if s[a] == s[b] {
        LinkedGrows(n, g.open, g'.open, withBottom, u, v);
      } else {
        assert FusedPair(n, s, t, A, a, b);
        assert Touches(n, s, A, a) && Touches(n, s, A, b);
        var w1 :| w1 in A && 0 <= Id(n, w1) < |s| && s[Id(n, w1)] == s[a];
        var w2 :| w2 in A && 0 <= Id(n, w2) < |s| && s[Id(n, w2)] == s[b];
        AnchorsLinked(g, i, j, g', withBottom, w1);
        AnchorsLinked(g, i, j, g', withBottom, w2);
        LinkedGrows(n, g.open, g'.open, withBottom, u, w1);
        LinkedGrows(n, g.open, g'.open, withBottom, w2, v);
        LinkedTrans(n, g'.open, withBottom, u, w1, X);
        LinkedTrans(n, g'.open, withBottom, u, X, w2);
        LinkedTrans(n, g'.open, withBottom, u, w2, v);
      }
    }
  }

  /** An edge that exists after the step but not before has the opened site as an end. */
  lemma NewEdgeAtSite(g: Grid, i: int, j: int, g': Grid, withBottom: bool, u: Node, v: Node)
    requires Opened(g, i, j, g')
    requires Edge(g.n, g'.open, withBottom, u, v) && !Edge(g.n, g.open, withBottom, u, v)
    ensures u == Site(i, j) || v == Site(i, j)
  {
    if u != Site(i, j) && v != Site(i, j) {
      if u.Site? {
        OtherSiteUnchanged(g, i, j, g', u.row, u.col);
      }
      if v.Site? {
        OtherSiteUnchanged(g, i, j, g', v.row, v.col);
      }
      assert false;
    }
  }

  /** An anchor in the forest without the virtual bottom is one in the forest with it. */
  lemma AnchorsWithoutBottom(g: Grid, i: int, j: int, withBottom: bool, w: Node)
    requires w in Anchors(g, i, j, false)
    ensures w in Anchors(g, i, j, withBottom)
  {
  }

  /** After fusing the anchors of a newly opened site, an edge of the graph without
      the virtual bottom joins two elements of one component. */
  lemma FusedEdgeJoined(g: Grid, i: int, j: int, g': Grid, withBottom: bool, s: seq<int>, t: seq<int>, u: Node, v: Node)
    requires Opened(g, i, j, g')
    requires |s| >= g.n * g.n + 1
    requires EdgesJoined(g.n, g.open, false, s) && Fused(g.n, s, t, Anchors(g, i, j, withBottom))
    requires Edge(g.n, g'.open, false, u, v)
    ensures 0 <= Id(g.n, u) < |t| && 0 <= Id(g.n, v) < |t| && t[Id(g.n, u)] == t[Id(g.n, v)]
  {
    var n, A := g.n, Anchors(g, i, j, withBottom);
    EdgeSymmetric(n, g'.open, false, u, v);
    if Edge(n, g.open, false, u, v) {
      FusedGrows(n, s, t, A, Id(n, u), Id(n, v));
    } else {
      NewEdgeAtSite(g, i, j, g', false, u, v);
      if u == Site(i, j) {
        NeighboursAreAnchors(g, i, j, g', v);
        AnchorsWithoutBottom(g, i, j, withBottom, v);
      } else {
        NeighboursAreAnchors(g, i, j, g', u);
        AnchorsWithoutBottom(g, i, j, withBottom, u);
      }
      FusedAnchors(n, s, t, A, u, v);
    }
  }

  /** Fusing the anchors of a newly opened site keeps every edge of the graph
      without the virtual bottom joined. */
  lemma FusedEdgesJoined(g: Grid, i: int, j: int, g': Grid, withBottom: bool, s: seq<int>, t: seq<int>)
    requires Opened(g, i, j, g')
    requires |s| >= g.n * g.n + 1
    requires EdgesJoined(g.n, g.open, false, s) && Fused(g.n, s, t, Anchors(g, i, j, withBottom))
    ensures EdgesJoined(g.n, g'.open, false, t)
  {
    forall u, v | Edge(g.n, g'.open, false, u, v)
      ensures 0 <= Id(g.n, u) < |t| && 0 <= Id(g.n, v) < |t| && t[Id(g.n, u)] == t[Id(g.n, v)]
    {
      FusedEdgeJoined(g, i, j, g', withBottom, s, t, u, v);
    }
  }

  /** Fusing the anchors of a newly opened site keeps every open last-row site with
      the virtual bottom (or the flag set), and keeps the virtual nodes joined once
      the flag is set. */
  lemma FusedBottomJoined(g: Grid, i: int, j: int, g': Grid)
    requires Opened(g, i, j, g') && WellFormed(g') && g'.percolation == g.percolation
    requires BottomJoined(g) && (g.percolation ==> g.uf[0] == g.uf[g.n * g.n + 1])
    requires Fused(g.n, g.uf, g'.uf, Anchors(g, i, j, true))
    ensures BottomJoined(g') && (g'.percolation ==> g'.uf[0] == g'.uf[g'.n * g'.n + 1])
  {
    var n, A := g.n, Anchors(g, i, j, true);
    if g.percolation {
      FusedGrows(n, g.uf, g'.uf, A, 0, n * n + 1);
    }
    forall j' | OpenAt(n, g'.open, n, j')
      ensures g'.uf[Id(n, Site(n, j'))] == g'.uf[n * n + 1] || g'.percolation
    {
      if (n, j') == (i, j) {
        if !g.percolation {
          FusedAnchors(n, g.uf, g'.uf, A, Site(i, j), Bottom);
        }
      } else {
        OtherSiteUnchanged(g, i, j, g', n, j');
        if !g.percolation {
          FusedGrows(n, g.uf, g'.uf, A, Id(n, Site(n, j')), n * n + 1);
        }
      }
    }
  }

  /** open(i, j) preserves the invariant. */
  lemma OpenPreservesInv(g: Grid, i: int, j: int, g': Grid)
    requires Inv(g) && OpenStep(g, i, j, g')
    ensures Inv(g')
  {
    if InBounds(g.n, i, j) && !IsOpenAt(g, i, j) {
      OpenAddsOneSite(g, i, j, g');
      FusedSound(g, i, j, g', true, g.uf, g'.uf);
      FusedSound(g, i, j, g', false, g.fc, g'.fc);
      FusedEdgesJoined(g, i, j, g', true, g.uf, g'.uf);
      FusedEdgesJoined(g, i, j, g', false, g.fc, g'.fc);
      FusedBottomJoined(g, i, j, g');
    }
  }

  /** percolates() preserves the invariant. */
  lemma PercolatesPreservesInv(g: Grid)
    requires Inv(g)
    ensures Inv(AfterPercolates(g))
  {
    var g' := AfterPercolates(g);
    assert g'.open == g.open && g'.uf == g.uf && g'.fc == g.fc && g'.n == g.n;
    assert OpenIndices(g') == OpenIndices(g);
  }
}
