/// The reference meaning of "full" and "percolates": reachability in the graph whose
/// vertices are the grid's nodes and whose edges join two open sites that share a
/// side, the virtual top to every open site of row 1 and, in the graph that has it,
/// the virtual bottom to every open site of row n. The forests of the engine are
/// proved to answer exactly these reachability questions.
module Paths {
  import opened Sites

  /** Site (i, j) is on the grid and its flag in open is set. */
  predicate OpenAt(n: nat, open: seq<bool>, i: int, j: int)
  {
    InBounds(n, i, j) && Id(n, Site(i, j)) < |open| && open[Id(n, Site(i, j))]
  }

  /** Sites (i1, j1) and (i2, j2) share a side. */
  predicate Adjacent(i1: int, j1: int, i2: int, j2: int)
  {
    (i1 == i2 && (j1 == j2 + 1 || j2 == j1 + 1)) || (j1 == j2 && (i1 == i2 + 1 || i2 == i1 + 1))
  }

  /** One edge of the reference graph; the virtual bottom takes part only when withBottom. */
  predicate Edge(n: nat, open: seq<bool>, withBottom: bool, u: Node, v: Node)
  {
    match (u, v)
    case (Site(i1, j1), Site(i2, j2)) =>
      OpenAt(n, open, i1, j1) && OpenAt(n, open, i2, j2) && Adjacent(i1, j1, i2, j2)
    case (Top, Site(i, j)) => i == 1 && OpenAt(n, open, i, j)
    case (Site(i, j), Top) => i == 1 && OpenAt(n, open, i, j)
    case (Bottom, Site(i, j)) => withBottom && i == n && OpenAt(n, open, i, j)
    case (Site(i, j), Bottom) => withBottom && i == n && OpenAt(n, open, i, j)
    case _ => false
  }

  /** p is a walk of the reference graph. */
  ghost predicate IsPath(n: nat, open: seq<bool>, withBottom: bool, p: seq<Node>)
  {
    |p| > 0 && forall k :: 0 <= k < |p| - 1 ==> Edge(n, open, withBottom, p[k], p[k + 1])
  }

  /** Some walk of the reference graph leads from u to v. */
  ghost predicate Linked(n: nat, open: seq<bool>, withBottom: bool, u: Node, v: Node)
  {
    exists p :: |p| > 0 && IsPath(n, open, withBottom, p) && p[0] == u && p[|p| - 1] == v
  }

  /** Every flag of a site that is set in open is also set in open'. */
  ghost predicate OpenGrows(n: nat, open: seq<bool>, open': seq<bool>)
  {
    |open'| == |open| &&
    forall k :: 1 <= k <= n * n && k < |open| && open[k] ==> open'[k]
  }

  /** The reference graph is undirected, and its endpoints are nodes of the grid. */
  lemma EdgeSymmetric(n: nat, open: seq<bool>, withBottom: bool, u: Node, v: Node)
    requires Edge(n, open, withBottom, u, v)
    ensures Edge(n, open, withBottom, v, u)
    ensures IsNode(n, withBottom, u) && IsNode(n, withBottom, v)
  {
  }

  lemma LinkedRefl(n: nat, open: seq<bool>, withBottom: bool, u: Node)
    ensures Linked(n, open, withBottom, u, u)
  {
    assert IsPath(n, open, withBottom, [u]);
  }

  lemma LinkedEdge(n: nat, open: seq<bool>, withBottom: bool, u: Node, v: Node)
    requires Edge(n, open, withBottom, u, v)
    ensures Linked(n, open, withBottom, u, v) && Linked(n, open, withBottom, v, u)
  {
    EdgeSymmetric(n, open, withBottom, u, v);
    assert IsPath(n, open, withBottom, [u, v]);
    assert IsPath(n, open, withBottom, [v, u]);
  }

  /** Walks compose. */
  lemma LinkedTrans(n: nat, open: seq<bool>, withBottom: bool, u: Node, v: Node, w: Node)
    requires Linked(n, open, withBottom, u, v) && Linked(n, open, withBottom, v, w)
    ensures Linked(n, open, withBottom, u, w)
  {
    var p :| |p| > 0 && IsPath(n, open, withBottom, p) && p[0] == u && p[|p| - 1] == v;
    var q :| |q| > 0 && IsPath(n, open, withBottom, q) && q[0] == v && q[|q| - 1] == w;
    var r := p + q[1..];
    forall k | 0 <= k < |r| - 1
      ensures Edge(n, open, withBottom, r[k], r[k + 1])
    {
      if k < |p| - 1 {
        assert r[k] == p[k] && r[k + 1] == p[k + 1];
      } else {
        assert r[k] == q[k - |p| + 1] && r[k + 1] == q[k - |p| + 2];
      }
    }
    assert IsPath(n, open, withBottom, r);
    assert r[|r| - 1] == w;
  }

  /** Opening more sites only adds edges, so every walk survives. */
  lemma {:induction false} LinkedGrows(n: nat, open: seq<bool>, open': seq<bool>, withBottom: bool, u: Node, v: Node)
    requires OpenGrows(n, open, open')
    requires Linked(n, open, withBottom, u, v)
    ensures Linked(n, open', withBottom, u, v)
  {
    var p :| |p| > 0 && IsPath(n, open, withBottom, p) && p[0] == u && p[|p| - 1] == v;
    forall k | 0 <= k < |p| - 1
      ensures Edge(n, open', withBottom, p[k], p[k + 1])
    {
      assert Edge(n, open, withBottom, p[k], p[k + 1]);
    }
    assert IsPath(n, open', withBottom, p);
  }

  /** Every edge of the reference graph joins two elements of one component of s. */
  ghost predicate EdgesJoined(n: nat, open: seq<bool>, withBottom: bool, s: seq<int>)
  {
    forall u, v :: Edge(n, open, withBottom, u, v) ==>
      0 <= Id(n, u) < |s| && 0 <= Id(n, v) < |s| && s[Id(n, u)] == s[Id(n, v)]
  }

  /** Two nodes in one component of s are linked by a walk: the forest s never
      connects what the reference graph does not. */
  ghost predicate Sound(n: nat, open: seq<bool>, withBottom: bool, s: seq<int>)
  {
    forall u, v ::
      (IsNode(n, withBottom, u) && IsNode(n, withBottom, v) && Id(n, u) < |s| && Id(n, v) < |s| &&
       s[Id(n, u)] == s[Id(n, v)]) ==> Linked(n, open, withBottom, u, v)
  }

  /** When every edge is joined in s, the two ends of any walk are in one component. */
  lemma {:induction false} PathJoined(n: nat, open: seq<bool>, withBottom: bool, s: seq<int>, p: seq<Node>)
    requires IsPath(n, open, withBottom, p) && EdgesJoined(n, open, withBottom, s)
    requires 0 <= Id(n, p[0]) < |s|
    ensures 0 <= Id(n, p[|p| - 1]) < |s| && s[Id(n, p[0])] == s[Id(n, p[|p| - 1])]
  {
    if |p| > 1 {
      assert Edge(n, open, withBottom, p[0], p[1]);
      var rest := p[1..];
      assert IsPath(n, open, withBottom, rest) by {
        forall k | 0 <= k < |rest| - 1
          ensures Edge(n, open, withBottom, rest[k], rest[k + 1])
        {
          assert rest[k] == p[k + 1] && rest[k + 1] == p[k + 2];
        }
      }
      PathJoined(n, open, withBottom, s, rest);
    }
  }

  /** Linked form of PathJoined. */
  lemma LinkedJoined(n: nat, open: seq<bool>, withBottom: bool, s: seq<int>, u: Node, v: Node)
    requires Linked(n, open, withBottom, u, v) && EdgesJoined(n, open, withBottom, s)
    requires 0 <= Id(n, u) < |s|
    ensures 0 <= Id(n, v) < |s| && s[Id(n, u)] == s[Id(n, v)]
  {
    var p :| |p| > 0 && IsPath(n, open, withBottom, p) && p[0] == u && p[|p| - 1] == v;
    PathJoined(n, open, withBottom, s, p);
  }

  /** A walk that leaves a node takes an edge at that node first. */
  lemma LinkedFirstEdge(n: nat, open: seq<bool>, withBottom: bool, u: Node, v: Node)
    requires Linked(n, open, withBottom, u, v) && u != v
    ensures exists w :: Edge(n, open, withBottom, u, w)
  {
    var p :| |p| > 0 && IsPath(n, open, withBottom, p) && p[0] == u && p[|p| - 1] == v;
    assert Edge(n, open, withBottom, p[0], p[1]);
  }

  /** A walk that arrives at a node from another one takes an edge into it last. */
  lemma LinkedLastEdge(n: nat, open: seq<bool>, withBottom: bool, u: Node, v: Node)
    requires Linked(n, open, withBottom, u, v) && u != v
    ensures exists w :: Edge(n, open, withBottom, w, v)
  {
    var p :| |p| > 0 && IsPath(n, open, withBottom, p) && p[0] == u && p[|p| - 1] == v;
    assert Edge(n, open, withBottom, p[|p| - 2], p[|p| - 1]);
  }
}
