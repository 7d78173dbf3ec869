/// The percolation engine: an N-by-N grid of sites that start closed, an open flag
/// per index, and two union-find forests over the flat indices. The percolation
/// forest `uf` has the virtual top 0 and the virtual bottom N * N + 1 and answers
/// percolates(); the fullness forest `fullCheck` has only the virtual top and
/// answers isFull(), so that a site reached only through the bottom row is never
/// reported full. Every method is proved against the value model in
/// PercolationModel.
module Engine {
  import opened Sites
  import opened Paths
  import opened UnionFind
  import opened PercolationModel
  import opened PercolationProperties

  datatype Error = IllegalArgument | IndexOutOfBounds

  /** The value of a call that may throw one of the engine's exceptions. */
  datatype Result<T> = Ok(value: T) | Err(error: Error)

  class Percolation {
    const uf: QuickFindUF
    const fullCheck: QuickFindUF
    const size: nat
    var sitesOpen: int
    var percolation: bool
    const nodeOpen: array<bool>

    /** The engine's state as a value. */
    ghost function Model(): (g: Grid)
      reads this, nodeOpen, uf.id, fullCheck.id
    {
      Grid(size, nodeOpen[..], uf.id[..], fullCheck.id[..], sitesOpen, percolation)
    }

    /** The arrays have the lengths the constructor gives them, and the two forests
        do not share their storage. */
    ghost predicate Shape()
      reads this
    {
      nodeOpen.Length == size * size + 2 && uf.id.Length == size * size + 2 &&
      fullCheck.id.Length == size * size + 1 && uf.id != fullCheck.id
    }

    ghost predicate Valid()
      reads this, nodeOpen, uf.id, fullCheck.id
    {
      Shape() && Inv(Model())
    }

    /** A grid of side N with every site closed. */
    constructor (N: nat)
      ensures Valid() && Initial(Model(), N)
      ensures fresh(nodeOpen) && fresh(uf) && fresh(fullCheck) && fresh(uf.id) && fresh(fullCheck.id)
    {
      size := N;
      uf := new QuickFindUF(N * N + 2);
      fullCheck := new QuickFindUF(N * N + 1);
      nodeOpen := new bool[N * N + 2];
      percolation := false;
      sitesOpen := 0;
      new;
      for k := 0 to N * N + 1
        modifies nodeOpen
        invariant forall m :: 0 <= m < k ==> !nodeOpen[m]
      {
        nodeOpen[k] := false;
      }
      InitialInv(Model(), N);
    }

    /** new Percolation(N): rejects a negative side and accepts every other,
        including 0. */
    static method Create(N: int) returns (r: Result<Percolation>)
      ensures N < 0 <==> r.Err?
      ensures r.Err? ==> r.error == IllegalArgument
      ensures r.Ok? ==> fresh(r.value) && r.value.Valid() && Initial(r.value.Model(), N)
      ensures r.Ok? ==> fresh(r.value.nodeOpen) && fresh(r.value.uf) && fresh(r.value.fullCheck)
      ensures r.Ok? ==> fresh(r.value.uf.id) && fresh(r.value.fullCheck.id)
    {
      if N < 0 {
        return Err(IllegalArgument);
      }
      var p := new Percolation(N);
      return Ok(p);
    }

    /** isOpen(i, j): the site's open flag, or IndexOutOfBounds. */
    method IsOpen(i: int, j: int) returns (r: Result<bool>)
      requires Shape()
      ensures r == if InBounds(size, i, j) then Ok(IsOpenAt(Model(), i, j)) else Err(IndexOutOfBounds)
    {
      if i < 1 || i > size || j < 1 || j > size {
        return Err(IndexOutOfBounds);
      }
      IdForms(size, i, j);
      return Ok(nodeOpen[size * (i - 1) + j]);
    }

    /** open(i, j): IndexOutOfBounds out of bounds, nothing for an open site;
        otherwise the site opens, the counter goes up and both forests join the
        site's anchors (the virtual bottom only in uf). */
    method Open(i: int, j: int) returns (r: Result<()>)
      requires Valid()
      modifies this, nodeOpen, uf.id, fullCheck.id
      ensures Valid()
      ensures OpenStep(old(Model()), i, j, Model())
      ensures r == if InBounds(size, i, j) then Ok(()) else Err(IndexOutOfBounds)
    {
      ghost var g := Model();
      if i < 1 || i > size || j < 1 || j > size {
        return Err(IndexOutOfBounds);
      }
      var wasOpen := IsOpen(i, j);
      if wasOpen.value {
        return Ok(());
      }
      IdForms(size, i, j);
      nodeOpen[(i - 1) * size + j] := true;
      sitesOpen := sitesOpen + 1;
      assert FlagSet(g, i, j);
      Connect(i, j, g);
      OpenPreservesInv(g, i, j, Model());
      return Ok(());
    }

    /** The open flags are those of g with the flag of the closed site (i, j) set. */
    ghost predicate FlagSet(g: Grid, i: int, j: int)
      reads this, nodeOpen
    {
      g.n == size && Opened(g, i, j, g.(open := nodeOpen[..]))
    }

    /** Midway through open's unions: the flag of (i, j) is set, and each forest is
        g's with the components of the anchors met so far (ufA, fcA) fused. */
    ghost predicate Linking(g: Grid, i: int, j: int, ufA: set<Node>, fcA: set<Node>)
      reads this, nodeOpen, uf.id, fullCheck.id
    {
      Shape() && FlagSet(g, i, j) && Site(i, j) in ufA && Site(i, j) in fcA &&
      Fused(size, g.uf, uf.id[..], ufA) && Fused(size, g.fc, fullCheck.id[..], fcA)
    }

    /** The unions open makes after setting the flag of (i, j): with the virtual top
        for row 1, with each open neighbour, and with the virtual bottom (only in uf)
        for row size while the percolation flag is clear. */
    method Connect(i: int, j: int, ghost g: Grid)
      requires Shape() && FlagSet(g, i, j) && g.uf == uf.id[..] && g.fc == fullCheck.id[..]
      requires g.percolation == percolation
      modifies uf.id, fullCheck.id
      ensures Fused(size, g.uf, uf.id[..], Anchors(g, i, j, true))
      ensures Fused(size, g.fc, fullCheck.id[..], Anchors(g, i, j, false))
    {
      IdForms(size, i, j);
      ghost var ufA, fcA := LinkTop(i, j, g);
      ufA, fcA := LinkNeighbours(i, j, g, ufA, fcA);
      if i == size && !percolation {
        UnionAnchor(uf, size, g.uf, ufA, size * size + 1, size * (i - 1) + j, Site(i, j), Bottom);
      }
      assert fcA == SiteAnchors(g, i, j);
      AnchorsNoBottom(g, i, j);
    }

    /** The union with the virtual top that open makes for a site of row 1. */
    method LinkTop(i: int, j: int, ghost g: Grid) returns (ghost ufA: set<Node>, ghost fcA: set<Node>)
      requires Shape() && FlagSet(g, i, j) && g.uf == uf.id[..] && g.fc == fullCheck.id[..]
      modifies uf.id, fullCheck.id
      ensures Linking(g, i, j, ufA, fcA)
      ensures ufA == fcA == {Site(i, j)} + (if i == 1 then {Top} else {})
    {
      IdForms(size, i, j);
      ufA, fcA := {Site(i, j)}, {Site(i, j)};
      FusedStart(size, g.uf, Site(i, j));
      FusedStart(size, g.fc, Site(i, j));
      if i == 1 {
        UnionAnchor(uf, size, g.uf, ufA, 0, size * (i - 1) + j, Site(i, j), Top);
        UnionAnchor(fullCheck, size, g.fc, fcA, 0, size * (i - 1) + j, Site(i, j), Top);
      }
      ufA, fcA := ufA + (if i == 1 then {Top} else {}), fcA + (if i == 1 then {Top} else {});
    }

    /** The four neighbour blocks of open, in the order left, right, up, down. */
    method LinkNeighbours(i: int, j: int, ghost g: Grid, ghost ufA: set<Node>, ghost fcA: set<Node>)
      returns (ghost ufA': set<Node>, ghost fcA': set<Node>)
      requires Linking(g, i, j, ufA, fcA)
      modifies uf.id, fullCheck.id
      ensures Linking(g, i, j, ufA', fcA')
      ensures ufA' == ufA + NeighbourAnchor(g, j - 1 > 0, i, j - 1) + NeighbourAnchor(g, j + 1 <= g.n, i, j + 1)
                          + NeighbourAnchor(g, i - 1 > 0, i - 1, j) + NeighbourAnchor(g, i + 1 <= g.n, i + 1, j)
      ensures fcA' == fcA + NeighbourAnchor(g, j - 1 > 0, i, j - 1) + NeighbourAnchor(g, j + 1 <= g.n, i, j + 1)
                          + NeighbourAnchor(g, i - 1 > 0, i - 1, j) + NeighbourAnchor(g, i + 1 <= g.n, i + 1, j)
    {
      IdForms(size, i, j);
      ufA', fcA' := LinkIfOpen(j - 1 > 0, i, j, i, j - 1, size * (i - 1) + j - 1, g, ufA, fcA);
      ufA', fcA' := LinkIfOpen(j + 1 <= size, i, j, i, j + 1, size * (i - 1) + j + 1, g, ufA', fcA');
      ufA', fcA' := LinkVertical(i, j, g, ufA', fcA');
    }

    /** The up and down blocks of open. */
    method LinkVertical(i: int, j: int, ghost g: Grid, ghost ufA: set<Node>, ghost fcA: set<Node>)
      returns (ghost ufA': set<Node>, ghost fcA': set<Node>)
      requires Linking(g, i, j, ufA, fcA)
      modifies uf.id, fullCheck.id
      ensures Linking(g, i, j, ufA', fcA')
      ensures ufA' == ufA + NeighbourAnchor(g, i - 1 > 0, i - 1, j) + NeighbourAnchor(g, i + 1 <= g.n, i + 1, j)
      ensures fcA' == fcA + NeighbourAnchor(g, i - 1 > 0, i - 1, j) + NeighbourAnchor(g, i + 1 <= g.n, i + 1, j)
    {
      IdForms(size, i, j);
      ufA', fcA' := LinkIfOpen(i - 1 > 0, i, j, i - 1, j, size * (i - 2) + j, g, ufA, fcA);
      ufA', fcA' := LinkIfOpen(i + 1 <= size, i, j, i + 1, j, size * i + j, g, ufA', fcA');
    }

    /** One neighbour block of open: when the bounds test `inside` passes and the
        neighbour (i2, j2), of index y, is open, it is unioned with the site (i, j)
        in both forests. */
    method LinkIfOpen(inside: bool, i: int, j: int, i2: int, j2: int, y: int, ghost g: Grid,
                      ghost ufA: set<Node>, ghost fcA: set<Node>)
      returns (ghost ufA': set<Node>, ghost fcA': set<Node>)
      requires Linking(g, i, j, ufA, fcA) && Adjacent(i, j, i2, j2)
      requires inside <==> InBounds(size, i2, j2)
      requires inside ==> y == Id(size, Site(i2, j2))
      modifies uf.id, fullCheck.id
      ensures Linking(g, i, j, ufA', fcA')
      ensures ufA' == ufA + NeighbourAnchor(g, inside, i2, j2)
      ensures fcA' == fcA + NeighbourAnchor(g, inside, i2, j2)
    {
      ufA', fcA' := ufA, fcA;
      IdForms(size, i, j);
      if inside {
        OtherSiteUnchanged(g, i, j, g.(open := nodeOpen[..]), i2, j2);
        var neighbour := IsOpen(i2, j2);
        if neighbour.value {
          UnionAnchor(uf, size, g.uf, ufA, size * (i - 1) + j, y, Site(i, j), Site(i2, j2));
          UnionAnchor(fullCheck, size, g.fc, fcA, size * (i - 1) + j, y, Site(i, j), Site(i2, j2));
          ufA', fcA' := ufA + {Site(i2, j2)}, fcA + {Site(i2, j2)};
        }
      }
    }

    /** One union made while opening a site, in forest f: p is already fused with
        the anchors A, and the union of the indices x and y of p and q adds q to them. */
    static method UnionAnchor(f: QuickFindUF, ghost n: nat, ghost s: seq<int>, ghost A: set<Node>,
                              x: int, y: int, ghost p: Node, ghost q: Node)
      requires Fused(n, s, f.id[..], A) && p in A && 0 <= Id(n, q) < |s|
      requires (x == Id(n, p) && y == Id(n, q)) || (x == Id(n, q) && y == Id(n, p))
      modifies f.id
      ensures Fused(n, s, f.id[..], A + {q})
    {
      ghost var t := f.id[..];
      assert HasIndex(n, s, p);
      f.Union(x, y);
      FusedExtend(n, s, t, f.id[..], A, p, q);
    }

    /** isFull(i, j): IndexOutOfBounds out of bounds; otherwise whether the site is
        open and joined with the virtual top in the fullness forest, which is
        exactly whether a walk of open sites leads to it from the top row. */
    method IsFull(i: int, j: int) returns (r: Result<bool>)
      requires Valid()
      ensures r == if InBounds(size, i, j) then Ok(IsFullAt(Model(), i, j)) else Err(IndexOutOfBounds)
      ensures r.Ok? ==> (r.value <==> Linked(size, nodeOpen[..], false, Top, Site(i, j)))
      ensures r == Ok(true) ==> IsOpenAt(Model(), i, j)
    {
      if i < 1 || i > size || j < 1 || j > size {
        return Err(IndexOutOfBounds);
      }
      FullIffReachable(Model(), i, j);
      IdForms(size, i, j);
      var o := IsOpen(i, j);
      if o.value {
        var c := fullCheck.Connected(size * (i - 1) + j, 0);
        if c {
          return Ok(true);
        }
      }
      return Ok(false);
    }

    /** percolates(): whether uf joins the two virtual nodes and a site is open,
        which is exactly whether a walk of open sites leads from the top row to the
        bottom row; a true answer also sets the percolation flag. */
    method Percolates() returns (r: bool)
      requires Valid()
      modifies this`percolation
      ensures Valid()
      ensures r == Percolating(old(Model()))
      ensures r <==> Linked(size, nodeOpen[..], true, Top, Bottom)
      ensures Model() == AfterPercolates(old(Model()))
    {
      PercolatesIffReachable(Model());
      PercolatesPreservesInv(Model());
      var c := uf.Connected(0, size * size + 1);
      if c && sitesOpen >= 1 {
        percolation := true;
        return true;
      }
      return false;
    }
  }
}
