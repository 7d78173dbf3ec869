/// The nodes of an N-by-N percolation grid and their flat indices: the virtual top
/// is 0, the site in row i and column j (both counted from 1) is (i - 1) * N + j,
/// and the virtual bottom is N * N + 1.
module Sites {

  datatype Node = Top | Bottom | Site(row: int, col: int)

  /** Row i and column j both lie in [1, n]. */
  predicate InBounds(n: int, i: int, j: int)
  {
    1 <= i <= n && 1 <= j <= n
  }

  /** v is a node of the grid of side n; the virtual bottom only counts where it exists. */
  predicate IsNode(n: nat, withBottom: bool, v: Node)
  {
    match v
    case Top => true
    case Bottom => withBottom
    case Site(i, j) => InBounds(n, i, j)
  }

  /** A product of non-negative factors grows with its first factor. */
  lemma MulMonotone(a: int, b: int, n: nat)
    requires a <= b
    ensures a * n <= b * n
  {
    assert b * n - a * n == (b - a) * n;
  }

  /** The flat index of a node. A site's index lies in [1, n * n], strictly between
      the indices of the two virtual nodes. */
  function Id(n: nat, v: Node): (k: int)
    ensures v == Top ==> k == 0
    ensures v == Bottom ==> k == n * n + 1
    ensures v.Site? && InBounds(n, v.row, v.col) ==> 1 <= k <= n * n
    ensures IsNode(n, true, v) ==> 0 <= k <= n * n + 1
  {
    match v
    case Top => 0
    case Bottom => n * n + 1
    case Site(i, j) =>
      if InBounds(n, i, j) then
        MulMonotone(0, i - 1, n);
        MulMonotone(i - 1, n - 1, n);
        (i - 1) * n + j
      else
        (i - 1) * n + j
  }

  /** The index expressions of the engine, written as it writes them: the site
      itself and its left, right, upper and lower neighbours. */
  lemma IdForms(n: nat, i: int, j: int)
    ensures Id(n, Site(i, j)) == n * (i - 1) + j == (i - 1) * n + j
    ensures Id(n, Site(i, j - 1)) == n * (i - 1) + j - 1
    ensures Id(n, Site(i, j + 1)) == n * (i - 1) + j + 1
    ensures Id(n, Site(i - 1, j)) == n * (i - 2) + j
    ensures Id(n, Site(i + 1, j)) == n * i + j
  {
    assert n * (i - 2) == n * (i - 1) - n;
    assert n * i == n * (i - 1) + n;
  }

  /** Distinct nodes of the grid have distinct indices. */
  lemma IdInjective(n: nat, u: Node, v: Node)
    requires IsNode(n, true, u) && IsNode(n, true, v) && Id(n, u) == Id(n, v)
    ensures u == v
  {
    if u.Site? && v.Site? {
      var i1, j1, i2, j2 := u.row, u.col, v.row, v.col;
      if i1 < i2 {
        MulMonotone(i1, i2 - 1, n);
        assert false;
      } else if i2 < i1 {
        MulMonotone(i2, i1 - 1, n);
        assert false;
      }
    }
  }

  /** Quantified form of IdInjective, for proofs that compare many indices. */
  lemma IdsDistinct(n: nat)
    ensures forall u, v :: IsNode(n, true, u) && IsNode(n, true, v) && Id(n, u) == Id(n, v) ==> u == v
  {
    forall u, v | IsNode(n, true, u) && IsNode(n, true, v) && Id(n, u) == Id(n, v)
      ensures u == v
    {
      IdInjective(n, u, v);
    }
  }
}
