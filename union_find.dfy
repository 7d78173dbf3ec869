/// A small union-find standing in for the weighted quick-union library class the
/// grid engine uses. It is a quick-find forest: each element carries a component
/// label, and two elements are connected exactly when their labels agree. Its
/// contracts speak of connectivity only, never of how components are represented.
module UnionFind {

  /** Elements a and b of the label sequence s are in one component. */
  predicate Same(s: seq<int>, a: int, b: int)
    requires 0 <= a < |s| && 0 <= b < |s|
  {
    s[a] == s[b]
  }

  /** Every element is alone in its own component. */
  ghost predicate Discrete(s: seq<int>)
  {
    forall a, b :: 0 <= a < |s| && 0 <= b < |s| ==> (s[a] == s[b] <==> a == b)
  }

  /** t is s after the components of p and q were merged: two elements are connected
      in t iff they were connected in s, or one was with p and the other with q. */
  ghost predicate Joined(s: seq<int>, t: seq<int>, p: int, q: int)
  {
    |t| == |s| && 0 <= p < |s| && 0 <= q < |s| &&
    forall a, b :: 0 <= a < |s| && 0 <= b < |s| ==>
      (t[a] == t[b] <==>
         s[a] == s[b] || (s[a] == s[p] && s[b] == s[q]) || (s[a] == s[q] && s[b] == s[p]))
  }

  class QuickFindUF {
    const id: array<int>

    /** n elements, each in a component of its own. */
    constructor (n: nat)
      ensures fresh(id) && id.Length == n && Discrete(id[..])
    {
      id := new int[n];
      new;
      for k := 0 to n
        invariant forall m :: 0 <= m < k ==> id[m] == m
      {
        id[k] := k;
      }
    }

    /** Merges the components of p and q; no component is ever split. */
    method Union(p: int, q: int)
      requires 0 <= p < id.Length && 0 <= q < id.Length
      modifies id
      ensures Joined(old(id[..]), id[..], p, q)
    {
      var pid, qid := id[p], id[q];
      if pid == qid {
        return;
      }
      for k := 0 to id.Length
        invariant forall m :: 0 <= m < k ==> id[m] == (if old(id[m]) == pid then qid else old(id[m]))
        invariant forall m :: k <= m < id.Length ==> id[m] == old(id[m])
      {
        if id[k] == pid {
          id[k] := qid;
        }
      }
    }

    /** Whether p and q are in the same component. */
    method Connected(p: int, q: int) returns (r: bool)
      requires 0 <= p < id.Length && 0 <= q < id.Length
      ensures r <==> Same(id[..], p, q)
    {
      r := id[p] == id[q];
    }
  }
}
