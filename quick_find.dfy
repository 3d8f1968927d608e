/**
 * quick_find.py: eager flattening over the indices 0..n-1.  Every entry of
 * `root` names its class representative directly, so `find` and `connected`
 * are single reads, and `union` rewrites, in one pass over the list, every
 * entry equal to `find(y)` into `find(x)`.
 */
module QuickFind {
  import opened DisjointSets

  /** Every entry is an index that is its own root: the list is a forest of depth at most one. */
  ghost predicate Flat(root: seq<int>)
  {
    forall i :: 0 <= i < |root| ==> 0 <= root[i] < |root| && root[root[i]] == root[i]
  }

  /** The termination measure a flat list needs: 1 at the roots, 0 elsewhere. */
  ghost function FlatMeasure(root: seq<int>): seq<int>
  {
    seq(|root|, i requires 0 <= i < |root| => if root[i] == i then 1 else 0)
  }

  /** The list with every entry equal to `from` replaced by `to`: the effect of `union`. */
  ghost function Relabel(root: seq<int>, from: int, to: int): (r: seq<int>)
    ensures |r| == |root|
  {
    seq(|root|, i requires 0 <= i < |root| => if root[i] == from then to else root[i])
  }

  /** A flat list is a valid forest in which every index's representative is its entry. */
  lemma FlatRep(root: seq<int>)
    requires Flat(root)
    ensures ValidIndexed(root, FlatMeasure(root)) && Valid(Indexed(root, FlatMeasure(root)))
    ensures forall i :: 0 <= i < |root| ==> Rep(Indexed(root, FlatMeasure(root)), i) == root[i]
  {
    IndexedValid(root, FlatMeasure(root));
    var f := Indexed(root, FlatMeasure(root));
    forall i | 0 <= i < |root|
      ensures Rep(f, i) == root[i]
    {
      if root[i] != i {
        assert Next(f, i) == root[i] && f.parent[root[i]] == root[i];
      }
    }
  }

  /** Relabelling one root into another keeps the list flat. */
  lemma RelabelFlat(root: seq<int>, from: int, to: int)
    requires Flat(root) && 0 <= from < |root| && 0 <= to < |root|
    requires root[from] == from && root[to] == to
    ensures Flat(Relabel(root, from, to))
  {
    var r := Relabel(root, from, to);
    forall i | 0 <= i < |r|
      ensures 0 <= r[i] < |r| && r[r[i]] == r[i]
    {
      if root[i] == from {
        assert r[i] == to && r[to] == to;
      } else {
        assert r[i] == root[i] && root[root[i]] == root[i];
      }
    }
  }

  /** Relabelling merges exactly the class `from` into the class `to`; relabelling a root onto itself changes nothing. */
  lemma {:induction false} RelabelMerges(root: seq<int>, from: int, to: int)
    requires Flat(root) && 0 <= from < |root| && 0 <= to < |root|
    requires root[from] == from && root[to] == to
    ensures forall a, b :: 0 <= a < |root| && 0 <= b < |root| ==>
      (Relabel(root, from, to)[a] == Relabel(root, from, to)[b] <==>
        root[a] == root[b] || ((root[a] == from || root[a] == to) && (root[b] == from || root[b] == to)))
    ensures from == to ==> Relabel(root, from, to) == root
    ensures Flat(Relabel(root, from, to))
  {
    var r := Relabel(root, from, to);
    RelabelFlat(root, from, to);
    forall a, b | 0 <= a < |root| && 0 <= b < |root|
      ensures r[a] == r[b] <==> root[a] == root[b] || ((root[a] == from || root[a] == to) && (root[b] == from || root[b] == to))
    {
      if root[a] != from && root[b] == from {
        assert r[b] == to && r[a] == root[a];
      }
      if root[a] == from && root[b] != from {
        assert r[a] == to && r[b] == root[b];
      }
    }
    if from == to {
      assert forall i :: 0 <= i < |root| ==> r[i] == root[i];
    }
  }

  /** In forest terms: after relabelling, a key whose representative was `from` has representative `to`. */
  lemma RelabelRep(root: seq<int>, from: int, to: int)
    requires Flat(root) && 0 <= from < |root| && 0 <= to < |root|
    requires root[from] == from && root[to] == to
    ensures Flat(Relabel(root, from, to))
    ensures Valid(Indexed(Relabel(root, from, to), FlatMeasure(Relabel(root, from, to))))
    ensures forall a :: 0 <= a < |root| ==>
      Rep(Indexed(Relabel(root, from, to), FlatMeasure(Relabel(root, from, to))), a) ==
        if Rep(Indexed(root, FlatMeasure(root)), a) == from then to else Rep(Indexed(root, FlatMeasure(root)), a)
  {
    RelabelFlat(root, from, to);
    FlatRep(root);
    FlatRep(Relabel(root, from, to));
  }

  class Graph {
    var root: seq<int>
    const n: nat

    ghost predicate Valid()
      reads this
    {
      |root| == n && Flat(root)
    }

    ghost function State(): Forest<int>
      reads this
    {
      Indexed(root, FlatMeasure(root))
    }

    /** `n` singleton classes. */
    constructor (n: nat)
      ensures Valid() && this.n == n
      ensures forall i :: 0 <= i < n ==> root[i] == i
    {
      this.n := n;
      root := seq(n, i => i);
    }

    /** The representative of `x` in one read. */
    method Find(x: int) returns (r: int)
      requires Valid() && 0 <= x < n
      ensures DisjointSets.Valid(State()) && r == Rep(State(), x)
      ensures 0 <= r < n && root[r] == r
    {
      FlatRep(root);
      r := root[x];
    }

    /** Rewrites every entry equal to `find(y)` into `find(x)`, keeping the list flat. */
    method Union(x: int, y: int)
      requires Valid() && 0 <= x < n && 0 <= y < n
      modifies this
      ensures Valid()
      ensures root == Relabel(old(root), old(root[y]), old(root[x]))
      // y's class joins x's; every other class is unchanged
      ensures root[x] == root[y]
      ensures old(root[x]) == old(root[y]) ==> root == old(root)
    {
      var rootX := Find(x);
      var rootY := Find(y);
      for i := 0 to n
        invariant |root| == n
        invariant forall j :: 0 <= j < i ==> root[j] == if old(root[j]) == rootY then rootX else old(root[j])
        invariant forall j :: i <= j < n ==> root[j] == old(root[j])
      {
        if root[i] == rootY {
          root := root[i := rootX];
        }
      }
      assert root == Relabel(old(root), rootY, rootX);
      RelabelMerges(old(root), rootY, rootX);
    }

    method Connected(x: int, y: int) returns (c: bool)
      requires Valid() && 0 <= x < n && 0 <= y < n
      ensures DisjointSets.Valid(State()) && (c <==> SameClass(State(), x, y))
    {
      FlatRep(root);
      c := root[x] == root[y];
    }
  }

  /** The scenario at the bottom of quick_find.py. */
  method Scenario() returns (root: seq<int>, three: int, c03: bool)
    ensures root == [0, 1, 1, 1] && three == 1 && !c03
  {
    var g := new Graph(4);
    g.Union(1, 2);
    assert g.root == [0, 1, 1, 3];
    g.Union(1, 3);
    assert g.root == [0, 1, 1, 1];
    three := g.Find(3);
    root := g.root;
    c03 := g.Connected(0, 3);
  }
}
