/**
 * quick_union.py: plain parent chasing over the indices 0..n-1.  `find`
 * follows `root` links from `x` to the fixed point, and `union` always hangs
 * `rootY` under `rootX`.  The source keeps no measure; the model carries a
 * ghost `height` list that grows toward the roots, which is what makes the
 * `find` loop terminate.
 */
module QuickUnion {
  import opened DisjointSets

  class UnionFind {
    var root: seq<int>
    ghost var height: seq<int>

    ghost predicate Valid()
      reads this
    {
      ValidIndexed(root, height)
    }

    ghost function State(): Forest<int>
      reads this
    {
      Indexed(root, height)
    }

    ghost function RepOf(a: int): int
      reads this
      requires Valid() && 0 <= a < |root|
    {
      IndexedValid(root, height);
      Rep(State(), a)
    }

    /** `n` singleton classes. */
    constructor (n: nat)
      ensures Valid() && |root| == n
      ensures forall i :: 0 <= i < n ==> root[i] == i
      ensures forall i :: 0 <= i < n ==> RepOf(i) == i
    {
      root := seq(n, i => i);
      height := seq(n, _ => 0);
    }

    /** Follows `root` links from `x` to an index that is its own root; changes nothing. */
    method Find(x: int) returns (r: int)
      requires Valid() && 0 <= x < |root|
      ensures 0 <= r < |root| && root[r] == r
      ensures r == RepOf(x)
    {
      IndexedValid(root, height);
      var i := x;
      while root[i] != i
        invariant 0 <= i < |root| && Rep(State(), i) == Rep(State(), x)
        decreases Headroom(State().rank, i)
      {
        HeadroomDecreases(State().rank, i, root[i]);
        i := root[i];
      }
      r := root[i];
    }

    /** Hangs `y`'s root under `x`'s root; nothing changes when they are the same root. */
    method Union(x: int, y: int)
      requires Valid() && 0 <= x < |root| && 0 <= y < |root|
      modifies this
      ensures Valid() && |root| == old(|root|)
      ensures old(RepOf(x)) == old(RepOf(y)) ==> root == old(root)
      ensures old(RepOf(x)) != old(RepOf(y)) ==> root == old(root)[old(RepOf(y)) := old(RepOf(x))]
      // y's class joins x's, under x's root; every other class is unchanged
      ensures forall a :: 0 <= a < |root| ==>
        RepOf(a) == if old(RepOf(a)) == old(RepOf(y)) then old(RepOf(x)) else old(RepOf(a))
    {
      ghost var (r0, h0) := (root, height);
      var rootX := Find(x);
      var rootY := Find(y);
      if rootX != rootY {
        root := root[rootY := rootX];
        height := height[rootX := Raised(height, rootX, rootY)];
        HungMerges(r0, h0, rootX, rootY);
      }
    }

    method Connected(x: int, y: int) returns (c: bool)
      requires Valid() && 0 <= x < |root| && 0 <= y < |root|
      ensures c <==> SameClass(State(), x, y)
    {
      var rx := Find(x);
      var ry := Find(y);
      c := rx == ry;
    }
  }

  /** The ghost height of `a` once `b` hangs under it: above `b`'s. */
  ghost function Raised(height: seq<int>, a: int, b: int): (h: int)
    requires 0 <= a < |height| && 0 <= b < |height|
    ensures h >= height[a] && h > height[b]
  {
    if height[b] + 1 > height[a] then height[b] + 1 else height[a]
  }

  /** Relinking one root under another, with the raised height, introduces no cycle. */
  lemma HungValid(root: seq<int>, height: seq<int>, a: int, b: int)
    requires ValidIndexed(root, height) && 0 <= a < |root| && 0 <= b < |root|
    requires root[a] == a && root[b] == b && a != b
    ensures ValidIndexed(root[b := a], height[a := Raised(height, a, b)])
  {
  }

  /** After the relink, a key whose root was `b` has root `a`; every other key keeps its root. */
  lemma HungMerges(root: seq<int>, height: seq<int>, a: int, b: int)
    requires ValidIndexed(root, height) && 0 <= a < |root| && 0 <= b < |root|
    requires root[a] == a && root[b] == b && a != b
    ensures Valid(Indexed(root, height))
    ensures ValidIndexed(root[b := a], height[a := Raised(height, a, b)])
    ensures Valid(Indexed(root[b := a], height[a := Raised(height, a, b)]))
    ensures forall z :: 0 <= z < |root| ==>
      Rep(Indexed(root[b := a], height[a := Raised(height, a, b)]), z) ==
        if Rep(Indexed(root, height), z) == b then a else Rep(Indexed(root, height), z)
  {
    HungValid(root, height, a, b);
    IndexedRelink(root, height, height[a := Raised(height, a, b)], a, b);
  }

  /** Indices connected before the relink stay connected, and the two roots become connected. */
  lemma HungKeepsConnected(root: seq<int>, height: seq<int>, a: int, b: int, u: int, v: int)
    requires ValidIndexed(root, height) && 0 <= a < |root| && 0 <= b < |root| && 0 <= u < |root| && 0 <= v < |root|
    requires root[a] == a && root[b] == b && a != b
    requires Valid(Indexed(root, height)) && SameClass(Indexed(root, height), u, v)
    ensures Valid(Indexed(root[b := a], height[a := Raised(height, a, b)]))
    ensures SameClass(Indexed(root[b := a], height[a := Raised(height, a, b)]), u, v)
    ensures SameClass(Indexed(root[b := a], height[a := Raised(height, a, b)]), a, b)
  {
    HungMerges(root, height, a, b);
  }

  /** The ghost height only proves termination: any two valid heights give index `i` the same root. */
  lemma HeightIrrelevant(root: seq<int>, height: seq<int>, height': seq<int>, i: int)
    requires ValidIndexed(root, height) && ValidIndexed(root, height') && 0 <= i < |root|
    ensures Valid(Indexed(root, height)) && Valid(Indexed(root, height'))
    ensures Rep(Indexed(root, height), i) == Rep(Indexed(root, height'), i)
  {
    IndexedValid(root, height);
    IndexedValid(root, height');
    RepIgnoresRank(Indexed(root, height), Indexed(root, height'), i);
  }

  /** The root of every index is the corresponding entry of `m`. */
  ghost predicate Roots(uf: UnionFind, m: seq<int>)
    reads uf
    requires uf.Valid()
  {
    |m| == |uf.root| && forall i {:trigger uf.RepOf(i)} :: 0 <= i < |m| ==> uf.RepOf(i) == m[i]
  }

  /** `union(x, y)` seen through the roots of all indices: `m` before, `m'` after. */
  method UnionStep(uf: UnionFind, x: int, y: int, ghost m: seq<int>, ghost m': seq<int>)
    requires uf.Valid() && Roots(uf, m) && 0 <= x < |m| && 0 <= y < |m|
    requires |m'| == |m| && forall i :: 0 <= i < |m| ==> m'[i] == if m[i] == m[y] then m[x] else m[i]
    modifies uf
    ensures uf.Valid() && Roots(uf, m')
  {
    uf.Union(x, y);
  }

  /** `connected(x, y)` seen through the roots of all indices. */
  method ConnectedStep(uf: UnionFind, x: int, y: int, ghost m: seq<int>) returns (c: bool)
    requires uf.Valid() && Roots(uf, m) && 0 <= x < |m| && 0 <= y < |m|
    ensures c == (m[x] == m[y])
  {
    c := uf.Connected(x, y);
    assert uf.RepOf(x) == m[x] && uf.RepOf(y) == m[y];
  }

  /** The unions at the bottom of quick_union.py, which leave the classes 1-2-5-6-7, 3-8-9, 0 and 4. */
  method Joins() returns (uf: UnionFind)
    ensures fresh(uf) && uf.Valid() && Roots(uf, [0, 1, 1, 3, 4, 1, 1, 1, 3, 3])
  {
    uf := new UnionFind(10);
    UnionStep(uf, 1, 2, [0, 1, 2, 3, 4, 5, 6, 7, 8, 9], [0, 1, 1, 3, 4, 5, 6, 7, 8, 9]);
    UnionStep(uf, 2, 5, [0, 1, 1, 3, 4, 5, 6, 7, 8, 9], [0, 1, 1, 3, 4, 1, 6, 7, 8, 9]);
    UnionStep(uf, 5, 6, [0, 1, 1, 3, 4, 1, 6, 7, 8, 9], [0, 1, 1, 3, 4, 1, 1, 7, 8, 9]);
    UnionStep(uf, 6, 7, [0, 1, 1, 3, 4, 1, 1, 7, 8, 9], [0, 1, 1, 3, 4, 1, 1, 1, 8, 9]);
    UnionStep(uf, 3, 8, [0, 1, 1, 3, 4, 1, 1, 1, 8, 9], [0, 1, 1, 3, 4, 1, 1, 1, 3, 9]);
    UnionStep(uf, 8, 9, [0, 1, 1, 3, 4, 1, 1, 1, 3, 9], [0, 1, 1, 3, 4, 1, 1, 1, 3, 3]);
  }

  /** The checks at the bottom of quick_union.py: 1~5 and 5~7, and 4 is apart from 9 until `union(9, 4)`. */
  method Scenario() returns (c15: bool, c57: bool, c49: bool, c49Later: bool)
    ensures c15 && c57 && !c49 && c49Later
  {
    var uf := Joins();
    c15 := ConnectedStep(uf, 1, 5, [0, 1, 1, 3, 4, 1, 1, 1, 3, 3]);
    c57 := ConnectedStep(uf, 5, 7, [0, 1, 1, 3, 4, 1, 1, 1, 3, 3]);
    c49 := ConnectedStep(uf, 4, 9, [0, 1, 1, 3, 4, 1, 1, 1, 3, 3]);
    UnionStep(uf, 9, 4, [0, 1, 1, 3, 4, 1, 1, 1, 3, 3], [0, 1, 1, 3, 3, 1, 1, 1, 3, 3]);
    c49Later := ConnectedStep(uf, 4, 9, [0, 1, 1, 3, 3, 1, 1, 1, 3, 3]);
  }
}
