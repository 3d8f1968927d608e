/**
 * union_rank.py: union by rank over the indices 0..n-1.  Ranks start at 1,
 * `find` follows `root` links without compressing them, and `union` hangs
 * the lower-ranked root under the higher-ranked one (on a tie, `rootY`
 * under `rootX`, whose rank grows by one).  The stored rank is itself the
 * measure that makes `find` terminate.
 */
module UnionRank {
  import opened DisjointSets

  class FindUnion {
    var root: seq<int>
    var rank: seq<int>

    ghost predicate Valid()
      reads this
    {
      ValidIndexed(root, rank)
    }

    /** The forest the two lists describe. */
    ghost function State(): Forest<int>
      reads this
    {
      Indexed(root, rank)
    }

    ghost function RepOf(a: int): int
      reads this
      requires Valid() && 0 <= a < |root|
    {
      IndexedValid(root, rank);
      Rep(State(), a)
    }

    /** `n` singleton classes, each of rank 1. */
    constructor (n: nat)
      ensures Valid() && |root| == n && |rank| == n
      ensures forall i :: 0 <= i < n ==> root[i] == i && rank[i] == 1
      ensures forall i :: 0 <= i < n ==> RepOf(i) == i
    {
      root := seq(n, i => i);
      rank := seq(n, _ => 1);
    }

    /** Follows `root` links from `x` to the fixed point; changes nothing. */
    method Find(x: int) returns (r: int)
      requires Valid() && 0 <= x < |root|
      ensures 0 <= r < |root| && root[r] == r
      ensures r == RepOf(x)
    {
      IndexedValid(root, rank);
      r := x;
      while root[r] != r
        invariant 0 <= r < |root| && Rep(State(), r) == Rep(State(), x)
        decreases Headroom(State().rank, r)
      {
        HeadroomDecreases(State().rank, r, root[r]);
        r := root[r];
      }
    }

    /** Union by rank of `x`'s and `y`'s classes; nothing changes when they already share a root. */
    method Union(x: int, y: int)
      requires Valid() && 0 <= x < |root| && 0 <= y < |root|
      modifies this
      ensures Valid() && |root| == old(|root|)
      ensures old(RepOf(x)) == old(RepOf(y)) ==> root == old(root) && rank == old(rank)
      ensures old(RepOf(x)) != old(RepOf(y)) ==>
        (root, rank) == Linked(old(root), old(rank), old(RepOf(x)), old(RepOf(y)))
      // the classes of x and y merge, and every other class is unchanged
      ensures Merges(old(State()), State(), x, y)
    {
      ghost var (r0, h0) := (root, rank);
      var rootX := Find(x);
      var rootY := Find(y);
      if rootY != rootX {
        if rank[rootX] > rank[rootY] {
          root := root[rootY := rootX];
        } else if rank[rootX] < rank[rootY] {
          root := root[rootX := rootY];
        } else {
          root := root[rootY := rootX];
          rank := rank[rootX := rank[rootX] + 1];
        }
        assert (root, rank) == Linked(r0, h0, rootX, rootY);
        LinkedClasses(r0, h0, rootX, rootY, x, y);
      }
    }

    method Connected(x: int, y: int) returns (c: bool)
      requires Valid() && 0 <= x < |root| && 0 <= y < |root|
      ensures c <==> SameClass(State(), x, y)
    {
      var rx := Find(x);
      var ry := Find(y);
      c := rx == ry;
    }
  }

  /** The lists after `union` of two distinct roots `a` (rootX) and `b` (rootY), union_rank.py:14-20. */
  function Linked(root: seq<int>, rank: seq<int>, a: int, b: int): (r: (seq<int>, seq<int>))
    requires 0 <= a < |root| && 0 <= b < |root| && |rank| == |root|
    ensures |r.0| == |root| && |r.1| == |rank|
  {
    if rank[a] > rank[b] then (root[b := a], rank)
    else if rank[a] < rank[b] then (root[a := b], rank)
    else (root[b := a], rank[a := rank[a] + 1])
  }

  /** The list update is the abstract rank link of the two roots, with `b` and `a` in the roles of rootY and rootX. */
  lemma LinkedIsLink(root: seq<int>, rank: seq<int>, a: int, b: int)
    requires ValidIndexed(root, rank) && 0 <= a < |root| && 0 <= b < |root|
    requires root[a] == a && root[b] == b && a != b
    ensures Valid(Indexed(root, rank))
    ensures ValidIndexed(Linked(root, rank, a, b).0, Linked(root, rank, a, b).1)
    ensures Indexed(Linked(root, rank, a, b).0, Linked(root, rank, a, b).1) == Link(Indexed(root, rank), a, b)
  {
    IndexedValid(root, rank);
    if rank[a] > rank[b] {
      Relinked(root, rank, b, a);
    } else if rank[a] < rank[b] {
      Relinked(root, rank, a, b);
    } else {
      RelinkedTie(root, rank, a, b);
    }
  }

  lemma Relinked(root: seq<int>, rank: seq<int>, b: int, a: int)
    requires ValidIndexed(root, rank) && 0 <= a < |root| && 0 <= b < |root|
    requires root[a] == a && root[b] == b && a != b && rank[a] > rank[b]
    ensures Valid(Indexed(root, rank))
    ensures ValidIndexed(root[b := a], rank)
    ensures Indexed(root[b := a], rank) == Link(Indexed(root, rank), a, b)
    ensures Indexed(root[b := a], rank) == Link(Indexed(root, rank), b, a)
  {
    IndexedValid(root, rank);
    AsMapUpdate(root, b, a);
  }

  lemma RelinkedTie(root: seq<int>, rank: seq<int>, a: int, b: int)
    requires ValidIndexed(root, rank) && 0 <= a < |root| && 0 <= b < |root|
    requires root[a] == a && root[b] == b && a != b && rank[a] == rank[b]
    ensures Valid(Indexed(root, rank))
    ensures ValidIndexed(root[b := a], rank[a := rank[a] + 1])
    ensures Indexed(root[b := a], rank[a := rank[a] + 1]) == Link(Indexed(root, rank), a, b)
  {
    IndexedValid(root, rank);
    AsMapUpdate(root, b, a);
    AsMapUpdate(rank, a, rank[a] + 1);
  }

  /** After the link, a key's root is the winner when it was `a` or `b`, and unchanged otherwise. */
  lemma LinkedMerges(root: seq<int>, rank: seq<int>, a: int, b: int)
    requires ValidIndexed(root, rank) && 0 <= a < |root| && 0 <= b < |root|
    requires root[a] == a && root[b] == b && a != b
    ensures Valid(Indexed(root, rank))
    ensures ValidIndexed(Linked(root, rank, a, b).0, Linked(root, rank, a, b).1)
    ensures Valid(Indexed(Linked(root, rank, a, b).0, Linked(root, rank, a, b).1))
    ensures forall z :: 0 <= z < |root| ==>
      Rep(Indexed(Linked(root, rank, a, b).0, Linked(root, rank, a, b).1), z) ==
        if Rep(Indexed(root, rank), z) == a || Rep(Indexed(root, rank), z) == b
        then (if rank[a] < rank[b] then b else a)
        else Rep(Indexed(root, rank), z)
  {
    LinkedValid(root, rank, a, b);
    if rank[a] > rank[b] {
      IndexedRelink(root, rank, rank, a, b);
    } else if rank[a] < rank[b] {
      IndexedRelink(root, rank, rank, b, a);
    } else {
      IndexedRelink(root, rank, rank[a := rank[a] + 1], a, b);
    }
  }

  /** The lists after the link still describe a forest whose ranks climb toward the roots. */
  lemma LinkedValid(root: seq<int>, rank: seq<int>, a: int, b: int)
    requires ValidIndexed(root, rank) && 0 <= a < |root| && 0 <= b < |root|
    requires root[a] == a && root[b] == b && a != b
    ensures ValidIndexed(Linked(root, rank, a, b).0, Linked(root, rank, a, b).1)
  {
  }

  /** The effect of the link on the classes of `x` and `y`, whose roots are `a` and `b`, and on every other class. */
  lemma LinkedClasses(root: seq<int>, rank: seq<int>, a: int, b: int, x: int, y: int)
    requires ValidIndexed(root, rank) && 0 <= a < |root| && 0 <= b < |root| && 0 <= x < |root| && 0 <= y < |root|
    requires root[a] == a && root[b] == b && a != b
    requires Valid(Indexed(root, rank)) && Rep(Indexed(root, rank), x) == a && Rep(Indexed(root, rank), y) == b
    ensures ValidIndexed(Linked(root, rank, a, b).0, Linked(root, rank, a, b).1)
    ensures Valid(Indexed(Linked(root, rank, a, b).0, Linked(root, rank, a, b).1))
    ensures Merges(Indexed(root, rank), Indexed(Linked(root, rank, a, b).0, Linked(root, rank, a, b).1), x, y)
  {
    LinkedMerges(root, rank, a, b);
  }

  /**
   * What the link changes in the lists: only the loser's `root` entry, which
   * then names the winner, and only the winner's rank, by one on a tie.
   * Ranks never decrease, and an index that is not a root keeps its entry
   * and its rank.
   */
  lemma LinkedChanges(root: seq<int>, rank: seq<int>, a: int, b: int)
    requires ValidIndexed(root, rank) && 0 <= a < |root| && 0 <= b < |root|
    requires root[a] == a && root[b] == b && a != b
    ensures
      var loser := if rank[a] < rank[b] then a else b;
      var winner := if rank[a] < rank[b] then b else a;
      Linked(root, rank, a, b).0 == root[loser := winner]
    ensures forall i :: 0 <= i < |root| ==>
      Linked(root, rank, a, b).1[i] == rank[i] + if i == a && rank[a] == rank[b] then 1 else 0
    ensures forall i :: 0 <= i < |root| ==> Linked(root, rank, a, b).1[i] >= rank[i]
    ensures forall i :: 0 <= i < |root| && root[i] != i ==>
      Linked(root, rank, a, b).0[i] == root[i] && Linked(root, rank, a, b).1[i] == rank[i]
  {
  }

  /** Indices connected before the link stay connected, and the two roots become connected. */
  lemma LinkedKeepsConnected(root: seq<int>, rank: seq<int>, a: int, b: int, u: int, v: int)
    requires ValidIndexed(root, rank) && 0 <= a < |root| && 0 <= b < |root| && 0 <= u < |root| && 0 <= v < |root|
    requires root[a] == a && root[b] == b && a != b
    requires Valid(Indexed(root, rank)) && SameClass(Indexed(root, rank), u, v)
    ensures ValidIndexed(Linked(root, rank, a, b).0, Linked(root, rank, a, b).1)
    ensures Valid(Indexed(Linked(root, rank, a, b).0, Linked(root, rank, a, b).1))
    ensures SameClass(Indexed(Linked(root, rank, a, b).0, Linked(root, rank, a, b).1), u, v)
    ensures SameClass(Indexed(Linked(root, rank, a, b).0, Linked(root, rank, a, b).1), a, b)
  {
    LinkedMerges(root, rank, a, b);
  }
}
