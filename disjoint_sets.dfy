/**
 * The abstract specification that every union-find variant is proved against.
 *
 * A disjoint-set structure is a forest of parent links: following `parent`
 * from any key reaches a fixed point, the representative of the key's class.
 * Each key also carries a measure (`rank`) that strictly increases from a
 * node to its parent.  For the ranked variants the measure is the rank the
 * program stores; for the unranked ones it is a ghost height.  The measure
 * is what makes following links terminate: the number of keys whose measure
 * is above the current key's shrinks at every step.
 */
module DisjointSets {

  datatype Forest<K> = Forest(parent: map<K, K>, rank: map<K, int>)

  /**
   * Every key has a rank, the parent of every key is a key, and non-root
   * keys are ranked strictly below their parents.
   */
  ghost predicate Valid<K>(f: Forest<K>)
  {
    && (forall x {:trigger f.parent[x]} :: x in f.parent ==> x in f.rank)
    && Closed(f)
    && (forall x {:trigger f.parent[x]} :: x in f.parent && f.parent[x] != x ==>
          f.parent[x] in f.rank && f.rank[f.parent[x]] > f.rank[x])
  }

  /** The parent of every key is a key. */
  ghost predicate Closed<K>(f: Forest<K>)
  {
    forall x {:trigger Next(f, x)} :: x in f.parent ==> Next(f, x) in f.parent
  }

  /** Pointing a key at another key keeps the key set closed. */
  lemma RedirectClosed<K>(f: Forest<K>, g: Forest<K>, x: K, v: K)
    requires Closed(f) && x in f.parent && v in f.parent && g.parent == f.parent[x := v]
    ensures Closed(g)
  {
    forall y | y in g.parent
      ensures Next(g, y) in g.parent
    {
      if y != x {
        assert Next(f, y) in f.parent;
      }
    }
  }

  /**
   * The parent of `x`.  The closure half of `Valid` is stated about this
   * name rather than about `f.parent[x]`, so that the verifier applies it
   * only where a proof walks one step up the forest.
   */
  ghost function Next<K>(f: Forest<K>, x: K): K
    requires x in f.parent
  {
    f.parent[x]
  }

  ghost predicate IsRoot<K>(f: Forest<K>, x: K)
  {
    x in f.parent && f.parent[x] == x
  }

  /** The number of keys ranked strictly above `x`. */
  ghost function Headroom<K>(h: map<K, int>, x: K): nat
    requires x in h
  {
    |set y | y in h && h[y] > h[x]|
  }

  lemma HeadroomDecreases<K>(h: map<K, int>, x: K, z: K)
    requires x in h && z in h && h[z] > h[x]
    ensures Headroom(h, z) < Headroom(h, x)
  {
    var above := set y | y in h && h[y] > h[z];
    var below := set y | y in h && h[y] > h[x];
    assert z in below - above;
    assert below == above + (below - above);
    assert |below - above| >= 1;
  }

  /** The representative of `x`: the root reached by following parent links. */
  ghost function Rep<K>(f: Forest<K>, x: K): (r: K)
    requires Valid(f) && x in f.parent
    ensures IsRoot(f, r)
    ensures f.parent[x] == x ==> r == x
    ensures f.parent[x] != x ==> f.rank[r] > f.rank[x]
    decreases Headroom(f.rank, x)
  {
    if f.parent[x] == x then x
    else
      HeadroomDecreases(f.rank, x, Next(f, x));
      Rep(f, Next(f, x))
  }

  /** Two keys are in the same class when both are present and share a representative. */
  ghost predicate SameClass<K>(f: Forest<K>, a: K, b: K)
    requires Valid(f)
  {
    a in f.parent && b in f.parent && Rep(f, a) == Rep(f, b)
  }

  /**
   * `g` is `f` with the classes of `x` and `y` merged: no key is lost, `x`
   * and `y` share a root that was one of theirs, and every other class is
   * unchanged.
   */
  ghost predicate Merges<K>(f: Forest<K>, g: Forest<K>, x: K, y: K)
  {
    && Valid(f) && Valid(g) && x in f.parent && y in f.parent
    && (forall z :: z in f.parent ==> z in g.parent)
    && Rep(g, x) == Rep(g, y) && (Rep(g, x) == Rep(f, x) || Rep(g, x) == Rep(f, y))
    && forall z :: z in f.parent ==>
      Rep(g, z) == if Rep(f, z) == Rep(f, x) || Rep(f, z) == Rep(f, y) then Rep(g, x) else Rep(f, z)
  }

  /** Being in the same class is reflexive, symmetric and transitive on the keys. */
  lemma SameClassEquivalence<K>(f: Forest<K>, a: K, b: K, c: K)
    requires Valid(f)
    ensures a in f.parent ==> SameClass(f, a, a)
    ensures SameClass(f, a, b) ==> SameClass(f, b, a)
    ensures SameClass(f, a, b) && SameClass(f, b, c) ==> SameClass(f, a, c)
  {
  }

  /** The representative does not depend on which valid measure accompanies the links. */
  lemma {:induction false} RepIgnoresRank<K>(f: Forest<K>, g: Forest<K>, x: K)
    requires Valid(f) && Valid(g) && f.parent == g.parent && x in f.parent
    ensures Rep(f, x) == Rep(g, x)
    decreases Headroom(f.rank, x)
  {
    if f.parent[x] != x {
      HeadroomDecreases(f.rank, x, Next(f, x));
      RepIgnoresRank(f, g, Next(f, x));
    }
  }

  // ---------------------------------------------------------------------
  // Path compression

  /** The keys visited while walking from `x` to its representative, both ends included. */
  ghost function Path<K>(f: Forest<K>, x: K): (p: set<K>)
    requires Valid(f) && x in f.parent
    ensures x in p && p <= f.parent.Keys
    ensures forall y :: y in p ==> Rep(f, y) == Rep(f, x)
    decreases Headroom(f.rank, x)
  {
    if f.parent[x] == x then {x}
    else
      HeadroomDecreases(f.rank, x, Next(f, x));
      {x} + Path(f, Next(f, x))
  }

  /** Re-pointing one key directly at its representative. */
  lemma {:induction false} ShortcutRep<K>(f: Forest<K>, x: K, a: K)
    requires Valid(f) && x in f.parent && a in f.parent
    requires Valid(Forest(f.parent[x := Rep(f, x)], f.rank))
    ensures Rep(Forest(f.parent[x := Rep(f, x)], f.rank), a) == Rep(f, a)
    decreases Headroom(f.rank, a)
  {
    var g := Forest(f.parent[x := Rep(f, x)], f.rank);
    if a == x {
      assert Rep(g, Rep(f, x)) == Rep(f, x);
    } else if f.parent[a] != a {
      HeadroomDecreases(f.rank, a, Next(f, a));
      ShortcutRep(f, x, Next(f, a));
    }
  }

  lemma Shortcut<K>(f: Forest<K>, x: K)
    requires Valid(f) && x in f.parent
    ensures Valid(Forest(f.parent[x := Rep(f, x)], f.rank))
    ensures forall a :: a in f.parent ==> Rep(Forest(f.parent[x := Rep(f, x)], f.rank), a) == Rep(f, a)
  {
    var g := Forest(f.parent[x := Rep(f, x)], f.rank);
    RedirectClosed(f, g, x, Rep(f, x));
    forall a | a in f.parent
      ensures Rep(g, a) == Rep(f, a)
    {
      ShortcutRep(f, x, a);
    }
  }

  /**
   * Full path compression from `x`, in the recursive form of the program:
   * compress from the parent first, then point `x` at the representative.
   */
  ghost function Compress<K>(f: Forest<K>, x: K): (g: Forest<K>)
    requires Valid(f) && x in f.parent
    ensures g.parent.Keys == f.parent.Keys && g.rank == f.rank
    decreases Headroom(f.rank, x)
  {
    if f.parent[x] == x then f
    else
      HeadroomDecreases(f.rank, x, Next(f, x));
      var g := Compress(f, Next(f, x));
      Forest(g.parent[x := Rep(f, x)], f.rank)
  }

  /** Compression keeps the forest valid and changes no key's representative. */
  lemma {:induction false} CompressSound<K>(f: Forest<K>, x: K)
    requires Valid(f) && x in f.parent
    ensures Valid(Compress(f, x))
    ensures Compress(f, x).parent[x] == Rep(f, x)
    ensures forall a :: a in f.parent ==> Rep(Compress(f, x), a) == Rep(f, a)
    decreases Headroom(f.rank, x)
  {
    if f.parent[x] != x {
      HeadroomDecreases(f.rank, x, Next(f, x));
      var g := Compress(f, Next(f, x));
      CompressSound(f, Next(f, x));
      Shortcut(g, x);
    }
  }

  /** What compression does to the links: every key on the path points at the root, every other key is untouched. */
  lemma {:induction false} CompressShape<K>(f: Forest<K>, x: K)
    requires Valid(f) && x in f.parent
    ensures forall y :: y in f.parent ==>
      Compress(f, x).parent[y] == if y in Path(f, x) then Rep(f, x) else f.parent[y]
    decreases Headroom(f.rank, x)
  {
    if f.parent[x] != x {
      HeadroomDecreases(f.rank, x, Next(f, x));
      CompressShape(f, Next(f, x));
    }
  }

  // ---------------------------------------------------------------------
  // Linking two roots

  /** Hanging root `b` under a different root `a` sends exactly `b`'s class to `a`. */
  lemma {:induction false} RelinkRep<K>(f: Forest<K>, g: Forest<K>, a: K, b: K, z: K)
    requires Valid(f) && Valid(g) && IsRoot(f, a) && IsRoot(f, b) && a != b
    requires g.parent == f.parent[b := a] && z in f.parent
    ensures Rep(g, z) == if Rep(f, z) == b then a else Rep(f, z)
    decreases Headroom(f.rank, z)
  {
    if z == b {
      assert Rep(g, a) == a;
    } else if f.parent[z] != z {
      HeadroomDecreases(f.rank, z, Next(f, z));
      RelinkRep(f, g, a, b, Next(f, z));
    }
  }

  /** The root that survives `Link(f, a, b)`: one of the two, ranked at least as high as both. */
  ghost function Winner<K>(f: Forest<K>, a: K, b: K): (w: K)
    requires a in f.rank && b in f.rank
    ensures (w == a || w == b) && w in f.rank && f.rank[w] >= f.rank[a] && f.rank[w] >= f.rank[b]
  {
    if f.rank[a] < f.rank[b] then b else a
  }

  /**
   * Union by rank of two roots: the lower-ranked one goes under the higher;
   * on a tie `b` goes under `a` and `a`'s rank grows by one.  Either way both
   * old roots then point at the winner.
   */
  ghost function Link<K>(f: Forest<K>, a: K, b: K): (g: Forest<K>)
    requires Valid(f) && IsRoot(f, a) && IsRoot(f, b)
    ensures a in g.parent && b in g.parent && g.parent[a] == Winner(f, a, b) && g.parent[b] == Winner(f, a, b)
  {
    if f.rank[a] < f.rank[b] then Forest(f.parent[a := b], f.rank)
    else if f.rank[a] > f.rank[b] then Forest(f.parent[b := a], f.rank)
    else Forest(f.parent[b := a], f.rank[a := f.rank[a] + 1])
  }

  /** Linking changes no key set. */
  lemma LinkKeys<K>(f: Forest<K>, a: K, b: K)
    requires Valid(f) && IsRoot(f, a) && IsRoot(f, b)
    ensures Link(f, a, b).parent.Keys == f.parent.Keys
  {
  }

  /** Linking changes only the rank of `a`, by one, on a tie. */
  lemma LinkRanks<K>(f: Forest<K>, a: K, b: K)
    requires Valid(f) && IsRoot(f, a) && IsRoot(f, b)
    ensures forall z :: z in f.parent ==>
      z in Link(f, a, b).rank && Link(f, a, b).rank[z] == f.rank[z] + (if z == a && f.rank[a] == f.rank[b] then 1 else 0)
  {
  }

  lemma LinkValid<K>(f: Forest<K>, a: K, b: K)
    requires Valid(f) && IsRoot(f, a) && IsRoot(f, b) && a != b
    ensures Valid(Link(f, a, b))
  {
    var g := Link(f, a, b);
    if f.rank[a] < f.rank[b] {
      RedirectClosed(f, g, a, b);
    } else if f.rank[a] > f.rank[b] {
      RedirectClosed(f, g, b, a);
    } else {
      RedirectClosed(f, g, b, a);
      forall y | y in g.parent && g.parent[y] != y
        ensures g.parent[y] in g.rank && g.rank[g.parent[y]] > g.rank[y]
      {
        if y != b {
          assert g.parent[y] == f.parent[y] && y != a;
        }
      }
    }
  }

  lemma LinkSound<K>(f: Forest<K>, a: K, b: K)
    requires Valid(f) && IsRoot(f, a) && IsRoot(f, b) && a != b
    ensures Valid(Link(f, a, b))
    // exactly the classes of a and b merge, into the winner's; every other class is untouched
    ensures forall z :: z in f.parent ==>
      Rep(Link(f, a, b), z) == if Rep(f, z) == a || Rep(f, z) == b then Winner(f, a, b) else Rep(f, z)
    // only the winner's rank can change, and only on a tie, by exactly one
    ensures forall z :: z in f.parent ==>
      Link(f, a, b).rank[z] == f.rank[z] + (if z == a && f.rank[a] == f.rank[b] then 1 else 0)
    // a key that is not a root keeps its parent and its rank
    ensures forall z :: z in f.parent && !IsRoot(f, z) ==>
      Link(f, a, b).parent[z] == f.parent[z] && Link(f, a, b).rank[z] == f.rank[z]
  {
    var g := Link(f, a, b);
    LinkValid(f, a, b);
    forall z | z in f.parent
      ensures Rep(g, z) == if Rep(f, z) == a || Rep(f, z) == b then Winner(f, a, b) else Rep(f, z)
    {
      if f.rank[a] < f.rank[b] {
        RelinkRep(f, g, b, a, z);
      } else {
        RelinkRep(f, g, a, b, z);
      }
    }
  }

  /** Linking preserves every existing class relation and adds the one between the two roots. */
  lemma LinkKeepsClasses<K>(f: Forest<K>, a: K, b: K, u: K, v: K)
    requires Valid(f) && IsRoot(f, a) && IsRoot(f, b) && a != b
    requires SameClass(f, u, v)
    ensures Valid(Link(f, a, b)) && SameClass(Link(f, a, b), u, v) && SameClass(Link(f, a, b), a, b)
  {
    LinkSound(f, a, b);
  }

  // ---------------------------------------------------------------------
  // Dense integer keys 0..n-1 stored in lists

  ghost function AsMap(s: seq<int>): (m: map<int, int>)
    ensures forall i :: i in m <==> 0 <= i < |s|
    ensures forall i :: 0 <= i < |s| ==> m[i] == s[i]
  {
    map i | 0 <= i < |s| :: s[i]
  }

  lemma AsMapUpdate(s: seq<int>, i: int, v: int)
    requires 0 <= i < |s|
    ensures AsMap(s[i := v]) == AsMap(s)[i := v]
  {
  }

  /** The forest stored as a parent list and a measure list over indices 0..n-1. */
  ghost function Indexed(parent: seq<int>, h: seq<int>): Forest<int>
  {
    Forest(AsMap(parent), AsMap(h))
  }

  /** The list form of `Valid`: every entry is an index, and non-root entries climb in the measure. */
  ghost predicate ValidIndexed(parent: seq<int>, h: seq<int>)
  {
    && |h| == |parent|
    && (forall i :: 0 <= i < |parent| ==> 0 <= parent[i] < |parent|)
    && (forall i :: 0 <= i < |parent| && parent[i] != i ==> h[parent[i]] > h[i])
  }

  lemma IndexedValid(parent: seq<int>, h: seq<int>)
    requires ValidIndexed(parent, h)
    ensures Valid(Indexed(parent, h))
  {
  }

  /** In list form: hanging root `b` under a different root `a` sends exactly `b`'s class to `a`, whatever the new measure. */
  lemma IndexedRelink(parent: seq<int>, h: seq<int>, h': seq<int>, a: int, b: int)
    requires 0 <= a < |parent| && 0 <= b < |parent| && parent[a] == a && parent[b] == b && a != b
    requires ValidIndexed(parent, h) && ValidIndexed(parent[b := a], h')
    ensures Valid(Indexed(parent, h)) && Valid(Indexed(parent[b := a], h'))
    ensures forall z :: 0 <= z < |parent| ==>
      Rep(Indexed(parent[b := a], h'), z) == if Rep(Indexed(parent, h), z) == b then a else Rep(Indexed(parent, h), z)
  {
    IndexedValid(parent, h);
    IndexedValid(parent[b := a], h');
    AsMapUpdate(parent, b, a);
    var f := Indexed(parent, h);
    var g := Indexed(parent[b := a], h');
    forall z | 0 <= z < |parent|
      ensures Rep(g, z) == if Rep(f, z) == b then a else Rep(f, z)
    {
      assert z in f.parent && z in g.parent;
      RelinkRep(f, g, a, b, z);
    }
  }
}
