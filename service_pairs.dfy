/**
 * service_pairs.py: a union-find over arbitrary keys kept in two
 * dictionaries, and the greedy that uses it to pick the fewest service
 * pairs connecting a list of services.
 *
 * `find` registers an unseen key as a singleton of rank 0, and otherwise
 * compresses the path from the key to its root, recursively.  `union` finds
 * both roots and links them by rank.  The specification functions `Found`
 * and `Merged` give the state after each call; the lemmas beside them say
 * what that state means.
 */
module ServicePairs {
  import opened DisjointSets

  // ---------------------------------------------------------------------
  // The effect of `find` and `union` on the forest

  /** `x` added as a root of rank 0 (service_pairs.py:10-13). */
  ghost function Register<K>(f: Forest<K>, x: K): (g: Forest<K>)
    ensures g.parent.Keys == f.parent.Keys + {x} && IsRoot(g, x) && x in g.rank && g.rank[x] == 0
    ensures forall a :: a in f.parent && a != x ==> g.parent[a] == f.parent[a]
  {
    Forest(f.parent[x := x], f.rank[x := 0])
  }

  /** What `find(x)` returns: `x` itself when it is new, else its representative. */
  ghost function FindOf<K>(f: Forest<K>, x: K): K
    requires Valid(f)
  {
    if x in f.parent then Rep(f, x) else x
  }

  /** The forest after `find(x)`: registration of a new key, or path compression from a known one. */
  ghost function Found<K>(f: Forest<K>, x: K): (g: Forest<K>)
    requires Valid(f)
    ensures Valid(g) && IsRoot(g, FindOf(f, x)) && x in g.parent && g.parent[x] == FindOf(f, x)
  {
    if x in f.parent then
      CompressSound(f, x);
      Compress(f, x)
    else
      RegisterSound(f, x);
      Register(f, x)
  }

  /** The forest after `union(x, y)`: both finds, then a link by rank unless the roots agree. */
  ghost function Merged<K>(f: Forest<K>, x: K, y: K): (m: Forest<K>)
    requires Valid(f)
    ensures Valid(m)
  {
    var g := Found(f, x);
    var h := Found(g, y);
    var px := FindOf(f, x);
    var py := FindOf(g, y);
    FoundKeepsRoot(g, y, px);
    if px == py then h
    else
      LinkValid(h, px, py);
      Link(h, px, py)
  }

  // ---------------------------------------------------------------------
  // Registration

  lemma {:induction false} RegisterRep<K>(f: Forest<K>, x: K, a: K)
    requires Valid(f) && x !in f.parent && a in f.parent && Valid(Register(f, x))
    ensures Rep(Register(f, x), a) == Rep(f, a)
    decreases Headroom(f.rank, a)
  {
    if f.parent[a] != a {
      HeadroomDecreases(f.rank, a, Next(f, a));
      RegisterRep(f, x, Next(f, a));
    }
  }

  /** A new key becomes a root of its own class; the rest of the forest is untouched. */
  lemma RegisterSound<K>(f: Forest<K>, x: K)
    requires Valid(f) && x !in f.parent
    ensures Valid(Register(f, x)) && IsRoot(Register(f, x), x)
    ensures forall a :: a in f.parent ==> Rep(Register(f, x), a) == Rep(f, a)
  {
    var g := Register(f, x);
    forall y | y in g.parent
      ensures Next(g, y) in g.parent
    {
      if y != x {
        assert Next(f, y) in f.parent;
      }
    }
    forall y | y in g.parent && g.parent[y] != y
      ensures g.parent[y] in g.rank && g.rank[g.parent[y]] > g.rank[y]
    {
      assert y != x && Next(f, y) in f.parent;
    }
    forall a | a in f.parent
      ensures Rep(g, a) == Rep(f, a)
    {
      RegisterRep(f, x, a);
    }
  }

  // ---------------------------------------------------------------------
  // `find`

  /** A root stays a root through any `find`. */
  lemma FoundKeepsRoot<K>(f: Forest<K>, x: K, r: K)
    requires Valid(f) && IsRoot(f, r)
    ensures IsRoot(Found(f, x), r)
  {
    if x in f.parent {
      CompressShape(f, x);
      if r in Path(f, x) {
        assert Rep(f, r) == r;
      }
    }
  }

  /**
   * `find(x)`: the key set grows by `x` only, `x` then points straight at
   * what `find` returns, no key changes class, no rank changes, and a new
   * key enters with rank 0 and changes no other entry.
   */
  lemma FoundSound<K>(f: Forest<K>, x: K)
    requires Valid(f)
    ensures forall k :: k in Found(f, x).parent <==> k in f.parent || k == x
    ensures Rep(Found(f, x), x) == FindOf(f, x) && Found(f, x).parent[x] == FindOf(f, x)
    ensures forall a :: a in f.parent ==> Rep(Found(f, x), a) == Rep(f, a)
    ensures forall a :: a in f.parent ==> a in Found(f, x).rank && Found(f, x).rank[a] == f.rank[a]
    ensures x !in f.parent ==>
      FindOf(f, x) == x && Found(f, x).rank[x] == 0 &&
      forall a :: a in f.parent ==> Found(f, x).parent[a] == f.parent[a]
  {
    if x in f.parent {
      CompressSound(f, x);
    } else {
      RegisterSound(f, x);
    }
  }

  /** A later `find` of `y` returns what `find(y)` would have returned before `find(x)`. */
  lemma FindOfFound<K>(f: Forest<K>, x: K, y: K)
    requires Valid(f)
    ensures FindOf(Found(f, x), y) == FindOf(f, y)
  {
    FoundSound(f, x);
  }

  /** The rank a key has once `find` has seen it. */
  ghost function RankOf<K>(f: Forest<K>, k: K): int
  {
    if k in f.parent && k in f.rank then f.rank[k] else 0
  }

  // ---------------------------------------------------------------------
  // `union`

  /** The forest after the two finds of `union(x, y)`, before any link. */
  lemma FoundBoth<K>(f: Forest<K>, x: K, y: K)
    requires Valid(f)
    ensures Valid(Found(Found(f, x), y))
    ensures forall k :: k in Found(Found(f, x), y).parent <==> k in f.parent || k == x || k == y
    ensures FindOf(Found(f, x), y) == FindOf(f, y)
    ensures IsRoot(Found(Found(f, x), y), FindOf(f, x)) && IsRoot(Found(Found(f, x), y), FindOf(f, y))
    ensures Rep(Found(Found(f, x), y), x) == FindOf(f, x) && Rep(Found(Found(f, x), y), y) == FindOf(f, y)
    ensures forall a :: a in f.parent ==> Rep(Found(Found(f, x), y), a) == Rep(f, a)
    ensures forall a :: a in Found(Found(f, x), y).parent ==> Found(Found(f, x), y).rank[a] == RankOf(f, a)
  {
    var g := Found(f, x);
    FoundSound(f, x);
    FoundSound(g, y);
    FindOfFound(f, x, y);
    FoundKeepsRoot(g, y, FindOf(f, x));
  }

  /**
   * `union(x, y)`: the keys grow by `x` and `y`, and the two classes merge
   * into the class of the higher-ranked root (`find(x)`'s on a tie) while
   * every other class is unchanged.
   */
  lemma MergedSound<K>(f: Forest<K>, x: K, y: K)
    requires Valid(f)
    ensures Valid(Merged(f, x, y))
    ensures forall k :: k in Merged(f, x, y).parent <==> k in f.parent || k == x || k == y
    ensures SameClass(Merged(f, x, y), x, y)
    ensures Rep(Merged(f, x, y), x) ==
      if FindOf(f, x) != FindOf(f, y) && RankOf(f, FindOf(f, x)) < RankOf(f, FindOf(f, y))
      then FindOf(f, y) else FindOf(f, x)
    ensures forall a :: a in f.parent ==>
      Rep(Merged(f, x, y), a) ==
        if Rep(f, a) == FindOf(f, x) || Rep(f, a) == FindOf(f, y) then Rep(Merged(f, x, y), x) else Rep(f, a)
  {
    MergedKeySet(f, x, y);
    MergedClasses(f, x, y);
  }

  /** The classes after `union(x, y)`: those of `x` and `y` merge into the winner's, and no other class changes. */
  lemma MergedClasses<K>(f: Forest<K>, x: K, y: K)
    requires Valid(f)
    ensures Valid(Merged(f, x, y)) && x in Merged(f, x, y).parent && y in Merged(f, x, y).parent
    ensures SameClass(Merged(f, x, y), x, y)
    ensures Rep(Merged(f, x, y), x) ==
      if FindOf(f, x) != FindOf(f, y) && RankOf(f, FindOf(f, x)) < RankOf(f, FindOf(f, y))
      then FindOf(f, y) else FindOf(f, x)
    ensures forall a :: a in f.parent ==>
      Rep(Merged(f, x, y), a) ==
        if Rep(f, a) == FindOf(f, x) || Rep(f, a) == FindOf(f, y) then Rep(Merged(f, x, y), x) else Rep(f, a)
  {
    var h := Found(Found(f, x), y);
    FoundBoth(f, x, y);
    MergedKeySet(f, x, y);
    if FindOf(f, x) != FindOf(f, y) {
      LinkSound(h, FindOf(f, x), FindOf(f, y));
    }
  }

  /** The keys after `find(x)`: the old ones and `x`. */
  lemma FoundKeys<K>(f: Forest<K>, x: K)
    requires Valid(f)
    ensures Found(f, x).parent.Keys == f.parent.Keys + {x}
  {
  }

  /** The keys after `union(x, y)`: the old ones, `x` and `y`. */
  lemma MergedKeySet<K>(f: Forest<K>, x: K, y: K)
    requires Valid(f)
    ensures Merged(f, x, y).parent.Keys == f.parent.Keys + {x, y}
  {
    var g := Found(f, x);
    var h := Found(g, y);
    FoundKeys(f, x);
    FoundKeys(g, y);
    var px := FindOf(f, x);
    var py := FindOf(g, y);
    if px != py {
      FoundKeepsRoot(g, y, px);
      LinkKeys(h, px, py);
    }
  }

  /** Only the surviving root's rank can change in `union(x, y)`: by exactly one, on a tie. */
  lemma MergedRanks<K>(f: Forest<K>, x: K, y: K)
    requires Valid(f)
    ensures forall a :: a in Merged(f, x, y).parent ==>
      Merged(f, x, y).rank[a] == RankOf(f, a) +
        if a == FindOf(f, x) && FindOf(f, x) != FindOf(f, y) && RankOf(f, FindOf(f, x)) == RankOf(f, FindOf(f, y))
        then 1 else 0
  {
    var h := Found(Found(f, x), y);
    FoundBoth(f, x, y);
    if FindOf(f, x) != FindOf(f, y) {
      LinkKeys(h, FindOf(f, x), FindOf(f, y));
      LinkRanks(h, FindOf(f, x), FindOf(f, y));
    }
  }

  /** `find` changes no rank, and a new key enters with rank 0. */
  lemma FoundRanks<K>(f: Forest<K>, x: K)
    requires Valid(f)
    ensures forall a :: a in Found(f, x).parent ==> a in Found(f, x).rank && Found(f, x).rank[a] == RankOf(f, a)
  {
  }

  // ---------------------------------------------------------------------
  // Compression is unobservable

  /** `find` without compression: registration only. */
  ghost function Seen<K>(f: Forest<K>, x: K): (g: Forest<K>)
    requires Valid(f)
    ensures Valid(g) && IsRoot(g, FindOf(f, x))
  {
    if x in f.parent then f
    else
      RegisterSound(f, x);
      Register(f, x)
  }

  /** `union` built on a `find` that does not compress. */
  ghost function Plain<K>(f: Forest<K>, x: K, y: K): Forest<K>
    requires Valid(f)
  {
    var g := Seen(f, x);
    var h := Seen(g, y);
    var px := FindOf(f, x);
    var py := FindOf(g, y);
    SeenKeepsRoot(g, y, px);
    if px == py then h else Link(h, px, py)
  }

  lemma SeenKeepsRoot<K>(f: Forest<K>, x: K, r: K)
    requires Valid(f) && IsRoot(f, r)
    ensures IsRoot(Seen(f, x), r)
  {
  }

  /** Two forests with the same keys, the same ranks and the same classes, whatever their links. */
  ghost predicate Equivalent<K>(f: Forest<K>, g: Forest<K>)
  {
    && Valid(f) && Valid(g)
    && (forall k :: k in f.parent ==> k in g.parent)
    && (forall k :: k in g.parent ==> k in f.parent)
    && (forall k {:trigger f.rank[k]} :: k in f.parent ==> f.rank[k] == g.rank[k])
    && (forall k {:trigger Rep(f, k)} :: k in f.parent ==> Rep(f, k) == Rep(g, k))
  }

  lemma FoundEquivalent<K>(f: Forest<K>, g: Forest<K>, x: K)
    requires Equivalent(f, g)
    ensures FindOf(f, x) == FindOf(g, x)
    ensures Equivalent(Found(f, x), Seen(g, x))
  {
    if x in f.parent {
      CompressEquivalent(f, g, x);
    } else {
      RegisterEquivalent(f, g, x);
    }
  }

  lemma CompressEquivalent<K>(f: Forest<K>, g: Forest<K>, x: K)
    requires Equivalent(f, g) && x in f.parent
    ensures Equivalent(Compress(f, x), g)
  {
    var f' := Compress(f, x);
    CompressSound(f, x);
    forall k | k in f'.parent
      ensures k in g.parent && f'.rank[k] == g.rank[k] && Rep(f', k) == Rep(g, k)
    {
      assert k in f.parent;
    }
  }

  lemma RegisterEquivalent<K>(f: Forest<K>, g: Forest<K>, x: K)
    requires Equivalent(f, g) && x !in f.parent
    ensures Equivalent(Register(f, x), Register(g, x))
  {
    var f' := Register(f, x);
    var g' := Register(g, x);
    RegisterSound(f, x);
    RegisterSound(g, x);
    forall k | k in f'.parent
      ensures k in g'.parent && f'.rank[k] == g'.rank[k] && Rep(f', k) == Rep(g', k)
    {
      if k != x {
        assert k in f.parent;
      }
    }
  }

  lemma LinkEquivalent<K>(f: Forest<K>, g: Forest<K>, a: K, b: K)
    requires Equivalent(f, g) && IsRoot(f, a) && IsRoot(f, b) && IsRoot(g, a) && IsRoot(g, b) && a != b
    ensures Equivalent(Link(f, a, b), Link(g, a, b))
  {
    var f' := Link(f, a, b);
    var g' := Link(g, a, b);
    LinkValid(f, a, b);
    LinkValid(g, a, b);
    forall k | k in f'.parent
      ensures k in g'.parent && f'.rank[k] == g'.rank[k] && Rep(f', k) == Rep(g', k)
    {
      assert k in f.parent;
      LinkKeyEquivalent(f, g, a, b, k);
    }
    forall k | k in g'.parent
      ensures k in f'.parent
    {
      assert k in g.parent;
    }
  }

  /** One key of equivalent forests after the same link: same presence, rank and representative. */
  lemma LinkKeyEquivalent<K>(f: Forest<K>, g: Forest<K>, a: K, b: K, k: K)
    requires Equivalent(f, g) && IsRoot(f, a) && IsRoot(f, b) && IsRoot(g, a) && IsRoot(g, b) && a != b
    requires k in f.parent
    ensures Valid(Link(f, a, b)) && Valid(Link(g, a, b))
    ensures k in Link(g, a, b).parent && Link(f, a, b).rank[k] == Link(g, a, b).rank[k]
    ensures Rep(Link(f, a, b), k) == Rep(Link(g, a, b), k)
  {
    LinkSound(f, a, b);
    LinkSound(g, a, b);
    assert Winner(f, a, b) == Winner(g, a, b);
  }

  /** From equivalent forests, `union` with and without compression yields equivalent forests. */
  lemma MergedPlain<K>(f: Forest<K>, g: Forest<K>, x: K, y: K)
    requires Equivalent(f, g)
    ensures Equivalent(Merged(f, x, y), Plain(g, x, y))
  {
    var f1 := Found(f, x);
    var g1 := Seen(g, x);
    FoundEquivalent(f, g, x);
    FoundEquivalent(f1, g1, y);
    var px := FindOf(f, x);
    var py := FindOf(f1, y);
    if px != py {
      FoundKeepsRoot(f1, y, px);
      SeenKeepsRoot(g1, y, px);
      LinkEquivalent(Found(f1, y), Seen(g1, y), px, py);
    }
  }

  /** A run of unions, with the compressing `find` and with the plain one. */
  ghost function MergedAll<K>(f: Forest<K>, ops: seq<(K, K)>): (g: Forest<K>)
    requires Valid(f)
    ensures Valid(g)
    decreases |ops|
  {
    if ops == [] then f
    else
      MergedSound(f, ops[0].0, ops[0].1);
      MergedAll(Merged(f, ops[0].0, ops[0].1), ops[1..])
  }

  ghost function PlainAll<K>(f: Forest<K>, ops: seq<(K, K)>): (g: Forest<K>)
    requires Valid(f)
    ensures Valid(g)
    decreases |ops|
  {
    if ops == [] then f
    else
      PlainValid(f, ops[0].0, ops[0].1);
      PlainAll(Plain(f, ops[0].0, ops[0].1), ops[1..])
  }

  lemma PlainValid<K>(f: Forest<K>, x: K, y: K)
    requires Valid(f)
    ensures Valid(Plain(f, x, y))
  {
    var g := Seen(f, x);
    var px := FindOf(f, x);
    var py := FindOf(g, y);
    if px != py {
      SeenKeepsRoot(g, y, px);
      LinkValid(Seen(g, y), px, py);
    }
  }

  /**
   * Path compression cannot be observed: after any run of unions from the
   * same forest, the compressing structure and the plain one hold the same
   * keys with the same ranks in the same classes.
   */
  lemma {:induction false} CompressionUnobservable<K>(f: Forest<K>, g: Forest<K>, ops: seq<(K, K)>)
    requires Equivalent(f, g)
    ensures Equivalent(MergedAll(f, ops), PlainAll(g, ops))
    decreases |ops|
  {
    if ops != [] {
      MergedPlain(f, g, ops[0].0, ops[0].1);
      CompressionUnobservable(Merged(f, ops[0].0, ops[0].1), Plain(g, ops[0].0, ops[0].1), ops[1..]);
    }
  }

  class UnionFind<K(==)> {
    var parent: map<K, K>
    var rank: map<K, int>

    ghost predicate Valid()
      reads this
    {
      DisjointSets.Valid(State())
    }

    ghost function State(): Forest<K>
      reads this
    {
      Forest(parent, rank)
    }

    /** Both dictionaries start empty. */
    constructor ()
      ensures Valid() && parent == map[] && rank == map[]
    {
      parent := map[];
      rank := map[];
    }

    /** service_pairs.py:8-18, recursion and all. */
    method Find(x: K) returns (r: K)
      requires Valid()
      modifies this
      ensures Valid()
      ensures r == FindOf(old(State()), x) && State() == Found(old(State()), x)
      decreases if x in rank then Headroom(rank, x) else 0
    {
      if x !in parent {
        RegisterSound(State(), x);
        parent := parent[x := x];
        rank := rank[x := 0];
        return x;
      }
      ghost var f := State();
      CompressSound(f, x);
      if parent[x] != x {
        HeadroomDecreases(rank, x, parent[x]);
        assert Next(f, x) == parent[x];
        var p := Find(parent[x]);
        parent := parent[x := p];
        assert State() == Compress(f, x);
      }
      r := parent[x];
    }

    /** service_pairs.py:20-32. */
    method Union(x: K, y: K)
      requires Valid()
      modifies this
      ensures Valid() && State() == Merged(old(State()), x, y)
    {
      ghost var f := State();
      var px := Find(x);
      var py := Find(y);
      FoundKeepsRoot(Found(f, x), y, px);
      if px == py {
        return;
      }
      ghost var h := State();
      LinkValid(h, px, py);
      if rank[px] < rank[py] {
        parent := parent[px := py];
      } else if rank[px] > rank[py] {
        parent := parent[py := px];
      } else {
        parent := parent[py := px];
        rank := rank[px := rank[px] + 1];
      }
      assert State() == Link(h, px, py);
    }
  }

  // ---------------------------------------------------------------------
  // find_minimum_pairs

  /** The pairs `(s[i], s[j])` for one `i` and every `j > i`, in order (service_pairs.py:50-51). */
  ghost function Row<K>(s: seq<K>, i: int): (r: seq<(K, K)>)
    requires 0 <= i < |s|
    ensures |r| == |s| - i - 1
  {
    seq(|s| - i - 1, d requires 0 <= d < |s| - i - 1 => (s[i], s[i + 1 + d]))
  }

  /** The rows for `i < m`, concatenated: every pair `i < j` with `i < m`, in the program's order. */
  ghost function Rows<K>(s: seq<K>, m: int): (r: seq<(K, K)>)
    requires 0 <= m <= |s|
    ensures 2 * |r| == m * (2 * |s| - m - 1)
  {
    if m == 0 then []
    else
      assert m * (2 * |s| - m - 1) == (m - 1) * (2 * |s| - (m - 1) - 1) + 2 * (|s| - m);
      Rows(s, m - 1) + Row(s, m - 1)
  }

  /** Every pair `(s[i], s[j])` with `i < j`, ordered by `i` and then by `j` (service_pairs.py:48-51). */
  ghost function AllPairs<K>(s: seq<K>): (r: seq<(K, K)>)
    ensures 2 * |r| == |s| * (|s| - 1)
  {
    Rows(s, |s|)
  }

  /**
   * The pairs that join each service first seen at position `j`, `1 <= j < m`,
   * to `s[0]`, in order of `j`.
   */
  ghost function Star<K>(s: seq<K>, m: int): (r: seq<(K, K)>)
    requires 0 < |s| && 0 <= m <= |s|
    ensures |r| < m || m == 0
    ensures forall t :: 0 <= t < |r| ==> r[t].0 == s[0]
  {
    if m <= 1 then []
    else Star(s, m - 1) + (if s[m - 1] in s[..m - 1] then [] else [(s[0], s[m - 1])])
  }

  /** What `find_minimum_pairs` returns. */
  ghost function MinimumPairs<K>(s: seq<K>): (r: seq<(K, K)>)
    ensures |s| < 2 ==> r == []
    ensures |r| < |s| || |s| == 0
    ensures forall t :: 0 <= t < |r| ==> r[t].0 == s[0]
  {
    if |s| < 2 then [] else Star(s, |s|)
  }

  /** The keys of `f` are exactly the services in `p`. */
  ghost predicate Registered<K>(f: Forest<K>, p: seq<K>)
  {
    && (forall v :: v in f.parent ==> v in p)
    && (forall i :: 0 <= i < |p| ==> p[i] in f.parent)
  }

  /** Every key of `f` is in the class of `r`. */
  ghost predicate OneClass<K>(f: Forest<K>, r: K)
  {
    Valid(f) && r in f.parent && forall v {:trigger Rep(f, v)} :: v in f.parent ==> Rep(f, v) == Rep(f, r)
  }

  /** How many services the greedy has seen after `k` pairs: none before the first, then the first row's. */
  function SeenCount(n: int, k: int): int
  {
    if k == 0 then 0 else if k + 1 < n then k + 1 else n
  }

  /** The first `|s| - 1` pairs are the row of `s[0]`. */
  lemma {:induction false} FirstRow<K>(s: seq<K>, m: int)
    requires 1 <= m <= |s|
    ensures |Rows(s, m)| >= |s| - 1
    ensures forall k :: 0 <= k < |s| - 1 ==> Rows(s, m)[k] == (s[0], s[k + 1])
  {
    if m > 1 {
      FirstRow(s, m - 1);
    }
  }

  /** Every enumerated pair joins two services of the list. */
  lemma {:induction false} RowsInList<K>(s: seq<K>, m: int)
    requires 0 <= m <= |s|
    ensures forall k :: 0 <= k < |Rows(s, m)| ==> Rows(s, m)[k].0 in s && Rows(s, m)[k].1 in s
  {
    if m > 0 {
      RowsInList(s, m - 1);
      var r := Row(s, m - 1);
      assert forall d :: 0 <= d < |r| ==> r[d].0 == s[m - 1] && r[d].1 == s[m + d];
    }
  }

  /** The greedy's state after `k` pairs: the services seen so far are the keys, in one class once a pair is done. */
  ghost predicate Greedy<K>(f: Forest<K>, s: seq<K>, k: int)
    requires 0 <= k
  {
    Valid(f) && Registered(f, s[..SeenCount(|s|, k)]) && (k > 0 ==> 0 < |s| && OneClass(f, s[0]))
  }

  /** The forest after both finds of the loop body for the pair `e` (service_pairs.py:56-57). */
  ghost function BothFound<K>(f: Forest<K>, e: (K, K)): (h: Forest<K>)
    requires Valid(f)
    ensures Valid(h)
  {
    Found(Found(f, e.0), e.1)
  }

  /** Whether the two finds of the loop body disagree on the pair `e`, so that the pair is kept (service_pairs.py:58). */
  ghost predicate Joins<K>(f: Forest<K>, e: (K, K))
    requires Valid(f)
    ensures Joins(f, e) <==> FindOf(f, e.0) != FindOf(f, e.1)
  {
    FindOfFound(f, e.0, e.1);
    FindOf(f, e.0) != FindOf(Found(f, e.0), e.1)
  }

  /** The forest after the loop body for the pair `e`: both finds, then `union` when they disagree (service_pairs.py:54-60). */
  ghost function Considered<K>(f: Forest<K>, e: (K, K)): (g: Forest<K>)
    requires Valid(f)
    ensures Valid(g) && SameClass(g, e.0, e.1)
  {
    if Joins(f, e) then
      MergedClasses(BothFound(f, e), e.0, e.1);
      Merged(BothFound(f, e), e.0, e.1)
    else
      FoundBoth(f, e.0, e.1);
      BothFound(f, e)
  }

  /** Every key of `h` is in the class of `x` or in that of `y`. */
  ghost predicate TwoClasses<K>(h: Forest<K>, x: K, y: K)
    requires Valid(h)
  {
    x in h.parent && y in h.parent &&
    forall a {:trigger Rep(h, a)} :: a in h.parent ==> Rep(h, a) == Rep(h, x) || Rep(h, a) == Rep(h, y)
  }

  /** One pass of the greedy loop keeps its invariant and keeps the pair exactly when it brings in an unseen service. */
  lemma GreedyStep<K>(f: Forest<K>, s: seq<K>, k: int)
    requires 2 <= |s| && 0 <= k < |AllPairs(s)| && Greedy(f, s, k)
    ensures Greedy(Considered(f, AllPairs(s)[k]), s, k + 1)
    ensures Star(s, SeenCount(|s|, k + 1)) ==
      Star(s, SeenCount(|s|, k)) + if Joins(f, AllPairs(s)[k]) then [AllPairs(s)[k]] else []
  {
    FirstRow(s, |s|);
    RowsInList(s, |s|);
    StarStep(s, k);
    if k < |s| - 1 {
      FirstRowStep(f, s, k);
    } else {
      assert s[..SeenCount(|s|, k)] == s;
      LaterStep(f, s, k, AllPairs(s)[k]);
    }
  }

  /** What one pass adds to the kept pairs: the pair of `s[0]` with an unseen service of the first row, or nothing. */
  lemma StarStep<K>(s: seq<K>, k: int)
    requires 2 <= |s| && 0 <= k
    ensures Star(s, SeenCount(|s|, k + 1)) ==
      Star(s, SeenCount(|s|, k)) + if k < |s| - 1 && s[k + 1] !in s[..k + 1] then [(s[0], s[k + 1])] else []
  {
    var n := |s|;
    if k < n - 1 {
      var j := k + 1;
      var add := if s[j] in s[..j] then [] else [(s[0], s[j])];
      assert Star(s, j + 1) == Star(s, j) + add;
      if k == 0 {
        assert Star(s, 1) == [] == Star(s, 0);
        assert SeenCount(n, k) == 0 && SeenCount(n, k + 1) == 2;
      } else {
        assert SeenCount(n, k) == j && SeenCount(n, k + 1) == j + 1;
      }
    } else {
      assert SeenCount(n, k) == n && SeenCount(n, k + 1) == n;
      assert Star(s, n) + [] == Star(s, n);
    }
  }

  /** After every pair, all the services are keys in the class of `s[0]`, and the kept pairs are the minimum. */
  lemma GreedyDone<K>(f: Forest<K>, s: seq<K>)
    requires 2 <= |s| && Greedy(f, s, |AllPairs(s)|)
    ensures Star(s, SeenCount(|s|, |AllPairs(s)|)) == MinimumPairs(s)
    ensures Registered(f, s) && OneClass(f, s[0])
    ensures FindOf(f, s[0]) == Rep(f, s[0]) && AllJoined(Found(f, s[0]), s, FindOf(f, s[0]))
  {
    FirstRow(s, |s|);
    assert s[..SeenCount(|s|, |AllPairs(s)|)] == s;
    CheckStep(f, s, Rep(f, s[0]), s[0]);
  }

  /** One pair `(s[0], s[k + 1])` of the first row, with the services before `k + 1` all in one class. */
  lemma FirstRowStep<K>(f: Forest<K>, s: seq<K>, k: int)
    requires 0 <= k < |s| - 1 && Greedy(f, s, k)
    ensures Joins(f, (s[0], s[k + 1])) <==> s[k + 1] !in s[..k + 1]
    ensures Greedy(Considered(f, (s[0], s[k + 1])), s, k + 1)
  {
    var e := (s[0], s[k + 1]);
    PairJoins(f, s, k);
    PairKeys(f, s, k);
    PairClasses(f, s, k);
    assert SeenCount(|s|, k + 1) == k + 2;
    if Joins(f, e) {
      MergeTwoClasses(BothFound(f, e), s[0], s[k + 1], s[..k + 2]);
    } else {
      assert OneClass(BothFound(f, e), s[0]);
    }
  }

  /** The finds of a first-row pair disagree exactly when its second service is new. */
  lemma PairJoins<K>(f: Forest<K>, s: seq<K>, k: int)
    requires 0 <= k < |s| - 1 && Greedy(f, s, k)
    ensures Joins(f, (s[0], s[k + 1])) <==> s[k + 1] !in s[..k + 1]
  {
    FindOfFound(f, s[0], s[k + 1]);
    if k == 0 {
      assert s[..1] == [s[0]];
      assert s[0] !in f.parent && s[1] !in f.parent;
    } else {
      assert SeenCount(|s|, k) == k + 1;
      assert s[k + 1] in f.parent ==> Rep(f, s[k + 1]) == Rep(f, s[0]);
    }
  }

  /** After the finds of a first-row pair, the keys are the services up to its second one. */
  lemma PairKeys<K>(f: Forest<K>, s: seq<K>, k: int)
    requires 0 <= k < |s| - 1 && Greedy(f, s, k)
    ensures Registered(BothFound(f, (s[0], s[k + 1])), s[..k + 2])
  {
    var h := BothFound(f, (s[0], s[k + 1]));
    FoundKeys(f, s[0]);
    FoundKeys(Found(f, s[0]), s[k + 1]);
    forall v | v in h.parent
      ensures v in s[..k + 2]
    {
      if v in f.parent {
        assert v in s[..SeenCount(|s|, k)];
      } else {
        assert v == s[k + 1] || v == s[..k + 2][0];
      }
    }
    forall i | 0 <= i < k + 2
      ensures s[i] in h.parent
    {
      if 0 < i <= k {
        assert SeenCount(|s|, k) == k + 1;
        assert s[i] == s[..k + 1][i];
      }
    }
  }

  /** After the finds of a first-row pair, every key is in the class of one of its services, one class when the finds agree. */
  lemma PairClasses<K>(f: Forest<K>, s: seq<K>, k: int)
    requires 0 <= k < |s| - 1 && Greedy(f, s, k)
    ensures TwoClasses(BothFound(f, (s[0], s[k + 1])), s[0], s[k + 1])
    ensures !Joins(f, (s[0], s[k + 1])) ==>
      Rep(BothFound(f, (s[0], s[k + 1])), s[0]) == Rep(BothFound(f, (s[0], s[k + 1])), s[k + 1])
  {
    FoundBoth(f, s[0], s[k + 1]);
    if k == 0 {
      assert forall v :: v !in f.parent;
    } else {
      assert FindOf(f, s[0]) == Rep(f, s[0]);
    }
  }

  /** Merging when every key lies in the class of `x` or of `y` leaves a single class with the same keys. */
  lemma MergeTwoClasses<K>(h: Forest<K>, x: K, y: K, p: seq<K>)
    requires Valid(h) && Registered(h, p) && TwoClasses(h, x, y)
    ensures Valid(Merged(h, x, y)) && Registered(Merged(h, x, y), p) && OneClass(Merged(h, x, y), x)
  {
    MergedKeySet(h, x, y);
    MergedOneClass(h, x, y);
  }

  lemma MergedOneClass<K>(h: Forest<K>, x: K, y: K)
    requires Valid(h) && TwoClasses(h, x, y)
    ensures Valid(Merged(h, x, y)) && OneClass(Merged(h, x, y), x)
  {
    MergedKeySet(h, x, y);
    MergedClasses(h, x, y);
    var m := Merged(h, x, y);
    forall v | v in m.parent
      ensures Rep(m, v) == Rep(m, x)
    {
      assert Rep(h, v) == Rep(h, x) || Rep(h, v) == Rep(h, y);
    }
  }

  /** A later pair joins two services already in the one class: both finds agree, and the class stays whole. */
  lemma LaterStep<K>(f: Forest<K>, s: seq<K>, k: int, e: (K, K))
    requires 2 <= |s| && |s| - 1 <= k && Greedy(f, s, k) && e.0 in s && e.1 in s
    requires s[..SeenCount(|s|, k)] == s
    ensures !Joins(f, e) && Greedy(Considered(f, e), s, k + 1)
  {
    FoundBoth(f, e.0, e.1);
    var h := Found(Found(f, e.0), e.1);
    assert Rep(f, e.0) == Rep(f, s[0]) && Rep(f, e.1) == Rep(f, s[0]);
    forall v | v in h.parent
      ensures Rep(h, v) == Rep(h, s[0])
    {
      assert v in f.parent;
      assert Rep(f, v) == Rep(f, s[0]);
    }
    assert SeenCount(|s|, k + 1) == |s|;
  }

  /** The state of the final check: every service is a key in the one class, whose representative is `r`. */
  ghost predicate AllJoined<K>(f: Forest<K>, s: seq<K>, r: K)
  {
    0 < |s| && Valid(f) && Registered(f, s) && OneClass(f, s[0]) && Rep(f, s[0]) == r
  }

  /** A `find` in the final check returns the representative of `s[0]` and keeps the class whole. */
  lemma CheckStep<K>(f: Forest<K>, s: seq<K>, r: K, v: K)
    requires AllJoined(f, s, r) && v in s
    ensures FindOf(f, v) == r && AllJoined(Found(f, v), s, r)
  {
    FoundSound(f, v);
    var g := Found(f, v);
    assert Rep(f, v) == Rep(f, s[0]);
    forall u | u in g.parent
      ensures Rep(g, u) == Rep(g, s[0])
    {
      assert u in f.parent;
      assert Rep(f, u) == Rep(f, s[0]);
    }
  }

  /** The nested loops of service_pairs.py:48-51: every pair `i < j`, ordered by `i` and then by `j`. */
  method EnumeratePairs<K>(services: seq<K>) returns (pairs: seq<(K, K)>)
    ensures pairs == AllPairs(services)
  {
    var n := |services|;
    pairs := [];
    for i := 0 to n
      invariant pairs == Rows(services, i)
    {
      for j := i + 1 to n
        invariant pairs == Rows(services, i) + Row(services, i)[..j - i - 1]
      {
        assert Row(services, i)[..j - i] == Row(services, i)[..j - i - 1] + [(services[i], services[j])];
        pairs := pairs + [(services[i], services[j])];
      }
      assert Row(services, i)[..n - i - 1] == Row(services, i);
    }
  }

  /**
   * The greedy loop of service_pairs.py:54-64 on a fresh structure: a pair
   * is kept when the finds of its two services disagree.  Afterwards every
   * service is a key in the class of `services[0]`.
   */
  method KeepJoining<K(==)>(uf: UnionFind<K>, services: seq<K>, pairs: seq<(K, K)>) returns (result: seq<(K, K)>)
    requires 2 <= |services| && pairs == AllPairs(services)
    requires uf.Valid() && uf.parent == map[]
    modifies uf
    ensures uf.Valid() && Greedy(uf.State(), services, |pairs|)
    ensures result == MinimumPairs(services)
  {
    result := [];
    for k := 0 to |pairs|
      invariant uf.Valid() && Greedy(uf.State(), services, k)
      invariant result == Star(services, SeenCount(|services|, k))
    {
      ghost var f := uf.State();
      GreedyStep(f, services, k);
      var (service1, service2) := pairs[k];
      var root1 := uf.Find(service1);
      var root2 := uf.Find(service2);
      if root1 != root2 {
        uf.Union(service1, service2);
        result := result + [(service1, service2)];
      }
      assert uf.State() == Considered(f, pairs[k]);
    }
    GreedyDone(uf.State(), services);
  }

  /** service_pairs.py:34-72. */
  method FindMinimumPairs<K(==)>(services: seq<K>) returns (result: seq<(K, K)>)
    ensures result == MinimumPairs(services)
  {
    if |services| < 2 {
      return [];
    }
    var pairs := EnumeratePairs(services);
    var uf := new UnionFind<K>();
    result := KeepJoining(uf, services, pairs);

    GreedyDone(uf.State(), services);
    var root := uf.Find(services[0]);
    for t := 1 to |services|
      invariant uf.Valid() && AllJoined(uf.State(), services, root)
    {
      CheckStep(uf.State(), services, root, services[t]);
      var r := uf.Find(services[t]);
      if r != root {
        // never taken: every service is in the class of services[0]
        assert false;
        return [];
      }
    }
  }

  // ---------------------------------------------------------------------
  // What the greedy returns

  /** The positions `1 <= j < m` whose service does not occur earlier in `s`, in increasing order. */
  ghost function FirstSeen<K>(s: seq<K>, m: int): (p: seq<int>)
    requires 0 <= m <= |s|
    ensures forall t :: 0 <= t < |p| ==> 1 <= p[t] < m
  {
    if m <= 1 then [] else FirstSeen(s, m - 1) + if s[m - 1] in s[..m - 1] then [] else [m - 1]
  }

  /** `FirstSeen` lists, in increasing order, exactly the positions `1 <= j < m` of first occurrences. */
  lemma FirstSeenSound<K>(s: seq<K>, m: int)
    requires 0 <= m <= |s|
    ensures forall t :: 0 <= t < |FirstSeen(s, m)| ==> s[FirstSeen(s, m)[t]] !in s[..FirstSeen(s, m)[t]]
    ensures forall t, u :: 0 <= t < u < |FirstSeen(s, m)| ==> FirstSeen(s, m)[t] < FirstSeen(s, m)[u]
    ensures forall j :: 1 <= j < m && s[j] !in s[..j] ==> j in FirstSeen(s, m)
  {
    FirstSeenFresh(s, m);
    FirstSeenIncreasing(s, m);
    FirstSeenComplete(s, m);
  }

  lemma {:induction false} FirstSeenFresh<K>(s: seq<K>, m: int)
    requires 0 <= m <= |s|
    ensures forall t :: 0 <= t < |FirstSeen(s, m)| ==> s[FirstSeen(s, m)[t]] !in s[..FirstSeen(s, m)[t]]
  {
    if m > 1 {
      FirstSeenFresh(s, m - 1);
      var q := FirstSeen(s, m - 1);
      var add := if s[m - 1] in s[..m - 1] then [] else [m - 1];
      assert FirstSeen(s, m) == q + add;
      forall t | 0 <= t < |q + add|
        ensures s[(q + add)[t]] !in s[..(q + add)[t]]
      {
        if t < |q| {
          assert (q + add)[t] == q[t];
        }
      }
    }
  }

  lemma {:induction false} FirstSeenIncreasing<K>(s: seq<K>, m: int)
    requires 0 <= m <= |s|
    ensures forall t, u :: 0 <= t < u < |FirstSeen(s, m)| ==> FirstSeen(s, m)[t] < FirstSeen(s, m)[u]
  {
    if m > 1 {
      FirstSeenIncreasing(s, m - 1);
      var q := FirstSeen(s, m - 1);
      var add := if s[m - 1] in s[..m - 1] then [] else [m - 1];
      assert FirstSeen(s, m) == q + add;
      forall t, u | 0 <= t < u < |q + add|
        ensures (q + add)[t] < (q + add)[u]
      {
        assert (q + add)[t] == q[t];
        if u < |q| {
          assert (q + add)[u] == q[u];
        }
      }
    }
  }

  lemma {:induction false} FirstSeenComplete<K>(s: seq<K>, m: int)
    requires 0 <= m <= |s|
    ensures forall j :: 1 <= j < m && s[j] !in s[..j] ==> j in FirstSeen(s, m)
  {
    if m > 1 {
      FirstSeenComplete(s, m - 1);
      var q := FirstSeen(s, m - 1);
      var add := if s[m - 1] in s[..m - 1] then [] else [m - 1];
      assert FirstSeen(s, m) == q + add;
      forall j | 1 <= j < m && s[j] !in s[..j]
        ensures j in q + add
      {
        if j < m - 1 {
          assert j in q;
        } else {
          assert add == [m - 1];
        }
      }
    }
  }

  /** The services of a list, as a set. */
  ghost function Services<K>(s: seq<K>): set<K>
  {
    set v | v in s
  }

  /** The kept pairs join `s[0]` to the first occurrence of each later service, in order of position. */
  lemma {:induction false} StarFirstSeen<K>(s: seq<K>, m: int)
    requires 0 < |s| && 0 <= m <= |s|
    ensures |Star(s, m)| == |FirstSeen(s, m)|
    ensures forall t :: 0 <= t < |Star(s, m)| ==> Star(s, m)[t] == (s[0], s[FirstSeen(s, m)[t]])
  {
    if m > 1 {
      StarFirstSeen(s, m - 1);
      var isNew := s[m - 1] !in s[..m - 1];
      var q := FirstSeen(s, m - 1);
      var r := Star(s, m - 1);
      assert FirstSeen(s, m) == q + if isNew then [m - 1] else [];
      assert Star(s, m) == r + if isNew then [(s[0], s[m - 1])] else [];
      forall t | 0 <= t < |Star(s, m)|
        ensures Star(s, m)[t] == (s[0], s[FirstSeen(s, m)[t]])
      {
        if t < |r| {
          assert Star(s, m)[t] == r[t] && FirstSeen(s, m)[t] == q[t];
        }
      }
    }
  }

  /** The kept pairs number one less than the services seen. */
  lemma {:induction false} StarCount<K>(s: seq<K>, m: int)
    requires 1 <= m <= |s|
    ensures |Star(s, m)| == |Services(s[..m])| - 1
  {
    if m == 1 {
      assert Services(s[..1]) == {s[0]};
    } else {
      StarCount(s, m - 1);
      assert s[..m] == s[..m - 1] + [s[m - 1]];
      assert Services(s[..m]) == Services(s[..m - 1]) + {s[m - 1]};
      if s[m - 1] in s[..m - 1] {
        assert Services(s[..m]) == Services(s[..m - 1]);
      } else {
        assert s[m - 1] !in Services(s[..m - 1]);
      }
    }
  }

  /** A position whose service occurs nowhere before it. */
  lemma FirstOccurrence<K>(s: seq<K>, v: K) returns (j: int)
    requires v in s
    ensures 0 <= j < |s| && s[j] == v && v !in s[..j]
  {
    j := 0;
    while s[j] != v
      invariant 0 <= j < |s| && v !in s[..j] && v in s[j..]
      decreases |s| - j
    {
      assert s[j..] == [s[j]] + s[j + 1..];
      j := j + 1;
    }
  }

  /**
   * `find_minimum_pairs` on two or more services keeps a subsequence of the
   * enumerated pairs, in enumeration order: the `t`-th kept pair is the one
   * enumerated at position `FirstSeen(s, |s|)[t] - 1`, and those positions
   * increase.
   */
  lemma MinimumPairsOrder<K>(s: seq<K>)
    requires 2 <= |s|
    ensures |MinimumPairs(s)| == |FirstSeen(s, |s|)| && |AllPairs(s)| >= |s| - 1
    ensures forall t, u :: 0 <= t < u < |FirstSeen(s, |s|)| ==> FirstSeen(s, |s|)[t] < FirstSeen(s, |s|)[u]
    ensures forall t :: 0 <= t < |MinimumPairs(s)| ==>
      1 <= FirstSeen(s, |s|)[t] < |s| && MinimumPairs(s)[t] == AllPairs(s)[FirstSeen(s, |s|)[t] - 1]
  {
    StarFirstSeen(s, |s|);
    FirstSeenIncreasing(s, |s|);
    FirstRow(s, |s|);
  }

  /**
   * `find_minimum_pairs` on two or more services: every pair is `(s[0], v)`
   * for a later service `v`; no service is paired twice and every service
   * other than `s[0]` is paired; there is one pair fewer than there are
   * distinct services.
   */
  lemma MinimumPairsSpan<K>(s: seq<K>)
    requires 2 <= |s|
    ensures forall t :: 0 <= t < |MinimumPairs(s)| ==>
      MinimumPairs(s)[t].0 == s[0] && MinimumPairs(s)[t].1 in s && MinimumPairs(s)[t].1 != s[0]
    ensures forall t, u :: 0 <= t < u < |MinimumPairs(s)| ==> MinimumPairs(s)[t].1 != MinimumPairs(s)[u].1
    ensures forall v :: v in s && v != s[0] ==> (s[0], v) in MinimumPairs(s)
    ensures |MinimumPairs(s)| == |Services(s)| - 1
  {
    var r := MinimumPairs(s);
    var p := FirstSeen(s, |s|);
    StarFirstSeen(s, |s|);
    FirstSeenSound(s, |s|);
    StarCount(s, |s|);
    assert s[..|s|] == s;
    forall t | 0 <= t < |r|
      ensures r[t].1 in s && r[t].1 != s[0]
    {
      assert s[0] == s[..p[t]][0];
    }
    forall t, u | 0 <= t < u < |r|
      ensures r[t].1 != r[u].1
    {
      assert s[p[t]] == s[..p[u]][p[t]];
    }
    forall v | v in s && v != s[0]
      ensures (s[0], v) in r
    {
      var j := FirstOccurrence(s, v);
      assert j in p;
      var t :| 0 <= t < |p| && p[t] == j;
      assert r[t] == (s[0], v);
    }
  }

  /** The result on services without repetitions: `s[0]` paired with every later service, in order. */
  lemma {:induction false} StarDistinct<K>(s: seq<K>, m: int)
    requires 1 <= m <= |s| && forall i, j :: 0 <= i < j < |s| ==> s[i] != s[j]
    ensures Star(s, m) == seq(m - 1, j requires 0 <= j < m - 1 => (s[0], s[j + 1]))
  {
    if m > 1 {
      StarDistinct(s, m - 1);
      assert s[m - 1] !in s[..m - 1] by {
        forall i | 0 <= i < m - 1
          ensures s[i] != s[m - 1]
        {
        }
      }
    }
  }

  lemma MinimumPairsDistinct<K>(s: seq<K>)
    requires 1 <= |s| && forall i, j :: 0 <= i < j < |s| ==> s[i] != s[j]
    ensures MinimumPairs(s) == seq(|s| - 1, j requires 0 <= j < |s| - 1 => (s[0], s[j + 1]))
  {
    StarDistinct(s, |s|);
  }

  /** The four calls of `test_find_minimum_pairs` (service_pairs.py:75-99). */
  method TestFindMinimumPairs() returns (r1: seq<(string, string)>, r2: seq<(string, string)>, r3: seq<(string, string)>, r4: seq<(string, string)>)
    ensures r1 == [("A", "B"), ("A", "C"), ("A", "D")] && |r1| == 3
    ensures r2 == [] && r3 == [] && r4 == [("A", "B")]
  {
    MinimumPairsDistinct(["A", "B", "C", "D"]);
    MinimumPairsDistinct(["A", "B"]);
    r1 := FindMinimumPairs(["A", "B", "C", "D"]);
    r2 := FindMinimumPairs([]);
    r3 := FindMinimumPairs(["A"]);
    r4 := FindMinimumPairs(["A", "B"]);
  }
}
