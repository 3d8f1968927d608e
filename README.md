# Disjoint sets, four ways, and the fewest service pairs

The repository `graph_problems` holds four implementations of the
disjoint-set (union-find) structure, plus one greedy algorithm built on the
last of them:

- `quick_find.py`: eager flattening. Every entry of `root` names its class representative, and `union` rewrites the whole list.
- `quick_union.py`: plain parent chasing. `union` hangs `rootY` under `rootX`.
- `union_rank.py`: union by rank over indices. Ranks start at 1 and `find` does not compress.
- `service_pairs.py`: a union-find over arbitrary keys held in two dictionaries.
  - `find` registers an unseen key as a root of rank 0, and otherwise compresses the path recursively.
  - `union` links by rank.
  - `find_minimum_pairs` runs a Kruskal-style greedy over every pair `i < j` of a list of services, then checks that one class holds them all.

All four are proved against an abstract specification, the module
`DisjointSets` in `disjoint_sets.dfy`:

- A `Forest` is a map of parent links and a map of ranks.
- `Valid` says that every parent is a key and that ranks climb strictly toward the roots. That measure is what makes following links terminate.
- `Rep` is the root reached from a key. Two keys are in one class when their `Rep`s agree.
- The integer variants store lists, and `Indexed` turns them into a `Forest<int>`.
  - The ranked variant uses its stored rank as the measure.
  - `quick_union.py` keeps no measure, so its class has a ghost `height` list.
  - `quick_find.py` needs only a derived measure: 1 at the roots and 0 elsewhere.

Each Python class becomes a Dafny `class` whose fields are the lists or dictionaries it mutates:

- `seq<int>` for the integer variants;
- `map<K, K>` and `map<K, int>` for `service_pairs.py`.

Each method is proved against a specification function:

- `Found` and `Merged` give the state after `find` and `union` in `service_pairs.py`;
- `Linked` gives it for `union_rank.py`;
- `Relabel` gives it for `quick_find.py`;
- `MinimumPairs` is what `find_minimum_pairs` returns.

Lemmas beside each function state what the new state means:

- classes merge exactly as `union` promises;
- compression changes no class;
- only the expected rank changes;
- the greedy keeps exactly the pairs that bring in a new service;
- and so on.

In `service_pairs.py`, `union(x, y)` on two keys that already share a root
is not a no-op on `parent`: its two `find` calls have already compressed
both paths. The model follows the code. `ServicePairs.UnionFind.Union`
leaves the state `Merged(old, x, y)`, which in that case is the forest after
the two finds. Ranks and classes are unchanged (`MergedRanks`,
`MergedSound`), but `parent` may not be.

The `return []` of `service_pairs.py:70` is kept in
`FindMinimumPairs`. The proof shows it is never reached: after the greedy
loop every service is in the class of `services[0]` (`GreedyDone`,
`CheckStep`).

## Model

| member | source | states |
|---|---|---|
| DisjointSets.Rep | union_rank.py:6-9 | following parent links from a key ends at a root; a key that is not a root has a representative of strictly higher rank |
| DisjointSets.SameClassEquivalence | quick_union.py:14-15 | being connected is reflexive on keys, symmetric and transitive |
| DisjointSets.Compress | service_pairs.py:15-18 | path compression changes no key set and no rank |
| DisjointSets.CompressSound | service_pairs.py:15-18 | after compressing from `x`, the forest is still valid, `x` points straight at its old root, and no key changes representative |
| DisjointSets.CompressShape | service_pairs.py:15-18 | compression re-points exactly the keys on the path from `x` at the root and leaves every other parent entry alone |
| DisjointSets.RelinkRep | quick_union.py:12-13 | hanging root `b` under another root `a` sends exactly the keys of `b`'s class to `a`; every other key keeps its representative |
| DisjointSets.Winner | service_pairs.py:26-32 | the surviving root is one of the two and ranks at least as high as both |
| DisjointSets.Link | service_pairs.py:25-32 | after the link both old roots are keys pointing at the winner: one root hangs under the other |
| DisjointSets.LinkValid | service_pairs.py:25-32 | linking two distinct roots by rank keeps the forest valid: no cycle, ranks still climb toward the roots |
| DisjointSets.LinkKeys | service_pairs.py:25-32 | linking adds and removes no key |
| DisjointSets.LinkRanks | service_pairs.py:25-32 | linking changes only the rank of `a`, by exactly one, and only on a tie |
| DisjointSets.LinkSound | service_pairs.py:25-32 | the classes of the two roots merge into the higher-ranked root's (`a`'s on a tie) and every other class is unchanged; only `a`'s rank can change, by one on a tie; non-roots keep parent and rank |
| DisjointSets.LinkKeepsClasses | service_pairs.py:20-32 | keys connected before a link stay connected, and the two roots become connected |
| DisjointSets.IndexedRelink | quick_union.py:12-13 | in list form: after `root[b] := a` for distinct roots, an index whose root was `b` has root `a`, and every other index keeps its root |
| ServicePairs.Register | service_pairs.py:10-13 | registering an unseen key adds exactly that key, as a root of rank 0, and changes no other key's parent |
| ServicePairs.RegisterSound | service_pairs.py:10-13 | a new key becomes a root of its own singleton class, and every existing key keeps its representative |
| ServicePairs.Found | service_pairs.py:8-18 | after `find(x)` the forest is valid, `x` is a key pointing directly at the returned root, and that root is a root |
| ServicePairs.FoundSound | service_pairs.py:8-18 | `find(x)` adds only `x` to the keys, leaves `x` pointing at the root it returns, changes no class and no rank; an unseen `x` is returned itself, enters with rank 0, and changes no other parent entry |
| ServicePairs.FoundKeys | service_pairs.py:10-12 | the keys after `find(x)` are the old keys plus `x`: no key is ever removed |
| ServicePairs.FoundRanks | service_pairs.py:8-18 | `find` changes no rank, and a newly registered key has rank 0 |
| ServicePairs.FoundKeepsRoot | service_pairs.py:8-18 | a root stays a root through any `find` |
| ServicePairs.Merged | service_pairs.py:20-32 | the forest after `union(x, y)` is again valid: no cycle, ranks still climb toward the roots |
| ServicePairs.FindOfFound | service_pairs.py:21 | the second `find` of `union` returns what it would have returned before the first one |
| ServicePairs.FoundBoth | service_pairs.py:21 | after both finds of `union(x, y)`, both keys are registered, their two results are roots and are the representatives of `x` and `y`, and no class or rank has changed |
| ServicePairs.MergedSound | service_pairs.py:20-32 | after `union(x, y)` the keys grow by `x` and `y` only and `x` and `y` are in one class; that class's root is `find(y)` when its rank is strictly higher, else `find(x)`; every other class is unchanged |
| ServicePairs.MergedClasses | service_pairs.py:20-32 | the class part of `MergedSound`: both keys are present, the two classes merge into the winner's, and no other class changes |
| ServicePairs.MergedKeySet | service_pairs.py:20-32 | the key set after `union(x, y)` is the old one plus `x` and `y` |
| ServicePairs.MergedRanks | service_pairs.py:25-32 | in `union`, only `find(x)`'s root can change rank, by exactly one, and only when both roots differ and tie |
| ServicePairs.Seen | service_pairs.py:10-13 | a `find` without compression keeps the forest valid and its result a root |
| ServicePairs.SeenKeepsRoot | service_pairs.py:10-13 | a root stays a root through a `find` that does not compress |
| ServicePairs.PlainValid | service_pairs.py:20-32 | `union` built on the non-compressing `find` keeps the forest valid |
| ServicePairs.FoundEquivalent | service_pairs.py:8-18 | from equivalent forests, the compressing and the plain `find` return the same root and leave equivalent forests |
| ServicePairs.CompressEquivalent | service_pairs.py:15-18 | compression leaves a forest equivalent to the one it started from: the same keys, ranks and classes |
| ServicePairs.RegisterEquivalent | service_pairs.py:10-13 | registering a new key in equivalent forests gives equivalent forests |
| ServicePairs.LinkEquivalent | service_pairs.py:25-32 | linking the same two roots in equivalent forests gives equivalent forests |
| ServicePairs.LinkKeyEquivalent | service_pairs.py:25-32 | one key of two equivalent forests keeps the same presence, rank and representative after the same link |
| ServicePairs.MergedPlain | service_pairs.py:20-32 | from equivalent forests, `union` with the compressing `find` and `union` with the plain one give equivalent forests |
| ServicePairs.MergedAll | service_pairs.py:20-32 | any run of unions keeps the forest valid |
| ServicePairs.PlainAll | service_pairs.py:20-32 | any run of unions without compression keeps the forest valid |
| ServicePairs.CompressionUnobservable | service_pairs.py:15-18 | after any run of unions from equivalent forests, compressing and not compressing give the same keys, ranks and classes |
| ServicePairs.UnionFind.constructor | service_pairs.py:4-6 | both dictionaries start empty, which is a valid forest |
| ServicePairs.UnionFind.Find | service_pairs.py:8-18 | the recursive `find` returns `x`'s representative (or `x` when unseen) and leaves exactly the state `Found` describes, keeping the forest valid |
| ServicePairs.UnionFind.Union | service_pairs.py:20-32 | `union` leaves exactly the state `Merged` describes and keeps the forest valid |
| ServicePairs.Rows | service_pairs.py:48-51 | the first `m` rows of the nested loops hold `m(2n - m - 1)/2` pairs |
| ServicePairs.AllPairs | service_pairs.py:48-51 | the nested loops build `n(n - 1)/2` pairs, one per `i < j` |
| ServicePairs.Row | service_pairs.py:50-51 | the inner loop for one `i` enumerates `n - i - 1` pairs |
| ServicePairs.FirstRow | service_pairs.py:48-51 | the first `n - 1` enumerated pairs are `(s[0], s[j])` for `j = 1 .. n-1`, in order |
| ServicePairs.RowsInList | service_pairs.py:48-51 | every enumerated pair joins two services of the list |
| ServicePairs.PairJoins | service_pairs.py:62 | during the first row, the two finds disagree exactly when the second service has not occurred earlier in the list |
| ServicePairs.PairKeys | service_pairs.py:62 | after the finds of a first-row pair, the registered keys are exactly the services seen so far |
| ServicePairs.PairClasses | service_pairs.py:62 | after the finds of a first-row pair, every key is in the class of one of its two services, and in one class when the finds agree |
| ServicePairs.MergeTwoClasses | service_pairs.py:63 | when every key lies in the class of `x` or of `y`, `union(x, y)` leaves one class over the same keys |
| ServicePairs.MergedOneClass | service_pairs.py:63 | when every key lies in the class of `x` or of `y`, `union(x, y)` leaves every key in `x`'s class |
| ServicePairs.BothFound | service_pairs.py:62 | the forest after the two finds of the loop test is valid |
| ServicePairs.Joins | service_pairs.py:62 | the loop test `find(service1) != find(service2)` holds exactly when the two services had different roots before either find |
| ServicePairs.Considered | service_pairs.py:60-64 | after one pass of the greedy loop the forest is valid and the pair's two services are in one class, whether the pair was kept or not |
| ServicePairs.FirstRowStep | service_pairs.py:60-64 | a first-row pair is kept exactly when its second service is new, and afterwards the services seen so far are the keys, all in one class |
| ServicePairs.LaterStep | service_pairs.py:60-64 | once the first row is done, every later pair's finds agree, so it is never kept, and the single class survives its finds |
| ServicePairs.Star | service_pairs.py:60-64 | after `m` services, fewer than `m` pairs are kept, each starting with `services[0]` |
| ServicePairs.MinimumPairs | service_pairs.py:44-72 | the expected result: `[]` for fewer than two services, otherwise fewer pairs than services, each starting with `services[0]` |
| ServicePairs.StarStep | service_pairs.py:60-64 | one pass of the greedy adds to the expected result the pair `(s[0], s[k+1])` exactly when `s[k+1]` is new, and nothing otherwise |
| ServicePairs.GreedyStep | service_pairs.py:60-64 | one pass of the greedy keeps its invariant, and the pair is kept exactly when the expected result grows by that pair |
| ServicePairs.GreedyDone | service_pairs.py:66-67 | after all pairs, every service is a key in the class of `services[0]`, and the kept pairs are the expected result |
| ServicePairs.CheckStep | service_pairs.py:68-70 | each `find` in the final check returns the root of `services[0]` and keeps every service in that class, so the early `return []` is unreachable |
| ServicePairs.EnumeratePairs | service_pairs.py:48-51 | the nested loops build every pair `(s[i], s[j])` with `i < j`, ordered by `i` and then by `j` |
| ServicePairs.KeepJoining | service_pairs.py:54-64 | from empty dictionaries, the greedy loop keeps exactly the expected pairs and leaves every service a key in the class of `services[0]` |
| ServicePairs.FindMinimumPairs | service_pairs.py:34-72 | the function returns `MinimumPairs(services)`: `[]` for fewer than two services, otherwise the pairs of `services[0]` with each later service's first occurrence |
| ServicePairs.FirstSeen | service_pairs.py:60-64 | every listed first-occurrence position lies in `1 .. m-1` |
| ServicePairs.FirstSeenSound | service_pairs.py:60-64 | `FirstSeen` lists, in increasing order, exactly the positions whose service occurs nowhere earlier |
| ServicePairs.FirstSeenFresh | service_pairs.py:60-64 | each listed position holds a service that occurs nowhere before it |
| ServicePairs.FirstSeenIncreasing | service_pairs.py:60-64 | the listed positions are strictly increasing |
| ServicePairs.FirstSeenComplete | service_pairs.py:60-64 | every position `1 <= j < m` of a first occurrence is listed |
| ServicePairs.StarFirstSeen | service_pairs.py:60-64 | the kept pairs are `(s[0], s[j])` for the first-occurrence positions `j`, in order |
| ServicePairs.StarCount | service_pairs.py:60-64 | there is one kept pair fewer than there are distinct services among those seen |
| ServicePairs.FirstOccurrence | service_pairs.py:60-64 | every service of the list has a position with no earlier occurrence |
| ServicePairs.MinimumPairsOrder | service_pairs.py:48-64 | on two or more services, the kept pairs are enumerated pairs taken in enumeration order, at strictly increasing positions |
| ServicePairs.MinimumPairsSpan | service_pairs.py:48-72 | on two or more services, each kept pair is `(s[0], v)` with `v` in the list and `v != s[0]`; no service is paired twice, every other service is paired, and the count is the number of distinct services minus one |
| ServicePairs.StarDistinct | service_pairs.py:48-64 | on a list without repetitions, the kept pairs after `m` services are `(s[0], s[j])` for `j = 1 .. m-1` |
| ServicePairs.MinimumPairsDistinct | service_pairs.py:48-72 | on a list without repetitions, the result is exactly `(s[0], s[j])` for `j = 1 .. n-1` |
| ServicePairs.TestFindMinimumPairs | service_pairs.py:75-99 | `["A","B","C","D"]` gives the 3 pairs `("A","B"), ("A","C"), ("A","D")`; `[]` and `["A"]` give `[]`; `["A","B"]` gives `[("A","B")]` |
| UnionRank.FindUnion.constructor | union_rank.py:2-5 | `n` indices, each its own root with rank 1, each its own class |
| UnionRank.FindUnion.Find | union_rank.py:6-9 | `find` returns an index that is its own root and is the representative of `x`, and changes nothing |
| UnionRank.FindUnion.Union | union_rank.py:10-20 | on a shared root nothing changes; otherwise the lists become `Linked` of the two roots; afterwards `x` and `y` are connected under one of the two old roots, the two classes merge and every other class is unchanged |
| UnionRank.FindUnion.Connected | union_rank.py:21-22 | `connected` holds exactly when the two indices are in one class |
| UnionRank.Linked | union_rank.py:13-20 | the link keeps both lists' lengths |
| UnionRank.LinkedChanges | union_rank.py:13-20 | only the lower-ranked root's entry changes (`rootY`'s on a tie) and it then names the other root; only `rootX`'s rank changes, by exactly one on a tie; no rank decreases; a non-root keeps its entry and rank |
| UnionRank.LinkedValid | union_rank.py:13-20 | after the link, entries are still indices and ranks still climb strictly toward the roots |
| UnionRank.LinkedIsLink | union_rank.py:13-20 | the list update is the abstract rank link of the two roots, the same rule as `service_pairs.py`'s `union` |
| UnionRank.Relinked | union_rank.py:14-17 | linking a strictly lower-ranked root under a higher one is the abstract link, whichever order the roots are given in |
| UnionRank.RelinkedTie | union_rank.py:18-20 | on a tie, `root[rootY] := rootX` with `rank[rootX]` raised by one is the abstract link |
| UnionRank.LinkedMerges | union_rank.py:13-20 | after the link, an index whose root was either root has the winner as root, and every other index keeps its root |
| UnionRank.LinkedClasses | union_rank.py:10-20 | the link puts `x` and `y` in one class under one of their old roots; every other class is unchanged |
| UnionRank.LinkedKeepsConnected | union_rank.py:10-22 | indices connected before the link stay connected, and the two roots become connected |
| QuickUnion.UnionFind.constructor | quick_union.py:2-4 | `n` indices, each its own root and its own class |
| QuickUnion.UnionFind.Find | quick_union.py:5-8 | `find` returns an index that is its own root and is the representative of `x`, and changes nothing |
| QuickUnion.UnionFind.Union | quick_union.py:9-13 | on a shared root `root` is unchanged; otherwise only `root[rootY]` changes, to `rootX`; afterwards exactly `y`'s class has joined `x`'s, under `x`'s root, and every other class is unchanged |
| QuickUnion.UnionFind.Connected | quick_union.py:14-15 | `connected` holds exactly when the two indices are in one class |
| QuickUnion.Raised | quick_union.py:12-13 | the ghost height of the new parent root is above that of the hung root |
| QuickUnion.HungValid | quick_union.py:12-13 | hanging one root under another introduces no cycle |
| QuickUnion.HungMerges | quick_union.py:12-13 | after the relink, an index whose root was `rootY` has root `rootX`, and every other index keeps its root |
| QuickUnion.HungKeepsConnected | quick_union.py:9-15 | indices connected before the relink stay connected, and the two roots become connected |
| QuickUnion.HeightIrrelevant | quick_union.py:5-8 | the root `find` reaches from an index does not depend on the ghost height: any two valid heights give the same root |
| QuickUnion.UnionStep | quick_union.py:9-13 | seen through the roots of all indices, `union(x, y)` sends every index rooted with `y` to `x`'s root |
| QuickUnion.ConnectedStep | quick_union.py:14-15 | seen through the roots of all indices, `connected(x, y)` compares their roots |
| QuickUnion.Joins | quick_union.py:19-26 | the six unions leave the classes 1-2-5-6-7 and 3-8-9, plus the singletons 0 and 4 |
| QuickUnion.Scenario | quick_union.py:27-32 | 1~5 and 5~7, 4 and 9 apart, then connected after `union(9, 4)` |
| QuickFind.Relabel | quick_find.py:14-16 | the rewrite keeps the length of `root` |
| QuickFind.FlatRep | quick_find.py:7-8 | in a flat list each entry is its index's representative, so `find` is a single read |
| QuickFind.RelabelFlat | quick_find.py:14-16 | rewriting one root's entries to another root keeps every entry an index that is its own root |
| QuickFind.RelabelMerges | quick_find.py:11-16 | after the rewrite, two indices share an entry exactly when they did before or both lay in the two merged classes; a root rewritten onto itself changes nothing; the list stays flat |
| QuickFind.RelabelRep | quick_find.py:14-16 | after the rewrite, an index whose representative was `rootY` has `rootX`, and every other index keeps its representative |
| QuickFind.Graph.constructor | quick_find.py:2-4 | `n` indices, each naming itself |
| QuickFind.Graph.Find | quick_find.py:7-8 | `find` returns the representative of `x`, an index naming itself |
| QuickFind.Graph.Union | quick_find.py:11-16 | the loop rewrites exactly the entries equal to `find(y)` to `find(x)` and keeps the list flat and of length `n`; afterwards `x` and `y` share an entry, and a union of connected indices changes nothing |
| QuickFind.Graph.Connected | quick_find.py:18-19 | `connected` holds exactly when the two indices are in one class |
| QuickFind.Scenario | quick_find.py:21-27 | `union(1, 2)` and `union(1, 3)` on 4 indices give `[0, 1, 1, 1]`; `find(3)` is 1 and 0 and 3 are apart |

## Left out

- Printing: the demo blocks and `test_find_minimum_pairs` only print. Their expected values are the `ensures` of `TestFindMinimumPairs`, `QuickUnion.Scenario` and `QuickFind.Scenario`; the output itself is not modelled.
- Complexity: the running-time claims (amortised cost, O(n) per union) are not observable in this model.
- Index range: Python accepts negative indices such as `root[-1]` and raises `IndexError` for `x >= n`. Every integer-variant operation instead requires `0 <= x < |root|`, so neither the negative-index reading nor the exception is modelled.
- Recursion depth: Python's recursion limit on the recursive `find` in `service_pairs.py` is not modelled. The model shows the recursion terminates.
- Unused fields: `self.n` in `quick_union.py` and `self.size` in `union_rank.py` carry no behaviour and are not modelled. In `quick_find.py`, `self.n` bounds the rewrite loop, so it is kept as the field `n`.
- Key type: `service_pairs.py` keys are strings hashed by Python. The model uses any type with equality, and the test calls instantiate it with `string`.
- Dictionaries: Python's insertion order of a dictionary is not observable in the code and is not modelled.
- QuickUnion.UnionFind: the ghost `height` list exists only in the model, as the measure that makes `find` terminate. The program keeps no such list.
- ServicePairs.UnionFind.Union: when both keys already share a root, the model does not promise that `parent` is unchanged. The two finds compress paths, as the code does. Ranks and classes are unchanged (`MergedRanks`, `MergedSound`).
