# hash_unionfind in Dafny

A model of `hash_unionfind`, a union-find (disjoint-set) structure whose
elements are arbitrary hashable values rather than integer indices. The
structure keeps one map from every inserted key to a pair: the key's current
parent (the key itself for the leader of a group) and a rank. In this
implementation the rank of a leader is the number of keys in its group.

- `insert` adds a key as a group of its own with rank 1; inserting a key that
  is already present changes nothing.
- `find` walks from a key up to its leader, then points every key it passed
  straight at the leader, copying the leader's rank (path compression). A key
  that is not present gives `None`.
- `union` looks up the first key and returns `None` if it is missing; then
  nothing has changed. It then looks up the second key and returns `None` if
  that one is missing; the first key's path stays compressed. If both keys
  have the same leader, that leader is returned and nothing else changes.
  Otherwise the leader with the strictly smaller rank is linked under the
  other, and on a tie the first argument's leader wins. Both leaders are
  given the sum of the two ranks, and the winner is returned.

The project has three modules.

- `Forest` (forest.dfy) is the value-level account of the parent map.
  - `Leader` and `Path` define where a lookup ends and which keys it passes.
  - `Compress` defines the map a lookup leaves behind.
  - `Join`, `Merge` and `Unite` define the map a union leaves behind.
  - `Inv` is the invariant every operation keeps: parent chains reach a root
    (witnessed by a ghost height map), rank never decreases along a parent
    link, and a root's rank equals the size of its group.
  - The lemmas prove what lookups and unions do to leaders, groups and ranks.
- `HashUnionFind` (union_find.dfy) holds the class `UnionFind`. Its field
  `parents` is the map, and its methods change it in place. Each method is
  specified through the `Forest` definitions and keeps `Valid`. The two loops
  of a lookup are the methods `WalkToLeader` and `Repoint`.
- `Scenarios` (scenarios.dfy) replays the crate's two unit tests against the
  class. Each scenario's postcondition is the set of outcomes that test
  asserts. A ghost picture, mapping each key to its expected leader and each
  leader to its expected rank, is carried through the calls. One lemma per
  operation moves the picture along.

## Model

| member | source | states |
|---|---|---|
| HashUnionFind.UnionFind.constructor | src/unionfind.rs:42-46 | a new union-find holds no keys and satisfies the invariant |
| HashUnionFind.UnionFind.Size | src/unionfind.rs:48-50 | the size is the number of keys held, and it bounds every rank from above (every rank is at least 1) |
| HashUnionFind.UnionFind.Insert | src/unionfind.rs:52-59 | a present key leaves the map as it was; a fresh key is added as its own leader with rank 1, the size grows by one, and every earlier key keeps its leader; the invariant is kept |
| HashUnionFind.WalkToLeader | src/unionfind.rs:68-78 | the first loop of a lookup ends at the key's leader and that leader's rank, having collected exactly the non-leader keys on the way up |
| HashUnionFind.Repoint | src/unionfind.rs:80-85 | the second loop writes the same leader-and-rank entry for every collected key and changes no other entry |
| HashUnionFind.UnionFind.InnerFind | src/unionfind.rs:61-88 | an absent key gives None and changes nothing; a present key gives its leader and that leader's rank, and leaves the path-compressed map; the invariant is kept |
| HashUnionFind.UnionFind.Find | src/unionfind.rs:90-95 | returns the key's leader, or None exactly when the key is absent, with the same effect on the map as the inner lookup |
| HashUnionFind.UnionFind.Union | src/unionfind.rs:97-115 | None exactly when either key is absent; an absent first key changes nothing, an absent second key leaves the first key's path compressed; otherwise the map becomes the union of the two groups and the reported leader is the winner chosen by rank |
| Forest.Leader | src/unionfind.rs:69-78 | following parents from a key ends at a root, which is the key itself or lies strictly higher in the acyclicity order |
| Forest.Path | src/unionfind.rs:72-77 | the keys a lookup passes: empty exactly when the key is a root, and each is a non-root sharing the key's leader |
| Forest.RankBelowLeader | src/unionfind.rs:105-113 | no key's rank exceeds the rank of its leader |
| Forest.RankBounded | src/unionfind.rs:97-115 | every rank lies between 1 and the number of keys |
| Forest.RanksBounded | src/unionfind.rs:48-50 | the same bound holds for every key at once |
| Forest.GroupBounded | src/unionfind.rs:97-115 | no group holds more keys than the map |
| Forest.InsertInv | src/unionfind.rs:53-59 | inserting a fresh key with itself as parent and rank 1 keeps the invariant; the key leads itself and every other leader stays |
| Forest.RedirectWf | src/unionfind.rs:82-85 | pointing keys that sit below a root straight at that root keeps every parent present and keeps parent chains acyclic |
| Forest.Compress | src/unionfind.rs:61-88 | path compression keeps the key set and well-formedness, keeps every root entry, and keeps every entry outside the looked-up key's group |
| Forest.CompressKeepsLeader | src/unionfind.rs:61-88 | path compression changes no key's leader |
| Forest.CompressFlattens | src/unionfind.rs:80-85 | after a lookup the key and every key passed point directly at the leader and carry the leader's rank |
| Forest.CompressRoot | src/unionfind.rs:73 | looking up a leader changes nothing |
| Forest.CompressIdempotent | src/unionfind.rs:61-88 | a second lookup of the same key changes nothing |
| Forest.CompressRanks | src/unionfind.rs:83-84 | copying the leader's rank into the path keys keeps every rank positive and no larger than the rank of its parent |
| Forest.CompressInv | src/unionfind.rs:61-88 | a lookup keeps the invariant and every key's leader |
| Forest.CompressTwice | src/unionfind.rs:100-101 | the two lookups a union starts with keep the invariant, the key set and every leader |
| Forest.LinkGroupWinner | src/unionfind.rs:110-113 | linking moves the loser's whole group into the winner's group |
| Forest.LinkGroupOther | src/unionfind.rs:110-113 | linking leaves the group of every other leader unchanged |
| Forest.GroupsDisjoint | src/unionfind.rs:97-115 | groups led by two different roots share no key |
| Forest.LeaderRanksSum | src/unionfind.rs:112-113 | the rank sum written by a union of two different leaders is at most the number of keys |
| Forest.LinkInv | src/unionfind.rs:110-113 | linking one root under another, with the sum of the two ranks on both, keeps the invariant; keys led by the loser are now led by the winner and every other leader stays |
| Forest.Winner | src/unionfind.rs:105-107 | the winner is one of the two leaders; its rank is at least the other's; the second leader wins only with a strictly larger rank |
| Forest.JoinInv | src/unionfind.rs:105-113 | joining two different leaders keeps the invariant and the key set, and relabels both groups to the winner |
| Forest.JoinFrame | src/unionfind.rs:111-113 | a join writes the winner and the rank sum into both leaders' entries and into no other entry |
| Forest.MergeInv | src/unionfind.rs:102-113 | merging two leaders, equal or not, keeps the invariant and the key set |
| Forest.MergeRelabels | src/unionfind.rs:102-113 | after a merge the winner is a root carrying the merged rank, every other entry stays, and both groups are led by the winner |
| Forest.LinkStep | src/unionfind.rs:105-113 | the swap followed by the two map writes of union is the merge of the two leaders, and the leader kept after the swap is the rank-chosen winner |
| Forest.UniteSteps | src/unionfind.rs:99-104 | the leaders and ranks the two lookups return are the leaders and ranks before the union, and union's result is the merge of those leaders in the compressed map |
| Forest.UniteInv | src/unionfind.rs:97-115 | a union keeps the invariant and the key set; the winner becomes a root with the merged rank; every key outside the two groups keeps its entry; keys of both groups are led by the winner and every other leader stays |
| Forest.UniteBySize | src/unionfind.rs:97 | the winning leader led the larger group (at least as large as each of the two) |
| Forest.UniteJoins | src/unionfind.rs:97-115 | after a union the two keys share a leader, and two keys share a leader exactly when they did before or each was in one of the two merged groups |
| Scenarios.InsertTracks | src/unionfind.rs:53-59 | inserting a fresh key adds it to the expected picture as its own leader with rank 1 |
| Scenarios.CompressTracks | src/unionfind.rs:61-88 | a lookup leaves the expected leaders and ranks unchanged |
| Scenarios.UniteTracks | src/unionfind.rs:97-115 | a union relabels both groups to the leader chosen by rank (the first argument's on a tie) and gives it the summed rank |
| Scenarios.TrackedFind | src/unionfind.rs:93-95 | a lookup in a scenario reports the expected leader, or None for a key the structure does not hold |
| Scenarios.TrackedUnion | src/unionfind.rs:97-115 | a union in a scenario reports the leader chosen by rank and merges the two groups, or reports None and leaves the picture unchanged when a key is missing |
| Scenarios.InsertRange | src/unionfind.rs:124-129 | inserting 0 to n - 1 into a new structure makes every key its own leader with rank 1 |
| Scenarios.UnionFindScenario | src/unionfind.rs:122-146 | after the test's inserts and unions, the leaders of keys 0 to 9 are 0, 0, 0, 0, 4, 5, 6, 6, 6, 6 |
| Scenarios.StringScenario | src/unionfind.rs:148-173 | unions or lookups naming the missing key give None; a and c share a leader and a and d do not; after uniting a and d, a and e share the leader "a" |

## Left out

- Interior mutability is not modelled: the map sits behind a `RefCell` and lookups take `&self` (src/unionfind.rs:38, 61, 93). In the model every lookup is a method that `modifies` the object.
- Shared ownership is not modelled. Leaders are stored and returned as `Rc<T>`; the model stores and returns the key value itself, so equality of leaders is equality of values.
- Concurrent use is left out. The comment at src/unionfind.rs:90-92 says the structure is not safe to call concurrently, and the model is sequential.
- The derived `Debug`, `Clone` and `Default` and the optional serde derives (src/unionfind.rs:34-35) are left out. `Default` and `new` both appear as the constructor.
- Insertion order is left out. The map is an `IndexMap`, which remembers insertion order; no operation of the crate reads that order, so the model uses an unordered `map`.
- `Rank` is `usize`, so the rank sum at src/unionfind.rs:112 could overflow in principle. The model uses unbounded naturals. `Forest.LeaderRanksSum` shows that the sum of two different leaders' ranks is at most the number of keys, because the two groups are disjoint. So the sum cannot overflow for any map that fits in memory.
- The amortised cost bound claimed at src/unionfind.rs:90 is not modelled; only functional behaviour is.
- A union whose second key is missing is not free of side effects. It returns None, but the lookup of the first key has already compressed that key's path. `HashUnionFind.UnionFind.Union` states this as the code does it; the leaders of all keys are unchanged by it.
- The rank copy into path keys noted at src/unionfind.rs:83 is modelled as written. `Forest.CompressRanks` shows it keeps the rank invariants.
