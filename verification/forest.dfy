/**
 * The parent map of the hash-keyed union-find, as a value.
 *
 * Every key maps to a pair: its current parent (the key itself when it is a
 * root, the leader of its group) and a rank. Nothing in the map itself rules
 * out a cycle of parent links, so each map travels with a ghost height map
 * `h` that witnesses acyclicity: following a link out of a non-root strictly
 * raises the height. Leaders, the walked path, path compression and the
 * linking step of a union are defined here once and the lemmas about them
 * are proved here; the class in HashUnionFind is specified through them.
 */
module Forest {

  /** Each key's parent and rank. */
  type Parents<T> = map<T, (T, nat)>

  /** `k` is a leader: its parent is itself. */
  ghost predicate IsRoot<T>(m: Parents<T>, k: T)
  {
    k in m && m[k].0 == k
  }

  /**
   * Well-formed: every parent is itself a key, and `h` (defined on exactly
   * the keys) strictly grows along every link out of a non-root, so parent
   * chains are acyclic and end at a root.
   */
  ghost predicate Wf<T>(m: Parents<T>, h: map<T, nat>)
  {
    && m.Keys == h.Keys
    && (forall k {:trigger m[k].0} :: k in m ==> m[k].0 in m)
    && (forall k {:trigger m[k].0} :: k in m && m[k].0 != k ==> h[k] < h[m[k].0])
  }

  /** The keys strictly higher than `k`: shrinks at every step towards a root. */
  ghost function Above<T>(h: map<T, nat>, k: T): set<T>
    requires k in h
  {
    set j | j in h && h[k] < h[j]
  }

  lemma {:induction false} AboveShrinks<T>(h: map<T, nat>, k: T, p: T)
    requires k in h && p in h && h[k] < h[p]
    ensures Above(h, p) < Above(h, k)
  {
    assert p in Above(h, k) && p !in Above(h, p);
  }

  /** The leader of `k`: the self-pointing key reached by following parent links. */
  ghost function Leader<T>(m: Parents<T>, h: map<T, nat>, k: T): (r: T)
    requires Wf(m, h) && k in m
    ensures IsRoot(m, r)
    ensures r == k || h[k] < h[r]
    decreases Above(h, k)
  {
    var p := m[k].0;
    if p == k then k
    else
      AboveShrinks(h, k, p);
      Leader(m, h, p)
  }

  /**
   * The non-root keys visited on the walk from `k` to its leader, in order:
   * exactly the keys a lookup of `k` compresses.
   */
  ghost function Path<T>(m: Parents<T>, h: map<T, nat>, k: T): (p: seq<T>)
    requires Wf(m, h) && k in m
    ensures p == [] <==> IsRoot(m, k)
    ensures forall j {:trigger j in p} :: j in p ==> j in m && !IsRoot(m, j) && Leader(m, h, j) == Leader(m, h, k)
    decreases Above(h, k)
  {
    var q := m[k].0;
    if q == k then []
    else
      AboveShrinks(h, k, q);
      [k] + Path(m, h, q)
  }

  /** Two keys are in the same group when they have the same leader. */
  ghost predicate SameGroup<T>(m: Parents<T>, h: map<T, nat>, a: T, b: T)
    requires Wf(m, h) && a in m && b in m
  {
    Leader(m, h, a) == Leader(m, h, b)
  }

  /** The group led by `r`: every key whose leader is `r`. */
  ghost function Group<T>(m: Parents<T>, h: map<T, nat>, r: T): set<T>
    requires Wf(m, h)
  {
    set j | j in m && Leader(m, h, j) == r
  }

  /** Every rank is positive. */
  ghost predicate RanksPositive<T>(m: Parents<T>)
  {
    forall k {:trigger m[k].1} :: k in m ==> 1 <= m[k].1
  }

  /** No key outranks its parent. */
  ghost predicate RanksMonotone<T>(m: Parents<T>)
    requires forall k {:trigger m[k].0} :: k in m ==> m[k].0 in m
  {
    forall k, p {:trigger m[k].0, m[p].1} :: k in m && p == m[k].0 ==> m[k].1 <= m[p].1
  }

  /** A root's rank is the number of keys in its group. */
  ghost predicate RootRanks<T>(m: Parents<T>, h: map<T, nat>)
    requires Wf(m, h)
  {
    forall r {:trigger IsRoot(m, r)} :: r in m && IsRoot(m, r) ==> m[r].1 == |Group(m, h, r)|
  }

  /**
   * Rank bookkeeping: every rank is positive and at most its parent's rank,
   * and a root's rank is the number of keys in its group.
   */
  ghost predicate RanksOk<T>(m: Parents<T>, h: map<T, nat>)
    requires Wf(m, h)
  {
    RanksPositive(m) && RanksMonotone(m) && RootRanks(m, h)
  }

  /** The invariant the union-find keeps between operations. */
  ghost predicate Inv<T>(m: Parents<T>, h: map<T, nat>)
  {
    Wf(m, h) && RanksOk(m, h)
  }

  // ---------------------------------------------------------------------
  // Ranks and group sizes
  // ---------------------------------------------------------------------

  /** Ranks never decrease along a chain, so no key outranks its leader. */
  lemma {:induction false} RankBelowLeader<T>(m: Parents<T>, h: map<T, nat>, k: T)
    requires Inv(m, h) && k in m
    ensures m[k].1 <= m[Leader(m, h, k)].1
    decreases Above(h, k)
  {
    var p := m[k].0;
    if p != k {
      AboveShrinks(h, k, p);
      RankBelowLeader(m, h, p);
    }
  }

  /** A group holds at most every key. */
  lemma {:induction false} GroupBounded<T>(m: Parents<T>, h: map<T, nat>, r: T)
    requires Wf(m, h)
    ensures |Group(m, h, r)| <= |m|
  {
    var g := Group(m, h, r);
    assert m.Keys * g == g;
    assert |m.Keys - g| == |m.Keys| - |g|;
  }

  /** Every rank lies between 1 and the number of keys. */
  lemma {:induction false} RankBounded<T>(m: Parents<T>, h: map<T, nat>, k: T)
    requires Inv(m, h) && k in m
    ensures 1 <= m[k].1 <= |m|
  {
    var r := Leader(m, h, k);
    RankBelowLeader(m, h, k);
    GroupBounded(m, h, r);
  }

  /** The bound for every key at once: no rank exceeds the number of keys. */
  lemma {:induction false} RanksBounded<T>(m: Parents<T>, h: map<T, nat>)
    requires Inv(m, h)
    ensures forall k {:trigger m[k].1} :: k in m ==> 1 <= m[k].1 <= |m|
  {
    forall k {:trigger m[k].1} | k in m
      ensures 1 <= m[k].1 <= |m|
    {
      RankBounded(m, h, k);
    }
  }

  // ---------------------------------------------------------------------
  // Inserting a fresh key
  // ---------------------------------------------------------------------

  /** A fresh self-rooted key keeps the map well-formed. */
  lemma {:induction false} InsertWf<T>(m: Parents<T>, h: map<T, nat>, t: T)
    requires Wf(m, h) && t !in m
    ensures Wf(m[t := (t, 1)], h[t := 0])
  {
    var m', h' := m[t := (t, 1)], h[t := 0];
    forall k {:trigger m'[k].0} | k in m'
      ensures m'[k].0 in m'
    {
      if k != t {
        assert m'[k] == m[k];
      }
    }
    forall k {:trigger m'[k].0} | k in m' && m'[k].0 != k
      ensures h'[k] < h'[m'[k].0]
    {
      assert k != t && m'[k] == m[k];
      assert m[k].0 in m;
    }
  }

  /** Adding a fresh self-rooted key leaves every existing leader alone. */
  lemma {:induction false} InsertKeepsLeader<T>(m: Parents<T>, h: map<T, nat>, t: T, j: T)
    requires Wf(m, h) && t !in m && j in m
    ensures Wf(m[t := (t, 1)], h[t := 0])
    ensures Leader(m[t := (t, 1)], h[t := 0], j) == Leader(m, h, j)
    decreases Above(h, j)
  {
    InsertWf(m, h, t);
    var m', h' := m[t := (t, 1)], h[t := 0];
    var p := m[j].0;
    assert m'[j] == m[j];
    if p != j {
      AboveShrinks(h, j, p);
      InsertKeepsLeader(m, h, t, p);
    }
  }

  /** Inserting a fresh key as a root of rank 1 keeps the invariant. */
  lemma {:induction false} InsertInv<T>(m: Parents<T>, h: map<T, nat>, t: T)
    requires Inv(m, h) && t !in m
    ensures Inv(m[t := (t, 1)], h[t := 0])
    ensures Leader(m[t := (t, 1)], h[t := 0], t) == t
    ensures forall j {:trigger Leader(m[t := (t, 1)], h[t := 0], j)} :: j in m ==> Leader(m[t := (t, 1)], h[t := 0], j) == Leader(m, h, j)
  {
    InsertWf(m, h, t);
    var m', h' := m[t := (t, 1)], h[t := 0];
    forall j {:trigger Leader(m', h', j)} | j in m
      ensures Leader(m', h', j) == Leader(m, h, j)
    {
      InsertKeepsLeader(m, h, t, j);
    }
    assert Leader(m', h', t) == t;
    forall k {:trigger m'[k].0} | k in m'
      ensures 1 <= m'[k].1 <= m'[m'[k].0].1
    {
      if k != t {
        assert m'[k] == m[k] && m[k].0 in m;
        assert m'[m[k].0] == m[m[k].0];
      }
    }
    forall r | r in m' && IsRoot(m', r)
      ensures m'[r].1 == |Group(m', h', r)|
    {
      if r == t {
        forall j {:trigger Leader(m', h', j)} | j in m' ensures Leader(m', h', j) == t <==> j == t {
          if j != t {
            assert IsRoot(m, Leader(m, h, j));
          }
        }
        assert Group(m', h', t) == {t};
      } else {
        assert m'[r] == m[r] && IsRoot(m, r);
        forall j ensures j in Group(m', h', r) <==> j in Group(m, h, r) {
          if j == t {
            assert Leader(m', h', t) == t;
          }
        }
        assert Group(m', h', r) == Group(m, h, r);
      }
    }
  }

  // ---------------------------------------------------------------------
  // Path compression
  // ---------------------------------------------------------------------

  /** Two maps with the same keys and the same entry at every key are equal. */
  lemma {:induction false} SameEntries<K, V>(a: map<K, V>, b: map<K, V>)
    requires a.Keys == b.Keys
    requires forall j {:trigger a[j]} :: j in a ==> a[j] == b[j]
    ensures a == b
  {
  }

  /** `m` with every key of `path` set to `v`; nothing else moves. */
  function Redirect<T>(m: Parents<T>, path: seq<T>, v: (T, nat)): (r: Parents<T>)
    ensures r.Keys == m.Keys
    ensures forall j {:trigger r[j].0} {:trigger r[j].1} :: j in m ==> r[j] == if j in path then v else m[j]
  {
    map j | j in m :: if j in path then v else m[j]
  }

  /** Redirecting one more key of a path is one more map update. */
  lemma {:induction false} RedirectStep<T>(m: Parents<T>, path: seq<T>, i: nat, v: (T, nat))
    requires i < |path| && path[i] in m
    ensures Redirect(m, path[..i + 1], v) == Redirect(m, path[..i], v)[path[i] := v]
  {
    var r1, r2 := Redirect(m, path[..i + 1], v), Redirect(m, path[..i], v)[path[i] := v];
    assert path[..i + 1] == path[..i] + [path[i]];
    forall k {:trigger r1[k]} | k in m
      ensures r1[k] == r2[k]
    {
      assert k in path[..i + 1] <==> k in path[..i] || k == path[i];
      assert r1[k].0 == r2[k].0;
    }
  }

  /** Pointing keys below a root directly at that root keeps the map well-formed. */
  lemma {:induction false} RedirectWf<T>(m: Parents<T>, h: map<T, nat>, path: seq<T>, root: T, rank: nat)
    requires Wf(m, h) && IsRoot(m, root)
    requires forall j {:trigger j in path} :: j in path ==> j in m && h[j] < h[root]
    ensures Wf(Redirect(m, path, (root, rank)), h)
  {
    var r := Redirect(m, path, (root, rank));
    forall j {:trigger r[j].0} | j in r
      ensures r[j].0 in r
    {
      if j !in path {
        assert r[j] == m[j];
      }
    }
    forall j {:trigger r[j].0} | j in r && r[j].0 != j
      ensures h[j] < h[r[j].0]
    {
      if j !in path {
        assert r[j] == m[j];
      }
    }
  }

  /** Every key on the walked path of `k` sits strictly below its leader. */
  lemma {:induction false} PathBelowLeader<T>(m: Parents<T>, h: map<T, nat>, k: T)
    requires Wf(m, h) && k in m
    ensures forall j {:trigger j in Path(m, h, k)} :: j in Path(m, h, k) ==> j in m && h[j] < h[Leader(m, h, k)]
  {
    var root := Leader(m, h, k);
    forall j | j in Path(m, h, k)
      ensures j in m && h[j] < h[root]
    {
      assert Leader(m, h, j) == root && !IsRoot(m, j);
    }
  }

  /**
   * The map after a lookup of `k`: every key on the walked path now points
   * straight at the leader and carries the leader's rank. Roots and the
   * keys of every other group keep their entries.
   */
  ghost function Compress<T>(m: Parents<T>, h: map<T, nat>, k: T): (r: Parents<T>)
    requires Wf(m, h) && k in m
    ensures r.Keys == m.Keys
    ensures Wf(r, h)
    ensures forall j {:trigger IsRoot(m, j), r[j]} :: j in m && IsRoot(m, j) ==> r[j] == m[j]
    ensures forall j {:trigger Leader(m, h, j), r[j]} :: j in m && Leader(m, h, j) != Leader(m, h, k) ==> r[j] == m[j]
  {
    var root := Leader(m, h, k);
    PathBelowLeader(m, h, k);
    RedirectWf(m, h, Path(m, h, k), root, m[root].1);
    Redirect(m, Path(m, h, k), (root, m[root].1))
  }

  /** Compression changes no key's leader. */
  lemma {:induction false} CompressKeepsLeader<T>(m: Parents<T>, h: map<T, nat>, k: T, j: T)
    requires Wf(m, h) && k in m && j in m
    ensures Leader(Compress(m, h, k), h, j) == Leader(m, h, j)
    decreases Above(h, j)
  {
    var r := Compress(m, h, k);
    var root := Leader(m, h, k);
    var path := Path(m, h, k);
    assert r[root] == m[root];
    assert Leader(r, h, root) == root;
    if j in path {
      assert r[j] == (root, m[root].1);
      assert Leader(m, h, j) == root && j != root;
    } else {
      assert r[j] == m[j];
      var p := m[j].0;
      if p != j {
        AboveShrinks(h, j, p);
        CompressKeepsLeader(m, h, k, p);
      }
    }
  }

  /** Every key on the walked path, `k` first, ends up pointing at the leader with its rank. */
  lemma {:induction false} CompressFlattens<T>(m: Parents<T>, h: map<T, nat>, k: T)
    requires Wf(m, h) && k in m
    ensures Compress(m, h, k)[k] == (Leader(m, h, k), m[Leader(m, h, k)].1)
    ensures forall j {:trigger j in Path(m, h, k)} :: j in Path(m, h, k) ==>
      Compress(m, h, k)[j] == (Leader(m, h, k), m[Leader(m, h, k)].1)
  {
    var r := Compress(m, h, k);
    var root := Leader(m, h, k);
    if k != root {
      assert k in Path(m, h, k);
    }
    assert r[root] == m[root];
  }

  /** Looking up a root compresses nothing. */
  lemma {:induction false} CompressRoot<T>(m: Parents<T>, h: map<T, nat>, k: T)
    requires Wf(m, h) && IsRoot(m, k)
    ensures Compress(m, h, k) == m
  {
    var r := Compress(m, h, k);
    assert Path(m, h, k) == [];
    forall j {:trigger r[j]} | j in m
      ensures r[j] == m[j]
    {
      assert j !in Path(m, h, k);
      assert r[j].0 == m[j].0;
    }
    SameEntries(r, m);
  }

  /** A second lookup of the same key changes nothing more. */
  lemma {:induction false} CompressIdempotent<T>(m: Parents<T>, h: map<T, nat>, k: T)
    requires Wf(m, h) && k in m
    ensures Compress(Compress(m, h, k), h, k) == Compress(m, h, k)
  {
    var r := Compress(m, h, k);
    var root := Leader(m, h, k);
    CompressFlattens(m, h, k);
    assert r[root] == m[root];
    if k == root {
      CompressRoot(r, h, k);
    } else {
      assert r[k] == (root, r[root].1);
      assert Path(r, h, root) == [];
      assert Path(r, h, k) == [k];
      var r2 := Compress(r, h, k);
      forall j {:trigger r2[j]} | j in r
        ensures r2[j] == r[j]
      {
        if j != k {
          assert j !in Path(r, h, k);
          assert r2[j].0 == r[j].0;
        } else {
          CompressKeepsLeader(m, h, k, k);
          CompressFlattens(r, h, k);
        }
      }
      SameEntries(r2, r);
    }
  }

  /** Compression keeps ranks positive and no larger than the parent's. */
  lemma {:induction false} CompressRanks<T>(m: Parents<T>, h: map<T, nat>, k: T)
    requires Inv(m, h) && k in m
    ensures RanksPositive(Compress(m, h, k)) && RanksMonotone(Compress(m, h, k))
  {
    var r := Compress(m, h, k);
    var root := Leader(m, h, k);
    var path := Path(m, h, k);
    assert r[root] == m[root];
    forall j {:trigger r[j].1} | j in r
      ensures 1 <= r[j].1
    {
      if j !in path {
        assert r[j] == m[j];
      }
    }
    forall j, p {:trigger r[j].0, r[p].1} | j in r && p == r[j].0
      ensures r[j].1 <= r[p].1
    {
      if j in path {
        assert r[j] == (root, m[root].1);
      } else {
        assert r[j] == m[j];
        assert m[j].1 <= m[p].1;
        if p in path {
          assert r[p] == (root, m[root].1);
          assert Leader(m, h, p) == root;
          RankBelowLeader(m, h, p);
        } else {
          assert r[p] == m[p];
        }
      }
    }
  }

  /** Compression keeps the invariant and every key's leader. */
  lemma {:induction false} CompressInv<T>(m: Parents<T>, h: map<T, nat>, k: T)
    requires Inv(m, h) && k in m
    ensures Inv(Compress(m, h, k), h)
    ensures forall j {:trigger Leader(Compress(m, h, k), h, j)} :: j in m ==> Leader(Compress(m, h, k), h, j) == Leader(m, h, j)
  {
    var r := Compress(m, h, k);
    var path := Path(m, h, k);
    forall j {:trigger Leader(r, h, j)} | j in m
      ensures Leader(r, h, j) == Leader(m, h, j)
    {
      CompressKeepsLeader(m, h, k, j);
    }
    CompressRanks(m, h, k);
    forall x | x in r && IsRoot(r, x)
      ensures r[x].1 == |Group(r, h, x)|
    {
      if x in path {
        assert false;
      }
      assert r[x] == m[x] && IsRoot(m, x);
      forall j ensures j in Group(r, h, x) <==> j in Group(m, h, x) {
        if j in m {
          assert Leader(r, h, j) == Leader(m, h, j);
        }
      }
      assert Group(r, h, x) == Group(m, h, x);
    }
  }

  // ---------------------------------------------------------------------
  // Linking two leaders
  // ---------------------------------------------------------------------

  /** The union step: the loser points at the winner, both carry rank `s`. */
  function Linked<T>(m: Parents<T>, winner: T, loser: T, s: nat): Parents<T>
  {
    m[loser := (winner, s)][winner := (winner, s)]
  }

  /** Heights after linking: only the winner may have to rise above the loser. */
  function LinkedHeight<T>(h: map<T, nat>, winner: T, loser: T): map<T, nat>
    requires winner in h && loser in h
  {
    h[winner := if h[loser] < h[winner] then h[winner] else h[loser] + 1]
  }

  /** Linking one root under another keeps the map well-formed. */
  lemma {:induction false} LinkWf<T>(m: Parents<T>, h: map<T, nat>, winner: T, loser: T, s: nat)
    requires Wf(m, h) && IsRoot(m, winner) && IsRoot(m, loser) && winner != loser
    ensures Wf(Linked(m, winner, loser, s), LinkedHeight(h, winner, loser))
  {
    var m', h' := Linked(m, winner, loser, s), LinkedHeight(h, winner, loser);
    forall k {:trigger m'[k].0} | k in m'
      ensures m'[k].0 in m'
    {
      if k != winner && k != loser {
        assert m'[k] == m[k];
      }
    }
    forall k {:trigger m'[k].0} | k in m' && m'[k].0 != k
      ensures h'[k] < h'[m'[k].0]
    {
      if k != winner && k != loser {
        assert m'[k] == m[k];
        var p := m[k].0;
        assert h[k] < h[p];
        assert h[p] <= h'[p];
      }
    }
  }

  /** After linking, the loser's group follows the winner; no other leader moves. */
  lemma {:induction false} LinkLeader<T>(m: Parents<T>, h: map<T, nat>, winner: T, loser: T, s: nat, j: T)
    requires Wf(m, h) && IsRoot(m, winner) && IsRoot(m, loser) && winner != loser && j in m
    ensures Wf(Linked(m, winner, loser, s), LinkedHeight(h, winner, loser))
    ensures Leader(Linked(m, winner, loser, s), LinkedHeight(h, winner, loser), j)
         == if Leader(m, h, j) == loser then winner else Leader(m, h, j)
    decreases Above(h, j)
  {
    LinkWf(m, h, winner, loser, s);
    var m', h' := Linked(m, winner, loser, s), LinkedHeight(h, winner, loser);
    assert Leader(m', h', winner) == winner;
    if j == loser {
      assert Leader(m', h', loser) == Leader(m', h', winner);
    } else if j != winner {
      assert m'[j] == m[j];
      var p := m[j].0;
      if p != j {
        AboveShrinks(h, j, p);
        LinkLeader(m, h, winner, loser, s, p);
      }
    }
  }

  /** Linking moves the loser's whole group into the winner's. */
  lemma {:induction false} LinkGroupWinner<T>(m: Parents<T>, h: map<T, nat>, winner: T, loser: T, s: nat)
    requires Wf(m, h) && IsRoot(m, winner) && IsRoot(m, loser) && winner != loser
    ensures Wf(Linked(m, winner, loser, s), LinkedHeight(h, winner, loser))
    ensures Group(Linked(m, winner, loser, s), LinkedHeight(h, winner, loser), winner)
         == Group(m, h, winner) + Group(m, h, loser)
  {
    LinkWf(m, h, winner, loser, s);
    var m', h' := Linked(m, winner, loser, s), LinkedHeight(h, winner, loser);
    var gw, gl := Group(m, h, winner), Group(m, h, loser);
    forall j ensures j in Group(m', h', winner) <==> j in gw + gl {
      if j in m {
        LinkLeader(m, h, winner, loser, s, j);
      }
    }
  }

  /** Linking leaves the group of every third leader as it was. */
  lemma {:induction false} LinkGroupOther<T>(m: Parents<T>, h: map<T, nat>, winner: T, loser: T, s: nat, x: T)
    requires Wf(m, h) && IsRoot(m, winner) && IsRoot(m, loser) && winner != loser
    requires x != winner && x != loser
    ensures Wf(Linked(m, winner, loser, s), LinkedHeight(h, winner, loser))
    ensures Group(Linked(m, winner, loser, s), LinkedHeight(h, winner, loser), x) == Group(m, h, x)
  {
    LinkWf(m, h, winner, loser, s);
    var m', h' := Linked(m, winner, loser, s), LinkedHeight(h, winner, loser);
    forall j ensures j in Group(m', h', x) <==> j in Group(m, h, x) {
      if j in m {
        LinkLeader(m, h, winner, loser, s, j);
      }
    }
  }

  /** Different leaders have disjoint groups. */
  lemma {:induction false} GroupsDisjoint<T>(m: Parents<T>, h: map<T, nat>, a: T, b: T)
    requires Wf(m, h) && a != b
    ensures Group(m, h, a) * Group(m, h, b) == {}
  {
    assert forall j {:trigger j in Group(m, h, a)} :: j in Group(m, h, a) ==> j !in Group(m, h, b);
  }

  /**
   * The rank sum a union writes never exceeds the number of keys: two
   * different leaders' ranks count two disjoint groups.
   */
  lemma {:induction false} LeaderRanksSum<T>(m: Parents<T>, h: map<T, nat>, la: T, lb: T)
    requires Inv(m, h) && IsRoot(m, la) && IsRoot(m, lb) && la != lb
    ensures m[la].1 + m[lb].1 <= |m|
  {
    var ga, gb := Group(m, h, la), Group(m, h, lb);
    GroupsDisjoint(m, h, la, lb);
    assert ga + gb <= m.Keys;
    assert |ga + gb| == |ga| + |gb|;
    assert |m.Keys - (ga + gb)| == |m.Keys| - |ga + gb|;
  }

  /** Linking with the sum of two positive ranks keeps ranks positive and monotone. */
  lemma {:induction false} LinkRankOrder<T>(m: Parents<T>, h: map<T, nat>, winner: T, loser: T, s: nat)
    requires Wf(m, h) && RanksPositive(m) && RanksMonotone(m)
    requires IsRoot(m, winner) && IsRoot(m, loser) && winner != loser
    requires s == m[winner].1 + m[loser].1
    ensures Wf(Linked(m, winner, loser, s), LinkedHeight(h, winner, loser))
    ensures RanksPositive(Linked(m, winner, loser, s))
    ensures RanksMonotone(Linked(m, winner, loser, s))
  {
    LinkWf(m, h, winner, loser, s);
    var m' := Linked(m, winner, loser, s);
    forall k {:trigger m'[k].1} | k in m'
      ensures 1 <= m'[k].1
    {
      if k != winner && k != loser {
        assert m'[k] == m[k];
      }
    }
    forall k {:trigger m'[k].0} | k in m'
      ensures m'[k].1 <= m'[m'[k].0].1
    {
      if k != winner && k != loser {
        assert m'[k] == m[k];
        var p := m[k].0;
        assert m[k].1 <= m[p].1;
        if p != winner && p != loser {
          assert m'[p] == m[p];
        }
      }
    }
  }

  /** Linking with the sum of the ranks gives the winner the size of the merged group. */
  lemma {:induction false} LinkRootRanks<T>(m: Parents<T>, h: map<T, nat>, winner: T, loser: T, s: nat)
    requires Wf(m, h) && RootRanks(m, h)
    requires IsRoot(m, winner) && IsRoot(m, loser) && winner != loser
    requires s == m[winner].1 + m[loser].1
    ensures Wf(Linked(m, winner, loser, s), LinkedHeight(h, winner, loser))
    ensures RootRanks(Linked(m, winner, loser, s), LinkedHeight(h, winner, loser))
  {
    LinkWf(m, h, winner, loser, s);
    var m', h' := Linked(m, winner, loser, s), LinkedHeight(h, winner, loser);
    forall x {:trigger IsRoot(m', x)} | x in m' && IsRoot(m', x)
      ensures m'[x].1 == |Group(m', h', x)|
    {
      if x == winner {
        LinkGroupWinner(m, h, winner, loser, s);
        GroupsDisjoint(m, h, winner, loser);
      } else {
        assert x != loser && m'[x] == m[x] && IsRoot(m, x);
        LinkGroupOther(m, h, winner, loser, s, x);
      }
    }
  }

  /**
   * Linking two different leaders with the sum of their ranks keeps the
   * invariant: the winner's group becomes the union of both groups, and
   * every other group is untouched. The linked map and heights are passed
   * in as `u` and `uh` so that callers can name them by their own terms.
   */
  lemma {:induction false} LinkInv<T>(m: Parents<T>, h: map<T, nat>, winner: T, loser: T, s: nat, u: Parents<T>, uh: map<T, nat>)
    requires Inv(m, h) && IsRoot(m, winner) && IsRoot(m, loser) && winner != loser
    requires s == m[winner].1 + m[loser].1
    requires u == Linked(m, winner, loser, s) && uh == LinkedHeight(h, winner, loser)
    ensures Inv(u, uh)
    ensures forall j {:trigger Leader(u, uh, j)} :: j in m ==>
      Leader(u, uh, j) == if Leader(m, h, j) == loser then winner else Leader(m, h, j)
  {
    LinkRankOrder(m, h, winner, loser, s);
    LinkRootRanks(m, h, winner, loser, s);
    forall j {:trigger Leader(u, uh, j)} | j in m
      ensures Leader(u, uh, j) == if Leader(m, h, j) == loser then winner else Leader(m, h, j)
    {
      LinkLeader(m, h, winner, loser, s, j);
    }
  }

  /**
   * The two lookups a union starts with: together they keep the invariant,
   * every leader, every root entry and every entry outside the two groups.
   */
  lemma {:induction false} CompressTwice<T>(m: Parents<T>, h: map<T, nat>, a: T, b: T)
    requires Inv(m, h) && a in m && b in m
    ensures Wf(Compress(m, h, a), h)
    ensures Inv(Compress(Compress(m, h, a), h, b), h)
    ensures Compress(Compress(m, h, a), h, b).Keys == m.Keys
    ensures forall j {:trigger Leader(Compress(Compress(m, h, a), h, b), h, j)} :: j in m ==>
      Leader(Compress(Compress(m, h, a), h, b), h, j) == Leader(m, h, j)
    ensures forall j {:trigger IsRoot(m, j), Compress(Compress(m, h, a), h, b)[j]} :: j in m && IsRoot(m, j) ==>
      Compress(Compress(m, h, a), h, b)[j] == m[j]
    ensures forall j {:trigger Leader(m, h, j), Compress(Compress(m, h, a), h, b)[j]} ::
      j in m && Leader(m, h, j) != Leader(m, h, a) && Leader(m, h, j) != Leader(m, h, b) ==>
      Compress(Compress(m, h, a), h, b)[j] == m[j]
  {
    var m1 := Compress(m, h, a);
    CompressInv(m, h, a);
    var m2 := Compress(m1, h, b);
    CompressInv(m1, h, b);
    forall j {:trigger Leader(m2, h, j)} | j in m
      ensures Leader(m2, h, j) == Leader(m, h, j)
    {
      assert Leader(m1, h, j) == Leader(m, h, j);
    }
    forall j {:trigger IsRoot(m, j), m2[j]} | j in m && IsRoot(m, j)
      ensures m2[j] == m[j]
    {
      assert m1[j] == m[j] && IsRoot(m1, j);
    }
    forall j {:trigger Leader(m, h, j), m2[j]} | j in m && Leader(m, h, j) != Leader(m, h, a) && Leader(m, h, j) != Leader(m, h, b)
      ensures m2[j] == m[j]
    {
      assert m1[j] == m[j];
      assert Leader(m1, h, j) == Leader(m, h, j) && Leader(m1, h, b) == Leader(m, h, b);
    }
  }

  // ---------------------------------------------------------------------
  // Union
  // ---------------------------------------------------------------------

  /**
   * The leader that wins a union: the second one only when its rank is
   * strictly larger, so a tie goes to the first argument's leader.
   */
  function Winner<T>(m: Parents<T>, la: T, lb: T): (w: T)
    requires la in m && lb in m
    ensures w == la || w == lb
    ensures m[la].1 <= m[w].1 && m[lb].1 <= m[w].1
    ensures w != la ==> m[la].1 < m[lb].1
  {
    if m[lb].1 > m[la].1 then lb else la
  }

  /**
   * The linking half of a union of two different leaders `la` and `lb`: the
   * loser goes under the winner and both carry the sum of the two ranks.
   */
  function Join<T>(m: Parents<T>, la: T, lb: T): Parents<T>
    requires la in m && lb in m
  {
    var w := Winner(m, la, lb);
    Linked(m, w, if w == la then lb else la, m[la].1 + m[lb].1)
  }

  /** The height witness after `Join`. */
  ghost function JoinHeight<T>(m: Parents<T>, h: map<T, nat>, la: T, lb: T): map<T, nat>
    requires la in m && lb in m && la in h && lb in h
  {
    var w := Winner(m, la, lb);
    LinkedHeight(h, w, if w == la then lb else la)
  }

  /**
   * Joining two different leaders keeps the invariant and the key set; the
   * two groups merge under the winner and every other leader stays.
   */
  lemma {:induction false} JoinInv<T>(m: Parents<T>, h: map<T, nat>, la: T, lb: T)
    requires Inv(m, h) && IsRoot(m, la) && IsRoot(m, lb) && la != lb
    ensures Inv(Join(m, la, lb), JoinHeight(m, h, la, lb))
    ensures Join(m, la, lb).Keys == m.Keys
    ensures forall j {:trigger Leader(Join(m, la, lb), JoinHeight(m, h, la, lb), j)} :: j in m ==>
      Leader(Join(m, la, lb), JoinHeight(m, h, la, lb), j)
        == if Leader(m, h, j) == la || Leader(m, h, j) == lb then Winner(m, la, lb) else Leader(m, h, j)
  {
    var w := Winner(m, la, lb);
    var l := if w == la then lb else la;
    var u, uh := Join(m, la, lb), JoinHeight(m, h, la, lb);
    LinkInv(m, h, w, l, m[la].1 + m[lb].1, u, uh);
    forall j {:trigger Leader(u, uh, j)} | j in m
      ensures Leader(u, uh, j) == if Leader(m, h, j) == la || Leader(m, h, j) == lb then w else Leader(m, h, j)
    {
    }
  }

  /** What joining writes: both leaders' entries, and nothing else. */
  lemma {:induction false} JoinFrame<T>(m: Parents<T>, la: T, lb: T)
    requires la in m && lb in m && la != lb
    ensures Join(m, la, lb).Keys == m.Keys
    ensures Join(m, la, lb)[la] == (Winner(m, la, lb), m[la].1 + m[lb].1)
    ensures Join(m, la, lb)[lb] == (Winner(m, la, lb), m[la].1 + m[lb].1)
    ensures forall j {:trigger Join(m, la, lb)[j]} :: j in m && j != la && j != lb ==> Join(m, la, lb)[j] == m[j]
  {
  }

  /** Merging two leaders: nothing to do when they are the same, a join otherwise. */
  function Merge<T>(m: Parents<T>, la: T, lb: T): Parents<T>
    requires la in m && lb in m
  {
    if la == lb then m else Join(m, la, lb)
  }

  /** The height witness after `Merge`. */
  ghost function MergeHeight<T>(m: Parents<T>, h: map<T, nat>, la: T, lb: T): map<T, nat>
    requires la in m && lb in m && la in h && lb in h
  {
    if la == lb then h else JoinHeight(m, h, la, lb)
  }

  /** Merging two leaders keeps the invariant and the key set. */
  lemma {:induction false} MergeInv<T>(m: Parents<T>, h: map<T, nat>, la: T, lb: T)
    requires Inv(m, h) && IsRoot(m, la) && IsRoot(m, lb)
    ensures Inv(Merge(m, la, lb), MergeHeight(m, h, la, lb))
    ensures Merge(m, la, lb).Keys == m.Keys
  {
    if la != lb {
      JoinInv(m, h, la, lb);
    }
  }

  /**
   * Merging two leaders puts both groups under the winner, which carries
   * the merged rank; every other leader and every other entry stays.
   */
  lemma {:induction false} MergeRelabels<T>(m: Parents<T>, h: map<T, nat>, la: T, lb: T)
    requires Inv(m, h) && IsRoot(m, la) && IsRoot(m, lb)
    ensures Inv(Merge(m, la, lb), MergeHeight(m, h, la, lb))
    ensures Merge(m, la, lb)[Winner(m, la, lb)]
         == (Winner(m, la, lb), if la == lb then m[la].1 else m[la].1 + m[lb].1)
    ensures forall j {:trigger Merge(m, la, lb)[j]} :: j in m && j != la && j != lb ==> Merge(m, la, lb)[j] == m[j]
    ensures forall j {:trigger Leader(Merge(m, la, lb), MergeHeight(m, h, la, lb), j)} :: j in m ==>
      Leader(Merge(m, la, lb), MergeHeight(m, h, la, lb), j)
        == if Leader(m, h, j) == la || Leader(m, h, j) == lb then Winner(m, la, lb) else Leader(m, h, j)
  {
    if la != lb {
      JoinInv(m, h, la, lb);
      JoinFrame(m, la, lb);
    }
  }

  /**
   * The link step of a union as the lookups leave it: with `xr` and `yr`
   * the ranks of the two leaders, pointing the one with the strictly
   * smaller rank (the second one on a tie) at the other, both carrying
   * `xr + yr`, is the merge of the two leaders.
   */
  lemma {:induction false} LinkStep<T>(m: Parents<T>, x: T, y: T, xr: nat, yr: nat)
    requires IsRoot(m, x) && IsRoot(m, y) && x != y && xr == m[x].1 && yr == m[y].1
    ensures yr > xr ==> m[x := (y, xr + yr)][y := (y, xr + yr)] == Merge(m, x, y) && Winner(m, x, y) == y
    ensures yr <= xr ==> m[y := (x, xr + yr)][x := (x, xr + yr)] == Merge(m, x, y) && Winner(m, x, y) == x
  {
  }

  /**
   * Merging the leaders `la` and `lb` of `m` in a map `m2` that agrees with
   * `m` on every leader and on every entry outside the two groups: the
   * result is stated against `m`.
   */
  lemma {:induction false} MergeAfter<T>(m: Parents<T>, m2: Parents<T>, h: map<T, nat>, la: T, lb: T)
    requires Inv(m, h) && Inv(m2, h) && m2.Keys == m.Keys
    requires IsRoot(m, la) && IsRoot(m, lb) && m2[la] == m[la] && m2[lb] == m[lb]
    requires forall j {:trigger Leader(m2, h, j)} :: j in m ==> Leader(m2, h, j) == Leader(m, h, j)
    requires forall j {:trigger Leader(m, h, j), m2[j]} ::
      j in m && Leader(m, h, j) != la && Leader(m, h, j) != lb ==> m2[j] == m[j]
    ensures Inv(Merge(m2, la, lb), MergeHeight(m2, h, la, lb))
    ensures Merge(m2, la, lb).Keys == m.Keys
    ensures Winner(m2, la, lb) == Winner(m, la, lb)
    ensures Merge(m2, la, lb)[Winner(m, la, lb)]
         == (Winner(m, la, lb), if la == lb then m[la].1 else m[la].1 + m[lb].1)
    ensures forall j {:trigger Leader(m, h, j), Merge(m2, la, lb)[j]} ::
      j in m && Leader(m, h, j) != la && Leader(m, h, j) != lb ==> Merge(m2, la, lb)[j] == m[j]
    ensures forall j {:trigger Leader(Merge(m2, la, lb), MergeHeight(m2, h, la, lb), j)} :: j in m ==>
      Leader(Merge(m2, la, lb), MergeHeight(m2, h, la, lb), j)
        == if Leader(m, h, j) == la || Leader(m, h, j) == lb then Winner(m, la, lb) else Leader(m, h, j)
  {
    MergeRelabels(m2, h, la, lb);
    var u, uh := Merge(m2, la, lb), MergeHeight(m2, h, la, lb);
    forall j {:trigger Leader(m, h, j), u[j]} | j in m && Leader(m, h, j) != la && Leader(m, h, j) != lb
      ensures u[j] == m[j]
    {
      assert j != la && j != lb;
    }
    forall j {:trigger Leader(u, uh, j)} | j in m
      ensures Leader(u, uh, j) == if Leader(m, h, j) == la || Leader(m, h, j) == lb then Winner(m, la, lb) else Leader(m, h, j)
    {
      assert Leader(m2, h, j) == Leader(m, h, j);
    }
  }

  /**
   * The map after a union of two present keys: the lookups of `a` and `b`
   * compress their paths, then their leaders are merged.
   */
  ghost function Unite<T>(m: Parents<T>, h: map<T, nat>, a: T, b: T): Parents<T>
    requires Wf(m, h) && a in m && b in m
  {
    Merge(Compress(Compress(m, h, a), h, b), Leader(m, h, a), Leader(m, h, b))
  }

  /** The height witness after a union. */
  ghost function UniteHeight<T>(m: Parents<T>, h: map<T, nat>, a: T, b: T): map<T, nat>
    requires Wf(m, h) && a in m && b in m
  {
    MergeHeight(Compress(Compress(m, h, a), h, b), h, Leader(m, h, a), Leader(m, h, b))
  }

  /**
   * A union keeps the invariant and the key set. The two groups merge under
   * the winner chosen by the ranks before the union, which becomes a root
   * carrying the merged rank; every other leader stays, and so does the
   * entry of every key outside the two groups. The leaders of `a` and `b`
   * are passed in as `la` and `lb`.
   */
  lemma {:induction false} UniteInv<T>(m: Parents<T>, h: map<T, nat>, a: T, b: T, la: T, lb: T)
    requires Inv(m, h) && a in m && b in m && la == Leader(m, h, a) && lb == Leader(m, h, b)
    ensures Inv(Unite(m, h, a, b), UniteHeight(m, h, a, b))
    ensures Unite(m, h, a, b).Keys == m.Keys
    ensures Winner(Compress(Compress(m, h, a), h, b), la, lb) == Winner(m, la, lb)
    ensures Unite(m, h, a, b)[Winner(m, la, lb)]
         == (Winner(m, la, lb), if la == lb then m[la].1 else m[la].1 + m[lb].1)
    ensures forall j {:trigger Leader(m, h, j), Unite(m, h, a, b)[j]} ::
      j in m && Leader(m, h, j) != la && Leader(m, h, j) != lb ==> Unite(m, h, a, b)[j] == m[j]
    ensures forall j {:trigger Leader(Unite(m, h, a, b), UniteHeight(m, h, a, b), j)} :: j in m ==>
      Leader(Unite(m, h, a, b), UniteHeight(m, h, a, b), j)
        == if Leader(m, h, j) == la || Leader(m, h, j) == lb then Winner(m, la, lb) else Leader(m, h, j)
  {
    CompressTwice(m, h, a, b);
    MergeAfter(m, Compress(Compress(m, h, a), h, b), h, la, lb);
  }

  /** The leader a union of `a` and `b` reports. */
  ghost function UnionLeader<T>(m: Parents<T>, h: map<T, nat>, a: T, b: T): T
    requires Wf(m, h) && a in m && b in m
  {
    Winner(m, Leader(m, h, a), Leader(m, h, b))
  }

  /**
   * The two lookups a union starts with, as they leave things: `m1` after
   * the lookup of `a`, `m2` after the lookup of `b`, and the leaders and
   * ranks the lookups returned. Both leaders are roots of `m2` with their
   * ranks unchanged, and the union is the merge of the two leaders in `m2`.
   */
  lemma {:induction false} UniteSteps<T>(m0: Parents<T>, m1: Parents<T>, m2: Parents<T>, h: map<T, nat>,
                                         a: T, b: T, x: T, xr: nat, y: T, yr: nat)
    requires Wf(m0, h) && a in m0 && b in m0
    requires m1 == Compress(m0, h, a) && b in m1 && m2 == Compress(m1, h, b)
    requires x == Leader(m0, h, a) && xr == m0[x].1
    requires y == Leader(m1, h, b) && yr == m1[y].1
    requires Inv(m2, h)
    ensures y == Leader(m0, h, b)
    ensures IsRoot(m2, x) && IsRoot(m2, y) && m2[x] == m0[x] && m2[y] == m0[y]
    ensures xr == m2[x].1 && yr == m2[y].1
    ensures Unite(m0, h, a, b) == Merge(m2, x, y)
    ensures UniteHeight(m0, h, a, b) == MergeHeight(m2, h, x, y)
    ensures UnionLeader(m0, h, a, b) == Winner(m2, x, y)
    ensures Inv(Unite(m0, h, a, b), UniteHeight(m0, h, a, b))
  {
    CompressKeepsLeader(m0, h, a, b);
    assert IsRoot(m0, x) && IsRoot(m0, y);
    assert m1[x] == m0[x] && m1[y] == m0[y] && IsRoot(m1, x) && IsRoot(m1, y);
    MergeInv(m2, h, x, y);
  }

  /** Union by size: the winner led the larger of the two groups. */
  lemma {:induction false} UniteBySize<T>(m: Parents<T>, h: map<T, nat>, a: T, b: T)
    requires Inv(m, h) && a in m && b in m
    ensures var w := Winner(m, Leader(m, h, a), Leader(m, h, b));
      && |Group(m, h, Leader(m, h, a))| <= |Group(m, h, w)|
      && |Group(m, h, Leader(m, h, b))| <= |Group(m, h, w)|
  {
    var la, lb := Leader(m, h, a), Leader(m, h, b);
    assert IsRoot(m, la) && IsRoot(m, lb);
  }

  /**
   * When every key of the groups led by `la` and `lb` moves to the leader
   * `w` and every other key keeps its leader, `a` and `b` end up together,
   * and two keys end up together exactly when they were together before or
   * each was in one of the two groups.
   */
  lemma {:induction false} RelabelJoins<T>(m: Parents<T>, h: map<T, nat>, u: Parents<T>, uh: map<T, nat>,
                                           a: T, b: T, la: T, lb: T, w: T, j: T, k: T)
    requires Wf(m, h) && Wf(u, uh) && u.Keys == m.Keys
    requires a in m && b in m && j in m && k in m
    requires la == Leader(m, h, a) && lb == Leader(m, h, b) && (w == la || w == lb)
    requires forall x {:trigger Leader(u, uh, x)} :: x in m ==>
      Leader(u, uh, x) == if Leader(m, h, x) == la || Leader(m, h, x) == lb then w else Leader(m, h, x)
    ensures SameGroup(u, uh, a, b)
    ensures SameGroup(u, uh, j, k)
      <==> SameGroup(m, h, j, k)
           || ((SameGroup(m, h, j, a) || SameGroup(m, h, j, b)) && (SameGroup(m, h, k, a) || SameGroup(m, h, k, b)))
  {
    var lj, lk := Leader(m, h, j), Leader(m, h, k);
    assert Leader(u, uh, a) == w == Leader(u, uh, b);
    assert Leader(u, uh, j) == if lj == la || lj == lb then w else lj;
    assert Leader(u, uh, k) == if lk == la || lk == lb then w else lk;
  }

  /**
   * After a union, `a` and `b` share a leader, and two keys share one
   * exactly when they did before or each was in one of the merged groups.
   */
  lemma {:induction false} UniteJoins<T>(m: Parents<T>, h: map<T, nat>, a: T, b: T, j: T, k: T)
    requires Inv(m, h) && a in m && b in m && j in m && k in m
    ensures Inv(Unite(m, h, a, b), UniteHeight(m, h, a, b))
    ensures SameGroup(Unite(m, h, a, b), UniteHeight(m, h, a, b), a, b)
    ensures SameGroup(Unite(m, h, a, b), UniteHeight(m, h, a, b), j, k)
      <==> SameGroup(m, h, j, k)
           || ((SameGroup(m, h, j, a) || SameGroup(m, h, j, b)) && (SameGroup(m, h, k, a) || SameGroup(m, h, k, b)))
  {
    var la, lb := Leader(m, h, a), Leader(m, h, b);
    UniteInv(m, h, a, b, la, lb);
    RelabelJoins(m, h, Unite(m, h, a, b), UniteHeight(m, h, a, b), a, b, la, lb, Winner(m, la, lb), j, k);
  }
}
