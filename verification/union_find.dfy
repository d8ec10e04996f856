/**
 * The hash-keyed union-find: a class whose one piece of state is the map
 * from each key to its parent and rank. Lookups compress paths in place and
 * unions link the leader of the smaller group under the leader of the larger
 * one. Every method is specified through the value-level definitions of
 * Forest, and keeps the class invariant `Valid`.
 */
module HashUnionFind {
  import opened Forest

  datatype Option<T> = None | Some(value: T)

  /**
   * The first loop of a lookup: follows parents from `key` up to its leader,
   * collecting every key passed on the way. Returns the leader, its rank
   * and the keys passed.
   */
  method WalkToLeader<T>(ps: Parents<T>, ghost h: map<T, nat>, key: T) returns (leader: T, rank: nat, path: seq<T>)
    requires Wf(ps, h) && key in ps
    ensures leader == Leader(ps, h, key) && rank == ps[leader].1
    ensures path == Path(ps, h, key)
  {
    var prev := key;
    leader := ps[prev].0;
    rank := ps[prev].1;
    path := [];
    while leader != prev
      invariant prev in ps && leader == ps[prev].0 && rank == ps[prev].1
      invariant Leader(ps, h, prev) == Leader(ps, h, key)
      invariant Path(ps, h, key) == path + Path(ps, h, prev)
      decreases Above(h, prev)
    {
      AboveShrinks(h, prev, leader);
      path := path + [prev];
      prev := leader;
      leader := ps[prev].0;
      rank := ps[prev].1;
    }
  }

  /**
   * The second loop of a lookup: points every key of `path` at the entry
   * `v`, one key at a time.
   */
  method Repoint<T>(ps: Parents<T>, path: seq<T>, v: (T, nat)) returns (r: Parents<T>)
    requires forall j {:trigger j in path} :: j in path ==> j in ps
    ensures r == Redirect(ps, path, v)
  {
    r := ps;
    for i := 0 to |path|
      invariant r == Redirect(ps, path[..i], v)
    {
      assert path[i] in path;
      RedirectStep(ps, path, i, v);
      r := r[path[i] := v];
    }
    assert path[..|path|] == path;
  }

  class UnionFind<T(==)> {
    /** Each key's current parent (itself for a leader) and rank. */
    var parents: Parents<T>
    /** Witness that parent chains are acyclic. */
    ghost var height: map<T, nat>

    ghost predicate Valid()
      reads this
    {
      Inv(parents, height)
    }

    /** An empty union-find. */
    constructor ()
      ensures Valid()
      ensures parents == map[]
    {
      parents := map[];
      height := map[];
    }

    /** The number of keys; it bounds every rank. */
    function Size(): (n: nat)
      reads this
      requires Valid()
      ensures n == |parents.Keys|
      ensures forall k {:trigger parents[k].1} :: k in parents ==> 1 <= parents[k].1 <= n
    {
      RanksBounded(parents, height);
      |parents|
    }

    /** Adds `t` as a group of its own; a key already present is left alone. */
    method Insert(t: T)
      requires Valid()
      modifies this
      ensures Valid()
      ensures t in old(parents) ==> parents == old(parents) && height == old(height)
      ensures t !in old(parents) ==> parents == old(parents)[t := (t, 1)] && height == old(height)[t := 0]
      ensures |parents| == if t in old(parents) then |old(parents)| else |old(parents)| + 1
      ensures t in parents && Leader(parents, height, t) == (if t in old(parents) then Leader(old(parents), old(height), t) else t)
      ensures forall j {:trigger Leader(parents, height, j)} :: j in old(parents) ==>
        Leader(parents, height, j) == Leader(old(parents), old(height), j)
    {
      if t in parents {
        return;
      }
      InsertInv(parents, height, t);
      parents := parents[t := (t, 1)];
      height := height[t := 0];
    }

    /**
     * Walks from `key` to its leader, then points every key passed on the
     * way straight at the leader with the leader's rank. Returns the leader
     * and its rank, or None for a key that is not present.
     */
    method InnerFind(key: T) returns (r: Option<(T, nat)>)
      requires Valid()
      modifies this
      ensures Valid() && height == old(height)
      ensures r.None? <==> key !in old(parents)
      ensures key !in old(parents) ==> parents == old(parents)
      ensures key in old(parents) ==>
        && r == Some((Leader(old(parents), height, key), old(parents)[Leader(old(parents), height, key)].1))
        && parents == Compress(old(parents), height, key)
    {
      var ps := parents;
      if key !in ps {
        return None;
      }
      var current, currentRank, toUpdate := WalkToLeader(ps, height, key);
      ps := Repoint(ps, toUpdate, (current, currentRank));
      CompressInv(parents, height, key);
      parents := ps;
      r := Some((current, currentRank));
    }

    /** The leader of `key`'s group, or None for a key that is not present. */
    method Find(key: T) returns (r: Option<T>)
      requires Valid()
      modifies this
      ensures Valid() && height == old(height)
      ensures r.None? <==> key !in old(parents)
      ensures key in old(parents) ==>
        && r == Some(Leader(old(parents), height, key))
        && parents == Compress(old(parents), height, key)
      ensures key !in old(parents) ==> parents == old(parents)
    {
      var found := InnerFind(key);
      match found
      case None => r := None;
      case Some((leader, _)) => r := Some(leader);
    }

    /**
     * Merges the groups of `a` and `b` and returns the leader of the merged
     * group, or None when either key is missing. The leader of the group
     * with the strictly larger rank wins, the first argument's on a tie.
     */
    method Union(a: T, b: T) returns (r: Option<T>)
      requires Valid()
      modifies this
      ensures Valid()
      ensures r.None? <==> a !in old(parents) || b !in old(parents)
      ensures a !in old(parents) ==> parents == old(parents) && height == old(height)
      ensures a in old(parents) && b !in old(parents) ==>
        parents == Compress(old(parents), old(height), a) && height == old(height)
      ensures a in old(parents) && b in old(parents) ==>
        && parents == Unite(old(parents), old(height), a, b)
        && height == UniteHeight(old(parents), old(height), a, b)
        && r == Some(UnionLeader(old(parents), old(height), a, b))
    {
      ghost var m0, h := parents, height;
      var fa := InnerFind(a);
      if fa.None? {
        return None;
      }
      ghost var m1 := parents;
      var fb := InnerFind(b);
      if fb.None? {
        return None;
      }
      var x, xRank := fa.value.0, fa.value.1;
      var y, yRank := fb.value.0, fb.value.1;
      var ps := parents;
      UniteSteps(m0, m1, ps, h, a, b, x, xRank, y, yRank);
      if x == y {
        return Some(x);
      }
      LinkStep(ps, x, y, xRank, yRank);
      if yRank > xRank {
        x, y := y, x;
      }
      ps := ps[y := (x, xRank + yRank)][x := (x, xRank + yRank)];
      parents := ps;
      height := UniteHeight(m0, h, a, b);
      r := Some(x);
    }
  }
}
