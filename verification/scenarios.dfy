/**
 * The two unit tests of the union-find, written against the class: each
 * scenario runs the same calls and its postcondition states the outcomes
 * the test asserts.
 *
 * To follow the calls, the scenarios carry a ghost picture of the state:
 * `lead` maps every key to its expected leader and `rk` maps every leader
 * to its expected rank. `Tracks` ties that picture to the real map, and one
 * lemma per operation moves the picture along.
 */
module Scenarios {
  import opened Forest
  import opened HashUnionFind

  /** The map holds exactly the keys of `lead`, with those leaders and ranks. */
  ghost predicate Pictured<T>(m: Parents<T>, h: map<T, nat>, lead: map<T, T>, rk: map<T, nat>)
    requires Wf(m, h)
  {
    && m.Keys == lead.Keys
    && (forall k {:trigger Leader(m, h, k)} :: k in lead ==>
          && Leader(m, h, k) == lead[k]
          && lead[k] in rk
          && m[lead[k]].1 == rk[lead[k]])
  }

  /** The invariant holds and the picture is accurate. */
  ghost predicate Tracks<T>(m: Parents<T>, h: map<T, nat>, lead: map<T, T>, rk: map<T, nat>)
  {
    Inv(m, h) && Pictured(m, h, lead, rk)
  }

  /** The leader a union of `a` and `b` picks, read off the picture. */
  function Picked<T>(lead: map<T, T>, rk: map<T, nat>, a: T, b: T): T
    requires a in lead && b in lead && lead[a] in rk && lead[b] in rk
  {
    if rk[lead[b]] > rk[lead[a]] then lead[b] else lead[a]
  }

  /** Expected leaders after a union of `a` and `b`. */
  function Relead<T>(lead: map<T, T>, rk: map<T, nat>, a: T, b: T): map<T, T>
    requires a in lead && b in lead && lead[a] in rk && lead[b] in rk
  {
    map k | k in lead :: if lead[k] == lead[a] || lead[k] == lead[b] then Picked(lead, rk, a, b) else lead[k]
  }

  /** Expected ranks after a union of `a` and `b`. */
  function Rerank<T>(lead: map<T, T>, rk: map<T, nat>, a: T, b: T): map<T, nat>
    requires a in lead && b in lead && lead[a] in rk && lead[b] in rk
  {
    if lead[a] == lead[b] then rk else rk[Picked(lead, rk, a, b) := rk[lead[a]] + rk[lead[b]]]
  }

  /** Inserting a fresh key adds it to the picture as its own leader of rank 1. */
  lemma {:induction false} InsertTracks<T>(m: Parents<T>, h: map<T, nat>, lead: map<T, T>, rk: map<T, nat>, t: T)
    requires Tracks(m, h, lead, rk) && t !in m
    ensures Tracks(m[t := (t, 1)], h[t := 0], lead[t := t], rk[t := 1])
  {
    InsertInv(m, h, t);
    var m', h', lead', rk' := m[t := (t, 1)], h[t := 0], lead[t := t], rk[t := 1];
    forall k | k in lead'
      ensures Leader(m', h', k) == lead'[k] && lead'[k] in rk' && m'[lead'[k]].1 == rk'[lead'[k]]
    {
      if k != t {
        assert Leader(m, h, k) == lead[k] && IsRoot(m, lead[k]);
      }
    }
  }

  /** Entries of the leaders in the picture carry over to a map that keeps every root entry. */
  lemma {:induction false} RootsKept<T>(m: Parents<T>, h: map<T, nat>, r: Parents<T>, lead: map<T, T>, rk: map<T, nat>)
    requires Wf(m, h) && Pictured(m, h, lead, rk) && r.Keys == m.Keys
    requires forall j {:trigger IsRoot(m, j), r[j]} :: j in m && IsRoot(m, j) ==> r[j] == m[j]
    ensures forall k {:trigger Leader(m, h, k)} :: k in lead ==>
      Leader(m, h, k) == lead[k] && lead[k] in r && lead[k] in rk && r[lead[k]].1 == rk[lead[k]]
  {
    forall k {:trigger Leader(m, h, k)} | k in lead
      ensures Leader(m, h, k) == lead[k] && lead[k] in r && lead[k] in rk && r[lead[k]].1 == rk[lead[k]]
    {
      assert IsRoot(m, Leader(m, h, k));
    }
  }

  /** A lookup changes no leader and no leader's rank. */
  lemma {:induction false} CompressTracks<T>(m: Parents<T>, h: map<T, nat>, lead: map<T, T>, rk: map<T, nat>, key: T)
    requires Tracks(m, h, lead, rk) && key in m
    ensures Tracks(Compress(m, h, key), h, lead, rk)
  {
    CompressInv(m, h, key);
    RootsKept(m, h, Compress(m, h, key), lead, rk);
  }

  /**
   * Leaders and ranks in the picture after a union, for any map `u` that
   * relabels leaders as a union does and keeps the entries of untouched
   * groups.
   */
  lemma {:induction false} RelabelTracks<T>(m: Parents<T>, h: map<T, nat>, u: Parents<T>, uh: map<T, nat>,
                                            lead: map<T, T>, rk: map<T, nat>, a: T, b: T, w: T)
    requires Wf(m, h) && Pictured(m, h, lead, rk) && a in lead && b in lead
    requires Wf(u, uh) && u.Keys == m.Keys
    requires lead[a] in rk && lead[b] in rk && w == Picked(lead, rk, a, b)
    requires w in u && u[w].1 == if lead[a] == lead[b] then rk[lead[a]] else rk[lead[a]] + rk[lead[b]]
    requires forall j {:trigger Leader(m, h, j), u[j]} ::
      j in m && Leader(m, h, j) != lead[a] && Leader(m, h, j) != lead[b] ==> u[j] == m[j]
    requires forall j {:trigger Leader(u, uh, j)} :: j in m ==>
      Leader(u, uh, j) == if Leader(m, h, j) == lead[a] || Leader(m, h, j) == lead[b] then w else Leader(m, h, j)
    ensures Pictured(u, uh, Relead(lead, rk, a, b), Rerank(lead, rk, a, b))
  {
    var lead', rk' := Relead(lead, rk, a, b), Rerank(lead, rk, a, b);
    forall k {:trigger Leader(u, uh, k)} | k in lead'
      ensures Leader(u, uh, k) == lead'[k] && lead'[k] in rk' && u[lead'[k]].1 == rk'[lead'[k]]
    {
      var lk := lead[k];
      assert Leader(m, h, k) == lk && IsRoot(m, lk);
      if lk != lead[a] && lk != lead[b] {
        assert Leader(m, h, lk) == lk;
        assert u[lk] == m[lk];
      }
    }
  }

  /** A union of two present keys moves the picture by `Relead` and `Rerank`. */
  lemma {:induction false} UniteTracks<T>(m: Parents<T>, h: map<T, nat>, lead: map<T, T>, rk: map<T, nat>, a: T, b: T)
    requires Tracks(m, h, lead, rk) && a in lead && b in lead
    ensures lead[a] in rk && lead[b] in rk
    ensures Tracks(Unite(m, h, a, b), UniteHeight(m, h, a, b), Relead(lead, rk, a, b), Rerank(lead, rk, a, b))
    ensures UnionLeader(m, h, a, b) == Picked(lead, rk, a, b)
  {
    var la, lb := lead[a], lead[b];
    UniteInv(m, h, a, b, la, lb);
    assert Winner(m, la, lb) == Picked(lead, rk, a, b);
    RelabelTracks(m, h, Unite(m, h, a, b), UniteHeight(m, h, a, b), lead, rk, a, b, Winner(m, la, lb));
  }

  /** The picture of the keys 0 to `n` - 1 each on its own: every key leads itself. */
  ghost function Singletons(n: nat): map<int, int>
  {
    if n == 0 then map[] else Singletons(n - 1)[n - 1 := n - 1]
  }

  /** The ranks of `Singletons(n)`: every leader has rank 1. */
  ghost function Ones(n: nat): map<int, nat>
  {
    if n == 0 then map[] else Ones(n - 1)[n - 1 := 1]
  }

  lemma {:induction false} SingletonsAt(n: nat)
    ensures forall k {:trigger k in Singletons(n)} :: k in Singletons(n) <==> 0 <= k < n
    ensures forall k {:trigger Singletons(n)[k]} :: k in Singletons(n) ==> Singletons(n)[k] == k
    ensures forall k {:trigger k in Ones(n)} :: k in Ones(n) <==> 0 <= k < n
    ensures forall k {:trigger Ones(n)[k]} :: k in Ones(n) ==> Ones(n)[k] == 1
  {
    if n > 0 {
      SingletonsAt(n - 1);
    }
  }

  /** A fresh union-find holding the keys 0 to `n` - 1, each on its own. */
  method InsertRange(n: nat) returns (uf: UnionFind<int>, ghost lead: map<int, int>, ghost rk: map<int, nat>)
    ensures fresh(uf)
    ensures Tracks(uf.parents, uf.height, lead, rk)
    ensures lead == Singletons(n) && rk == Ones(n)
  {
    uf := new UnionFind<int>();
    lead, rk := map[], map[];
    for i := 0 to n
      invariant Tracks(uf.parents, uf.height, lead, rk)
      invariant lead == Singletons(i) && rk == Ones(i)
    {
      SingletonsAt(i);
      lead, rk := TrackedInsert(uf, lead, rk, i);
    }
  }

  /** A lookup inside a scenario: it reports the leader the picture predicts. */
  method TrackedFind<T(==)>(uf: UnionFind<T>, ghost lead: map<T, T>, ghost rk: map<T, nat>, key: T) returns (r: Option<T>)
    requires Tracks(uf.parents, uf.height, lead, rk)
    modifies uf
    ensures Tracks(uf.parents, uf.height, lead, rk)
    ensures r == if key in lead then Some(lead[key]) else None
  {
    if key in lead {
      CompressTracks(uf.parents, uf.height, lead, rk, key);
    }
    r := uf.Find(key);
  }

  /**
   * A union inside a scenario: with both keys present the picture moves by
   * `Relead` and `Rerank` and the reported leader is the one `Picked`
   * predicts; otherwise nothing is reported and the picture stays.
   */
  method TrackedUnion<T(==)>(uf: UnionFind<T>, ghost lead: map<T, T>, ghost rk: map<T, nat>, a: T, b: T)
    returns (r: Option<T>, ghost lead': map<T, T>, ghost rk': map<T, nat>)
    requires Tracks(uf.parents, uf.height, lead, rk)
    modifies uf
    ensures Tracks(uf.parents, uf.height, lead', rk')
    ensures a in lead && b in lead ==>
      && lead[a] in rk && lead[b] in rk
      && lead' == Relead(lead, rk, a, b) && rk' == Rerank(lead, rk, a, b)
      && r == Some(Picked(lead, rk, a, b))
    ensures a !in lead || b !in lead ==> r == None && lead' == lead && rk' == rk
  {
    if a in uf.parents && b in uf.parents {
      UniteTracks(uf.parents, uf.height, lead, rk, a, b);
      r := uf.Union(a, b);
      lead', rk' := Relead(lead, rk, a, b), Rerank(lead, rk, a, b);
    } else {
      if a in uf.parents {
        CompressTracks(uf.parents, uf.height, lead, rk, a);
      }
      r := uf.Union(a, b);
      lead', rk' := lead, rk;
    }
  }

  /**
   * A union that adds the lone key `b` to the group of `a`: the group of
   * `a` outranks or ties the singleton, so its leader stays the leader.
   */
  method AbsorbSingleton<T(==)>(uf: UnionFind<T>, ghost lead: map<T, T>, ghost rk: map<T, nat>, a: T, b: T)
    returns (r: Option<T>, ghost lead': map<T, T>, ghost rk': map<T, nat>)
    requires Tracks(uf.parents, uf.height, lead, rk) && a in lead && b in lead
    requires lead[b] == b && lead[a] != b && forall k :: k in lead && lead[k] == b ==> k == b
    requires lead[a] in rk && b in rk && rk[b] == 1 && 1 <= rk[lead[a]]
    modifies uf
    ensures Tracks(uf.parents, uf.height, lead', rk')
    ensures lead' == lead[b := lead[a]] && rk' == rk[lead[a] := rk[lead[a]] + 1]
    ensures r == Some(lead[a])
  {
    r, lead', rk' := TrackedUnion(uf, lead, rk, a, b);
    assert Picked(lead, rk, a, b) == lead[a];
    SameEntries(lead', lead[b := lead[a]]);
  }

  /** Looks up the keys 0 to `n` - 1 in order and collects their leaders. */
  method FindRange(uf: UnionFind<int>, ghost lead: map<int, int>, ghost rk: map<int, nat>, n: nat) returns (leaders: seq<int>)
    requires Tracks(uf.parents, uf.height, lead, rk)
    requires forall k :: 0 <= k < n ==> k in lead
    modifies uf
    ensures Tracks(uf.parents, uf.height, lead, rk)
    ensures |leaders| == n && forall k :: 0 <= k < n ==> leaders[k] == lead[k]
  {
    leaders := [];
    for i := 0 to n
      invariant Tracks(uf.parents, uf.height, lead, rk)
      invariant |leaders| == i && forall k :: 0 <= k < i ==> leaders[k] == lead[k]
    {
      var found := TrackedFind(uf, lead, rk, i);
      leaders := leaders + [found.value];
    }
  }

  /**
   * Builds one set the way the test does: the lone key `a` absorbs the lone
   * keys `b1`, `b2` and `b3`, one union at a time, and stays the leader.
   */
  method BuildSet<T(==)>(uf: UnionFind<T>, ghost lead: map<T, T>, ghost rk: map<T, nat>, a: T, b1: T, b2: T, b3: T)
    returns (ghost lead': map<T, T>, ghost rk': map<T, nat>)
    requires Tracks(uf.parents, uf.height, lead, rk)
    requires a in lead && b1 in lead && b2 in lead && b3 in lead
    requires a != b1 && a != b2 && a != b3 && b1 != b2 && b1 != b3 && b2 != b3
    requires lead[a] == a && lead[b1] == b1 && lead[b2] == b2 && lead[b3] == b3
    requires forall k :: k in lead && lead[k] in {a, b1, b2, b3} ==> k == lead[k]
    requires a in rk && b1 in rk && b2 in rk && b3 in rk
    requires rk[a] == 1 && rk[b1] == 1 && rk[b2] == 1 && rk[b3] == 1
    modifies uf
    ensures Tracks(uf.parents, uf.height, lead', rk')
    ensures lead' == lead[b1 := a][b2 := a][b3 := a] && rk' == rk[a := 4]
  {
    var _, lead1, rk1 := AbsorbSingleton(uf, lead, rk, a, b1);
    var _, lead2, rk2 := AbsorbSingleton(uf, lead1, rk1, a, b2);
    var _, lead3, rk3 := AbsorbSingleton(uf, lead2, rk2, a, b3);
    lead', rk' := lead3, rk3;
  }

  /** Extensional equality of two sequences, proved in a small context. */
  lemma {:induction false} SamePoints<T>(x: seq<T>, y: seq<T>)
    requires |x| == |y|
    requires forall k {:trigger x[k]} :: 0 <= k < |x| ==> x[k] == y[k]
    ensures x == y
  { }

  /** The picture the test builds, read key by key. */
  lemma {:induction false} TestLeaders(lead: map<int, int>, expected: seq<int>)
    requires lead == Singletons(10)[1 := 0][2 := 0][3 := 0][7 := 6][8 := 6][9 := 6]
    requires expected == [0, 0, 0, 0, 4, 5, 6, 6, 6, 6]
    ensures forall k :: 0 <= k < 10 ==> k in lead && lead[k] == expected[k]
  {
  }

  /** The set-up of the integer test: keys 0 to 9, with 0 to 3 in one set and 6 to 9 in another. */
  method IntegerSetUp() returns (uf: UnionFind<int>, ghost lead: map<int, int>, ghost rk: map<int, nat>)
    ensures fresh(uf)
    ensures Tracks(uf.parents, uf.height, lead, rk)
    ensures lead == Singletons(10)[1 := 0][2 := 0][3 := 0][7 := 6][8 := 6][9 := 6]
  {
    uf, lead, rk := InsertRange(10);
    SingletonsAt(10);
    lead, rk := BuildSet(uf, lead, rk, 0, 1, 2, 3);
    lead, rk := BuildSet(uf, lead, rk, 6, 7, 8, 9);
  }

  /**
   * Keys 0 to 9; 0 absorbs 1, 2 and 3, and 6 absorbs 7, 8 and 9; then the
   * leader of every key, in key order.
   */
  method UnionFindScenario() returns (leaders: seq<int>)
    ensures leaders == [0, 0, 0, 0, 4, 5, 6, 6, 6, 6]
  {
    var uf, lead, rk := IntegerSetUp();
    ghost var expected := [0, 0, 0, 0, 4, 5, 6, 6, 6, 6];
    TestLeaders(lead, expected);
    leaders := FindRange(uf, lead, rk, 10);
    SamePoints(leaders, expected);
  }

  /** An insertion of a new key inside a scenario: the key joins the picture on its own. */
  method TrackedInsert<T(==)>(uf: UnionFind<T>, ghost lead: map<T, T>, ghost rk: map<T, nat>, t: T)
    returns (ghost lead': map<T, T>, ghost rk': map<T, nat>)
    requires Tracks(uf.parents, uf.height, lead, rk) && t !in lead
    modifies uf
    ensures Tracks(uf.parents, uf.height, lead', rk')
    ensures lead' == lead[t := t] && rk' == rk[t := 1]
  {
    InsertTracks(uf.parents, uf.height, lead, rk, t);
    uf.Insert(t);
    lead', rk' := lead[t := t], rk[t := 1];
  }

  /** The first three keys of the string test, each on its own. */
  method StringInsertsAbc() returns (uf: UnionFind<string>, ghost lead: map<string, string>, ghost rk: map<string, nat>)
    ensures fresh(uf)
    ensures Tracks(uf.parents, uf.height, lead, rk)
    ensures lead == map["a" := "a", "b" := "b", "c" := "c"]
    ensures rk == map["a" := 1, "b" := 1, "c" := 1]
  {
    uf := new UnionFind<string>();
    lead, rk := map[], map[];
    lead, rk := TrackedInsert(uf, lead, rk, "a");
    lead, rk := TrackedInsert(uf, lead, rk, "b");
    lead, rk := TrackedInsert(uf, lead, rk, "c");
  }

  /** The keys "a" to "e" of the string test, each on its own. */
  method StringInserts() returns (uf: UnionFind<string>, ghost lead: map<string, string>, ghost rk: map<string, nat>)
    ensures fresh(uf)
    ensures Tracks(uf.parents, uf.height, lead, rk)
    ensures lead == map["a" := "a", "b" := "b", "c" := "c", "d" := "d", "e" := "e"]
    ensures rk == map["a" := 1, "b" := 1, "c" := 1, "d" := 1, "e" := 1]
  {
    uf, lead, rk := StringInsertsAbc();
    lead, rk := TrackedInsert(uf, lead, rk, "d");
    lead, rk := TrackedInsert(uf, lead, rk, "e");
  }

  /** The set-up of the string test: keys "a" to "e", with a, b, c in one set and d, e in another. */
  method StringSetUp() returns (uf: UnionFind<string>, ghost lead: map<string, string>, ghost rk: map<string, nat>)
    ensures fresh(uf)
    ensures Tracks(uf.parents, uf.height, lead, rk)
    ensures lead == map["a" := "a", "b" := "b", "c" := "c", "d" := "d", "e" := "e"]["b" := "a"]["c" := "a"]["e" := "d"]
    ensures rk == map["a" := 1, "b" := 1, "c" := 1, "d" := 1, "e" := 1]["a" := 2]["a" := 3]["d" := 2]
  {
    ghost var lead0, rk0;
    uf, lead0, rk0 := StringInserts();
    var _, lead1, rk1 := AbsorbSingleton(uf, lead0, rk0, "a", "b");
    var _, lead2, rk2 := AbsorbSingleton(uf, lead1, rk1, "b", "c");
    var _, lead3, rk3 := AbsorbSingleton(uf, lead2, rk2, "d", "e");
    lead, rk := lead3, rk3;
  }

  /** The picture of the string test, read key by key, before and after a and d are united. */
  lemma {:induction false} StringLeaders(lead: map<string, string>, rk: map<string, nat>)
    requires lead == map["a" := "a", "b" := "b", "c" := "c", "d" := "d", "e" := "e"]["b" := "a"]["c" := "a"]["e" := "d"]
    requires rk == map["a" := 1, "b" := 1, "c" := 1, "d" := 1, "e" := 1]["a" := 2]["a" := 3]["d" := 2]
    ensures "x" !in lead && "a" in lead && "c" in lead && "d" in lead && "e" in lead
    ensures lead["a"] == "a" && lead["c"] == "a" && lead["d"] == "d"
    ensures lead["a"] in rk && lead["d"] in rk
    ensures "a" in Relead(lead, rk, "a", "d") && Relead(lead, rk, "a", "d")["a"] == "a"
    ensures "e" in Relead(lead, rk, "a", "d") && Relead(lead, rk, "a", "d")["e"] == "a"
  {
    assert Picked(lead, rk, "a", "d") == "a";
  }

  /**
   * Keys "a" to "e"; a, b and c form one set and d and e another. A union
   * or a lookup naming the missing key "x" reports nothing; a and c share a
   * leader and a and d do not; once a and d are united, a and e share a
   * leader, and that leader is "a".
   */
  method StringScenario() returns (unionMissingFirst: Option<string>, unionMissingSecond: Option<string>,
                                   findMissing: Option<string>, findA: Option<string>, findC: Option<string>,
                                   findD: Option<string>, findA2: Option<string>, findE: Option<string>)
    ensures unionMissingFirst == None && unionMissingSecond == None && findMissing == None
    ensures findA == findC && findA != findD
    ensures findA2 == findE && findA2 == Some("a")
  {
    var uf, lead, rk := StringSetUp();
    StringLeaders(lead, rk);
    unionMissingFirst, lead, rk := TrackedUnion(uf, lead, rk, "x", "a");
    unionMissingSecond, lead, rk := TrackedUnion(uf, lead, rk, "a", "x");
    findMissing := TrackedFind(uf, lead, rk, "x");
    findA := TrackedFind(uf, lead, rk, "a");
    findC := TrackedFind(uf, lead, rk, "c");
    findD := TrackedFind(uf, lead, rk, "d");
    var _, lead', rk' := TrackedUnion(uf, lead, rk, "a", "d");
    findA2 := TrackedFind(uf, lead', rk', "a");
    findE := TrackedFind(uf, lead', rk', "e");
  }
}
