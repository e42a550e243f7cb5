/**
 * The stable descending sort behind `sorted(..., key=confidence, reverse=True)`.
 * Python's sort is stable even with `reverse=True`, so the result orders positions
 * by descending key and, among equal keys, by ascending original position.
 * Rankings are sequences of positions into the sorted list.
 */
module Ranking {
  import opened Seqs

  /** Position `a` precedes position `b` in the stable descending order of `keys`. */
  predicate Before(keys: seq<real>, a: nat, b: nat) {
    a < |keys| && b < |keys| && (keys[a] > keys[b] || (keys[a] == keys[b] && a < b))
  }

  /** `r` lists positions of `keys` in strictly `Before` order (hence without repetition). */
  predicate Ranked(keys: seq<real>, r: seq<nat>) {
    AllBelow(r, |keys|) &&
    (forall a, b :: 0 <= a < b < |r| ==> Before(keys, r[a], r[b]))
  }

  /** Inserts a new position into a ranking, before the first position it precedes. */
  function Insert(keys: seq<real>, x: nat, r: seq<nat>): (r': seq<nat>)
    ensures |r'| == |r| + 1
    ensures multiset(r') == multiset(r) + multiset{x}
    ensures AllBelow(r, |keys|) && x < |keys| ==> AllBelow(r', |keys|)
  {
    if r == [] then [x]
    else if Before(keys, x, r[0]) then [x] + r
    else
      assert r == [r[0]] + r[1..];
      [r[0]] + Insert(keys, x, r[1..])
  }

  /** Insertion keeps a ranking ranked. */
  lemma {:induction false} InsertRanked(keys: seq<real>, x: nat, r: seq<nat>)
    requires x < |keys| && x !in r && Ranked(keys, r)
    ensures Ranked(keys, Insert(keys, x, r))
  {
    if r != [] && !Before(keys, x, r[0]) {
      var rest := Insert(keys, x, r[1..]);
      InsertRanked(keys, x, r[1..]);
      assert Before(keys, r[0], x);
      forall b | 0 <= b < |rest| ensures Before(keys, r[0], rest[b]) {
        assert rest[b] in multiset(rest);
        if rest[b] != x {
          assert rest[b] in r[1..];
        }
      }
    } else if r != [] {
      forall b | 0 < b < |r| ensures Before(keys, x, r[b]) {
        assert Before(keys, r[0], r[b]);
      }
    }
  }

  /** Insertion keeps every position at or above a bound that all inserted positions respect. */
  lemma {:induction false} InsertAbove(keys: seq<real>, x: nat, r: seq<nat>, k: nat)
    requires k <= x && forall i :: 0 <= i < |r| ==> k <= r[i]
    ensures forall i :: 0 <= i < |Insert(keys, x, r)| ==> k <= Insert(keys, x, r)[i]
  {
    if r != [] && !Before(keys, x, r[0]) {
      InsertAbove(keys, x, r[1..], k);
      assert Insert(keys, x, r) == [r[0]] + Insert(keys, x, r[1..]);
    }
  }

  /** The ranking of positions k..|keys|-1 (insertion sort from the back). */
  function RankFrom(keys: seq<real>, k: nat): (r: seq<nat>)
    requires k <= |keys|
    ensures |r| == |keys| - k
    ensures forall i :: 0 <= i < |r| ==> k <= r[i]
    ensures Ranked(keys, r)
    decreases |keys| - k
  {
    if k == |keys| then []
    else
      var rest := RankFrom(keys, k + 1);
      assert k !in rest;
      InsertRanked(keys, k, rest);
      InsertAbove(keys, k, rest, k);
      Insert(keys, k, rest)
  }

  /** The stable descending ranking of all positions of `keys`. */
  function Rank(keys: seq<real>): (r: seq<nat>)
    ensures |r| == |keys|
    ensures Ranked(keys, r)
  {
    RankFrom(keys, 0)
  }

  /** Picking through an insertion adds exactly the inserted element. */
  lemma {:induction false} PickInsert<T>(s: seq<T>, keys: seq<real>, x: nat, r: seq<nat>)
    requires |s| == |keys| && AllBelow(r, |keys|)
    requires x < |keys|
    ensures multiset(Pick(s, Insert(keys, x, r))) == multiset(Pick(s, r)) + multiset{s[x]}
  {
    if r == [] {
      assert Pick(s, [x]) == [s[x]];
    } else if Before(keys, x, r[0]) {
      PickConcat(s, [x], r);
      assert Pick(s, [x]) == [s[x]];
    } else {
      var tail := Insert(keys, x, r[1..]);
      PickInsert(s, keys, x, r[1..]);
      assert r == [r[0]] + r[1..];
      PickConcat(s, [r[0]], tail);
      PickConcat(s, [r[0]], r[1..]);
    }
  }

  lemma PickConcat<T>(s: seq<T>, p: seq<nat>, q: seq<nat>)
    requires AllBelow(p, |s|) && AllBelow(q, |s|)
    ensures AllBelow(p + q, |s|) && Pick(s, p + q) == Pick(s, p) + Pick(s, q)
  {
    assert forall k :: 0 <= k < |p + q| ==> (p + q)[k] == if k < |p| then p[k] else q[k - |p|];
  }

  /** Re-indexing by a ranking of positions k.. keeps exactly the elements s[k..]. */
  lemma {:induction false} PickRankFrom<T>(s: seq<T>, keys: seq<real>, k: nat)
    requires |s| == |keys| && k <= |keys|
    ensures multiset(Pick(s, RankFrom(keys, k))) == multiset(s[k..])
    decreases |keys| - k
  {
    if k < |keys| {
      var rest := RankFrom(keys, k + 1);
      RankFromStep(keys, k);
      PickInsert(s, keys, k, rest);
      PickRankFrom(s, keys, k + 1);
      SplitAt(s, k);
    }
  }

  /** One step of the insertion sort: position k is inserted into the ranking of the later positions. */
  lemma RankFromStep(keys: seq<real>, k: nat)
    requires k < |keys|
    ensures RankFrom(keys, k) == Insert(keys, k, RankFrom(keys, k + 1))
  {
  }

  /** Sorting by a ranking is a permutation of the sorted list. */
  lemma RankPermutes<T>(s: seq<T>, keys: seq<real>)
    requires |s| == |keys|
    ensures multiset(Pick(s, Rank(keys))) == multiset(s)
  {
    PickRankFrom(s, keys, 0);
    assert s[0..] == s;
  }

  /** A ranking is sorted by non-increasing key, and equal keys keep their original order. */
  lemma RankSortedStable(keys: seq<real>, a: nat, b: nat)
    requires a < b < |keys|
    ensures Rank(keys)[a] < |keys| && Rank(keys)[b] < |keys|
    ensures keys[Rank(keys)[a]] >= keys[Rank(keys)[b]]
    ensures keys[Rank(keys)[a]] == keys[Rank(keys)[b]] ==> Rank(keys)[a] < Rank(keys)[b]
  {
    assert Before(keys, Rank(keys)[a], Rank(keys)[b]);
  }
}
