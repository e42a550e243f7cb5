/** Generic sequence helpers used by the store, the ranking and the curator. */
module Seqs {
  import opened Wrappers

  /** Position of the first occurrence of `x` in `s`: where a `for ... if ...: return` loop stops. */
  function FirstIndex<T(==)>(s: seq<T>, x: T): (r: Option<nat>)
    ensures r.None? <==> x !in s
    ensures r.Some? ==> r.value < |s| && s[r.value] == x && x !in s[..r.value]
  {
    if s == [] then None
    else if s[0] == x then Some(0)
    else match FirstIndex(s[1..], x)
      case None => None
      case Some(k) =>
        assert s[..k + 1] == [s[0]] + s[1..][..k];
        Some(k + 1)
  }

  /** Appending never moves an occurrence that is already there. */
  lemma {:induction false} FirstIndexAppend<T>(s: seq<T>, t: seq<T>, x: T)
    ensures x in s ==> FirstIndex(s + t, x) == FirstIndex(s, x)
    ensures x !in s && x in t ==> FirstIndex(s + t, x).Some? && FirstIndex(s + t, x).value == |s| + FirstIndex(t, x).value
  {
    var u := s + t;
    if x in s {
      assert u[..|s|] == s;
    } else if x in t {
      var j, k := FirstIndex(u, x).value, FirstIndex(t, x).value;
      assert u[|s| + k] == x;
      assert u[..j] == s + t[..j - |s|] by {
        assert u[..j][..|s|] == s[..|s|];
      }
    }
  }

  /** A position that holds `x` with no earlier `x` is the one `FirstIndex` finds. */
  lemma FirstIndexIs<T>(s: seq<T>, x: T, i: nat)
    requires i < |s| && s[i] == x && forall j :: 0 <= j < i ==> s[j] != x
    ensures FirstIndex(s, x) == Some(i)
  {
  }

  /** A suffix is its first element followed by the next suffix. */
  lemma SplitAt<T>(s: seq<T>, k: nat)
    requires k < |s|
    ensures s[k..] == [s[k]] + s[k + 1..]
  {
  }

  /** Every position in `positions` is a valid index of a list of length `n`. */
  predicate AllBelow(positions: seq<nat>, n: nat) {
    forall k :: 0 <= k < |positions| ==> positions[k] < n
  }

  /** `s` re-indexed by `positions`: the k-th element is `s[positions[k]]`. */
  function Pick<T>(s: seq<T>, positions: seq<nat>): (r: seq<T>)
    requires AllBelow(positions, |s|)
    ensures |r| == |positions| && forall k :: 0 <= k < |positions| ==> r[k] == s[positions[k]]
  {
    seq(|positions|, k requires 0 <= k < |positions| => s[positions[k]])
  }

  /** Python's `s[:stop]`, where a negative `stop` counts from the end. */
  function SliceTo<T>(s: seq<T>, stop: int): (r: seq<T>)
    ensures |r| <= |s| && r == s[..|r|]
    ensures stop >= 0 ==> |r| == if stop < |s| then stop else |s|
    ensures stop < 0 ==> |r| == if |s| + stop > 0 then |s| + stop else 0
  {
    if stop >= 0 then (if stop < |s| then s[..stop] else s)
    else (if |s| + stop > 0 then s[..|s| + stop] else [])
  }
}
