/** Index sequences: selecting with them, scattering back, and summing in permuted order. */
module Indexing {
  import opened LinearAlgebra

  /** perm lists 0..n-1, each once. */
  predicate IsPermutation(perm: seq<nat>, n: nat) {
    && |perm| == n
    && (forall i :: 0 <= i < n ==> perm[i] < n)
    && (forall i, k :: 0 <= i < k < n ==> perm[i] != perm[k])
  }

  ghost function Below(n: nat): (s: set<nat>)
    ensures |s| == n && forall i: nat :: i in s <==> i < n
  {
    if n == 0 then {} else Below(n - 1) + {n - 1}
  }

  lemma {:induction false} Pigeonhole(s: seq<nat>, k: nat, values: set<nat>)
    requires k <= |s|
    requires forall i :: 0 <= i < k ==> s[i] in values
    requires forall i, j :: 0 <= i < j < k ==> s[i] != s[j]
    ensures k <= |values|
  {
    if k > 0 { Pigeonhole(s, k - 1, values - {s[k - 1]}); }
  }

  /** A permutation of 0..n-1 hits every index. */
  lemma Onto(perm: seq<nat>, n: nat, k: nat)
    requires IsPermutation(perm, n) && k < n
    ensures exists at :: 0 <= at < n && perm[at] == k
  {
    if forall at :: 0 <= at < n ==> perm[at] != k {
      Pigeonhole(perm, n, Below(n) - {k});
    }
  }

  ghost function Gather(v: Vec, perm: seq<nat>): (r: Vec)
    requires forall i :: 0 <= i < |perm| ==> perm[i] < |v|
  {
    seq(|perm|, i requires 0 <= i < |perm| => v[perm[i]])
  }

  /** Summing in permuted order gives the same total. */
  lemma {:induction false} PermutedSum(v: Vec, perm: seq<nat>)
    requires IsPermutation(perm, |v|)
    ensures Sum(Gather(v, perm)) == Sum(v)
  {
    GatherSum(v, perm, |perm|);
    forall i | 0 <= i < |v| ensures Masked(v, perm, |perm|)[i] == v[i] {
      Onto(perm, |v|, i);
    }
    SumToEq(Masked(v, perm, |perm|), v, |v|);
  }

  /** v with the entries not listed in perm[..k] replaced by zero. */
  ghost function Masked(v: Vec, perm: seq<nat>, k: nat): (r: Vec)
    requires k <= |perm|
  {
    seq(|v|, i requires 0 <= i < |v| => if exists a :: 0 <= a < k && perm[a] == i then v[i] else 0.0)
  }

  /** Summing distinct entries is summing the vector that keeps only them. */
  lemma {:induction false} GatherSum(v: Vec, perm: seq<nat>, k: nat)
    requires k <= |perm|
    requires forall i :: 0 <= i < |perm| ==> perm[i] < |v|
    requires forall i, j :: 0 <= i < j < |perm| ==> perm[i] != perm[j]
    ensures SumTo(Gather(v, perm), k) == Sum(Masked(v, perm, k))
  {
    if k == 0 {
      SumToZero(Masked(v, perm, 0), |v|);
    } else {
      GatherSum(v, perm, k - 1);
      var before, at := Masked(v, perm, k - 1), perm[k - 1];
      assert before[at] == 0.0;
      SumToUpdate(before, at, v[at], |v|);
      assert Masked(v, perm, k) == before[at := v[at]];
    }
  }

  // ----- selecting and scattering

  /** H(idx, idx) */
  function Block(h: Mat, idx: seq<nat>): (b: Mat)
    requires forall i :: 0 <= i < |idx| ==> idx[i] < |h|
    requires forall i :: 0 <= i < |h| ==> |h[i]| == |h|
    ensures IsSquare(b, |idx|)
  {
    seq(|idx|, i requires 0 <= i < |idx| =>
      seq(|idx|, k requires 0 <= k < |idx| => h[idx[i]][idx[k]]))
  }

  /** The vector of length n holding v[k] at position idx[k] and zero elsewhere. */
  ghost predicate Scattered(r: Vec, v: Vec, idx: seq<nat>, n: nat)
    requires |v| == |idx| && forall i :: 0 <= i < |idx| ==> idx[i] < n
  {
    && |r| == n
    && (forall k :: 0 <= k < |idx| ==> r[idx[k]] == v[k])
    && (forall i :: 0 <= i < n && i !in idx ==> r[i] == 0.0)
  }

  method Scatter(v: Vec, idx: seq<nat>, n: nat) returns (r: Vec)
    requires |v| == |idx| && forall i :: 0 <= i < |idx| ==> idx[i] < n
    requires forall i, j :: 0 <= i < j < |idx| ==> idx[i] != idx[j]
    ensures Scattered(r, v, idx, n)
  {
    r := Zero(n);
    for k := 0 to |idx|
      invariant |r| == n
      invariant forall i :: 0 <= i < k ==> r[idx[i]] == v[i]
      invariant forall i :: 0 <= i < n && i !in idx ==> r[i] == 0.0
    {
      r := r[idx[k] := v[k]];
    }
  }
}
