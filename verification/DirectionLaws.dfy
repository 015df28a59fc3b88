/** The system that a direction of `LassoProjection` solves: the free block of the Hessian with
    whatever the factorisation added to its diagonal, and the block itself where nothing was
    added.
 */
module DirectionLaws {
  import opened LinearAlgebra
  import opened Indexing
  import opened ModifiedCholesky
  import opened FactorisationLaws
  import opened ProjectionDirection

  // ----- from triangular systems to the product L*D*L'

  lemma {:induction false} WeightedIsSum(a: Vec, d: Vec, b: Vec, k: nat)
    requires |a| == |d| == |b| && k <= |a|
    ensures SumTo(Had(a, Had(d, b)), k) == WeightedDot(a, d, b, k)
  {
    if k > 0 {
      WeightedIsSum(a, d, b, k - 1);
      Reassociate(a[k - 1], d[k - 1], b[k - 1]);
    }
  }

  /** Column a of L*D*L'. */
  ghost function ProductColumn(l: Mat, d: Vec, n: nat, a: nat): (r: Vec)
    requires IsSquare(l, n) && |d| == n && a < n
  {
    seq(n, k requires 0 <= k < n => Product(l, d, n, k, a))
  }

  lemma SolvedRow(l: Mat, d: Vec, n: nat, x: Vec, b: Vec, a: nat)
    requires IsSquare(l, n) && |d| == |x| == |b| == n && Solves(l, d, n, x, b) && a < n
    ensures Dot(ProductColumn(l, d, n, a), x) == b[a]
  {
    var u, v := TransposeTimes(l, x, n), Had(d, l[a]);
    forall k | 0 <= k < n ensures Proj(l, v)[k] == ProductColumn(l, d, n, a)[k] {
      WeightedIsSum(l[k], d, l[a], n);
    }
    assert Proj(l, v) == ProductColumn(l, d, n, a);
    Adjoint(l, x, v);
    forall k | 0 <= k < n ensures Had(l[a], Had(d, u))[k] == Had(v, u)[k] {
      Reassociate(l[a][k], d[k], u[k]);
      Reassociate(d[k], l[a][k], u[k]);
    }
    assert Had(l[a], Had(d, u)) == Had(v, u);
  }

  // ----- from the product to the matrix

  /** v with s added to entry a. */
  ghost function Raised(v: Vec, a: nat, s: real): (r: Vec)
    requires a < |v|
  {
    v[a := v[a] + s]
  }

  lemma ColumnOfProduct(m: Mat, n: nat, delta: real, beta: real, f: Factors, a: nat)
    requires IsSquare(m, n) && beta > 0.0 && delta > 0.0 && Symmetric(m, n) && a < n
    requires IsFactorisation(m, n, delta, beta, f.l, f.d, f.perm, f.theta)
    ensures ProductColumn(f.l, f.d, n, a)
         == Raised(Gather(m[f.perm[a]], f.perm), a, Shift(m, n, f.l, f.d, f.perm, a))
  {
    var s := Shift(m, n, f.l, f.d, f.perm, a);
    forall k | 0 <= k < n
      ensures ProductColumn(f.l, f.d, n, a)[k] == Raised(Gather(m[f.perm[a]], f.perm), a, s)[k]
    {
      Reconstruction(m, n, delta, beta, f.l, f.d, f.perm, f.theta, k, a);
    }
  }

  /** One row of a system whose column is a permuted row with s added to entry a. */
  lemma PermutedRow(row: Vec, perm: seq<nat>, a: nat, s: real, x: Vec, v: Vec)
    requires IsPermutation(perm, |row|) && |x| == |v| == |row| && a < |row|
    requires forall k :: 0 <= k < |row| ==> v[perm[k]] == -x[k]
    ensures Dot(row, v) + Mul(s, v[perm[a]]) == -Dot(Raised(Gather(row, perm), a, s), x)
  {
    DiagonalRow(Gather(row, perm), x, a, s);
    PermutedDot(row, v, perm, x);
    NegatedProduct(s, x[a], v[perm[a]]);
  }

  /** One row of the modified system, with v the solution back in its order. */
  lemma ModifiedRow(m: Mat, n: nat, delta: real, beta: real, f: Factors, free: Vec, x: Vec, v: Vec, a: nat)
    requires IsSquare(m, n) && beta > 0.0 && delta > 0.0 && Symmetric(m, n) && a < n
    requires IsFactorisation(m, n, delta, beta, f.l, f.d, f.perm, f.theta)
    requires |free| == |x| == |v| == n && Solves(f.l, f.d, n, x, Gather(free, f.perm))
    requires forall k :: 0 <= k < n ==> v[f.perm[k]] == -x[k]
    ensures Dot(m[f.perm[a]], v) + Mul(Shift(m, n, f.l, f.d, f.perm, a), v[f.perm[a]]) == -free[f.perm[a]]
  {
    SolvedRow(f.l, f.d, n, x, Gather(free, f.perm), a);
    ColumnOfProduct(m, n, delta, beta, f, a);
    PermutedRow(m[f.perm[a]], f.perm, a, Shift(m, n, f.l, f.d, f.perm, a), x, v);
  }

  // ----- the direction

  lemma BlockSymmetric(h: Mat, idx: seq<nat>)
    requires IsSquare(h, |h|) && Symmetric(h, |h|) && forall i :: 0 <= i < |idx| ==> idx[i] < |h|
    ensures Symmetric(Block(h, idx), |idx|)
  {
  }

  /** A row of the Hessian against a direction only sees the free block. */
  lemma BlockRow(h: Mat, idx: seq<nat>, d: Vec, k: nat)
    requires IsSquare(h, |h|) && |d| == |h| && forall i :: 0 <= i < |idx| ==> idx[i] < |h|
    requires forall i, j :: 0 <= i < j < |idx| ==> idx[i] != idx[j]
    requires forall i :: 0 <= i < |h| && i !in idx ==> d[i] == 0.0
    requires k < |idx|
    ensures Dot(h[idx[k]], d) == Dot(Block(h, idx)[k], Gather(d, idx))
  {
    var row := h[idx[k]];
    ScatterDot(row, d, Gather(d, idx), idx);
    assert Gather(row, idx) == Block(h, idx)[k];
  }

  lemma ShiftNonNeg(m: Mat, n: nat, delta: real, beta: real, f: Factors, a: nat)
    requires IsSquare(m, n) && beta > 0.0 && delta > 0.0 && a < n
    requires IsFactorisation(m, n, delta, beta, f.l, f.d, f.perm, f.theta)
    ensures Shift(m, n, f.l, f.d, f.perm, a) >= 0.0
  {
    ShiftAt(m, n, delta, beta, f.l, f.d, f.perm, f.theta, a);
  }

  /** The direction solves the Newton system of the free variables with a non-negative diagonal
      added: at the free variable that is pivot a, the Hessian times the direction plus the shift
      of that pivot times its entry is minus the slope. */
  lemma DirectionSystem(h: Mat, g: Vec, idx: seq<nat>, mu: real, beta: real, f: Factors, x: Vec, d: Vec, a: nat)
    requires IsSquare(h, |g|) && mu > 0.0 && beta > 0.0 && Symmetric(h, |h|)
    requires forall i :: 0 <= i < |idx| ==> idx[i] < |g|
    requires forall i, j :: 0 <= i < j < |idx| ==> idx[i] != idx[j]
    requires IsDirection(h, g, idx, mu, beta, f, x, d) && a < |idx|
    ensures
      var i := idx[f.perm[a]];
      Dot(h[i], d) + Mul(Shift(Block(h, idx), |idx|, f.l, f.d, f.perm, a), d[i]) == -g[i]
    ensures Shift(Block(h, idx), |idx|, f.l, f.d, f.perm, a) >= 0.0
  {
    var n, m := |idx|, Block(h, idx);
    var delta := Delta(m, n, mu);
    BlockSymmetric(h, idx);
    BlockRow(h, idx, d, f.perm[a]);
    ShiftNonNeg(m, n, delta, beta, f, a);
    ModifiedRow(m, n, delta, beta, f, Gather(g, idx), x, Gather(d, idx), a);
  }

  /** Along d every free slope falls to zero: the Hessian times d is minus the slope there. */
  ghost predicate SolvesNewton(h: Mat, g: Vec, idx: seq<nat>, d: Vec)
    requires IsSquare(h, |g|) && |d| == |g| && forall i :: 0 <= i < |idx| ==> idx[i] < |g|
  {
    forall k :: 0 <= k < |idx| ==> Dot(h[idx[k]], d) == -g[idx[k]]
  }

  /** Where the free block has factors of its own in the pivot order chosen, with pivots of at
      least delta and columns within the bound, no pivot is raised, and the direction is the
      Newton direction of the free variables. */
  lemma UnraisedIsNewton(h: Mat, g: Vec, idx: seq<nat>, mu: real, beta: real, f: Factors, x: Vec, d: Vec, l: Mat,
                         ds: Vec)
    requires IsSquare(h, |g|) && mu > 0.0 && beta > 0.0 && Symmetric(h, |h|)
    requires forall i :: 0 <= i < |idx| ==> idx[i] < |g|
    requires forall i, j :: 0 <= i < j < |idx| ==> idx[i] != idx[j]
    requires IsDirection(h, g, idx, mu, beta, f, x, d)
    requires OwnFactors(Block(h, idx), |idx|, Delta(Block(h, idx), |idx|, mu), beta, f.perm, l, ds)
    ensures SolvesNewton(h, g, idx, d)
  {
    var n, m := |idx|, Block(h, idx);
    OwnUnshifted(m, n, Delta(m, n, mu), beta, f.l, f.d, f.perm, f.theta, l, ds);
    forall k | 0 <= k < n ensures Dot(h[idx[k]], d) == -g[idx[k]] {
      Onto(f.perm, n, k);
      var a :| 0 <= a < n && f.perm[a] == k;
      DirectionSystem(h, g, idx, mu, beta, f, x, d, a);
    }
  }

  /** d solves the system of the free variables that f factorises. */
  ghost predicate SolvesModified(h: Mat, g: Vec, idx: seq<nat>, mu: real, beta: real, f: Factors, d: Vec)
    requires IsSquare(h, |g|) && mu > 0.0 && beta > 0.0 && |d| == |g|
    requires forall i :: 0 <= i < |idx| ==> idx[i] < |g|
  {
    var n, m := |idx|, Block(h, idx);
    && IsFactorisation(m, n, Delta(m, n, mu), beta, f.l, f.d, f.perm, f.theta)
    && (forall a :: 0 <= a < n ==> SolvesRow(h, g, idx, f, d, a))
    && ((exists l, ds :: OwnFactors(m, n, Delta(m, n, mu), beta, f.perm, l, ds)) ==> SolvesNewton(h, g, idx, d))
  }

  ghost predicate SolvesRow(h: Mat, g: Vec, idx: seq<nat>, f: Factors, d: Vec, a: nat)
    requires IsSquare(h, |g|) && |d| == |g| && forall i :: 0 <= i < |idx| ==> idx[i] < |g|
    requires IsPermutation(f.perm, |idx|) && IsSquare(f.l, |idx|) && |f.d| == |idx| && a < |idx|
  {
    var i, s := idx[f.perm[a]], Shift(Block(h, idx), |idx|, f.l, f.d, f.perm, a);
    s >= 0.0 && Dot(h[i], d) + Mul(s, d[i]) == -g[i]
  }

  lemma MadeSolves(h: Mat, g: Vec, idx: seq<nat>, mu: real, beta: real, d: Vec)
    requires IsSquare(h, |g|) && mu > 0.0 && beta > 0.0 && Symmetric(h, |h|) && |d| == |g|
    requires forall i :: 0 <= i < |idx| ==> idx[i] < |g|
    requires forall i, j :: 0 <= i < j < |idx| ==> idx[i] != idx[j]
    requires MadeWith(h, g, idx, mu, beta, d)
    ensures exists f :: SolvesModified(h, g, idx, mu, beta, f, d)
  {
    var f, x :| IsDirection(h, g, idx, mu, beta, f, x, d);
    var n, m := |idx|, Block(h, idx);
    forall a | 0 <= a < n ensures SolvesRow(h, g, idx, f, d, a) {
      DirectionSystem(h, g, idx, mu, beta, f, x, d, a);
    }
    if l, ds :| OwnFactors(m, n, Delta(m, n, mu), beta, f.perm, l, ds) {
      UnraisedIsNewton(h, g, idx, mu, beta, f, x, d, l, ds);
    }
    assert SolvesModified(h, g, idx, mu, beta, f, d);
  }

  /** d solves the system as factorised with the default modification, which is not longer than 1e5
      then, or with the heavy one. */
  ghost predicate SolvesChosen(h: Mat, g: Vec, idx: seq<nat>, beta: real, retry: real, d: Vec)
    requires IsSquare(h, |g|) && beta > 0.0 && retry > 0.0 && |d| == |g|
    requires forall i :: 0 <= i < |idx| ==> idx[i] < |g|
  {
    || (Norm1(d) <= 100000.0 && exists f :: SolvesModified(h, g, idx, DEFAULT_MU, beta, f, d))
    || (exists f :: SolvesModified(h, g, idx, RETRY_MU, retry, f, d))
  }

  /** So the direction chosen solves the system of the free variables as factorised with the
      default modification, or with the heavy one. */
  lemma ChosenSolves(h: Mat, g: Vec, idx: seq<nat>, beta: real, retry: real, d: Vec)
    requires IsSquare(h, |g|) && beta > 0.0 && retry > 0.0 && Symmetric(h, |h|) && |d| == |g|
    requires forall i :: 0 <= i < |idx| ==> idx[i] < |g|
    requires forall i, j :: 0 <= i < j < |idx| ==> idx[i] != idx[j]
    requires IsChosen(h, g, idx, beta, retry, d)
    ensures SolvesChosen(h, g, idx, beta, retry, d)
  {
    var first :| MadeWith(h, g, idx, DEFAULT_MU, beta, first) &&
      if Norm1(first) > 100000.0 then MadeWith(h, g, idx, RETRY_MU, retry, d) else d == first;
    if Norm1(first) > 100000.0 {
      MadeSolves(h, g, idx, RETRY_MU, retry, d);
    } else {
      MadeSolves(h, g, idx, DEFAULT_MU, beta, d);
    }
  }
}
