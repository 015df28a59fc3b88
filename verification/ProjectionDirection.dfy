/** The search direction of `LassoProjection`: factorise the free block of the Hessian, solve
    two triangular systems, and scatter the result back through the pivot order and the
    free set.
 */
module ProjectionDirection {
  import opened LinearAlgebra
  import opened Indexing
  import opened ModifiedCholesky

  // ----- the free set

  /** Variables resting at zero with a non-negative gradient are held there. */
  predicate IsFree(w: real, g: real) {
    !(w == 0.0 && g >= 0.0)
  }

  /** The free positions below k, in increasing order. */
  function FreeIndices(w: Vec, g: Vec, k: nat): (idx: seq<nat>)
    requires |w| == |g| && k <= |w|
    ensures forall i :: 0 <= i < |idx| ==> idx[i] < k && IsFree(w[idx[i]], g[idx[i]])
    ensures forall i, j :: 0 <= i < j < |idx| ==> idx[i] < idx[j]
    ensures forall i :: 0 <= i < k && IsFree(w[i], g[i]) ==> i in idx
  {
    if k == 0 then []
    else
      var rest := FreeIndices(w, g, k - 1);
      if IsFree(w[k - 1], g[k - 1]) then rest + [k - 1] else rest
  }

  // ----- triangular systems; rows of L are the entries of `l`

  /** L*x, as a vector of products with the rows of L. */
  ghost function Times(l: Mat, x: Vec, n: nat): Vec
    requires IsSquare(l, n) && |x| == n
  {
    Proj(l, x)
  }

  /** L'*x, as a combination of the rows of L. */
  ghost function TransposeTimes(l: Mat, x: Vec, n: nat): Vec
    requires IsSquare(l, n) && |x| == n
  {
    Comb(l, x, n)
  }

  lemma {:induction false} SumIsPrefix(a: Vec, b: Vec, k: nat)
    requires |a| == |b| && k <= |a|
    ensures SumTo(Had(a, b), k) == PrefixDot(a, b, k)
  {
    if k > 0 { SumIsPrefix(a, b, k - 1); }
  }

  lemma {:induction false} PrefixTail(a: Vec, b: Vec, k: nat, n: nat)
    requires k <= n <= |a| && n <= |b|
    requires forall t :: k <= t < n ==> a[t] == 0.0
    ensures PrefixDot(a, b, n) == PrefixDot(a, b, k)
    decreases n
  {
    if k < n {
      PrefixTail(a, b, k, n - 1);
      assert a[n - 1] * b[n - 1] == 0.0;
    }
  }

  lemma UnitProduct(x: real, u: real)
    requires u == 1.0
    ensures u * x == x
  {}

  lemma LowerRow(l: Mat, y: Vec, n: nat, a: nat)
    requires IsSquare(l, n) && |y| == n && a < n
    requires l[a][a] == 1.0 && forall t :: a < t < n ==> l[a][t] == 0.0
    ensures Dot(l[a], y) == PrefixDot(l[a], y, a) + y[a]
  {
    var row := l[a];
    SumIsPrefix(row, y, n);
    PrefixTail(row, y, a + 1, n);
    UnitProduct(y[a], row[a]);
  }

  /** Rows as plain values. */
  method CopyRows(l: array2<real>, n: nat) returns (rows: Mat)
    requires l.Length0 == l.Length1 == n
    ensures rows == Rows(l)
  {
    rows := seq(n, i requires 0 <= i < n reads l => Row(l, i));
  }

  /** L \ b by forward substitution. */
  method ForwardSolve(l: Mat, b: Vec, n: nat) returns (y: Vec)
    requires |b| == n && UnitLower(l, n)
    ensures |y| == n && Times(l, y, n) == b
  {
    y := Zero(n);
    for i := 0 to n
      invariant |y| == n
      invariant forall a :: 0 <= a < i ==> y[a] == b[a] - PrefixDot(l[a], y, a)
    {
      var v := b[i] - PrefixDot(l[i], y, i);
      ghost var before := y;
      y := y[i := v];
      forall a | 0 <= a <= i ensures PrefixDot(l[a], y, a) == PrefixDot(l[a], before, a) {
        PrefixDotEq(l[a], y, l[a], before, a);
      }
    }
    forall a | 0 <= a < n ensures Times(l, y, n)[a] == b[a] {
      LowerRow(l, y, n, a);
    }
    assert Times(l, y, n) == b;
  }

  /** Entry i of L'*x from the rows below i. */
  function TailSum(l: Mat, x: Vec, n: nat, i: nat, k: nat): real
    requires IsSquare(l, n) && |x| == n && i < n && k <= n
    decreases n - k
  {
    if k == n then 0.0 else x[k] * l[k][i] + TailSum(l, x, n, i, k + 1)
  }

  /** What back substitution subtracts in row i. */
  function RowsBelow(l: Mat, x: Vec, n: nat, i: nat): real
    requires IsSquare(l, n) && |x| == n && i < n
  {
    TailSum(l, x, n, i, i + 1)
  }

  lemma {:induction false} TailSumEq(l: Mat, x: Vec, x': Vec, n: nat, i: nat, k: nat)
    requires IsSquare(l, n) && |x| == |x'| == n && i < n && k <= n
    requires forall t :: k <= t < n ==> x[t] == x'[t]
    ensures TailSum(l, x, n, i, k) == TailSum(l, x', n, i, k)
    decreases n - k
  {
    if k < n { TailSumEq(l, x, x', n, i, k + 1); }
  }

  lemma {:induction false} SplitSum(l: Mat, x: Vec, n: nat, i: nat, k: nat)
    requires IsSquare(l, n) && |x| == n && i < n && k <= n
    ensures Dot(x, RowOf(l, n, i)) == SumTo(Had(x, RowOf(l, n, i)), k) + TailSum(l, x, n, i, k)
    decreases n - k
  {
    if k < n { SplitSum(l, x, n, i, k + 1); }
  }

  lemma UpperRow(l: Mat, x: Vec, n: nat, i: nat)
    requires UnitLower(l, n) && |x| == n && i < n
    ensures TransposeTimes(l, x, n)[i] == x[i] + RowsBelow(l, x, n, i)
  {
    CombAt(l, x, n, i);
    SplitSum(l, x, n, i, i);
    forall k | 0 <= k < i ensures Had(x, RowOf(l, n, i))[k] == 0.0 {
      assert x[k] * l[k][i] == 0.0;
    }
    SumToZero(Had(x, RowOf(l, n, i)), i);
    assert x[i] * l[i][i] == x[i];
  }

  /** L' \ z by back substitution. */
  method BackSolve(l: Mat, z: Vec, n: nat) returns (x: Vec)
    requires |z| == n && UnitLower(l, n)
    ensures |x| == n && TransposeTimes(l, x, n) == z
  {
    x := Zero(n);
    for i := n downto 0
      invariant |x| == n
      invariant forall a :: i <= a < n ==> x[a] == z[a] - RowsBelow(l, x, n, a)
    {
      var v := z[i] - RowsBelow(l, x, n, i);
      ghost var before := x;
      x := x[i := v];
      forall a | i <= a < n ensures RowsBelow(l, x, n, a) == RowsBelow(l, before, n, a) {
        TailSumEq(l, x, before, n, a, a + 1);
      }
    }
    forall a | 0 <= a < n ensures TransposeTimes(l, x, n)[a] == z[a] {
      UpperRow(l, x, n, a);
    }
    assert TransposeTimes(l, x, n) == z;
  }

  // ----- solving with the factors gives a direction of positive curvature

  /** L*D*L'*x = b */
  ghost predicate Solves(l: Mat, d: Vec, n: nat, x: Vec, b: Vec)
    requires IsSquare(l, n) && |d| == n && |x| == n && |b| == n
  {
    Times(l, Had(d, TransposeTimes(l, x, n)), n) == b
  }

  /** Solving with positive pivots gives b.x > 0 exactly when b is not zero. */
  lemma PositiveCurvature(l: Mat, d: Vec, n: nat, x: Vec, b: Vec)
    requires IsSquare(l, n) && |d| == n && |x| == n && |b| == n
    requires Solves(l, d, n, x, b) && forall t :: 0 <= t < n ==> d[t] > 0.0
    ensures Dot(b, x) >= 0.0
    ensures Dot(b, x) == 0.0 <==> b == Zero(n)
  {
    var u := TransposeTimes(l, x, n);
    var v := Had(d, u);
    Adjoint(l, x, v);
    assert Dot(b, x) == Dot(v, u);
    var h := Had(v, u);
    forall t | 0 <= t < n ensures h[t] >= 0.0 && (u[t] != 0.0 ==> h[t] > 0.0) {
      WeightedSquare(d[t], u[t], h[t]);
    }
    SumToNonNeg(h, n);
    if t :| 0 <= t < n && u[t] != 0.0 {
      TermLeSum(h, n, t);
      if b == Zero(n) { ZeroDot(b, x); }
    } else {
      SumToZero(h, n);
      forall a | 0 <= a < n ensures b[a] == 0.0 {
        SumToZero(Had(l[a], v), n);
      }
    }
  }

  lemma WeightedSquare(d: real, u: real, h: real)
    requires d > 0.0 && h == d * u * u
    ensures h >= 0.0 && (u != 0.0 ==> h > 0.0)
  {
    var s := u * u;
    Square(u, s);
    assert h == d * s;
    if u != 0.0 { MulPos(d, s); assert Mul(d, s) == h; }
  }

  lemma ZeroDot(b: Vec, x: Vec)
    requires |b| == |x| && b == Zero(|b|)
    ensures Dot(b, x) == 0.0
  {
    SumToZero(Had(b, x), |b|);
  }

  // ----- scattering back

  lemma ScatterMasked(g: Vec, r: Vec, v: Vec, idx: seq<nat>)
    requires |v| == |idx| && forall i :: 0 <= i < |idx| ==> idx[i] < |g|
    requires Scattered(r, v, idx, |g|)
    ensures Masked(Had(g, r), idx, |idx|) == Had(g, r)
  {
    var p := Had(g, r);
    forall i | 0 <= i < |g| ensures Masked(p, idx, |idx|)[i] == p[i] {
      if i in idx {
        var k :| 0 <= k < |idx| && idx[k] == i;
      } else {
        assert g[i] * r[i] == 0.0;
      }
    }
    assert Masked(p, idx, |idx|) == p;
  }

  /** The product with a scattered vector only sees the positions it was scattered to. */
  lemma ScatterDot(g: Vec, r: Vec, v: Vec, idx: seq<nat>)
    requires |v| == |idx| && forall i :: 0 <= i < |idx| ==> idx[i] < |g|
    requires forall i, j :: 0 <= i < j < |idx| ==> idx[i] != idx[j]
    requires Scattered(r, v, idx, |g|)
    ensures Dot(g, r) == Dot(Gather(g, idx), v)
  {
    var p := Had(g, r);
    GatherSum(p, idx, |idx|);
    ScatterMasked(g, r, v, idx);
    var q := Had(Gather(g, idx), v);
    forall k | 0 <= k < |idx| ensures Gather(p, idx)[k] == q[k] {
      SameProduct(g[idx[k]], r[idx[k]], v[k]);
    }
    assert Gather(p, idx) == q;
  }

  // ----- the direction

  datatype Factors = Factors(l: Mat, d: Vec, perm: seq<nat>, theta: Vec)

  /** u solves the system with the modified free block, in pivot order, for the negative of
      the free gradient; d is u put back in its places. */
  ghost predicate IsDirection(h: Mat, g: Vec, idx: seq<nat>, mu: real, beta: real, f: Factors, x: Vec, d: Vec)
    requires IsSquare(h, |g|) && mu > 0.0 && beta > 0.0
    requires forall i :: 0 <= i < |idx| ==> idx[i] < |g|
  {
    var n := |idx|;
    && |x| == n
    && IsFactorisation(Block(h, idx), n, Delta(Block(h, idx), n, mu), beta, f.l, f.d, f.perm, f.theta)
    && Solves(f.l, f.d, n, x, Gather(Gather(g, idx), f.perm))
    && |d| == |g|
    && (forall a :: 0 <= a < n ==> d[idx[f.perm[a]]] == -x[a])
    && (forall i :: 0 <= i < |g| && i !in idx ==> d[i] == 0.0)
  }

  lemma PivotsPositive(m: Mat, n: nat, delta: real, beta: real, f: Factors)
    requires IsSquare(m, n) && beta > 0.0 && delta > 0.0
    requires IsFactorisation(m, n, delta, beta, f.l, f.d, f.perm, f.theta)
    ensures forall t :: 0 <= t < n ==> f.d[t] > 0.0
  {
    forall t | 0 <= t < n ensures f.d[t] > 0.0 {
      assert IsTheta(f.l, f.d, n, t, f.theta[t]);
    }
  }

  lemma GatherZero(v: Vec, perm: seq<nat>)
    requires IsPermutation(perm, |v|)
    ensures Gather(v, perm) == Zero(|v|) <==> v == Zero(|v|)
  {
    if Gather(v, perm) == Zero(|v|) {
      forall i | 0 <= i < |v| ensures v[i] == 0.0 {
        Onto(perm, |v|, i);
        var a :| 0 <= a < |v| && perm[a] == i;
        assert Gather(v, perm)[a] == 0.0;
      }
    }
  }

  /** In pivot order, the product with the scattered solution is minus b.x. */
  lemma PermutedDot(free: Vec, v: Vec, perm: seq<nat>, x: Vec)
    requires IsPermutation(perm, |free|) && |v| == |x| == |free|
    requires forall a :: 0 <= a < |x| ==> v[perm[a]] == -x[a]
    ensures Dot(free, v) == -Dot(Gather(free, perm), x)
  {
    var n, b := |free|, Gather(free, perm);
    PermutedSum(Had(free, v), perm);
    var h := Gather(Had(free, v), perm);
    forall a | 0 <= a < n ensures h[a] == Scale(-1.0, Had(b, x))[a] {
      NegatedProduct(b[a], x[a], v[perm[a]]);
    }
    assert h == Scale(-1.0, Had(b, x));
    SumToScale(-1.0, Had(b, x), n);
  }

  lemma DownhillIfSolved(g: Vec, idx: seq<nat>, l: Mat, ds: Vec, perm: seq<nat>, x: Vec, d: Vec)
    requires forall i :: 0 <= i < |idx| ==> idx[i] < |g|
    requires forall i, j :: 0 <= i < j < |idx| ==> idx[i] != idx[j]
    requires IsPermutation(perm, |idx|) && IsSquare(l, |idx|) && |ds| == |x| == |idx| && |d| == |g|
    requires Solves(l, ds, |idx|, x, Gather(Gather(g, idx), perm))
    requires forall t :: 0 <= t < |ds| ==> ds[t] > 0.0
    requires forall a :: 0 <= a < |idx| ==> d[idx[perm[a]]] == -x[a]
    requires forall i :: 0 <= i < |g| && i !in idx ==> d[i] == 0.0
    ensures Dot(g, d) <= 0.0
    ensures Dot(g, d) == 0.0 <==> Gather(g, idx) == Zero(|idx|)
  {
    var n, free, v := |idx|, Gather(g, idx), Gather(d, idx);
    ScatterDot(g, d, v, idx);
    PermutedDot(free, v, perm, x);
    PositiveCurvature(l, ds, n, x, Gather(free, perm));
    GatherZero(free, perm);
  }

  /** A direction made this way goes downhill: g.d < 0 unless the free gradient is zero. */
  lemma Descent(h: Mat, g: Vec, idx: seq<nat>, mu: real, beta: real, f: Factors, x: Vec, d: Vec)
    requires IsSquare(h, |g|) && mu > 0.0 && beta > 0.0
    requires forall i :: 0 <= i < |idx| ==> idx[i] < |g|
    requires forall i, j :: 0 <= i < j < |idx| ==> idx[i] != idx[j]
    requires IsDirection(h, g, idx, mu, beta, f, x, d)
    ensures Dot(g, d) <= 0.0
    ensures Dot(g, d) == 0.0 <==> forall i :: 0 <= i < |idx| ==> g[idx[i]] == 0.0
  {
    var n := |idx|;
    PivotsPositive(Block(h, idx), n, Delta(Block(h, idx), n, mu), beta, f);
    DownhillIfSolved(g, idx, f.l, f.d, f.perm, x, d);
    var free := Gather(g, idx);
    assert forall i :: 0 <= i < n ==> free[i] == g[idx[i]];
  }

  /** L' \ (D^-1 .* (L \ b)) */
  method SolveFactored(l: Mat, ds: Vec, b: Vec, n: nat) returns (x: Vec)
    requires UnitLower(l, n) && |ds| == |b| == n && forall t :: 0 <= t < n ==> ds[t] > 0.0
    ensures |x| == n && Solves(l, ds, n, x, b)
  {
    var y := ForwardSolve(l, b, n);
    var z := seq(n, a requires 0 <= a < n => y[a] / ds[a]);
    x := BackSolve(l, z, n);
    forall a | 0 <= a < n ensures Had(ds, z)[a] == y[a] {
      DivideBack(y[a], ds[a]);
    }
    assert Had(ds, z) == y;
  }

  lemma DivideBack(y: real, d: real)
    requires d > 0.0
    ensures d * (y / d) == y
  {}

  /** The factors as plain values. */
  method FactoriseBlock(m: Mat, n: nat, mu: real, beta: real)
    returns (l: Mat, ds: Vec, perm: seq<nat>, ghost f: Factors)
    requires IsSquare(m, n) && mu > 0.0 && beta > 0.0
    ensures f.l == l && f.d == ds && f.perm == perm
    ensures IsFactorisation(m, n, Delta(m, n, mu), beta, l, ds, perm, f.theta)
    ensures forall t :: 0 <= t < n ==> ds[t] > 0.0
  {
    var lower, pivots, order, theta := Factorise(m, mu, beta);
    l := CopyRows(lower, n);
    ds, perm := pivots[..], order[..];
    f := Factors(l, ds, perm, theta);
    PivotsPositive(m, n, Delta(m, n, mu), beta, f);
  }

  /** -u put back through the pivot order and the free set. */
  method PutBack(u: Vec, perm: seq<nat>, idx: seq<nat>, n: nat) returns (d: Vec)
    requires |u| == |idx| && IsPermutation(perm, |idx|) && forall i :: 0 <= i < |idx| ==> idx[i] < n
    requires forall i, j :: 0 <= i < j < |idx| ==> idx[i] != idx[j]
    ensures |d| == n && forall a :: 0 <= a < |u| ==> d[idx[perm[a]]] == -u[a]
    ensures forall i :: 0 <= i < n && i !in idx ==> d[i] == 0.0
  {
    var step := Scatter(seq(|u|, a requires 0 <= a < |u| => -u[a]), perm, |u|);
    d := Scatter(step, idx, n);
  }

  method Direction(h: Mat, g: Vec, idx: seq<nat>, mu: real, beta: real)
    returns (d: Vec, ghost f: Factors, x: Vec)
    requires IsSquare(h, |g|) && mu > 0.0 && beta > 0.0
    requires forall i :: 0 <= i < |idx| ==> idx[i] < |g|
    requires forall i, j :: 0 <= i < j < |idx| ==> idx[i] != idx[j]
    ensures IsDirection(h, g, idx, mu, beta, f, x, d)
  {
    var n := |idx|;
    var l, ds, perm;
    l, ds, perm, f := FactoriseBlock(Block(h, idx), n, mu, beta);
    var free := seq(n, k requires 0 <= k < n => g[idx[k]]);
    var b := seq(n, a requires 0 <= a < n => free[perm[a]]);
    assert free == Gather(g, idx) && b == Gather(free, perm);
    x := SolveFactored(l, ds, b, n);
    d := PutBack(x, perm, idx, |g|);
  }

  /** w(abs(w) < threshold) = 0 */
  function Truncate(w: Vec, threshold: real): (r: Vec) {
    seq(|w|, i requires 0 <= i < |w| => if Abs(w[i]) < threshold then 0.0 else w[i])
  }

  /** sum(abs(g(free==1))) */
  ghost function FreeNorm(w: Vec, g: Vec): real
    requires |w| == |g|
  {
    Norm1(Gather(g, FreeIndices(w, g, |g|)))
  }

  datatype Search = Stop | Descend(d: Vec, slope: real)

  /** The default modification parameter of the factorisation, and the one of the retry. */
  const DEFAULT_MU := 0.000000000001
  const RETRY_MU := 1.0

  /** d is a direction of the free block with modification parameter mu. */
  ghost predicate MadeWith(h: Mat, g: Vec, idx: seq<nat>, mu: real, beta: real, d: Vec)
    requires IsSquare(h, |g|) && mu > 0.0 && beta > 0.0
    requires forall i :: 0 <= i < |idx| ==> idx[i] < |g|
  {
    exists f, x :: IsDirection(h, g, idx, mu, beta, f, x, d)
  }

  /** d is the first direction, or, exactly when that is longer than 1e5, the heavily modified one. */
  ghost predicate IsChosen(h: Mat, g: Vec, idx: seq<nat>, beta: real, retry: real, d: Vec)
    requires IsSquare(h, |g|) && beta > 0.0 && retry > 0.0
    requires forall i :: 0 <= i < |idx| ==> idx[i] < |g|
  {
    exists first :: MadeWith(h, g, idx, DEFAULT_MU, beta, first) &&
      if Norm1(first) > 100000.0 then MadeWith(h, g, idx, RETRY_MU, retry, d) else d == first
  }

  lemma NonZeroEntry(v: Vec)
    requires Norm1(v) > 0.0
    ensures exists k :: 0 <= k < |v| && v[k] != 0.0
  {
    if forall k :: 0 <= k < |v| ==> v[k] == 0.0 {
      SumToZero(AbsVec(v), |v|);
    }
  }

  /** Unless the free slopes are all zero, the direction chosen goes strictly downhill. */
  lemma ChosenDescends(h: Mat, g: Vec, idx: seq<nat>, beta: real, retry: real, d: Vec)
    requires IsSquare(h, |g|) && beta > 0.0 && retry > 0.0 && |d| == |g|
    requires forall i :: 0 <= i < |idx| ==> idx[i] < |g|
    requires forall i, j :: 0 <= i < j < |idx| ==> idx[i] != idx[j]
    requires IsChosen(h, g, idx, beta, retry, d) && Norm1(Gather(g, idx)) > 0.0
    ensures Dot(g, d) < 0.0
  {
    NonZeroEntry(Gather(g, idx));
    if MadeWith(h, g, idx, DEFAULT_MU, beta, d) {
      var f, x :| IsDirection(h, g, idx, DEFAULT_MU, beta, f, x, d);
      Descent(h, g, idx, DEFAULT_MU, beta, f, x, d);
    } else {
      var f, x :| IsDirection(h, g, idx, RETRY_MU, retry, f, x, d);
      Descent(h, g, idx, RETRY_MU, retry, f, x, d);
    }
  }

  /** One direction computation: free set, stopping tests, direction, and the retry with a
      heavier modification when the first direction is too long. Whatever the Hessian is,
      an accepted direction is one of strict descent. */
  method FindDirection(h: Mat, w: Vec, g: Vec, threshold: real, optTol: real, beta: real, betaRetry: real)
    returns (r: Search)
    requires IsSquare(h, |g|) && |w| == |g| && optTol > 0.0 && beta > 0.0 && betaRetry > 0.0
    ensures r.Stop? <==> FreeNorm(Truncate(w, threshold), g) < optTol
    ensures r.Descend? ==>
      && |r.d| == |g| && r.slope == Dot(g, r.d) && r.slope < 0.0
      && IsChosen(h, g, FreeIndices(Truncate(w, threshold), g, |g|), beta, betaRetry, r.d)
  {
    var t := Truncate(w, threshold);
    var idx := FreeIndices(t, g, |g|);
    var free := seq(|idx|, k requires 0 <= k < |idx| => g[idx[k]]);
    assert free == Gather(g, idx);
    if Norm1(free) < optTol {
      return Stop;
    }
    NonZeroEntry(free);
    var d, f, x := Direction(h, g, idx, DEFAULT_MU, beta);
    Descent(h, g, idx, DEFAULT_MU, beta, f, x, d);
    ghost var first := d;
    assert MadeWith(h, g, idx, DEFAULT_MU, beta, first);
    if Norm1(d) > 100000.0 {
      d, f, x := Direction(h, g, idx, RETRY_MU, betaRetry);
      Descent(h, g, idx, RETRY_MU, betaRetry, f, x, d);
      assert MadeWith(h, g, idx, RETRY_MU, betaRetry, d);
    }
    return Descend(d, Dot(g, d));
  }
}
