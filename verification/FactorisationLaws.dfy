/** What a result of `Factorise` is good for: it reconstructs the matrix up to a non-negative
    diagonal shift, and its columns stay bounded, except the first. */
module FactorisationLaws {
  import opened LinearAlgebra
  import opened Indexing
  import opened ModifiedCholesky

  ghost predicate Symmetric(m: Mat, n: nat)
    requires IsSquare(m, n)
  {
    forall i, k :: 0 <= i < n && 0 <= k < n ==> m[i][k] == m[k][i]
  }

  lemma {:induction false} WeightedSymmetric(a: Vec, d: Vec, b: Vec, k: nat)
    requires k <= |a| && k <= |b| && k <= |d|
    ensures WeightedDot(a, d, b, k) == WeightedDot(b, d, a, k)
  {
    if k > 0 {
      WeightedSymmetric(a, d, b, k - 1);
      Reassociate(a[k - 1], d[k - 1], b[k - 1]);
      Reassociate(b[k - 1], d[k - 1], a[k - 1]);
    }
  }

  /** The amount added to diagonal entry a of the permuted matrix. */
  ghost function Shift(m: Mat, n: nat, l: Mat, d: Vec, perm: seq<nat>, a: nat): real
    requires IsSquare(m, n) && IsPermutation(perm, n) && IsSquare(l, n) && |d| == n && a < n
  {
    d[a] - Schur(m, perm, l, d, n, a, a)
  }

  lemma DiagonalProduct(m: Mat, n: nat, l: Mat, d: Vec, perm: seq<nat>, a: nat)
    requires IsSquare(m, n) && IsPermutation(perm, n) && UnitLower(l, n) && |d| == n && a < n
    ensures Product(l, d, n, a, a) == m[perm[a]][perm[a]] + Shift(m, n, l, d, perm, a)
  {
    WeightedTail(l[a], d, l[a], a + 1, n);
    assert l[a][a] == 1.0;
  }

  lemma OffDiagonal(m: Mat, n: nat, l: Mat, d: Vec, perm: seq<nat>, a: nat, b: nat)
    requires IsSquare(m, n) && IsPermutation(perm, n) && IsSquare(l, n) && |d| == n
    requires Symmetric(m, n) && Reconstructs(m, n, l, d, perm)
    requires a < n && b < n && a != b
    ensures Product(l, d, n, a, b) == m[perm[a]][perm[b]]
  {
    if a < b {
      WeightedSymmetric(l[a], d, l[b], n);
      assert Product(l, d, n, b, a) == m[perm[b]][perm[a]];
    }
  }

  /** The remaining diagonal x is at least delta, and the entries below it in L*D, where the source
      looks at them, do not exceed what it and beta allow. */
  ghost predicate NotRaised(l: Mat, d: Vec, n: nat, t: nat, x: real, delta: real, beta: real)
    requires IsSquare(l, n) && |d| == n && t < n
  {
    && x >= delta
    && (0 < t < n - 1 ==> forall i :: t < i < n ==>
          Mul(Unscaled(l, d, n, i, t), Unscaled(l, d, n, i, t)) <= Mul(Mul(beta, beta), x))
  }

  lemma ThetaBounds(l: Mat, d: Vec, n: nat, t: nat, theta: real, x: real, delta: real, beta: real)
    requires IsSquare(l, n) && |d| == n && t < n && beta > 0.0 && delta > 0.0
    requires IsTheta(l, d, n, t, theta) && x >= delta
    ensures Mul(theta, theta) <= Mul(Mul(beta, beta), x) <==> NotRaised(l, d, n, t, x, delta, beta)
  {
    if 0 < t < n - 1 {
      forall i | t < i < n
        ensures Mul(Unscaled(l, d, n, i, t), Unscaled(l, d, n, i, t)) <= Mul(theta, theta)
      {
        var u := Unscaled(l, d, n, i, t);
        SquareLe(u, theta, u * u, theta * theta);
      }
      var i :| t < i < n && Abs(Unscaled(l, d, n, i, t)) == theta;
      AbsSquare(Unscaled(l, d, n, i, t));
    } else {
      Square(beta, beta * beta);
      ScaleMono(beta * beta, 0.0, x);
    }
  }

  lemma AbsSquare(u: real)
    ensures Mul(Abs(u), Abs(u)) == Mul(u, u)
  {}

  lemma ShiftAt(m: Mat, n: nat, delta: real, beta: real, l: Mat, d: Vec, perm: seq<nat>, theta: Vec, a: nat)
    requires IsSquare(m, n) && IsPermutation(perm, n) && IsSquare(l, n) && |d| == n && |theta| == n
    requires beta > 0.0 && delta > 0.0
    requires PivotsModified(m, n, delta, beta, l, d, perm, theta) && a < n
    ensures d[a] >= delta && Shift(m, n, l, d, perm, a) >= 0.0
    ensures Shift(m, n, l, d, perm, a) == 0.0
       <==> NotRaised(l, d, n, a, Schur(m, perm, l, d, n, a, a), delta, beta)
  {
    var x := Schur(m, perm, l, d, n, a, a);
    assert IsTheta(l, d, n, a, theta[a]);
    PivotShift(x, theta[a], beta, delta);
    if x >= delta { ThetaBounds(l, d, n, a, theta[a], x, delta, beta); }
  }

  /** L*D*L' is the permuted matrix plus a non-negative diagonal, with pivots of at least delta,
      and the shift at a pivot is zero exactly when no bound had to raise it. */
  lemma Reconstruction(m: Mat, n: nat, delta: real, beta: real, l: Mat, d: Vec, perm: seq<nat>, theta: Vec, a: nat,
          b: nat)
    requires IsSquare(m, n) && beta > 0.0 && delta > 0.0 && Symmetric(m, n)
    requires IsFactorisation(m, n, delta, beta, l, d, perm, theta)
    requires a < n && b < n
    ensures Product(l, d, n, a, b) == m[perm[a]][perm[b]] + if a == b then Shift(m, n, l, d, perm, a) else 0.0
    ensures d[a] >= delta && Shift(m, n, l, d, perm, a) >= 0.0
    ensures Shift(m, n, l, d, perm, a) == 0.0
       <==> NotRaised(l, d, n, a, Schur(m, perm, l, d, n, a, a), delta, beta)
  {
    ShiftAt(m, n, delta, beta, l, d, perm, theta, a);
    if a == b {
      DiagonalProduct(m, n, l, d, perm, a);
    } else {
      OffDiagonal(m, n, l, d, perm, a, b);
    }
  }

  lemma PivotShift(x: real, theta: real, beta: real, delta: real)
    requires beta > 0.0 && delta > 0.0
    ensures PivotOf(x, theta, beta, delta) - x >= 0.0
    ensures PivotOf(x, theta, beta, delta) - x == 0.0
       <==> x >= delta && Mul(theta, theta) <= Mul(Mul(beta, beta), x)
  {
    if x >= delta {
      SquaredRatio(theta, beta, x, theta * theta, beta * beta);
    }
  }

  /** (theta/beta)^2 against x and theta^2 against beta^2*x, with the squares passed. */
  lemma SquaredRatio(theta: real, beta: real, x: real, tt: real, bb: real)
    requires beta > 0.0 && tt == theta * theta && bb == beta * beta
    ensures theta / beta * (theta / beta) <= x <==> tt <= bb * x
    ensures theta / beta * (theta / beta) == x <==> tt == bb * x
  {
    var r := theta / beta;
    assert theta == r * beta;
    var rr := r * r;
    Square(beta, bb);
    assert tt == bb * rr;
    assert bb * (x - rr) == bb * x - tt;
    if rr < x {
      MulPos(bb, x - rr);
      assert Mul(bb, x - rr) == bb * (x - rr);
    } else if rr > x {
      MulPos(bb, rr - x);
      assert Mul(bb, rr - x) == bb * (rr - x);
      assert bb * (rr - x) == tt - bb * x;
    }
  }

  // ----- growth of the factor

  lemma SquareLe(x: real, theta: real, xx: real, tt: real)
    requires Abs(x) <= theta && xx == x * x && tt == theta * theta
    ensures xx <= tt
  {
    var y := Abs(x);
    assert y * y == xx;
    ScaleMono(y, y, theta);
    ScaleMono(theta, y, theta);
  }

  /** If (l*d)^2 <= beta^2*d then l^2*d <= beta^2, and conversely; so for equality. */
  lemma GrowthScalar(l: real, d: real, x: real, beta: real)
    requires d > 0.0 && x == l * d
    ensures x * x <= beta * beta * d <==> l * l * d <= beta * beta
    ensures x * x == beta * beta * d <==> l * l * d == beta * beta
  {
    var g, b := l * l * d, beta * beta;
    assert x * x == d * g;
    assert d * (b - g) == b * d - x * x;
    if g < b {
      MulPos(d, b - g);
      assert Mul(d, b - g) == d * (b - g);
    } else if g > b {
      MulPos(d, g - b);
      assert Mul(d, g - b) == d * (g - b);
      assert d * (g - b) == -(d * (b - g));
    }
  }

  /** l_it^2 * d_t */
  ghost function Growth(l: Mat, d: Vec, n: nat, i: nat, t: nat): real
    requires IsSquare(l, n) && |d| == n && i < n && t < n
  {
    Mul(Mul(l[i][t], l[i][t]), d[t])
  }

  lemma GrowthIff(l: Mat, d: Vec, n: nat, i: nat, t: nat, beta: real)
    requires IsSquare(l, n) && |d| == n && i < n && t < n && d[t] > 0.0
    ensures Growth(l, d, n, i, t) <= Mul(beta, beta)
       <==> Mul(Unscaled(l, d, n, i, t), Unscaled(l, d, n, i, t)) <= Mul(Mul(beta, beta), d[t])
    ensures Growth(l, d, n, i, t) == Mul(beta, beta)
       <==> Mul(Unscaled(l, d, n, i, t), Unscaled(l, d, n, i, t)) == Mul(Mul(beta, beta), d[t])
  {
    GrowthScalar(l[i][t], d[t], Unscaled(l, d, n, i, t), beta);
  }

  lemma BoundedByPivot(x: real, d: real, schur: real, theta: real, beta: real, delta: real)
    requires beta > 0.0 && delta > 0.0 && d == PivotOf(schur, theta, beta, delta)
    requires Abs(x) <= theta
    ensures Mul(x, x) <= Mul(Mul(beta, beta), d)
  {
    var tt := theta * theta;
    SquareLe(x, theta, x * x, tt);
    SquaredRatio(theta, beta, d, tt, beta * beta);
  }

  /** Every column of the factor but the first is bounded by beta. */
  lemma GrowthBound(m: Mat, n: nat, delta: real, beta: real, l: Mat, d: Vec, perm: seq<nat>, theta: Vec, i: nat, t: nat)
    requires IsSquare(m, n) && beta > 0.0 && delta > 0.0
    requires IsFactorisation(m, n, delta, beta, l, d, perm, theta)
    requires 0 < t < i < n
    ensures Growth(l, d, n, i, t) <= Mul(beta, beta)
  {
    assert IsTheta(l, d, n, t, theta[t]);
    BoundedByPivot(Unscaled(l, d, n, i, t), d[t], Schur(m, perm, l, d, n, t, t), theta[t], beta, delta);
    GrowthIff(l, d, n, i, t, beta);
  }

  lemma PivotScalar(x: real, theta: real, beta: real, delta: real, d: real)
    requires beta > 0.0 && delta > 0.0 && d == PivotOf(x, theta, beta, delta)
    ensures d == delta || d == Abs(x) || (theta != 0.0 && Mul(theta, theta) == Mul(Mul(beta, beta), d))
  {
    SquaredRatio(theta, beta, d, theta * theta, beta * beta);
    if theta == 0.0 { assert theta / beta == 0.0; }
  }

  lemma ReachedAt(l: Mat, d: Vec, n: nat, t: nat, theta: real, beta: real)
    requires IsSquare(l, n) && |d| == n && t < n && d[t] > 0.0
    requires IsTheta(l, d, n, t, theta) && theta != 0.0 && Mul(theta, theta) == Mul(Mul(beta, beta), d[t])
    ensures 0 < t < n - 1 && exists i :: t < i < n && Growth(l, d, n, i, t) == Mul(beta, beta)
  {
    var i :| t < i < n && Abs(Unscaled(l, d, n, i, t)) == theta;
    AbsSquare(Unscaled(l, d, n, i, t));
    GrowthIff(l, d, n, i, t, beta);
  }

  /** No pivot is larger than it must be: it is delta, or the magnitude of what was left on the
      diagonal, or some entry of its column, which is then neither the first nor the last, has
      grown as far as beta allows. */
  lemma PivotReason(m: Mat, n: nat, delta: real, beta: real, l: Mat, d: Vec, perm: seq<nat>, theta: Vec, t: nat)
    requires IsSquare(m, n) && beta > 0.0 && delta > 0.0 && t < n
    requires IsFactorisation(m, n, delta, beta, l, d, perm, theta)
    ensures d[t] >= delta && d[t] >= Abs(Schur(m, perm, l, d, n, t, t))
    ensures
      || d[t] == delta
      || d[t] == Abs(Schur(m, perm, l, d, n, t, t))
      || (0 < t < n - 1 && exists i :: t < i < n && Growth(l, d, n, i, t) == Mul(beta, beta))
  {
    var x := Schur(m, perm, l, d, n, t, t);
    assert IsTheta(l, d, n, t, theta[t]);
    PivotScalar(x, theta[t], beta, delta, d[t]);
    if d[t] != delta && d[t] != Abs(x) {
      ReachedAt(l, d, n, t, theta[t], beta);
    }
  }

  // ----- matrices that need no modification

  /** The permuted matrix has factors of its own, without any shift, whose pivots are at least
      delta and whose columns after the first stay within the bound. */
  ghost predicate OwnFactors(m: Mat, n: nat, delta: real, beta: real, perm: seq<nat>, l: Mat, d: Vec)
    requires IsSquare(m, n) && IsPermutation(perm, n)
  {
    && UnitLower(l, n) && |d| == n
    && (forall a, b :: 0 <= b <= a < n ==> Product(l, d, n, a, b) == m[perm[a]][perm[b]])
    && (forall t :: 0 <= t < n ==> d[t] >= delta)
    && (forall i, t :: 0 < t < i < n ==> Growth(l, d, n, i, t) <= Mul(beta, beta))
  }

  lemma {:induction false} WeightedEq(a: Vec, d: Vec, b: Vec, a': Vec, d': Vec, b': Vec, k: nat)
    requires k <= |a| && k <= |b| && k <= |d| && k <= |a'| && k <= |b'| && k <= |d'|
    requires forall t :: 0 <= t < k ==> a[t] == a'[t] && d[t] == d'[t] && b[t] == b'[t]
    ensures WeightedDot(a, d, b, k) == WeightedDot(a', d', b', k)
  {
    if k > 0 { WeightedEq(a, d, b, a', d', b', k - 1); }
  }

  lemma LastTerm(a: Vec, d: Vec, b: Vec, t: nat)
    requires t < |a| && t < |b| && t < |d| && b[t] == 1.0
    ensures WeightedDot(a, d, b, t + 1) == WeightedDot(a, d, b, t) + a[t] * d[t]
  {
    UnitFactor(a[t] * d[t], b[t]);
  }

  lemma UnitFactor(x: real, u: real)
    requires u == 1.0
    ensures x * u == x
  {}

  /** An entry of L*D*L' on or below the diagonal, from the first columns and its own. */
  lemma LowerProduct(l: Mat, d: Vec, n: nat, i: nat, t: nat)
    requires UnitLower(l, n) && |d| == n && t <= i < n
    ensures Product(l, d, n, i, t) == WeightedDot(l[i], d, l[t], t) + Unscaled(l, d, n, i, t)
  {
    WeightedTail(l[i], d, l[t], t + 1, n);
    LastTerm(l[i], d, l[t], t);
  }

  /** The first k columns are the same. */
  ghost predicate SameColumns(l: Mat, d: Vec, l': Mat, d': Vec, n: nat, k: nat)
    requires IsSquare(l, n) && IsSquare(l', n) && |d| == |d'| == n && k <= n
  {
    && (forall t :: 0 <= t < k ==> d[t] == d'[t])
    && (forall i, t :: 0 <= i < n && 0 <= t < k ==> l[i][t] == l'[i][t])
  }

  lemma SameBelow(m: Mat, n: nat, l: Mat, d: Vec, l': Mat, d': Vec, perm: seq<nat>, t: nat, i: nat)
    requires IsSquare(m, n) && IsPermutation(perm, n) && t <= i < n
    requires UnitLower(l, n) && UnitLower(l', n) && |d| == |d'| == n && SameColumns(l, d, l', d', n, t)
    requires Product(l', d', n, i, t) == m[perm[i]][perm[t]]
    ensures i == t ==> Schur(m, perm, l, d, n, t, t) == d'[t]
    ensures i > t && Product(l, d, n, i, t) == m[perm[i]][perm[t]] ==>
      Unscaled(l, d, n, i, t) == Unscaled(l', d', n, i, t)
  {
    LowerProduct(l, d, n, i, t);
    LowerProduct(l', d', n, i, t);
    WeightedEq(l[i], d, l[t], l'[i], d', l'[t], t);
    if i == t { assert l'[t][t] * d'[t] == d'[t]; }
  }

  lemma CancelPivot(b: real, d: real, d': real)
    requires b > 0.0 && Mul(b, d) <= Mul(b, d')
    ensures d <= d'
  {
    if d > d' { MulPos(b, d - d'); MulAdd(b, d', d - d'); }
  }

  lemma SamePivot(m: Mat, n: nat, delta: real, beta: real, l: Mat, d: Vec, perm: seq<nat>, theta: Vec, l': Mat, d': Vec,
                  t: nat)
    requires IsSquare(m, n) && beta > 0.0 && delta > 0.0 && t < n
    requires IsFactorisation(m, n, delta, beta, l, d, perm, theta)
    requires OwnFactors(m, n, delta, beta, perm, l', d') && SameColumns(l, d, l', d', n, t)
    ensures d[t] == d'[t]
    ensures forall i :: t < i < n ==> Unscaled(l, d, n, i, t) == Unscaled(l', d', n, i, t)
  {
    SameBelow(m, n, l, d, l', d', perm, t, t);
    forall i | t < i < n ensures Unscaled(l, d, n, i, t) == Unscaled(l', d', n, i, t) {
      SameBelow(m, n, l, d, l', d', perm, t, i);
    }
    PivotReason(m, n, delta, beta, l, d, perm, theta, t);
    if d[t] != d'[t] {
      var i :| t < i < n && Growth(l, d, n, i, t) == Mul(beta, beta);
      GrowthIff(l, d, n, i, t, beta);
      GrowthIff(l', d', n, i, t, beta);
      Square(beta, beta * beta);
      CancelPivot(Mul(beta, beta), d[t], d'[t]);
    }
  }

  lemma SameQuotient(x: real, y: real, d: real)
    requires d > 0.0 && x * d == y * d
    ensures x == y
  {}

  lemma OneMoreColumn(l: Mat, d: Vec, l': Mat, d': Vec, n: nat, t: nat)
    requires UnitLower(l, n) && UnitLower(l', n) && |d| == |d'| == n && t < n
    requires SameColumns(l, d, l', d', n, t) && d[t] == d'[t] && d[t] > 0.0
    requires forall i :: t < i < n ==> Unscaled(l, d, n, i, t) == Unscaled(l', d', n, i, t)
    ensures SameColumns(l, d, l', d', n, t + 1)
  {
    forall i | 0 <= i < n ensures l[i][t] == l'[i][t] {
      if i > t {
        assert Unscaled(l, d, n, i, t) == Unscaled(l', d', n, i, t);
        SameQuotient(l[i][t], l'[i][t], d[t]);
      }
    }
  }

  /** If the permuted matrix has factors of its own within the bounds, they are what is returned. */
  lemma {:induction false} OwnFactorsKept(m: Mat, n: nat, delta: real, beta: real, l: Mat, d: Vec, perm: seq<nat>,
                                          theta: Vec, l': Mat, d': Vec, k: nat)
    requires IsSquare(m, n) && beta > 0.0 && delta > 0.0 && k <= n
    requires IsFactorisation(m, n, delta, beta, l, d, perm, theta)
    requires OwnFactors(m, n, delta, beta, perm, l', d')
    ensures SameColumns(l, d, l', d', n, k)
  {
    if k > 0 {
      var t := k - 1;
      OwnFactorsKept(m, n, delta, beta, l, d, perm, theta, l', d', t);
      SamePivot(m, n, delta, beta, l, d, perm, theta, l', d', t);
      PivotReason(m, n, delta, beta, l, d, perm, theta, t);
      OneMoreColumn(l, d, l', d', n, t);
    }
  }

  lemma UnshiftedOwn(m: Mat, n: nat, delta: real, beta: real, l: Mat, d: Vec, perm: seq<nat>, theta: Vec)
    requires IsSquare(m, n) && beta > 0.0 && delta > 0.0 && Symmetric(m, n)
    requires IsFactorisation(m, n, delta, beta, l, d, perm, theta)
    requires forall a :: 0 <= a < n ==> Shift(m, n, l, d, perm, a) == 0.0
    ensures OwnFactors(m, n, delta, beta, perm, l, d)
  {
    forall a, b | 0 <= b <= a < n ensures Product(l, d, n, a, b) == m[perm[a]][perm[b]] {
      Reconstruction(m, n, delta, beta, l, d, perm, theta, a, b);
    }
    forall t | 0 <= t < n ensures d[t] >= delta {
      ShiftAt(m, n, delta, beta, l, d, perm, theta, t);
    }
    forall i, t | 0 < t < i < n ensures Growth(l, d, n, i, t) <= Mul(beta, beta) {
      GrowthBound(m, n, delta, beta, l, d, perm, theta, i, t);
    }
  }

  lemma SameFactors(l: Mat, d: Vec, l': Mat, d': Vec, n: nat)
    requires IsSquare(l, n) && IsSquare(l', n) && |d| == |d'| == n && SameColumns(l, d, l', d', n, n)
    ensures l == l' && d == d'
  {
    forall i | 0 <= i < n ensures l[i] == l'[i] {}
  }

  lemma OwnShift(m: Mat, n: nat, delta: real, beta: real, perm: seq<nat>, l: Mat, d: Vec)
    requires IsSquare(m, n) && IsPermutation(perm, n) && OwnFactors(m, n, delta, beta, perm, l, d)
    ensures forall a :: 0 <= a < n ==> Shift(m, n, l, d, perm, a) == 0.0
  {
    forall a | 0 <= a < n ensures Shift(m, n, l, d, perm, a) == 0.0 {
      DiagonalProduct(m, n, l, d, perm, a);
      assert Product(l, d, n, a, a) == m[perm[a]][perm[a]];
    }
  }

  lemma OwnUnshifted(m: Mat, n: nat, delta: real, beta: real, l: Mat, d: Vec, perm: seq<nat>, theta: Vec, l': Mat,
                     d': Vec)
    requires IsSquare(m, n) && beta > 0.0 && delta > 0.0
    requires IsFactorisation(m, n, delta, beta, l, d, perm, theta)
    requires OwnFactors(m, n, delta, beta, perm, l', d')
    ensures l == l' && d == d'
    ensures forall a :: 0 <= a < n ==> Shift(m, n, l, d, perm, a) == 0.0
  {
    OwnFactorsKept(m, n, delta, beta, l, d, perm, theta, l', d', n);
    SameFactors(l, d, l', d', n);
    OwnShift(m, n, delta, beta, perm, l, d);
  }

  /** A symmetric matrix comes back without any shift if and only if, in pivot order, it has
      factors of its own with pivots of at least delta and columns within the bound; and these
      are then the factors returned. */
  lemma UnshiftedIff(m: Mat, n: nat, delta: real, beta: real, l: Mat, d: Vec, perm: seq<nat>, theta: Vec)
    requires IsSquare(m, n) && beta > 0.0 && delta > 0.0 && Symmetric(m, n)
    requires IsFactorisation(m, n, delta, beta, l, d, perm, theta)
    ensures (forall a :: 0 <= a < n ==> Shift(m, n, l, d, perm, a) == 0.0)
       <==> (exists l', d' :: OwnFactors(m, n, delta, beta, perm, l', d'))
    ensures forall l', d' :: OwnFactors(m, n, delta, beta, perm, l', d') ==> l == l' && d == d'
  {
    forall l', d' | OwnFactors(m, n, delta, beta, perm, l', d')
      ensures l == l' && d == d' && forall a :: 0 <= a < n ==> Shift(m, n, l, d, perm, a) == 0.0
    {
      OwnUnshifted(m, n, delta, beta, l, d, perm, theta, l', d');
    }
    if forall a :: 0 <= a < n ==> Shift(m, n, l, d, perm, a) == 0.0 {
      UnshiftedOwn(m, n, delta, beta, l, d, perm, theta);
    }
  }

  lemma FirstColumnRow(m: Mat, n: nat, delta: real, beta: real, l: Mat, d: Vec, perm: seq<nat>, theta: Vec, i: nat)
    requires IsSquare(m, n) && beta > 0.0 && delta > 0.0
    requires IsFactorisation(m, n, delta, beta, l, d, perm, theta)
    requires 0 < i < n
    ensures Growth(l, d, n, i, 0) <= Mul(beta, beta) <==> SmallEntry(m, n, delta, beta, perm[i], perm[0])
  {
    FirstPivot(m, n, delta, beta, l, d, perm, theta);
    FirstColumnEntry(n, l, d, i);
    assert Product(l, d, n, i, 0) == m[perm[i]][perm[0]];
    GrowthIff(l, d, n, i, 0, beta);
  }

  /** m[k][p]^2 <= beta^2 * max(gamma, delta) */
  ghost predicate SmallEntry(m: Mat, n: nat, delta: real, beta: real, k: nat, p: nat)
    requires IsSquare(m, n) && k < n && p < n
  {
    Mul(m[k][p], m[k][p]) <= Mul(Mul(beta, beta), Max(MaxDiagonal(m, n, n), delta))
  }

  lemma FirstLargestUnique(m: Mat, n: nat, p: nat, p': nat)
    requires IsSquare(m, n) && IsFirstLargest(m, n, p) && IsFirstLargest(m, n, p')
    ensures p == p'
  {
    assert Abs(m[p][p]) == Abs(m[p'][p']);
  }

  /** The first column has no such bound built in, its pivot being a largest diagonal entry or
      delta. Whether it is bounded can be read off the matrix: with p the first position of a
      largest diagonal entry, it is exactly when every other entry of column p is small. */
  lemma FirstColumn(m: Mat, n: nat, delta: real, beta: real, l: Mat, d: Vec, perm: seq<nat>, theta: Vec, p: nat)
    requires IsSquare(m, n) && beta > 0.0 && delta > 0.0 && n > 0
    requires IsFactorisation(m, n, delta, beta, l, d, perm, theta) && IsFirstLargest(m, n, perm[0])
    requires IsFirstLargest(m, n, p)
    ensures (forall i :: 0 < i < n ==> Growth(l, d, n, i, 0) <= Mul(beta, beta))
       <==> (forall k :: 0 <= k < n && k != p ==> SmallEntry(m, n, delta, beta, k, p))
  {
    FirstLargestUnique(m, n, p, perm[0]);
    if forall k :: 0 <= k < n && k != p ==> SmallEntry(m, n, delta, beta, k, p) {
      forall i | 0 < i < n ensures Growth(l, d, n, i, 0) <= Mul(beta, beta) {
        FirstColumnRow(m, n, delta, beta, l, d, perm, theta, i);
        assert perm[i] != p;
      }
    }
    if forall i :: 0 < i < n ==> Growth(l, d, n, i, 0) <= Mul(beta, beta) {
      forall k | 0 <= k < n && k != p ensures SmallEntry(m, n, delta, beta, k, p) {
        Onto(perm, n, k);
        var i :| 0 <= i < n && perm[i] == k;
        FirstColumnRow(m, n, delta, beta, l, d, perm, theta, i);
      }
    }
  }

  lemma FirstColumnEntry(n: nat, l: Mat, d: Vec, i: nat)
    requires UnitLower(l, n) && |d| == n && 0 < i < n
    ensures Product(l, d, n, i, 0) == Unscaled(l, d, n, i, 0)
  {
    WeightedTail(l[i], d, l[0], 1, n);
    assert WeightedDot(l[i], d, l[0], 1) == WeightedDot(l[i], d, l[0], 0) + l[i][0] * d[0] * l[0][0];
  }

  lemma FirstPivot(m: Mat, n: nat, delta: real, beta: real, l: Mat, d: Vec, perm: seq<nat>, theta: Vec)
    requires IsSquare(m, n) && beta > 0.0 && delta > 0.0 && n > 0
    requires IsFactorisation(m, n, delta, beta, l, d, perm, theta)
    ensures d[0] == Max(MaxDiagonal(m, n, n), delta)
  {
    forall k | 0 <= k < n ensures Abs(m[k][k]) <= Abs(m[perm[0]][perm[0]]) {
      Onto(perm, n, k);
      var b :| 0 <= b < n && perm[b] == k;
      assert Abs(Schur(m, perm, l, d, n, 0, 0)) >= Abs(Schur(m, perm, l, d, n, b, 0));
    }
    assert IsTheta(l, d, n, 0, theta[0]);
    assert d[0] == PivotOf(m[perm[0]][perm[0]], 0.0, beta, delta);
    assert 0.0 / beta == 0.0;
  }

  lemma ExchangeMaxima(m: Mat)
    requires IsSquare(m, 2) && m[0][0] == m[1][1] == 0.0 && m[0][1] == m[1][0] == 1.0
    ensures MaxDiagonal(m, 2, 2) == 0.0 && MaxOffDiagonal(m, 2, 2) == 1.0
    ensures forall i, k :: 0 <= i < 2 && 0 <= k < 2 && i != k ==> m[i][k] == 1.0
  {
  }

  /** The bound does fail in the first column: for the 2 by 2 exchange matrix and any mu below 1,
      the default 1e-12 among them. There the source takes beta^2 = max(1/sqrt(3), mu), at most
      1, while the growth is 1/mu. */
  lemma FirstColumnGrows(mu: real, beta: real, l: Mat, d: Vec, perm: seq<nat>, theta: Vec)
    requires 0.0 < mu < 1.0 && beta > 0.0 && beta * beta <= 1.0
    requires IsFactorisation([[0.0, 1.0], [1.0, 0.0]], 2, mu, beta, l, d, perm, theta)
    ensures Delta([[0.0, 1.0], [1.0, 0.0]], 2, mu) == mu
    ensures Growth(l, d, 2, 1, 0) > Mul(beta, beta)
  {
    var m := [[0.0, 1.0], [1.0, 0.0]];
    ExchangeMaxima(m);
    FirstColumnRow(m, 2, mu, beta, l, d, perm, theta, 1);
    assert perm[0] != perm[1];
    assert m[perm[1]][perm[0]] == 1.0;
    ScaleMono(mu, beta * beta, 1.0);
  }
}
