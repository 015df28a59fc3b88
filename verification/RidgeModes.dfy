/** The linear system that one step of `LassoIteratedRidge` solves, and the four algebraic
    forms in which the source solves it.

    `x` holds the columns of the variables not at zero, `w` their current values, `pen` the
    ridge weights lambda/|w|. A matrix handed to the solver is held by rows.
 */
module RidgeModes {
  import opened LinearAlgebra

  /** (X'X + diag(pen)) * v = b */
  ghost predicate Ridge(x: Mat, n: nat, b: Vec, pen: Vec, v: Vec)
    requires Columns(x, n) && |b| == |pen| == |v| == |x|
  {
    forall j :: 0 <= j < |x| ==> RidgeRow(x, n, b, pen, v, j)
  }

  ghost predicate RidgeRow(x: Mat, n: nat, b: Vec, pen: Vec, v: Vec, j: nat)
    requires Columns(x, n) && |b| == |pen| == |v| == |x| && j < |x|
  {
    Proj(x, Comb(x, v, n))[j] + Mul(pen[j], v[j]) == b[j]
  }

  ghost predicate Positive(v: Vec) {
    forall j :: 0 <= j < |v| ==> v[j] > 0.0
  }

  /** With positive weights the system has at most one solution. */
  lemma RidgeUnique(x: Mat, n: nat, b: Vec, pen: Vec, v: Vec, v': Vec)
    requires Columns(x, n) && |b| == |pen| == |v| == |v'| == |x| && Positive(pen)
    requires Ridge(x, n, b, pen, v) && Ridge(x, n, b, pen, v')
    ensures v == v'
  {
    var d := Sub(v, v');
    CombSub(x, v, v', n);
    ProjSub(x, Comb(x, v, n), Comb(x, v', n));
    forall j | 0 <= j < |x| ensures Proj(x, Comb(x, d, n))[j] == -Mul(pen[j], d[j]) {
      assert RidgeRow(x, n, b, pen, v, j) && RidgeRow(x, n, b, pen, v', j);
      DistributeSub(pen[j], v[j], v'[j], d[j]);
    }
    EnergyZero(x, n, pen, d);
    forall j | 0 <= j < |x| ensures v[j] == v'[j] { assert d[j] == 0.0; }
  }

  // ----- mode 0: add the weights to the diagonal

  function Matrix0(xx: Mat, pen: Vec): (m: Mat)
    requires IsSquare(xx, |pen|)
    ensures IsSquare(m, |pen|)
  {
    seq(|pen|, j requires 0 <= j < |pen| => xx[j][j := xx[j][j] + pen[j]])
  }

  lemma Times0(x: Mat, n: nat, pen: Vec, v: Vec, j: nat)
    requires Columns(x, n) && |pen| == |v| == |x| && j < |x|
    ensures Proj(Matrix0(Gram(x, n), pen), v)[j] == Proj(x, Comb(x, v, n))[j] + Mul(pen[j], v[j])
  {
    GramTimes(x, v, n, j);
    DiagonalRow(Gram(x, n)[j], v, j, pen[j]);
  }

  lemma Regular0(x: Mat, n: nat, pen: Vec)
    requires Columns(x, n) && |pen| == |x| && Positive(pen)
    ensures Nonsingular(Matrix0(Gram(x, n), pen), |pen|)
  {
    var m := Matrix0(Gram(x, n), pen);
    forall v: Vec | |v| == |pen| && Proj(m, v) == Zero(|pen|) ensures v == Zero(|pen|) {
      forall j | 0 <= j < |x| ensures Proj(x, Comb(x, v, n))[j] == -Mul(pen[j], v[j]) {
        Times0(x, n, pen, v, j);
      }
      EnergyZero(x, n, pen, v);
    }
  }

  lemma Mode0(x: Mat, n: nat, b: Vec, pen: Vec, v: Vec)
    requires Columns(x, n) && |b| == |pen| == |v| == |x|
    ensures Proj(Matrix0(Gram(x, n), pen), v) == b <==> Ridge(x, n, b, pen, v)
  {
    forall j | 0 <= j < |x|
      ensures RidgeRow(x, n, b, pen, v, j) <==> Proj(Matrix0(Gram(x, n), pen), v)[j] == b[j]
    {
      Times0(x, n, pen, v, j);
    }
    if Ridge(x, n, b, pen, v) { assert Proj(Matrix0(Gram(x, n), pen), v) == b; }
  }

  // ----- mode 1: scale by the square roots of |w| on both sides

  /** G*XX*G + lambda*I */
  function Matrix1(xx: Mat, g: Vec, lam: real): (m: Mat)
    requires IsSquare(xx, |g|)
    ensures IsSquare(m, |g|)
  {
    seq(|g|, j requires 0 <= j < |g| =>
      var row := Scale(g[j], Had(xx[j], g)); row[j := row[j] + lam])
  }

  lemma HadAssoc(row: Vec, g: Vec, u: Vec)
    requires |row| == |g| == |u|
    ensures Dot(Had(row, g), u) == Dot(row, Had(g, u))
  {
    var a, c := Had(Had(row, g), u), Had(row, Had(g, u));
    forall i | 0 <= i < |row| ensures a[i] == c[i] { Reassociate(row[i], g[i], u[i]); }
    assert a == c;
  }

  lemma Times1(x: Mat, n: nat, g: Vec, lam: real, u: Vec, j: nat)
    requires Columns(x, n) && |g| == |u| == |x| && j < |x|
    ensures Proj(Matrix1(Gram(x, n), g, lam), u)[j]
         == Mul(g[j], Proj(x, Comb(x, Had(g, u), n))[j]) + Mul(lam, u[j])
  {
    var row := Gram(x, n)[j];
    DiagonalRow(Scale(g[j], Had(row, g)), u, j, lam);
    DotSym(Scale(g[j], Had(row, g)), u);
    DotScale(u, g[j], Had(row, g));
    DotSym(u, Had(row, g));
    HadAssoc(row, g, u);
    GramTimes(x, Had(g, u), n, j);
  }

  /** g is the square root of lambda/pen. */
  ghost predicate Roots(g: Vec, pen: Vec, lam: real) {
    |g| == |pen| && forall j :: 0 <= j < |g| ==> g[j] > 0.0 && Mul(pen[j], Mul(g[j], g[j])) == lam
  }

  lemma RootRow(g: real, p: real, pen: real, lam: real, u: real, gu: real, b: real, gb: real)
    requires g > 0.0 && Mul(pen, Mul(g, g)) == lam && gu == g * u && gb == g * b
    ensures Mul(g, p) + Mul(lam, u) == gb <==> p + Mul(pen, gu) == b
  {
    assert Mul(lam, u) == g * Mul(pen, g * u);
    var left := p + Mul(pen, g * u);
    assert Mul(g, p) + Mul(lam, u) == g * left;
    CancelLeft(g, left, b);
  }

  lemma CancelLeft(g: real, a: real, b: real)
    requires g > 0.0
    ensures g * a == g * b <==> a == b
  {
    if g * a == g * b {
      assert g * (a - b) == 0.0;
      ZeroFactor(g, a - b);
    }
  }

  lemma Mode1Row(x: Mat, n: nat, b: Vec, pen: Vec, lam: real, g: Vec, u: Vec, j: nat)
    requires Columns(x, n) && |b| == |pen| == |u| == |x| && Roots(g, pen, lam) && j < |x|
    ensures RidgeRow(x, n, b, pen, Had(g, u), j)
       <==> Proj(Matrix1(Gram(x, n), g, lam), u)[j] == Had(g, b)[j]
  {
    Times1(x, n, g, lam, u, j);
    RootRow(g[j], Proj(x, Comb(x, Had(g, u), n))[j], pen[j], lam, u[j], Had(g, u)[j], b[j], Had(g, b)[j]);
  }

  lemma Mode1(x: Mat, n: nat, b: Vec, pen: Vec, lam: real, g: Vec, u: Vec)
    requires Columns(x, n) && |b| == |pen| == |u| == |x| && Roots(g, pen, lam)
    ensures Proj(Matrix1(Gram(x, n), g, lam), u) == Had(g, b) <==> Ridge(x, n, b, pen, Had(g, u))
  {
    var left, right := Proj(Matrix1(Gram(x, n), g, lam), u), Had(g, b);
    forall j | 0 <= j < |x| ensures RidgeRow(x, n, b, pen, Had(g, u), j) <==> left[j] == right[j] {
      Mode1Row(x, n, b, pen, lam, g, u, j);
    }
    assert left == right <==> forall j :: 0 <= j < |x| ==> left[j] == right[j];
  }

  lemma Kernel1(x: Mat, n: nat, pen: Vec, lam: real, g: Vec, u: Vec)
    requires Columns(x, n) && |pen| == |u| == |x| && Positive(pen) && Roots(g, pen, lam)
    requires Proj(Matrix1(Gram(x, n), g, lam), u) == Zero(|x|)
    ensures u == Zero(|x|)
  {
    var z, v := Zero(|x|), Had(g, u);
    forall j | 0 <= j < |x| ensures Had(g, z)[j] == 0.0 { TimesZero(g[j], z[j]); }
    assert Had(g, z) == z;
    Mode1(x, n, z, pen, lam, g, u);
    RidgeZero(x, n, pen, v);
    NoWeights(g, u);
  }

  lemma NoWeights(g: Vec, u: Vec)
    requires |g| == |u| && Positive(g) && Had(g, u) == Zero(|u|)
    ensures u == Zero(|u|)
  {
    forall j | 0 <= j < |u| ensures u[j] == 0.0 {
      assert Had(g, u)[j] == 0.0;
      ZeroFactor(g[j], u[j]);
    }
  }

  lemma TimesZero(g: real, z: real)
    requires z == 0.0
    ensures g * z == 0.0
  {}

  lemma Regular1(x: Mat, n: nat, pen: Vec, lam: real, g: Vec)
    requires Columns(x, n) && |pen| == |x| && Positive(pen) && Roots(g, pen, lam)
    ensures Nonsingular(Matrix1(Gram(x, n), g, lam), |g|)
  {
    forall u: Vec | |u| == |g| && Proj(Matrix1(Gram(x, n), g, lam), u) == Zero(|g|) ensures u == Zero(|g|) {
      Kernel1(x, n, pen, lam, g, u);
    }
  }

  /** With a zero right-hand side the only solution is zero. */
  lemma RidgeZero(x: Mat, n: nat, pen: Vec, v: Vec)
    requires Columns(x, n) && |pen| == |v| == |x| && Positive(pen)
    requires Ridge(x, n, Zero(|x|), pen, v)
    ensures v == Zero(|x|)
  {
    forall j | 0 <= j < |x| ensures Proj(x, Comb(x, v, n))[j] == -Mul(pen[j], v[j]) {
      assert RidgeRow(x, n, Zero(|x|), pen, v, j);
    }
    EnergyZero(x, n, pen, v);
  }

  // ----- mode 2: multiply from the left by |w|/lambda

  /** U*XX + I */
  function Matrix2(xx: Mat, u: Vec): (m: Mat)
    requires IsSquare(xx, |u|)
    ensures IsSquare(m, |u|)
  {
    seq(|u|, j requires 0 <= j < |u| => var row := Scale(u[j], xx[j]); row[j := row[j] + 1.0])
  }

  /** u is the inverse of pen. */
  ghost predicate Inverse(u: Vec, pen: Vec) {
    |u| == |pen| && forall j :: 0 <= j < |u| ==> u[j] > 0.0 && Mul(u[j], pen[j]) == 1.0
  }

  lemma Times2(x: Mat, n: nat, u: Vec, v: Vec, j: nat)
    requires Columns(x, n) && |u| == |v| == |x| && j < |x|
    ensures Proj(Matrix2(Gram(x, n), u), v)[j] == Mul(u[j], Proj(x, Comb(x, v, n))[j]) + v[j]
  {
    var row := Gram(x, n)[j];
    DiagonalRow(Scale(u[j], row), v, j, 1.0);
    DotSym(Scale(u[j], row), v);
    DotScale(v, u[j], row);
    DotSym(v, row);
    GramTimes(x, v, n, j);
  }

  lemma InverseRow(u: real, p: real, pen: real, v: real, b: real)
    requires u > 0.0 && Mul(u, pen) == 1.0
    ensures Mul(u, p) + v == u * b <==> p + Mul(pen, v) == b
  {
    var left := p + Mul(pen, v);
    Reassociate(u, pen, v);
    MulAdd(u, p, Mul(pen, v));
    assert Mul(u, left) == Mul(u, p) + v;
    CancelLeft(u, left, b);
  }

  lemma InverseRowOf(u: Vec, p: Vec, pen: Vec, v: Vec, b: Vec, j: nat)
    requires |u| == |p| == |v| == |b| && Inverse(u, pen) && j < |u|
    ensures Mul(u[j], p[j]) + v[j] == Had(u, b)[j] <==> p[j] + Mul(pen[j], v[j]) == b[j]
  {
    InverseRow(u[j], p[j], pen[j], v[j], b[j]);
  }

  lemma Mode2Row(x: Mat, n: nat, b: Vec, pen: Vec, u: Vec, v: Vec, j: nat)
    requires Columns(x, n) && |b| == |pen| == |v| == |x| && Inverse(u, pen) && j < |x|
    ensures RidgeRow(x, n, b, pen, v, j) <==> Proj(Matrix2(Gram(x, n), u), v)[j] == Had(u, b)[j]
  {
    Times2(x, n, u, v, j);
    InverseRowOf(u, Proj(x, Comb(x, v, n)), pen, v, b, j);
  }

  lemma Mode2(x: Mat, n: nat, b: Vec, pen: Vec, u: Vec, v: Vec)
    requires Columns(x, n) && |b| == |pen| == |v| == |x| && Inverse(u, pen)
    ensures Proj(Matrix2(Gram(x, n), u), v) == Had(u, b) <==> Ridge(x, n, b, pen, v)
  {
    var left, right := Proj(Matrix2(Gram(x, n), u), v), Had(u, b);
    forall j | 0 <= j < |x| ensures RidgeRow(x, n, b, pen, v, j) <==> left[j] == right[j] {
      Mode2Row(x, n, b, pen, u, v, j);
    }
    assert left == right <==> forall j :: 0 <= j < |x| ==> left[j] == right[j];
  }

  lemma Kernel2(x: Mat, n: nat, pen: Vec, u: Vec, v: Vec)
    requires Columns(x, n) && |pen| == |v| == |x| && Positive(pen) && Inverse(u, pen)
    requires Proj(Matrix2(Gram(x, n), u), v) == Zero(|x|)
    ensures v == Zero(|x|)
  {
    var z := Zero(|x|);
    forall j | 0 <= j < |x| ensures RidgeRow(x, n, z, pen, v, j) {
      Mode2Row(x, n, z, pen, u, v, j);
      TimesZero(u[j], z[j]);
    }
    RidgeZero(x, n, pen, v);
  }

  lemma Regular2(x: Mat, n: nat, pen: Vec, u: Vec)
    requires Columns(x, n) && |pen| == |x| && Positive(pen) && Inverse(u, pen)
    ensures Nonsingular(Matrix2(Gram(x, n), u), |u|)
  {
    forall v: Vec | |v| == |u| && Proj(Matrix2(Gram(x, n), u), v) == Zero(|u|) ensures v == Zero(|u|) {
      Kernel2(x, n, pen, u, v);
    }
  }

  // ----- mode 3: an n by n system, diagonal plus low rank

  /** I + X*D*X' */
  function Matrix3(x: Mat, n: nat, d: Vec): (m: Mat)
    requires Columns(x, n) && |d| == |x|
    ensures IsSquare(m, n)
  {
    seq(n, a requires 0 <= a < n =>
      var row := Comb(x, Had(d, RowOf(x, n, a)), n); row[a := row[a] + 1.0])
  }

  lemma Times3(x: Mat, n: nat, d: Vec, s: Vec, a: nat)
    requires Columns(x, n) && |d| == |x| && |s| == n && a < n
    ensures Proj(Matrix3(x, n, d), s)[a] == Comb(x, Had(d, Proj(x, s)), n)[a] + s[a]
  {
    var h := Had(d, RowOf(x, n, a));
    var row := Comb(x, h, n);
    DiagonalRow(row, s, a, 1.0);
    DotSym(row, s);
    Adjoint(x, h, s);
    CombAt(x, Had(d, Proj(x, s)), n, a);
    SwapFactors(Proj(x, s), d, RowOf(x, n, a));
  }

  lemma SwapFactors(p: Vec, d: Vec, r: Vec)
    requires |p| == |d| == |r|
    ensures Dot(p, Had(d, r)) == Dot(Had(d, p), r)
  {
    var a, c := Had(p, Had(d, r)), Had(Had(d, p), r);
    forall i | 0 <= i < |p| ensures a[i] == c[i] { Reassociate(p[i], d[i], r[i]); Reassociate(d[i], p[i], r[i]); }
    assert a == c;
  }

  lemma Regular3(x: Mat, n: nat, d: Vec)
    requires Columns(x, n) && |d| == |x| && forall j :: 0 <= j < |d| ==> d[j] >= 0.0
    ensures Nonsingular(Matrix3(x, n, d), n)
  {
    var m := Matrix3(x, n, d);
    forall s: Vec | |s| == n && Proj(m, s) == Zero(n) ensures s == Zero(n) {
      LowRankEnergy(x, n, d, s);
    }
  }

  lemma LowRankEnergy(x: Mat, n: nat, d: Vec, s: Vec)
    requires Columns(x, n) && |d| == |x| && |s| == n && forall j :: 0 <= j < |d| ==> d[j] >= 0.0
    requires Proj(Matrix3(x, n, d), s) == Zero(n)
    ensures s == Zero(n)
  {
    var p := Proj(x, s);
    var c := Comb(x, Had(d, p), n);
    forall a | 0 <= a < n ensures c[a] == Scale(-1.0, s)[a] {
      Times3(x, n, d, s, a);
      assert Proj(Matrix3(x, n, d), s)[a] == 0.0;
    }
    assert c == Scale(-1.0, s);
    Adjoint(x, Had(d, p), s);
    DotScale(s, -1.0, s);
    var h := Had(p, Had(d, p));
    forall j | 0 <= j < |x| ensures h[j] >= 0.0 {
      Square(p[j], p[j] * p[j]);
      ProductNonNeg(d[j], p[j] * p[j]);
      Reassociate(p[j], d[j], p[j]);
    }
    SumToNonNeg(h, |x|);
    SqNormNonNeg(s);
  }

  /** The vector the source forms from a solution s of the n by n system. */
  function Back3(x: Mat, d: Vec, b: Vec, s: Vec): (v: Vec)
    requires Columns(x, |s|) && |d| == |b| == |x|
    ensures |v| == |x|
  {
    Had(d, Sub(b, Proj(x, s)))
  }

  /** The vector formed from s has X*v = s. */
  lemma BackImage(x: Mat, n: nat, b: Vec, d: Vec, s: Vec)
    requires Columns(x, n) && |b| == |d| == |x| && |s| == n
    requires Proj(Matrix3(x, n, d), s) == Comb(x, Had(d, b), n)
    ensures Comb(x, Back3(x, d, b, s), n) == s
  {
    var v, p := Back3(x, d, b, s), Proj(x, s);
    var w := Sub(Had(d, b), Had(d, p));
    forall j | 0 <= j < |x| ensures v[j] == w[j] { DistributeSub(d[j], b[j], p[j], b[j] - p[j]); }
    assert v == w;
    CombSub(x, Had(d, b), Had(d, p), n);
    forall a | 0 <= a < n ensures Comb(x, v, n)[a] == s[a] {
      Times3(x, n, d, s, a);
      assert Proj(Matrix3(x, n, d), s)[a] == Comb(x, Had(d, b), n)[a];
    }
    assert Comb(x, v, n) == s;
  }

  lemma Mode3(x: Mat, n: nat, b: Vec, pen: Vec, d: Vec, s: Vec)
    requires Columns(x, n) && |b| == |pen| == |x| && |s| == n && Inverse(d, pen)
    requires Proj(Matrix3(x, n, d), s) == Comb(x, Had(d, b), n)
    ensures Ridge(x, n, b, pen, Back3(x, d, b, s))
  {
    BackImage(x, n, b, d, s);
    forall j | 0 <= j < |x| ensures RidgeRow(x, n, b, pen, Back3(x, d, b, s), j) {
      CancelInverse(d[j], pen[j], Sub(b, Proj(x, s))[j]);
    }
  }

  lemma CancelInverse(d: real, pen: real, r: real)
    requires Mul(d, pen) == 1.0
    ensures Mul(pen, d * r) == r
  {
    assert Mul(pen, d * r) == Mul(d, pen) * r;
  }
}
