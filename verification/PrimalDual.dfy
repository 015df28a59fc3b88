/** The residuals and step lengths of `LassoPrimalDualLogBarrier`, and what its stopping test says
    about optimality.

    `a` holds the columns of A = [X -X]; `x` and `z` are the primal variables and dual slacks,
    `y` the dual variables, `s` the observations.
 */
module PrimalDual {
  import opened LinearAlgebra
  import opened L1LeastSquares
  import opened NewtonSystem

  // ----- residuals and how a step changes them

  /** r_x = -A'*y - z + lambda */
  function DualResidual(a: Mat, lam: real, y: Vec, z: Vec): (r: Vec)
    requires Columns(a, |y|) && |z| == |a|
    ensures |r| == |a|
  {
    seq(|a|, j requires 0 <= j < |a| => lam - Proj(a, y)[j] - z[j])
  }

  /** r_y = s - A*x - y */
  function PrimalResidual(a: Mat, s: Vec, x: Vec, y: Vec): (r: Vec)
    requires Columns(a, |s|) && |x| == |a| && |y| == |s|
    ensures |r| == |s|
  {
    Sub(Sub(s, Comb(a, x, |s|)), y)
  }

  /** r_z = mu - X*z */
  function GapResidual(mu: real, x: Vec, z: Vec): (r: Vec)
    requires |x| == |z|
    ensures |r| == |x|
  {
    seq(|x|, j requires 0 <= j < |x| => mu - x[j] * z[j])
  }

  function Move(v: Vec, t: real, d: Vec): (r: Vec)
    requires |v| == |d|
  {
    Add(v, Scale(t, d))
  }

  /** A step of length t along the dual direction scales the dual residual by exactly 1 - t. */
  lemma DualResidualScales(a: Mat, lam: real, y: Vec, z: Vec, dy: Vec, dz: Vec, t: real)
    requires Columns(a, |y|) && |z| == |dz| == |a| && |dy| == |y|
    requires Add(Proj(a, dy), dz) == DualResidual(a, lam, y, z)
    ensures DualResidual(a, lam, Move(y, t, dy), Move(z, t, dz)) == Scale(1.0 - t, DualResidual(a, lam, y, z))
  {
    var r := DualResidual(a, lam, y, z);
    ProjAdd(a, y, Scale(t, dy));
    ProjScale(a, t, dy);
    var after := DualResidual(a, lam, Move(y, t, dy), Move(z, t, dz));
    forall j | 0 <= j < |a| ensures after[j] == Scale(1.0 - t, r)[j] {
      assert Add(Proj(a, dy), dz)[j] == r[j];
      ScaledResidual(t, Proj(a, dy)[j], dz[j], r[j]);
    }
  }

  lemma ScaledResidual(t: real, p: real, dz: real, r: real)
    requires p + dz == r
    ensures r - t * p - t * dz == (1.0 - t) * r
  {}

  /** A step of lengths tx and t leaves (1 - tx) of the primal residual, plus the part of dy
      that the two lengths do not share. */
  lemma PrimalResidualScales(a: Mat, s: Vec, x: Vec, y: Vec, dx: Vec, dy: Vec, tx: real, t: real)
    requires Columns(a, |s|) && |x| == |dx| == |a| && |dy| == |y| == |s|
    requires Add(Comb(a, dx, |s|), dy) == PrimalResidual(a, s, x, y)
    ensures PrimalResidual(a, s, Move(x, tx, dx), Move(y, t, dy))
         == Add(Scale(1.0 - tx, PrimalResidual(a, s, x, y)), Scale(tx - t, dy))
  {
    var n, r := |s|, PrimalResidual(a, s, x, y);
    CombAdd(a, x, Scale(tx, dx), n);
    CombScale(a, tx, dx, n);
    var after := PrimalResidual(a, s, Move(x, tx, dx), Move(y, t, dy));
    var claim := Add(Scale(1.0 - tx, r), Scale(tx - t, dy));
    forall i | 0 <= i < n ensures after[i] == claim[i] {
      assert Add(Comb(a, dx, n), dy)[i] == r[i];
      MixedResidual(tx, t, Comb(a, dx, n)[i], dy[i], r[i]);
    }
  }

  lemma MixedResidual(tx: real, t: real, c: real, dy: real, r: real)
    requires c + dy == r
    ensures r - tx * c - t * dy == (1.0 - tx) * r + (tx - t) * dy
  {}

  // ----- step lengths

  /** min([1, -v./d over the entries with d < -0.0001]) */
  function StepTo(v: Vec, d: Vec, k: nat): (beta: real)
    requires |v| == |d| && k <= |v|
    ensures beta <= 1.0
    ensures forall i :: 0 <= i < k && d[i] < -0.0001 ==> beta <= -v[i] / d[i]
    ensures beta == 1.0 || exists i :: 0 <= i < k && d[i] < -0.0001 && beta == -v[i] / d[i]
  {
    if k == 0 then 1.0
    else if d[k - 1] < -0.0001 then Min(StepTo(v, d, k - 1), -v[k - 1] / d[k - 1])
    else StepTo(v, d, k - 1)
  }

  function StepLength(v: Vec, d: Vec): (beta: real)
    requires |v| == |d|
  {
    StepTo(v, d, |v|)
  }

  lemma RatioSign(v: real, d: real)
    requires v >= 0.0 && d < 0.0
    ensures -v / d >= 0.0 && (v > 0.0 ==> -v / d > 0.0)
  {
    var r := -v / d;
    assert r * d == -v;
    if r < 0.0 { MulPos(r, d); }
  }

  lemma StepNonNeg(v: Vec, d: Vec)
    requires |v| == |d| && forall i :: 0 <= i < |v| ==> v[i] >= 0.0
    ensures 0.0 <= StepLength(v, d) <= 1.0
  {
    var beta := StepLength(v, d);
    if i :| 0 <= i < |v| && d[i] < -0.0001 && beta == -v[i] / d[i] {
      RatioSign(v[i], d[i]);
    }
  }

  /** The size a positive entry needs for a damped step to be sure to keep it positive. */
  function Margin(gamma: real): real {
    gamma * 0.0001
  }

  lemma EntryFits(v: real, d: real, p: real, beta: real)
    requires v > 0.0 && d < 0.0 && p == -d && beta <= -v / d
    ensures p * beta <= v
  {
    var r := -v / d;
    assert r * d == -v;
    NegatedProduct(r, d, p);
    ScaleMono(p, beta, r);
  }

  lemma StepShrunk(v: real, d: real, s: real, gamma: real, beta: real)
    requires v > 0.0 && 0.0 < gamma < 1.0 && s == -d * beta && s <= v
    ensures v + gamma * beta * d > 0.0
  {
    ScaleMono(gamma, s, v);
    assert gamma * s == -(gamma * beta * d);
    MulPos(1.0 - gamma, v);
    DistributeSub(v, 1.0, gamma, 1.0 - gamma);
  }

  lemma EntryStays(v: real, d: real, gamma: real, beta: real)
    requires v > 0.0 && 0.0 < gamma < 1.0 && 0.0 <= beta <= 1.0 && v > Margin(gamma)
    requires d < -0.0001 ==> beta <= -v / d
    ensures v + gamma * beta * d > 0.0
  {
    if d >= 0.0 {
      ProductNonNeg(gamma, beta);
      ProductNonNeg(gamma * beta, d);
    } else if d < -0.0001 {
      EntryFits(v, d, -d, beta);
      StepShrunk(v, d, -d * beta, gamma, beta);
    } else {
      ScaleMono(-d, beta, 1.0);
      assert -d * beta <= 0.0001;
      ScaleMono(gamma, -d * beta, 0.0001);
      assert gamma * (-d * beta) == -(gamma * beta * d);
    }
  }

  ghost predicate AllPositive(v: Vec) {
    forall i :: 0 <= i < |v| ==> v[i] > 0.0
  }

  function Damped(gamma: real, beta: real): real {
    gamma * beta
  }

  ghost predicate StaysPositive(v: Vec, gamma: real, d: Vec)
    requires |v| == |d|
  {
    AllPositive(Move(v, Damped(gamma, StepLength(v, d)), d))
  }

  lemma MoveAt(v: Vec, t: real, d: Vec, i: nat)
    requires |d| == |v| && i < |v|
    ensures Move(v, t, d)[i] == v[i] + t * d[i]
  {
    assert Scale(t, d)[i] == t * d[i];
  }

  lemma StepWithin(v: Vec, d: Vec, i: nat)
    requires |d| == |v| && i < |v|
    ensures d[i] < -0.0001 ==> StepLength(v, d) <= -v[i] / d[i]
  {}

  lemma MoveEntry(v: Vec, gamma: real, d: Vec, i: nat)
    requires AllPositive(v) && 0.0 < gamma < 1.0 && |d| == |v| && i < |v| && v[i] > Margin(gamma)
    ensures Move(v, Damped(gamma, StepLength(v, d)), d)[i] > 0.0
  {
    var beta := StepLength(v, d);
    StepNonNeg(v, d);
    StepWithin(v, d, i);
    EntryStays(v[i], d[i], gamma, beta);
    MoveAt(v, Damped(gamma, beta), d, i);
  }

  lemma StaysIfLarge(v: Vec, gamma: real, d: Vec)
    requires AllPositive(v) && 0.0 < gamma < 1.0 && |d| == |v|
    requires forall i :: 0 <= i < |v| ==> v[i] > Margin(gamma)
    ensures StaysPositive(v, gamma, d)
  {
    forall i | 0 <= i < |v| ensures Move(v, Damped(gamma, StepLength(v, d)), d)[i] > 0.0 {
      MoveEntry(v, gamma, d, i);
    }
  }

  lemma LeavesIfSmall(v: Vec, gamma: real, i: nat) returns (d: Vec)
    requires i < |v| && v[i] <= Margin(gamma)
    ensures |d| == |v| && !StaysPositive(v, gamma, d)
  {
    d := Zero(|v|)[i := -0.0001];
    assert StepLength(v, d) == 1.0;
    assert Move(v, Damped(gamma, StepLength(v, d)), d)[i] == v[i] + gamma * 1.0 * -0.0001;
  }

  /** A damped step is sure to keep a positive vector positive exactly when every entry exceeds
      gamma*0.0001: the step length ignores entries that fall more slowly than that. */
  lemma PositiveExactlyWhen(v: Vec, gamma: real)
    requires AllPositive(v) && 0.0 < gamma < 1.0
    ensures (forall d: Vec :: |d| == |v| ==> StaysPositive(v, gamma, d))
       <==> forall i :: 0 <= i < |v| ==> v[i] > Margin(gamma)
  {
    if i :| 0 <= i < |v| && v[i] <= Margin(gamma) {
      var d := LeavesIfSmall(v, gamma, i);
    } else {
      forall d: Vec | |d| == |v| ensures StaysPositive(v, gamma, d) {
        StaysIfLarge(v, gamma, d);
      }
    }
  }

  /** Every move of x, and every move of z, is part of a Newton direction, for some residuals. */
  lemma AnyDirection(a: Mat, n: nat, x: Vec, z: Vec, dx: Vec, dz: Vec) returns (rx: Vec, ry: Vec, rz: Vec)
    requires Columns(a, n) && |x| == |z| == |dx| == |dz| == |a|
    ensures Newton(a, n, x, z, rx, ry, rz, dx, Zero(n), dz)
  {
    rx := Add(Proj(a, Zero(n)), dz);
    ry := Add(Comb(a, dx, n), Zero(n));
    rz := Add(Had(z, dx), Had(x, dz));
  }

  ghost predicate BothStay(x: Vec, z: Vec, gamma: real, dx: Vec, dz: Vec)
    requires |x| == |dx| && |z| == |dz|
  {
    StaysPositive(x, gamma, dx) && StaysPositive(z, gamma, dz)
  }

  /** So a damped Newton step is sure to keep x and z positive, whatever the residuals, exactly
      when the entries of both exceed gamma*0.0001. */
  lemma NewtonPositiveExactlyWhen(a: Mat, n: nat, x: Vec, z: Vec, gamma: real)
    requires Columns(a, n) && |x| == |z| == |a| && AllPositive(x) && AllPositive(z) && 0.0 < gamma < 1.0
    ensures (forall rx, ry, rz, dx, dy, dz :: Newton(a, n, x, z, rx, ry, rz, dx, dy, dz) ==>
              BothStay(x, z, gamma, dx, dz))
       <==> (forall i :: 0 <= i < |x| ==> x[i] > Margin(gamma) && z[i] > Margin(gamma))
  {
    if i :| 0 <= i < |x| && (x[i] <= Margin(gamma) || z[i] <= Margin(gamma)) {
      var dx, dz := Zero(|a|), Zero(|a|);
      if x[i] <= Margin(gamma) {
        dx := LeavesIfSmall(x, gamma, i);
      } else {
        dz := LeavesIfSmall(z, gamma, i);
      }
      var rx, ry, rz := AnyDirection(a, n, x, z, dx, dz);
      assert !BothStay(x, z, gamma, dx, dz);
    } else {
      forall rx, ry, rz, dx, dy, dz | Newton(a, n, x, z, rx, ry, rz, dx, dy, dz)
        ensures BothStay(x, z, gamma, dx, dz)
      {
        StaysIfLarge(x, gamma, dx);
        StaysIfLarge(z, gamma, dz);
      }
    }
  }

  // ----- what the residuals certify

  /** ||s - A*x||^2 / 2 + lambda * sum(x), to be minimised over x >= 0 */
  ghost function Primal(a: Mat, s: Vec, lam: real, x: Vec): real
    requires Columns(a, |s|) && |x| == |a|
  {
    SqNorm(Sub(s, Comb(a, x, |s|))) / 2.0 + Mul(lam, Sum(x))
  }

  /** s'y - ||y||^2 / 2 */
  ghost function Dual(s: Vec, y: Vec): real
    requires |y| == |s|
  {
    Dot(s, y) - SqNorm(y) / 2.0
  }

  lemma PenaltySplit(a: Mat, s: Vec, lam: real, x: Vec, y: Vec, z: Vec)
    requires Columns(a, |s|) && |x| == |z| == |a| && |y| == |s|
    ensures Mul(lam, Sum(x)) == Dot(DualResidual(a, lam, y, z), x) + Dot(Proj(a, y), x) + Dot(z, x)
  {
    var r, p := DualResidual(a, lam, y, z), Proj(a, y);
    var total := Add(Add(Had(r, x), Had(p, x)), Had(z, x));
    forall j | 0 <= j < |a| ensures Scale(lam, x)[j] == total[j] {
      SplitProduct(lam, r[j], p[j], z[j], x[j]);
    }
    assert Scale(lam, x) == total;
    SumToScale(lam, x, |a|);
    SumToAdd(Add(Had(r, x), Had(p, x)), Had(z, x), |a|);
    SumToAdd(Had(r, x), Had(p, x), |a|);
  }

  lemma SplitProduct(lam: real, r: real, p: real, z: real, x: real)
    requires r == lam - p - z
    ensures lam * x == r * x + p * x + z * x
  {}

  /** The duality gap at any point, in terms of the residuals there. */
  lemma GapIdentity(a: Mat, s: Vec, lam: real, x: Vec, y: Vec, z: Vec)
    requires Columns(a, |s|) && |x| == |z| == |a| && |y| == |s|
    ensures Primal(a, s, lam, x)
         == Dual(s, y) + Dot(z, x) + Dot(DualResidual(a, lam, y, z), x) + SqNorm(PrimalResidual(a, s, x, y)) / 2.0
  {
    var n, c, r := |s|, Comb(a, x, |s|), PrimalResidual(a, s, x, y);
    PenaltySplit(a, s, lam, x, y, z);
    Adjoint(a, x, y);
    assert Sub(s, c) == Add(y, r);
    SqNormAdd(y, r);
    // y'(A x) = y's - y'y - y'r
    assert c == Sub(Sub(s, y), r);
    DotSub(y, Sub(s, y), r);
    DotSub(y, s, y);
    DotSym(y, s);
  }

  lemma DotNonNeg(z: Vec, x: Vec)
    requires |z| == |x| && NonNegative(z) && NonNegative(x)
    ensures Dot(z, x) >= 0.0
  {
    forall j | 0 <= j < |x| ensures Had(z, x)[j] >= 0.0 { ProductNonNeg(z[j], x[j]); }
    SumToNonNeg(Had(z, x), |x|);
  }

  /** Only the negative part of z can make a product with a non-negative vector negative. */
  lemma DotAbove(z: Vec, x: Vec)
    requires |z| == |x| && NonNegative(x)
    ensures Dot(z, x) >= -Dot(Minus(z), x)
  {
    PartsBack(z);
    DotSym(z, x);
    DotSub(x, Plus(z), Minus(z));
    DotSym(x, Minus(z));
    DotNonNeg(x, Plus(z));
  }

  /** No feasible point is better than x by more than the products, the residuals and the
      negative slacks at (x, y, z) allow. */
  lemma Suboptimality(a: Mat, s: Vec, lam: real, x: Vec, y: Vec, z: Vec, x': Vec)
    requires Columns(a, |s|) && |x| == |x'| == |z| == |a| && |y| == |s| && NonNegative(x')
    ensures Primal(a, s, lam, x) <= Primal(a, s, lam, x') + Dot(z, x) + Dot(Minus(z), x')
          + SqNorm(PrimalResidual(a, s, x, y)) / 2.0 - Dot(DualResidual(a, lam, y, z), Sub(x', x))
  {
    GapIdentity(a, s, lam, x, y, z);
    GapIdentity(a, s, lam, x', y, z);
    DotAbove(z, x');
    SqNormNonNeg(PrimalResidual(a, s, x', y));
    DotSub(DualResidual(a, lam, y, z), x', x);
  }

  // ----- the split form [X -X] and the Lasso objective

  /** [X -X] */
  function Split(x: Mat): (a: Mat)
    ensures |a| == 2 * |x| && forall n: nat :: Columns(x, n) ==> Columns(a, n)
  {
    x + seq(|x|, j requires 0 <= j < |x| => Scale(-1.0, x[j]))
  }

  lemma {:induction false} SplitComb(x: Mat, u: Vec, v: Vec, n: nat, k: nat)
    requires Columns(x, n) && |u| == |v| == |x| && k <= |x|
    ensures Columns(Split(x), n)
    ensures CombTo(Split(x), u + v, n, |x| + k) == Sub(Comb(x, u, n), CombTo(x, v, n, k))
  {
    if k == 0 {
      SplitFront(x, u, v, n, |x|);
    } else {
      SplitComb(x, u, v, n, k - 1);
      var c, col := CombTo(x, v, n, k - 1), x[k - 1];
      forall i | 0 <= i < n
        ensures CombTo(Split(x), u + v, n, |x| + k)[i] == Sub(Comb(x, u, n), CombTo(x, v, n, k))[i]
      {
        NegatedColumn(v[k - 1], col[i]);
      }
    }
  }

  lemma NegatedColumn(v: real, c: real)
    ensures v * (-1.0 * c) == -(v * c)
  {}

  lemma {:induction false} SplitFront(x: Mat, u: Vec, v: Vec, n: nat, k: nat)
    requires Columns(x, n) && |u| == |v| == |x| && k <= |x|
    ensures Columns(Split(x), n)
    ensures CombTo(Split(x), u + v, n, k) == CombTo(x, u, n, k)
  {
    if k > 0 { SplitFront(x, u, v, n, k - 1); }
  }

  lemma NegatedNorm(r: Vec, r': Vec)
    requires |r| == |r'| && forall i :: 0 <= i < |r| ==> r'[i] == -r[i]
    ensures SqNorm(r') == SqNorm(r)
  {
    forall i | 0 <= i < |r| ensures Had(r', r')[i] == Had(r, r)[i] { NegatedSquare(r[i], r'[i]); }
    assert Had(r', r') == Had(r, r);
  }

  lemma NegatedSquare(x: real, y: real)
    requires y == -x
    ensures y * y == x * x
  {}

  /** The split objective at [u; v] is the Lasso objective at u - v, with the penalty taken on
      u and v instead of on their difference. */
  lemma SplitPrimal(x: Mat, s: Vec, lam: real, u: Vec, v: Vec)
    requires Columns(x, |s|) && |u| == |v| == |x|
    ensures Columns(Split(x), |s|)
    ensures Primal(Split(x), s, lam, u + v)
         == SqNorm(Residual(x, s, Sub(u, v))) / 2.0 + Mul(lam, Sum(u) + Sum(v))
  {
    SplitComb(x, u, v, |s|, |x|);
    CombSub(x, u, v, |s|);
    NegatedNorm(Residual(x, s, Sub(u, v)), Sub(s, Comb(Split(x), u + v, |s|)));
    SumConcat(u, v, |v|);
  }

  lemma SplitAtWeights(x: Mat, s: Vec, lam: real, w: Vec)
    requires Columns(x, |s|) && |w| == |x|
    ensures Columns(Split(x), |s|)
    ensures Primal(Split(x), s, lam, Plus(w) + Minus(w)) == Objective(x, s, lam, w)
  {
    SplitPrimal(x, s, lam, Plus(w), Minus(w));
    PartsBack(w);
  }

  lemma Spread(u: real, v: real)
    ensures Abs(u - v) <= u + v + 2.0 * (Max(-u, 0.0) + Max(-v, 0.0))
  {}

  lemma SpreadSum(u: Vec, v: Vec)
    requires |u| == |v|
    ensures Norm1(Sub(u, v)) <= Sum(u) + Sum(v) + 2.0 * Sum(Minus(u + v))
  {
    var sums, parts := Add(u, v), Add(Minus(u), Minus(v));
    var bound := Add(sums, Scale(2.0, parts));
    forall j | 0 <= j < |u| ensures AbsVec(Sub(u, v))[j] <= bound[j] { Spread(u[j], v[j]); }
    SumToLe(AbsVec(Sub(u, v)), bound, |u|);
    SumToAdd(sums, Scale(2.0, parts), |u|);
    SumToAdd(u, v, |u|);
    SumToScale(2.0, parts, |u|);
    SumToAdd(Minus(u), Minus(v), |u|);
    assert Minus(u + v) == Minus(u) + Minus(v);
    SumConcat(Minus(u), Minus(v), |v|);
  }

  /** The Lasso objective at u - v exceeds the split one only by what entries below zero add. */
  lemma SplitAbove(x: Mat, s: Vec, lam: real, u: Vec, v: Vec)
    requires Columns(x, |s|) && |u| == |v| == |x| && lam >= 0.0
    ensures Columns(Split(x), |s|)
    ensures Objective(x, s, lam, Sub(u, v)) <= Primal(Split(x), s, lam, u + v) + Mul(lam, 2.0 * Sum(Minus(u + v)))
  {
    SplitPrimal(x, s, lam, u, v);
    SpreadSum(u, v);
    MulMono(lam, Norm1(Sub(u, v)), Sum(u) + Sum(v) + 2.0 * Sum(Minus(u + v)));
    MulAdd(lam, Sum(u) + Sum(v), 2.0 * Sum(Minus(u + v)));
  }

  /** What entries below zero can hide: nothing when x and z are non-negative. */
  ghost function SignLoss(lam: real, x: Vec, z: Vec, x': Vec): real
    requires |x| == |z| == |x'|
  {
    Mul(lam, 2.0 * Sum(Minus(x))) + Dot(Minus(z), x')
  }

  lemma NoSignLoss(lam: real, x: Vec, z: Vec, x': Vec)
    requires |x| == |z| == |x'| && NonNegative(x) && NonNegative(z)
    ensures SignLoss(lam, x, z, x') == 0.0
  {
    SumToZero(Minus(x), |x|);
    SumToZero(Had(Minus(z), x'), |x|);
  }

  /** What any point (u, v), y, z says about the weights u - v, against any others. */
  lemma LassoSuboptimality(x: Mat, s: Vec, lam: real, u: Vec, v: Vec, y: Vec, z: Vec, w: Vec)
    requires Columns(x, |s|) && |u| == |v| == |w| == |x| && |y| == |s| && lam >= 0.0 && |z| == 2 * |x|
    ensures Columns(Split(x), |s|)
    ensures Objective(x, s, lam, Sub(u, v)) <= Objective(x, s, lam, w) + Dot(z, u + v)
          + SqNorm(PrimalResidual(Split(x), s, u + v, y)) / 2.0
          - Dot(DualResidual(Split(x), lam, y, z), Sub(Plus(w) + Minus(w), u + v))
          + SignLoss(lam, u + v, z, Plus(w) + Minus(w))
  {
    SplitAbove(x, s, lam, u, v);
    SplitAtWeights(x, s, lam, w);
    Suboptimality(Split(x), s, lam, u + v, y, z, Plus(w) + Minus(w));
  }

  // ----- what the stopping test certifies

  /** The stopping test. */
  predicate Converged(rx: Vec, ry: Vec, x: Vec, z: Vec, normX: real, normY: real, epsilon: real)
    requires |x| == |z| && normX >= 0.0 && normY >= 0.0
  {
    ProductNonNeg(normX, normY);
    && SqNorm(ry) / (1.0 + normX) < epsilon
    && SqNorm(rx) / (1.0 + normY) < epsilon
    && Dot(z, x) / (1.0 + normX * normY) < epsilon
  }

  /** A product of r with d, from bounds on their lengths. */
  lemma LinearLoss(r: Vec, d: Vec, bound: real, dist: real)
    requires |r| == |d| && SqNorm(r) <= bound && dist >= 0.0 && Mul(bound, SqNorm(d)) <= Mul(dist, dist)
    ensures -Dot(r, d) <= dist
  {
    CauchySchwarz(r, d);
    SqNormNonNeg(d);
    LengthMono(SqNorm(r), bound, SqNorm(d));
    SquareRoot(Dot(r, d), dist);
  }

  lemma LengthMono(q: real, bound: real, d: real)
    requires q <= bound && d >= 0.0
    ensures Mul(q, d) <= Mul(bound, d)
  {}

  lemma SquareRoot(c: real, dist: real)
    requires dist >= 0.0 && Mul(c, c) <= Mul(dist, dist)
    ensures -c <= dist
  {
    var excess, total := -c - dist, dist - c;
    assert Mul(excess, total) == c * c - dist * dist;
    if excess > 0.0 { MulPos(excess, total); }
  }

  /** What the stopping test allows the products and the primal residual to add. */
  function Allowance(normX: real, normY: real, epsilon: real): real {
    epsilon * (1.0 + normX * normY) + epsilon * (1.0 + normX) / 2.0
  }

  lemma Threshold(q: real, d: real, epsilon: real)
    requires d > 0.0 && q / d < epsilon
    ensures q <= epsilon * d
  {
    var r := q / d;
    assert r * d == q;
    ScaleMono(d, r, epsilon);
  }

  lemma TestAllows(rx: Vec, ry: Vec, x: Vec, z: Vec, normX: real, normY: real, epsilon: real)
    requires |x| == |z| && normX >= 0.0 && normY >= 0.0 && Converged(rx, ry, x, z, normX, normY, epsilon)
    ensures SqNorm(rx) <= epsilon * (1.0 + normY)
    ensures Dot(z, x) + SqNorm(ry) / 2.0 <= Allowance(normX, normY, epsilon)
  {
    ProductNonNeg(normX, normY);
    Threshold(SqNorm(ry), 1.0 + normX, epsilon);
    Threshold(SqNorm(rx), 1.0 + normY, epsilon);
    Threshold(Dot(z, x), 1.0 + normX * normY, epsilon);
  }

  /** The weights u - v against w, `dist` bounding what the dual residual allows. */
  ghost predicate WithinAllowance(x: Mat, s: Vec, lam: real, xk: Vec, z: Vec, normX: real, normY: real,
                                  epsilon: real, w: Vec, dist: real)
    requires Columns(x, |s|) && |xk| == |z| == 2 * |x| && |w| == |x|
  {
    Objective(x, s, lam, Sub(xk[..|x|], xk[|x|..]))
      <= Objective(x, s, lam, w) + Allowance(normX, normY, epsilon) + dist + SignLoss(lam, xk, z, Plus(w) + Minus(w))
  }

  /** dist is at least the bound on the dual residual times the way to w. */
  ghost predicate Reaches(dist: real, normY: real, epsilon: real, xk: Vec, w: Vec)
    requires |xk| == 2 * |w|
  {
    dist >= 0.0 && Mul(epsilon * (1.0 + normY), SqNorm(Sub(Plus(w) + Minus(w), xk))) <= Mul(dist, dist)
  }

  /** What the stopping test certifies about the Lasso. */
  lemma ConvergedMeans(x: Mat, s: Vec, lam: real, xk: Vec, y: Vec, z: Vec, normX: real, normY: real,
                       epsilon: real, w: Vec, dist: real)
    requires Columns(x, |s|) && |xk| == |z| == 2 * |x| && |w| == |x| && |y| == |s|
    requires lam >= 0.0 && normX >= 0.0 && normY >= 0.0 && Reaches(dist, normY, epsilon, xk, w)
    requires Converged(DualResidual(Split(x), lam, y, z), PrimalResidual(Split(x), s, xk, y), xk, z,
                       normX, normY, epsilon)
    ensures WithinAllowance(x, s, lam, xk, z, normX, normY, epsilon, w, dist)
  {
    var u, v := xk[..|x|], xk[|x|..];
    var rx, ry := DualResidual(Split(x), lam, y, z), PrimalResidual(Split(x), s, xk, y);
    assert xk == u + v;
    LassoSuboptimality(x, s, lam, u, v, y, z, w);
    TestAllows(rx, ry, xk, z, normX, normY, epsilon);
    LinearLoss(rx, Sub(Plus(w) + Minus(w), xk), epsilon * (1.0 + normY), dist);
  }

  /** No weights are better than those of xk by more than the test allows, and entries below
      zero hide. */
  ghost predicate CertifiesLasso(x: Mat, s: Vec, lam: real, xk: Vec, z: Vec, normX: real, normY: real, epsilon: real)
    requires Columns(x, |s|) && |xk| == |z| == 2 * |x|
  {
    forall w: Vec, dist: real :: |w| == |x| && Reaches(dist, normY, epsilon, xk, w) ==>
      WithinAllowance(x, s, lam, xk, z, normX, normY, epsilon, w, dist)
  }

  lemma ConvergedCertifies(x: Mat, s: Vec, lam: real, xk: Vec, y: Vec, z: Vec, normX: real, normY: real, epsilon: real)
    requires Columns(x, |s|) && |xk| == |z| == 2 * |x| && |y| == |s|
    requires lam >= 0.0 && normX >= 0.0 && normY >= 0.0
    requires Converged(DualResidual(Split(x), lam, y, z), PrimalResidual(Split(x), s, xk, y), xk, z,
                       normX, normY, epsilon)
    ensures CertifiesLasso(x, s, lam, xk, z, normX, normY, epsilon)
  {
    forall w: Vec, dist: real | |w| == |x| && Reaches(dist, normY, epsilon, xk, w)
      ensures WithinAllowance(x, s, lam, xk, z, normX, normY, epsilon, w, dist)
    {
      ConvergedMeans(x, s, lam, xk, y, z, normX, normY, epsilon, w, dist);
    }
  }

  lemma InteriorLoses(lam: real, x: Vec, z: Vec)
    requires |x| == |z|
    ensures Interior(x, z) ==> forall d: Vec :: |d| == |z| ==> SignLoss(lam, x, z, d) == 0.0
  {
    if Interior(x, z) {
      forall d: Vec | |d| == |z| ensures SignLoss(lam, x, z, d) == 0.0 {
        NoSignLoss(lam, x, z, d);
      }
    }
  }
}
