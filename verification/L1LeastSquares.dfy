/** Least squares with an L1 penalty: the objective every Lasso solver here works on, its
    expansion around a point, and what a bound on the coordinate violations is worth.
 */
module L1LeastSquares {
  import opened LinearAlgebra

  function Half(lam: real): (g: real)
    ensures lam >= 0.0 ==> g >= 0.0
  {
    lam / 2.0
  }

  /** X*b - y */
  function Residual(x: Mat, y: Vec, b: Vec): (r: Vec)
    requires Columns(x, |y|) && |b| == |x|
    ensures |r| == |y|
  {
    Sub(Comb(x, b, |y|), y)
  }

  /** X'*(X*b - y), half the gradient of the squared residual. */
  function Gradient(x: Mat, y: Vec, b: Vec): (g: Vec)
    requires Columns(x, |y|) && |b| == |x|
    ensures |g| == |x|
  {
    Proj(x, Residual(x, y, b))
  }

  /** The solvers compute the gradient as XX*b - Xy. */
  lemma GradientFromGram(x: Mat, y: Vec, b: Vec, j: nat)
    requires Columns(x, |y|) && |b| == |x| && j < |x|
    ensures Dot(Gram(x, |y|)[j], b) - Proj(x, y)[j] == Gradient(x, y, b)[j]
  {
    GramTimes(x, b, |y|, j);
    ProjSub(x, Comb(x, b, |y|), y);
  }

  /** ||X*b - y||^2 / 2 + g * ||b||_1 */
  ghost function Objective(x: Mat, y: Vec, g: real, b: Vec): real
    requires Columns(x, |y|) && |b| == |x|
  {
    SqNorm(Residual(x, y, b)) / 2.0 + Mul(g, Norm1(b))
  }

  lemma ObjectiveNonNeg(x: Mat, y: Vec, g: real, b: Vec)
    requires Columns(x, |y|) && |b| == |x| && g >= 0.0
    ensures Objective(x, y, g, b) >= 0.0
  {
    SqNormNonNeg(Residual(x, y, b));
    SumToNonNeg(AbsVec(b), |b|);
    ProductNonNeg(g, Norm1(b));
  }

  /** A problem with one observation and one column, which is 1. */
  ghost predicate OneByOne(x: Mat, y: Vec) {
    |x| == 1 && |x[0]| == 1 && |y| == 1 && x[0][0] == 1.0
  }

  lemma OneGradient(x: Mat, y: Vec, w: Vec)
    requires OneByOne(x, y) && |w| == 1
    ensures Gram(x, 1)[0][0] == 1.0 && Proj(x, y)[0] == y[0] && Proj(Gram(x, 1), w)[0] == w[0]
    ensures Gradient(x, y, w)[0] == w[0] - y[0]
  {
    Dot1(x[0], x[0]);
    Dot1(x[0], y);
    Dot1(Gram(x, 1)[0], w);
    GradientFromGram(x, y, w, 0);
  }

  // ----- weights as the difference of two non-negative vectors

  ghost predicate NonNegative(u: Vec) {
    forall j :: 0 <= j < |u| ==> u[j] >= 0.0
  }

  /** Negative entries are set to zero. */
  function Plus(w: Vec): (r: Vec)
    ensures |r| == |w| && NonNegative(r)
  {
    seq(|w|, j requires 0 <= j < |w| => Max(w[j], 0.0))
  }

  function Minus(w: Vec): (r: Vec)
    ensures |r| == |w| && NonNegative(r)
  {
    seq(|w|, j requires 0 <= j < |w| => Max(-w[j], 0.0))
  }

  lemma PartsBack(w: Vec)
    ensures Sub(Plus(w), Minus(w)) == w
    ensures Sum(Plus(w)) + Sum(Minus(w)) == Norm1(w)
  {
    assert Add(Plus(w), Minus(w)) == AbsVec(w);
    SumToAdd(Plus(w), Minus(w), |w|);
  }

  lemma SmallerApart(u: Vec, v: Vec)
    requires |u| == |v| && NonNegative(u) && NonNegative(v)
    ensures Norm1(Sub(u, v)) <= Sum(u) + Sum(v)
  {
    SumToAdd(u, v, |u|);
    SumToLe(AbsVec(Sub(u, v)), Add(u, v), |u|);
  }

  // ----- moving to another point

  /** The squared residual at c, expanded around b. */
  lemma Expand(x: Mat, y: Vec, b: Vec, c: Vec)
    requires Columns(x, |y|) && |b| == |c| == |x|
    ensures SqNorm(Residual(x, y, c))
         == SqNorm(Residual(x, y, b)) + 2.0 * Dot(Gradient(x, y, b), Sub(c, b)) + SqNorm(Comb(x, Sub(c, b), |y|))
  {
    var n := |y|;
    var r, step := Residual(x, y, b), Comb(x, Sub(c, b), n);
    CombSub(x, c, b, n);
    assert Residual(x, y, c) == Add(r, step);
    SqNormAdd(r, step);
    Adjoint(x, Sub(c, b), r);
  }

  /** The squared residual after moving coordinate j by t. */
  lemma ExpandAt(x: Mat, y: Vec, b: Vec, j: nat, t: real)
    requires Columns(x, |y|) && |b| == |x| && j < |x|
    ensures SqNorm(Residual(x, y, b[j := b[j] + t]))
         == SqNorm(Residual(x, y, b)) + 2.0 * Mul(t, Gradient(x, y, b)[j]) + Mul(t, Mul(t, SqNorm(x[j])))
  {
    var n := |y|;
    var r, step := Residual(x, y, b), Scale(t, x[j]);
    CombUpdate(x, b, j, t, n);
    assert Residual(x, y, b[j := b[j] + t]) == Add(r, step);
    SqNormAdd(r, step);
    DotScale(r, t, x[j]);
    DotSym(r, x[j]);
    DotScale(step, t, x[j]);
    DotSym(step, x[j]);
    DotScale(x[j], t, x[j]);
  }

  lemma Norm1At(b: Vec, j: nat, t: real)
    requires j < |b|
    ensures Norm1(b[j := b[j] + t]) == Norm1(b) + Abs(b[j] + t) - Abs(b[j])
  {
    SumToUpdate(AbsVec(b), j, Abs(b[j] + t), |b|);
    assert AbsVec(b[j := b[j] + t]) == AbsVec(b)[j := Abs(b[j] + t)];
  }

  /** How much one variable contributes to the objective when it moves by t from b, with
      gradient d and curvature q. */
  function Change(d: real, q: real, g: real, b: real, t: real): real {
    d * t + q * t * t / 2.0 + g * (Abs(b + t) - Abs(b))
  }

  lemma ObjectiveAt(x: Mat, y: Vec, g: real, b: Vec, j: nat, t: real)
    requires Columns(x, |y|) && |b| == |x| && j < |x|
    ensures Objective(x, y, g, b[j := b[j] + t])
         == Objective(x, y, g, b) + Change(Gradient(x, y, b)[j], SqNorm(x[j]), g, b[j], t)
  {
    ExpandAt(x, y, b, j, t);
    Norm1At(b, j, t);
    ChangeAt(Gradient(x, y, b)[j], SqNorm(x[j]), g, b[j], t, Norm1(b));
  }

  lemma ChangeAt(d: real, q: real, g: real, b: real, t: real, norm: real)
    ensures (2.0 * Mul(t, d) + Mul(t, Mul(t, q))) / 2.0 + Mul(g, norm + Abs(b + t) - Abs(b))
         == Mul(g, norm) + Change(d, q, g, b, t)
  {
    Distribute(g, norm, Abs(b + t) - Abs(b));
    Reassociate(t, t, q);
    assert t * (t * q) == q * t * t;
  }

  // ----- violations of the optimality conditions

  /** How far one variable is from being optimal: the largest slope at which the objective
      still falls. This is the quantity computed by computeViol. */
  function Violation(b: real, d: real, g: real): (v: real)
    ensures g >= 0.0 ==> v >= 0.0
  {
    if b > 0.0 then Abs(g + d)
    else if b < 0.0 then Abs(g - d)
    else Max(Max(-d - g, -g + d), 0.0)
  }

  lemma SlopeUp(t: real, change: real, d: real, g: real, v: real)
    requires g >= 0.0 && change >= t && v >= Abs(d + g)
    ensures d * t + g * change >= -(v * Abs(t))
  {
    ScaleMono(g, t, change);
    Distribute(t, d, g);
    AbsProduct(d + g, t, v);
  }

  lemma SlopeAtZero(t: real, d: real, g: real, v: real)
    requires v + g >= Abs(d)
    ensures d * t + g * Abs(t) >= -(v * Abs(t))
  {
    AbsProduct(d, t, v + g);
    Distribute(Abs(t), v, g);
  }

  /** The violation bounds how fast one variable can bring the objective down. */
  lemma SlopeBound(b: real, t: real, d: real, g: real, v: real)
    requires g >= 0.0 && v >= Violation(b, d, g)
    ensures d * t + g * (Abs(b + t) - Abs(b)) >= -(v * Abs(t))
  {
    if b > 0.0 {
      SlopeUp(t, Abs(b + t) - Abs(b), d, g, v);
    } else if b < 0.0 {
      SlopeUp(-t, Abs(b + t) - Abs(b), -d, g, v);
      NegatedProduct(d, t, -t);
      NegatedProduct(-t, d, -d);
    } else {
      SlopeAtZero(t, d, g, v);
      SameProduct(g, Abs(b + t) - Abs(b), Abs(t));
    }
  }

  // ----- what a bound on all violations certifies

  ghost predicate AllWithin(x: Mat, y: Vec, g: real, b: Vec, tau: real)
    requires Columns(x, |y|) && |b| == |x|
  {
    forall j :: 0 <= j < |x| ==> Violation(b[j], Gradient(x, y, b)[j], g) <= tau
  }

  /** c does not beat b by more than tau per unit of distance. */
  ghost predicate NoBetter(x: Mat, y: Vec, g: real, b: Vec, tau: real, c: Vec)
    requires Columns(x, |y|) && |b| == |c| == |x|
  {
    Objective(x, y, g, c) >= Objective(x, y, g, b) - Mul(tau, Norm1(Sub(c, b)))
  }

  ghost predicate Certified(x: Mat, y: Vec, g: real, b: Vec, tau: real)
    requires Columns(x, |y|) && |b| == |x|
  {
    forall c: Vec :: |c| == |x| ==> NoBetter(x, y, g, b, tau, c)
  }

  ghost predicate AtLeast(x: Mat, y: Vec, g: real, b: Vec, c: Vec)
    requires Columns(x, |y|) && |b| == |c| == |x|
  {
    Objective(x, y, g, c) >= Objective(x, y, g, b)
  }

  ghost predicate IsMinimiser(x: Mat, y: Vec, g: real, b: Vec)
    requires Columns(x, |y|) && |b| == |x|
  {
    forall c: Vec :: |c| == |x| ==> AtLeast(x, y, g, b, c)
  }

  lemma LinearPartAt(b: real, c: real, t: real, d: real, g: real, tau: real)
    requires g >= 0.0 && t == c - b && Violation(b, d, g) <= tau
    ensures d * t + g * (Abs(c) - Abs(b)) + tau * Abs(t) >= 0.0
  {
    assert c == b + t;
    SlopeBound(b, t, d, g, tau);
  }

  lemma LinearPart(d: Vec, g: real, b: Vec, c: Vec, tau: real)
    requires |d| == |b| == |c| && g >= 0.0
    requires forall j :: 0 <= j < |b| ==> Violation(b[j], d[j], g) <= tau
    ensures Dot(d, Sub(c, b)) + Mul(g, Sum(Sub(AbsVec(c), AbsVec(b)))) + Mul(tau, Norm1(Sub(c, b))) >= 0.0
  {
    var t := Sub(c, b);
    var slopes, sizes, moves := Had(d, t), Scale(g, Sub(AbsVec(c), AbsVec(b))), Scale(tau, AbsVec(t));
    var total := Add(Add(slopes, sizes), moves);
    forall j | 0 <= j < |b| ensures total[j] >= 0.0 {
      LinearPartAt(b[j], c[j], t[j], d[j], g, tau);
    }
    SumToNonNeg(total, |b|);
    SumToAdd(Add(slopes, sizes), moves, |b|);
    SumToAdd(slopes, sizes, |b|);
    SumToScale(g, Sub(AbsVec(c), AbsVec(b)), |b|);
    SumToScale(tau, AbsVec(t), |b|);
  }

  lemma WithinCertifies(x: Mat, y: Vec, g: real, b: Vec, tau: real, c: Vec)
    requires Columns(x, |y|) && |b| == |c| == |x| && g >= 0.0
    requires AllWithin(x, y, g, b, tau)
    ensures NoBetter(x, y, g, b, tau, c)
  {
    Expand(x, y, b, c);
    SqNormNonNeg(Comb(x, Sub(c, b), |y|));
    LinearPart(Gradient(x, y, b), g, b, c, tau);
    SumSub(AbsVec(c), AbsVec(b));
    DistributeSub(g, Norm1(c), Norm1(b), Sum(Sub(AbsVec(c), AbsVec(b))));
  }

  /** A move small enough that the curvature term cannot undo a slope of `excess`. */
  function SmallStep(excess: real, q: real, limit: real): (e: real)
    requires excess > 0.0 && q >= 0.0 && limit > 0.0
    ensures 0.0 < e <= limit && q * e * e / 2.0 < excess * e
  {
    var e := Min(limit, excess / (q + 1.0));
    assert e * (q + 1.0) <= excess by {
      ScaleMono(q + 1.0, e, excess / (q + 1.0));
    }
    StepFits(excess, q, e);
    e
  }

  lemma StepFits(excess: real, q: real, e: real)
    requires e > 0.0 && q >= 0.0 && e * (q + 1.0) <= excess
    ensures q * e * e / 2.0 < excess * e
  {
    assert q * e < excess;
    var s := excess - q * e;
    MulPos(s, e);
    assert Mul(s, e) == excess * e - q * e * e;
    ProductNonNeg(q, e);
    ProductNonNeg(q * e, e);
  }

  /** Does the objective fall when the variable goes up? */
  predicate GoUp(b: real, d: real, g: real) {
    if b > 0.0 then d + g < 0.0 else if b < 0.0 then d - g < 0.0 else d < 0.0
  }

  /** When the violation exceeds tau, some move of that variable gains more than tau per unit. */
  lemma Improves(b: real, d: real, q: real, g: real, tau: real) returns (t: real)
    requires g >= 0.0 && tau >= 0.0 && q >= 0.0 && Violation(b, d, g) > tau
    ensures Change(d, q, g, b, t) + Mul(tau, Abs(t)) < 0.0
  {
    var v := Violation(b, d, g);
    var e := SmallStep(v - tau, q, if b == 0.0 then 1.0 else Abs(b));
    t := if GoUp(b, d, g) then e else -e;
    GainsEnough(v, tau, e, q);
    ChangeOfStep(b, d, q, g, e, t);
  }

  lemma ChangeOfStep(b: real, d: real, q: real, g: real, e: real, t: real)
    requires g >= 0.0 && 0.0 < e && (b == 0.0 || e <= Abs(b)) && Violation(b, d, g) > 0.0
    requires t == if GoUp(b, d, g) then e else -e
    ensures Change(d, q, g, b, t) == -Mul(Violation(b, d, g), e) + q * e * e / 2.0
    ensures Abs(t) == e
  {
    var change := Abs(b + t) - Abs(b);
    SlopeExact(b, t, d, g, e, change);
    SquareSign(q, t, e);
    SameProduct(g, Abs(b + t) - Abs(b), change);
  }

  lemma SquareSign(q: real, t: real, e: real)
    requires t == e || t == -e
    ensures q * t * t == q * e * e
  {}

  lemma GainsEnough(v: real, tau: real, e: real, q: real)
    requires q * e * e / 2.0 < (v - tau) * e
    ensures -Mul(v, e) + q * e * e / 2.0 + Mul(tau, e) < 0.0
  {}

  lemma SlopeExact(b: real, t: real, d: real, g: real, e: real, change: real)
    requires g >= 0.0 && e > 0.0
    requires change == if b > 0.0 then t else if b < 0.0 then -t else e
    requires t == if GoUp(b, d, g) then e else -e
    requires Violation(b, d, g) > 0.0
    ensures d * t + g * change == -(Violation(b, d, g) * e)
  {
    var v := Violation(b, d, g);
    if b > 0.0 {
      assert d * t + g * t == (d + g) * t;
      assert v == if d + g < 0.0 then -(d + g) else d + g;
    } else if b < 0.0 {
      assert d * t + g * -t == (d - g) * t;
      assert v == if d - g < 0.0 then -(d - g) else d - g;
    } else {
      assert v == if d < 0.0 then -d - g else d - g;
    }
  }

  lemma SingleMove(b: Vec, j: nat, t: real)
    requires j < |b|
    ensures Norm1(Sub(b[j := b[j] + t], b)) == Abs(t)
  {
    var z := Zero(|b|);
    Norm1At(z, j, t);
    SumToZero(AbsVec(z), |b|);
    assert Sub(b[j := b[j] + t], b) == z[j := z[j] + t];
  }

  lemma Improvement(x: Mat, y: Vec, g: real, b: Vec, tau: real, j: nat) returns (c: Vec)
    requires Columns(x, |y|) && |b| == |x| && g >= 0.0 && tau >= 0.0 && j < |x|
    requires Violation(b[j], Gradient(x, y, b)[j], g) > tau
    ensures |c| == |x| && !NoBetter(x, y, g, b, tau, c) && Objective(x, y, g, c) < Objective(x, y, g, b)
  {
    SqNormNonNeg(x[j]);
    var t := Improves(b[j], Gradient(x, y, b)[j], SqNorm(x[j]), g, tau);
    ObjectiveAt(x, y, g, b, j, t);
    SingleMove(b, j, t);
    c := b[j := b[j] + t];
    assert Mul(tau, Norm1(Sub(c, b))) == Mul(tau, Abs(t));
    ProductNonNeg(tau, Abs(t));
  }

  /** A point is certified to tolerance tau exactly when every violation is at most tau. */
  lemma CertificateIff(x: Mat, y: Vec, g: real, b: Vec, tau: real)
    requires Columns(x, |y|) && |b| == |x| && g >= 0.0 && tau >= 0.0
    ensures Certified(x, y, g, b, tau) <==> AllWithin(x, y, g, b, tau)
  {
    if AllWithin(x, y, g, b, tau) {
      forall c: Vec | |c| == |x|
        ensures NoBetter(x, y, g, b, tau, c)
      {
        WithinCertifies(x, y, g, b, tau, c);
      }
    } else {
      var j :| 0 <= j < |x| && Violation(b[j], Gradient(x, y, b)[j], g) > tau;
      var c := Improvement(x, y, g, b, tau, j);
      assert !NoBetter(x, y, g, b, tau, c);
    }
  }

  lemma ZeroTolerance(x: Mat, y: Vec, g: real, b: Vec, tau: real, c: Vec)
    requires Columns(x, |y|) && |b| == |c| == |x| && tau == 0.0
    ensures NoBetter(x, y, g, b, tau, c) <==> AtLeast(x, y, g, b, c)
  {
    assert Mul(tau, Norm1(Sub(c, b))) == 0.0;
  }

  lemma OptimalBeats(x: Mat, y: Vec, g: real, b: Vec, c: Vec)
    requires Columns(x, |y|) && |b| == |c| == |x| && g >= 0.0
    requires AllWithin(x, y, g, b, 0.0)
    ensures AtLeast(x, y, g, b, c)
  {
    WithinCertifies(x, y, g, b, 0.0, c);
    ZeroTolerance(x, y, g, b, 0.0, c);
  }

  /** A point is a global minimiser exactly when no variable violates its condition. */
  lemma MinimiserIff(x: Mat, y: Vec, g: real, b: Vec)
    requires Columns(x, |y|) && |b| == |x| && g >= 0.0
    ensures IsMinimiser(x, y, g, b) <==> AllWithin(x, y, g, b, 0.0)
  {
    if AllWithin(x, y, g, b, 0.0) {
      forall c: Vec | |c| == |x| ensures AtLeast(x, y, g, b, c) {
        OptimalBeats(x, y, g, b, c);
      }
    } else {
      var j :| 0 <= j < |x| && Violation(b[j], Gradient(x, y, b)[j], g) > 0.0;
      var c := Improvement(x, y, g, b, 0.0, j);
      assert !AtLeast(x, y, g, b, c);
    }
  }

  // ----- setting small weights to zero

  /** w with everything within the threshold set to zero. */
  function Thresholded(w: Vec, threshold: real): (r: Vec) {
    seq(|w|, j requires 0 <= j < |w| => if Abs(w[j]) <= threshold then 0.0 else w[j])
  }

  /** What the objective gains when small weights are set to zero, e being the change of w: the
      change of the squared residual less the penalty saved. */
  ghost function ThresholdLoss(x: Mat, y: Vec, g: real, w: Vec, e: Vec): real
    requires Columns(x, |y|) && |w| == |e| == |x|
  {
    Dot(Gradient(x, y, w), e) + SqNorm(Comb(x, e, |y|)) / 2.0 - Mul(g, Norm1(e))
  }

  lemma ThresholdNorm(w: Vec, t: Vec, e: Vec, threshold: real)
    requires t == Thresholded(w, threshold) && |e| == |w| && e == Sub(t, w)
    ensures Norm1(t) == Norm1(w) - Norm1(e)
  {
    assert AbsVec(t) == Sub(AbsVec(w), AbsVec(e));
    SumSub(AbsVec(w), AbsVec(e));
  }

  /** The loss is exact. */
  lemma ThresholdedObjective(x: Mat, y: Vec, g: real, w: Vec, threshold: real)
    requires Columns(x, |y|) && |w| == |x|
    ensures
      var t := Thresholded(w, threshold);
      Objective(x, y, g, t) == Objective(x, y, g, w) + ThresholdLoss(x, y, g, w, Sub(t, w))
  {
    var t := Thresholded(w, threshold);
    Expand(x, y, w, t);
    ThresholdNorm(w, t, Sub(t, w), threshold);
    DistributeSub(g, Norm1(w), Norm1(Sub(t, w)), Norm1(t));
  }

  /** Nothing is lost when no weight but zeros lies within the threshold. */
  lemma NothingThresholded(w: Vec, threshold: real)
    requires forall j :: 0 <= j < |w| ==> w[j] == 0.0 || Abs(w[j]) > threshold
    ensures Thresholded(w, threshold) == w
  {}

  lemma DroppedSlope(w: real, d: real, g: real, e: real)
    requires g >= 0.0 && Violation(w, d, g) <= 0.0 && (e == 0.0 || e == -w)
    ensures d * e == g * Abs(e)
  {
    if e > 0.0 {
      SameProduct(e, d, g);
    } else if e < 0.0 {
      SameProduct(e, d, -g);
      NegatedProduct(g, e, -e);
    }
  }

  lemma DroppedSlopes(x: Mat, y: Vec, g: real, w: Vec, threshold: real, e: Vec)
    requires Columns(x, |y|) && |w| == |e| == |x| && g >= 0.0 && AllWithin(x, y, g, w, 0.0)
    requires e == Sub(Thresholded(w, threshold), w)
    ensures Dot(Gradient(x, y, w), e) == Mul(g, Norm1(e))
  {
    var d := Gradient(x, y, w);
    forall j | 0 <= j < |x| ensures Had(d, e)[j] == Scale(g, AbsVec(e))[j] {
      DroppedSlope(w[j], d[j], g, e[j]);
    }
    assert Had(d, e) == Scale(g, AbsVec(e));
    SumToScale(g, AbsVec(e), |x|);
  }

  lemma SameObjective(x: Mat, y: Vec, g: real, w: Vec, t: Vec)
    requires Columns(x, |y|) && |w| == |t| == |x| && IsMinimiser(x, y, g, w)
    ensures IsMinimiser(x, y, g, t) <==> Objective(x, y, g, t) <= Objective(x, y, g, w)
  {
    if IsMinimiser(x, y, g, t) {
      assert AtLeast(x, y, g, t, w);
    }
    if Objective(x, y, g, t) <= Objective(x, y, g, w) {
      forall c: Vec | |c| == |x| ensures AtLeast(x, y, g, t, c) {
        assert AtLeast(x, y, g, w, c);
      }
    }
  }

  /** From a minimiser the loss is half the squared change of X*w, so that the weights kept
      minimise exactly when the weights dropped contribute nothing together. */
  lemma ThresholdedMinimiser(x: Mat, y: Vec, g: real, w: Vec, threshold: real)
    requires Columns(x, |y|) && |w| == |x| && g >= 0.0 && IsMinimiser(x, y, g, w)
    ensures
      var t := Thresholded(w, threshold);
      && Objective(x, y, g, t) == Objective(x, y, g, w) + SqNorm(Comb(x, Sub(t, w), |y|)) / 2.0
      && (IsMinimiser(x, y, g, t) <==> Comb(x, Sub(t, w), |y|) == Zero(|y|))
  {
    var t := Thresholded(w, threshold);
    var e := Sub(t, w);
    MinimiserIff(x, y, g, w);
    DroppedSlopes(x, y, g, w, threshold, e);
    ThresholdedObjective(x, y, g, w, threshold);
    SqNormNonNeg(Comb(x, e, |y|));
    SameObjective(x, y, g, w, t);
  }

  // ----- one observation and one column

  lemma OneWithin(x: Mat, y: Vec, g: real, w: Vec)
    requires OneByOne(x, y) && |w| == 1
    ensures AllWithin(x, y, g, w, 0.0) <==> Violation(w[0], w[0] - y[0], g) <= 0.0
  {
    var d := Gradient(x, y, w)[0];
    OneGradient(x, y, w);
    assert Violation(w[0], d, g) <= 0.0 <==> AllWithin(x, y, g, w, 0.0);
  }

  lemma SmallViolation(w: real, y: real)
    requires w >= 0.0 && y == 0.50005
    ensures Violation(w, w - y, 0.5) <= 0.0 <==> w == 0.00005
  {}

  lemma SmallWithin(x: Mat, y: Vec, g: real, w: Vec)
    requires OneByOne(x, y) && |w| == 1 && w[0] >= 0.0 && y[0] == 0.50005 && g == 0.5
    ensures AllWithin(x, y, g, w, 0.0) <==> w[0] == 0.00005
  {
    SmallViolation(w[0], y[0]);
    OneWithin(x, y, g, w);
  }

  /** For y = 0.50005 and g = 0.5 the only non-negative minimiser is 0.00005. */
  lemma SmallMinimiser(x: Mat, y: Vec, g: real, w: Vec)
    requires OneByOne(x, y) && |w| == 1 && w[0] >= 0.0 && y[0] == 0.50005 && g == 0.5
    ensures IsMinimiser(x, y, g, w) <==> w[0] == 0.00005
  {
    SmallWithin(x, y, g, w);
    MinimiserIff(x, y, g, w);
  }
}
