/** `LassoShooting`: cyclic exact minimisation, one coordinate at a time, until a whole sweep
    moves the weights by less than a tolerance.

    Objectives are stated as `Objective(x, y, Half(lam), b)`, lam being the source's lambda: half of the
    ||X*b - y||^2 + lambda*||b||_1 that the solver logs.
 */
module Shooting {
  import opened LinearAlgebra
  import opened L1LeastSquares

  // ----- one coordinate

  /** The new value of a coordinate with partial slope s0 and second derivative c. */
  function NewValue(s0: real, lam: real, c: real): real
    requires Abs(s0) > lam ==> c > 0.0
  {
    if s0 > lam then (lam - s0) / c
    else if s0 < -lam then (-lam - s0) / c
    else 0.0
  }

  /** The slope the objective would have with this coordinate at zero, from gradient d and
      squared column norm q at value b. */
  function SlopeWithout(b: real, d: real, q: real): real {
    2.0 * (d - q * b)
  }

  function Target(b: real, d: real, q: real, lam: real): real
    requires Abs(SlopeWithout(b, d, q)) > lam ==> q > 0.0
  {
    NewValue(SlopeWithout(b, d, q), lam, 2.0 * q)
  }

  lemma DivideTwice(a: real, q: real)
    requires q > 0.0
    ensures q * (2.0 * a / (2.0 * q)) == a
  {}

  /** The updated coordinate satisfies its own optimality condition exactly. */
  lemma TargetOptimal(b: real, d: real, q: real, lam: real)
    requires lam >= 0.0 && q >= 0.0 && (Abs(SlopeWithout(b, d, q)) > lam ==> q > 0.0)
    ensures Violation(Target(b, d, q, lam), d + Mul(q, Target(b, d, q, lam) - b), Half(lam)) == 0.0
  {
    var s, b', g := d - q * b, Target(b, d, q, lam), Half(lam);
    DistributeSub(q, b', b, b' - b);
    assert d + q * (b' - b) == s + q * b';
    if 2.0 * s > lam {
      DivideTwice(g - s, q);
      assert q * b' == g - s;
      NegativeQuotient(g - s, q, b');
    } else if 2.0 * s < -lam {
      DivideTwice(-g - s, q);
      assert q * b' == -g - s;
      PositiveQuotient(-g - s, q, b');
    } else {
      assert q * b' == 0.0;
    }
  }

  lemma NegativeQuotient(a: real, q: real, b: real)
    requires q > 0.0 && a < 0.0 && q * b == a
    ensures b < 0.0
  {
    if b >= 0.0 { ProductNonNeg(q, b); }
  }

  lemma PositiveQuotient(a: real, q: real, b: real)
    requires q > 0.0 && a > 0.0 && q * b == a
    ensures b > 0.0
  {
    if b <= 0.0 { ProductNonNeg(q, -b); NegatedProduct(q, b, -b); }
  }

  /** Moving forth and back cancels, with the gradient taken at each end. */
  lemma ChangeBack(d: real, q: real, g: real, b: real, c: real)
    ensures Change(d, q, g, b, c - b) == -Change(d + Mul(q, c - b), q, g, c, b - c)
  {
    var t, s := c - b, b - c;
    assert b + t == c && c + s == b;
    NegatedProduct(d, t, s);
    assert (d + q * t) * s == -(d * t) - q * t * t;
    assert q * s * s == q * t * t;
    NegatedProduct(g, Abs(c) - Abs(b), Abs(b) - Abs(c));
  }

  /** Leaving an optimal value costs at least half the curvature times the squared move. */
  lemma LeavingOptimum(b: real, t: real, d: real, q: real, g: real, v: real)
    requires g >= 0.0 && v == Violation(b, d, g) && v == 0.0
    ensures Change(d, q, g, b, t) >= q * t * t / 2.0
  {
    SlopeBound(b, t, d, g, v);
    assert v * Abs(t) == 0.0;
  }

  /** The update gains at least half the curvature times the squared move. */
  lemma TargetGain(b: real, d: real, q: real, lam: real, t: real)
    requires lam >= 0.0 && q >= 0.0 && (Abs(SlopeWithout(b, d, q)) > lam ==> q > 0.0)
    requires t == Target(b, d, q, lam) - b
    ensures Change(d, q, Half(lam), b, t) <= -(q * t * t / 2.0)
  {
    var c := Target(b, d, q, lam);
    var d', g := d + Mul(q, c - b), Half(lam);
    TargetOptimal(b, d, q, lam);
    ChangeBack(d, q, g, b, c);
    LeavingOptimum(c, b - c, d', q, g, Violation(c, d', g));
    SquareSign(q, b - c, t);
  }

  /** The update leaves a coordinate alone exactly when it was optimal already. */
  lemma TargetFixed(b: real, d: real, q: real, lam: real)
    requires lam >= 0.0 && q >= 0.0 && (Abs(SlopeWithout(b, d, q)) > lam ==> q > 0.0)
    ensures Target(b, d, q, lam) == b ==> Violation(b, d, Half(lam)) == 0.0
    ensures (q > 0.0 || (lam > 0.0 && d == 0.0)) && Violation(b, d, Half(lam)) == 0.0
            ==> Target(b, d, q, lam) == b
  {
    if Target(b, d, q, lam) == b {
      TargetOptimal(b, d, q, lam);
      NoMove(q, Target(b, d, q, lam) - b);
    }
    if (q > 0.0 || (lam > 0.0 && d == 0.0)) && Violation(b, d, Half(lam)) == 0.0 {
      OptimalStays(b, d, q, lam);
    }
  }

  lemma NoMove(q: real, t: real)
    requires t == 0.0
    ensures Mul(q, t) == 0.0
  {}

  lemma TimesOverTimes(q: real, b: real)
    requires q > 0.0
    ensures (2.0 * (q * b)) / (2.0 * q) == b
    ensures (b > 0.0 ==> q * b > 0.0) && (b < 0.0 ==> q * b < 0.0)
  {
    if b > 0.0 {
      MulPos(q, b);
    } else if b < 0.0 {
      MulPos(q, -b);
      NegatedProduct(q, b, -b);
    }
  }

  lemma OptimalStays(b: real, d: real, q: real, lam: real)
    requires lam >= 0.0 && q >= 0.0 && (Abs(SlopeWithout(b, d, q)) > lam ==> q > 0.0)
    requires (q > 0.0 || (lam > 0.0 && d == 0.0)) && Violation(b, d, Half(lam)) == 0.0
    ensures Target(b, d, q, lam) == b
  {
    if b == 0.0 {
      NoMove(q, b);
    } else {
      TimesOverTimes(q, b);
      var move := 2.0 * (q * b);
      assert SlopeWithout(b, d, q) == 2.0 * d - move;
    }
  }

  // ----- the precomputed Hessian and the slope of one coordinate

  /** X'*X*2 */
  function TwiceGram(x: Mat, n: nat): (h: Mat)
    requires Columns(x, n)
  {
    seq(|x|, j requires 0 <= j < |x| => Scale(2.0, Gram(x, n)[j]))
  }

  /** S0 for coordinate j */
  function PartialSlope(h: Mat, v: Vec, b: Vec, j: nat): real
    requires j < |h| && j < |v| && j < |b| && |h[j]| == |b|
  {
    Dot(h[j], b) - h[j][j] * b[j] - v[j]
  }

  lemma PartialSlopeValue(x: Mat, y: Vec, b: Vec, j: nat)
    requires Columns(x, |y|) && |b| == |x| && j < |x|
    ensures PartialSlope(TwiceGram(x, |y|), Scale(2.0, Proj(x, y)), b, j)
         == SlopeWithout(b[j], Gradient(x, y, b)[j], SqNorm(x[j]))
    ensures TwiceGram(x, |y|)[j][j] == 2.0 * SqNorm(x[j])
  {
    var row := Gram(x, |y|)[j];
    DotScale(b, 2.0, row);
    DotSym(b, row);
    DotSym(b, Scale(2.0, row));
    GradientFromGram(x, y, b, j);
    assert row[j] == SqNorm(x[j]);
    assert (2.0 * row[j]) * b[j] == 2.0 * (row[j] * b[j]);
  }

  /** A zero column has slope zero, so the update never divides by zero. */
  lemma NeverDividesByZero(x: Mat, y: Vec, lam: real, b: Vec, j: nat)
    requires Columns(x, |y|) && |b| == |x| && j < |x| && lam >= 0.0
    ensures var h := TwiceGram(x, |y|);
      Abs(PartialSlope(h, Scale(2.0, Proj(x, y)), b, j)) > lam ==> h[j][j] > 0.0
    ensures SqNorm(x[j]) >= 0.0 && (SqNorm(x[j]) == 0.0 ==> Gradient(x, y, b)[j] == 0.0)
  {
    PartialSlopeValue(x, y, b, j);
    SqNormNonNeg(x[j]);
    if SqNorm(x[j]) == 0.0 {
      SumToZero(Had(x[j], Residual(x, y, b)), |y|);
      assert SqNorm(x[j]) * b[j] == 0.0;
    }
  }

  // ----- a sweep, as a function

  /** The new weight of coordinate j. */
  function NewWeight(x: Mat, y: Vec, lam: real, b: Vec, j: nat): real
    requires Columns(x, |y|) && |b| == |x| && j < |x| && lam >= 0.0
  {
    NeverDividesByZero(x, y, lam, b, j);
    var h := TwiceGram(x, |y|);
    NewValue(PartialSlope(h, Scale(2.0, Proj(x, y)), b, j), lam, h[j][j])
  }

  lemma NewWeightIsTarget(x: Mat, y: Vec, lam: real, b: Vec, j: nat)
    requires Columns(x, |y|) && |b| == |x| && j < |x| && lam >= 0.0
    ensures var q, d := SqNorm(x[j]), Gradient(x, y, b)[j];
      && q >= 0.0 && (Abs(SlopeWithout(b[j], d, q)) > lam ==> q > 0.0)
      && NewWeight(x, y, lam, b, j) == Target(b[j], d, q, lam)
  {
    NeverDividesByZero(x, y, lam, b, j);
    PartialSlopeValue(x, y, b, j);
  }

  function Shoot(x: Mat, y: Vec, lam: real, b: Vec, j: nat): (b': Vec)
    requires Columns(x, |y|) && |b| == |x| && j < |x| && lam >= 0.0
    ensures |b'| == |x|
  {
    b[j := NewWeight(x, y, lam, b, j)]
  }

  /** The first k coordinates of a sweep done. */
  function SweepTo(x: Mat, y: Vec, lam: real, b: Vec, k: nat): (b': Vec)
    requires Columns(x, |y|) && |b| == |x| && k <= |x| && lam >= 0.0
    ensures |b'| == |x|
  {
    if k == 0 then b else Shoot(x, y, lam, SweepTo(x, y, lam, b, k - 1), k - 1)
  }

  function Sweep(x: Mat, y: Vec, lam: real, b: Vec): (b': Vec)
    requires Columns(x, |y|) && |b| == |x| && lam >= 0.0
    ensures |b'| == |x|
  {
    SweepTo(x, y, lam, b, |x|)
  }

  lemma SweepStep(x: Mat, y: Vec, lam: real, b: Vec, k: nat)
    requires Columns(x, |y|) && |b| == |x| && 0 < k <= |x| && lam >= 0.0
    ensures SweepTo(x, y, lam, b, k) == Shoot(x, y, lam, SweepTo(x, y, lam, b, k - 1), k - 1)
  {}

  lemma {:induction false} SweepUntouched(x: Mat, y: Vec, lam: real, b: Vec, k: nat, j: nat)
    requires Columns(x, |y|) && |b| == |x| && k <= j < |x| && lam >= 0.0
    ensures SweepTo(x, y, lam, b, k)[j] == b[j]
  {
    if k > 0 { SweepUntouched(x, y, lam, b, k - 1, j); }
  }

  lemma {:induction false} SweepKept(x: Mat, y: Vec, lam: real, b: Vec, k: nat, j: nat)
    requires Columns(x, |y|) && |b| == |x| && j < k <= |x| && lam >= 0.0
    ensures SweepTo(x, y, lam, b, k)[j] == SweepTo(x, y, lam, b, j + 1)[j]
  {
    if k > j + 1 { SweepKept(x, y, lam, b, k - 1, j); }
  }

  // ----- a sweep leaves exactly the minimisers alone

  /** Without a penalty, weights of zero columns are zero. */
  ghost predicate Settled(x: Mat, lam: real, b: Vec)
    requires |b| == |x|
  {
    lam > 0.0 || forall j :: 0 <= j < |x| && SqNorm(x[j]) == 0.0 ==> b[j] == 0.0
  }

  /** Without a penalty the weight of a zero column is set to zero, though any would do. */
  lemma ZeroColumnWeight(x: Mat, y: Vec, b: Vec, j: nat)
    requires Columns(x, |y|) && |b| == |x| && j < |x| && SqNorm(x[j]) == 0.0
    ensures NewWeight(x, y, 0.0, b, j) == 0.0
    ensures Violation(b[j], Gradient(x, y, b)[j], Half(0.0)) == 0.0
  {
    NewWeightIsTarget(x, y, 0.0, b, j);
    NeverDividesByZero(x, y, 0.0, b, j);
    NoMove(b[j], 0.0);
    assert SlopeWithout(b[j], 0.0, 0.0) == 0.0;
  }

  lemma NewWeightFixed(x: Mat, y: Vec, lam: real, b: Vec, j: nat)
    requires Columns(x, |y|) && |b| == |x| && j < |x| && lam >= 0.0
    ensures NewWeight(x, y, lam, b, j) == b[j]
       <==> Violation(b[j], Gradient(x, y, b)[j], Half(lam)) == 0.0
            && (lam > 0.0 || SqNorm(x[j]) > 0.0 || b[j] == 0.0)
  {
    NewWeightIsTarget(x, y, lam, b, j);
    NeverDividesByZero(x, y, lam, b, j);
    if lam == 0.0 && SqNorm(x[j]) == 0.0 {
      ZeroColumnWeight(x, y, b, j);
    } else {
      TargetFixed(b[j], Gradient(x, y, b)[j], SqNorm(x[j]), lam);
    }
  }

  lemma SameUpdate(b: Vec, s: Vec, j: nat)
    requires j < |b| == |s| && s[j] == b[j] && s == b[j := s[j]]
    ensures s == b
  {
  }

  /** When the whole sweep changes nothing, no step of it did. */
  lemma {:induction false} FixedAllAlong(x: Mat, y: Vec, lam: real, b: Vec, k: nat)
    requires Columns(x, |y|) && |b| == |x| && k <= |x| && lam >= 0.0
    requires Sweep(x, y, lam, b) == b
    ensures SweepTo(x, y, lam, b, k) == b
  {
    if k > 0 {
      FixedAllAlong(x, y, lam, b, k - 1);
      SweepKept(x, y, lam, b, |x|, k - 1);
      SweepStep(x, y, lam, b, k);
      SameUpdate(b, SweepTo(x, y, lam, b, k), k - 1);
    }
  }

  lemma OptimalKept(x: Mat, y: Vec, lam: real, b: Vec, j: nat)
    requires Columns(x, |y|) && |b| == |x| && j < |x| && lam >= 0.0
    requires AllWithin(x, y, Half(lam), b, 0.0) && Settled(x, lam, b)
    ensures Shoot(x, y, lam, b, j) == b
  {
    SqNormNonNeg(x[j]);
    NewWeightFixed(x, y, lam, b, j);
  }

  lemma KeptStep(x: Mat, y: Vec, lam: real, b: Vec, j: nat, k: nat)
    requires Columns(x, |y|) && |b| == |x| && k <= |x| && lam >= 0.0 && k == j + 1
    requires SweepTo(x, y, lam, b, j) == b && Shoot(x, y, lam, b, j) == b
    ensures SweepTo(x, y, lam, b, k) == b
  {
    SweepStep(x, y, lam, b, k);
  }

  lemma {:induction false} OptimalFixed(x: Mat, y: Vec, lam: real, b: Vec, k: nat)
    requires Columns(x, |y|) && |b| == |x| && k <= |x| && lam >= 0.0
    requires AllWithin(x, y, Half(lam), b, 0.0) && Settled(x, lam, b)
    ensures SweepTo(x, y, lam, b, k) == b
  {
    if k > 0 {
      OptimalFixed(x, y, lam, b, k - 1);
      OptimalKept(x, y, lam, b, k - 1);
      KeptStep(x, y, lam, b, k - 1, k);
    }
  }

  lemma FixedCoordinate(x: Mat, y: Vec, lam: real, b: Vec, j: nat)
    requires Columns(x, |y|) && |b| == |x| && j < |x| && lam >= 0.0
    requires Sweep(x, y, lam, b) == b
    ensures Violation(b[j], Gradient(x, y, b)[j], Half(lam)) <= 0.0
    ensures lam > 0.0 || SqNorm(x[j]) > 0.0 || b[j] == 0.0
  {
    FixedAllAlong(x, y, lam, b, j);
    FixedAllAlong(x, y, lam, b, j + 1);
    assert Shoot(x, y, lam, b, j)[j] == b[j];
    NewWeightFixed(x, y, lam, b, j);
  }

  lemma FixedWithin(x: Mat, y: Vec, lam: real, b: Vec)
    requires Columns(x, |y|) && |b| == |x| && lam >= 0.0
    requires Sweep(x, y, lam, b) == b
    ensures AllWithin(x, y, Half(lam), b, 0.0) && Settled(x, lam, b)
  {
    forall j | 0 <= j < |x|
      ensures Violation(b[j], Gradient(x, y, b)[j], Half(lam)) <= 0.0
      ensures lam > 0.0 || SqNorm(x[j]) > 0.0 || b[j] == 0.0
    {
      FixedCoordinate(x, y, lam, b, j);
    }
  }

  /** For every problem and every point: a sweep leaves the point unchanged exactly when it
      minimises the objective over all vectors and, if there is no penalty, gives zero columns
      zero weight. */
  lemma FixedIffMinimiser(x: Mat, y: Vec, lam: real, b: Vec)
    requires Columns(x, |y|) && |b| == |x| && lam >= 0.0
    ensures Sweep(x, y, lam, b) == b <==> IsMinimiser(x, y, Half(lam), b) && Settled(x, lam, b)
  {
    MinimiserIff(x, y, Half(lam), b);
    if Sweep(x, y, lam, b) == b {
      FixedWithin(x, y, lam, b);
    } else if AllWithin(x, y, Half(lam), b, 0.0) && Settled(x, lam, b) {
      OptimalFixed(x, y, lam, b, |x|);
    }
  }

  /** The points the second condition shuts out: in any problem without a penalty, the weight of
      a zero column does not matter to the objective, and a sweep still sets it to zero. */
  lemma ZeroColumn(x: Mat, y: Vec, b: Vec, j: nat, t: real)
    requires Columns(x, |y|) && |b| == |x| && j < |x| && SqNorm(x[j]) == 0.0
    ensures Objective(x, y, 0.0, b[j := b[j] + t]) == Objective(x, y, 0.0, b)
    ensures Sweep(x, y, 0.0, b)[j] == 0.0
  {
    NeverDividesByZero(x, y, 0.0, b, j);
    ObjectiveAt(x, y, 0.0, b, j, t);
    ZeroColumnWeight(x, y, SweepTo(x, y, 0.0, b, j), j);
    SweepKept(x, y, 0.0, b, |x|, j);
  }

  // ----- what a sweep gains

  ghost function GainAt(q: real, t: real): real {
    q * t * t / 2.0
  }

  /** Half the curvature times the squared move, over the first k coordinates. */
  ghost function GainTo(x: Mat, s: Vec, k: nat): real
    requires |s| == |x| && k <= |x|
  {
    if k == 0 then 0.0 else GainTo(x, s, k - 1) + GainAt(SqNorm(x[k - 1]), s[k - 1])
  }

  lemma {:induction false} GainEq(x: Mat, s: Vec, s': Vec, k: nat)
    requires |s| == |s'| == |x| && k <= |x|
    requires forall i :: 0 <= i < k ==> s[i] == s'[i]
    ensures GainTo(x, s, k) == GainTo(x, s', k)
  {
    if k > 0 { GainEq(x, s, s', k - 1); }
  }

  lemma TargetChange(b: real, d: real, q: real, lam: real, t: real)
    requires lam >= 0.0 && q >= 0.0 && (Abs(SlopeWithout(b, d, q)) > lam ==> q > 0.0)
    requires t == Target(b, d, q, lam) - b
    ensures Change(d, q, Half(lam), b, t) + GainAt(q, t) <= 0.0
  {
    TargetGain(b, d, q, lam, t);
  }

  lemma ShootGain(x: Mat, y: Vec, lam: real, b: Vec, j: nat, t: real)
    requires Columns(x, |y|) && |b| == |x| && j < |x| && lam >= 0.0
    requires t == NewWeight(x, y, lam, b, j) - b[j]
    ensures Objective(x, y, Half(lam), Shoot(x, y, lam, b, j)) + GainAt(SqNorm(x[j]), t)
         <= Objective(x, y, Half(lam), b)
  {
    NewWeightIsTarget(x, y, lam, b, j);
    TargetChange(b[j], Gradient(x, y, b)[j], SqNorm(x[j]), lam, t);
    ObjectiveAt(x, y, Half(lam), b, j, t);
    assert b[j] + t == NewWeight(x, y, lam, b, j);
  }

  lemma GainMore(x: Mat, y: Vec, lam: real, u: Vec, u': Vec, j: nat, b: Vec)
    requires Columns(x, |y|) && |u| == |b| == |x| && j < |x| && lam >= 0.0
    requires u' == Shoot(x, y, lam, u, j)
    ensures GainTo(x, Sub(u', b), j + 1) == GainTo(x, Sub(u, b), j) + GainAt(SqNorm(x[j]), Sub(u', b)[j])
  {
    GainEq(x, Sub(u', b), Sub(u, b), j);
  }

  /** The gain of one more coordinate, as the change of that entry over the whole sweep. */
  lemma StepGain(x: Mat, y: Vec, lam: real, u: Vec, u': Vec, j: nat, k: nat, b: Vec)
    requires Columns(x, |y|) && |u| == |b| == |x| && j < |x| && lam >= 0.0 && k == j + 1
    requires u' == Shoot(x, y, lam, u, j) && u[j] == b[j]
    ensures Objective(x, y, Half(lam), u') + GainTo(x, Sub(u', b), k)
         <= Objective(x, y, Half(lam), u) + GainTo(x, Sub(u, b), j)
  {
    ShootGain(x, y, lam, u, j, Sub(u', b)[j]);
    GainMore(x, y, lam, u, u', j, b);
  }

  /** The objective after k coordinates of a sweep, and what they are to gain. */
  ghost function Account(x: Mat, y: Vec, lam: real, b: Vec, k: nat): real
    requires Columns(x, |y|) && |b| == |x| && k <= |x| && lam >= 0.0
  {
    Objective(x, y, Half(lam), SweepTo(x, y, lam, b, k)) + GainTo(x, Sub(SweepTo(x, y, lam, b, k), b), k)
  }

  lemma OneMoreGain(x: Mat, y: Vec, lam: real, b: Vec, j: nat, k: nat)
    requires Columns(x, |y|) && |b| == |x| && j < k <= |x| && lam >= 0.0 && k == j + 1
    ensures Account(x, y, lam, b, k) <= Account(x, y, lam, b, j)
  {
    SweepUntouched(x, y, lam, b, j, j);
    SweepStep(x, y, lam, b, k);
    StepGain(x, y, lam, SweepTo(x, y, lam, b, j), SweepTo(x, y, lam, b, k), j, k, b);
  }

  lemma {:induction false} AccountFalls(x: Mat, y: Vec, lam: real, b: Vec, k: nat)
    requires Columns(x, |y|) && |b| == |x| && k <= |x| && lam >= 0.0
    ensures Account(x, y, lam, b, k) <= Account(x, y, lam, b, 0)
  {
    if k > 0 {
      AccountFalls(x, y, lam, b, k - 1);
      OneMoreGain(x, y, lam, b, k - 1, k);
    }
  }

  lemma SweepGain(x: Mat, y: Vec, lam: real, b: Vec, k: nat)
    requires Columns(x, |y|) && |b| == |x| && k <= |x| && lam >= 0.0
    ensures Objective(x, y, Half(lam), SweepTo(x, y, lam, b, k))
          + GainTo(x, Sub(SweepTo(x, y, lam, b, k), b), k) <= Objective(x, y, Half(lam), b)
  {
    AccountFalls(x, y, lam, b, k);
    assert Account(x, y, lam, b, 0) == Objective(x, y, Half(lam), b);
  }

  lemma {:induction false} SumOfOnes(n: nat, k: nat)
    requires k <= n
    ensures SumTo(Ones(n), k) == k as real
  {
    if k > 0 { SumOfOnes(n, k - 1); }
  }

  /** (|s_1| + ... + |s_p|)^2 <= p * (s_1^2 + ... + s_p^2) */
  lemma Norm1Squared(s: Vec)
    ensures Mul(Norm1(s), Norm1(s)) <= Mul(|s| as real, SqNorm(s))
  {
    var a, ones := AbsVec(s), Ones(|s|);
    CauchySchwarz(a, ones);
    assert Had(a, ones) == a && Had(ones, ones) == ones;
    SumOfOnes(|s|, |s|);
    forall i | 0 <= i < |s| ensures Had(a, a)[i] == Had(s, s)[i] { AbsSquare(s[i], a[i]); }
    assert Had(a, a) == Had(s, s);
  }

  lemma AbsSquare(x: real, a: real)
    requires a == Abs(x)
    ensures a * a == x * x
  {}

  // ----- the iteration bound

  lemma {:induction false} GainAtLeast(x: Mat, s: Vec, least: real, k: nat)
    requires |s| == |x| && k <= |x| && least >= 0.0
    requires forall j :: 0 <= j < |x| ==> SqNorm(x[j]) >= least
    ensures 2.0 * GainTo(x, s, k) >= Mul(least, SumTo(Had(s, s), k))
  {
    if k > 0 {
      GainAtLeast(x, s, least, k - 1);
      var ss := Had(s, s)[k - 1];
      Square(s[k - 1], ss);
      ScaledGain(SqNorm(x[k - 1]), s[k - 1], ss, least);
      Distribute(least, SumTo(Had(s, s), k - 1), ss);
    }
  }

  lemma ScaledGain(q: real, t: real, tt: real, least: real)
    requires q >= least && tt == t * t && tt >= 0.0
    ensures 2.0 * GainAt(q, t) >= Mul(least, tt)
  {
    ScaleMono(tt, least, q);
    Reassociate(q, t, t);
  }

  /** A sweep that moves by at least tol gains at least least*tol^2/p, in logged units. */
  lemma LongSweepGain(x: Mat, y: Vec, lam: real, b: Vec, least: real, tol: real)
    requires Columns(x, |y|) && |b| == |x| && lam >= 0.0 && least >= 0.0 && tol > 0.0
    requires forall j :: 0 <= j < |x| ==> SqNorm(x[j]) >= least
    requires Norm1(Sub(Sweep(x, y, lam, b), b)) >= tol
    ensures 2.0 * Mul(|x| as real, Objective(x, y, Half(lam), b) - Objective(x, y, Half(lam), Sweep(x, y, lam, b)))
         >= Mul(least, Mul(tol, tol))
  {
    var p, s := |x|, Sub(Sweep(x, y, lam, b), b);
    SweepGain(x, y, lam, b, p);
    GainAtLeast(x, s, least, p);
    Norm1Squared(s);
    GainChain(p as real, Objective(x, y, Half(lam), b) - Objective(x, y, Half(lam), Sweep(x, y, lam, b)),
              GainTo(x, s, p), SumTo(Had(s, s), p), Norm1(s), least, tol);
  }

  lemma GainChain(p: real, drop: real, gain: real, squares: real, norm: real, least: real, tol: real)
    requires p >= 0.0 && least >= 0.0 && norm >= tol > 0.0
    requires drop >= gain && 2.0 * gain >= Mul(least, squares) && Mul(norm, norm) <= Mul(p, squares)
    ensures 2.0 * Mul(p, drop) >= Mul(least, Mul(tol, tol))
  {
    ScaleMono(norm, tol, norm);
    ScaleMono(tol, tol, norm);
    var t2 := tol * tol;
    assert t2 <= norm * norm;
    ScaleMono(least, t2, p * squares);
    ScaleMono(p, least * squares, 2.0 * drop);
    assert p * (least * squares) == least * (p * squares);
    assert p * (2.0 * drop) == 2.0 * (p * drop);
    assert Mul(least, Mul(tol, tol)) == least * t2;
  }

  // ----- how optimal the result is

  /** Half of max_k |XX2(j,k)| */
  function CrossTo(row: Vec, k: nat): (r: real)
    requires k <= |row|
    ensures r >= 0.0 && forall i :: 0 <= i < k ==> Abs(row[i]) <= r
  {
    if k == 0 then 0.0 else Max(CrossTo(row, k - 1), Abs(row[k - 1]))
  }

  function Cross(x: Mat, n: nat, j: nat): (r: real)
    requires Columns(x, n) && j < |x|
  {
    CrossTo(Gram(x, n)[j], |x|)
  }

  /** |a . s| <= c * ||s||_1 when every |a_i| <= c */
  lemma {:induction false} Holder(a: Vec, s: Vec, c: real, k: nat)
    requires |a| == |s| && k <= |a| && forall i :: 0 <= i < |a| ==> Abs(a[i]) <= c
    ensures Abs(SumTo(Had(a, s), k)) <= Mul(c, SumTo(AbsVec(s), k))
  {
    if k > 0 {
      Holder(a, s, c, k - 1);
      HolderStep(SumTo(Had(a, s), k - 1), Had(a, s)[k - 1], a[k - 1], s[k - 1], c,
                 SumTo(AbsVec(s), k - 1), AbsVec(s)[k - 1]);
    }
  }

  lemma HolderStep(sum: real, h: real, a: real, s: real, c: real, norm: real, size: real)
    requires Abs(sum) <= Mul(c, norm) && Abs(a) <= c && h == a * s && size == Abs(s)
    ensures Abs(sum + h) <= Mul(c, norm + size)
  {
    AbsProduct(a, s, c);
    MulAdd(c, norm, size);
    assert Mul(c, size) == c * Abs(s);
  }

  lemma GradientMove(x: Mat, y: Vec, b: Vec, c: Vec, j: nat)
    requires Columns(x, |y|) && |b| == |c| == |x| && j < |x|
    ensures Gradient(x, y, c)[j] - Gradient(x, y, b)[j] == Dot(Gram(x, |y|)[j], Sub(c, b))
  {
    GradientFromGram(x, y, b, j);
    GradientFromGram(x, y, c, j);
    DotSub(Gram(x, |y|)[j], c, b);
  }

  lemma ViolationMoves(b: real, d: real, d': real, g: real)
    ensures Violation(b, d', g) <= Violation(b, d, g) + Abs(d' - d)
  {}

  /** Later updates move by no more than the whole sweep does. */
  lemma RestOfSweep(x: Mat, y: Vec, lam: real, b: Vec, j: nat)
    requires Columns(x, |y|) && |b| == |x| && j < |x| && lam >= 0.0
    ensures Norm1(Sub(Sweep(x, y, lam, b), SweepTo(x, y, lam, b, j + 1))) <= Norm1(Sub(Sweep(x, y, lam, b), b))
    ensures Sweep(x, y, lam, b)[j] == SweepTo(x, y, lam, b, j + 1)[j]
  {
    var w, u := Sweep(x, y, lam, b), SweepTo(x, y, lam, b, j + 1);
    forall i | 0 <= i < |x| ensures u[i] == w[i] || u[i] == b[i] {
      RestEntry(x, y, lam, b, j, i);
    }
    NearerAll(w, u, b);
    RestEntry(x, y, lam, b, j, j);
  }

  /** Each entry has had its update or is still to have it. */
  lemma RestEntry(x: Mat, y: Vec, lam: real, b: Vec, j: nat, i: nat)
    requires Columns(x, |y|) && |b| == |x| && j < |x| && i < |x| && lam >= 0.0
    ensures SweepTo(x, y, lam, b, j + 1)[i] == if i <= j then Sweep(x, y, lam, b)[i] else b[i]
  {
    if i <= j {
      SweepKept(x, y, lam, b, |x|, i);
      SweepKept(x, y, lam, b, j + 1, i);
    } else {
      SweepUntouched(x, y, lam, b, j + 1, i);
    }
  }

  lemma NearerAll(w: Vec, u: Vec, b: Vec)
    requires |w| == |u| == |b| && forall i :: 0 <= i < |w| ==> u[i] == w[i] || u[i] == b[i]
    ensures Norm1(Sub(w, u)) <= Norm1(Sub(w, b))
  {
    SumToLe(AbsVec(Sub(w, u)), AbsVec(Sub(w, b)), |w|);
  }

  lemma JustShot(x: Mat, y: Vec, lam: real, b: Vec, u: Vec, j: nat)
    requires Columns(x, |y|) && |b| == |x| && j < |x| && lam >= 0.0
    requires u == Shoot(x, y, lam, b, j)
    ensures Violation(u[j], Gradient(x, y, u)[j], Half(lam)) == 0.0
  {
    NewWeightIsTarget(x, y, lam, b, j);
    TargetOptimal(b[j], Gradient(x, y, b)[j], SqNorm(x[j]), lam);
    GradientMove(x, y, b, u, j);
    SingleEntryDot(Gram(x, |y|)[j], b, u, j);
    assert Gram(x, |y|)[j][j] == SqNorm(x[j]);
  }

  lemma SingleEntryDot(a: Vec, b: Vec, u: Vec, j: nat)
    requires |a| == |b| == |u| && j < |a| && u == b[j := u[j]]
    ensures Dot(a, Sub(u, b)) == Mul(a[j], u[j] - b[j])
  {
    var h, z := Had(a, Sub(u, b)), Zero(|a|);
    SumToUpdate(z, j, a[j] * (u[j] - b[j]), |a|);
    SumToZero(z, |a|);
    forall i | 0 <= i < |a| ensures h[i] == z[j := a[j] * (u[j] - b[j])][i] {
      if i != j { assert Sub(u, b)[i] == 0.0; }
    }
    assert h == z[j := a[j] * (u[j] - b[j])];
  }

  /** After a sweep, each optimality condition holds up to the largest cross term times the
      length of the sweep. */
  lemma SweepViolation(x: Mat, y: Vec, lam: real, b: Vec, j: nat)
    requires Columns(x, |y|) && |b| == |x| && j < |x| && lam >= 0.0
    ensures var w := Sweep(x, y, lam, b);
      Violation(w[j], Gradient(x, y, w)[j], Half(lam)) <= Mul(Cross(x, |y|, j), Norm1(Sub(w, b)))
  {
    var w, u := Sweep(x, y, lam, b), SweepTo(x, y, lam, b, j + 1);
    JustShot(x, y, lam, SweepTo(x, y, lam, b, j), u, j);
    RestOfSweep(x, y, lam, b, j);
    GradientMove(x, y, u, w, j);
    Holder(Gram(x, |y|)[j], Sub(w, u), Cross(x, |y|, j), |x|);
    ViolationMoves(w[j], Gradient(x, y, u)[j], Gradient(x, y, w)[j], Half(lam));
    MulMono(Cross(x, |y|, j), Norm1(Sub(w, u)), Norm1(Sub(w, b)));
  }

  // ----- the solver

  /** Shoot coordinate j in place. */
  method ShootInPlace(x: Mat, y: Vec, lam: real, h: Mat, v: Vec, beta: array<real>, j: nat)
    requires Columns(x, |y|) && beta.Length == |x| && lam >= 0.0 && j < |x|
    requires h == TwiceGram(x, |y|) && v == Scale(2.0, Proj(x, y))
    modifies beta
    ensures beta[..] == Shoot(x, y, lam, old(beta[..]), j)
  {
    ghost var b := beta[..];
    NeverDividesByZero(x, y, lam, b, j);
    var s0 := PartialSlope(h, v, beta[..], j);
    if s0 > lam {
      beta[j] := (lam - s0) / h[j][j];
    } else if s0 < -lam {
      beta[j] := (-lam - s0) / h[j][j];
    } else if Abs(s0) <= lam {
      beta[j] := 0.0;
    }
    assert beta[..] == b[j := NewWeight(x, y, lam, b, j)];
  }

  /** One sweep in place. */
  method SweepInPlace(x: Mat, y: Vec, lam: real, h: Mat, v: Vec, beta: array<real>)
    requires Columns(x, |y|) && beta.Length == |x| && lam >= 0.0
    requires h == TwiceGram(x, |y|) && v == Scale(2.0, Proj(x, y))
    modifies beta
    ensures beta[..] == Sweep(x, y, lam, old(beta[..]))
  {
    ghost var start := beta[..];
    for j := 0 to |x|
      invariant beta[..] == SweepTo(x, y, lam, start, j)
    {
      ShootInPlace(x, y, lam, h, v, beta, j);
    }
  }

  /** What the termination test of one sweep establishes. */
  lemma SweepEnds(x: Mat, y: Vec, lam: real, b: Vec, w: Vec, optTol: real)
    requires Columns(x, |y|) && |b| == |x| && lam >= 0.0
    requires w == Sweep(x, y, lam, b) && Norm1(Sub(w, b)) < optTol
    ensures forall j :: 0 <= j < |x| ==>
      Violation(w[j], Gradient(x, y, w)[j], Half(lam)) <= Mul(Cross(x, |y|, j), optTol)
  {
    forall j | 0 <= j < |x|
      ensures Violation(w[j], Gradient(x, y, w)[j], Half(lam)) <= Mul(Cross(x, |y|, j), optTol)
    {
      SweepViolation(x, y, lam, b, j);
      MulMono(Cross(x, |y|, j), Norm1(Sub(w, b)), optTol);
    }
  }

  /** The progress made by m sweeps that did not end the loop. */
  ghost predicate Progress(x: Mat, y: Vec, lam: real, beta0: Vec, b: Vec, m: nat, unit: real)
    requires Columns(x, |y|) && |beta0| == |b| == |x|
  {
    Mul(m as real, unit)
      <= 2.0 * Mul(|x| as real, Objective(x, y, Half(lam), beta0) - Objective(x, y, Half(lam), b))
  }

  lemma ProgressBound(x: Mat, y: Vec, lam: real, beta0: Vec, b: Vec, m: nat, unit: real)
    requires Columns(x, |y|) && |beta0| == |b| == |x| && lam >= 0.0
    requires Progress(x, y, lam, beta0, b, m, unit)
    ensures Mul(m as real, unit) <= 2.0 * Mul(|x| as real, Objective(x, y, Half(lam), beta0))
  {
    ObjectiveNonNeg(x, y, Half(lam), b);
    BoundFinal(m as real, unit, |x| as real, Objective(x, y, Half(lam), beta0), Objective(x, y, Half(lam), b));
  }

  lemma ProgressStep(x: Mat, y: Vec, lam: real, beta0: Vec, b: Vec, m: nat, least: real, optTol: real)
    requires Columns(x, |y|) && |beta0| == |b| == |x| && lam >= 0.0 && optTol > 0.0
    requires least >= 0.0 && forall j :: 0 <= j < |x| ==> SqNorm(x[j]) >= least
    requires Progress(x, y, lam, beta0, b, m, Mul(least, Mul(optTol, optTol)))
    requires Norm1(Sub(Sweep(x, y, lam, b), b)) >= optTol
    ensures Progress(x, y, lam, beta0, Sweep(x, y, lam, b), m + 1, Mul(least, Mul(optTol, optTol)))
  {
    LongSweepGain(x, y, lam, b, least, optTol);
    BoundExtend(m as real, Mul(least, Mul(optTol, optTol)), |x| as real, Objective(x, y, Half(lam), beta0),
                Objective(x, y, Half(lam), b), Objective(x, y, Half(lam), Sweep(x, y, lam, b)));
  }

  lemma BoundExtend(m: real, unit: real, p: real, start: real, before: real, after: real)
    requires Mul(m, unit) <= 2.0 * Mul(p, start - before)
    requires 2.0 * Mul(p, before - after) >= unit
    ensures Mul(m + 1.0, unit) <= 2.0 * Mul(p, start - after)
  {}

  lemma BoundFinal(m: real, unit: real, p: real, start: real, now: real)
    requires Mul(m, unit) <= 2.0 * Mul(p, start - now) && now >= 0.0 && p >= 0.0
    ensures Mul(m, unit) <= 2.0 * Mul(p, start)
  {
    MulMono(p, start - now, start);
  }

  lemma SweepDescends(x: Mat, y: Vec, lam: real, b: Vec)
    requires Columns(x, |y|) && |b| == |x| && lam >= 0.0
    ensures Objective(x, y, Half(lam), Sweep(x, y, lam, b)) <= Objective(x, y, Half(lam), b)
  {
    SweepGain(x, y, lam, b, |x|);
    var s := Sub(Sweep(x, y, lam, b), b);
    GainNonNeg(x, s, |x|);
  }

  lemma {:induction false} GainNonNeg(x: Mat, s: Vec, k: nat)
    requires |s| == |x| && k <= |x|
    ensures GainTo(x, s, k) >= 0.0
  {
    if k > 0 {
      GainNonNeg(x, s, k - 1);
      SqNormNonNeg(x[k - 1]);
      var ss := s[k - 1] * s[k - 1];
      Square(s[k - 1], ss);
      ProductNonNeg(SqNorm(x[k - 1]), ss);
      Reassociate(SqNorm(x[k - 1]), s[k - 1], s[k - 1]);
    }
  }

  /** b after m sweeps. */
  ghost function Sweeps(x: Mat, y: Vec, lam: real, b: Vec, m: nat): (w: Vec)
    requires Columns(x, |y|) && |b| == |x| && lam >= 0.0
    ensures |w| == |x|
  {
    if m == 0 then b else Sweep(x, y, lam, Sweeps(x, y, lam, b, m - 1))
  }

  /** How far sweep m + 1 moves. */
  ghost function Moved(x: Mat, y: Vec, lam: real, b: Vec, m: nat): real
    requires Columns(x, |y|) && |b| == |x| && lam >= 0.0
  {
    Norm1(Sub(Sweeps(x, y, lam, b, m + 1), Sweeps(x, y, lam, b, m)))
  }

  /** What is known of the point after m sweeps none of which ended the loop. */
  ghost predicate Going(x: Mat, y: Vec, lam: real, beta0: Vec, b: Vec, m: nat, unit: real, optTol: real)
    requires Columns(x, |y|) && |beta0| == |b| == |x| && lam >= 0.0
  {
    && b == Sweeps(x, y, lam, beta0, m)
    && (forall i :: 0 <= i < m ==> Moved(x, y, lam, beta0, i) >= optTol)
    && Objective(x, y, Half(lam), b) <= Objective(x, y, Half(lam), beta0)
    && Progress(x, y, lam, beta0, b, m, unit)
  }

  /** One more sweep that does not end the loop. */
  lemma GoesOn(x: Mat, y: Vec, lam: real, beta0: Vec, b: Vec, m: nat, least: real, unit: real, optTol: real)
    requires Columns(x, |y|) && |beta0| == |b| == |x| && lam >= 0.0 && optTol > 0.0
    requires least >= 0.0 && forall j :: 0 <= j < |x| ==> SqNorm(x[j]) >= least
    requires unit == Mul(least, Mul(optTol, optTol))
    requires Going(x, y, lam, beta0, b, m, unit, optTol) && Norm1(Sub(Sweep(x, y, lam, b), b)) >= optTol
    ensures Going(x, y, lam, beta0, Sweep(x, y, lam, b), m + 1, unit, optTol)
  {
    SweepDescends(x, y, lam, b);
    ProgressStep(x, y, lam, beta0, b, m, least, optTol);
  }

  /** m sweeps that do not end the loop are at most p*f(beta0) / (least*optTol^2), f being the logged
      objective: twice the one used here. */
  ghost predicate FewSweeps(x: Mat, y: Vec, lam: real, beta0: Vec, m: int, unit: real)
    requires Columns(x, |y|) && |beta0| == |x|
  {
    Mul(m as real, unit) <= 2.0 * Mul(|x| as real, Objective(x, y, Half(lam), beta0))
  }

  lemma FewSoFar(x: Mat, y: Vec, lam: real, beta0: Vec, b: Vec, m: nat, unit: real, optTol: real)
    requires Columns(x, |y|) && |beta0| == |b| == |x| && lam >= 0.0
    requires Going(x, y, lam, beta0, b, m, unit, optTol)
    ensures FewSweeps(x, y, lam, beta0, m, unit)
  {
    ProgressBound(x, y, lam, beta0, b, m, unit);
  }

  /** What the result is worth, by the way the loop ended. */
  ghost predicate Ends(x: Mat, y: Vec, lam: real, beta0: Vec, w: Vec, m: nat, optTol: real, converged: bool)
    requires Columns(x, |y|) && |beta0| == |x| && lam >= 0.0
  {
    && w == Sweeps(x, y, lam, beta0, m)
    && (forall i :: 0 <= i < (if converged then m - 1 else m) ==> Moved(x, y, lam, beta0, i) >= optTol)
    && (converged ==>
          && m > 0 && Moved(x, y, lam, beta0, m - 1) < optTol
          && forall j :: 0 <= j < |x| ==>
               Violation(w[j], Gradient(x, y, w)[j], Half(lam)) <= Mul(Cross(x, |y|, j), optTol))
  }

  lemma EndsHere(x: Mat, y: Vec, lam: real, beta0: Vec, b: Vec, m: nat, unit: real, optTol: real)
    requires Columns(x, |y|) && |beta0| == |b| == |x| && lam >= 0.0
    requires Going(x, y, lam, beta0, b, m, unit, optTol) && Norm1(Sub(Sweep(x, y, lam, b), b)) < optTol
    ensures Ends(x, y, lam, beta0, Sweep(x, y, lam, b), m + 1, optTol, true)
    ensures Objective(x, y, Half(lam), Sweep(x, y, lam, b)) <= Objective(x, y, Half(lam), beta0)
  {
    SweepEnds(x, y, lam, b, Sweep(x, y, lam, b), optTol);
    SweepDescends(x, y, lam, b);
  }

  lemma Begins(x: Mat, y: Vec, lam: real, beta0: Vec, unit: real, optTol: real)
    requires Columns(x, |y|) && |beta0| == |x| && lam >= 0.0
    ensures Going(x, y, lam, beta0, beta0, 0, unit, optTol)
  {
  }

  /** The loop of LassoShooting from any starting point beta0. `least` is any lower bound on
      the diagonal of X'X. The number of sweeps that do not end the loop is at most
      p*f(beta0) / (least*optTol^2), where f is the logged objective; the loop never makes
      the objective worse; and a result returned by the tolerance test comes with a bound on
      every violation. */
  method Solve(x: Mat, y: Vec, lam: real, beta0: Vec, maxIter: nat, optTol: real, ghost least: real)
    returns (w: Vec, m: nat, converged: bool)
    requires Columns(x, |y|) && |beta0| == |x| && lam >= 0.0 && optTol > 0.0
    requires least >= 0.0 && forall j :: 0 <= j < |x| ==> SqNorm(x[j]) >= least
    ensures |w| == |x| && m <= maxIter && (!converged ==> m == maxIter)
    ensures Ends(x, y, lam, beta0, w, m, optTol, converged)
    ensures Objective(x, y, Half(lam), w) <= Objective(x, y, Half(lam), beta0)
    ensures FewSweeps(x, y, lam, beta0, if converged then m - 1 else m, Mul(least, Mul(optTol, optTol)))
  {
    ghost var unit := Mul(least, Mul(optTol, optTol));
    var h, v := TwiceGram(x, |y|), Scale(2.0, Proj(x, y));
    var beta := new real[|x|](i requires 0 <= i < |x| => beta0[i]);
    assert beta[..] == beta0;
    Begins(x, y, lam, beta0, unit, optTol);
    m := 0;
    while m < maxIter
      invariant m <= maxIter && Going(x, y, lam, beta0, beta[..], m, unit, optTol)
    {
      var betaOld := beta[..];
      FewSoFar(x, y, lam, beta0, betaOld, m, unit, optTol);
      SweepInPlace(x, y, lam, h, v, beta);
      if Norm1(Sub(beta[..], betaOld)) < optTol {
        EndsHere(x, y, lam, beta0, betaOld, m, unit, optTol);
        return beta[..], m + 1, true;
      }
      GoesOn(x, y, lam, beta0, betaOld, m, least, unit, optTol);
      m := m + 1;
    }
    w, converged := beta[..], false;
    FewSoFar(x, y, lam, beta0, w, m, unit, optTol);
  }
}
