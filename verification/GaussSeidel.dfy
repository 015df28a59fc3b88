/** `LassoGaussSeidel` and `computeViol`: repeatedly minimise along the worst variable, first
    within the free set until it is solved, then over the variables at zero.
 */
module GaussSeidel {
  import opened LinearAlgebra
  import opened L1LeastSquares

  function Sign(x: real): int {
    if x > 0.0 then 1 else if x < 0.0 then -1 else 0
  }

  // ----- one line minimisation

  /** varSlope: the slope used for a variable at a with gradient d. */
  function VarSlope(a: real, d: real, g: real, threshold: real): real {
    if a > 0.0 || (Abs(a) < threshold && g + d < 0.0) then g + d
    else if a < 0.0 || (Abs(a) < threshold && -g + d > 0.0) then -g + d
    else 0.0
  }

  /** Clip at zero when a non-zero value would change sign. */
  function Clip(a: real, a': real): real {
    if a != 0.0 && Sign(a) != Sign(a') then 0.0 else a'
  }

  /** The value after a Newton step along the slope, clipped. */
  function LineStep(a: real, d: real, q: real, g: real, threshold: real): real
    requires q > 0.0
  {
    Clip(a, a - VarSlope(a, d, g, threshold) / q)
  }

  /** A full Newton step with the slope of the side it stays on. */
  lemma NewtonGain(d: real, q: real, s: real, t: real)
    requires q > 0.0 && q * t == -s
    ensures s * t + q * t * t / 2.0 == -(s * s / q) / 2.0
  {
    assert t == -s / q;
    assert q * t * t == -(s * t);
    assert s * t == -(s * s / q);
  }

  lemma StepTimes(s: real, q: real, t: real)
    requires q > 0.0 && t == -(s / q)
    ensures q * t == -s
  {}

  /** Going up while staying non-negative from a non-negative value, or by mirror image. */
  lemma UnclippedGain(a: real, d: real, q: real, g: real, s: real, t: real)
    requires q > 0.0 && g >= 0.0 && q * t == -s
    requires (s == g + d && a >= 0.0 && a + t >= 0.0) || (s == -g + d && a <= 0.0 && a + t <= 0.0)
    ensures Change(d, q, g, a, t) == -(s * s / q) / 2.0
  {
    NewtonGain(d, q, s, t);
    if s == g + d && a >= 0.0 && a + t >= 0.0 {
      SameProduct(g, Abs(a + t) - Abs(a), t);
      Distribute(t, g, d);
    } else {
      SameProduct(g, Abs(a + t) - Abs(a), -t);
      NegatedProduct(g, t, -t);
      Distribute(t, -g, d);
      NegatedProduct(t, g, -g);
    }
  }

  /** A small negative value pushed up by the slope of the positive side: the step is too
      short, but it gains all the more. */
  lemma SubThresholdGain(a: real, d: real, q: real, g: real, t: real)
    requires q > 0.0 && g >= 0.0 && a < 0.0 && g + d < 0.0 && q * t == -(g + d) && a + t <= 0.0
    ensures Change(d, q, g, a, t) <= -((g + d) * (g + d) / q) / 2.0
  {
    var s := g + d;
    NewtonGain(d, q, s, t);
    assert t > 0.0 by { if t <= 0.0 { ScaleMono(q, t, 0.0); } }
    SameProduct(g, Abs(a + t) - Abs(a), -t);
    assert d * t - g * t == s * t - 2.0 * (g * t);
    ProductNonNeg(g, t);
  }

  /** Clipping a non-zero value to zero never raises the objective. */
  lemma ClippedGain(a: real, d: real, q: real, g: real, s: real, t: real)
    requires q > 0.0 && g >= 0.0 && q * t == -s && a != 0.0
    requires (a > 0.0 && s == g + d && a + t <= 0.0)
          || (a < 0.0 && s == -g + d && a + t >= 0.0)
          || (a < 0.0 && s == g + d && s < 0.0 && a + t >= 0.0)
    ensures Change(d, q, g, a, -a) <= 0.0
  {
    var h := q * a;
    assert q * (-a) * (-a) == h * a;
    assert d * (-a) == -(d * a);
    if a > 0.0 {
      ScaleMono(q, t, -a);
      NegatedProduct(q, a, -a);
      assert s >= h;
      ScaleMono(a, h, s);
      ProductNonNeg(q, a);
      ProductNonNeg(h, a);
      SameProduct(g, Abs(0.0) - Abs(a), -a);
      NegatedProduct(g, a, -a);
      Distribute(a, g, d);
    } else {
      var b := -a;
      ScaleMono(q, b, t);
      NegatedProduct(q, a, b);
      assert s <= h;
      ScaleMono(b, s, h);
      ProductNonNeg(q, b);
      ProductNonNeg(-h, b);
      assert h * a == (-h) * b;
      assert h * b == -(h * a);
      SameProduct(g, Abs(0.0) - Abs(a), -b);
      NegatedProduct(g, b, -b);
      ProductNonNeg(g, b);
      if s == -g + d {
        Distribute(b, -g, d);
        NegatedProduct(b, g, -g);
      } else {
        Distribute(b, g, d);
      }
      assert d * (-a) == d * b;
    }
  }

  lemma ChangeNone(d: real, q: real, g: real, b: real, t: real)
    requires t == 0.0
    ensures Change(d, q, g, b, t) == 0.0
  {}

  /** Did the step clip a non-zero value? */
  predicate Clipped(a: real, d: real, q: real, g: real, threshold: real)
    requires q > 0.0
  {
    a != 0.0 && LineStep(a, d, q, g, threshold) == 0.0
  }

  lemma NoGain(s: real, q: real)
    requires q > 0.0 && s == 0.0
    ensures -(s * s / q) / 2.0 == 0.0
  {}

  lemma ClippedLineGain(a: real, d: real, q: real, g: real, threshold: real)
    requires q > 0.0 && g >= 0.0 && threshold > 0.0 && Clipped(a, d, q, g, threshold)
    ensures Change(d, q, g, a, LineStep(a, d, q, g, threshold) - a) <= 0.0
  {
    var s := VarSlope(a, d, g, threshold);
    var t := -(s / q);
    StepTimes(s, q, t);
    ClippedGain(a, d, q, g, s, t);
    assert 0.0 - a == -a;
  }

  lemma KeptLineGain(a: real, d: real, q: real, g: real, threshold: real)
    requires q > 0.0 && g >= 0.0 && threshold > 0.0 && !Clipped(a, d, q, g, threshold)
    ensures var s := VarSlope(a, d, g, threshold);
      Change(d, q, g, a, LineStep(a, d, q, g, threshold) - a) <= -(s * s / q) / 2.0
  {
    var s := VarSlope(a, d, g, threshold);
    var t := -(s / q);
    StepTimes(s, q, t);
    assert LineStep(a, d, q, g, threshold) == a + t;
    assert LineStep(a, d, q, g, threshold) - a == t;
    if a < 0.0 && Abs(a) < threshold && g + d < 0.0 {
      SubThresholdGain(a, d, q, g, t);
    } else if s == 0.0 && a == 0.0 {
      ChangeNone(d, q, g, a, t);
      NoGain(s, q);
    } else {
      if a == 0.0 { SignOfStep(s, q, t); }
      UnclippedGain(a, d, q, g, s, t);
    }
  }

  lemma SignOfStep(s: real, q: real, t: real)
    requires q > 0.0 && q * t == -s
    ensures s < 0.0 ==> t > 0.0
    ensures s > 0.0 ==> t < 0.0
  {
    if t <= 0.0 { ProductNonNeg(q, -t); NegatedProduct(q, t, -t); }
    if t >= 0.0 { ProductNonNeg(q, t); }
  }

  /** A change in two moves: the second starts from the gradient after the first. */
  lemma TwoMoves(a: real, d: real, q: real, g: real, t: real, u: real)
    ensures Change(d, q, g, a, t + u) == Change(d, q, g, a, t) + Change(d + q * t, q, g, a + t, u)
  {
    var p := q * t;
    Distribute(u, d, p);
    Reassociate(q, t, u);
    assert q * (t + u) * (t + u) == p * t + 2.0 * (p * u) + q * u * u;
    assert a + (t + u) == a + t + u;
    Distribute(g, Abs(a + t + u) - Abs(a + t), Abs(a + t) - Abs(a));
  }

  lemma CurvaturePart(q: real, u: real)
    requires q > 0.0
    ensures q * u * u >= 0.0
  {
    var uu := u * u;
    Square(u, uu);
    ProductNonNeg(q, uu);
    assert q * u * u == q * uu;
  }

  lemma SlopePart(b: real, d: real, g: real, u: real, e: real)
    requires g >= 0.0 && e == Abs(b + u) - Abs(b)
    requires (b >= 0.0 && d == -g) || (b <= 0.0 && d == g) || (b == 0.0 && Abs(d) <= g)
    ensures d * u + g * e >= 0.0
  {
    if b == 0.0 && Abs(d) <= g {
      AbsProduct(d, u, g);
    } else if b >= 0.0 && d == -g {
      ProductNonNeg(g, e - u);
      assert g * (e - u) == g * e - g * u;
    } else {
      ProductNonNeg(g, e + u);
      assert g * (e + u) == g * e + g * u;
    }
  }

  /** From a value whose one-sided slope is zero, no move gains. */
  lemma NothingToGain(b: real, d: real, q: real, g: real, u: real)
    requires q > 0.0 && g >= 0.0
    requires (b >= 0.0 && d == -g) || (b <= 0.0 && d == g) || (b == 0.0 && Abs(d) <= g)
    ensures Change(d, q, g, b, u) >= 0.0
  {
    SlopePart(b, d, g, u, Abs(b + u) - Abs(b));
    CurvaturePart(q, u);
  }

  /** From zero, and from any value that is not small, a step that does not clip is the best there
      is along the variable. */
  lemma LineExact(a: real, d: real, q: real, g: real, threshold: real, c: real)
    requires q > 0.0 && g >= 0.0 && threshold > 0.0 && !Clipped(a, d, q, g, threshold)
    requires a == 0.0 || Abs(a) >= threshold
    ensures Change(d, q, g, a, LineStep(a, d, q, g, threshold) - a) <= Change(d, q, g, a, c - a)
  {
    var s := VarSlope(a, d, g, threshold);
    var t := -(s / q);
    StepTimes(s, q, t);
    SignOfStep(s, q, t);
    assert LineStep(a, d, q, g, threshold) - a == t;
    TwoMoves(a, d, q, g, t, c - a - t);
    NothingToGain(a + t, d + q * t, q, g, c - a - t);
  }

  /** At or above the threshold, the slope is as large as the violation. */
  lemma SlopeIsViolation(a: real, d: real, g: real, threshold: real)
    requires threshold > 0.0 && Abs(a) >= threshold
    ensures Abs(VarSlope(a, d, g, threshold)) == Violation(a, d, g)
  {}

  /** The least gain of an unclipped step on a variable whose violation is at least tau. */
  function Quantum(tau: real, most: real): (c: real)
    requires tau > 0.0 && most > 0.0
    ensures c > 0.0
  {
    MulPos(tau, tau);
    assert Mul(tau, tau) == tau * tau;
    tau * tau / (2.0 * most)
  }

  lemma QuantumReached(s: real, q: real, tau: real, most: real)
    requires 0.0 < q <= most && Abs(s) >= tau > 0.0
    ensures (s * s / q) / 2.0 >= Quantum(tau, most)
  {
    var ss, tt := s * s, tau * tau;
    AbsSquares(s, tau, ss, tt);
    assert ss / q >= tt / q by { DivideMono(tt, ss, q); }
    DivideLess(tt, q, most);
    assert tt / (2.0 * most) == tt / most / 2.0;
  }

  lemma AbsSquares(s: real, tau: real, ss: real, tt: real)
    requires Abs(s) >= tau > 0.0 && ss == s * s && tt == tau * tau
    ensures ss >= tt >= 0.0
  {
    var a := Abs(s);
    assert a * a == ss;
    ScaleMono(tau, tau, a);
    ScaleMono(a, tau, a);
    ProductNonNeg(tau, tau);
  }

  lemma DivideMono(x: real, y: real, q: real)
    requires q > 0.0 && x <= y
    ensures x / q <= y / q
  {}

  lemma DivideLess(x: real, q: real, most: real)
    requires 0.0 < q <= most && x >= 0.0
    ensures x / q >= x / most
  {
    var r, r' := x / q, x / most;
    assert r * q == x && r' * most == x;
    ProductNonNeg(x, 1.0 / most);
    ScaleMono(r', q, most);
    assert (r - r') * q >= 0.0;
    SignOfProduct(r - r', q);
  }

  lemma SignOfProduct(t: real, q: real)
    requires q > 0.0 && t * q >= 0.0
    ensures t >= 0.0
  {
    if t < 0.0 {
      MulPos(-t, q);
      NegatedProduct(q, t, -t);
    }
  }

  // ----- the whole vector

  ghost predicate Problem(x: Mat, y: Vec, b: Vec) {
    Columns(x, |y|) && |b| == |x|
  }

  /** Weights of zero columns are zero: true of both starting points, and kept by every step. */
  ghost predicate ZeroOnZeroColumns(x: Mat, b: Vec)
    requires |b| == |x|
  {
    forall j :: 0 <= j < |x| && SqNorm(x[j]) == 0.0 ==> b[j] == 0.0
  }

  lemma RidgeEntry(x: Mat, y: Vec, gamma: real, b: Vec, j: nat)
    requires Problem(x, y, b) && gamma > 0.0 && j < |x| && SqNorm(x[j]) == 0.0
    requires Dot(Gram(x, |y|)[j], b) + Mul(gamma, b[j]) == Proj(x, y)[j]
    ensures b[j] == 0.0
  {
    ZeroColumnGradient(x, y, b, j);
    GradientFromGram(x, y, b, j);
    ZeroFactor(gamma, b[j]);
  }

  /** The ridge starting point solves (X'X + gamma*I)*b = X'y. */
  lemma RidgeStart(x: Mat, y: Vec, gamma: real, b: Vec)
    requires Problem(x, y, b) && gamma > 0.0
    requires forall j :: 0 <= j < |x| ==> Dot(Gram(x, |y|)[j], b) + Mul(gamma, b[j]) == Proj(x, y)[j]
    ensures ZeroOnZeroColumns(x, b)
  {
    forall j | 0 <= j < |x| && SqNorm(x[j]) == 0.0 ensures b[j] == 0.0 {
      RidgeEntry(x, y, gamma, b, j);
    }
  }

  lemma ZeroColumnGradient(x: Mat, y: Vec, b: Vec, j: nat)
    requires Problem(x, y, b) && j < |x| && SqNorm(x[j]) == 0.0
    ensures Gradient(x, y, b)[j] == 0.0
  {
    SqNormNonNeg(x[j]);
    SumToZero(Had(x[j], Residual(x, y, b)), |y|);
  }

  /** A variable that violates its condition has a column to move along. */
  lemma ViolatorHasColumn(x: Mat, y: Vec, b: Vec, g: real, j: nat)
    requires Problem(x, y, b) && j < |x| && g >= 0.0 && ZeroOnZeroColumns(x, b)
    requires Violation(b[j], Gradient(x, y, b)[j], g) > 0.0
    ensures SqNorm(x[j]) > 0.0
  {
    SqNormNonNeg(x[j]);
    if SqNorm(x[j]) == 0.0 { ZeroColumnGradient(x, y, b, j); }
  }

  /** The weights after minimising along variable nu. */
  function LineMin(x: Mat, y: Vec, g: real, threshold: real, b: Vec, nu: nat): (b': Vec)
    requires Columns(x, |y|) && |b| == |x| && nu < |x| && SqNorm(x[nu]) > 0.0
    ensures |b'| == |x|
  {
    b[nu := LineStep(b[nu], Gradient(x, y, b)[nu], SqNorm(x[nu]), g, threshold)]
  }

  lemma LineMinObjective(x: Mat, y: Vec, g: real, threshold: real, b: Vec, nu: nat)
    requires Problem(x, y, b) && nu < |x| && SqNorm(x[nu]) > 0.0
    ensures var d, q := Gradient(x, y, b)[nu], SqNorm(x[nu]);
      Objective(x, y, g, LineMin(x, y, g, threshold, b, nu))
        == Objective(x, y, g, b) + Change(d, q, g, b[nu], LineStep(b[nu], d, q, g, threshold) - b[nu])
  {
    var d, q := Gradient(x, y, b)[nu], SqNorm(x[nu]);
    var t := LineStep(b[nu], d, q, g, threshold) - b[nu];
    ObjectiveAt(x, y, g, b, nu, t);
    assert b[nu] + t == LineStep(b[nu], d, q, g, threshold);
  }

  /** Minimising along any variable, whatever its value and sign, never raises the objective. */
  lemma LineMinDescends(x: Mat, y: Vec, g: real, threshold: real, b: Vec, nu: nat)
    requires Problem(x, y, b) && nu < |x| && SqNorm(x[nu]) > 0.0 && g >= 0.0 && threshold > 0.0
    ensures Objective(x, y, g, LineMin(x, y, g, threshold, b, nu)) <= Objective(x, y, g, b)
  {
    var d, q := Gradient(x, y, b)[nu], SqNorm(x[nu]);
    LineMinObjective(x, y, g, threshold, b, nu);
    if Clipped(b[nu], d, q, g, threshold) {
      ClippedLineGain(b[nu], d, q, g, threshold);
    } else {
      KeptLineGain(b[nu], d, q, g, threshold);
      var s := VarSlope(b[nu], d, g, threshold);
      Square(s, s * s);
      DivideMono(0.0, s * s, q);
      assert 0.0 / q == 0.0;
    }
  }

  /** From zero, and from any value that is not small, a step that does not clip minimises the
      objective along its variable exactly. */
  lemma LineMinExact(x: Mat, y: Vec, g: real, threshold: real, b: Vec, nu: nat, c: real)
    requires Problem(x, y, b) && nu < |x| && SqNorm(x[nu]) > 0.0 && g >= 0.0 && threshold > 0.0
    requires b[nu] == 0.0 || Abs(b[nu]) >= threshold
    requires !Clipped(b[nu], Gradient(x, y, b)[nu], SqNorm(x[nu]), g, threshold)
    ensures Objective(x, y, g, LineMin(x, y, g, threshold, b, nu)) <= Objective(x, y, g, b[nu := c])
  {
    var d, q := Gradient(x, y, b)[nu], SqNorm(x[nu]);
    LineMinObjective(x, y, g, threshold, b, nu);
    LineExact(b[nu], d, q, g, threshold, c);
    ObjectiveAt(x, y, g, b, nu, c - b[nu]);
    assert b[nu] + (c - b[nu]) == c;
  }

  // ----- progress within the free set

  function NonZeros(b: Vec, k: nat): nat
    requires k <= |b|
  {
    if k == 0 then 0 else NonZeros(b, k - 1) + if b[k - 1] != 0.0 then 1 else 0
  }

  lemma {:induction false} NonZerosUpdate(b: Vec, j: nat, v: real, k: nat)
    requires j < |b| && k <= |b| && b[j] != 0.0
    ensures NonZeros(b[j := v], k) == NonZeros(b, k) - (if j < k && v == 0.0 then 1 else 0)
  {
    if k > 0 { NonZerosUpdate(b, j, v, k - 1); }
  }

  /** How many whole quanta the objective can still lose. */
  ghost function Budget(f: real, c: real): int
    requires c > 0.0
  {
    (f / c).Floor
  }

  lemma QuotientAtMost(x: real, c: real, r: real)
    requires c > 0.0 && x <= r * c
    ensures x / c <= r
  {}

  lemma BudgetDrops(f: real, f': real, c: real)
    requires c > 0.0 && f' <= f
    ensures Budget(f', c) <= Budget(f, c)
    ensures f' <= f - c ==> Budget(f', c) < Budget(f, c)
    ensures f' >= 0.0 ==> Budget(f', c) >= 0
  {
    DivideMono(f', f, c);
    if f' <= f - c {
      var r := f / c;
      assert r * c == f;
      QuotientAtMost(f', c, r - 1.0);
    }
    if f' >= 0.0 { DivideMono(0.0, f', c); assert 0.0 / c == 0.0; }
  }

  lemma KeptQuantum(a: real, d: real, q: real, g: real, threshold: real, tau: real, most: real)
    requires 0.0 < q <= most && g >= 0.0 && threshold > 0.0 && tau > 0.0 && Abs(a) >= threshold
    requires Violation(a, d, g) >= tau && !Clipped(a, d, q, g, threshold)
    ensures Change(d, q, g, a, LineStep(a, d, q, g, threshold) - a) <= -Quantum(tau, most)
  {
    KeptLineGain(a, d, q, g, threshold);
    SlopeIsViolation(a, d, g, threshold);
    QuantumReached(VarSlope(a, d, g, threshold), q, tau, most);
  }

  lemma KeptDrop(x: Mat, y: Vec, g: real, threshold: real, b: Vec, nu: nat, tau: real, most: real)
    requires Problem(x, y, b) && nu < |x| && 0.0 < SqNorm(x[nu]) <= most && g >= 0.0
    requires threshold > 0.0 && tau > 0.0 && Abs(b[nu]) >= threshold
    requires Violation(b[nu], Gradient(x, y, b)[nu], g) >= tau
    requires LineMin(x, y, g, threshold, b, nu)[nu] != 0.0
    ensures Objective(x, y, g, LineMin(x, y, g, threshold, b, nu)) <= Objective(x, y, g, b) - Quantum(tau, most)
  {
    LineMinObjective(x, y, g, threshold, b, nu);
    KeptQuantum(b[nu], Gradient(x, y, b)[nu], SqNorm(x[nu]), g, threshold, tau, most);
  }

  /** (budget, non-zeros) falls lexicographically from b to b'. */
  ghost predicate Closer(x: Mat, y: Vec, g: real, b: Vec, b': Vec, c: real)
    requires Columns(x, |y|) && |b| == |b'| == |x| && c > 0.0
  {
    || Budget(Objective(x, y, g, b'), c) < Budget(Objective(x, y, g, b), c)
    || (Budget(Objective(x, y, g, b'), c) == Budget(Objective(x, y, g, b), c) && NonZeros(b', |b|) < NonZeros(b, |b|))
  }

  /** On a free variable whose violation reaches tau, a step either clips it to zero or gains
      a fixed amount. */
  lemma FreeProgress(x: Mat, y: Vec, g: real, threshold: real, b: Vec, nu: nat, tau: real, most: real)
    requires Problem(x, y, b) && nu < |x| && 0.0 < SqNorm(x[nu]) <= most && g >= 0.0
    requires threshold > 0.0 && tau > 0.0 && Abs(b[nu]) >= threshold
    requires Violation(b[nu], Gradient(x, y, b)[nu], g) >= tau
    ensures Closer(x, y, g, b, LineMin(x, y, g, threshold, b, nu), Quantum(tau, most))
  {
    var b', c := LineMin(x, y, g, threshold, b, nu), Quantum(tau, most);
    LineMinDescends(x, y, g, threshold, b, nu);
    BudgetDrops(Objective(x, y, g, b), Objective(x, y, g, b'), c);
    if b'[nu] == 0.0 {
      NonZerosUpdate(b, nu, b'[nu], |b|);
      assert b' == b[nu := b'[nu]];
    } else {
      KeptDrop(x, y, g, threshold, b, nu, tau, most);
    }
  }

  // ----- computeViol

  ghost predicate IsViolation(viol: Vec, b: Vec, d: Vec, g: real) {
    |viol| == |b| == |d| && forall j :: 0 <= j < |b| ==> viol[j] == Violation(b[j], d[j], g)
  }

  /** computeViol: the three masked assignments, in order. */
  method ComputeViol(alpha: Vec, gamma: real, g: Vec) returns (r: Vec)
    requires |g| == |alpha|
    ensures IsViolation(r, alpha, g, gamma)
  {
    var viol := new real[|alpha|](_ => 0.0);
    for j := 0 to |alpha|
      invariant forall i :: 0 <= i < j && alpha[i] > 0.0 ==> viol[i] == Abs(gamma + g[i])
    {
      if alpha[j] > 0.0 { viol[j] := Abs(gamma + g[j]); }
    }
    for j := 0 to |alpha|
      invariant forall i :: 0 <= i < |alpha| && alpha[i] > 0.0 ==> viol[i] == Abs(gamma + g[i])
      invariant forall i :: 0 <= i < j && alpha[i] < 0.0 ==> viol[i] == Abs(gamma - g[i])
    {
      if alpha[j] < 0.0 { viol[j] := Abs(gamma - g[j]); }
    }
    for j := 0 to |alpha|
      invariant forall i :: 0 <= i < |alpha| && alpha[i] > 0.0 ==> viol[i] == Abs(gamma + g[i])
      invariant forall i :: 0 <= i < |alpha| && alpha[i] < 0.0 ==> viol[i] == Abs(gamma - g[i])
      invariant forall i :: 0 <= i < j && alpha[i] == 0.0 ==> viol[i] == Max(Max(-g[i] - gamma, -gamma + g[i]), 0.0)
    {
      if alpha[j] == 0.0 { viol[j] := Max(Max(-g[j] - gamma, -gamma + g[j]), 0.0); }
    }
    r := viol[..];
  }

  /** The largest entry and its first position; zero for the empty vector. */
  method MaxAt(v: Vec) returns (m: real, at: nat)
    ensures |v| == 0 ==> m == 0.0 && at == 0
    ensures |v| > 0 ==> at < |v| && m == v[at]
    ensures forall j :: 0 <= j < |v| ==> v[j] <= m
    ensures forall j :: 0 <= j < at ==> v[j] < m
  {
    m, at := 0.0, 0;
    if |v| > 0 {
      m := v[0];
      for j := 1 to |v|
        invariant 0 <= at < j && m == v[at]
        invariant forall i :: 0 <= i < j ==> v[i] <= m
        invariant forall i :: 0 <= i < at ==> v[i] < m
      {
        if v[j] > m { m, at := v[j], j; }
      }
    }
  }

  /** viol .* (abs(alpha) >= threshold), or with the mask negated. */
  function Masked(viol: Vec, alpha: Vec, threshold: real, free: bool): (r: Vec)
    requires |viol| == |alpha|
  {
    seq(|viol|, j requires 0 <= j < |viol| => if (Abs(alpha[j]) >= threshold) == free then viol[j] else 0.0)
  }

  // ----- the solver

  method GradientOf(x: Mat, y: Vec, xx: Mat, xy: Vec, alpha: Vec) returns (g: Vec)
    requires Columns(x, |y|) && |alpha| == |x| && xx == Gram(x, |y|) && xy == Proj(x, y)
    ensures g == Gradient(x, y, alpha)
  {
    g := seq(|x|, j requires 0 <= j < |x| => Dot(xx[j], alpha) - xy[j]);
    forall j | 0 <= j < |x| ensures g[j] == Gradient(x, y, alpha)[j] {
      GradientFromGram(x, y, alpha, j);
    }
  }

  /** One line minimisation in place. */
  method LineMinimise(x: Mat, y: Vec, g: real, threshold: real, alpha: array<real>, nu: nat, grad: Vec, xx: Mat)
    requires Columns(x, |y|) && alpha.Length == |x| && nu < |x| && SqNorm(x[nu]) > 0.0
    requires grad == Gradient(x, y, alpha[..]) && xx == Gram(x, |y|)
    modifies alpha
    ensures alpha[..] == LineMin(x, y, g, threshold, old(alpha[..]), nu)
  {
    ghost var b := alpha[..];
    assert xx[nu][nu] == SqNorm(x[nu]);
    var slope := VarSlope(alpha[nu], grad[nu], g, threshold);
    var original := alpha[nu];
    alpha[nu] := alpha[nu] - slope / xx[nu][nu];
    if original != 0.0 && Sign(original) != Sign(alpha[nu]) {
      alpha[nu] := 0.0;
    }
    assert alpha[..] == b[nu := alpha[nu]];
  }

  /** A bound on every squared column norm. */
  ghost function MostTo(x: Mat, k: nat): (r: real)
    requires k <= |x|
    ensures r >= 1.0 && forall j :: 0 <= j < k ==> SqNorm(x[j]) <= r
  {
    if k == 0 then 1.0 else Max(MostTo(x, k - 1), SqNorm(x[k - 1]))
  }

  /** No free variable violates by tau or more. */
  ghost predicate FreeSolved(x: Mat, y: Vec, g: real, threshold: real, b: Vec, tau: real)
    requires Problem(x, y, b)
  {
    forall j :: 0 <= j < |x| && Abs(b[j]) >= threshold ==> Violation(b[j], Gradient(x, y, b)[j], g) < tau
  }

  lemma KeepsZeroColumns(x: Mat, y: Vec, g: real, threshold: real, b: Vec, nu: nat)
    requires Problem(x, y, b) && nu < |x| && SqNorm(x[nu]) > 0.0 && ZeroOnZeroColumns(x, b)
    ensures ZeroOnZeroColumns(x, LineMin(x, y, g, threshold, b, nu))
  {}

  lemma MaskedMax(x: Mat, y: Vec, g: real, threshold: real, b: Vec, viol: Vec, tau: real, m: real)
    requires Problem(x, y, b) && g >= 0.0 && IsViolation(viol, b, Gradient(x, y, b), g)
    requires forall j :: 0 <= j < |x| ==> Masked(viol, b, threshold, true)[j] <= m
    requires m < tau
    ensures FreeSolved(x, y, g, threshold, b, tau)
  {
    forall j | 0 <= j < |x| && Abs(b[j]) >= threshold ensures Violation(b[j], Gradient(x, y, b)[j], g) < tau {
      assert Masked(viol, b, threshold, true)[j] == viol[j];
    }
  }

  /** The worst free variable after a round is one that violates by tau and can be moved. */
  lemma NextVariable(x: Mat, y: Vec, g: real, threshold: real, b: Vec, viol: Vec, tau: real, nu: nat)
    requires Problem(x, y, b) && g >= 0.0 && tau > 0.0 && IsViolation(viol, b, Gradient(x, y, b), g)
    requires ZeroOnZeroColumns(x, b) && nu < |x| && Masked(viol, b, threshold, true)[nu] >= tau
    ensures Abs(b[nu]) >= threshold && Violation(b[nu], Gradient(x, y, b)[nu], g) >= tau && SqNorm(x[nu]) > 0.0
  {
    ViolatorHasColumn(x, y, b, g, nu);
  }

  /** One round of the inner loop. */
  method Round(x: Mat, y: Vec, g: real, threshold: real, tau: real, alpha: array<real>, nu: nat,
               xx: Mat, xy: Vec, grad0: Vec)
    returns (grad: Vec, viol: Vec, maxViol: real, next: nat)
    requires Columns(x, |y|) && alpha.Length == |x| && nu < |x| && g >= 0.0 && threshold > 0.0 && tau > 0.0
    requires xx == Gram(x, |y|) && xy == Proj(x, y) && grad0 == Gradient(x, y, alpha[..])
    requires ZeroOnZeroColumns(x, alpha[..]) && SqNorm(x[nu]) > 0.0
    modifies alpha
    ensures alpha[..] == LineMin(x, y, g, threshold, old(alpha[..]), nu) && ZeroOnZeroColumns(x, alpha[..])
    ensures grad == Gradient(x, y, alpha[..]) && IsViolation(viol, alpha[..], grad, g)
    ensures maxViol < tau ==> FreeSolved(x, y, g, threshold, alpha[..], tau)
    ensures next < |x| && next < alpha.Length
    ensures maxViol >= tau ==>
      Abs(alpha[next]) >= threshold && Violation(alpha[next], grad[next], g) >= tau && SqNorm(x[next]) > 0.0
  {
    KeepsZeroColumns(x, y, g, threshold, alpha[..], nu);
    LineMinimise(x, y, g, threshold, alpha, nu, grad0, xx);
    grad := GradientOf(x, y, xx, xy, alpha[..]);
    viol := ComputeViol(alpha[..], g, grad);
    maxViol, next := MaxAt(Masked(viol, alpha[..], threshold, true));
    if maxViol < tau {
      MaskedMax(x, y, g, threshold, alpha[..], viol, tau, maxViol);
    } else {
      NextVariable(x, y, g, threshold, alpha[..], viol, tau, next);
    }
  }

  /** The bookkeeping of the inner loop's termination. */
  lemma RoundMeasure(x: Mat, y: Vec, g: real, threshold: real, b: Vec, nu: nat, tau: real, again: bool)
    requires Problem(x, y, b) && nu < |x| && SqNorm(x[nu]) > 0.0 && g >= 0.0 && threshold > 0.0 && tau > 0.0
    requires again ==> Abs(b[nu]) >= threshold && Violation(b[nu], Gradient(x, y, b)[nu], g) >= tau
    ensures var b', c := LineMin(x, y, g, threshold, b, nu), Quantum(tau, MostTo(x, |x|));
      && Objective(x, y, g, b') <= Objective(x, y, g, b)
      && Budget(Objective(x, y, g, b'), c) >= 0
      && (again ==> Closer(x, y, g, b, b', c))
  {
    var b', c := LineMin(x, y, g, threshold, b, nu), Quantum(tau, MostTo(x, |x|));
    LineMinDescends(x, y, g, threshold, b, nu);
    ObjectiveNonNeg(x, y, g, b');
    BudgetDrops(Objective(x, y, g, b), Objective(x, y, g, b'), c);
    if again { FreeProgress(x, y, g, threshold, b, nu, tau, MostTo(x, |x|)); }
  }

  /** The inner loop: minimise along nu, then along the worst free variable until none violates
      by tau. It terminates because every further step either empties one variable or uses up
      one quantum of the objective. */
  method SolveFree(x: Mat, y: Vec, g: real, threshold: real, tau: real, alpha: array<real>, start: nat,
                   xx: Mat, xy: Vec, grad0: Vec)
    returns (grad: Vec, viol: Vec, steps: nat)
    requires Columns(x, |y|) && alpha.Length == |x| && start < |x| && g >= 0.0 && threshold > 0.0 && tau > 0.0
    requires xx == Gram(x, |y|) && xy == Proj(x, y) && grad0 == Gradient(x, y, alpha[..])
    requires ZeroOnZeroColumns(x, alpha[..]) && SqNorm(x[start]) > 0.0
    modifies alpha
    ensures ZeroOnZeroColumns(x, alpha[..]) && steps > 0
    ensures Objective(x, y, g, alpha[..]) <= Objective(x, y, g, old(alpha[..]))
    ensures grad == Gradient(x, y, alpha[..]) && IsViolation(viol, alpha[..], grad, g)
    ensures FreeSolved(x, y, g, threshold, alpha[..], tau)
  {
    ghost var c := Quantum(tau, MostTo(x, |x|));
    RoundMeasure(x, y, g, threshold, alpha[..], start, tau, false);
    var maxViol, nu: nat;
    grad, viol, maxViol, nu := Round(x, y, g, threshold, tau, alpha, start, xx, xy, grad0);
    steps := 1;
    while maxViol >= tau
      invariant nu < |x| && grad == Gradient(x, y, alpha[..]) && IsViolation(viol, alpha[..], grad, g)
      invariant ZeroOnZeroColumns(x, alpha[..]) && steps > 0
      invariant Objective(x, y, g, alpha[..]) <= Objective(x, y, g, old(alpha[..]))
      invariant Budget(Objective(x, y, g, alpha[..]), c) >= 0
      invariant maxViol < tau ==> FreeSolved(x, y, g, threshold, alpha[..], tau)
      invariant maxViol >= tau ==>
        Abs(alpha[nu]) >= threshold && Violation(alpha[nu], grad[nu], g) >= tau && SqNorm(x[nu]) > 0.0
      decreases Budget(Objective(x, y, g, alpha[..]), c), NonZeros(alpha[..], |x|)
    {
      RoundMeasure(x, y, g, threshold, alpha[..], nu, tau, true);
      grad, viol, maxViol, nu := Round(x, y, g, threshold, tau, alpha, nu, xx, xy, grad);
      steps := steps + 1;
    }
  }

  lemma AllSolved(x: Mat, y: Vec, g: real, threshold: real, b: Vec, viol: Vec, tau: real, m: real)
    requires Problem(x, y, b) && g >= 0.0 && IsViolation(viol, b, Gradient(x, y, b), g)
    requires FreeSolved(x, y, g, threshold, b, tau)
    requires forall j :: 0 <= j < |x| ==> Masked(viol, b, threshold, false)[j] <= m
    requires m <= tau
    ensures AllWithin(x, y, g, b, tau)
  {
    forall j | 0 <= j < |x| ensures Violation(b[j], Gradient(x, y, b)[j], g) <= tau {
      if Abs(b[j]) < threshold { assert Masked(viol, b, threshold, false)[j] == viol[j]; }
    }
  }

  lemma NextAtZero(x: Mat, y: Vec, g: real, threshold: real, b: Vec, viol: Vec, nu: nat)
    requires Problem(x, y, b) && g >= 0.0 && IsViolation(viol, b, Gradient(x, y, b), g)
    requires ZeroOnZeroColumns(x, b) && nu < |x| && Masked(viol, b, threshold, false)[nu] > 0.0
    ensures SqNorm(x[nu]) > 0.0
  {
    ViolatorHasColumn(x, y, b, g, nu);
  }

  lemma FirstTest(viol: Vec, sizes: Vec, m: real, tau: real)
    requires |sizes| == |viol| && forall j :: 0 <= j < |viol| ==> viol[j] >= 0.0 && sizes[j] == Abs(viol[j])
    requires (forall j :: 0 <= j < |sizes| ==> sizes[j] <= m) &&
      (m == 0.0 || exists j :: 0 <= j < |sizes| && sizes[j] == m)
    requires tau > 0.0
    ensures m <= tau <==> forall j :: 0 <= j < |viol| ==> viol[j] <= tau
  {}

  /** The test before the loop, which uses gamma itself. */
  method FirstViolator(x: Mat, y: Vec, gamma: real, alpha: Vec, grad: Vec, tau: real)
    returns (viol: Vec, maxViol: real, nu: nat)
    requires Problem(x, y, alpha) && gamma >= 0.0 && tau > 0.0 && grad == Gradient(x, y, alpha)
    requires ZeroOnZeroColumns(x, alpha)
    ensures IsViolation(viol, alpha, grad, gamma)
    ensures maxViol <= tau <==> AllWithin(x, y, gamma, alpha, tau)
    ensures maxViol > tau ==> nu < |x| && SqNorm(x[nu]) > 0.0
  {
    viol := ComputeViol(alpha, gamma, grad);
    var sizes := seq(|x|, j requires 0 <= j < |x| => Abs(viol[j]));
    maxViol, nu := MaxAt(sizes);
    FirstTest(viol, sizes, maxViol, tau);
    if maxViol > tau { ViolatorHasColumn(x, y, alpha, gamma, nu); }
  }

  /** The free set solved from nu on, then the worst variable at zero. */
  method OuterRound(x: Mat, y: Vec, g: real, threshold: real, tau: real, alpha: array<real>, nu: nat,
                    xx: Mat, xy: Vec, grad0: Vec)
    returns (grad: Vec, viol: Vec, maxViol: real, next: nat, steps: nat)
    requires Columns(x, |y|) && alpha.Length == |x| && nu < |x| && g >= 0.0 && threshold > 0.0 && tau > 0.0
    requires xx == Gram(x, |y|) && xy == Proj(x, y) && grad0 == Gradient(x, y, alpha[..])
    requires ZeroOnZeroColumns(x, alpha[..]) && SqNorm(x[nu]) > 0.0
    modifies alpha
    ensures ZeroOnZeroColumns(x, alpha[..]) && steps > 0
    ensures Objective(x, y, g, alpha[..]) <= Objective(x, y, g, old(alpha[..]))
    ensures grad == Gradient(x, y, alpha[..]) && IsViolation(viol, alpha[..], grad, g)
    ensures maxViol <= tau ==> AllWithin(x, y, g, alpha[..], tau)
    ensures maxViol > tau ==> next < |x| && SqNorm(x[next]) > 0.0
  {
    grad, viol, steps := SolveFree(x, y, g, threshold, tau, alpha, nu, xx, xy, grad0);
    maxViol, next := MaxAt(Masked(viol, alpha[..], threshold, false));
    if maxViol <= tau {
      AllSolved(x, y, g, threshold, alpha[..], viol, tau, maxViol);
    } else {
      NextAtZero(x, y, g, threshold, alpha[..], viol, next);
    }
  }

  /** The solver's loops from a starting point alpha0. `lineMins` counts line minimisations, and
      `found` is what the source reports as "Solution Found". */
  method Run(x: Mat, y: Vec, gamma: real, alpha0: Vec, maxIter: nat, tau: real, threshold: real)
    returns (w: Vec, lineMins: nat, found: bool)
    requires Columns(x, |y|) && |alpha0| == |x| && gamma >= 0.0 && tau > 0.0 && threshold > 0.0
    requires ZeroOnZeroColumns(x, alpha0)
    ensures |w| == |x| && Objective(x, y, Half(gamma), w) <= Objective(x, y, Half(gamma), alpha0)
    ensures lineMins > 0 ==> (found <==> AllWithin(x, y, Half(gamma), w, tau))
    ensures 0 < lineMins < maxIter ==> found
    ensures lineMins == 0 ==> w == alpha0 && (found <==> AllWithin(x, y, gamma, alpha0, tau))
    ensures lineMins == 0 <==> maxIter == 0 || AllWithin(x, y, gamma, alpha0, tau)
  {
    var xx, xy, p, g := Gram(x, |y|), Proj(x, y), |x|, Half(gamma);
    var alpha := new real[p](i requires 0 <= i < p => alpha0[i]);
    assert alpha[..] == alpha0;
    var grad := GradientOf(x, y, xx, xy, alpha0);
    var viol: Vec, maxViol: real, nu: nat := FirstViolator(x, y, gamma, alpha0, grad, tau);
    lineMins := 0;
    while maxViol > tau && lineMins < maxIter
      invariant grad == Gradient(x, y, alpha[..]) && ZeroOnZeroColumns(x, alpha[..])
      invariant IsViolation(viol, alpha[..], grad, if lineMins == 0 then gamma else g)
      invariant Objective(x, y, g, alpha[..]) <= Objective(x, y, g, alpha0)
      invariant maxViol > tau ==> nu < p && SqNorm(x[nu]) > 0.0
      invariant lineMins == 0 ==> alpha[..] == alpha0 && (maxViol <= tau <==> AllWithin(x, y, gamma, alpha0, tau))
      invariant lineMins > 0 ==> maxIter > 0 && !AllWithin(x, y, gamma, alpha0, tau)
      invariant lineMins > 0 && maxViol <= tau ==> AllWithin(x, y, g, alpha[..], tau)
      decreases maxIter - lineMins
    {
      var steps;
      grad, viol, maxViol, nu, steps := OuterRound(x, y, g, threshold, tau, alpha, nu, xx, xy, grad);
      lineMins := lineMins + steps;
    }
    found := forall j :: 0 <= j < |viol| ==> viol[j] <= tau;
    w := alpha[..];
  }

  /** What a reported solution is worth. Once the loop has been entered, it certifies that no
      vector beats w by more than tau per unit of distance, and only running out of line
      minimisations prevents it. A run that does not enter the loop returns its starting
      point; the first test uses gamma where the objective has gamma/2, so that point is
      certified exactly when it passes the later test as well. */
  method Solve(x: Mat, y: Vec, gamma: real, alpha0: Vec, maxIter: nat, tau: real, threshold: real)
    returns (w: Vec, lineMins: nat, found: bool)
    requires Columns(x, |y|) && |alpha0| == |x| && gamma >= 0.0 && tau > 0.0 && threshold > 0.0
    requires ZeroOnZeroColumns(x, alpha0)
    ensures |w| == |x| && Objective(x, y, Half(gamma), w) <= Objective(x, y, Half(gamma), alpha0)
    ensures lineMins > 0 ==> (found <==> Certified(x, y, Half(gamma), w, tau))
    ensures 0 < lineMins < maxIter ==> found
    ensures lineMins == 0 <==> maxIter == 0 || AllWithin(x, y, gamma, alpha0, tau)
    ensures lineMins == 0 ==> w == alpha0
    ensures lineMins == 0 ==> (Certified(x, y, Half(gamma), w, tau) <==> AllWithin(x, y, Half(gamma), alpha0, tau))
  {
    w, lineMins, found := Run(x, y, gamma, alpha0, maxIter, tau, threshold);
    CertificateIff(x, y, Half(gamma), w, tau);
  }

  /** One column [1], y = [3/2], gamma = 2: the starting point zero passes the first test, so the
      loop is not entered, yet zero is not optimal to within 1/10. */
  lemma FirstTestTooLax()
    ensures AllWithin([[1.0]], [1.5], 2.0, [0.0], 0.1)
    ensures !Certified([[1.0]], [1.5], Half(2.0), [0.0], 0.1)
  {
    var x, y, b := [[1.0]], [1.5], [0.0];
    assert Residual(x, y, b) == [-1.5] by {
      assert CombTo(x, b, 1, 1) == Add(CombTo(x, b, 1, 0), Scale(b[0], x[0]));
    }
    assert Gradient(x, y, b)[0] == -1.5 by {
      var h := Had(x[0], Residual(x, y, b));
      assert SumTo(h, 1) == SumTo(h, 0) + h[0];
    }
    CertificateIff(x, y, Half(2.0), b, 0.1);
  }
}
