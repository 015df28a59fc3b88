/** `LassoObj` of `LassoProjection`: the objective of the split problem and its gradient.

    The source's vector of 2p weights is [u; v]; the weights it stands for are u - v.
 */
module ProjectedObjective {
  import opened LinearAlgebra
  import opened L1LeastSquares

  /** The value of LassoObj, from the precomputed XX, Xy and yy. */
  function Value(xx: Mat, xy: Vec, yy: real, lam: real, u: Vec, v: Vec): real
    requires |u| == |v| == |xx| == |xy| && Columns(xx, |u|)
  {
    var w := Sub(Plus(u), Plus(v));
    Dot(w, Proj(xx, w)) - 2.0 * Dot(w, xy) + yy + lam * (Sum(Plus(u)) + Sum(Plus(v)))
  }

  /** The gradient of LassoObj, of both halves. */
  function Slopes(xx: Mat, xy: Vec, lam: real, u: Vec, v: Vec): (g: (Vec, Vec))
    requires |u| == |v| == |xx| == |xy| && Columns(xx, |u|)
    ensures |g.0| == |g.1| == |u|
  {
    var t := Proj(xx, Sub(Plus(u), Plus(v)));
    (seq(|u|, j requires 0 <= j < |u| => 2.0 * t[j] - 2.0 * xy[j] + lam),
     seq(|u|, j requires 0 <= j < |u| => -(2.0 * t[j] - 2.0 * xy[j]) + lam))
  }

  /** The precomputed data of the problem. */
  ghost predicate Precomputed(x: Mat, y: Vec, xx: Mat, xy: Vec, yy: real) {
    Columns(x, |y|) && xx == Gram(x, |y|) && xy == Proj(x, y) && yy == SqNorm(y)
  }

  lemma TimesIs(x: Mat, y: Vec, w: Vec)
    requires Columns(x, |y|) && |w| == |x|
    ensures Columns(Gram(x, |y|), |w|) && Proj(Gram(x, |y|), w) == Proj(x, Comb(x, w, |y|))
  {
    forall j | 0 <= j < |x| ensures Dot(Gram(x, |y|)[j], w) == Proj(x, Comb(x, w, |y|))[j] {
      GramTimes(x, w, |y|, j);
    }
  }

  lemma ResidualNorm(x: Mat, y: Vec, w: Vec)
    requires Columns(x, |y|) && |w| == |x|
    ensures SqNorm(Residual(x, y, w))
         == SqNorm(Comb(x, w, |y|)) - 2.0 * Dot(Comb(x, w, |y|), y) + SqNorm(y)
  {
    var a := Comb(x, w, |y|);
    DotSub(Sub(a, y), a, y);
    DotSym(Sub(a, y), a);
    DotSym(Sub(a, y), y);
    DotSub(a, a, y);
    DotSub(y, a, y);
    DotSym(a, y);
  }

  /** The value is the squared residual at u - v plus the penalty on both halves. */
  lemma ValueIs(x: Mat, y: Vec, xx: Mat, xy: Vec, yy: real, lam: real, u: Vec, v: Vec)
    requires Precomputed(x, y, xx, xy, yy) && |u| == |v| == |x|
    ensures Columns(xx, |u|)
    ensures Value(xx, xy, yy, lam, u, v)
         == SqNorm(Residual(x, y, Sub(Plus(u), Plus(v)))) + lam * (Sum(Plus(u)) + Sum(Plus(v)))
  {
    var w, n := Sub(Plus(u), Plus(v)), |y|;
    TimesIs(x, y, w);
    ResidualNorm(x, y, w);
    Adjoint(x, w, Comb(x, w, n));
    Adjoint(x, w, y);
    DotSym(w, Proj(x, Comb(x, w, n)));
    DotSym(w, Proj(x, y));
    DotSym(Comb(x, w, n), y);
  }

  /** s is k*g plus the penalty. */
  ghost predicate IsSlope(s: Vec, g: Vec, k: real, lam: real) {
    |s| == |g| && forall j :: 0 <= j < |g| ==> s[j] == Mul(k, g[j]) + lam
  }

  /** A slope vector times a move. */
  lemma SlopeDot(g: Vec, s: Vec, d: Vec, k: real, lam: real)
    requires |d| == |g| && IsSlope(s, g, k, lam)
    ensures Dot(s, d) == Mul(k, Dot(g, d)) + Mul(lam, Sum(d))
  {
    var a, b := Scale(k, g), Scale(lam, Ones(|g|));
    forall j | 0 <= j < |g| ensures s[j] == Add(a, b)[j] {
      assert a[j] == Mul(k, g[j]) && b[j] == lam * 1.0;
    }
    assert s == Add(a, b);
    DotSym(s, d);
    DotAdd(d, a, b);
    DotScale(d, k, g);
    DotScale(d, lam, Ones(|g|));
    DotSym(d, g);
    assert Had(d, Ones(|g|)) == d;
  }

  /** At non-negative points nothing is clipped. */
  lemma ValueUnclipped(x: Mat, y: Vec, xx: Mat, xy: Vec, yy: real, lam: real, u: Vec, v: Vec)
    requires Precomputed(x, y, xx, xy, yy) && |u| == |v| == |x| && NonNegative(u) && NonNegative(v)
    ensures Columns(xx, |u|)
    ensures Value(xx, xy, yy, lam, u, v) == SqNorm(Residual(x, y, Sub(u, v))) + Mul(lam, Sum(u) + Sum(v))
  {
    ValueIs(x, y, xx, xy, yy, lam, u, v);
    PlusOf(u);
    PlusOf(v);
  }

  lemma SquaresExpand(x: Mat, y: Vec, u: Vec, v: Vec, u': Vec, v': Vec)
    requires Columns(x, |y|) && |u| == |v| == |u'| == |v'| == |x|
    ensures SqNorm(Residual(x, y, Sub(u', v')))
         == SqNorm(Residual(x, y, Sub(u, v))) + 2.0 * Dot(Gradient(x, y, Sub(u, v)), Sub(Sub(u', u), Sub(v', v)))
          + SqNorm(Comb(x, Sub(Sub(u', v'), Sub(u, v)), |y|))
  {
    Expand(x, y, Sub(u, v), Sub(u', v'));
    assert Sub(Sub(u', v'), Sub(u, v)) == Sub(Sub(u', u), Sub(v', v));
  }

  lemma PenaltyMoves(lam: real, u: Vec, v: Vec, u': Vec, v': Vec)
    requires |u| == |v| == |u'| == |v'|
    ensures Mul(lam, Sum(u') + Sum(v'))
         == Mul(lam, Sum(u) + Sum(v)) + Mul(lam, Sum(Sub(u', u))) + Mul(lam, Sum(Sub(v', v)))
  {
    SumSub(u', u);
    SumSub(v', v);
    MulAdd(lam, Sum(u) + Sum(v), Sum(Sub(u', u)) + Sum(Sub(v', v)));
    MulAdd(lam, Sum(Sub(u', u)), Sum(Sub(v', v)));
  }

  lemma ValueMoves(x: Mat, y: Vec, xx: Mat, xy: Vec, yy: real, lam: real, u: Vec, v: Vec, u': Vec, v': Vec)
    requires Precomputed(x, y, xx, xy, yy) && |u| == |v| == |u'| == |v'| == |x|
    requires NonNegative(u) && NonNegative(v) && NonNegative(u') && NonNegative(v')
    ensures Columns(xx, |u|)
    ensures Value(xx, xy, yy, lam, u', v')
         == Value(xx, xy, yy, lam, u, v) + 2.0 * Dot(Gradient(x, y, Sub(u, v)), Sub(Sub(u', u), Sub(v', v)))
          + Mul(lam, Sum(Sub(u', u))) + Mul(lam, Sum(Sub(v', v))) + SqNorm(Comb(x, Sub(Sub(u', v'), Sub(u, v)), |y|))
  {
    ValueUnclipped(x, y, xx, xy, yy, lam, u, v);
    ValueUnclipped(x, y, xx, xy, yy, lam, u', v');
    SquaresExpand(x, y, u, v, u', v');
    PenaltyMoves(lam, u, v, u', v');
  }

  /** The slopes are the exact first-order terms of the value between non-negative points, and
      what remains is a square: the gradient is right and the value is convex. */
  lemma Expansion(x: Mat, y: Vec, xx: Mat, xy: Vec, yy: real, lam: real, u: Vec, v: Vec, u': Vec, v': Vec)
    requires Precomputed(x, y, xx, xy, yy) && |u| == |v| == |u'| == |v'| == |x|
    requires NonNegative(u) && NonNegative(v) && NonNegative(u') && NonNegative(v')
    ensures Columns(xx, |u|)
    ensures
      var (g, h) := Slopes(xx, xy, lam, u, v);
      Value(xx, xy, yy, lam, u', v')
        == Value(xx, xy, yy, lam, u, v) + (Dot(g, Sub(u', u)) + Dot(h, Sub(v', v)))
           + SqNorm(Comb(x, Sub(Sub(u', v'), Sub(u, v)), |y|))
  {
    ValueMoves(x, y, xx, xy, yy, lam, u, v, u', v');
    FirstOrder(x, y, xx, xy, lam, u, v, Sub(u', u), Sub(v', v));
  }

  lemma FirstOrder(x: Mat, y: Vec, xx: Mat, xy: Vec, lam: real, u: Vec, v: Vec, du: Vec, dv: Vec)
    requires Columns(x, |y|) && xx == Gram(x, |y|) && xy == Proj(x, y) && |u| == |v| == |du| == |dv| == |x|
    requires NonNegative(u) && NonNegative(v)
    ensures Columns(xx, |u|)
    ensures
      var (g, h) := Slopes(xx, xy, lam, u, v);
      Dot(g, du) + Dot(h, dv)
        == 2.0 * Dot(Gradient(x, y, Sub(u, v)), Sub(du, dv)) + Mul(lam, Sum(du)) + Mul(lam, Sum(dv))
  {
    var grad, g := Gradient(x, y, Sub(u, v)), Slopes(xx, xy, lam, u, v);
    SlopesAre(x, y, xx, xy, lam, u, v);
    SlopeDot(grad, g.0, du, 2.0, lam);
    SlopeDot(grad, g.1, dv, -2.0, lam);
    DotSub(grad, du, dv);
  }

  lemma PlusOf(u: Vec)
    requires NonNegative(u)
    ensures Plus(u) == u
  {}

  lemma SlopesAre(x: Mat, y: Vec, xx: Mat, xy: Vec, lam: real, u: Vec, v: Vec)
    requires Columns(x, |y|) && xx == Gram(x, |y|) && xy == Proj(x, y) && |u| == |v| == |x|
    requires NonNegative(u) && NonNegative(v)
    ensures Columns(xx, |u|)
    ensures IsSlope(Slopes(xx, xy, lam, u, v).0, Gradient(x, y, Sub(u, v)), 2.0, lam)
    ensures IsSlope(Slopes(xx, xy, lam, u, v).1, Gradient(x, y, Sub(u, v)), -2.0, lam)
  {
    PlusOf(u);
    PlusOf(v);
    forall j | 0 <= j < |x| ensures Proj(xx, Sub(u, v))[j] - xy[j] == Gradient(x, y, Sub(u, v))[j] {
      GradientFromGram(x, y, Sub(u, v), j);
    }
  }

  /** The free variables' slopes are all zero, so that the solver stops: variables at zero with a
      non-negative slope are not free. */
  ghost predicate Stationary(u: Vec, g: Vec)
    requires |u| == |g|
  {
    forall j :: 0 <= j < |u| ==> g[j] >= 0.0 && (u[j] != 0.0 ==> g[j] == 0.0)
  }

  lemma {:induction false} NoDescent(u: Vec, u': Vec, g: Vec, k: nat)
    requires |u| == |u'| == |g| && k <= |u| && NonNegative(u) && NonNegative(u') && Stationary(u, g)
    ensures SumTo(Had(g, Sub(u', u)), k) >= 0.0
    decreases k
  {
    if k > 0 {
      NoDescent(u, u', g, k - 1);
      if u[k - 1] == 0.0 {
        ProductNonNeg(g[k - 1], u'[k - 1] - u[k - 1]);
      }
    }
  }

  /** When the solver stops with all free slopes zero, no non-negative point has a lower value. */
  lemma StationaryMinimises(x: Mat, y: Vec, xx: Mat, xy: Vec, yy: real, lam: real, u: Vec, v: Vec, u': Vec, v': Vec)
    requires Precomputed(x, y, xx, xy, yy) && |u| == |v| == |u'| == |v'| == |x|
    requires NonNegative(u) && NonNegative(v) && NonNegative(u') && NonNegative(v')
    requires Columns(xx, |u|)
    requires Stationary(u, Slopes(xx, xy, lam, u, v).0) && Stationary(v, Slopes(xx, xy, lam, u, v).1)
    ensures Value(xx, xy, yy, lam, u', v') >= Value(xx, xy, yy, lam, u, v)
  {
    var (g, h) := Slopes(xx, xy, lam, u, v);
    Expansion(x, y, xx, xy, yy, lam, u, v, u', v');
    NoDescent(u, u', g, |u|);
    NoDescent(v, v', h, |v|);
    SqNormNonNeg(Comb(x, Sub(Sub(u', v'), Sub(u, v)), |y|));
  }

  lemma DoubledObjective(x: Mat, y: Vec, lam: real, c: Vec, sq: real, norm: real)
    requires Columns(x, |y|) && |c| == |x| && sq == SqNorm(Residual(x, y, c)) && norm == Norm1(c)
    ensures 2.0 * Objective(x, y, Half(lam), c) == sq + Mul(lam, norm)
  {
    HalfTwice(lam, norm);
  }

  /** At the parts of some weights the value is twice the Lasso objective. */
  lemma ValueAtParts(x: Mat, y: Vec, xx: Mat, xy: Vec, yy: real, lam: real, c: Vec)
    requires Precomputed(x, y, xx, xy, yy) && |c| == |x|
    ensures Columns(xx, |c|)
    ensures Value(xx, xy, yy, lam, Plus(c), Minus(c)) == 2.0 * Objective(x, y, Half(lam), c)
  {
    ValueUnclipped(x, y, xx, xy, yy, lam, Plus(c), Minus(c));
    PartsBack(c);
    DoubledObjective(x, y, lam, c, SqNorm(Residual(x, y, c)), Norm1(c));
  }

  /** Nowhere is the value less than twice the objective of the weights the point stands for. */
  lemma ValueAbove(x: Mat, y: Vec, xx: Mat, xy: Vec, yy: real, lam: real, u: Vec, v: Vec)
    requires Precomputed(x, y, xx, xy, yy) && |u| == |v| == |x| && lam >= 0.0
    requires NonNegative(u) && NonNegative(v)
    ensures Columns(xx, |u|)
    ensures Value(xx, xy, yy, lam, u, v) >= 2.0 * Objective(x, y, Half(lam), Sub(u, v))
  {
    var w := Sub(u, v);
    ValueUnclipped(x, y, xx, xy, yy, lam, u, v);
    SmallerApart(u, v);
    MulMono(lam, Norm1(w), Sum(u) + Sum(v));
    DoubledObjective(x, y, lam, w, SqNorm(Residual(x, y, w)), Norm1(w));
  }

  lemma HalfTwice(lam: real, norm: real)
    ensures 2.0 * Mul(Half(lam), norm) == Mul(lam, norm)
  {}

  /** u and v are never both positive. */
  ghost predicate Complementary(u: Vec, v: Vec)
    requires |u| == |v|
  {
    forall j :: 0 <= j < |u| ==> u[j] == 0.0 || v[j] == 0.0
  }

  /** Variable j of both halves is stationary, d being its gradient. */
  lemma StationaryAt(u: real, v: real, d: real, lam: real, g: real, h: real)
    requires u >= 0.0 && v >= 0.0 && lam >= 0.0 && g == Mul(2.0, d) + lam && h == Mul(-2.0, d) + lam
    ensures (g >= 0.0 && (u != 0.0 ==> g == 0.0) && h >= 0.0 && (v != 0.0 ==> h == 0.0))
       <==> (Violation(u - v, d, Half(lam)) <= 0.0 && (lam > 0.0 ==> u == 0.0 || v == 0.0))
  {
    assert g == 2.0 * d + lam && h == -2.0 * d + lam;
  }

  lemma StationaryWithin(x: Mat, y: Vec, xx: Mat, xy: Vec, lam: real, u: Vec, v: Vec)
    requires Columns(x, |y|) && xx == Gram(x, |y|) && xy == Proj(x, y) && |u| == |v| == |x| && lam >= 0.0
    requires NonNegative(u) && NonNegative(v) && Columns(xx, |u|)
    ensures Stationary(u, Slopes(xx, xy, lam, u, v).0) && Stationary(v, Slopes(xx, xy, lam, u, v).1)
       <==> AllWithin(x, y, Half(lam), Sub(u, v), 0.0) && (lam > 0.0 ==> Complementary(u, v))
  {
    var (g, h) := Slopes(xx, xy, lam, u, v);
    var d := Gradient(x, y, Sub(u, v));
    SlopesAre(x, y, xx, xy, lam, u, v);
    forall j | 0 <= j < |x|
      ensures (g[j] >= 0.0 && (u[j] != 0.0 ==> g[j] == 0.0) && h[j] >= 0.0 && (v[j] != 0.0 ==> h[j] == 0.0))
         <==> (Violation(Sub(u, v)[j], d[j], Half(lam)) <= 0.0 && (lam > 0.0 ==> u[j] == 0.0 || v[j] == 0.0))
    {
      StationaryAt(u[j], v[j], d[j], lam, g[j], h[j]);
    }
  }

  /** Whether the weights u - v of a non-negative point minimise the Lasso objective over all
      vectors can be read off the slopes at that point itself. */
  lemma StationaryIsLasso(x: Mat, y: Vec, xx: Mat, xy: Vec, lam: real, u: Vec, v: Vec)
    requires Columns(x, |y|) && xx == Gram(x, |y|) && xy == Proj(x, y) && |u| == |v| == |x| && lam >= 0.0
    requires NonNegative(u) && NonNegative(v) && Columns(xx, |u|)
    ensures Stationary(u, Slopes(xx, xy, lam, u, v).0) && Stationary(v, Slopes(xx, xy, lam, u, v).1)
       <==> IsMinimiser(x, y, Half(lam), Sub(u, v)) && (lam > 0.0 ==> Complementary(u, v))
  {
    StationaryWithin(x, y, xx, xy, lam, u, v);
    MinimiserIff(x, y, Half(lam), Sub(u, v));
  }
}
