/** The loop of `LassoProjection` around the search direction, and what its stopping test is
    worth: the test looks at weights with the small ones set to zero, but at the slopes from
    before that.

    The line search is a parameter: whatever step lengths it yields, the statements hold.
 */
module ProjectionSolver {
  import opened LinearAlgebra
  import opened Indexing
  import opened L1LeastSquares
  import opened ProjectedObjective
  import opened ProjectionDirection
  import opened FactorisationLaws
  import opened DirectionLaws

  // ----- the free slopes bound the linear part of every move

  lemma LinearTerm(t: real, g: real, c: real, m: real, size: real)
    requires c >= 0.0 && Abs(c - t) <= m && m >= 0.0 && size == if IsFree(t, g) then Abs(g) else 0.0
    ensures -(m * size) <= g * (c - t)
  {
    if IsFree(t, g) {
      AbsProduct(g, c - t, size);
      ScaleMono(size, Abs(c - t), m);
    } else {
      ProductNonNeg(g, c);
    }
  }

  /** The magnitudes of the free slopes, and zero where a variable is not free. */
  ghost function FreeSizes(t: Vec, g: Vec): (r: Vec)
    requires |t| == |g|
  {
    seq(|g|, i requires 0 <= i < |g| => if IsFree(t[i], g[i]) then Abs(g[i]) else 0.0)
  }

  lemma FreeTotal(t: Vec, g: Vec)
    requires |t| == |g|
    ensures Sum(FreeSizes(t, g)) == FreeNorm(t, g)
  {
    var idx, sizes := FreeIndices(t, g, |g|), AbsVec(g);
    GatherSum(sizes, idx, |idx|);
    assert Gather(sizes, idx) == AbsVec(Gather(g, idx));
    forall i | 0 <= i < |g| ensures Masked(sizes, idx, |idx|)[i] == FreeSizes(t, g)[i] {
      if IsFree(t[i], g[i]) {
        assert i in idx;
        var a :| 0 <= a < |idx| && idx[a] == i;
      }
    }
    assert Masked(sizes, idx, |idx|) == FreeSizes(t, g);
  }

  /** No move within m of t to a non-negative point loses more than m times the free slopes. */
  lemma FreeSlopes(t: Vec, g: Vec, c: Vec, m: real)
    requires |t| == |g| == |c| && m >= 0.0 && NonNegative(c)
    requires forall i :: 0 <= i < |c| ==> Abs(c[i] - t[i]) <= m
    ensures Dot(g, Sub(c, t)) >= -Mul(m, FreeNorm(t, g))
  {
    var sizes := FreeSizes(t, g);
    var losses := Scale(m, sizes);
    var total := Add(losses, Had(g, Sub(c, t)));
    forall i | 0 <= i < |g| ensures total[i] >= 0.0 {
      LinearTerm(t[i], g[i], c[i], m, sizes[i]);
    }
    SumToNonNeg(total, |g|);
    SumToAdd(losses, Had(g, Sub(c, t)), |g|);
    SumToScale(m, sizes, |g|);
    FreeTotal(t, g);
  }

  /** A single free slope is no larger than all of them together. */
  lemma OneSlope(t: Vec, g: Vec, i: nat)
    requires |t| == |g| && i < |g| && IsFree(t[i], g[i])
    ensures Abs(g[i]) <= FreeNorm(t, g)
  {
    var idx := FreeIndices(t, g, |g|);
    var a :| 0 <= a < |idx| && idx[a] == i;
    TermLeSum(AbsVec(Gather(g, idx)), |idx|, a);
  }

  lemma FreeNormNonNeg(t: Vec, g: Vec)
    requires |t| == |g|
    ensures FreeNorm(t, g) >= 0.0
  {
    var free := Gather(g, FreeIndices(t, g, |g|));
    SumToNonNeg(AbsVec(free), |free|);
  }

  // ----- what the stopping test certifies

  /** How the weights change when u and v give way to u' and v'. */
  function Dropped(u: Vec, v: Vec, u': Vec, v': Vec): (e: Vec)
    requires |u| == |v| == |u'| == |v'|
  {
    Sub(Sub(u', v'), Sub(u, v))
  }

  lemma MoveSplit(g: Vec, c: Vec, t: Vec, w: Vec)
    requires |g| == |c| == |t| == |w|
    ensures Dot(g, Sub(c, w)) == Dot(g, Sub(t, w)) + Dot(g, Sub(c, t))
  {
    DotSub(g, c, w);
    DotSub(g, t, w);
    DotSub(g, c, t);
  }

  /** Two non-negative points are compared through the slopes at a third. */
  lemma ThroughThird(x: Mat, y: Vec, xx: Mat, xy: Vec, yy: real, lam: real, u: Vec, v: Vec, u': Vec, v': Vec,
                     cu: Vec, cv: Vec)
    requires Precomputed(x, y, xx, xy, yy) && |u| == |v| == |u'| == |v'| == |cu| == |cv| == |x|
    requires NonNegative(u) && NonNegative(v) && NonNegative(u') && NonNegative(v')
    requires NonNegative(cu) && NonNegative(cv)
    ensures Columns(xx, |u|)
    ensures
      var (g, h) := Slopes(xx, xy, lam, u, v);
      Value(xx, xy, yy, lam, cu, cv) >= Value(xx, xy, yy, lam, u', v') + Dot(g, Sub(cu, u')) + Dot(h, Sub(cv, v'))
        - SqNorm(Comb(x, Dropped(u, v, u', v'), |y|))
  {
    var (g, h) := Slopes(xx, xy, lam, u, v);
    Expansion(x, y, xx, xy, yy, lam, u, v, u', v');
    Expansion(x, y, xx, xy, yy, lam, u, v, cu, cv);
    MoveSplit(g, cu, u', u);
    MoveSplit(h, cv, v', v);
    SqNormNonNeg(Comb(x, Sub(Sub(cu, cv), Sub(u, v)), |y|));
  }

  /** The state in which the solver stops: slopes g at (u, v), tested for (u', v'). */
  ghost predicate Stopped(x: Mat, y: Vec, lam: real, u: Vec, v: Vec, u': Vec, v': Vec, optTol: real)
    requires Columns(x, |y|) && |u| == |v| == |u'| == |v'| == |x|
  {
    && NonNegative(u) && NonNegative(v) && NonNegative(u') && NonNegative(v')
    && var (g, h) := Slopes(Gram(x, |y|), Proj(x, y), lam, u, v);
       FreeNorm(u' + v', g + h) < optTol
  }

  /** c lies within m of the point, entry by entry. */
  ghost predicate Near(cu: Vec, cv: Vec, u: Vec, v: Vec, m: real)
    requires |cu| == |cv| == |u| == |v|
  {
    m >= 0.0 && forall i :: 0 <= i < |u| ==> Abs(cu[i] - u[i]) <= m && Abs(cv[i] - v[i]) <= m
  }

  lemma HalfMoves(g: Vec, h: Vec, cu: Vec, cv: Vec, u: Vec, v: Vec)
    requires |g| == |h| == |cu| == |cv| == |u| == |v|
    ensures Dot(g + h, Sub(cu + cv, u + v)) == Dot(g, Sub(cu, u)) + Dot(h, Sub(cv, v))
  {
    assert Sub(cu + cv, u + v) == Sub(cu, u) + Sub(cv, v);
    DotConcat(g, h, Sub(cu, u), Sub(cv, v));
  }

  lemma NearWhole(cu: Vec, cv: Vec, u: Vec, v: Vec, m: real)
    requires |cu| == |cv| == |u| == |v| && Near(cu, cv, u, v, m) && NonNegative(cu) && NonNegative(cv)
    ensures NonNegative(cu + cv)
    ensures forall i :: 0 <= i < |cu + cv| ==> Abs((cu + cv)[i] - (u + v)[i]) <= m
  {
    var p := |u|;
    forall i | 0 <= i < |cu + cv| ensures (cu + cv)[i] >= 0.0 && Abs((cu + cv)[i] - (u + v)[i]) <= m {
      if i >= p {
        assert Abs(cv[i - p] - v[i - p]) <= m;
      }
    }
  }

  /** At the stop no non-negative point within m has a value lower by more than optTol*m and
      the square of what the truncation did to X*w. */
  lemma StopValue(x: Mat, y: Vec, lam: real, u: Vec, v: Vec, u': Vec, v': Vec, optTol: real,
                  cu: Vec, cv: Vec, m: real)
    requires Columns(x, |y|) && |u| == |v| == |u'| == |v'| == |cu| == |cv| == |x|
    requires Stopped(x, y, lam, u, v, u', v', optTol)
    requires NonNegative(cu) && NonNegative(cv) && Near(cu, cv, u', v', m)
    ensures
      var xx, xy, yy := Gram(x, |y|), Proj(x, y), SqNorm(y);
      Value(xx, xy, yy, lam, cu, cv) >= Value(xx, xy, yy, lam, u', v') - Mul(optTol, m)
        - SqNorm(Comb(x, Dropped(u, v, u', v'), |y|))
  {
    var xx, xy, yy := Gram(x, |y|), Proj(x, y), SqNorm(y);
    var (g, h) := Slopes(xx, xy, lam, u, v);
    var t, c, s := u' + v', cu + cv, g + h;
    ThroughThird(x, y, xx, xy, yy, lam, u, v, u', v', cu, cv);
    HalfMoves(g, h, cu, cv, u', v');
    NearWhole(cu, cv, u', v', m);
    FreeSlopes(t, s, c, m);
    MulMono(m, FreeNorm(t, s), optTol);
  }

  /** When no weight was below the threshold, nothing is lost. */
  lemma NothingDropped(x: Mat, y: Vec, u: Vec, v: Vec)
    requires Columns(x, |y|) && |u| == |v| == |x|
    ensures SqNorm(Comb(x, Dropped(u, v, u, v), |y|)) == 0.0
    ensures forall j :: 0 <= j < |x| ==> Dot(Gram(x, |y|)[j], Dropped(u, v, u, v)) == 0.0
  {
    var w := Sub(u, v);
    CombSub(x, w, w, |y|);
    assert Comb(x, Sub(w, w), |y|) == Zero(|y|);
    SqNormNonNeg(Zero(|y|));
    forall j | 0 <= j < |x| ensures Dot(Gram(x, |y|)[j], Dropped(u, v, u, v)) == 0.0 {
      DotSub(Gram(x, |y|)[j], w, w);
    }
  }

  /** c is not better than the weights u - v by more than optTol*m/2 and half the loss. */
  ghost predicate HoldsAgainst(x: Mat, y: Vec, lam: real, u: Vec, v: Vec, optTol: real, loss: real, c: Vec, m: real)
    requires Columns(x, |y|) && |u| == |v| == |c| == |x|
  {
    2.0 * Objective(x, y, Half(lam), c) >= 2.0 * Objective(x, y, Half(lam), Sub(u, v)) - Mul(optTol, m) - loss
  }

  /** So the weights returned are that close to the best Lasso objective, against any weights. */
  lemma StopIsNearBest(x: Mat, y: Vec, lam: real, u: Vec, v: Vec, u': Vec, v': Vec, optTol: real, c: Vec, m: real)
    requires Columns(x, |y|) && |u| == |v| == |u'| == |v'| == |c| == |x| && lam >= 0.0
    requires Stopped(x, y, lam, u, v, u', v', optTol) && Near(Plus(c), Minus(c), u', v', m)
    ensures HoldsAgainst(x, y, lam, u', v', optTol, SqNorm(Comb(x, Dropped(u, v, u', v'), |y|)), c, m)
  {
    var xx, xy, yy := Gram(x, |y|), Proj(x, y), SqNorm(y);
    StopValue(x, y, lam, u, v, u', v', optTol, Plus(c), Minus(c), m);
    ValueAtParts(x, y, xx, xy, yy, lam, c);
    ValueAbove(x, y, xx, xy, yy, lam, u', v');
  }

  /** One variable's violation, d0 being its gradient where the slopes were taken and d at the
      weights returned. */
  lemma ViolationAtStop(b: real, up: real, vp: real, d: real, d0: real, q: real, lam: real, optTol: real)
    requires up >= 0.0 && vp >= 0.0 && b == up - vp && d == d0 + q && optTol >= 0.0
    requires IsFree(up, 2.0 * d0 + lam) ==> Abs(2.0 * d0 + lam) <= optTol
    requires IsFree(vp, -2.0 * d0 + lam) ==> Abs(-2.0 * d0 + lam) <= optTol
    ensures 2.0 * Violation(b, d, Half(lam)) <= optTol + 2.0 * Abs(q)
  {
  }

  /** The test bounds the free slopes of both halves. */
  lemma HalvesBounded(u: Vec, v: Vec, g: Vec, h: Vec, optTol: real, j: nat)
    requires |u| == |v| == |g| == |h| && j < |u| && FreeNorm(u + v, g + h) < optTol
    ensures optTol >= 0.0
    ensures IsFree(u[j], g[j]) ==> Abs(g[j]) <= optTol
    ensures IsFree(v[j], h[j]) ==> Abs(h[j]) <= optTol
  {
    var t, s, k := u + v, g + h, |u| + j;
    FreeNormNonNeg(t, s);
    assert t[j] == u[j] && s[j] == g[j] && t[k] == v[j] && s[k] == h[j];
    if IsFree(u[j], g[j]) { OneSlope(t, s, j); }
    if IsFree(v[j], h[j]) { OneSlope(t, s, k); }
  }

  lemma StopSlopes(x: Mat, y: Vec, lam: real, u: Vec, v: Vec, u': Vec, v': Vec, optTol: real, j: nat, d0: real)
    requires Columns(x, |y|) && |u| == |v| == |u'| == |v'| == |x| && j < |x|
    requires Stopped(x, y, lam, u, v, u', v', optTol) && d0 == Gradient(x, y, Sub(u, v))[j]
    ensures optTol >= 0.0
    ensures IsFree(u'[j], 2.0 * d0 + lam) ==> Abs(2.0 * d0 + lam) <= optTol
    ensures IsFree(v'[j], -2.0 * d0 + lam) ==> Abs(-2.0 * d0 + lam) <= optTol
  {
    var (g, h) := Slopes(Gram(x, |y|), Proj(x, y), lam, u, v);
    SlopesAre(x, y, Gram(x, |y|), Proj(x, y), lam, u, v);
    TwoFold(d0, lam, g[j], h[j]);
    HalvesBounded(u', v', g, h, optTol, j);
  }

  /** At the stop each optimality condition of the Lasso holds up to half of optTol and the
      cross terms of that variable times what the truncation changed. */
  lemma StopViolation(x: Mat, y: Vec, lam: real, u: Vec, v: Vec, u': Vec, v': Vec, optTol: real, j: nat)
    requires Columns(x, |y|) && |u| == |v| == |u'| == |v'| == |x| && j < |x|
    requires Stopped(x, y, lam, u, v, u', v', optTol)
    ensures 2.0 * Violation(Sub(u', v')[j], Gradient(x, y, Sub(u', v'))[j], Half(lam))
         <= optTol + 2.0 * Abs(Dot(Gram(x, |y|)[j], Dropped(u, v, u', v')))
  {
    var row, w, b := Gram(x, |y|)[j], Sub(u, v), Sub(u', v');
    var d0 := Gradient(x, y, w)[j];
    StopSlopes(x, y, lam, u, v, u', v', optTol, j, d0);
    GradientFromGram(x, y, w, j);
    GradientFromGram(x, y, b, j);
    DotSub(row, b, w);
    ViolationAtStop(b[j], u'[j], v'[j], Gradient(x, y, b)[j], d0, Dot(row, Sub(b, w)), lam, optTol);
  }

  lemma TwoFold(d: real, lam: real, g: real, h: real)
    requires g == Mul(2.0, d) + lam && h == Mul(-2.0, d) + lam
    ensures g == 2.0 * d + lam && h == -2.0 * d + lam
  {
  }

  /** So no weights are better by more than tau per unit of distance, for any tau that is twice
      over at least every variable's bound. */
  lemma StopCertifies(x: Mat, y: Vec, lam: real, u: Vec, v: Vec, u': Vec, v': Vec, optTol: real, tau: real)
    requires Columns(x, |y|) && |u| == |v| == |u'| == |v'| == |x| && lam >= 0.0 && tau >= 0.0
    requires Stopped(x, y, lam, u, v, u', v', optTol)
    requires forall j :: 0 <= j < |x| ==>
      optTol + 2.0 * Abs(Dot(Gram(x, |y|)[j], Dropped(u, v, u', v'))) <= 2.0 * tau
    ensures Certified(x, y, Half(lam), Sub(u', v'), tau)
  {
    forall j | 0 <= j < |x| ensures Violation(Sub(u', v')[j], Gradient(x, y, Sub(u', v'))[j], Half(lam)) <= tau {
      StopViolation(x, y, lam, u, v, u', v', optTol, j);
    }
    CertificateIff(x, y, Half(lam), Sub(u', v'), tau);
  }

  // ----- the stop is not a test of the weights it returns

  /** The only entries of the two slopes are g and h. */
  ghost predicate HasSlopes(x: Mat, y: Vec, lam: real, u: Vec, v: Vec, g: real, h: real)
    requires OneByOne(x, y) && |u| == |v| == 1
  {
    var s := Slopes(Gram(x, 1), Proj(x, y), lam, u, v);
    s.0[0] == g && s.1[0] == h
  }

  lemma OneSlopes(x: Mat, y: Vec, lam: real, u: Vec, v: Vec)
    requires OneByOne(x, y) && |u| == |v| == 1 && NonNegative(u) && v[0] == 0.0
    ensures HasSlopes(x, y, lam, u, v, 2.0 * (u[0] - y[0]) + lam, -2.0 * (u[0] - y[0]) + lam)
  {
    var w := Sub(Plus(u), Plus(v));
    assert w[0] == u[0];
    OneGradient(x, y, w);
  }

  /** The only weight of w is r. */
  predicate Lone(w: Vec, r: real) {
    |w| == 1 && w[0] == r
  }

  lemma Truncated(u: Vec, zero: Vec)
    requires Lone(u, 0.00005) && Lone(zero, 0.0)
    ensures Truncate(u, 0.0001) == Truncate(zero, 0.0001) == zero
  {
  }

  lemma NothingFree(t: Vec, g: Vec)
    requires |t| == |g| && forall i :: 0 <= i < |t| ==> t[i] == 0.0 && g[i] >= 0.0
    ensures FreeNorm(t, g) == 0.0
  {
    FreeTotal(t, g);
    SumToZero(FreeSizes(t, g), |g|);
  }

  lemma OneStop(x: Mat, y: Vec, u: Vec, zero: Vec)
    requires OneByOne(x, y) && y[0] == 0.50005 && Lone(u, 0.00005) && Lone(zero, 0.0)
    ensures Stopped(x, y, 1.0, u, zero, zero, zero, 0.00001)
  {
    OneSlopes(x, y, 1.0, u, zero);
    var s := Slopes(Gram(x, 1), Proj(x, y), 1.0, u, zero);
    NothingFree(zero + zero, s.0 + s.1);
  }

  /** One column, X = [1], y = 0.50005, lambda = 1: the start solves the ridge system, and its
      only free variable has slope 0.49995 and curvature 2, so that a full step leads to 0.00005. */
  lemma MissStart(x: Mat, y: Vec, start: Vec, u: Vec, zero: Vec)
    requires OneByOne(x, y) && y[0] == 0.50005
    requires Lone(start, 0.250025) && Lone(u, 0.00005) && Lone(zero, 0.0)
    ensures (Gram(x, 1)[0][0] + 1.0) * start[0] == Proj(x, y)[0]
    ensures HasSlopes(x, y, 1.0, start, zero, 0.49995, 1.50005)
    ensures IsFree(start[0], 0.49995) && !IsFree(zero[0], 1.50005)
    ensures 2.0 * Gram(x, 1)[0][0] * (u[0] - start[0]) == -0.49995
  {
    OneGradient(x, y, u);
    OneSlopes(x, y, 1.0, start, zero);
  }

  /** There the weight is the minimiser; but with the default threshold it is set to zero, with
      the default tolerance the test passes, and zero is no minimiser. */
  lemma StopMisses(x: Mat, y: Vec, u: Vec, zero: Vec)
    requires OneByOne(x, y) && y[0] == 0.50005 && Lone(u, 0.00005) && Lone(zero, 0.0)
    ensures Truncate(u, 0.0001) == Truncate(zero, 0.0001) == zero
    ensures Stopped(x, y, 1.0, u, zero, zero, zero, 0.00001)
    ensures IsMinimiser(x, y, Half(1.0), u) && !IsMinimiser(x, y, Half(1.0), zero)
  {
    Truncated(u, zero);
    OneStop(x, y, u, zero);
    SmallMinimiser(x, y, Half(1.0), u);
    SmallMinimiser(x, y, Half(1.0), zero);
  }

  // ----- the loop

  /** 2*[XX -XX; -XX XX] */
  function Hessian(xx: Mat): (h: Mat)
    requires IsSquare(xx, |xx|)
    ensures IsSquare(h, 2 * |xx|)
  {
    var p := |xx|;
    seq(2 * p, i requires 0 <= i < 2 * p =>
      if i < p then Scale(2.0, xx[i]) + Scale(-2.0, xx[i]) else Scale(-2.0, xx[i - p]) + Scale(2.0, xx[i - p]))
  }

  lemma HessianRow(row: Vec, a: Vec, b: Vec, k: real)
    requires |a| == |b| == |row|
    ensures Dot(Scale(k, row) + Scale(-k, row), a + b) == Mul(k, Dot(row, Sub(a, b)))
  {
    DotConcat(Scale(k, row), Scale(-k, row), a, b);
    DotSym(Scale(k, row), a);
    DotSym(Scale(-k, row), b);
    DotScale(a, k, row);
    DotScale(b, -k, row);
    DotSym(a, row);
    DotSym(b, row);
    DotSub(row, a, b);
    Distribute(k, Dot(row, a), -Dot(row, b));
    NegatedProduct(Dot(row, b), k, -k);
    NegatedProduct(k, Dot(row, b), -Dot(row, b));
  }

  lemma SlopeChange(row: Vec, q: real, lam: real, w: Vec, w': Vec, a: Vec, b: Vec, k: real)
    requires |row| == |w| == |w'| == |a| == |b| && Sub(w', w) == Sub(a, b)
    ensures Dot(Scale(k, row) + Scale(-k, row), a + b)
         == (Mul(k, Dot(row, w') - q) + lam) - (Mul(k, Dot(row, w) - q) + lam)
  {
    HessianRow(row, a, b, k);
    DotSub(row, w', w);
    DistributeSub(k, Dot(row, w') - q, Dot(row, w) - q, Dot(row, Sub(a, b)));
  }

  lemma SlopeAt(xx: Mat, xy: Vec, lam: real, u: Vec, v: Vec, j: nat)
    requires |u| == |v| == |xx| == |xy| && IsSquare(xx, |xx|) && NonNegative(u) && NonNegative(v) && j < |xx|
    ensures Slopes(xx, xy, lam, u, v).0[j] == Mul(2.0, Dot(xx[j], Sub(u, v)) - xy[j]) + lam
    ensures Slopes(xx, xy, lam, u, v).1[j] == Mul(-2.0, Dot(xx[j], Sub(u, v)) - xy[j]) + lam
  {
    PlusOf(u);
    PlusOf(v);
  }

  /** The Hessian is exact: times a move between non-negative points it is the change of the
      slopes. */
  lemma HessianExact(xx: Mat, xy: Vec, lam: real, u: Vec, v: Vec, u': Vec, v': Vec)
    requires |u| == |v| == |u'| == |v'| == |xx| == |xy| && IsSquare(xx, |xx|)
    requires NonNegative(u) && NonNegative(v) && NonNegative(u') && NonNegative(v')
    ensures
      var (g, h), (g', h') := Slopes(xx, xy, lam, u, v), Slopes(xx, xy, lam, u', v');
      Proj(Hessian(xx), Sub(u', u) + Sub(v', v)) == Sub(g' + h', g + h)
  {
    var p, a, b, w, w' := |xx|, Sub(u', u), Sub(v', v), Sub(u, v), Sub(u', v');
    var change := Sub(Slopes(xx, xy, lam, u', v').0 + Slopes(xx, xy, lam, u', v').1,
                      Slopes(xx, xy, lam, u, v).0 + Slopes(xx, xy, lam, u, v).1);
    assert Sub(w', w) == Sub(a, b);
    forall i | 0 <= i < 2 * p ensures Proj(Hessian(xx), a + b)[i] == change[i] {
      var j := if i < p then i else i - p;
      SlopeAt(xx, xy, lam, u, v, j);
      SlopeAt(xx, xy, lam, u', v', j);
      SlopeChange(xx[j], xy[j], lam, w, w', a, b, if i < p then 2.0 else -2.0);
    }
  }

  lemma ClipTwice(u: Vec)
    ensures Plus(Plus(u)) == Plus(u)
  {
  }

  lemma TruncateHalves(u: Vec, v: Vec, threshold: real)
    requires NonNegative(u) && NonNegative(v)
    ensures Truncate(u + v, threshold) == Truncate(u, threshold) + Truncate(v, threshold)
    ensures NonNegative(Truncate(u, threshold)) && NonNegative(Truncate(v, threshold))
  {
  }

  datatype Exit = SolutionFound | StepTooSmall | IterationLimit | SearchUnfinished

  /** The optimality conditions at u - v, up to what the test allows. */
  ghost predicate NearlyOptimal(x: Mat, y: Vec, lam: real, u0: Vec, v0: Vec, u: Vec, v: Vec, optTol: real)
    requires Columns(x, |y|) && |u0| == |v0| == |u| == |v| == |x|
  {
    forall j :: 0 <= j < |x| ==>
      2.0 * Violation(Sub(u, v)[j], Gradient(x, y, Sub(u, v))[j], Half(lam))
        <= optTol + 2.0 * Abs(Dot(Gram(x, |y|)[j], Dropped(u0, v0, u, v)))
  }

  /** u - v against all other weights. */
  ghost predicate NearBest(x: Mat, y: Vec, lam: real, u: Vec, v: Vec, optTol: real, loss: real)
    requires Columns(x, |y|) && |u| == |v| == |x|
  {
    forall c: Vec, m: real {:trigger Near(Plus(c), Minus(c), u, v, m)} ::
      |c| == |x| && Near(Plus(c), Minus(c), u, v, m) ==> HoldsAgainst(x, y, lam, u, v, optTol, loss, c, m)
  }

  lemma StopMeans(x: Mat, y: Vec, lam: real, u0: Vec, v0: Vec, u: Vec, v: Vec, optTol: real)
    requires Columns(x, |y|) && |u0| == |v0| == |u| == |v| == |x| && lam >= 0.0
    requires Stopped(x, y, lam, u0, v0, u, v, optTol)
    ensures NearlyOptimal(x, y, lam, u0, v0, u, v, optTol)
    ensures NearBest(x, y, lam, u, v, optTol, SqNorm(Comb(x, Dropped(u0, v0, u, v), |y|)))
  {
    forall j | 0 <= j < |x|
      ensures 2.0 * Violation(Sub(u, v)[j], Gradient(x, y, Sub(u, v))[j], Half(lam))
           <= optTol + 2.0 * Abs(Dot(Gram(x, |y|)[j], Dropped(u0, v0, u, v)))
    {
      StopViolation(x, y, lam, u0, v0, u, v, optTol, j);
    }
    forall c: Vec, m: real | |c| == |x| && Near(Plus(c), Minus(c), u, v, m)
      ensures HoldsAgainst(x, y, lam, u, v, optTol, SqNorm(Comb(x, Dropped(u0, v0, u, v), |y|)), c, m)
    {
      StopIsNearBest(x, y, lam, u0, v0, u, v, optTol, c, m);
    }
  }

  /** f_td <= f + 1e-4*t*gtd */
  predicate Accepted(after: real, before: real, t: real, slope: real) {
    after <= before + 0.0001 * t * slope
  }

  lemma StepFalls(after: real, before: real, t: real, slope: real)
    requires Accepted(after, before, t, slope) && t >= 0.0 && slope < 0.0
    ensures after <= before && (t > 0.0 ==> after < before)
  {
    if t > 0.0 {
      MulPos(t, -slope);
      assert 0.0001 * t * slope == -0.0001 * Mul(t, -slope);
    }
  }

  // ----- runs of any kind

  /** Points and the moves between them, each allowed by `step`. */
  ghost predicate Chain<S(!new), M(!new)>(step: (nat, S, M, S) -> bool, points: seq<S>, moves: seq<M>) {
    && |points| == |moves| + 1
    && forall i {:trigger moves[i]} :: 0 <= i < |moves| ==> step(i, points[i], moves[i], points[i + 1])
  }

  lemma ChainMore<S(!new), M(!new)>(step: (nat, S, M, S) -> bool, points: seq<S>, moves: seq<M>, move: M, p: S)
    requires Chain(step, points, moves) && step(|moves|, points[|moves|], move, p)
    ensures Chain(step, points + [p], moves + [move])
  {
  }

  // ----- points, and what leads from one to the next

  /** The two halves of the weights. */
  datatype Point = Point(u: Vec, v: Vec)

  /** A direction, the length taken along it, and how many lengths were refused before. */
  datatype Move = Move(d: Vec, t: real, refused: nat)

  /** The options, the bounds that the factorisations compute, and the lengths that the cubic
      interpolation yields, by iteration; after `budget` of them a search is given up. */
  datatype Settings = Settings(threshold: real, optTol: real, betas: nat -> real, retries: nat -> real,
                               tries: (nat, nat) -> real, budget: nat)

  ghost predicate Usable(o: Settings) {
    o.optTol > 0.0 && forall i: nat :: o.betas(i) > 0.0 && o.retries(i) > 0.0
  }

  ghost predicate IsPoint(x: Mat, p: Point) {
    |p.u| == |p.v| == |x| && NonNegative(p.u) && NonNegative(p.v)
  }

  /** The value of LassoObj on the problem's own data. */
  function ValueOf(x: Mat, y: Vec, lam: real, u: Vec, v: Vec): real
    requires Columns(x, |y|) && |u| == |v| == |x|
  {
    Value(Gram(x, |y|), Proj(x, y), SqNorm(y), lam, u, v)
  }

  /** The slopes that LassoObj returns at a point, both halves in one. */
  function SlopesAt(x: Mat, y: Vec, lam: real, p: Point): (g: Vec)
    requires Columns(x, |y|) && |p.u| == |p.v| == |x|
    ensures |g| == 2 * |x|
  {
    var s := Slopes(Gram(x, |y|), Proj(x, y), lam, p.u, p.v);
    s.0 + s.1
  }

  /** The point with its small weights set to zero. */
  function Cut(p: Point, threshold: real): Point {
    Point(Truncate(p.u, threshold), Truncate(p.v, threshold))
  }

  /** The test "Solution Found": slopes from before the truncation, weights from after it. */
  ghost predicate TestPasses(x: Mat, y: Vec, lam: real, o: Settings, p: Point)
    requires Columns(x, |y|) && |p.u| == |p.v| == |x|
  {
    FreeNorm(Cut(p, o.threshold).u + Cut(p, o.threshold).v, SlopesAt(x, y, lam, p)) < o.optTol
  }

  ghost function FreeAt(x: Mat, y: Vec, lam: real, o: Settings, p: Point): (idx: seq<nat>)
    requires Columns(x, |y|) && |p.u| == |p.v| == |x|
    ensures forall i :: 0 <= i < |idx| ==> idx[i] < 2 * |x|
    ensures forall i, j :: 0 <= i < j < |idx| ==> idx[i] != idx[j]
  {
    FreeIndices(Cut(p, o.threshold).u + Cut(p, o.threshold).v, SlopesAt(x, y, lam, p), 2 * |x|)
  }

  /** The directions that iteration i may take from p. */
  ghost function DirectionsAt(x: Mat, y: Vec, lam: real, o: Settings, i: nat, p: Point): iset<Vec>
    requires Columns(x, |y|) && |p.u| == |p.v| == |x| && Usable(o)
  {
    iset d: Vec | |d| == 2 * |x| && IsChosen(Hessian(Gram(x, |y|)), SlopesAt(x, y, lam, p), FreeAt(x, y, lam, o, p),
                                             o.betas(i), o.retries(i), d)
  }

  /** q + t*d, clipped at zero. */
  function Stepped(q: Point, d: Vec, t: real): Point
    requires |q.u| == |q.v| && |d| == 2 * |q.u|
  {
    Point(Plus(Add(q.u, Scale(t, d[..|q.u|]))), Plus(Add(q.v, Scale(t, d[|q.u|..]))))
  }

  /** The k-th length tried in iteration i: the full step first. */
  function Tried(o: Settings, i: nat, k: nat): real {
    if k == 0 then 1.0 else o.tries(i, k - 1)
  }

  /** The value at q + t*d, clipped. */
  function ValueAlong(x: Mat, y: Vec, lam: real, q: Point, d: Vec, t: real): real
    requires Columns(x, |y|) && |q.u| == |q.v| == |x| && |d| == 2 * |x|
  {
    ValueOf(x, y, lam, Stepped(q, d, t).u, Stepped(q, d, t).v)
  }

  /** The k-th length tried from q along d meets the Armijo condition against value f. */
  ghost predicate Suits(x: Mat, y: Vec, lam: real, o: Settings, i: nat, q: Point, d: Vec, f: real, slope: real, k: nat)
    requires Columns(x, |y|) && |q.u| == |q.v| == |x| && |d| == 2 * |x|
  {
    Accepted(ValueAlong(x, y, lam, q, d, Tried(o, i, k)), f, Tried(o, i, k), slope)
  }

  /** All the lengths before the k-th are refused. */
  ghost predicate Refused(x: Mat, y: Vec, lam: real, o: Settings, i: nat, q: Point, d: Vec, f: real, slope: real,
                          k: nat)
    requires Columns(x, |y|) && |q.u| == |q.v| == |x| && |d| == 2 * |x|
  {
    forall j: nat :: j < k ==> !Suits(x, y, lam, o, i, q, d, f, slope, j)
  }

  lemma SameValue(xx: Mat, xy: Vec, yy: real, lam: real, mu: Vec, mv: Vec)
    requires |mu| == |mv| == |xx| == |xy| && Columns(xx, |mu|)
    ensures Value(xx, xy, yy, lam, Plus(mu), Plus(mv)) == Value(xx, xy, yy, lam, mu, mv)
    ensures Slopes(xx, xy, lam, Plus(mu), Plus(mv)) == Slopes(xx, xy, lam, mu, mv)
  {
    ClipTwice(mu);
    ClipTwice(mv);
  }

  /** The value at q + t*d, which LassoObj clips by itself. */
  method Probe(x: Mat, y: Vec, lam: real, q: Point, d: Vec, t: real) returns (after: real)
    requires Columns(x, |y|) && |q.u| == |q.v| == |x| && |d| == 2 * |x|
    ensures after == ValueAlong(x, y, lam, q, d, t)
  {
    var mu, mv := Add(q.u, Scale(t, d[..|x|])), Add(q.v, Scale(t, d[|x|..]));
    SameValue(Gram(x, |y|), Proj(x, y), SqNorm(y), lam, mu, mv);
    after := ValueOf(x, y, lam, mu, mv);
  }

  /** The line search: the full step first, then the lengths that `tries` stands for, until one is
      accepted or the budget is spent. */
  method LineSearch(x: Mat, y: Vec, lam: real, o: Settings, i: nat, q: Point, d: Vec, f: real, slope: real)
    returns (ok: bool, t: real, after: real, k: nat)
    requires Columns(x, |y|) && |q.u| == |q.v| == |x| && |d| == 2 * |x|
    ensures k <= o.budget && t == Tried(o, i, k) && Refused(x, y, lam, o, i, q, d, f, slope, k)
    ensures after == ValueAlong(x, y, lam, q, d, t)
    ensures ok <==> Suits(x, y, lam, o, i, q, d, f, slope, k)
    ensures !ok ==> k == o.budget
  {
    k, t := 0, 1.0;
    after := Probe(x, y, lam, q, d, t);
    while !Accepted(after, f, t, slope) && k < o.budget
      invariant k <= o.budget && t == Tried(o, i, k)
      invariant after == ValueAlong(x, y, lam, q, d, t)
      invariant Refused(x, y, lam, o, i, q, d, f, slope, k)
    {
      t, k := o.tries(i, k), k + 1;
      after := Probe(x, y, lam, q, d, t);
    }
    ok := Accepted(after, f, t, slope);
  }

  // ----- the loop, as a run of points

  /** gtd: the slope along d at p. */
  function SlopeAlong(x: Mat, y: Vec, lam: real, p: Point, d: Vec): real
    requires Columns(x, |y|) && |p.u| == |p.v| == |x| && |d| == 2 * |x|
  {
    Dot(SlopesAt(x, y, lam, p), d)
  }

  /** Iteration i goes from p to p': the test fails, the direction is one it may take, the length
      is the first of those tried that meets the Armijo condition, and p' is the clipped sum. */
  ghost predicate StepAt(x: Mat, y: Vec, lam: real, o: Settings, i: nat, p: Point, move: Move, p': Point)
    requires Columns(x, |y|) && Usable(o)
  {
    && IsPoint(x, p) && IsPoint(x, p')
    && !TestPasses(x, y, lam, o, p)
    && |move.d| == 2 * |x| && move.d in DirectionsAt(x, y, lam, o, i, p)
    && FirstSuits(x, y, lam, o, i, p, move)
    && p' == Stepped(Cut(p, o.threshold), move.d, move.t)
  }

  ghost predicate FirstSuits(x: Mat, y: Vec, lam: real, o: Settings, i: nat, p: Point, move: Move)
    requires Columns(x, |y|) && |p.u| == |p.v| == |x| && |move.d| == 2 * |x|
  {
    var q, f, slope := Cut(p, o.threshold), ValueOf(x, y, lam, p.u, p.v), SlopeAlong(x, y, lam, p, move.d);
    && move.refused <= o.budget && move.t == Tried(o, i, move.refused)
    && Refused(x, y, lam, o, i, q, move.d, f, slope, move.refused)
    && Suits(x, y, lam, o, i, q, move.d, f, slope, move.refused)
  }

  /** The moves a loop may make. */
  ghost function Steps(x: Mat, y: Vec, lam: real, o: Settings): (nat, Point, Move, Point) -> bool
    requires Columns(x, |y|) && Usable(o)
  {
    (i: nat, p: Point, move: Move, p': Point) => StepAt(x, y, lam, o, i, p, move, p')
  }

  /** Iteration i cannot leave p: the test fails, and every length tried is refused. */
  ghost predicate SearchFails(x: Mat, y: Vec, lam: real, o: Settings, i: nat, p: Point)
    requires Columns(x, |y|) && IsPoint(x, p) && Usable(o)
  {
    && !TestPasses(x, y, lam, o, p)
    && exists d :: |d| == 2 * |x| && d in DirectionsAt(x, y, lam, o, i, p) && NoneSuits(x, y, lam, o, i, p, d)
  }

  ghost predicate NoneSuits(x: Mat, y: Vec, lam: real, o: Settings, i: nat, p: Point, d: Vec)
    requires Columns(x, |y|) && |p.u| == |p.v| == |x| && |d| == 2 * |x|
  {
    Refused(x, y, lam, o, i, Cut(p, o.threshold), d, ValueOf(x, y, lam, p.u, p.v), SlopeAlong(x, y, lam, p, d),
            o.budget + 1)
  }

  /** sum(abs(t*d)) < optTol */
  ghost predicate IsShort(o: Settings, move: Move) {
    Norm1(Scale(move.t, move.d)) < o.optTol
  }

  ghost predicate OnlyLastShort(o: Settings, moves: seq<Move>) {
    forall i :: 0 <= i < |moves| - 1 ==> !IsShort(o, moves[i])
  }

  lemma OnlyLastMore(o: Settings, moves: seq<Move>, move: Move)
    requires OnlyLastShort(o, moves) && (|moves| > 0 ==> !IsShort(o, moves[|moves| - 1]))
    ensures OnlyLastShort(o, moves + [move])
  {
    forall i | 0 <= i < |moves| ensures !IsShort(o, (moves + [move])[i]) {
      assert (moves + [move])[i] == moves[i];
    }
  }

  /** The points visited from the parts of b0 and the moves between them; only the last move may
      be short. */
  ghost predicate IsRun(x: Mat, y: Vec, lam: real, o: Settings, b0: Vec, points: seq<Point>, moves: seq<Move>)
    requires Columns(x, |y|) && |b0| == |x| && Usable(o)
  {
    && Chain(Steps(x, y, lam, o), points, moves) && points[0] == Point(Plus(b0), Minus(b0))
    && OnlyLastShort(o, moves)
  }

  /** Why a run of so many moves ends at p, and with what weights. */
  ghost predicate EndsWith(x: Mat, y: Vec, lam: real, o: Settings, maxIter: nat, moves: seq<Move>, p: Point, exit: Exit,
                           w: Point)
    requires Columns(x, |y|) && IsPoint(x, p) && Usable(o)
  {
    var n := |moves|;
    match exit
    case SolutionFound =>
      n <= maxIter && (n > 0 ==> !IsShort(o, moves[n - 1])) && TestPasses(x, y, lam, o, p) && w == Cut(p, o.threshold)
    case StepTooSmall =>
      0 < n <= maxIter + 1 && IsShort(o, moves[n - 1]) && w == p
    case IterationLimit =>
      n == maxIter + 1 && !IsShort(o, moves[n - 1]) && w == p
    case SearchUnfinished =>
      n <= maxIter && (n > 0 ==> !IsShort(o, moves[n - 1])) && SearchFails(x, y, lam, o, n, p)
        && w == Cut(p, o.threshold)
  }

  /** What a step says of its direction and its length. */
  lemma StepParts(x: Mat, y: Vec, lam: real, o: Settings, i: nat, p: Point, move: Move, p': Point)
    requires Columns(x, |y|) && Usable(o) && Steps(x, y, lam, o)(i, p, move, p')
    ensures IsPoint(x, p) && IsPoint(x, p') && |move.d| == 2 * |x|
    ensures move.d in DirectionsAt(x, y, lam, o, i, p)
    ensures Norm1(Gather(SlopesAt(x, y, lam, p), FreeAt(x, y, lam, o, p))) >= o.optTol
    ensures Accepted(ValueOf(x, y, lam, p'.u, p'.v), ValueOf(x, y, lam, p.u, p.v), move.t,
                     SlopeAlong(x, y, lam, p, move.d))
  {
  }

  /** The directions of a run go strictly downhill. */
  lemma DirectionDescends(x: Mat, y: Vec, lam: real, o: Settings, i: nat, p: Point, d: Vec)
    requires Columns(x, |y|) && Usable(o) && |p.u| == |p.v| == |x| && |d| == 2 * |x|
    requires d in DirectionsAt(x, y, lam, o, i, p)
    requires Norm1(Gather(SlopesAt(x, y, lam, p), FreeAt(x, y, lam, o, p))) >= o.optTol
    ensures SlopeAlong(x, y, lam, p, d) < 0.0
  {
    ChosenDescends(Hessian(Gram(x, |y|)), SlopesAt(x, y, lam, p), FreeAt(x, y, lam, o, p), o.betas(i), o.retries(i), d);
  }

  lemma StepDescends(x: Mat, y: Vec, lam: real, o: Settings, i: nat, p: Point, move: Move, p': Point)
    requires Columns(x, |y|) && Usable(o) && Steps(x, y, lam, o)(i, p, move, p') && move.t >= 0.0
    ensures IsPoint(x, p) && IsPoint(x, p')
    ensures ValueOf(x, y, lam, p'.u, p'.v) <= ValueOf(x, y, lam, p.u, p.v)
    ensures move.t > 0.0 ==> ValueOf(x, y, lam, p'.u, p'.v) < ValueOf(x, y, lam, p.u, p.v)
  {
    StepParts(x, y, lam, o, i, p, move, p');
    DirectionDescends(x, y, lam, o, i, p, move.d);
    StepFalls(ValueOf(x, y, lam, p'.u, p'.v), ValueOf(x, y, lam, p.u, p.v), move.t, SlopeAlong(x, y, lam, p, move.d));
  }

  lemma RunStep(x: Mat, y: Vec, lam: real, o: Settings, b0: Vec, points: seq<Point>, moves: seq<Move>, i: nat)
    requires Columns(x, |y|) && |b0| == |x| && Usable(o) && IsRun(x, y, lam, o, b0, points, moves) && i < |moves|
    ensures Steps(x, y, lam, o)(i, points[i], moves[i], points[i + 1])
    ensures IsPoint(x, points[i]) && IsPoint(x, points[i + 1])
  {
    assert moves[i] == moves[i];
  }

  lemma {:induction false} FallAlong(values: seq<real>, lengths: seq<real>, k: nat)
    requires |values| == |lengths| + 1 && k < |values|
    requires forall i :: 0 <= i < k ==>
      values[i + 1] <= values[i] && (lengths[i] > 0.0 ==> values[i + 1] < values[i])
    ensures values[k] <= values[0]
    ensures (exists i :: 0 <= i < k && lengths[i] > 0.0) ==> values[k] < values[0]
  {
    if k > 0 { FallAlong(values, lengths, k - 1); }
  }

  ghost predicate ArePoints(x: Mat, points: seq<Point>) {
    forall i :: 0 <= i < |points| ==> IsPoint(x, points[i])
  }

  /** The values before the truncations, along a run. */
  ghost function ValuesOf(x: Mat, y: Vec, lam: real, points: seq<Point>): (r: seq<real>)
    requires Columns(x, |y|) && ArePoints(x, points)
    ensures |r| == |points|
  {
    seq(|points|, i requires 0 <= i < |points| => ValueOf(x, y, lam, points[i].u, points[i].v))
  }

  ghost function LengthsOf(moves: seq<Move>): (r: seq<real>)
    ensures |r| == |moves|
  {
    seq(|moves|, i requires 0 <= i < |moves| => moves[i].t)
  }

  lemma RunPoints(x: Mat, y: Vec, lam: real, o: Settings, b0: Vec, points: seq<Point>, moves: seq<Move>)
    requires Columns(x, |y|) && |b0| == |x| && Usable(o) && IsRun(x, y, lam, o, b0, points, moves)
    ensures ArePoints(x, points)
  {
    forall k | 0 <= k < |points| ensures IsPoint(x, points[k]) {
      if k > 0 { RunStep(x, y, lam, o, b0, points, moves, k - 1); }
    }
  }

  lemma RunDescends(x: Mat, y: Vec, lam: real, o: Settings, b0: Vec, points: seq<Point>, moves: seq<Move>, i: nat)
    requires Columns(x, |y|) && |b0| == |x| && Usable(o) && IsRun(x, y, lam, o, b0, points, moves) && i < |moves|
    requires ArePoints(x, points) && moves[i].t >= 0.0
    ensures ValuesOf(x, y, lam, points)[i + 1] <= ValuesOf(x, y, lam, points)[i]
    ensures moves[i].t > 0.0 ==> ValuesOf(x, y, lam, points)[i + 1] < ValuesOf(x, y, lam, points)[i]
  {
    RunStep(x, y, lam, o, b0, points, moves, i);
    StepDescends(x, y, lam, o, i, points[i], moves[i], points[i + 1]);
  }

  /** With no negative step length the values before the truncations never rise along a run, and
      fall where the length is positive. */
  lemma ValuesFall(x: Mat, y: Vec, lam: real, o: Settings, b0: Vec, points: seq<Point>, moves: seq<Move>, k: nat)
    requires Columns(x, |y|) && |b0| == |x| && Usable(o) && IsRun(x, y, lam, o, b0, points, moves) && k < |points|
    requires forall i :: 0 <= i < k ==> moves[i].t >= 0.0
    ensures ArePoints(x, points)
    ensures ValuesOf(x, y, lam, points)[k] <= ValuesOf(x, y, lam, points)[0]
    ensures (exists i :: 0 <= i < k && moves[i].t > 0.0) ==>
      ValuesOf(x, y, lam, points)[k] < ValuesOf(x, y, lam, points)[0]
  {
    RunPoints(x, y, lam, o, b0, points, moves);
    var values, lengths := ValuesOf(x, y, lam, points), LengthsOf(moves);
    forall i | 0 <= i < k ensures values[i + 1] <= values[i] && (lengths[i] > 0.0 ==> values[i + 1] < values[i]) {
      RunDescends(x, y, lam, o, b0, points, moves, i);
    }
    FallAlong(values, lengths, k);
    if i :| 0 <= i < k && moves[i].t > 0.0 { assert lengths[i] > 0.0; }
  }

  // ----- the Newton system of a step

  lemma GramSymmetric(x: Mat, n: nat)
    requires Columns(x, n)
    ensures Symmetric(Gram(x, n), |x|)
  {
    forall i, k | 0 <= i < |x| && 0 <= k < |x| ensures Gram(x, n)[i][k] == Gram(x, n)[k][i] {
      DotSym(x[i], x[k]);
    }
  }

  lemma HessianEntry(xx: Mat, i: nat, k: nat)
    requires IsSquare(xx, |xx|) && i < 2 * |xx| && k < 2 * |xx|
    ensures
      var p := |xx|;
      Hessian(xx)[i][k]
        == Mul(if (i < p) == (k < p) then 2.0 else -2.0, xx[if i < p then i else i - p][if k < p then k else k - p])
  {
  }

  lemma HessianSymmetric(xx: Mat)
    requires IsSquare(xx, |xx|) && Symmetric(xx, |xx|)
    ensures Symmetric(Hessian(xx), 2 * |xx|)
  {
    var p, h := |xx|, Hessian(xx);
    forall i, k | 0 <= i < 2 * p && 0 <= k < 2 * p ensures h[i][k] == h[k][i] {
      HessianEntry(xx, i, k);
      HessianEntry(xx, k, i);
    }
  }

  /** Every direction of a run solves the system of the free variables, with the Hessian modified
      by one of the two factorisations; and the Newton system itself where no pivot was raised. */
  lemma StepSolves(x: Mat, y: Vec, lam: real, o: Settings, i: nat, p: Point, d: Vec)
    requires Columns(x, |y|) && |p.u| == |p.v| == |x| && Usable(o) && |d| == 2 * |x|
    requires d in DirectionsAt(x, y, lam, o, i, p)
    ensures SolvesChosen(Hessian(Gram(x, |y|)), SlopesAt(x, y, lam, p), FreeAt(x, y, lam, o, p), o.betas(i),
                         o.retries(i), d)
  {
    GramSymmetric(x, |y|);
    HessianSymmetric(Gram(x, |y|));
    ChosenSolves(Hessian(Gram(x, |y|)), SlopesAt(x, y, lam, p), FreeAt(x, y, lam, o, p), o.betas(i), o.retries(i), d);
  }

  lemma FullStep(p: Point, d: Vec)
    requires |p.u| == |p.v| && |d| == 2 * |p.u|
    requires NonNegative(Add(p.u, d[..|p.u|])) && NonNegative(Add(p.v, d[|p.u|..]))
    ensures Stepped(p, d, 1.0) == Point(Add(p.u, d[..|p.u|]), Add(p.v, d[|p.u|..]))
  {
    var du, dv := d[..|p.u|], d[|p.u|..];
    assert Scale(1.0, du) == du && Scale(1.0, dv) == dv;
    PlusOf(Add(p.u, du));
    PlusOf(Add(p.v, dv));
  }

  /** The Hessian times a move between points is the change of the slopes. */
  lemma SlopesMove(x: Mat, y: Vec, lam: real, p: Point, q: Point, d: Vec)
    requires Columns(x, |y|) && IsPoint(x, p) && IsPoint(x, q) && |d| == 2 * |x|
    requires q.u == Add(p.u, d[..|x|]) && q.v == Add(p.v, d[|x|..])
    ensures Proj(Hessian(Gram(x, |y|)), d) == Sub(SlopesAt(x, y, lam, q), SlopesAt(x, y, lam, p))
  {
    HessianExact(Gram(x, |y|), Proj(x, y), lam, p.u, p.v, q.u, q.v);
    assert Sub(q.u, p.u) == d[..|x|] && Sub(q.v, p.v) == d[|x|..] && d[..|x|] + d[|x|..] == d;
  }

  /** A direction that solves the Newton system makes all the slopes of its variables zero in one
      full step, as long as the step leaves the halves non-negative. */
  lemma NewtonStep(x: Mat, y: Vec, lam: real, p: Point, idx: seq<nat>, d: Vec, k: nat)
    requires Columns(x, |y|) && IsPoint(x, p) && |d| == 2 * |x| && k < |idx|
    requires forall i :: 0 <= i < |idx| ==> idx[i] < 2 * |x|
    requires SolvesNewton(Hessian(Gram(x, |y|)), SlopesAt(x, y, lam, p), idx, d)
    requires NonNegative(Add(p.u, d[..|x|])) && NonNegative(Add(p.v, d[|x|..]))
    ensures SlopesAt(x, y, lam, Stepped(p, d, 1.0))[idx[k]] == 0.0
  {
    var q, h, i := Stepped(p, d, 1.0), Hessian(Gram(x, |y|)), idx[k];
    FullStep(p, d);
    SlopesMove(x, y, lam, p, q, d);
    assert Dot(h[i], d) == -SlopesAt(x, y, lam, p)[i];
    assert Proj(h, d)[i] == Dot(h[i], d);
    assert Sub(SlopesAt(x, y, lam, q), SlopesAt(x, y, lam, p))[i]
        == SlopesAt(x, y, lam, q)[i] - SlopesAt(x, y, lam, p)[i];
  }

  // ----- the solver

  /** Whether u - v is optimal can be seen by taking the slopes once more, at (u, v) itself. */
  ghost predicate Recheckable(x: Mat, y: Vec, lam: real, u: Vec, v: Vec)
    requires Columns(x, |y|) && |u| == |v| == |x|
  {
    var s := Slopes(Gram(x, |y|), Proj(x, y), lam, u, v);
    (Stationary(u, s.0) && Stationary(v, s.1)) <==>
      (IsMinimiser(x, y, Half(lam), Sub(u, v)) && (lam > 0.0 ==> Complementary(u, v)))
  }

  lemma Rechecked(x: Mat, y: Vec, lam: real, u: Vec, v: Vec)
    requires Columns(x, |y|) && |u| == |v| == |x| && lam >= 0.0 && NonNegative(u) && NonNegative(v)
    ensures Recheckable(x, y, lam, u, v)
  {
    StationaryIsLasso(x, y, Gram(x, |y|), Proj(x, y), lam, u, v);
  }

  /** What "Solution Found" says of the weights (u, v), found at (u0, v0). */
  ghost predicate Found(x: Mat, y: Vec, lam: real, u0: Vec, v0: Vec, u: Vec, v: Vec, optTol: real)
    requires Columns(x, |y|) && |u0| == |v0| == |u| == |v| == |x|
  {
    && NearlyOptimal(x, y, lam, u0, v0, u, v, optTol)
    && NearBest(x, y, lam, u, v, optTol, SqNorm(Comb(x, Dropped(u0, v0, u, v), |y|)))
  }

  lemma FoundAt(x: Mat, y: Vec, lam: real, o: Settings, p: Point)
    requires Columns(x, |y|) && IsPoint(x, p) && lam >= 0.0 && TestPasses(x, y, lam, o, p)
    ensures Found(x, y, lam, p.u, p.v, Cut(p, o.threshold).u, Cut(p, o.threshold).v, o.optTol)
  {
    TruncateHalves(p.u, p.v, o.threshold);
    StopMeans(x, y, lam, p.u, p.v, Cut(p, o.threshold).u, Cut(p, o.threshold).v, o.optTol);
  }

  /** A move along a direction the search accepts is a step of the loop. */
  lemma StepMade(x: Mat, y: Vec, lam: real, o: Settings, i: nat, p: Point, move: Move, f: real, slope: real)
    requires Columns(x, |y|) && IsPoint(x, p) && Usable(o) && !TestPasses(x, y, lam, o, p)
    requires |move.d| == 2 * |x| && move.d in DirectionsAt(x, y, lam, o, i, p)
    requires move.refused <= o.budget && move.t == Tried(o, i, move.refused)
    requires f == ValueOf(x, y, lam, p.u, p.v) && slope == SlopeAlong(x, y, lam, p, move.d)
    requires Refused(x, y, lam, o, i, Cut(p, o.threshold), move.d, f, slope, move.refused)
    requires Suits(x, y, lam, o, i, Cut(p, o.threshold), move.d, f, slope, move.refused)
    ensures Steps(x, y, lam, o)(i, p, move, Stepped(Cut(p, o.threshold), move.d, move.t))
    ensures IsPoint(x, Stepped(Cut(p, o.threshold), move.d, move.t))
  {
  }

  /** The direction computation of an iteration. */
  method Turn(x: Mat, y: Vec, lam: real, o: Settings, i: nat, h: Mat, p: Point, g: Vec) returns (r: Search)
    requires Columns(x, |y|) && IsPoint(x, p) && Usable(o) && h == Hessian(Gram(x, |y|)) && g == SlopesAt(x, y, lam, p)
    ensures r.Stop? <==> TestPasses(x, y, lam, o, p)
    ensures r.Descend? ==>
      |r.d| == 2 * |x| && r.d in DirectionsAt(x, y, lam, o, i, p) && r.slope == SlopeAlong(x, y, lam, p, r.d)
  {
    TruncateHalves(p.u, p.v, o.threshold);
    r := FindDirection(h, p.u + p.v, g, o.threshold, o.optTol, o.betas(i), o.retries(i));
  }

  /** When the last length of the budget is refused too, the iteration cannot leave p. */
  lemma SearchEnds(x: Mat, y: Vec, lam: real, o: Settings, i: nat, p: Point, d: Vec, f: real, slope: real)
    requires Columns(x, |y|) && IsPoint(x, p) && Usable(o) && !TestPasses(x, y, lam, o, p)
    requires |d| == 2 * |x| && d in DirectionsAt(x, y, lam, o, i, p)
    requires f == ValueOf(x, y, lam, p.u, p.v) && slope == SlopeAlong(x, y, lam, p, d)
    requires Refused(x, y, lam, o, i, Cut(p, o.threshold), d, f, slope, o.budget)
    requires !Suits(x, y, lam, o, i, Cut(p, o.threshold), d, f, slope, o.budget)
    ensures SearchFails(x, y, lam, o, i, p)
  {
    assert NoneSuits(x, y, lam, o, i, p, d);
  }

  /** The search along d, and the move it makes. */
  method Advance(x: Mat, y: Vec, lam: real, o: Settings, i: nat, p: Point, d: Vec, f: real, slope: real)
    returns (ok: bool, p': Point, f': real, move: Move)
    requires Columns(x, |y|) && IsPoint(x, p) && Usable(o) && !TestPasses(x, y, lam, o, p)
    requires |d| == 2 * |x| && d in DirectionsAt(x, y, lam, o, i, p)
    requires f == ValueOf(x, y, lam, p.u, p.v) && slope == SlopeAlong(x, y, lam, p, d)
    ensures IsPoint(x, p')
    ensures ok ==> Steps(x, y, lam, o)(i, p, move, p') && f' == ValueOf(x, y, lam, p'.u, p'.v)
    ensures !ok ==> SearchFails(x, y, lam, o, i, p) && p' == Cut(p, o.threshold)
  {
    var t, k;
    TruncateHalves(p.u, p.v, o.threshold);
    p' := Cut(p, o.threshold);
    ok, t, f', k := LineSearch(x, y, lam, o, i, p', d, f, slope);
    move := Move(d, t, k);
    if ok {
      StepMade(x, y, lam, o, i, p, move, f, slope);
      p' := Stepped(p', d, t);
    } else {
      SearchEnds(x, y, lam, o, i, p, d, f, slope);
    }
  }

  /** One iteration from p, whose value and slopes are at hand: it ends the loop, or makes a move. */
  method Iteration(x: Mat, y: Vec, lam: real, o: Settings, i: nat, h: Mat, p: Point, f: real, g: Vec)
    returns (exit: Exit, p': Point, f': real, g': Vec, move: Move)
    requires Columns(x, |y|) && IsPoint(x, p) && Usable(o) && h == Hessian(Gram(x, |y|))
    requires f == ValueOf(x, y, lam, p.u, p.v) && g == SlopesAt(x, y, lam, p)
    ensures IsPoint(x, p')
    ensures exit.SolutionFound? ==> TestPasses(x, y, lam, o, p) && p' == Cut(p, o.threshold)
    ensures exit.SearchUnfinished? ==> SearchFails(x, y, lam, o, i, p) && p' == Cut(p, o.threshold)
    ensures exit.StepTooSmall? || exit.IterationLimit? ==>
      && Steps(x, y, lam, o)(i, p, move, p') && (exit.StepTooSmall? <==> IsShort(o, move))
      && f' == ValueOf(x, y, lam, p'.u, p'.v) && g' == SlopesAt(x, y, lam, p')
  {
    var r := Turn(x, y, lam, o, i, h, p, g);
    if r.Stop? {
      TruncateHalves(p.u, p.v, o.threshold);
      return SolutionFound, Cut(p, o.threshold), f, g, Move([], 0.0, 0);
    }
    var ok;
    ok, p', f', move := Advance(x, y, lam, o, i, p, r.d, f, r.slope);
    g' := SlopesAt(x, y, lam, p');
    exit := if !ok then SearchUnfinished else if Norm1(Scale(move.t, move.d)) < o.optTol then StepTooSmall
            else IterationLimit;
  }

  /** The loop is at w after a run none of whose moves ends it, with the value and slopes at hand. */
  ghost predicate Running(x: Mat, y: Vec, lam: real, o: Settings, b0: Vec, points: seq<Point>, moves: seq<Move>,
                          w: Point, f: real, g: Vec)
    requires Columns(x, |y|) && |b0| == |x| && Usable(o)
  {
    && IsRun(x, y, lam, o, b0, points, moves) && (|moves| > 0 ==> !IsShort(o, moves[|moves| - 1]))
    && w == points[|moves|] && IsPoint(x, w)
    && f == ValueOf(x, y, lam, w.u, w.v) && g == SlopesAt(x, y, lam, w)
  }

  /** The loop has ended with w, for the reason given. */
  ghost predicate Ended(x: Mat, y: Vec, lam: real, o: Settings, b0: Vec, maxIter: nat, points: seq<Point>,
                        moves: seq<Move>, exit: Exit, w: Point)
    requires Columns(x, |y|) && |b0| == |x| && Usable(o)
  {
    && IsRun(x, y, lam, o, b0, points, moves) && IsPoint(x, points[|moves|]) && IsPoint(x, w)
    && EndsWith(x, y, lam, o, maxIter, moves, points[|moves|], exit, w)
  }

  lemma RunMore(x: Mat, y: Vec, lam: real, o: Settings, b0: Vec, points: seq<Point>, moves: seq<Move>, w: Point,
                f: real, g: Vec, move: Move, w': Point)
    requires Columns(x, |y|) && |b0| == |x| && Usable(o) && Running(x, y, lam, o, b0, points, moves, w, f, g)
    requires Steps(x, y, lam, o)(|moves|, w, move, w') && IsPoint(x, w')
    ensures IsRun(x, y, lam, o, b0, points + [w'], moves + [move])
  {
    ChainMore(Steps(x, y, lam, o), points, moves, move, w');
    OnlyLastMore(o, moves, move);
  }

  lemma RunsOn(x: Mat, y: Vec, lam: real, o: Settings, b0: Vec, maxIter: nat, points: seq<Point>, moves: seq<Move>,
               w: Point, move: Move)
    requires Columns(x, |y|) && |b0| == |x| && Usable(o) && IsRun(x, y, lam, o, b0, points + [w], moves + [move])
    requires |points| == |moves| + 1 && |moves| <= maxIter && IsPoint(x, w)
    ensures !IsShort(o, move) ==> Running(x, y, lam, o, b0, points + [w], moves + [move], w,
                                          ValueOf(x, y, lam, w.u, w.v), SlopesAt(x, y, lam, w))
    ensures IsShort(o, move) ==> Ended(x, y, lam, o, b0, maxIter, points + [w], moves + [move], StepTooSmall, w)
  {
    assert (moves + [move])[|moves|] == move && (points + [w])[|moves| + 1] == w;
  }

  lemma StopsAt(x: Mat, y: Vec, lam: real, o: Settings, b0: Vec, maxIter: nat, points: seq<Point>, moves: seq<Move>,
                p: Point, f: real, g: Vec, exit: Exit, w: Point)
    requires Columns(x, |y|) && |b0| == |x| && Usable(o) && Running(x, y, lam, o, b0, points, moves, p, f, g)
    requires |moves| <= maxIter && w == Cut(p, o.threshold) && IsPoint(x, w)
    requires (exit.SolutionFound? && TestPasses(x, y, lam, o, p))
          || (exit.SearchUnfinished? && SearchFails(x, y, lam, o, |moves|, p))
    ensures Ended(x, y, lam, o, b0, maxIter, points, moves, exit, w)
  {
  }

  lemma LimitReached(x: Mat, y: Vec, lam: real, o: Settings, b0: Vec, maxIter: nat, points: seq<Point>,
                     moves: seq<Move>, w: Point, f: real, g: Vec)
    requires Columns(x, |y|) && |b0| == |x| && Usable(o) && Running(x, y, lam, o, b0, points, moves, w, f, g)
    requires |moves| == maxIter + 1
    ensures Ended(x, y, lam, o, b0, maxIter, points, moves, IterationLimit, w)
  {
  }

  lemma Starts(x: Mat, y: Vec, lam: real, o: Settings, b0: Vec)
    requires Columns(x, |y|) && |b0| == |x| && Usable(o)
    ensures
      var w := Point(Plus(b0), Minus(b0));
      Running(x, y, lam, o, b0, [w], [], w, ValueOf(x, y, lam, w.u, w.v), SlopesAt(x, y, lam, w))
  {
  }

  /** The loop from the parts of any starting weights. Its points and moves are a run, which ends
      for the reason given. At "Solution Found" the weights are those of the last point with what
      is below the threshold set to zero; every optimality condition holds up to half of optTol and
      the cross terms times what was set to zero, and no weights within m are better by more than
      optTol*m/2 and half of the squared change of X*w. */
  method Solve(x: Mat, y: Vec, lam: real, b0: Vec, o: Settings, maxIter: nat)
    returns (exit: Exit, w: Point, ghost points: seq<Point>, ghost moves: seq<Move>)
    requires Columns(x, |y|) && |b0| == |x| && lam >= 0.0 && Usable(o)
    ensures Ended(x, y, lam, o, b0, maxIter, points, moves, exit, w)
    ensures exit.SolutionFound? ==> Found(x, y, lam, points[|moves|].u, points[|moves|].v, w.u, w.v, o.optTol)
    ensures Recheckable(x, y, lam, w.u, w.v)
  {
    var h := Hessian(Gram(x, |y|));
    w := Point(Plus(b0), Minus(b0));
    points, moves, exit := [w], [], IterationLimit;
    var f, g, move := ValueOf(x, y, lam, w.u, w.v), SlopesAt(x, y, lam, w), Move([], 0.0, 0);
    Starts(x, y, lam, o, b0);
    var iteration: nat := 0;
    while iteration <= maxIter && exit.IterationLimit?
      invariant exit.IterationLimit? ==>
        Running(x, y, lam, o, b0, points, moves, w, f, g) && iteration == |moves| <= maxIter + 1
      invariant !exit.IterationLimit? ==> Ended(x, y, lam, o, b0, maxIter, points, moves, exit, w)
      decreases maxIter + 1 - iteration
    {
      ghost var p, f0, g0 := w, f, g;
      exit, w, f, g, move := Iteration(x, y, lam, o, iteration, h, w, f, g);
      if exit.StepTooSmall? || exit.IterationLimit? {
        RunMore(x, y, lam, o, b0, points, moves, p, f0, g0, move, w);
        RunsOn(x, y, lam, o, b0, maxIter, points, moves, w, move);
        points, moves := points + [w], moves + [move];
      } else {
        StopsAt(x, y, lam, o, b0, maxIter, points, moves, p, f0, g0, exit, w);
      }
      iteration := iteration + 1;
    }
    if exit.IterationLimit? { LimitReached(x, y, lam, o, b0, maxIter, points, moves, w, f, g); }
    if exit.SolutionFound? { FoundAt(x, y, lam, o, points[|moves|]); }
    Rechecked(x, y, lam, w.u, w.v);
  }
}
