/** The main loop of `LassoIteratedRidge`: repeated ridge problems on the variables not yet at
    zero, with the restricted X'X and X'y kept between iterations.

    As in the source, lambda has been halved before the loop, so the logged objective
    ||X*w - y||^2 + 2*lambda*||w||_1 is twice `Objective(x, y, lam, w)`.
 */
module IteratedRidge {
  import opened LinearAlgebra
  import opened Indexing
  import opened L1LeastSquares
  import opened RidgeModes

  // ----- the variables not at zero

  /** abs(w) <= threshold */
  function ZeroMask(w: Vec, threshold: real): (z: seq<bool>) {
    seq(|w|, j requires 0 <= j < |w| => Abs(w[j]) <= threshold)
  }

  /** The unmasked positions below k, in order. */
  function Keep(z: seq<bool>, k: nat): (idx: seq<nat>)
    requires k <= |z|
    ensures forall i :: 0 <= i < |idx| ==> idx[i] < k && !z[idx[i]]
    ensures forall i, j :: 0 <= i < j < |idx| ==> idx[i] < idx[j]
    ensures forall i :: 0 <= i < k && !z[i] ==> i in idx
  {
    if k == 0 then []
    else if z[k - 1] then Keep(z, k - 1)
    else Keep(z, k - 1) + [k - 1]
  }

  function Kept(z: seq<bool>): (idx: seq<nat>)
    ensures forall i :: 0 <= i < |idx| ==> idx[i] < |z| && !z[idx[i]]
    ensures forall i, j :: 0 <= i < j < |idx| ==> idx[i] < idx[j]
    ensures forall i :: 0 <= i < |z| && !z[i] ==> i in idx
  {
    Keep(z, |z|)
  }

  function Select<T>(v: seq<T>, idx: seq<nat>): (r: seq<T>)
    requires forall i :: 0 <= i < |idx| ==> idx[i] < |v|
  {
    seq(|idx|, i requires 0 <= i < |idx| => v[idx[i]])
  }

  /** Restricting X'X and X'y is forming them from the restricted columns. */
  lemma Restricted(x: Mat, y: Vec, idx: seq<nat>)
    requires Columns(x, |y|) && forall i :: 0 <= i < |idx| ==> idx[i] < |x|
    ensures Columns(Select(x, idx), |y|)
    ensures Block(Gram(x, |y|), idx) == Gram(Select(x, idx), |y|)
    ensures Select(Proj(x, y), idx) == Proj(Select(x, idx), y)
  {
    var xs, g := Select(x, idx), Gram(x, |y|);
    forall i | 0 <= i < |idx| ensures Block(g, idx)[i] == Gram(xs, |y|)[i] {
      var row := Block(g, idx)[i];
      forall k | 0 <= k < |idx| ensures row[k] == Gram(xs, |y|)[i][k] {
        assert g[idx[i]][idx[k]] == Dot(x[idx[k]], x[idx[i]]);
      }
      assert row == Gram(xs, |y|)[i];
    }
  }

  // ----- one step, independently of how it is computed

  /** lambda * abs(1 ./ w) */
  function Weights(lam: real, w: Vec): (pen: Vec)
    requires forall j :: 0 <= j < |w| ==> w[j] != 0.0
  {
    seq(|w|, j requires 0 <= j < |w| => lam * Abs(1.0 / w[j]))
  }

  /** v is the next point from w, without line search: zero where w is within the threshold,
      and the solution of the ridge system of the other variables elsewhere. */
  ghost predicate RidgeStep(x: Mat, y: Vec, lam: real, threshold: real, w: Vec, v: Vec)
    requires Columns(x, |y|) && |w| == |x| && threshold >= 0.0
  {
    var idx := Kept(ZeroMask(w, threshold));
    && |v| == |x|
    && (forall j :: 0 <= j < |x| && Abs(w[j]) <= threshold ==> v[j] == 0.0)
    && Ridge(Select(x, idx), |y|, Proj(Select(x, idx), y), Weights(lam, Select(w, idx)), Select(v, idx))
  }

  lemma WeightFacts(lam: real, w: real, pen: real)
    requires lam > 0.0 && w != 0.0 && pen == lam * Abs(1.0 / w)
    ensures pen > 0.0 && Mul(pen, Abs(w)) == lam
  {
    var r := 1.0 / w;
    assert r * w == 1.0;
    assert Abs(r) * Abs(w) == 1.0 by {
      if w > 0.0 { PositiveInverse(w, r); } else { PositiveInverse(-w, -r); }
    }
    assert Abs(r) > 0.0;
    MulPos(lam, Abs(r));
    assert Mul(lam, Abs(r)) == pen;
    assert Mul(pen, Abs(w)) == lam * (Abs(r) * Abs(w));
  }

  lemma PositiveInverse(w: real, r: real)
    requires w > 0.0 && r * w == 1.0
    ensures r > 0.0
  {
    if r <= 0.0 { ProductNonNeg(-r, w); NegatedProduct(w, r, -r); }
  }

  lemma WeightsPositive(lam: real, w: Vec)
    requires lam > 0.0 && forall j :: 0 <= j < |w| ==> w[j] != 0.0
    ensures Positive(Weights(lam, w))
    ensures forall j :: 0 <= j < |w| ==> Mul(Weights(lam, w)[j], Abs(w[j])) == lam
  {
    forall j | 0 <= j < |w| ensures Weights(lam, w)[j] > 0.0 && Mul(Weights(lam, w)[j], Abs(w[j])) == lam {
      WeightFacts(lam, w[j], Weights(lam, w)[j]);
    }
  }

  /** The step is determined: whichever mode computes it, the result is the same. */
  lemma StepUnique(x: Mat, y: Vec, lam: real, threshold: real, w: Vec, v: Vec, v': Vec)
    requires Columns(x, |y|) && |w| == |x| && threshold >= 0.0 && lam > 0.0
    requires RidgeStep(x, y, lam, threshold, w, v) && RidgeStep(x, y, lam, threshold, w, v')
    ensures v == v'
  {
    var idx := Kept(ZeroMask(w, threshold));
    var xs := Select(x, idx);
    WeightsPositive(lam, Select(w, idx));
    RidgeUnique(xs, |y|, Proj(xs, y), Weights(lam, Select(w, idx)), Select(v, idx), Select(v', idx));
    forall j | 0 <= j < |x| ensures v[j] == v'[j] {
      if Abs(w[j]) > threshold {
        assert j in idx;
        var i :| 0 <= i < |idx| && idx[i] == j;
        assert Select(v, idx)[i] == Select(v', idx)[i];
      }
    }
  }

  // ----- the four modes

  /** wtemp from the restricted data, for each mode. `solve` is \ or the Cholesky solve. */
  method ModeSolve(mode: nat, xx: Mat, xy: Vec, xnz: Mat, n: nat, lam: real, w: Vec,
                   solve: (Mat, Vec) -> Vec, root: real -> real, ghost xs: Mat, ghost y: Vec)
    returns (v: Vec)
    requires mode <= 3 && lam > 0.0 && |y| == n && Columns(xs, n) && |w| == |xs|
    requires forall j :: 0 <= j < |w| ==> w[j] != 0.0
    requires xy == Proj(xs, y) && (mode != 3 ==> xx == Gram(xs, n)) && (mode == 3 ==> xnz == xs)
    requires ExactSolver(solve) && forall t :: t > 0.0 ==> IsRoot(root(t), t)
    ensures |v| == |w| && Ridge(xs, n, xy, Weights(lam, w), v)
  {
    ghost var pen := Weights(lam, w);
    WeightsPositive(lam, w);
    if mode == 0 {
      v := Exact0(xx, xy, Weights(lam, w), solve, xs, n);
    } else if mode == 1 {
      var g := seq(|w|, j requires 0 <= j < |w| => root(Abs(w[j])));
      RootsOf(root, lam, w, g);
      v := Exact1(xx, xy, g, lam, solve, xs, n, pen);
    } else {
      var u := seq(|w|, j requires 0 <= j < |w| => Abs(w[j]) / lam);
      InverseOf(lam, w, u);
      if mode == 2 {
        v := Exact2(xx, xy, u, solve, xs, n, pen);
      } else {
        v := Exact3(xnz, xy, u, solve, n, pen);
      }
    }
  }

  predicate IsRoot(r: real, t: real) {
    r > 0.0 && r * r == t
  }

  lemma RootsOf(root: real -> real, lam: real, w: Vec, g: Vec)
    requires lam > 0.0 && |g| == |w| && forall t :: t > 0.0 ==> IsRoot(root(t), t)
    requires forall j :: 0 <= j < |w| ==> w[j] != 0.0 && g[j] == root(Abs(w[j]))
    ensures Roots(g, Weights(lam, w), lam)
  {
    WeightsPositive(lam, w);
    forall j | 0 <= j < |w| ensures g[j] > 0.0 && Mul(Weights(lam, w)[j], Mul(g[j], g[j])) == lam {
      assert IsRoot(root(Abs(w[j])), Abs(w[j]));
      assert Mul(g[j], g[j]) == Abs(w[j]);
    }
  }

  lemma InverseOf(lam: real, w: Vec, u: Vec)
    requires lam > 0.0 && |u| == |w|
    requires forall j :: 0 <= j < |w| ==> w[j] != 0.0 && u[j] == Abs(w[j]) / lam
    ensures Inverse(u, Weights(lam, w))
  {
    WeightsPositive(lam, w);
    forall j | 0 <= j < |w| ensures u[j] > 0.0 && Mul(u[j], Weights(lam, w)[j]) == 1.0 {
      InverseEntry(lam, Abs(w[j]), Weights(lam, w)[j], u[j]);
    }
  }

  lemma InverseEntry(lam: real, a: real, pen: real, u: real)
    requires lam > 0.0 && a > 0.0 && u == a / lam && Mul(pen, a) == lam
    ensures u > 0.0 && Mul(u, pen) == 1.0
  {
    assert Mul(u, pen) == pen * a / lam;
  }

  method Exact0(xx: Mat, xy: Vec, pen: Vec, solve: (Mat, Vec) -> Vec, ghost xs: Mat, ghost n: nat) returns (v: Vec)
    requires Columns(xs, n) && xx == Gram(xs, n) && |xy| == |pen| == |xs| && Positive(pen) && ExactSolver(solve)
    ensures |v| == |xs| && Ridge(xs, n, xy, pen, v)
  {
    var m := Matrix0(xx, pen);
    Regular0(xs, n, pen);
    v := solve(m, xy);
    assert Solution(m, xy, v);
    Mode0(xs, n, xy, pen, v);
  }

  method Exact1(xx: Mat, xy: Vec, g: Vec, lam: real, solve: (Mat, Vec) -> Vec,
                ghost xs: Mat, ghost n: nat, ghost pen: Vec) returns (v: Vec)
    requires Columns(xs, n) && xx == Gram(xs, n) && |xy| == |pen| == |xs| && Positive(pen) && ExactSolver(solve)
    requires Roots(g, pen, lam)
    ensures |v| == |xs| && Ridge(xs, n, xy, pen, v)
  {
    var m, r := Matrix1(xx, g, lam), Had(g, xy);
    Regular1(xs, n, pen, lam, g);
    var u := solve(m, r);
    assert Solution(m, r, u);
    Mode1(xs, n, xy, pen, lam, g, u);
    v := Had(g, u);
  }

  method Exact2(xx: Mat, xy: Vec, u: Vec, solve: (Mat, Vec) -> Vec,
                ghost xs: Mat, ghost n: nat, ghost pen: Vec) returns (v: Vec)
    requires Columns(xs, n) && xx == Gram(xs, n) && |xy| == |pen| == |xs| && Positive(pen) && ExactSolver(solve)
    requires Inverse(u, pen)
    ensures |v| == |xs| && Ridge(xs, n, xy, pen, v)
  {
    var m, r := Matrix2(xx, u), Had(u, xy);
    Regular2(xs, n, pen, u);
    v := solve(m, r);
    assert Solution(m, r, v);
    Mode2(xs, n, xy, pen, u, v);
  }

  method Exact3(xs: Mat, xy: Vec, d: Vec, solve: (Mat, Vec) -> Vec, n: nat, ghost pen: Vec) returns (v: Vec)
    requires Columns(xs, n) && |xy| == |pen| == |xs| && ExactSolver(solve) && Inverse(d, pen)
    ensures |v| == |xs| && Ridge(xs, n, xy, pen, v)
  {
    var m, r := Matrix3(xs, n, d), Comb(xs, Had(d, xy), n);
    Regular3(xs, n, d);
    var s := solve(m, r);
    assert Solution(m, r, s);
    Mode3(xs, n, xy, pen, d, s);
    v := Back3(xs, d, xy, s);
  }

  // ----- a step does not raise the objective

  /** -pen*v*(w-v) + lambda*(|w|-|v|) >= 0 when pen*|w| = lambda: the ridge penalty touches
      the L1 penalty at w and lies above it elsewhere. */
  lemma MajorizeTerm(pen: real, lam: real, w: real, v: real, d: real, s: real)
    requires pen > 0.0 && Mul(pen, Abs(w)) == lam && d == -Mul(pen, v) && s == w - v
    ensures d * s + lam * (Abs(w) - Abs(v)) >= 0.0
  {
    var a, e := Abs(w), Abs(v);
    var t := a - e;
    Square(t, t * t);
    AbsProduct(v, w, e);
    SquaresAgree(w, a);
    SquaresAgree(v, e);
    var r := t * t + (e * a - v * w);
    ProductNonNeg(pen, r);
    assert r == -(v * w) + v * v + a * a - a * e;
    assert pen * r == d * s + lam * t;
  }

  lemma SquaresAgree(x: real, a: real)
    requires a == Abs(x)
    ensures a * a == x * x
  {}

  lemma RidgeGradient(x: Mat, y: Vec, pen: Vec, v: Vec, j: nat)
    requires Columns(x, |y|) && |pen| == |v| == |x| && j < |x|
    ensures RidgeRow(x, |y|, Proj(x, y), pen, v, j) <==> Gradient(x, y, v)[j] == -Mul(pen[j], v[j])
  {
    ProjSub(x, Comb(x, v, |y|), y);
  }

  lemma UphillTerm(x: Mat, y: Vec, lam: real, w: Vec, v: Vec, j: nat)
    requires Columns(x, |y|) && |w| == |v| == |x| && lam > 0.0 && j < |x|
    requires forall k :: 0 <= k < |w| ==> w[k] != 0.0
    requires Ridge(x, |y|, Proj(x, y), Weights(lam, w), v)
    ensures Gradient(x, y, v)[j] * (w[j] - v[j]) + lam * (Abs(w[j]) - Abs(v[j])) >= 0.0
  {
    var pen := Weights(lam, w);
    WeightsPositive(lam, w);
    assert RidgeRow(x, |y|, Proj(x, y), pen, v, j);
    RidgeGradient(x, y, pen, v, j);
    MajorizeTerm(pen[j], lam, w[j], v[j], Gradient(x, y, v)[j], w[j] - v[j]);
  }

  /** To first order, the way back from a ridge solution is uphill. */
  lemma RidgeUphill(x: Mat, y: Vec, lam: real, w: Vec, v: Vec)
    requires Columns(x, |y|) && |w| == |v| == |x| && lam > 0.0
    requires forall j :: 0 <= j < |w| ==> w[j] != 0.0
    requires Ridge(x, |y|, Proj(x, y), Weights(lam, w), v)
    ensures Dot(Gradient(x, y, v), Sub(w, v)) + Mul(lam, Norm1(w)) - Mul(lam, Norm1(v)) >= 0.0
  {
    var d, s := Gradient(x, y, v), Sub(w, v);
    var sizes := Scale(lam, Sub(AbsVec(w), AbsVec(v)));
    var total := Add(Had(d, s), sizes);
    forall j | 0 <= j < |x| ensures total[j] >= 0.0 {
      UphillTerm(x, y, lam, w, v, j);
    }
    SumToNonNeg(total, |x|);
    SumToAdd(Had(d, s), sizes, |x|);
    SumToScale(lam, Sub(AbsVec(w), AbsVec(v)), |x|);
    SumSub(AbsVec(w), AbsVec(v));
    DistributeSub(lam, Norm1(w), Norm1(v), Sum(Sub(AbsVec(w), AbsVec(v))));
  }

  lemma RidgeDescends(x: Mat, y: Vec, lam: real, w: Vec, v: Vec)
    requires Columns(x, |y|) && |w| == |v| == |x| && lam > 0.0
    requires forall j :: 0 <= j < |w| ==> w[j] != 0.0
    requires Ridge(x, |y|, Proj(x, y), Weights(lam, w), v)
    ensures Objective(x, y, lam, v) <= Objective(x, y, lam, w)
  {
    RidgeUphill(x, y, lam, w, v);
    Expand(x, y, v, w);
    SqNormNonNeg(Comb(x, Sub(w, v), |y|));
  }

  // ----- variables at zero contribute nothing

  /** The unmasked values among the first k. */
  ghost function Filter<T>(v: seq<T>, z: seq<bool>, k: nat): seq<T>
    requires |v| == |z| && k <= |z|
  {
    if k == 0 then [] else if z[k - 1] then Filter(v, z, k - 1) else Filter(v, z, k - 1) + [v[k - 1]]
  }

  lemma {:induction false} SelectIsFilter<T>(v: seq<T>, z: seq<bool>, k: nat)
    requires |v| == |z| && k <= |z|
    ensures Select(v, Keep(z, k)) == Filter(v, z, k)
  {
    if k > 0 { SelectIsFilter(v, z, k - 1); }
  }

  lemma {:induction false} FilterShape(x: Mat, w: Vec, n: nat, z: seq<bool>, k: nat)
    requires Columns(x, n) && |w| == |z| == |x| && k <= |x|
    ensures Columns(Filter(x, z, k), n) && |Filter(x, z, k)| == |Filter(w, z, k)|
  {
    if k > 0 { FilterShape(x, w, n, z, k - 1); }
  }

  /** One more column on the right. */
  lemma ExtendComb(xr: Mat, wr: Vec, c: Vec, t: real, n: nat)
    requires Columns(xr, n) && |wr| == |xr| && |c| == n
    ensures Columns(xr + [c], n)
    ensures Comb(xr + [c], wr + [t], n) == Add(Comb(xr, wr, n), Scale(t, c))
  {
    CombPrefix(xr + [c], wr + [t], xr, wr, n, |xr|);
  }

  lemma DropZero(c: Vec, t: real, v: Vec)
    requires |c| == |v| && t == 0.0
    ensures Add(v, Scale(t, c)) == v
  {
    ScaleZero(t, c);
  }

  lemma {:induction false} KeptComb(x: Mat, w: Vec, n: nat, z: seq<bool>, k: nat)
    requires Columns(x, n) && |w| == |z| == |x| && k <= |x|
    requires forall j :: 0 <= j < k && z[j] ==> w[j] == 0.0
    ensures Columns(Filter(x, z, k), n) && |Filter(x, z, k)| == |Filter(w, z, k)|
    ensures CombTo(x, w, n, k) == Comb(Filter(x, z, k), Filter(w, z, k), n)
  {
    FilterShape(x, w, n, z, k);
    if k > 0 {
      KeptComb(x, w, n, z, k - 1);
      if z[k - 1] {
        DropZero(x[k - 1], w[k - 1], CombTo(x, w, n, k - 1));
      } else {
        ExtendComb(Filter(x, z, k - 1), Filter(w, z, k - 1), x[k - 1], w[k - 1], n);
      }
    }
  }

  lemma ExtendNorm(wr: Vec, t: real)
    ensures Norm1(wr + [t]) == Norm1(wr) + Abs(t)
  {
    SumToEq(AbsVec(wr + [t]), AbsVec(wr), |wr|);
  }

  lemma {:induction false} KeptNorm(w: Vec, z: seq<bool>, k: nat)
    requires |w| == |z| && k <= |z|
    requires forall j :: 0 <= j < k && z[j] ==> w[j] == 0.0
    ensures SumTo(AbsVec(w), k) == Norm1(Filter(w, z, k))
  {
    if k > 0 {
      KeptNorm(w, z, k - 1);
      if !z[k - 1] { ExtendNorm(Filter(w, z, k - 1), w[k - 1]); }
    }
  }

  lemma ScaleZero(t: real, v: Vec)
    requires t == 0.0
    ensures Scale(t, v) == Zero(|v|)
  {
    forall i | 0 <= i < |v| ensures t * v[i] == 0.0 {}
  }

  lemma {:induction false} CombPrefix(x: Mat, w: Vec, x': Mat, w': Vec, n: nat, k: nat)
    requires Columns(x, n) && Columns(x', n) && |w| == |x| && |w'| == |x'| && k <= |x| && k <= |x'|
    requires forall j :: 0 <= j < k ==> x[j] == x'[j] && w[j] == w'[j]
    ensures CombTo(x, w, n, k) == CombTo(x', w', n, k)
  {
    if k > 0 { CombPrefix(x, w, x', w', n, k - 1); }
  }

  /** The objective of a vector that is zero on the masked variables, from the others alone. */
  lemma KeptObjective(x: Mat, y: Vec, lam: real, w: Vec, z: seq<bool>)
    requires Columns(x, |y|) && |w| == |z| == |x|
    requires forall j :: 0 <= j < |x| && z[j] ==> w[j] == 0.0
    ensures Columns(Select(x, Kept(z)), |y|)
    ensures Objective(x, y, lam, w) == Objective(Select(x, Kept(z)), y, lam, Select(w, Kept(z)))
  {
    KeptComb(x, w, |y|, z, |x|);
    KeptNorm(w, z, |x|);
    SelectIsFilter(x, z, |x|);
    SelectIsFilter(w, z, |x|);
  }

  /** A step does not raise the objective above that of the thresholded previous point. */
  lemma StepDescends(x: Mat, y: Vec, lam: real, threshold: real, w: Vec, v: Vec)
    requires Columns(x, |y|) && |w| == |x| && threshold >= 0.0 && lam > 0.0
    requires RidgeStep(x, y, lam, threshold, w, v)
    ensures Objective(x, y, lam, v) <= Objective(x, y, lam, Thresholded(w, threshold))
  {
    var z, t := ZeroMask(w, threshold), Thresholded(w, threshold);
    var idx := Kept(z);
    KeptObjective(x, y, lam, v, z);
    KeptObjective(x, y, lam, t, z);
    assert Select(t, idx) == Select(w, idx);
    RidgeDescends(Select(x, idx), y, lam, Select(w, idx), Select(v, idx));
  }

  /** Zeros stay zero. */
  lemma ZerosGrow(x: Mat, y: Vec, lam: real, threshold: real, w: Vec, v: Vec, j: nat)
    requires Columns(x, |y|) && |w| == |x| && threshold >= 0.0 && j < |x|
    requires RidgeStep(x, y, lam, threshold, w, v)
    ensures ZeroMask(w, threshold)[j] ==> ZeroMask(v, threshold)[j]
  {}

  lemma SignRow(pen: real, lam: real, w: real, d: real)
    requires pen > 0.0 && w != 0.0 && Mul(pen, Abs(w)) == lam
    ensures d == -Mul(pen, w) <==> Violation(w, d, lam) == 0.0
  {
    if w < 0.0 { NegatedProduct(pen, w, Abs(w)); }
  }

  lemma RidgeAtOptimum(x: Mat, y: Vec, lam: real, w: Vec)
    requires Columns(x, |y|) && |w| == |x| && lam > 0.0
    requires forall j :: 0 <= j < |w| ==> w[j] != 0.0
    ensures Ridge(x, |y|, Proj(x, y), Weights(lam, w), w) <==> AllWithin(x, y, lam, w, 0.0)
  {
    var pen := Weights(lam, w);
    WeightsPositive(lam, w);
    forall j | 0 <= j < |x|
      ensures RidgeRow(x, |y|, Proj(x, y), pen, w, j) <==> Violation(w[j], Gradient(x, y, w)[j], lam) <= 0.0
    {
      RidgeGradient(x, y, pen, w, j);
      SignRow(pen[j], lam, w[j], Gradient(x, y, w)[j]);
    }
  }

  /** A thresholded point is left unchanged exactly when it minimises the L1 objective over the
      variables that are not at zero. */
  lemma StepFixed(x: Mat, y: Vec, lam: real, threshold: real, w: Vec, v: Vec, xs: Mat, ws: Vec)
    requires Columns(x, |y|) && |w| == |x| && threshold >= 0.0 && lam > 0.0
    requires w == Thresholded(w, threshold) && RidgeStep(x, y, lam, threshold, w, v)
    requires xs == Select(x, Kept(ZeroMask(w, threshold))) && ws == Select(w, Kept(ZeroMask(w, threshold)))
    ensures v == w <==> IsMinimiser(xs, y, lam, ws)
  {
    RidgeAtOptimum(xs, y, lam, ws);
    MinimiserIff(xs, y, lam, ws);
    FixedIffRidge(x, y, lam, threshold, w, v, xs, ws);
  }

  lemma FixedIffRidge(x: Mat, y: Vec, lam: real, threshold: real, w: Vec, v: Vec, xs: Mat, ws: Vec)
    requires Columns(x, |y|) && |w| == |x| && threshold >= 0.0 && lam > 0.0
    requires w == Thresholded(w, threshold) && RidgeStep(x, y, lam, threshold, w, v)
    requires xs == Select(x, Kept(ZeroMask(w, threshold))) && ws == Select(w, Kept(ZeroMask(w, threshold)))
    ensures v == w <==> Ridge(xs, |y|, Proj(xs, y), Weights(lam, ws), ws)
  {
    forall j | 0 <= j < |x| && Abs(w[j]) <= threshold ensures w[j] == 0.0 {
      assert Thresholded(w, threshold)[j] == 0.0;
    }
    if Ridge(xs, |y|, Proj(xs, y), Weights(lam, ws), ws) {
      assert RidgeStep(x, y, lam, threshold, w, w);
      StepUnique(x, y, lam, threshold, w, v, w);
    }
  }

  // ----- the loop

  /** The accepted point after full step v from w in iteration i. */
  function Accept(i: nat, lineMinIter: nat, step: real, w: Vec, v: Vec): (r: Vec)
    requires |v| == |w| && lineMinIter > 0
  {
    if i > 0 && i % lineMinIter == 0 then Add(w, Scale(step, Sub(v, w))) else v
  }

  /** The logged points: each follows from the one before by a full step and, in every
      lineMinIter-th iteration, a line search along it. */
  ghost predicate IsTrace(x: Mat, y: Vec, lam: real, threshold: real, lineMinIter: nat,
                          steps: nat -> real, wp: seq<Vec>, full: seq<Vec>)
    requires Columns(x, |y|) && threshold >= 0.0 && lineMinIter > 0
  {
    && |wp| == |full| + 1
    && (forall i :: 0 <= i < |wp| ==> |wp[i]| == |x|)
    && (forall i :: 0 <= i < |full| ==> TraceStep(x, y, lam, threshold, lineMinIter, steps, wp, full, i))
  }

  ghost predicate TraceStep(x: Mat, y: Vec, lam: real, threshold: real, lineMinIter: nat,
                            steps: nat -> real, wp: seq<Vec>, full: seq<Vec>, i: nat)
    requires Columns(x, |y|) && threshold >= 0.0 && lineMinIter > 0 && i < |full| && |wp| == |full| + 1
    requires |wp[i]| == |x|
  {
    && RidgeStep(x, y, lam, threshold, wp[i], full[i])
    && wp[i + 1] == Accept(i, lineMinIter, steps(i), wp[i], full[i])
  }

  /** Two runs from the same start log the same points as far as both go, whatever modes they use. */
  lemma {:induction false} TracesAgree(x: Mat, y: Vec, lam: real, threshold: real, lineMinIter: nat,
      steps: nat -> real, wp: seq<Vec>, full: seq<Vec>, wp': seq<Vec>, full': seq<Vec>, k: nat)
    requires Columns(x, |y|) && threshold >= 0.0 && lineMinIter > 0 && lam > 0.0
    requires IsTrace(x, y, lam, threshold, lineMinIter, steps, wp, full)
    requires IsTrace(x, y, lam, threshold, lineMinIter, steps, wp', full')
    requires wp[0] == wp'[0] && k < |wp| && k < |wp'|
    ensures wp[k] == wp'[k]
  {
    if k > 0 {
      TracesAgree(x, y, lam, threshold, lineMinIter, steps, wp, full, wp', full', k - 1);
      assert TraceStep(x, y, lam, threshold, lineMinIter, steps, wp, full, k - 1);
      assert TraceStep(x, y, lam, threshold, lineMinIter, steps, wp', full', k - 1);
      StepUnique(x, y, lam, threshold, wp[k - 1], full[k - 1], full'[k - 1]);
    }
  }

  /** The loop is left after a move from w to v: it is small, or seen to diverge. */
  predicate Leaves(w: Vec, v: Vec, optTol: real, verbose: bool)
    requires |w| == |v|
  {
    Norm1(Sub(v, w)) < optTol || (Norm1(Sub(v, w)) > 1.0e100 && verbose)
  }

  /** None of the first k moves is one after which the loop is left. */
  ghost predicate GoesOn(wp: seq<Vec>, k: nat, p: nat, optTol: real, verbose: bool)
    requires k < |wp| && forall i :: 0 <= i < |wp| ==> |wp[i]| == p
  {
    forall i :: 0 <= i < k ==> !Leaves(wp[i], wp[i + 1], optTol, verbose)
  }

  lemma GoesOnMore(wp: seq<Vec>, k: nat, p: nat, optTol: real, verbose: bool, w: Vec)
    requires k < |wp| && (forall i :: 0 <= i < |wp| ==> |wp[i]| == p) && |w| == p
    requires GoesOn(wp, k, p, optTol, verbose)
    ensures GoesOn(wp + [w], k, p, optTol, verbose)
  {
    forall i | 0 <= i < k ensures !Leaves((wp + [w])[i], (wp + [w])[i + 1], optTol, verbose) {
      assert !Leaves(wp[i], wp[i + 1], optTol, verbose);
    }
  }

  datatype Outcome = Finished(w: Vec, wp: seq<Vec>) | Undefined

  /** What the cached restricted data must be when zerosOld was the last mask used. */
  ghost predicate CacheMatches(x: Mat, y: Vec, mode: nat, z: seq<bool>, xx: Mat, xy: Vec, xnz: Mat)
    requires Columns(x, |y|) && |z| == |x|
  {
    var xs := Select(x, Kept(z));
    Columns(xs, |y|) && xy == Proj(xs, y) && (mode != 3 ==> xx == Gram(xs, |y|)) && (mode == 3 ==> xnz == xs)
  }

  /** The update of the cached data when the mask changed. */
  method Refresh(x: Mat, y: Vec, mode: nat, z: seq<bool>, xxFull: Mat, xyFull: Vec, xx0: Mat, xnz0: Mat)
    returns (xx: Mat, xy: Vec, xnz: Mat)
    requires Columns(x, |y|) && |z| == |x| && xxFull == Gram(x, |y|) && xyFull == Proj(x, y)
    ensures CacheMatches(x, y, mode, z, xx, xy, xnz)
  {
    var idx := Kept(z);
    Restricted(x, y, idx);
    xx, xnz := xx0, xnz0;
    xy := Select(xyFull, idx);
    if mode != 3 {
      xx := Block(xxFull, idx);
    } else {
      xnz := Select(x, idx);
    }
  }

  /** w with the solved entries put back between the zeros. */
  method Replace(x: Mat, y: Vec, lam: real, threshold: real, w: Vec, z: seq<bool>, v: Vec) returns (r: Vec)
    requires Columns(x, |y|) && |w| == |x| && threshold >= 0.0 && lam > 0.0 && z == ZeroMask(w, threshold)
    requires |v| == |Kept(z)|
    requires Ridge(Select(x, Kept(z)), |y|, Proj(Select(x, Kept(z)), y), Weights(lam, Select(w, Kept(z))), v)
    ensures RidgeStep(x, y, lam, threshold, w, r)
  {
    var idx := Kept(z);
    r := Scatter(v, idx, |w|);
    assert Select(r, idx) == v;
    forall j | 0 <= j < |x| && Abs(w[j]) <= threshold ensures r[j] == 0.0 {
      assert z[j];
      assert j !in idx;
    }
  }

  lemma NonZeroKept(w: Vec, threshold: real)
    requires threshold >= 0.0
    ensures forall j :: 0 <= j < |Kept(ZeroMask(w, threshold))| ==> Select(w, Kept(ZeroMask(w, threshold)))[j] != 0.0
  {}

  /** The ridge solution from the cached data, put back in place. */
  method FullStep(x: Mat, y: Vec, lam: real, threshold: real, w: Vec, z: seq<bool>, mode: nat,
                  xx: Mat, xy: Vec, xnz: Mat, solve: (Mat, Vec) -> Vec, root: real -> real)
    returns (v: Vec)
    requires Columns(x, |y|) && |w| == |x| && threshold >= 0.0 && lam > 0.0 && mode <= 3
    requires z == ZeroMask(w, threshold) && CacheMatches(x, y, mode, z, xx, xy, xnz)
    requires ExactSolver(solve) && forall t :: t > 0.0 ==> IsRoot(root(t), t)
    ensures RidgeStep(x, y, lam, threshold, w, v)
  {
    NonZeroKept(w, threshold);
    var u := ModeSolve(mode, xx, xy, xnz, |y|, lam, Select(w, Kept(z)), solve, root, Select(x, Kept(z)), y);
    v := Replace(x, y, lam, threshold, w, z, u);
  }

  /** The main loop. `step` stands for the line search, which is not modelled. The source uses
      restricted data that it has never formed, and so fails, exactly when the first iteration
      finds every weight within the threshold; otherwise every logged point follows from the
      one before it by the same ridge step, whatever the mode. */
  method Solve(x: Mat, y: Vec, lam: real, w0: Vec, threshold: real, maxIter: nat, optTol: real, verbose: bool,
               lineMinIter: nat, mode: nat, solve: (Mat, Vec) -> Vec, root: real -> real, step: nat -> real)
    returns (r: Outcome, ghost full: seq<Vec>)
    requires Columns(x, |y|) && |w0| == |x| && lam >= 0.0 && threshold >= 0.0 && lineMinIter > 0 && mode <= 3
    requires ExactSolver(solve) && forall t :: t > 0.0 ==> IsRoot(root(t), t)
    ensures r.Undefined? <==> lam > 0.0 && maxIter > 0 && forall j :: 0 <= j < |w0| ==> Abs(w0[j]) <= threshold
    ensures r.Finished? ==>
      && IsTrace(x, y, lam, threshold, lineMinIter, step, r.wp, full)
      && r.wp[0] == w0 && r.w == r.wp[|r.wp| - 1] && |full| <= maxIter
      && (lam == 0.0 ==> full == [])
      && (lam > 0.0 && maxIter > 0 ==>
            |full| > 0 && GoesOn(r.wp, |full| - 1, |x|, optTol, verbose)
            && (|full| == maxIter || Leaves(r.wp[|full| - 1], r.w, optTol, verbose)))
  {
    var w, wp, i := w0, [w0], 0;
    full := [];
    if lam == 0.0 {
      return Finished(w, wp), full;
    }
    var zerosOld := seq(|x|, j => true);
    var xxFull, xyFull := Gram(x, |y|), Proj(x, y);
    var xx, xy, xnz, defined := [], [], [], false;
    while i < maxIter
      invariant i == |full| <= maxIter && |zerosOld| == |x|
      invariant IsTrace(x, y, lam, threshold, lineMinIter, step, wp, full)
      invariant wp[0] == w0 && w == wp[i] && i + 1 == |wp|
      invariant defined ==> CacheMatches(x, y, mode, zerosOld, xx, xy, xnz)
      invariant defined <==> i > 0
      invariant GoesOn(wp, i, |x|, optTol, verbose)
      invariant i == 0 ==> forall j :: 0 <= j < |x| ==> zerosOld[j]
      invariant i > 0 ==> exists j :: 0 <= j < |w0| && Abs(w0[j]) > threshold
      decreases maxIter - i
    {
      var wOld := w;
      var zerosNew := ZeroMask(w, threshold);
      if zerosNew != zerosOld {
        xx, xy, xnz := Refresh(x, y, mode, zerosNew, xxFull, xyFull, xx, xnz);
        defined := true;
      }
      if !defined {
        AllMasked(w0, threshold, zerosNew);
        return Undefined, full;
      }
      if i == 0 { FirstMask(w0, threshold, zerosNew, zerosOld); }
      w := FullStep(x, y, lam, threshold, wOld, zerosNew, mode, xx, xy, xnz, solve, root);
      zerosOld := zerosNew;
      full := full + [w];
      w := Accept(i, lineMinIter, step(i), wOld, w);
      GoesOnMore(wp, i, |x|, optTol, verbose, w);
      wp := wp + [w];
      ExtendTrace(x, y, lam, threshold, lineMinIter, step, wp, full, i);
      i := i + 1;
      if Leaves(wOld, w, optTol, verbose) {
        break;
      }
    }
    return Finished(w, wp), full;
  }

  /** The starting weights: (X'X + lambda*I)*w0 = X'y. For y = 0 they are zero, so that the loop
      then starts with every weight within the threshold, whatever X. */
  lemma StartsMasked(x: Mat, y: Vec, lam: real, threshold: real, w0: Vec)
    requires Columns(x, |y|) && |w0| == |x| && lam > 0.0 && threshold >= 0.0 && y == Zero(|y|)
    requires Ridge(x, |y|, Proj(x, y), seq(|x|, j => lam), w0)
    ensures forall j :: 0 <= j < |w0| ==> Abs(w0[j]) <= threshold
  {
    forall j | 0 <= j < |x| ensures Proj(x, y)[j] == 0.0 {
      SumToZero(Had(x[j], y), |y|);
    }
    assert Proj(x, y) == Zero(|x|);
    RidgeZero(x, |y|, seq(|x|, j => lam), w0);
  }

  lemma AllMasked(w0: Vec, threshold: real, z: seq<bool>)
    requires z == ZeroMask(w0, threshold) && forall j :: 0 <= j < |z| ==> z[j]
    ensures forall j :: 0 <= j < |w0| ==> Abs(w0[j]) <= threshold
  {
    forall j | 0 <= j < |w0| ensures Abs(w0[j]) <= threshold { assert z[j]; }
  }

  lemma FirstMask(w0: Vec, threshold: real, z: seq<bool>, all: seq<bool>)
    requires |all| == |w0| && z == ZeroMask(w0, threshold) && z != all && forall j :: 0 <= j < |all| ==> all[j]
    ensures exists j :: 0 <= j < |w0| && Abs(w0[j]) > threshold
  {
    var j :| 0 <= j < |z| && z[j] != all[j];
    assert Abs(w0[j]) > threshold;
  }

  lemma ExtendTrace(x: Mat, y: Vec, lam: real, threshold: real, lineMinIter: nat,
                    steps: nat -> real, wp: seq<Vec>, full: seq<Vec>, i: nat)
    requires Columns(x, |y|) && threshold >= 0.0 && lineMinIter > 0 && |full| == i + 1 && |wp| == i + 2
    requires IsTrace(x, y, lam, threshold, lineMinIter, steps, wp[..i + 1], full[..i])
    requires RidgeStep(x, y, lam, threshold, wp[i], full[i])
    requires wp[i + 1] == Accept(i, lineMinIter, steps(i), wp[i], full[i])
    ensures IsTrace(x, y, lam, threshold, lineMinIter, steps, wp, full)
  {
    forall k | 0 <= k < i ensures TraceStep(x, y, lam, threshold, lineMinIter, steps, wp, full, k) {
      assert TraceStep(x, y, lam, threshold, lineMinIter, steps, wp[..i + 1], full[..i], k);
    }
  }

  /** Along a whole run: outside the line-search iterations the objective never rises above that
      of the thresholded previous point, and variables at zero stay at zero. */
  lemma RunDescends(x: Mat, y: Vec, lam: real, threshold: real, lineMinIter: nat,
                    steps: nat -> real, wp: seq<Vec>, full: seq<Vec>, i: nat)
    requires Columns(x, |y|) && threshold >= 0.0 && lineMinIter > 0 && lam > 0.0
    requires IsTrace(x, y, lam, threshold, lineMinIter, steps, wp, full) && i < |full|
    requires i == 0 || i % lineMinIter != 0
    ensures Objective(x, y, lam, wp[i + 1]) <= Objective(x, y, lam, Thresholded(wp[i], threshold))
    ensures forall j :: 0 <= j < |x| && Abs(wp[i][j]) <= threshold ==> Abs(wp[i + 1][j]) <= threshold
  {
    assert TraceStep(x, y, lam, threshold, lineMinIter, steps, wp, full, i);
    StepDescends(x, y, lam, threshold, wp[i], full[i]);
    forall j | 0 <= j < |x| && Abs(wp[i][j]) <= threshold ensures Abs(wp[i + 1][j]) <= threshold {
      ZerosGrow(x, y, lam, threshold, wp[i], full[i], j);
      assert ZeroMask(wp[i], threshold)[j] && ZeroMask(full[i], threshold)[j];
    }
  }
}
