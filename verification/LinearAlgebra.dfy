/** Finite vectors over exact reals, and the few facts about sums, products and
    linear combinations of columns that every solver in this project rests on.

    A matrix X is held column by column. `Comb(X, w, n)` is X*w and `Proj(X, r)` is X'*r;
    `Adjoint` is the one law connecting the two.
 */
module LinearAlgebra {

  type Vec = seq<real>
  type Mat = seq<Vec>

  function Abs(x: real): real {
    if x < 0.0 then -x else x
  }

  function Max(x: real, y: real): real {
    if x < y then y else x
  }

  function Min(x: real, y: real): real {
    if x < y then x else y
  }

  /** Every one of the vectors in `m` has length n. */
  predicate Columns(m: Mat, n: nat) {
    forall j :: 0 <= j < |m| ==> |m[j]| == n
  }

  // ----- element-wise operations

  function Zero(n: nat): (r: Vec) {
    seq(n, i => 0.0)
  }

  function Ones(n: nat): (r: Vec) {
    seq(n, i => 1.0)
  }

  function Add(a: Vec, b: Vec): (r: Vec)
    requires |a| == |b|
  {
    seq(|a|, i requires 0 <= i < |a| => a[i] + b[i])
  }

  function Sub(a: Vec, b: Vec): (r: Vec)
    requires |a| == |b|
  {
    seq(|a|, i requires 0 <= i < |a| => a[i] - b[i])
  }

  function Scale(t: real, a: Vec): (r: Vec) {
    seq(|a|, i requires 0 <= i < |a| => t * a[i])
  }

  /** Element-wise product. */
  function Had(a: Vec, b: Vec): (r: Vec)
    requires |a| == |b|
  {
    seq(|a|, i requires 0 <= i < |a| => a[i] * b[i])
  }

  function AbsVec(a: Vec): (r: Vec) {
    seq(|a|, i requires 0 <= i < |a| => Abs(a[i]))
  }

  lemma AddAssoc(a: Vec, b: Vec, c: Vec)
    requires |a| == |b| == |c|
    ensures Add(a, Add(b, c)) == Add(Add(a, b), c)
  {}

  lemma AddSwap(a: Vec, b: Vec, c: Vec)
    requires |a| == |b| == |c|
    ensures Add(Add(a, b), c) == Add(Add(a, c), b)
  {}

  // ----- sums

  /** The sum of the first k entries. */
  function SumTo(v: Vec, k: nat): real
    requires k <= |v|
  {
    if k == 0 then 0.0 else SumTo(v, k - 1) + v[k - 1]
  }

  function Sum(v: Vec): real {
    SumTo(v, |v|)
  }

  function Dot(a: Vec, b: Vec): real
    requires |a| == |b|
  {
    Sum(Had(a, b))
  }

  function SqNorm(a: Vec): real {
    Dot(a, a)
  }

  function Norm1(a: Vec): real {
    Sum(AbsVec(a))
  }

  lemma {:induction false} SumToEq(v: Vec, w: Vec, k: nat)
    requires k <= |v| && k <= |w|
    requires forall i :: 0 <= i < k ==> v[i] == w[i]
    ensures SumTo(v, k) == SumTo(w, k)
  {
    if k > 0 { SumToEq(v, w, k - 1); }
  }

  lemma {:induction false} SumToZero(v: Vec, k: nat)
    requires k <= |v|
    requires forall i :: 0 <= i < k ==> v[i] == 0.0
    ensures SumTo(v, k) == 0.0
  {
    if k > 0 { SumToZero(v, k - 1); }
  }

  lemma {:induction false} SumToAdd(v: Vec, w: Vec, k: nat)
    requires |v| == |w| && k <= |v|
    ensures SumTo(Add(v, w), k) == SumTo(v, k) + SumTo(w, k)
  {
    if k > 0 { SumToAdd(v, w, k - 1); }
  }

  lemma {:induction false} SumToScale(t: real, v: Vec, k: nat)
    requires k <= |v|
    ensures SumTo(Scale(t, v), k) == Mul(t, SumTo(v, k))
  {
    if k > 0 { SumToScale(t, v, k - 1); }
  }

  lemma SumSub(v: Vec, w: Vec)
    requires |v| == |w|
    ensures Sum(Sub(v, w)) == Sum(v) - Sum(w)
  {
    SumToAdd(Sub(v, w), w, |v|);
    SumToEq(Add(Sub(v, w), w), v, |v|);
  }

  lemma {:induction false} SumToLe(v: Vec, w: Vec, k: nat)
    requires k <= |v| && k <= |w|
    requires forall i :: 0 <= i < k ==> v[i] <= w[i]
    ensures SumTo(v, k) <= SumTo(w, k)
  {
    if k > 0 { SumToLe(v, w, k - 1); }
  }

  /** A sum of non-negative terms bounds every partial sum and every term. */
  lemma {:induction false} TermLeSum(v: Vec, k: nat, i: nat)
    requires k <= |v| && i < k
    requires forall a :: 0 <= a < k ==> v[a] >= 0.0
    ensures 0.0 <= v[i] <= SumTo(v, k)
  {
    SumToNonNeg(v, k - 1);
    if i < k - 1 { TermLeSum(v, k - 1, i); }
  }

  lemma {:induction false} SumToNonNeg(v: Vec, k: nat)
    requires k <= |v|
    requires forall a :: 0 <= a < k ==> v[a] >= 0.0
    ensures SumTo(v, k) >= 0.0
  {
    if k > 0 { SumToNonNeg(v, k - 1); }
  }

  /** Changing one entry changes the sum by the change of that entry. */
  lemma {:induction false} SumToUpdate(v: Vec, j: nat, x: real, k: nat)
    requires j < |v| && k <= |v|
    ensures SumTo(v[j := x], k) == SumTo(v, k) + (if j < k then x - v[j] else 0.0)
  {
    if k > 0 { SumToUpdate(v, j, x, k - 1); }
  }

  lemma {:induction false} SumConcat(u: Vec, v: Vec, k: nat)
    requires k <= |v|
    ensures SumTo(u + v, |u| + k) == Sum(u) + SumTo(v, k)
  {
    if k == 0 { SumToEq(u + v, u, |u|); } else { SumConcat(u, v, k - 1); }
  }

  // ----- products

  lemma DotSym(a: Vec, b: Vec)
    requires |a| == |b|
    ensures Dot(a, b) == Dot(b, a)
  {
    assert Had(a, b) == Had(b, a);
  }

  lemma DotAdd(r: Vec, a: Vec, b: Vec)
    requires |r| == |a| == |b|
    ensures Dot(r, Add(a, b)) == Dot(r, a) + Dot(r, b)
  {
    forall i | 0 <= i < |r| ensures Had(r, Add(a, b))[i] == Had(r, a)[i] + Had(r, b)[i] {
      Distribute(r[i], a[i], b[i]);
    }
    assert Had(r, Add(a, b)) == Add(Had(r, a), Had(r, b));
    SumToAdd(Had(r, a), Had(r, b), |r|);
  }

  lemma DotSub(r: Vec, a: Vec, b: Vec)
    requires |r| == |a| == |b|
    ensures Dot(r, Sub(a, b)) == Dot(r, a) - Dot(r, b)
  {
    forall i | 0 <= i < |r| ensures Had(r, Sub(a, b))[i] == Had(r, a)[i] - Had(r, b)[i] {
      Distribute(r[i], a[i], -b[i]);
    }
    assert Had(r, Sub(a, b)) == Sub(Had(r, a), Had(r, b));
    SumSub(Had(r, a), Had(r, b));
  }

  lemma DotScale(r: Vec, t: real, a: Vec)
    requires |r| == |a|
    ensures Dot(r, Scale(t, a)) == Mul(t, Dot(r, a))
  {
    forall i | 0 <= i < |r| ensures Had(r, Scale(t, a))[i] == Scale(t, Had(r, a))[i] {
      Reassociate(r[i], t, a[i]);
    }
    assert Had(r, Scale(t, a)) == Scale(t, Had(r, a));
    SumToScale(t, Had(r, a), |r|);
  }

  lemma Dot1(a: Vec, b: Vec)
    requires |a| == |b| == 1
    ensures Dot(a, b) == a[0] * b[0]
  {
    var h := Had(a, b);
    assert SumTo(h, 1) == SumTo(h, 0) + h[0];
  }

  lemma Dot2(a: Vec, b: Vec)
    requires |a| == |b| == 2
    ensures Dot(a, b) == a[0] * b[0] + a[1] * b[1]
  {
    var h := Had(a, b);
    assert SumTo(h, 2) == SumTo(h, 1) + h[1];
    assert SumTo(h, 1) == SumTo(h, 0) + h[0];
  }

  lemma DotConcat(a: Vec, b: Vec, c: Vec, d: Vec)
    requires |a| == |c| && |b| == |d|
    ensures Dot(a + b, c + d) == Dot(a, c) + Dot(b, d)
  {
    forall i | 0 <= i < |a + b| ensures Had(a + b, c + d)[i] == (Had(a, c) + Had(b, d))[i] {
      if i >= |a| {
        assert (a + b)[i] == b[i - |a|] && (c + d)[i] == d[i - |a|];
      }
    }
    assert Had(a + b, c + d) == Had(a, c) + Had(b, d);
    SumConcat(Had(a, c), Had(b, d), |b|);
  }

  lemma Distribute(x: real, y: real, z: real)
    ensures x * (y + z) == x * y + x * z
    ensures (y + z) * x == y * x + z * x
  {}

  lemma Reassociate(x: real, y: real, z: real)
    ensures x * (y * z) == y * (x * z) == (x * y) * z
  {}

  lemma ScaleMono(k: real, x: real, y: real)
    requires k >= 0.0 && x <= y
    ensures k * x <= k * y
    ensures x * k <= y * k
  {}

  lemma ProductNonNeg(x: real, y: real)
    requires x >= 0.0 && y >= 0.0
    ensures x * y >= 0.0
  {}

  lemma ZeroFactor(g: real, u: real)
    requires g > 0.0
    ensures g * u == 0.0 ==> u == 0.0
  {}

  lemma SameProduct(x: real, y: real, z: real)
    requires y == z
    ensures x * y == x * z
  {}

  lemma NegatedProduct(x: real, y: real, z: real)
    requires z == -y
    ensures x * z == -(x * y)
    ensures z * x == -(y * x)
  {}

  lemma MulMono(k: real, x: real, y: real)
    requires k >= 0.0 && x <= y
    ensures Mul(k, x) <= Mul(k, y)
  {}

  lemma MulAdd(k: real, x: real, y: real)
    ensures Mul(k, x + y) == Mul(k, x) + Mul(k, y)
  {}

  lemma DistributeSub(g: real, c: real, b: real, d: real)
    requires d == c - b
    ensures Mul(g, d) == Mul(g, c) - Mul(g, b)
  {}

  lemma AbsProduct(s: real, t: real, v: real)
    requires Abs(s) <= v
    ensures -(v * Abs(t)) <= s * t <= v * Abs(t)
  {
    if t >= 0.0 {
      ScaleMono(t, -v, s);
      ScaleMono(t, s, v);
      NegatedProduct(t, v, -v);
      SameProduct(v, Abs(t), t);
    } else {
      var u := -t;
      ScaleMono(u, -v, s);
      ScaleMono(u, s, v);
      NegatedProduct(u, v, -v);
      NegatedProduct(s, t, u);
      SameProduct(v, Abs(t), u);
    }
  }

  ghost function Mul(x: real, y: real): real {
    x * y
  }

  lemma MulPos(x: real, y: real)
    requires (x > 0.0 && y > 0.0) || (x < 0.0 && y < 0.0)
    ensures Mul(x, y) > 0.0
  {}

  /** The sign of a square, with the square itself passed as `y`. */
  lemma Square(x: real, y: real)
    requires y == x * x
    ensures y >= 0.0
    ensures x != 0.0 <==> y > 0.0
  {
    assert y == Mul(x, x);
    if x != 0.0 { MulPos(x, x); }
  }

  lemma SqNormNonNeg(a: Vec)
    ensures SqNorm(a) >= 0.0
    ensures SqNorm(a) == 0.0 <==> a == Zero(|a|)
  {
    var h := Had(a, a);
    forall i | 0 <= i < |a| ensures h[i] >= 0.0 { Square(a[i], h[i]); }
    SumToNonNeg(h, |a|);
    if i :| 0 <= i < |a| && a[i] != 0.0 {
      Square(a[i], h[i]);
      TermLeSum(h, |a|, i);
    } else {
      assert a == Zero(|a|);
      SumToZero(h, |a|);
    }
  }

  /** ||a + b||^2 = ||a||^2 + 2 a.b + ||b||^2 */
  lemma SqNormAdd(a: Vec, b: Vec)
    requires |a| == |b|
    ensures SqNorm(Add(a, b)) == SqNorm(a) + 2.0 * Dot(a, b) + SqNorm(b)
  {
    var s := Add(a, b);
    DotAdd(s, a, b);
    DotSym(s, a);
    DotAdd(a, a, b);
    DotSym(s, b);
    DotAdd(b, a, b);
    DotSym(a, b);
  }

  /** (a.b)^2 <= ||a||^2 * ||b||^2 */
  lemma CauchySchwarz(a: Vec, b: Vec)
    requires |a| == |b|
    ensures Mul(Dot(a, b), Dot(a, b)) <= Mul(SqNorm(a), SqNorm(b))
  {
    var p, q, c := SqNorm(a), SqNorm(b), Dot(a, b);
    SqNormNonNeg(b);
    if q == 0.0 {
      SumToZero(Had(a, b), |a|);
    } else {
      var u, v := Scale(q, a), Scale(-c, b);
      SqNormAdd(u, v);
      SqNormNonNeg(Add(u, v));
      ScaledProducts(a, b, q, -c);
      CauchyRoot(p, q, c, SqNorm(Add(u, v)));
    }
  }

  lemma ScaledProducts(a: Vec, b: Vec, q: real, k: real)
    requires |a| == |b|
    ensures SqNorm(Scale(q, a)) == Mul(q, Mul(q, SqNorm(a))) && SqNorm(Scale(k, b)) == Mul(k, Mul(k, SqNorm(b)))
    ensures Dot(Scale(q, a), Scale(k, b)) == Mul(k, Mul(q, Dot(a, b)))
  {
    DotScale(Scale(q, a), q, a);
    DotSym(Scale(q, a), a);
    DotScale(a, q, a);
    DotScale(Scale(k, b), k, b);
    DotSym(Scale(k, b), b);
    DotScale(b, k, b);
    DotScale(Scale(q, a), k, b);
    DotSym(Scale(q, a), b);
    DotScale(b, q, a);
    DotSym(a, b);
  }

  lemma CauchyRoot(p: real, q: real, c: real, norm: real)
    requires q > 0.0 && norm >= 0.0
    requires norm == Mul(q, Mul(q, p)) + 2.0 * Mul(-c, Mul(q, c)) + Mul(-c, Mul(-c, q))
    ensures Mul(c, c) <= Mul(p, q)
  {
    var rest := p * q - c * c;
    assert norm == q * rest;
    if rest < 0.0 { MulPos(q, -rest); }
  }

  // ----- linear combinations of columns

  /** The combination of the first k columns, as a vector of length n. */
  function CombTo(x: Mat, w: Vec, n: nat, k: nat): (r: Vec)
    requires Columns(x, n) && |x| == |w| && k <= |x|
    ensures |r| == n
  {
    if k == 0 then Zero(n) else Add(CombTo(x, w, n, k - 1), Scale(w[k - 1], x[k - 1]))
  }

  /** X * w */
  function Comb(x: Mat, w: Vec, n: nat): (r: Vec)
    requires Columns(x, n) && |x| == |w|
    ensures |r| == n
  {
    CombTo(x, w, n, |x|)
  }

  /** X' * r */
  function Proj(x: Mat, r: Vec): (v: Vec)
    requires Columns(x, |r|)
  {
    seq(|x|, j requires 0 <= j < |x| => Dot(x[j], r))
  }

  lemma {:induction false} AdjointTo(x: Mat, w: Vec, r: Vec, k: nat)
    requires Columns(x, |r|) && |x| == |w| && k <= |x|
    ensures Dot(r, CombTo(x, w, |r|, k)) == SumTo(Had(Proj(x, r), w), k)
  {
    if k == 0 {
      SumToZero(Had(r, Zero(|r|)), |r|);
    } else {
      AdjointTo(x, w, r, k - 1);
      var c := Scale(w[k - 1], x[k - 1]);
      DotAdd(r, CombTo(x, w, |r|, k - 1), c);
      DotScale(r, w[k - 1], x[k - 1]);
      DotSym(r, x[k - 1]);
    }
  }

  /** r . (X w) = (X' r) . w */
  lemma Adjoint(x: Mat, w: Vec, r: Vec)
    requires Columns(x, |r|) && |x| == |w|
    ensures Dot(r, Comb(x, w, |r|)) == Dot(Proj(x, r), w)
  {
    AdjointTo(x, w, r, |x|);
  }

  lemma ScaleSum(a: real, b: real, c: Vec)
    ensures Scale(a + b, c) == Add(Scale(a, c), Scale(b, c))
  {
    forall i | 0 <= i < |c| ensures Scale(a + b, c)[i] == Scale(a, c)[i] + Scale(b, c)[i] {
      Distribute(c[i], a, b);
    }
    assert Scale(a + b, c) == Add(Scale(a, c), Scale(b, c));
  }

  lemma {:induction false} CombToAdd(x: Mat, w: Vec, v: Vec, n: nat, k: nat)
    requires Columns(x, n) && |x| == |w| == |v| && k <= |x|
    ensures CombTo(x, Add(w, v), n, k) == Add(CombTo(x, w, n, k), CombTo(x, v, n, k))
  {
    if k > 0 {
      CombToAdd(x, w, v, n, k - 1);
      ScaleSum(w[k - 1], v[k - 1], x[k - 1]);
    }
  }

  lemma CombAdd(x: Mat, w: Vec, v: Vec, n: nat)
    requires Columns(x, n) && |x| == |w| == |v|
    ensures Comb(x, Add(w, v), n) == Add(Comb(x, w, n), Comb(x, v, n))
  {
    CombToAdd(x, w, v, n, |x|);
  }

  lemma {:induction false} CombToScale(x: Mat, t: real, w: Vec, n: nat, k: nat)
    requires Columns(x, n) && |x| == |w| && k <= |x|
    ensures CombTo(x, Scale(t, w), n, k) == Scale(t, CombTo(x, w, n, k))
  {
    if k > 0 {
      CombToScale(x, t, w, n, k - 1);
      var c, a, u := x[k - 1], w[k - 1], CombTo(x, w, n, k - 1);
      forall i | 0 <= i < n
        ensures Scale(t, Add(u, Scale(a, c)))[i] == Add(Scale(t, u), Scale(t * a, c))[i]
      {
        Distribute(t, u[i], a * c[i]);
        Reassociate(t, a, c[i]);
      }
      assert Scale(t, w)[k - 1] == t * a;
      assert Scale(t, Add(u, Scale(a, c))) == Add(Scale(t, u), Scale(t * a, c));
    } else {
      assert Scale(t, Zero(n)) == Zero(n);
    }
  }

  lemma CombScale(x: Mat, t: real, w: Vec, n: nat)
    requires Columns(x, n) && |x| == |w|
    ensures Comb(x, Scale(t, w), n) == Scale(t, Comb(x, w, n))
  {
    CombToScale(x, t, w, n, |x|);
  }

  lemma CombSub(x: Mat, w: Vec, v: Vec, n: nat)
    requires Columns(x, n) && |x| == |w| == |v|
    ensures Comb(x, Sub(w, v), n) == Sub(Comb(x, w, n), Comb(x, v, n))
  {
    CombAdd(x, Sub(w, v), v, n);
    assert Add(Sub(w, v), v) == w;
    var d, c := Comb(x, Sub(w, v), n), Comb(x, v, n);
    assert Sub(Add(d, c), c) == d;
  }

  lemma ProjAdd(x: Mat, r: Vec, s: Vec)
    requires |r| == |s| && Columns(x, |r|)
    ensures Proj(x, Add(r, s)) == Add(Proj(x, r), Proj(x, s))
  {
    forall j | 0 <= j < |x| ensures Dot(x[j], Add(r, s)) == Dot(x[j], r) + Dot(x[j], s) {
      DotAdd(x[j], r, s);
    }
  }

  lemma ProjSub(x: Mat, r: Vec, s: Vec)
    requires |r| == |s| && Columns(x, |r|)
    ensures Proj(x, Sub(r, s)) == Sub(Proj(x, r), Proj(x, s))
  {
    forall j | 0 <= j < |x| ensures Dot(x[j], Sub(r, s)) == Dot(x[j], r) - Dot(x[j], s) {
      DotSub(x[j], r, s);
    }
  }

  lemma ProjScale(x: Mat, t: real, r: Vec)
    requires Columns(x, |r|)
    ensures Proj(x, Scale(t, r)) == Scale(t, Proj(x, r))
  {
    forall j | 0 <= j < |x| ensures Proj(x, Scale(t, r))[j] == Scale(t, Proj(x, r))[j] {
      DotScale(x[j], t, r);
    }
    assert Proj(x, Scale(t, r)) == Scale(t, Proj(x, r));
  }

  /** X'X, the matrix of products of columns. */
  function Gram(x: Mat, n: nat): (g: Mat)
    requires Columns(x, n)
  {
    seq(|x|, j requires 0 <= j < |x| => Proj(x, x[j]))
  }

  /** A row of X'X times w is the product of that column of X with X*w. */
  lemma GramTimes(x: Mat, w: Vec, n: nat, j: nat)
    requires Columns(x, n) && |x| == |w| && j < |x|
    ensures Dot(Gram(x, n)[j], w) == Proj(x, Comb(x, w, n))[j]
  {
    Adjoint(x, w, x[j]);
  }

  /** Changing one weight moves X*w along one column. */
  lemma CombUpdate(x: Mat, w: Vec, j: nat, t: real, n: nat)
    requires Columns(x, n) && |x| == |w| && j < |x|
    ensures Comb(x, w[j := w[j] + t], n) == Add(Comb(x, w, n), Scale(t, x[j]))
  {
    CombToUpdate(x, w, j, t, n, |x|);
  }

  lemma {:induction false} CombToUpdate(x: Mat, w: Vec, j: nat, t: real, n: nat, k: nat)
    requires Columns(x, n) && |x| == |w| && j < |x| && k <= |x|
    ensures CombTo(x, w[j := w[j] + t], n, k)
         == if j < k then Add(CombTo(x, w, n, k), Scale(t, x[j])) else CombTo(x, w, n, k)
  {
    if k > 0 {
      CombToUpdate(x, w, j, t, n, k - 1);
      var u, c := CombTo(x, w, n, k - 1), Scale(w[k - 1], x[k - 1]);
      if j == k - 1 {
        ScaleSum(w[k - 1], t, x[k - 1]);
        AddAssoc(u, c, Scale(t, x[j]));
      } else if j < k - 1 {
        AddSwap(u, Scale(t, x[j]), c);
      }
    }
  }

  // ----- square systems, held by rows

  predicate IsSquare(m: Mat, n: nat) {
    |m| == n && forall i :: 0 <= i < n ==> |m[i]| == n
  }

  /** m * v = 0 only for v = 0. */
  ghost predicate Nonsingular(m: Mat, n: nat)
    requires IsSquare(m, n)
  {
    forall v: Vec :: |v| == n && Proj(m, v) == Zero(n) ==> v == Zero(n)
  }

  /** A linear solver that is exact on every nonsingular square system. */
  ghost predicate ExactSolver(solve: (Mat, Vec) -> Vec) {
    forall m: Mat, b: Vec :: IsSquare(m, |b|) && Nonsingular(m, |b|) ==> Solution(m, b, solve(m, b))
  }

  ghost predicate Solution(m: Mat, b: Vec, v: Vec)
    requires IsSquare(m, |b|)
  {
    |v| == |b| && Proj(m, v) == b
  }

  /** Row a of the matrix with columns x. */
  function RowOf(x: Mat, n: nat, a: nat): (r: Vec)
    requires Columns(x, n) && a < n
  {
    seq(|x|, j requires 0 <= j < |x| => x[j][a])
  }

  lemma {:induction false} CombToAt(x: Mat, w: Vec, n: nat, k: nat, a: nat)
    requires Columns(x, n) && |x| == |w| && k <= |x| && a < n
    ensures CombTo(x, w, n, k)[a] == SumTo(Had(w, RowOf(x, n, a)), k)
  {
    if k > 0 { CombToAt(x, w, n, k - 1, a); }
  }

  /** An entry of X*w is a row of X times w. */
  lemma CombAt(x: Mat, w: Vec, n: nat, a: nat)
    requires Columns(x, n) && |x| == |w| && a < n
    ensures Comb(x, w, n)[a] == Dot(w, RowOf(x, n, a))
  {
    CombToAt(x, w, n, |x|, a);
  }

  lemma UpdatedProduct(row: Vec, v: Vec, j: nat, e: real)
    requires |row| == |v| && j < |row|
    ensures Dot(row[j := e], v) == Dot(row, v) + Mul(e, v[j]) - Mul(row[j], v[j])
  {
    var h := Had(row, v);
    SumToUpdate(h, j, Mul(e, v[j]), |row|);
    var after, target := Had(row[j := e], v), h[j := Mul(e, v[j])];
    forall i | 0 <= i < |row| ensures after[i] == target[i] {
      if i == j { SameProduct(v[j], row[j := e][j], e); }
    }
    assert after == target;
  }

  /** Adding c at position j of a row adds c times that entry to a product. */
  lemma DiagonalRow(row: Vec, v: Vec, j: nat, c: real)
    requires |row| == |v| && j < |row|
    ensures Dot(row[j := row[j] + c], v) == Dot(row, v) + Mul(c, v[j])
  {
    UpdatedProduct(row, v, j, row[j] + c);
    Distribute(v[j], row[j], c);
  }

  /** If each entry of X'Xd is a negative multiple of that entry of d, then d is zero. */
  lemma EnergyZero(x: Mat, n: nat, c: Vec, d: Vec)
    requires Columns(x, n) && |x| == |c| == |d|
    requires forall j :: 0 <= j < |x| ==> c[j] > 0.0 && Proj(x, Comb(x, d, n))[j] == -Mul(c[j], d[j])
    ensures d == Zero(|d|)
  {
    var e := Comb(x, d, n);
    Adjoint(x, d, e);
    SqNormNonNeg(e);
    var h := Had(Proj(x, e), d);
    forall j | 0 <= j < |d| ensures Scale(-1.0, h)[j] >= 0.0 && (d[j] != 0.0 ==> Scale(-1.0, h)[j] > 0.0) {
      EnergyTerm(c[j], d[j], Proj(x, e)[j], h[j]);
    }
    SumToScale(-1.0, h, |d|);
    if j :| 0 <= j < |d| && d[j] != 0.0 {
      TermLeSum(Scale(-1.0, h), |d|, j);
    }
  }

  lemma EnergyTerm(c: real, d: real, p: real, h: real)
    requires c > 0.0 && p == -Mul(c, d) && h == p * d
    ensures -1.0 * h >= 0.0 && (d != 0.0 ==> -1.0 * h > 0.0)
  {
    var s := d * d;
    Square(d, s);
    assert -h == c * s;
    if d != 0.0 { MulPos(c, s); assert Mul(c, s) == -h; }
  }
}
