/** The pivoted, modified L*D*L' factorisation of `mchol`.

    The working matrices are updated in place, as in the source. The invariants are stated
    on snapshots (`Work`) of those matrices, so that each of them is preserved by a lemma
    about plain values.
 */
module ModifiedCholesky {
  import opened LinearAlgebra
  import opened Indexing

  /** The modified pivot for a remaining diagonal x and a largest entry theta below it. */
  function PivotOf(x: real, theta: real, beta: real, delta: real): (d: real)
    requires beta > 0.0
    ensures d >= delta && d >= Abs(x)
  {
    Max(Max(Abs(x), theta / beta * (theta / beta)), delta)
  }

  /** The sum of a[t]*b[t] over t < k. */
  function PrefixDot(a: Vec, b: Vec, k: nat): real
    requires k <= |a| && k <= |b|
  {
    if k == 0 then 0.0 else PrefixDot(a, b, k - 1) + a[k - 1] * b[k - 1]
  }

  /** The sum of a[t]*d[t]*b[t] over t < k: an entry of L*D*L' when k is the order. */
  ghost function WeightedDot(a: Vec, d: Vec, b: Vec, k: nat): real
    requires k <= |a| && k <= |b| && k <= |d|
  {
    if k == 0 then 0.0 else WeightedDot(a, d, b, k - 1) + a[k - 1] * d[k - 1] * b[k - 1]
  }

  /** What is left of diagonal entry x after eliminating the first k columns of the
      row whose unscaled factor entries are c. */
  function Eliminated(x: real, c: Vec, d: Vec, k: nat): real
    requires k <= |c| && k <= |d| && forall t :: 0 <= t < k ==> d[t] != 0.0
  {
    if k == 0 then x else Eliminated(x, c, d, k - 1) - c[k - 1] * c[k - 1] / d[k - 1]
  }

  // ----- the result, as values

  /** L*D*L' at row a, column b. */
  ghost function Product(l: Mat, d: Vec, n: nat, a: nat, b: nat): real
    requires IsSquare(l, n) && |d| == n && a < n && b < n
  {
    WeightedDot(l[a], d, l[b], n)
  }

  ghost predicate UnitLower(l: Mat, n: nat) {
    && IsSquare(l, n)
    && (forall i :: 0 <= i < n ==> l[i][i] == 1.0)
    && (forall i, k :: 0 <= i < k < n ==> l[i][k] == 0.0)
  }

  /** Diagonal entry i of the permuted matrix after eliminating k columns. */
  ghost function Schur(m: Mat, perm: seq<nat>, l: Mat, d: Vec, n: nat, i: nat, k: nat): real
    requires IsSquare(m, n) && IsPermutation(perm, n) && IsSquare(l, n) && |d| == n && i < n && k <= n
  {
    m[perm[i]][perm[i]] - WeightedDot(l[i], d, l[i], k)
  }

  /** An entry of L*D. */
  ghost function Unscaled(l: Mat, d: Vec, n: nat, i: nat, t: nat): real
    requires IsSquare(l, n) && |d| == n && i < n && t < n
  {
    l[i][t] * d[t]
  }

  /** theta is the largest magnitude below the diagonal in column t of L*D, except that the
      source leaves it at zero in the first and in the last column. */
  ghost predicate IsTheta(l: Mat, d: Vec, n: nat, t: nat, theta: real)
    requires IsSquare(l, n) && |d| == n && t < n
  {
    if t == 0 || t == n - 1 then theta == 0.0
    else
      && (forall i :: t < i < n ==> Abs(Unscaled(l, d, n, i, t)) <= theta)
      && (exists i :: t < i < n && Abs(Unscaled(l, d, n, i, t)) == theta)
  }

  /** L*D*L' has the entries of the permuted matrix below the diagonal. */
  ghost predicate Reconstructs(m: Mat, n: nat, l: Mat, d: Vec, perm: seq<nat>)
    requires IsSquare(m, n) && IsPermutation(perm, n) && IsSquare(l, n) && |d| == n
  {
    forall a, b :: 0 <= b < a < n ==> Product(l, d, n, a, b) == m[perm[a]][perm[b]]
  }

  /** Every pivot is the largest of three lower bounds. */
  ghost predicate PivotsModified(m: Mat, n: nat, delta: real, beta: real, l: Mat, d: Vec, perm: seq<nat>, theta: Vec)
    requires IsSquare(m, n) && IsPermutation(perm, n) && IsSquare(l, n) && |d| == n && |theta| == n && beta > 0.0
  {
    forall t :: 0 <= t < n ==>
      && IsTheta(l, d, n, t, theta[t])
      && d[t] == PivotOf(Schur(m, perm, l, d, n, t, t), theta[t], beta, delta)
  }

  /** Each pivot position takes a remaining diagonal entry of largest magnitude. */
  ghost predicate PivotsLargest(m: Mat, n: nat, l: Mat, d: Vec, perm: seq<nat>)
    requires IsSquare(m, n) && IsPermutation(perm, n) && IsSquare(l, n) && |d| == n
  {
    forall t, b :: 0 <= t <= b < n ==>
      Abs(Schur(m, perm, l, d, n, t, t)) >= Abs(Schur(m, perm, l, d, n, b, t))
  }

  /** The whole result of factorising m. */
  ghost predicate IsFactorisation(m: Mat, n: nat, delta: real, beta: real, l: Mat, d: Vec, perm: seq<nat>, theta: Vec)
    requires IsSquare(m, n) && beta > 0.0
  {
    && IsPermutation(perm, n) && UnitLower(l, n) && |d| == n && |theta| == n
    && Reconstructs(m, n, l, d, perm)
    && PivotsModified(m, n, delta, beta, l, d, perm, theta)
    && PivotsLargest(m, n, l, d, perm)
  }

  /** p is the first position of a largest diagonal entry. */
  ghost predicate IsFirstLargest(m: Mat, n: nat, p: nat)
    requires IsSquare(m, n)
  {
    && p < n
    && (forall b :: 0 <= b < n ==> Abs(m[p][p]) >= Abs(m[b][b]))
    && (forall b :: 0 <= b < p ==> Abs(m[p][p]) > Abs(m[b][b]))
  }

  // ----- the loop invariant, on snapshots of the working matrices

  /** a: the matrix being permuted; c: unscaled columns of L below the diagonal and remaining
      diagonal on it; l, d, perm: the result so far. */
  datatype Work = Work(a: Mat, c: Mat, l: Mat, d: Vec, perm: seq<nat>)

  ghost predicate Shaped(w: Work, n: nat) {
    IsSquare(w.a, n) && IsSquare(w.c, n) && IsSquare(w.l, n) && |w.d| == n && IsPermutation(w.perm, n)
  }

  ghost predicate Permuted(m: Mat, w: Work, n: nat)
    requires IsSquare(m, n) && Shaped(w, n)
  {
    forall i, k :: 0 <= i < n && 0 <= k < n ==> w.a[i][k] == m[w.perm[i]][w.perm[k]]
  }

  /** Rows of L before j are finished, the others are still rows of the identity. */
  ghost predicate LowerDone(w: Work, n: nat, j: nat)
    requires Shaped(w, n) && j <= n
  {
    && (forall i, k :: 0 <= i < n && 0 <= k < n && (k > i || (i >= j && k < i)) ==> w.l[i][k] == 0.0)
    && (forall i :: 0 <= i < n ==> w.l[i][i] == 1.0)
    && (forall i, k :: 0 <= k < i < j ==> Unscaled(w.l, w.d, n, i, k) == w.c[i][k])
  }

  ghost predicate ColumnDone(w: Work, n: nat, s: nat, i: nat)
    requires Shaped(w, n) && s < i < n
  {
    w.c[i][s] == w.a[i][s] - PrefixDot(w.l[s], w.c[i], s)
  }

  ghost predicate ColumnsDone(w: Work, n: nat, j: nat)
    requires Shaped(w, n) && j <= n
  {
    forall s, i :: 0 <= s < j && s < i < n ==> ColumnDone(w, n, s, i)
  }

  /** The first j pivots are positive, so divisions by them are defined. */
  ghost predicate Pivots(w: Work, n: nat, j: nat, delta: real)
    requires Shaped(w, n) && j <= n
  {
    forall t :: 0 <= t < j ==> w.d[t] >= delta
  }

  ghost predicate DiagonalDone(w: Work, n: nat, j: nat, delta: real)
    requires Shaped(w, n) && j <= n && delta > 0.0 && Pivots(w, n, j, delta)
  {
    forall i :: 0 <= i < n ==>
      w.c[i][i] == Eliminated(w.a[i][i], w.c[i], w.d, if i < j then i else j)
  }

  /** theta is the largest magnitude below the diagonal in column t. */
  ghost predicate LargestIn(c: Mat, n: nat, t: nat, theta: real)
    requires IsSquare(c, n) && t < n
  {
    && (forall i :: t < i < n ==> Abs(c[i][t]) <= theta)
    && (exists i :: t < i < n && Abs(c[i][t]) == theta)
  }

  ghost predicate ThetaOf(w: Work, n: nat, t: nat, theta: real)
    requires Shaped(w, n) && t < n
  {
    if t == 0 || t == n - 1 then theta == 0.0 else LargestIn(w.c, n, t, theta)
  }

  ghost predicate PivotsChosen(w: Work, n: nat, j: nat, delta: real, beta: real, theta: Vec)
    requires Shaped(w, n) && j <= n && beta > 0.0 && |theta| == n
  {
    forall t :: 0 <= t < j ==>
      ThetaOf(w, n, t, theta[t]) &&
      w.d[t] == PivotOf(w.c[t][t], theta[t], beta, delta)
  }

  ghost predicate PivotsOrdered(w: Work, n: nat, j: nat, delta: real)
    requires Shaped(w, n) && j <= n && delta > 0.0 && Pivots(w, n, j, delta)
  {
    forall t, b :: 0 <= t < j && t <= b < n ==>
      Abs(w.c[t][t]) >= Abs(Eliminated(w.a[b][b], w.c[b], w.d, t))
  }

  ghost predicate Inv(m: Mat, w: Work, n: nat, j: nat, delta: real, beta: real, theta: Vec)
    requires IsSquare(m, n) && delta > 0.0 && beta > 0.0
  {
    && j <= n && |theta| == n
    && Shaped(w, n)
    && Permuted(m, w, n)
    && LowerDone(w, n, j)
    && ColumnsDone(w, n, j)
    && Pivots(w, n, j, delta)
    && DiagonalDone(w, n, j, delta)
    && PivotsChosen(w, n, j, delta, beta, theta)
    && PivotsOrdered(w, n, j, delta)
  }

  // ----- congruence of the prefix sums

  lemma {:induction false} PrefixDotEq(a: Vec, b: Vec, a': Vec, b': Vec, k: nat)
    requires k <= |a| && k <= |b| && k <= |a'| && k <= |b'|
    requires forall t :: 0 <= t < k ==> a[t] == a'[t] && b[t] == b'[t]
    ensures PrefixDot(a, b, k) == PrefixDot(a', b', k)
  {
    if k > 0 { PrefixDotEq(a, b, a', b', k - 1); }
  }

  lemma {:induction false} EliminatedEq(x: real, c: Vec, d: Vec, c': Vec, d': Vec, k: nat)
    requires k <= |c| && k <= |d| && k <= |c'| && k <= |d'|
    requires forall t :: 0 <= t < k ==> d[t] != 0.0 && c[t] == c'[t] && d[t] == d'[t]
    ensures Eliminated(x, c, d, k) == Eliminated(x, c', d', k)
  {
    if k > 0 { EliminatedEq(x, c, d, c', d', k - 1); }
  }

  // ----- exchanging rows and columns j and q

  function Tr(j: nat, q: nat, i: nat): nat {
    if i == j then q else if i == q then j else i
  }

  ghost predicate Swapped(m: Mat, m': Mat, n: nat, j: nat, q: nat)
    requires j < n && q < n && IsSquare(m, n)
  {
    && IsSquare(m', n)
    && forall i, k {:trigger m'[i][k]} :: 0 <= i < n && 0 <= k < n ==> m'[i][k] == m[Tr(j, q, i)][Tr(j, q, k)]
  }

  ghost predicate Exchanged(w: Work, w': Work, n: nat, j: nat, q: nat)
    requires j < n && q < n && Shaped(w, n)
  {
    && Swapped(w.a, w'.a, n, j, q) && Swapped(w.c, w'.c, n, j, q) && Swapped(w.l, w'.l, n, j, q)
    && |w'.d| == n && |w'.perm| == n
    && (forall i {:trigger w'.d[i]} :: 0 <= i < n ==> w'.d[i] == w.d[Tr(j, q, i)])
    && (forall i {:trigger w'.perm[i]} :: 0 <= i < n ==> w'.perm[i] == w.perm[Tr(j, q, i)])
  }

  lemma ExchangeKeepsPrefix(w: Work, w': Work, n: nat, j: nat, q: nat, i: nat, k: nat)
    requires j <= q < n && Shaped(w, n) && Exchanged(w, w', n, j, q)
    requires i < n && k <= j && forall t :: 0 <= t < k ==> w.d[t] != 0.0
    ensures Eliminated(w'.a[i][i], w'.c[i], w'.d, k)
         == Eliminated(w.a[Tr(j, q, i)][Tr(j, q, i)], w.c[Tr(j, q, i)], w.d, k)
  {
    EliminatedEq(w'.a[i][i], w'.c[i], w'.d, w.c[Tr(j, q, i)], w.d, k);
  }

  lemma ExchangeLower(w: Work, w': Work, n: nat, j: nat, q: nat)
    requires j <= q < n && Shaped(w, n) && Exchanged(w, w', n, j, q) && IsPermutation(w'.perm, n)
    requires LowerDone(w, n, j)
    ensures LowerDone(w', n, j)
  {}

  lemma ExchangeColumns(w: Work, w': Work, n: nat, j: nat, q: nat)
    requires j <= q < n && Shaped(w, n) && Exchanged(w, w', n, j, q) && IsPermutation(w'.perm, n)
    requires LowerDone(w, n, j) && ColumnsDone(w, n, j)
    ensures ColumnsDone(w', n, j)
  {
    forall s, i | 0 <= s < j && s < i < n ensures ColumnDone(w', n, s, i) {
      assert ColumnDone(w, n, s, Tr(j, q, i));
      PrefixDotEq(w'.l[s], w'.c[i], w.l[s], w.c[Tr(j, q, i)], s);
    }
  }

  lemma ExchangeDiagonal(w: Work, w': Work, n: nat, j: nat, q: nat, delta: real)
    requires j <= q < n && Shaped(w, n) && Exchanged(w, w', n, j, q) && IsPermutation(w'.perm, n)
    requires delta > 0.0 && Pivots(w, n, j, delta)
    requires DiagonalDone(w, n, j, delta) && PivotsOrdered(w, n, j, delta)
    ensures Pivots(w', n, j, delta)
    ensures DiagonalDone(w', n, j, delta) && PivotsOrdered(w', n, j, delta)
  {
    forall i | 0 <= i < n
      ensures w'.c[i][i] == Eliminated(w'.a[i][i], w'.c[i], w'.d, if i < j then i else j)
    {
      ExchangeKeepsPrefix(w, w', n, j, q, i, if i < j then i else j);
    }
    forall t, b | 0 <= t < j && t <= b < n
      ensures Abs(w'.c[t][t]) >= Abs(Eliminated(w'.a[b][b], w'.c[b], w'.d, t))
    {
      ExchangeKeepsPrefix(w, w', n, j, q, b, t);
      assert t <= Tr(j, q, b) < n;
    }
  }

  lemma ExchangeTheta(w: Work, w': Work, n: nat, j: nat, q: nat, t: nat, theta: real)
    requires j <= q < n && Shaped(w, n) && Exchanged(w, w', n, j, q) && IsPermutation(w'.perm, n)
    requires t < j && ThetaOf(w, n, t, theta)
    ensures ThetaOf(w', n, t, theta)
  {
    if 0 < t < n - 1 {
      var i :| t < i < n && Abs(w.c[i][t]) == theta;
      assert w'.c[Tr(j, q, i)][t] == w.c[i][t];
      assert t < Tr(j, q, i) < n;
    }
  }

  lemma ExchangeStep(m: Mat, w: Work, w': Work, n: nat, j: nat, q: nat, delta: real, beta: real, theta: Vec)
    requires IsSquare(m, n) && delta > 0.0 && beta > 0.0
    requires j <= q < n && Inv(m, w, n, j, delta, beta, theta) && Exchanged(w, w', n, j, q)
    ensures Inv(m, w', n, j, delta, beta, theta)
  {
    assert IsPermutation(w'.perm, n);
    ExchangeLower(w, w', n, j, q);
    ExchangeColumns(w, w', n, j, q);
    ExchangeDiagonal(w, w', n, j, q, delta);
    forall t | 0 <= t < j ensures ThetaOf(w', n, t, theta[t]) {
      ExchangeTheta(w, w', n, j, q, t, theta[t]);
    }
  }

  // ----- eliminating column j

  /** Row j of L is divided out of row j of c. */
  ghost predicate RowScaled(l: Mat, l': Mat, c: Mat, d: Vec, n: nat, j: nat)
    requires j < n && IsSquare(l, n) && IsSquare(c, n) && |d| == n && forall t :: 0 <= t < j ==> d[t] != 0.0
  {
    && IsSquare(l', n)
    && forall i, k {:trigger l'[i][k]} :: 0 <= i < n && 0 <= k < n ==>
         l'[i][k] == if i == j && k < j then c[j][k] / d[k] else l[i][k]
  }

  /** Column j of c is filled below the diagonal. */
  ghost predicate ColumnFilled(c: Mat, c': Mat, a: Mat, l: Mat, n: nat, j: nat)
    requires j < n && IsSquare(c, n) && IsSquare(a, n) && IsSquare(l, n)
  {
    && IsSquare(c', n)
    && (forall i, k {:trigger c'[i][k]} :: 0 <= i < n && 0 <= k < n && !(j < i && k == j) ==> c'[i][k] == c[i][k])
    && (forall i {:trigger c'[i]} :: j < i < n ==> c'[i][j] == a[i][j] - PrefixDot(l[j], c[i], j))
  }

  /** The remaining diagonal loses the square of column j over the pivot. */
  ghost predicate SquaresSubtracted(c: Mat, c': Mat, n: nat, j: nat, pivot: real)
    requires j < n && IsSquare(c, n) && pivot != 0.0
  {
    && IsSquare(c', n)
    && (forall i, k {:trigger c'[i][k]} :: 0 <= i < n && 0 <= k < n && !(j < i && k == i) ==> c'[i][k] == c[i][k])
    && (forall i {:trigger c'[i]} :: j < i < n ==> c'[i][i] == c[i][i] - c[i][j] * c[i][j] / pivot)
  }

  /** What one pass of the outer loop does after the exchange. */
  ghost predicate Advanced(w: Work, w': Work, n: nat, j: nat, delta: real, beta: real, theta: real)
    requires j < n && Shaped(w, n) && beta > 0.0 && delta > 0.0 && Pivots(w, n, j, delta)
  {
    && Shaped(w', n) && w'.a == w.a && w'.perm == w.perm
    && RowScaled(w.l, w'.l, w.c, w.d, n, j)
    && (forall i, k {:trigger w'.c[i][k]} :: 0 <= i < n && 0 <= k < n && !(i > j && (k == j || k == i)) ==>
          w'.c[i][k] == w.c[i][k])
    && (forall i :: j < i < n ==> ColumnDone(w', n, j, i))
    && ThetaOf(w', n, j, theta)
    && w'.d == w.d[j := PivotOf(w.c[j][j], theta, beta, delta)]
    && (forall i :: j < i < n ==> w'.c[i][i] == w.c[i][i] - w'.c[i][j] * w'.c[i][j] / w'.d[j])
  }

  lemma AdvancedRow(w: Work, w': Work, c1: Mat, n: nat, j: nat, i: nat, pivot: real)
    requires j < i < n && Shaped(w, n) && Shaped(w', n) && w'.a == w.a && pivot != 0.0
    requires ColumnFilled(w.c, c1, w.a, w'.l, n, j) && SquaresSubtracted(c1, w'.c, n, j, pivot)
    ensures ColumnDone(w', n, j, i)
    ensures w'.c[i][i] == w.c[i][i] - w'.c[i][j] * w'.c[i][j] / pivot
    ensures w'.c[i][j] == c1[i][j]
  {
    PrefixDotEq(w'.l[j], w'.c[i], w'.l[j], w.c[i], j);
    assert w'.c[i][j] == c1[i][j] && c1[i][i] == w.c[i][i];
  }

  lemma SameLargest(c: Mat, c': Mat, n: nat, t: nat, theta: real)
    requires t < n && IsSquare(c, n) && IsSquare(c', n)
    requires forall i :: t < i < n ==> c'[i][t] == c[i][t]
    requires LargestIn(c, n, t, theta)
    ensures LargestIn(c', n, t, theta)
  {
    var i :| t < i < n && Abs(c[i][t]) == theta;
    assert c'[i][t] == c[i][t];
  }

  lemma AdvancedByParts(w: Work, w': Work, c1: Mat, n: nat, j: nat, delta: real, beta: real, theta: real)
    requires j < n && Shaped(w, n) && beta > 0.0 && delta > 0.0 && Pivots(w, n, j, delta)
    requires Shaped(w', n) && w'.a == w.a && w'.perm == w.perm
    requires RowScaled(w.l, w'.l, w.c, w.d, n, j)
    requires ColumnFilled(w.c, c1, w.a, w'.l, n, j)
    requires if j == 0 || j == n - 1 then theta == 0.0 else LargestIn(c1, n, j, theta)
    requires w'.d == w.d[j := PivotOf(c1[j][j], theta, beta, delta)]
    requires SquaresSubtracted(c1, w'.c, n, j, w'.d[j])
    ensures Advanced(w, w', n, j, delta, beta, theta)
  {
    forall i | j < i < n
      ensures ColumnDone(w', n, j, i) && w'.c[i][i] == w.c[i][i] - w'.c[i][j] * w'.c[i][j] / w'.d[j]
      ensures w'.c[i][j] == c1[i][j]
    {
      AdvancedRow(w, w', c1, n, j, i, w'.d[j]);
    }
    if 0 < j < n - 1 { SameLargest(c1, w'.c, n, j, theta); }
  }

  lemma AdvanceLower(w: Work, w': Work, n: nat, j: nat, delta: real, beta: real, theta: real)
    requires j < n && Shaped(w, n) && beta > 0.0 && delta > 0.0 && Pivots(w, n, j, delta)
    requires Advanced(w, w', n, j, delta, beta, theta) && LowerDone(w, n, j)
    ensures LowerDone(w', n, j + 1)
  {
    forall i, k | 0 <= k < i < j + 1 ensures Unscaled(w'.l, w'.d, n, i, k) == w'.c[i][k] {
      assert w'.d[k] == w.d[k] && w.d[k] >= delta && w'.c[i][k] == w.c[i][k];
      LowerEntry(w, w', n, j, i, k);
    }
  }

  lemma LowerEntry(w: Work, w': Work, n: nat, j: nat, i: nat, k: nat)
    requires k < i <= j < n && Shaped(w, n) && Shaped(w', n) && forall t :: 0 <= t < j ==> w.d[t] != 0.0
    requires RowScaled(w.l, w'.l, w.c, w.d, n, j) && LowerDone(w, n, j)
    requires w'.d[k] == w.d[k] && w'.c[i][k] == w.c[i][k]
    ensures Unscaled(w'.l, w'.d, n, i, k) == w'.c[i][k]
  {
    if i == j {
      QuotientTimes(w.c[j][k], w.d[k]);
      assert w'.l[j][k] == w.c[j][k] / w.d[k];
    } else {
      assert w'.l[i][k] == w.l[i][k];
      assert Unscaled(w.l, w.d, n, i, k) == w.c[i][k];
    }
  }

  lemma QuotientTimes(c: real, d: real)
    requires d != 0.0
    ensures c / d * d == c
  {}

  lemma AdvanceColumns(w: Work, w': Work, n: nat, j: nat, delta: real, beta: real, theta: real)
    requires j < n && Shaped(w, n) && beta > 0.0 && delta > 0.0 && Pivots(w, n, j, delta)
    requires Advanced(w, w', n, j, delta, beta, theta) && ColumnsDone(w, n, j)
    ensures ColumnsDone(w', n, j + 1)
  {
    forall s, i | 0 <= s < j && s < i < n ensures ColumnDone(w', n, s, i) {
      assert ColumnDone(w, n, s, i);
      PrefixDotEq(w'.l[s], w'.c[i], w.l[s], w.c[i], s);
    }
  }

  /** A diagonal entry after one more pivot. */
  function Reduced(c: real, l: real, d: real): real
    requires d != 0.0
  {
    c - l * l / d
  }

  lemma EliminateOneMore(x: real, c: Vec, d: Vec, c': Vec, d': Vec, i: nat, j: nat)
    requires j < i < |c| == |c'| && j < |d| == |d'|
    requires forall t :: 0 <= t < j ==> d[t] != 0.0 && c[t] == c'[t] && d[t] == d'[t]
    requires d'[j] != 0.0 && c'[i] == Reduced(c[i], c'[j], d'[j])
    requires c[i] == Eliminated(x, c, d, j)
    ensures c'[i] == Eliminated(x, c', d', j + 1)
  {
    EliminatedEq(x, c', d', c, d, j);
  }

  /** Row i of the diagonal after the column of pivot j. */
  lemma AdvanceEntry(x: real, c: Vec, d: Vec, c': Vec, d': Vec, i: nat, j: nat)
    requires i < |c| == |c'| == |d| == |d'| && j < |d|
    requires forall t :: 0 <= t < j ==> d[t] != 0.0 && d[t] == d'[t]
    requires d'[j] != 0.0 && forall t :: 0 <= t < j && t < i ==> c[t] == c'[t]
    requires c[i] == Eliminated(x, c, d, if i < j then i else j)
    requires c'[i] == if i <= j then c[i] else Reduced(c[i], c'[j], d'[j])
    ensures forall t :: 0 <= t < (if i < j + 1 then i else j + 1) ==> d'[t] != 0.0
    ensures c'[i] == Eliminated(x, c', d', if i < j + 1 then i else j + 1)
  {
    if i <= j {
      EliminatedEq(x, c', d', c, d, i);
    } else {
      EliminateOneMore(x, c, d, c', d', i, j);
    }
  }

  lemma AdvanceDiagonal(w: Work, w': Work, n: nat, j: nat, delta: real)
    requires j < n && Shaped(w, n) && Shaped(w', n) && delta > 0.0 && Pivots(w, n, j, delta)
    requires w'.a == w.a && w'.d == w.d[j := w'.d[j]] && w'.d[j] >= delta
    requires forall i, k :: 0 <= i < n && 0 <= k < n && !(i > j && (k == j || k == i)) ==> w'.c[i][k] == w.c[i][k]
    requires forall i :: j < i < n ==> w'.c[i][i] == w.c[i][i] - w'.c[i][j] * w'.c[i][j] / w'.d[j]
    requires DiagonalDone(w, n, j, delta)
    ensures Pivots(w', n, j + 1, delta) && DiagonalDone(w', n, j + 1, delta)
  {
    assert Pivots(w', n, j + 1, delta);
    forall i | 0 <= i < n
      ensures w'.c[i][i] == Eliminated(w'.a[i][i], w'.c[i], w'.d, if i < j + 1 then i else j + 1)
    {
      assert forall t :: 0 <= t < j && t < i ==> w.c[i][t] == w'.c[i][t];
      assert forall t :: 0 <= t < j ==> w.d[t] >= delta && w.d[t] == w'.d[t];
      if i > j {
        assert w'.c[i][i] == Reduced(w.c[i][i], w'.c[i][j], w'.d[j]);
      }
      AdvanceEntry(w.a[i][i], w.c[i], w.d, w'.c[i], w'.d, i, j);
    }
  }

  lemma AdvanceOrder(w: Work, w': Work, n: nat, j: nat, delta: real, beta: real, theta: real)
    requires j < n && Shaped(w, n) && beta > 0.0 && delta > 0.0 && Pivots(w, n, j, delta)
    requires Advanced(w, w', n, j, delta, beta, theta) && DiagonalDone(w, n, j, delta)
    requires PivotsOrdered(w, n, j, delta)
    requires forall b :: j <= b < n ==> Abs(w.c[j][j]) >= Abs(w.c[b][b])
    ensures Pivots(w', n, j + 1, delta) && PivotsOrdered(w', n, j + 1, delta)
  {
    forall t, b | 0 <= t < j + 1 && t <= b < n
      ensures Abs(w'.c[t][t]) >= Abs(Eliminated(w'.a[b][b], w'.c[b], w'.d, t))
    {
      EliminatedEq(w'.a[b][b], w'.c[b], w'.d, w.c[b], w.d, t);
    }
  }

  lemma AdvanceChosen(w: Work, w': Work, n: nat, j: nat, delta: real, beta: real, theta: Vec, th: real)
    requires j < n && Shaped(w, n) && beta > 0.0 && delta > 0.0 && Pivots(w, n, j, delta) && |theta| == n
    requires Shaped(w', n) && w'.d == w.d[j := PivotOf(w.c[j][j], th, beta, delta)]
    requires forall i, k :: 0 <= i < n && 0 <= k < n && !(i > j && (k == j || k == i)) ==> w'.c[i][k] == w.c[i][k]
    requires ThetaOf(w', n, j, th) && PivotsChosen(w, n, j, delta, beta, theta)
    ensures PivotsChosen(w', n, j + 1, delta, beta, theta[j := th])
  {
    forall t | 0 <= t < j ensures ThetaOf(w', n, t, theta[t]) {
      if 0 < t < n - 1 { SameLargest(w.c, w'.c, n, t, theta[t]); }
    }
  }

  lemma AdvanceStep(m: Mat, w: Work, w': Work, n: nat, j: nat, delta: real, beta: real, theta: Vec, th: real)
    requires IsSquare(m, n) && delta > 0.0 && beta > 0.0
    requires j < n && Inv(m, w, n, j, delta, beta, theta)
    requires Advanced(w, w', n, j, delta, beta, th)
    requires forall b :: j <= b < n ==> Abs(w.c[j][j]) >= Abs(w.c[b][b])
    ensures Inv(m, w', n, j + 1, delta, beta, theta[j := th])
  {
    AdvanceLower(w, w', n, j, delta, beta, th);
    AdvanceColumns(w, w', n, j, delta, beta, th);
    AdvanceDiagonal(w, w', n, j, delta);
    AdvanceOrder(w, w', n, j, delta, beta, th);
    AdvanceChosen(w, w', n, j, delta, beta, theta, th);
  }

  // ----- from the finished working matrices to the factorisation

  lemma {:induction false} WeightedIsPrefix(a: Vec, d: Vec, b: Vec, c: Vec, k: nat)
    requires k <= |a| && k <= |b| && k <= |c| && k <= |d|
    requires forall t :: 0 <= t < k ==> a[t] * d[t] == c[t]
    ensures WeightedDot(a, d, b, k) == PrefixDot(b, c, k)
  {
    if k > 0 {
      WeightedIsPrefix(a, d, b, c, k - 1);
      assert a[k - 1] * d[k - 1] * b[k - 1] == b[k - 1] * c[k - 1];
    }
  }

  lemma {:induction false} WeightedTail(a: Vec, d: Vec, b: Vec, k: nat, n: nat)
    requires k <= n <= |a| && n <= |b| && n <= |d|
    requires forall t :: k <= t < n ==> b[t] == 0.0
    ensures WeightedDot(a, d, b, n) == WeightedDot(a, d, b, k)
    decreases n
  {
    if k < n {
      WeightedTail(a, d, b, k, n - 1);
      assert a[n - 1] * d[n - 1] * b[n - 1] == 0.0;
    }
  }

  lemma SquareOverPivot(l: real, d: real, c: real)
    requires d > 0.0 && l * d == c
    ensures l * d * l == c * c / d
  {
    assert l == c / d;
  }

  lemma {:induction false} EliminatedIsSchur(x: real, l: Vec, d: Vec, c: Vec, k: nat)
    requires k <= |l| && k <= |d| && k <= |c|
    requires forall t :: 0 <= t < k ==> d[t] > 0.0 && l[t] * d[t] == c[t]
    ensures Eliminated(x, c, d, k) == x - WeightedDot(l, d, l, k)
  {
    if k > 0 {
      EliminatedIsSchur(x, l, d, c, k - 1);
      SquareOverPivot(l[k - 1], d[k - 1], c[k - 1]);
    }
  }

  lemma FinishedProduct(w: Work, n: nat, a: nat, b: nat)
    requires Shaped(w, n) && b < a < n
    requires LowerDone(w, n, n) && ColumnDone(w, n, b, a)
    ensures Product(w.l, w.d, n, a, b) == w.a[a][b]
  {
    var la, lb, d := w.l[a], w.l[b], w.d;
    assert forall t :: 0 <= t < a ==> la[t] * d[t] == Unscaled(w.l, d, n, a, t);
    WeightedTail(la, d, lb, b + 1, n);
    WeightedIsPrefix(la, d, lb, w.c[a], b);
    assert la[b] * d[b] * lb[b] == la[b] * d[b] by { assert lb[b] == 1.0; }
  }

  lemma FinishedTheta(w: Work, n: nat, t: nat, theta: real)
    requires Shaped(w, n) && t < n
    requires forall i :: t < i < n ==> Unscaled(w.l, w.d, n, i, t) == w.c[i][t]
    requires ThetaOf(w, n, t, theta)
    ensures IsTheta(w.l, w.d, n, t, theta)
  {
    if 0 < t < n - 1 {
      var i :| t < i < n && Abs(w.c[i][t]) == theta;
      assert Abs(Unscaled(w.l, w.d, n, i, t)) == theta;
    }
  }

  lemma FinishedSchur(m: Mat, w: Work, n: nat, delta: real, i: nat, k: nat)
    requires IsSquare(m, n) && Shaped(w, n) && delta > 0.0 && k <= i < n
    requires w.a[i][i] == m[w.perm[i]][w.perm[i]]
    requires Pivots(w, n, n, delta) && forall t :: 0 <= t < k ==> Unscaled(w.l, w.d, n, i, t) == w.c[i][t]
    ensures Schur(m, w.perm, w.l, w.d, n, i, k) == Eliminated(w.a[i][i], w.c[i], w.d, k)
  {
    assert forall t :: 0 <= t < k ==> w.l[i][t] * w.d[t] == Unscaled(w.l, w.d, n, i, t);
    EliminatedIsSchur(w.a[i][i], w.l[i], w.d, w.c[i], k);
  }

  lemma FinishedSchurs(m: Mat, w: Work, n: nat, delta: real)
    requires IsSquare(m, n) && Shaped(w, n) && delta > 0.0
    requires Permuted(m, w, n) && Pivots(w, n, n, delta) && LowerDone(w, n, n)
    ensures forall i, k :: 0 <= k <= i < n ==>
      Schur(m, w.perm, w.l, w.d, n, i, k) == Eliminated(w.a[i][i], w.c[i], w.d, k)
  {
    forall i, k | 0 <= k <= i < n
      ensures Schur(m, w.perm, w.l, w.d, n, i, k) == Eliminated(w.a[i][i], w.c[i], w.d, k)
    {
      FinishedSchur(m, w, n, delta, i, k);
    }
  }

  lemma FinishedProducts(m: Mat, w: Work, n: nat)
    requires IsSquare(m, n) && Shaped(w, n)
    requires Permuted(m, w, n) && LowerDone(w, n, n) && ColumnsDone(w, n, n)
    ensures Reconstructs(m, n, w.l, w.d, w.perm)
  {
    forall a, b | 0 <= b < a < n ensures Product(w.l, w.d, n, a, b) == m[w.perm[a]][w.perm[b]] {
      assert ColumnDone(w, n, b, a);
      FinishedProduct(w, n, a, b);
    }
  }

  lemma FinishedOrder(m: Mat, w: Work, n: nat, delta: real)
    requires IsSquare(m, n) && Shaped(w, n) && delta > 0.0
    requires Permuted(m, w, n) && Pivots(w, n, n, delta) && LowerDone(w, n, n)
    requires DiagonalDone(w, n, n, delta) && PivotsOrdered(w, n, n, delta)
    ensures PivotsLargest(m, n, w.l, w.d, w.perm)
    ensures forall t :: 0 <= t < n ==> w.c[t][t] == Schur(m, w.perm, w.l, w.d, n, t, t)
  {
    FinishedSchurs(m, w, n, delta);
    assert forall t :: 0 <= t < n ==> w.c[t][t] == Eliminated(w.a[t][t], w.c[t], w.d, t);
  }

  lemma FinishedPivots(m: Mat, w: Work, n: nat, delta: real, beta: real, theta: Vec)
    requires IsSquare(m, n) && Shaped(w, n) && delta > 0.0 && beta > 0.0 && |theta| == n
    requires LowerDone(w, n, n) && PivotsChosen(w, n, n, delta, beta, theta)
    requires forall t :: 0 <= t < n ==> w.c[t][t] == Schur(m, w.perm, w.l, w.d, n, t, t)
    ensures PivotsModified(m, n, delta, beta, w.l, w.d, w.perm, theta)
  {
    forall t | 0 <= t < n ensures IsTheta(w.l, w.d, n, t, theta[t]) {
      FinishedTheta(w, n, t, theta[t]);
    }
  }

  lemma Finished(m: Mat, w: Work, n: nat, delta: real, beta: real, theta: Vec)
    requires IsSquare(m, n) && delta > 0.0 && beta > 0.0
    requires Inv(m, w, n, n, delta, beta, theta)
    ensures IsFactorisation(m, n, delta, beta, w.l, w.d, w.perm, theta)
  {
    FinishedProducts(m, w, n);
    FinishedOrder(m, w, n, delta);
    FinishedPivots(m, w, n, delta, beta, theta);
    assert UnitLower(w.l, n);
  }

  // ----- the modification parameter

  /** The largest magnitude among the first k diagonal entries (zero when there is none). */
  function MaxDiagonal(m: Mat, n: nat, k: nat): (r: real)
    requires IsSquare(m, n) && k <= n
    ensures r >= 0.0 && forall i :: 0 <= i < k ==> Abs(m[i][i]) <= r
    ensures k > 0 ==> exists i :: 0 <= i < k && r == Abs(m[i][i])
  {
    if k == 0 then 0.0
    else Max(MaxDiagonal(m, n, k - 1), Abs(m[k - 1][k - 1]))
  }

  /** The largest magnitude off the diagonal in the first k entries of row i. */
  function MaxRow(m: Mat, n: nat, i: nat, k: nat): (r: real)
    requires IsSquare(m, n) && i < n && k <= n
    ensures r >= 0.0 && forall c :: 0 <= c < k && c != i ==> Abs(m[i][c]) <= r
    ensures r == 0.0 || exists c :: 0 <= c < k && c != i && r == Abs(m[i][c])
  {
    if k == 0 then 0.0
    else if k - 1 == i then MaxRow(m, n, i, k - 1)
    else Max(MaxRow(m, n, i, k - 1), Abs(m[i][k - 1]))
  }

  /** The largest magnitude off the diagonal in the first k rows. */
  function MaxOffDiagonal(m: Mat, n: nat, k: nat): (r: real)
    requires IsSquare(m, n) && k <= n
    ensures r >= 0.0 && forall i, c :: 0 <= i < k && 0 <= c < n && c != i ==> Abs(m[i][c]) <= r
    ensures r == 0.0 || exists i, c :: 0 <= i < k && 0 <= c < n && c != i && r == Abs(m[i][c])
  {
    if k == 0 then 0.0
    else Max(MaxOffDiagonal(m, n, k - 1), MaxRow(m, n, k - 1, n))
  }

  function Scaled(mu: real, size: real): (r: real)
    requires mu > 0.0
    ensures r >= mu && r >= mu * size && (r == mu || r == mu * size)
  {
    if size > 1.0 then mu * size else mu
  }

  /** mu * max(gamma + xi, 1) */
  function Delta(m: Mat, n: nat, mu: real): (delta: real)
    requires IsSquare(m, n) && mu > 0.0
    ensures delta >= mu
  {
    Scaled(mu, MaxDiagonal(m, n, n) + MaxOffDiagonal(m, n, n))
  }

  // ----- the factorisation in place

  function Row(m: array2<real>, i: nat): (r: Vec)
    requires i < m.Length0
    reads m
  {
    seq(m.Length1, k requires 0 <= k < m.Length1 reads m => m[i, k])
  }

  ghost function Rows(m: array2<real>): (r: Mat)
    reads m
    ensures |r| == m.Length0 && forall i :: 0 <= i < |r| ==> r[i] == Row(m, i)
  {
    seq(m.Length0, i requires 0 <= i < m.Length0 reads m => Row(m, i))
  }

  ghost function Snapshot(a: array2<real>, c: array2<real>, l: array2<real>, d: array<real>, perm: array<nat>): Work
    reads a, c, l, d, perm
  {
    Work(Rows(a), Rows(c), Rows(l), d[..], perm[..])
  }

  /** The first position from j on with the largest diagonal magnitude. */
  method LargestDiagonal(c: array2<real>, j: nat) returns (q: nat)
    requires c.Length0 == c.Length1 && j < c.Length0
    ensures j <= q < c.Length0
    ensures forall b :: j <= b < c.Length0 ==> Abs(c[q, q]) >= Abs(c[b, b])
    ensures forall b :: j <= b < q ==> Abs(c[q, q]) > Abs(c[b, b])
    ensures j == 0 ==> IsFirstLargest(Rows(c), c.Length0, q)
  {
    q := j;
    for b := j + 1 to c.Length0
      invariant j <= q < b
      invariant forall k :: j <= k < b ==> Abs(c[q, q]) >= Abs(c[k, k])
      invariant forall k :: j <= k < q ==> Abs(c[q, q]) > Abs(c[k, k])
    {
      if Abs(c[b, b]) > Abs(c[q, q]) { q := b; }
    }
  }

  method SwapEntries<T>(v: array<T>, j: nat, q: nat)
    requires j < v.Length && q < v.Length
    modifies v
    ensures forall i :: 0 <= i < v.Length ==> v[i] == old(v[Tr(j, q, i)])
  {
    v[j], v[q] := v[q], v[j];
  }

  method SwapRows(m: array2<real>, j: nat, q: nat)
    requires m.Length0 == m.Length1 && j < m.Length0 && q < m.Length0
    modifies m
    ensures forall i, k {:trigger m[i, k]} :: 0 <= i < m.Length0 && 0 <= k < m.Length0 ==>
      m[i, k] == old(m[Tr(j, q, i), k])
  {
    forall i, k | 0 <= i < m.Length0 && 0 <= k < m.Length0 && (i == j || i == q) {
      m[i, k] := m[Tr(j, q, i), k];
    }
  }

  method SwapColumns(m: array2<real>, j: nat, q: nat)
    requires m.Length0 == m.Length1 && j < m.Length0 && q < m.Length0
    modifies m
    ensures forall i, k {:trigger m[i, k]} :: 0 <= i < m.Length0 && 0 <= k < m.Length0 ==>
      m[i, k] == old(m[i, Tr(j, q, k)])
  {
    forall i, k | 0 <= i < m.Length0 && 0 <= k < m.Length0 && (k == j || k == q) {
      m[i, k] := m[i, Tr(j, q, k)];
    }
  }

  method SwapRowsAndColumns(m: array2<real>, n: nat, j: nat, q: nat)
    requires m.Length0 == m.Length1 == n && j < n && q < n
    modifies m
    ensures Swapped(old(Rows(m)), Rows(m), n, j, q)
  {
    SwapRows(m, j, q);
    SwapColumns(m, j, q);
  }

  /** The exchange of position j with position q in everything the loop maintains. */
  method Exchange(a: array2<real>, c: array2<real>, l: array2<real>, d: array<real>, perm: array<nat>, n: nat,
          j: nat, q: nat)
    requires a.Length0 == a.Length1 == n && c.Length0 == c.Length1 == n && l.Length0 == l.Length1 == n
    requires d.Length == n && perm.Length == n && a != c && a != l && c != l
    requires j <= q < n && Shaped(Snapshot(a, c, l, d, perm), n)
    modifies a, c, l, d, perm
    ensures Exchanged(old(Snapshot(a, c, l, d, perm)), Snapshot(a, c, l, d, perm), n, j, q)
  {
    SwapEntries(d, j, q);
    SwapEntries(perm, j, q);
    SwapRowsAndColumns(c, n, j, q);
    SwapRowsAndColumns(l, n, j, q);
    SwapRowsAndColumns(a, n, j, q);
  }

  method ScaleRow(c: array2<real>, l: array2<real>, d: array<real>, n: nat, j: nat)
    requires c.Length0 == c.Length1 == n && l.Length0 == l.Length1 == n && d.Length == n && c != l
    requires j < n && forall t :: 0 <= t < j ==> d[t] != 0.0
    modifies l
    ensures RowScaled(old(Rows(l)), Rows(l), Rows(c), d[..], n, j)
  {
    for s := 0 to j
      invariant forall i, k {:trigger l[i, k]} :: 0 <= i < n && 0 <= k < n ==>
        l[i, k] == if i == j && k < s then c[j, k] / d[k] else old(l[i, k])
    {
      l[j, s] := c[j, s] / d[s];
    }
  }

  method FillColumn(a: array2<real>, c: array2<real>, l: array2<real>, n: nat, j: nat)
    requires a.Length0 == a.Length1 == n && c.Length0 == c.Length1 == n && l.Length0 == l.Length1 == n
    requires j < n && a != c && c != l
    modifies c
    ensures ColumnFilled(old(Rows(c)), Rows(c), Rows(a), Rows(l), n, j)
  {
    for i := j + 1 to n
      invariant forall r, k {:trigger c[r, k]} :: 0 <= r < n && 0 <= k < n && !(j < r < i && k == j) ==>
        c[r, k] == old(c[r, k])
      invariant forall r {:trigger c[r, j]} :: j < r < i ==>
        c[r, j] == a[r, j] - PrefixDot(Row(l, j), old(Row(c, r)), j)
    {
      assert Row(c, i) == old(Row(c, i));
      c[i, j] := a[i, j] - PrefixDot(Row(l, j), Row(c, i), j);
    }
  }

  /** The largest magnitude below the diagonal in column j. */
  method LargestBelow(c: array2<real>, j: nat) returns (theta: real)
    requires c.Length0 == c.Length1 && j + 1 < c.Length0
    ensures LargestIn(Rows(c), c.Length0, j, theta)
  {
    theta := Abs(c[j + 1, j]);
    ghost var at := j + 1;
    for i := j + 2 to c.Length0
      invariant forall k :: j < k < i ==> Abs(c[k, j]) <= theta
      invariant j < at < i && Abs(c[at, j]) == theta
    {
      if Abs(c[i, j]) > theta { theta, at := Abs(c[i, j]), i; }
    }
    assert Abs(Rows(c)[at][j]) == theta;
  }

  method SubtractEach(c: array2<real>, n: nat, j: nat, pivot: real)
    requires c.Length0 == c.Length1 == n && j < n && pivot != 0.0
    modifies c
    ensures forall r, k {:trigger c[r, k]} :: 0 <= r < n && 0 <= k < n && !(j < r && k == r) ==>
      c[r, k] == old(c[r, k])
    ensures forall r {:trigger c[r, r]} :: j < r < n ==>
      c[r, r] == old(c[r, r]) - old(c[r, j]) * old(c[r, j]) / pivot
  {
    for i := j + 1 to n
      invariant forall r, k {:trigger c[r, k]} :: 0 <= r < n && 0 <= k < n && !(j < r < i && k == r) ==>
        c[r, k] == old(c[r, k])
      invariant forall r {:trigger c[r, r]} :: j < r < i ==>
        c[r, r] == old(c[r, r]) - old(c[r, j]) * old(c[r, j]) / pivot
    {
      c[i, i] := c[i, i] - c[i, j] * c[i, j] / pivot;
    }
  }

  method SubtractSquares(c: array2<real>, n: nat, j: nat, pivot: real)
    requires c.Length0 == c.Length1 == n && j < n && pivot != 0.0
    modifies c
    ensures SquaresSubtracted(old(Rows(c)), Rows(c), n, j, pivot)
  {
    SubtractEach(c, n, j, pivot);
  }

  /** Row j of the growth vector: zero in the first and last pass. */
  method ThetaFor(c: array2<real>, n: nat, j: nat) returns (theta: real)
    requires c.Length0 == c.Length1 == n && j < n
    ensures if j == 0 || j == n - 1 then theta == 0.0 else LargestIn(Rows(c), n, j, theta)
  {
    theta := 0.0;
    if j < n - 1 && j > 0 {
      theta := LargestBelow(c, j);
    }
  }

  /** Finish row j of L, fill column j of c, choose pivot j, and update the diagonal. */
  method Eliminate(a: array2<real>, c: array2<real>, l: array2<real>, d: array<real>, perm: array<nat>, n: nat, j: nat,
                   delta: real, beta: real)
    returns (ghost th: real)
    requires a.Length0 == a.Length1 == n && c.Length0 == c.Length1 == n && l.Length0 == l.Length1 == n
    requires d.Length == n && perm.Length == n && a != c && a != l && c != l
    requires Shaped(Snapshot(a, c, l, d, perm), n)
    requires j < n && delta > 0.0 && beta > 0.0
    requires Pivots(Snapshot(a, c, l, d, perm), n, j, delta)
    modifies c, l, d
    ensures Advanced(old(Snapshot(a, c, l, d, perm)), Snapshot(a, c, l, d, perm), n, j, delta, beta, th)
  {
    ghost var w := Snapshot(a, c, l, d, perm);
    ScaleRow(c, l, d, n, j);
    FillColumn(a, c, l, n, j);
    ghost var c1 := Rows(c);
    var theta := ThetaFor(c, n, j);
    th := theta;
    d[j] := PivotOf(c[j, j], theta, beta, delta);
    SubtractSquares(c, n, j, d[j]);
    AdvancedByParts(w, Snapshot(a, c, l, d, perm), c1, n, j, delta, beta, theta);
  }

  /** The first pass takes the first of the largest diagonal entries, and no later pass moves it. */
  ghost predicate FirstTaken(m: Mat, w: Work, n: nat, j: nat)
    requires IsSquare(m, n) && Shaped(w, n)
  {
    if j == 0 then forall i :: 0 <= i < n ==> w.perm[i] == i && w.c[i][i] == m[i][i]
    else n > 0 && IsFirstLargest(m, n, w.perm[0])
  }

  /** The state before the first pass: identity, zero pivots, identity permutation. */
  ghost predicate Initial(m: Mat, w: Work, n: nat)
    requires IsSquare(m, n)
  {
    && Shaped(w, n) && w.a == m && (forall i :: 0 <= i < n ==> w.perm[i] == i)
    && (forall i, k :: 0 <= i < n && 0 <= k < n ==> w.l[i][k] == if i == k then 1.0 else 0.0)
    && (forall i :: 0 <= i < n ==> w.c[i][i] == m[i][i])
  }

  lemma Start(m: Mat, w: Work, n: nat, delta: real, beta: real, theta: Vec)
    requires IsSquare(m, n) && delta > 0.0 && beta > 0.0 && |theta| == n
    requires Initial(m, w, n)
    ensures Inv(m, w, n, 0, delta, beta, theta) && FirstTaken(m, w, n, 0)
  {}

  method AllocateMatrices(m: Mat, n: nat) returns (a: array2<real>, c: array2<real>, l: array2<real>)
    requires IsSquare(m, n)
    ensures a.Length0 == a.Length1 == n && c.Length0 == c.Length1 == n && l.Length0 == l.Length1 == n
    ensures a != c && a != l && c != l && fresh(a) && fresh(c) && fresh(l)
    ensures forall i, k :: 0 <= i < n && 0 <= k < n ==> a[i, k] == m[i][k]
    ensures forall i :: 0 <= i < n ==> c[i, i] == m[i][i]
    ensures forall i, k :: 0 <= i < n && 0 <= k < n ==> l[i, k] == if i == k then 1.0 else 0.0
  {
    a := new real[n, n]((i, k) requires 0 <= i < n && 0 <= k < n => m[i][k]);
    c := new real[n, n]((i, k) requires 0 <= i < n && 0 <= k < n => if i == k then m[i][i] else 0.0);
    l := new real[n, n]((i, k) => if i == k then 1.0 else 0.0);
  }

  lemma RowsAre(a: array2<real>, m: Mat, n: nat)
    requires IsSquare(m, n) && a.Length0 == a.Length1 == n
    requires forall i, k :: 0 <= i < n && 0 <= k < n ==> a[i, k] == m[i][k]
    ensures Rows(a) == m
  {
    assert forall i :: 0 <= i < n ==> Rows(a)[i] == m[i];
  }

  method Allocate(m: Mat, n: nat)
    returns (a: array2<real>, c: array2<real>, l: array2<real>, d: array<real>, perm: array<nat>)
    requires IsSquare(m, n)
    ensures a.Length0 == a.Length1 == n && c.Length0 == c.Length1 == n && l.Length0 == l.Length1 == n
    ensures d.Length == n && perm.Length == n && a != c && a != l && c != l
    ensures fresh(a) && fresh(c) && fresh(l) && fresh(d) && fresh(perm)
    ensures Initial(m, Snapshot(a, c, l, d, perm), n)
  {
    a, c, l := AllocateMatrices(m, n);
    d := new real[n](_ => 0.0);
    perm := new nat[n](i requires i >= 0 => i);
    RowsAre(a, m, n);
  }

  lemma SwappedPivot(c: Mat, c': Mat, n: nat, j: nat, q: nat)
    requires j <= q < n && IsSquare(c, n) && Swapped(c, c', n, j, q)
    requires forall b :: j <= b < n ==> Abs(c[q][q]) >= Abs(c[b][b])
    ensures forall b :: j <= b < n ==> Abs(c'[j][j]) >= Abs(c'[b][b])
  {}

  lemma FirstTakenStep(m: Mat, w: Work, w1: Work, w': Work, n: nat, j: nat, q: nat)
    requires IsSquare(m, n) && j <= q < n && Shaped(w, n) && Shaped(w', n) && Exchanged(w, w1, n, j, q)
    requires FirstTaken(m, w, n, j) && w'.perm == w1.perm && (j == 0 ==> IsFirstLargest(w.c, n, q))
    ensures FirstTaken(m, w', n, j + 1)
  {
    assert w1.perm[0] == w.perm[Tr(j, q, 0)];
  }

  /** One pass of the outer loop. */
  method Pass(ghost m: Mat, a: array2<real>, c: array2<real>, l: array2<real>, d: array<real>, perm: array<nat>,
              n: nat, j: nat, delta: real, beta: real, ghost theta: Vec)
    returns (ghost th: real)
    requires a.Length0 == a.Length1 == n && c.Length0 == c.Length1 == n && l.Length0 == l.Length1 == n
    requires d.Length == n && perm.Length == n && a != c && a != l && c != l
    requires IsSquare(m, n) && j < n && delta > 0.0 && beta > 0.0
    requires Inv(m, Snapshot(a, c, l, d, perm), n, j, delta, beta, theta)
    requires FirstTaken(m, Snapshot(a, c, l, d, perm), n, j)
    modifies a, c, l, d, perm
    ensures Inv(m, Snapshot(a, c, l, d, perm), n, j + 1, delta, beta, theta[j := th])
    ensures FirstTaken(m, Snapshot(a, c, l, d, perm), n, j + 1)
  {
    ghost var w := Snapshot(a, c, l, d, perm);
    var q := LargestDiagonal(c, j);
    assert forall b :: j <= b < n ==> Abs(w.c[q][q]) >= Abs(w.c[b][b]);
    Exchange(a, c, l, d, perm, n, j, q);
    ghost var w1 := Snapshot(a, c, l, d, perm);
    ExchangeStep(m, w, w1, n, j, q, delta, beta, theta);
    SwappedPivot(w.c, w1.c, n, j, q);
    th := Eliminate(a, c, l, d, perm, n, j, delta, beta);
    AdvanceStep(m, w1, Snapshot(a, c, l, d, perm), n, j, delta, beta, theta, th);
    FirstTakenStep(m, w, w1, Snapshot(a, c, l, d, perm), n, j, q);
  }

  /** The outer loop. */
  method Passes(ghost m: Mat, a: array2<real>, c: array2<real>, l: array2<real>, d: array<real>, perm: array<nat>,
                n: nat, delta: real, beta: real)
    returns (ghost theta: Vec)
    requires a.Length0 == a.Length1 == n && c.Length0 == c.Length1 == n && l.Length0 == l.Length1 == n
    requires d.Length == n && perm.Length == n && a != c && a != l && c != l
    requires IsSquare(m, n) && delta > 0.0 && beta > 0.0
    requires Inv(m, Snapshot(a, c, l, d, perm), n, 0, delta, beta, Zero(n))
    requires FirstTaken(m, Snapshot(a, c, l, d, perm), n, 0)
    modifies a, c, l, d, perm
    ensures Inv(m, Snapshot(a, c, l, d, perm), n, n, delta, beta, theta)
    ensures FirstTaken(m, Snapshot(a, c, l, d, perm), n, n)
  {
    theta := Zero(n);
    for j := 0 to n
      invariant Inv(m, Snapshot(a, c, l, d, perm), n, j, delta, beta, theta)
      invariant FirstTaken(m, Snapshot(a, c, l, d, perm), n, j)
    {
      ghost var th := Pass(m, a, c, l, d, perm, n, j, delta, beta, theta);
      theta := theta[j := th];
    }
  }

  /** mchol: the source computes beta from the size of m; nothing below depends on more
      than its being positive. */
  method Factorise(m: Mat, mu: real, beta: real)
    returns (l: array2<real>, d: array<real>, perm: array<nat>, ghost theta: Vec)
    requires IsSquare(m, |m|) && mu > 0.0 && beta > 0.0
    ensures l.Length0 == l.Length1 == d.Length == perm.Length == |m|
    ensures IsFactorisation(m, |m|, Delta(m, |m|, mu), beta, Rows(l), d[..], perm[..], theta)
    ensures |m| > 0 ==> IsFirstLargest(m, |m|, perm[0])
  {
    var n := |m|;
    var delta := Delta(m, n, mu);
    var a, c;
    a, c, l, d, perm := Allocate(m, n);
    Start(m, Snapshot(a, c, l, d, perm), n, delta, beta, Zero(n));
    theta := Passes(m, a, c, l, d, perm, n, delta, beta);
    Finished(m, Snapshot(a, c, l, d, perm), n, delta, beta, theta);
  }
}
