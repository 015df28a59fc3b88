/** The Newton system of `LassoPrimalDualLogBarrier`, and the three orders of elimination in which
    the source solves it.

    `a` holds the columns of A = [X -X]; `x` and `z` are the primal variables and dual slacks.
    Nothing here asks for their signs: the forms can be solved exactly where the system itself
    has one solution.
 */
module NewtonSystem {
  import opened LinearAlgebra
  import opened RidgeModes

  // ----- the Newton system

  /** A'*dy + dz = rx,  A*dx + dy = ry,  Z*dx + X*dz = rz */
  ghost predicate Newton(a: Mat, n: nat, x: Vec, z: Vec, rx: Vec, ry: Vec, rz: Vec, dx: Vec, dy: Vec, dz: Vec) {
    && Columns(a, n) && |x| == |z| == |rx| == |rz| == |dx| == |dz| == |a| && |ry| == |dy| == n
    && Add(Proj(a, dy), dz) == rx
    && Add(Comb(a, dx, n), dy) == ry
    && Add(Had(z, dx), Had(x, dz)) == rz
  }

  /** The homogeneous system has only the zero solution. */
  ghost predicate Regular(a: Mat, n: nat, x: Vec, z: Vec) {
    forall dx, dy, dz :: Newton(a, n, x, z, Zero(|a|), Zero(n), Zero(|a|), dx, dy, dz) ==>
      dx == Zero(|a|) && dy == Zero(n) && dz == Zero(|a|)
  }

  predicate NonZero(z: Vec) {
    forall j :: 0 <= j < |z| ==> z[j] != 0.0
  }

  /** Where the system can be solved in this mode: modes 0 and 2 divide by the slacks. */
  ghost predicate Solvable(mode: nat, a: Mat, n: nat, x: Vec, z: Vec) {
    (mode != 1 ==> NonZero(z)) && Regular(a, n, x, z)
  }

  lemma NewtonDifference(a: Mat, n: nat, x: Vec, z: Vec, rx: Vec, ry: Vec, rz: Vec,
                         dx: Vec, dy: Vec, dz: Vec, dx': Vec, dy': Vec, dz': Vec)
    requires Newton(a, n, x, z, rx, ry, rz, dx, dy, dz) && Newton(a, n, x, z, rx, ry, rz, dx', dy', dz')
    ensures Newton(a, n, x, z, Zero(|a|), Zero(n), Zero(|a|), Sub(dx, dx'), Sub(dy, dy'), Sub(dz, dz'))
  {
    ProjSub(a, dy, dy');
    CombSub(a, dx, dx', n);
    var l, l' := Add(Proj(a, dy), dz), Add(Proj(a, dy'), dz');
    forall j | 0 <= j < |a| ensures Add(Proj(a, Sub(dy, dy')), Sub(dz, dz'))[j] == 0.0 {
      assert l[j] == l'[j];
    }
    var m, m' := Add(Comb(a, dx, n), dy), Add(Comb(a, dx', n), dy');
    forall i | 0 <= i < n ensures Add(Comb(a, Sub(dx, dx'), n), Sub(dy, dy'))[i] == 0.0 {
      assert m[i] == m'[i];
    }
    var k, k' := Add(Had(z, dx), Had(x, dz)), Add(Had(z, dx'), Had(x, dz'));
    forall j | 0 <= j < |a| ensures Add(Had(z, Sub(dx, dx')), Had(x, Sub(dz, dz')))[j] == 0.0 {
      assert k[j] == k'[j];
      DistributeSub(z[j], dx[j], dx'[j], dx[j] - dx'[j]);
      DistributeSub(x[j], dz[j], dz'[j], dz[j] - dz'[j]);
    }
  }

  /** The Newton direction is unique, so the modes can only differ in how they find it. */
  lemma NewtonUnique(a: Mat, n: nat, x: Vec, z: Vec, rx: Vec, ry: Vec, rz: Vec,
                     dx: Vec, dy: Vec, dz: Vec, dx': Vec, dy': Vec, dz': Vec)
    requires Regular(a, n, x, z)
    requires Newton(a, n, x, z, rx, ry, rz, dx, dy, dz) && Newton(a, n, x, z, rx, ry, rz, dx', dy', dz')
    ensures dx == dx' && dy == dy' && dz == dz'
  {
    NewtonDifference(a, n, x, z, rx, ry, rz, dx, dy, dz, dx', dy', dz');
    SubZero(dx, dx');
    SubZero(dy, dy');
    SubZero(dz, dz');
  }

  lemma SubZero(u: Vec, v: Vec)
    requires |u| == |v| && Sub(u, v) == Zero(|u|)
    ensures u == v
  {
    forall i | 0 <= i < |u| ensures u[i] == v[i] { assert Sub(u, v)[i] == 0.0; }
  }

  /** The homogeneous system, row by row. */
  lemma Homogeneous(a: Mat, n: nat, x: Vec, z: Vec, dx: Vec, dy: Vec, dz: Vec)
    requires Newton(a, n, x, z, Zero(|a|), Zero(n), Zero(|a|), dx, dy, dz)
    ensures dy == Scale(-1.0, Comb(a, dx, n)) && dz == Scale(-1.0, Proj(a, dy))
    ensures forall j :: 0 <= j < |a| ==> z[j] * dx[j] + x[j] * dz[j] == 0.0
  {
    var c, p, gap := Comb(a, dx, n), Proj(a, dy), Add(Had(z, dx), Had(x, dz));
    forall i | 0 <= i < n ensures dy[i] == Scale(-1.0, c)[i] { assert Add(c, dy)[i] == 0.0; }
    forall j | 0 <= j < |a| ensures dz[j] == Scale(-1.0, p)[j] { assert Add(p, dz)[j] == 0.0; }
    forall j | 0 <= j < |a| ensures z[j] * dx[j] + x[j] * dz[j] == 0.0 { assert gap[j] == 0.0; }
  }

  /** Without dy there is no dz, and without dx no dy. */
  lemma ZeroImages(a: Mat, n: nat, dx: Vec, dy: Vec)
    requires Columns(a, n) && |dx| == |a| && |dy| == n
    ensures dy == Zero(n) ==> Scale(-1.0, Proj(a, dy)) == Zero(|a|)
    ensures dx == Zero(|a|) ==> Scale(-1.0, Comb(a, dx, n)) == Zero(n)
  {
    if dy == Zero(n) {
      forall j | 0 <= j < |a| ensures Scale(-1.0, Proj(a, dy))[j] == 0.0 { SumToZero(Had(a[j], dy), n); }
    }
    if dx == Zero(|a|) {
      CombSub(a, dx, dx, n);
      assert Sub(dx, dx) == dx;
      forall i | 0 <= i < n ensures Scale(-1.0, Comb(a, dx, n))[i] == 0.0 {
        assert Sub(Comb(a, dx, n), Comb(a, dx, n))[i] == 0.0;
      }
    }
  }

  /** Where no slack is zero, dz = 0 leaves nothing else. */
  lemma NoSlack(a: Mat, n: nat, x: Vec, z: Vec, dx: Vec, dy: Vec, dz: Vec)
    requires NonZero(z) && Newton(a, n, x, z, Zero(|a|), Zero(n), Zero(|a|), dx, dy, dz) && dz == Zero(|a|)
    ensures dx == Zero(|a|) && dy == Zero(n)
  {
    Homogeneous(a, n, x, z, dx, dy, dz);
    forall j | 0 <= j < |a| ensures dx[j] == 0.0 { CancelZero(z[j], dx[j]); }
    ZeroImages(a, n, dx, dy);
  }

  lemma NoDual(a: Mat, n: nat, x: Vec, z: Vec, dx: Vec, dy: Vec, dz: Vec)
    requires NonZero(z) && Newton(a, n, x, z, Zero(|a|), Zero(n), Zero(|a|), dx, dy, dz) && dy == Zero(n)
    ensures dx == Zero(|a|) && dz == Zero(|a|)
  {
    Homogeneous(a, n, x, z, dx, dy, dz);
    ZeroImages(a, n, dx, dy);
    NoSlack(a, n, x, z, dx, dy, dz);
  }

  lemma CancelZero(z: real, e: real)
    requires z != 0.0 && z * e == 0.0
    ensures e == 0.0
  {}

  // ----- the three orders of elimination

  /** Element-wise quotient. */
  function Quot(u: Vec, v: Vec): (r: Vec)
    requires |u| == |v| && forall j :: 0 <= j < |v| ==> v[j] != 0.0
  {
    seq(|u|, j requires 0 <= j < |u| => u[j] / v[j])
  }

  lemma SlackRow(z: real, x: real, rz: real, dz: real, dx: real)
    requires z != 0.0 && dx == (rz - x * dz) / z
    ensures z * dx + x * dz == rz
  {
    assert z * dx == rz - x * dz;
  }

  /** dx = Zinv*(rz - X*dz) closes the third equation. */
  lemma ThirdEquation(x: Vec, z: Vec, rz: Vec, dz: Vec)
    requires |x| == |z| == |rz| == |dz| && forall j :: 0 <= j < |z| ==> z[j] != 0.0
    ensures var dx := Quot(Sub(rz, Had(x, dz)), z); Add(Had(z, dx), Had(x, dz)) == rz
  {
    var dx := Quot(Sub(rz, Had(x, dz)), z);
    forall j | 0 <= j < |x| ensures Add(Had(z, dx), Had(x, dz))[j] == rz[j] {
      SlackRow(z[j], x[j], rz[j], dz[j], dx[j]);
    }
  }

  // mode 0: dual variables first, from (I + A*D*A')*dy = ry - A*(Zinv*rz - D*rx)

  lemma DualFirst(a: Mat, n: nat, x: Vec, z: Vec, rx: Vec, ry: Vec, rz: Vec, dy: Vec)
    requires Columns(a, n) && |x| == |z| == |rx| == |rz| == |a| && |ry| == |dy| == n
    requires forall j :: 0 <= j < |z| ==> z[j] != 0.0
    requires Proj(Matrix3(a, n, Quot(x, z)), dy) == Sub(ry, Comb(a, Sub(Quot(rz, z), Had(Quot(x, z), rx)), n))
    ensures var dz := Sub(rx, Proj(a, dy)); var dx := Quot(Sub(rz, Had(x, dz)), z);
      Newton(a, n, x, z, rx, ry, rz, dx, dy, dz)
  {
    var d, p := Quot(x, z), Proj(a, dy);
    var dz := Sub(rx, p);
    var dx := Quot(Sub(rz, Had(x, dz)), z);
    var base := Sub(Quot(rz, z), Had(d, rx));
    ThirdEquation(x, z, rz, dz);
    forall j | 0 <= j < |a| ensures dx[j] == Add(base, Had(d, p))[j] {
      QuotientSplit(rz[j], x[j], rx[j], p[j], z[j]);
    }
    assert dx == Add(base, Had(d, p));
    CombAdd(a, base, Had(d, p), n);
    forall i | 0 <= i < n ensures Add(Comb(a, dx, n), dy)[i] == ry[i] {
      Times3(a, n, d, dy, i);
      assert Proj(Matrix3(a, n, d), dy)[i] == Sub(ry, Comb(a, base, n))[i];
    }
    assert Add(Comb(a, dx, n), dy) == ry;
    assert Add(p, dz) == rx;
  }

  lemma QuotientSplit(rz: real, x: real, rx: real, p: real, z: real)
    requires z != 0.0
    ensures (rz - x * (rx - p)) / z == (rz / z - x / z * rx) + x / z * p
  {
    assert x * (rx - p) / z == x / z * rx - x / z * p;
  }

  // mode 1: primal variables first, from (Z + X*A'*A)*dx = rz - X*(rx - A'*ry)

  function PrimalMatrix(gram: Mat, x: Vec, z: Vec): (m: Mat)
    requires |x| == |z| && IsSquare(gram, |x|)
    ensures IsSquare(m, |x|)
  {
    seq(|x|, j requires 0 <= j < |x| => var row := Scale(x[j], gram[j]); row[j := row[j] + z[j]])
  }

  lemma PrimalTimes(a: Mat, n: nat, x: Vec, z: Vec, v: Vec, j: nat)
    requires Columns(a, n) && |x| == |z| == |v| == |a| && j < |a|
    ensures Proj(PrimalMatrix(Gram(a, n), x, z), v)[j] == Mul(x[j], Proj(a, Comb(a, v, n))[j]) + Mul(z[j], v[j])
  {
    var row := Gram(a, n)[j];
    DiagonalRow(Scale(x[j], row), v, j, z[j]);
    DotSym(Scale(x[j], row), v);
    DotScale(v, x[j], row);
    DotSym(v, row);
    GramTimes(a, v, n, j);
  }

  lemma PrimalFirst(a: Mat, n: nat, x: Vec, z: Vec, rx: Vec, ry: Vec, rz: Vec, dx: Vec)
    requires Columns(a, n) && |x| == |z| == |rx| == |rz| == |dx| == |a| && |ry| == n
    requires Proj(PrimalMatrix(Gram(a, n), x, z), dx) == Sub(rz, Had(x, Sub(rx, Proj(a, ry))))
    ensures var dy := Sub(ry, Comb(a, dx, n)); var dz := Sub(rx, Proj(a, dy));
      Newton(a, n, x, z, rx, ry, rz, dx, dy, dz)
  {
    var c := Comb(a, dx, n);
    var dy := Sub(ry, c);
    var dz := Sub(rx, Proj(a, dy));
    ProjSub(a, ry, c);
    forall j | 0 <= j < |a| ensures Add(Had(z, dx), Had(x, dz))[j] == rz[j] {
      PrimalEntry(a, n, x, z, rx, ry, rz, dx, j);
      PrimalRow(z[j], x[j], dx[j], dz[j], rx[j], Proj(a, ry)[j], Proj(a, c)[j], rz[j]);
    }
    assert Add(Had(z, dx), Had(x, dz)) == rz;
    assert Add(Proj(a, dy), dz) == rx && Add(c, dy) == ry;
  }

  lemma PrimalEntry(a: Mat, n: nat, x: Vec, z: Vec, rx: Vec, ry: Vec, rz: Vec, dx: Vec, j: nat)
    requires Columns(a, n) && |x| == |z| == |rx| == |rz| == |dx| == |a| && |ry| == n && j < |a|
    requires Proj(PrimalMatrix(Gram(a, n), x, z), dx) == Sub(rz, Had(x, Sub(rx, Proj(a, ry))))
    ensures Mul(x[j], Proj(a, Comb(a, dx, n))[j]) + Mul(z[j], dx[j]) == rz[j] - x[j] * (rx[j] - Proj(a, ry)[j])
  {
    PrimalTimes(a, n, x, z, dx, j);
    assert Had(x, Sub(rx, Proj(a, ry)))[j] == x[j] * (rx[j] - Proj(a, ry)[j]);
    assert Sub(rz, Had(x, Sub(rx, Proj(a, ry))))[j] == rz[j] - x[j] * (rx[j] - Proj(a, ry)[j]);
  }

  lemma PrimalRow(z: real, x: real, dx: real, dz: real, rx: real, q: real, p: real, rz: real)
    requires Mul(x, p) + Mul(z, dx) == rz - x * (rx - q) && dz == rx - (q - p)
    ensures z * dx + x * dz == rz
  {
    assert x * dz == x * (rx - q) + x * p;
  }

  // mode 2: slacks first, from (I + A'*A*Zinv*X)*dz = rx - A'*ry + A'*A*Zinv*rz

  function SlackMatrix(gram: Mat, d: Vec): (m: Mat)
    requires IsSquare(gram, |d|)
    ensures IsSquare(m, |d|)
  {
    seq(|d|, j requires 0 <= j < |d| => var row := Had(gram[j], d); row[j := row[j] + 1.0])
  }

  lemma SlackTimes(a: Mat, n: nat, d: Vec, v: Vec, j: nat)
    requires Columns(a, n) && |d| == |v| == |a| && j < |a|
    ensures Proj(SlackMatrix(Gram(a, n), d), v)[j] == Proj(a, Comb(a, Had(d, v), n))[j] + v[j]
  {
    DiagonalRow(Had(Gram(a, n)[j], d), v, j, 1.0);
    HadAssoc(Gram(a, n)[j], d, v);
    GramTimes(a, Had(d, v), n, j);
  }

  lemma SlackFirst(a: Mat, n: nat, x: Vec, z: Vec, rx: Vec, ry: Vec, rz: Vec, dz: Vec)
    requires Columns(a, n) && |x| == |z| == |rx| == |rz| == |dz| == |a| && |ry| == n
    requires forall j :: 0 <= j < |z| ==> z[j] != 0.0
    requires Proj(SlackMatrix(Gram(a, n), Quot(x, z)), dz)
          == Add(Sub(rx, Proj(a, ry)), Proj(a, Comb(a, Quot(rz, z), n)))
    ensures var dx := Quot(Sub(rz, Had(x, dz)), z); var dy := Sub(ry, Comb(a, dx, n));
      Newton(a, n, x, z, rx, ry, rz, dx, dy, dz)
  {
    var d, q := Quot(x, z), Quot(rz, z);
    var dx := Quot(Sub(rz, Had(x, dz)), z);
    var dy := Sub(ry, Comb(a, dx, n));
    ThirdEquation(x, z, rz, dz);
    forall j | 0 <= j < |a| ensures dx[j] == Sub(q, Had(d, dz))[j] {
      QuotientDiff(rz[j], x[j], dz[j], z[j]);
    }
    assert dx == Sub(q, Had(d, dz));
    CombSub(a, q, Had(d, dz), n);
    ProjSub(a, Comb(a, q, n), Comb(a, Had(d, dz), n));
    ProjSub(a, ry, Comb(a, dx, n));
    forall j | 0 <= j < |a| ensures Add(Proj(a, dy), dz)[j] == rx[j] {
      SlackTimes(a, n, d, dz, j);
      assert Proj(SlackMatrix(Gram(a, n), d), dz)[j] == Add(Sub(rx, Proj(a, ry)), Proj(a, Comb(a, q, n)))[j];
    }
    assert Add(Proj(a, dy), dz) == rx && Add(Comb(a, dx, n), dy) == ry;
  }

  lemma QuotientDiff(rz: real, x: real, dz: real, z: real)
    requires z != 0.0
    ensures (rz - x * dz) / z == rz / z - x / z * dz
  {
    assert x * dz / z == x / z * dz;
  }

  // ----- each form is nonsingular exactly where the system has one solution

  lemma DualKernel(a: Mat, n: nat, x: Vec, z: Vec, v: Vec)
    requires Columns(a, n) && |x| == |z| == |a| && |v| == n && NonZero(z) && Regular(a, n, x, z)
    requires Proj(Matrix3(a, n, Quot(x, z)), v) == Zero(n)
    ensures v == Zero(n)
  {
    var none, d := Zero(|a|), Quot(x, z);
    ZeroImages(a, n, none, v);
    assert Sub(Quot(none, z), Had(d, none)) == none;
    assert Sub(Zero(n), Comb(a, none, n)) == Scale(-1.0, Comb(a, none, n));
    DualFirst(a, n, x, z, none, Zero(n), none, v);
  }

  lemma DualImage(a: Mat, n: nat, x: Vec, z: Vec, dx: Vec, dy: Vec, dz: Vec)
    requires |z| == |a| && NonZero(z)
    requires Newton(a, n, x, z, Zero(|a|), Zero(n), Zero(|a|), dx, dy, dz)
    ensures Proj(Matrix3(a, n, Quot(x, z)), dy) == Zero(n)
  {
    var d, p := Quot(x, z), Proj(a, dy);
    Homogeneous(a, n, x, z, dx, dy, dz);
    forall j | 0 <= j < |a| ensures dx[j] == Had(d, p)[j] { Eliminated(z[j], x[j], dx[j], dz[j], p[j], d[j]); }
    assert dx == Had(d, p);
    forall i | 0 <= i < n ensures Proj(Matrix3(a, n, d), dy)[i] == 0.0 {
      Times3(a, n, d, dy, i);
      assert dy[i] == Scale(-1.0, Comb(a, dx, n))[i];
    }
  }

  lemma Eliminated(z: real, x: real, dx: real, dz: real, p: real, d: real)
    requires z != 0.0 && d == x / z && dz == -p && z * dx + x * dz == 0.0
    ensures dx == d * p
  {
    assert z * (d * p) == x * p;
    SameProduct(x, dz, -p);
    CancelZero(z, dx - d * p);
  }

  /** Mode 0 */
  lemma DualRegular(a: Mat, n: nat, x: Vec, z: Vec)
    requires Columns(a, n) && |x| == |z| == |a| && NonZero(z)
    ensures Nonsingular(Matrix3(a, n, Quot(x, z)), n) <==> Regular(a, n, x, z)
  {
    var m := Matrix3(a, n, Quot(x, z));
    if Regular(a, n, x, z) {
      forall v: Vec | |v| == n && Proj(m, v) == Zero(n) ensures v == Zero(n) {
        DualKernel(a, n, x, z, v);
      }
    }
    if Nonsingular(m, n) {
      forall dx, dy, dz | Newton(a, n, x, z, Zero(|a|), Zero(n), Zero(|a|), dx, dy, dz)
        ensures dx == Zero(|a|) && dy == Zero(n) && dz == Zero(|a|)
      {
        DualImage(a, n, x, z, dx, dy, dz);
        NoDual(a, n, x, z, dx, dy, dz);
      }
    }
  }

  lemma PrimalKernel(a: Mat, n: nat, x: Vec, z: Vec, v: Vec)
    requires Columns(a, n) && |x| == |z| == |v| == |a| && Regular(a, n, x, z)
    requires Proj(PrimalMatrix(Gram(a, n), x, z), v) == Zero(|x|)
    ensures v == Zero(|a|)
  {
    var none := Zero(|a|);
    ZeroImages(a, n, none, Zero(n));
    forall j | 0 <= j < |a| ensures Sub(none, Had(x, Sub(none, Proj(a, Zero(n)))))[j] == 0.0 {
      assert Scale(-1.0, Proj(a, Zero(n)))[j] == 0.0;
    }
    PrimalFirst(a, n, x, z, none, Zero(n), none, v);
  }

  lemma PrimalImage(a: Mat, n: nat, x: Vec, z: Vec, dx: Vec, dy: Vec, dz: Vec)
    requires Newton(a, n, x, z, Zero(|a|), Zero(n), Zero(|a|), dx, dy, dz)
    ensures Proj(PrimalMatrix(Gram(a, n), x, z), dx) == Zero(|a|)
  {
    var c := Comb(a, dx, n);
    Homogeneous(a, n, x, z, dx, dy, dz);
    ProjScale(a, -1.0, c);
    forall j | 0 <= j < |a| ensures Proj(PrimalMatrix(Gram(a, n), x, z), dx)[j] == 0.0 {
      PrimalTimes(a, n, x, z, dx, j);
      assert Proj(a, dy)[j] == Scale(-1.0, Proj(a, c))[j];
    }
  }

  /** Mode 1 */
  lemma PrimalRegular(a: Mat, n: nat, x: Vec, z: Vec)
    requires Columns(a, n) && |x| == |z| == |a|
    ensures Nonsingular(PrimalMatrix(Gram(a, n), x, z), |x|) <==> Regular(a, n, x, z)
  {
    var m := PrimalMatrix(Gram(a, n), x, z);
    if Regular(a, n, x, z) {
      forall v: Vec | |v| == |x| && Proj(m, v) == Zero(|x|) ensures v == Zero(|x|) {
        PrimalKernel(a, n, x, z, v);
      }
    }
    if Nonsingular(m, |x|) {
      forall dx, dy, dz | Newton(a, n, x, z, Zero(|a|), Zero(n), Zero(|a|), dx, dy, dz)
        ensures dx == Zero(|a|) && dy == Zero(n) && dz == Zero(|a|)
      {
        PrimalImage(a, n, x, z, dx, dy, dz);
        Homogeneous(a, n, x, z, dx, dy, dz);
        ZeroImages(a, n, dx, dy);
      }
    }
  }

  lemma SlackKernel(a: Mat, n: nat, x: Vec, z: Vec, v: Vec)
    requires Columns(a, n) && |x| == |z| == |v| == |a| && NonZero(z) && Regular(a, n, x, z)
    requires Proj(SlackMatrix(Gram(a, n), Quot(x, z)), v) == Zero(|x|)
    ensures v == Zero(|a|)
  {
    var none := Zero(|a|);
    ZeroImages(a, n, none, Zero(n));
    assert Quot(none, z) == none;
    assert Comb(a, none, n) == Zero(n) by {
      forall i | 0 <= i < n ensures Comb(a, none, n)[i] == 0.0 { assert Scale(-1.0, Comb(a, none, n))[i] == 0.0; }
    }
    forall j | 0 <= j < |a|
      ensures Add(Sub(none, Proj(a, Zero(n))), Proj(a, Comb(a, Quot(none, z), n)))[j] == 0.0
    {
      assert Scale(-1.0, Proj(a, Zero(n)))[j] == 0.0;
    }
    SlackFirst(a, n, x, z, none, Zero(n), none, v);
  }

  lemma SlackImage(a: Mat, n: nat, x: Vec, z: Vec, dx: Vec, dy: Vec, dz: Vec)
    requires |z| == |a| && NonZero(z)
    requires Newton(a, n, x, z, Zero(|a|), Zero(n), Zero(|a|), dx, dy, dz)
    ensures Proj(SlackMatrix(Gram(a, n), Quot(x, z)), dz) == Zero(|a|)
  {
    var d := Quot(x, z);
    var u := Had(d, dz);
    Homogeneous(a, n, x, z, dx, dy, dz);
    forall j | 0 <= j < |a| ensures dx[j] == Scale(-1.0, u)[j] {
      Eliminated(z[j], x[j], dx[j], dz[j], -dz[j], d[j]);
      NegatedProduct(d[j], dz[j], -dz[j]);
    }
    assert dx == Scale(-1.0, u);
    CombScale(a, -1.0, u, n);
    assert dy == Comb(a, u, n);
    forall j | 0 <= j < |a| ensures Proj(SlackMatrix(Gram(a, n), d), dz)[j] == 0.0 {
      SlackTimes(a, n, d, dz, j);
    }
  }

  /** Mode 2 */
  lemma SlackRegular(a: Mat, n: nat, x: Vec, z: Vec)
    requires Columns(a, n) && |x| == |z| == |a| && NonZero(z)
    ensures Nonsingular(SlackMatrix(Gram(a, n), Quot(x, z)), |x|) <==> Regular(a, n, x, z)
  {
    var m := SlackMatrix(Gram(a, n), Quot(x, z));
    if Regular(a, n, x, z) {
      forall v: Vec | |v| == |x| && Proj(m, v) == Zero(|x|) ensures v == Zero(|x|) {
        SlackKernel(a, n, x, z, v);
      }
    }
    if Nonsingular(m, |x|) {
      forall dx, dy, dz | Newton(a, n, x, z, Zero(|a|), Zero(n), Zero(|a|), dx, dy, dz)
        ensures dx == Zero(|a|) && dy == Zero(n) && dz == Zero(|a|)
      {
        SlackImage(a, n, x, z, dx, dy, dz);
        NoSlack(a, n, x, z, dx, dy, dz);
      }
    }
  }

  /** The Newton direction in any of the three modes. */
  method Direction(mode: nat, a: Mat, n: nat, x: Vec, z: Vec, rx: Vec, ry: Vec, rz: Vec, solve: (Mat, Vec) -> Vec)
    returns (dx: Vec, dy: Vec, dz: Vec)
    requires Columns(a, n) && |x| == |z| == |rx| == |rz| == |a| && |ry| == n && ExactSolver(solve)
    requires Solvable(mode, a, n, x, z)
    ensures Newton(a, n, x, z, rx, ry, rz, dx, dy, dz)
  {
    if mode == 0 {
      var m := Matrix3(a, n, Quot(x, z));
      var r := Sub(ry, Comb(a, Sub(Quot(rz, z), Had(Quot(x, z), rx)), n));
      DualRegular(a, n, x, z);
      dy := solve(m, r);
      assert Solution(m, r, dy);
      DualFirst(a, n, x, z, rx, ry, rz, dy);
      dz := Sub(rx, Proj(a, dy));
      dx := Quot(Sub(rz, Had(x, dz)), z);
    } else if mode == 1 {
      dx, dy, dz := PrimalDirection(a, n, x, z, rx, ry, rz, solve);
    } else {
      dx, dy, dz := SlackDirection(a, n, x, z, rx, ry, rz, solve);
    }
  }

  method PrimalDirection(a: Mat, n: nat, x: Vec, z: Vec, rx: Vec, ry: Vec, rz: Vec, solve: (Mat, Vec) -> Vec)
    returns (dx: Vec, dy: Vec, dz: Vec)
    requires Columns(a, n) && |x| == |z| == |rx| == |rz| == |a| && |ry| == n && ExactSolver(solve)
    requires Solvable(1, a, n, x, z)
    ensures Newton(a, n, x, z, rx, ry, rz, dx, dy, dz)
  {
    var m, r := PrimalMatrix(Gram(a, n), x, z), Sub(rz, Had(x, Sub(rx, Proj(a, ry))));
    PrimalRegular(a, n, x, z);
    dx := solve(m, r);
    assert Solution(m, r, dx);
    PrimalFirst(a, n, x, z, rx, ry, rz, dx);
    dy := Sub(ry, Comb(a, dx, n));
    dz := Sub(rx, Proj(a, dy));
  }

  method SlackDirection(a: Mat, n: nat, x: Vec, z: Vec, rx: Vec, ry: Vec, rz: Vec, solve: (Mat, Vec) -> Vec)
    returns (dx: Vec, dy: Vec, dz: Vec)
    requires Columns(a, n) && |x| == |z| == |rx| == |rz| == |a| && |ry| == n && ExactSolver(solve)
    requires Solvable(2, a, n, x, z)
    ensures Newton(a, n, x, z, rx, ry, rz, dx, dy, dz)
  {
    var m := SlackMatrix(Gram(a, n), Quot(x, z));
    var r := Add(Sub(rx, Proj(a, ry)), Proj(a, Comb(a, Quot(rz, z), n)));
    SlackRegular(a, n, x, z);
    dz := solve(m, r);
    assert Solution(m, r, dz);
    SlackFirst(a, n, x, z, rx, ry, rz, dz);
    dx := Quot(Sub(rz, Had(x, dz)), z);
    dy := Sub(ry, Comb(a, dx, n));
  }

  /** A test for singular matrices that is never wrong. */
  ghost predicate ExactTest(singular: Mat -> bool) {
    forall m: Mat :: IsSquare(m, |m|) ==> (singular(m) <==> !Nonsingular(m, |m|))
  }

  /** Whether the matrix of the mode can be formed and is not singular. */
  method CanSolve(mode: nat, a: Mat, n: nat, x: Vec, z: Vec, singular: Mat -> bool) returns (ok: bool)
    requires Columns(a, n) && |x| == |z| == |a| && ExactTest(singular)
    ensures ok <==> Solvable(mode, a, n, x, z)
  {
    if mode == 1 {
      PrimalRegular(a, n, x, z);
      return !singular(PrimalMatrix(Gram(a, n), x, z));
    }
    if !NonZero(z) {
      return false;
    }
    if mode == 0 {
      DualRegular(a, n, x, z);
      return !singular(Matrix3(a, n, Quot(x, z)));
    }
    SlackRegular(a, n, x, z);
    ok := !singular(SlackMatrix(Gram(a, n), Quot(x, z)));
  }

  // ----- inside the region of non-negative variables and positive slacks

  /** The region the method is meant to stay in. */
  ghost predicate Interior(x: Vec, z: Vec) {
    |x| == |z| && forall j :: 0 <= j < |x| ==> x[j] >= 0.0 && z[j] > 0.0
  }

  lemma NewtonRow(z: real, x: real, dx: real, dz: real, p: real)
    requires z > 0.0 && x >= 0.0 && z * dx + x * dz == 0.0 && dz == p
    ensures dx * p <= 0.0
    ensures dx * p == 0.0 && p == 0.0 ==> dx == 0.0
  {
    if x == 0.0 {
      assert dx == 0.0;
    } else {
      assert dx == -(x / z) * p;
      var q, pp := x / z, p * p;
      Square(p, pp);
      ProductNonNeg(q, pp);
      assert dx * p == -(q * pp);
    }
  }

  lemma ZeroImage(a: Mat, n: nat, x: Vec, z: Vec, v: Vec)
    requires Columns(a, n) && |v| == |x| == |a| && Interior(x, z)
    requires forall j :: 0 <= j < |a| ==> z[j] * v[j] + x[j] * Proj(a, Comb(a, v, n))[j] == 0.0
    ensures Comb(a, v, n) == Zero(n)
  {
    var c := Comb(a, v, n);
    var p := Proj(a, c);
    Adjoint(a, v, c);
    var h := Had(p, v);
    forall j | 0 <= j < |a| ensures Scale(-1.0, h)[j] >= 0.0 {
      NewtonRow(z[j], x[j], v[j], p[j], p[j]);
    }
    SumToNonNeg(Scale(-1.0, h), |a|);
    SumToScale(-1.0, h, |a|);
    SqNormNonNeg(c);
  }

  /** z*v + x*(A'A v) = 0 in every entry forces v to be zero. */
  lemma RowsForceZero(a: Mat, n: nat, x: Vec, z: Vec, v: Vec)
    requires Columns(a, n) && |v| == |x| == |a| && Interior(x, z)
    requires forall j :: 0 <= j < |a| ==> z[j] * v[j] + x[j] * Proj(a, Comb(a, v, n))[j] == 0.0
    ensures v == Zero(|a|) && Comb(a, v, n) == Zero(n)
  {
    ZeroImage(a, n, x, z, v);
    forall j | 0 <= j < |a| ensures v[j] == 0.0 {
      SumToZero(Had(a[j], Comb(a, v, n)), n);
      NewtonRow(z[j], x[j], v[j], 0.0, 0.0);
    }
  }

  /** Inside the region the system can be solved in every mode. */
  lemma InteriorSolvable(mode: nat, a: Mat, n: nat, x: Vec, z: Vec)
    requires Columns(a, n) && |x| == |a| && Interior(x, z)
    ensures Solvable(mode, a, n, x, z)
  {
    forall dx, dy, dz | Newton(a, n, x, z, Zero(|a|), Zero(n), Zero(|a|), dx, dy, dz)
      ensures dx == Zero(|a|) && dy == Zero(n) && dz == Zero(|a|)
    {
      InteriorKernel(a, n, x, z, dx, dy, dz);
    }
  }

  lemma InteriorKernel(a: Mat, n: nat, x: Vec, z: Vec, dx: Vec, dy: Vec, dz: Vec)
    requires Interior(x, z)
    requires Newton(a, n, x, z, Zero(|a|), Zero(n), Zero(|a|), dx, dy, dz)
    ensures dx == Zero(|a|) && dy == Zero(n) && dz == Zero(|a|)
  {
    var c := Comb(a, dx, n);
    Homogeneous(a, n, x, z, dx, dy, dz);
    ProjScale(a, -1.0, c);
    assert dz == Proj(a, c);
    RowsForceZero(a, n, x, z, dx);
    ZeroImages(a, n, dx, dy);
  }
}
