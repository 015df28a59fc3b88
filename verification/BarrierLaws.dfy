/** What the barrier parameter does along a run of `LassoPrimalDualLogBarrier`, in terms of the
    step lengths of its points, and what a step does to the products that the parameter is aimed at.
 */
module BarrierLaws {
  import opened LinearAlgebra
  import opened L1LeastSquares
  import opened NewtonSystem
  import opened PrimalDual
  import opened LogBarrier

  // ----- the parameter is a product over the steps

  /** The primal step length of step i, before damping. */
  ghost function PrimalLength(run: seq<Iterate>, steps: seq<Step>, i: nat): real
    requires FitsAll(run, steps) && i < |steps|
  {
    StepLength(run[i].x, steps[i].dx)
  }

  /** The dual step length of step i, before damping. */
  ghost function DualLength(run: seq<Iterate>, steps: seq<Step>, i: nat): real
    requires FitsAll(run, steps) && i < |steps|
  {
    StepLength(run[i].z, steps[i].dz)
  }

  /** 1 - min(gamma, beta_x, beta_yz) in step i. */
  ghost function Factor(gamma: real, run: seq<Iterate>, steps: seq<Step>, i: nat): real
    requires FitsAll(run, steps) && i < |steps|
  {
    1.0 - Min(gamma, Min(PrimalLength(run, steps, i), DualLength(run, steps, i)))
  }

  /** The product of 1 - min(gamma, beta_x, beta_yz) over the first k steps. */
  ghost function Leftover(gamma: real, run: seq<Iterate>, steps: seq<Step>, k: nat): real
    requires FitsAll(run, steps) && k <= |steps|
  {
    if k == 0 then 1.0
    else Mul(Factor(gamma, run, steps, k - 1), Leftover(gamma, run, steps, k - 1))
  }

  /** How many of the first k steps missed a factor. */
  ghost function Misses(steps: seq<Step>, k: nat): nat
    requires k <= |steps|
  {
    if k == 0 then 0 else Misses(steps, k - 1) + if steps[k - 1].failed then 1 else 0
  }

  /** 10^n */
  ghost function TenTo(n: nat): (r: real)
    ensures r >= 1.0
  {
    if n == 0 then 1.0 else 10.0 * TenTo(n - 1)
  }

  lemma {:induction false} TenToSum(m: nat, n: nat)
    ensures TenTo(m + n) == Mul(TenTo(m), TenTo(n))
  {
    if n == 0 {
      assert TenTo(0) == 1.0;
    } else {
      TenToSum(m, n - 1);
      Reassociate(TenTo(m), 10.0, TenTo(n - 1));
      assert TenTo(m + n) == 10.0 * TenTo(m + n - 1);
    }
  }

  /** How many times step i divides by ten: for a factor missed, and for a full ten. */
  ghost function Tenths(steps: seq<Step>, i: nat): nat
    requires i < |steps|
  {
    (if steps[i].failed then 1 else 0) + if (i + 1) % 10 == 0 then 1 else 0
  }

  lemma LoweredBy(mu: real, t: real, failed: bool, tenth: bool)
    ensures Mul(TenTo((if failed then 1 else 0) + if tenth then 1 else 0), Lowered(mu, t, failed, tenth))
         == Mul(1.0 - t, mu)
  {
    var c, part := 1.0 - t, if failed then mu / 10.0 else mu;
    var m := c * part;
    assert TenTo(0) == 1.0 && TenTo(1) == 10.0 && TenTo(2) == 10.0 * TenTo(1);
    assert (if tenth then 10.0 else 1.0) * Lowered(mu, t, failed, tenth) == m;
    if failed {
      assert mu == 10.0 * part;
      Reassociate(c, 10.0, part);
    }
  }

  /** One step: the factor, a tenth for a missed factor, a tenth for a full ten. */
  lemma ParameterStep(a: Mat, s: Vec, lam: real, gamma: real, run: seq<Iterate>, steps: seq<Step>, i: nat, mu: real)
    requires Columns(a, |s|) && IsRun(a, s, lam, gamma, run, steps) && i < |steps| && FitsAll(run, steps)
    requires mu == run[i + 1].mu
    ensures Mul(TenTo(Tenths(steps, i)), mu) == Mul(Factor(gamma, run, steps, i), run[i].mu)
  {
    assert StepAt(a, s, lam, gamma, run, steps, i);
    LoweredBy(run[i].mu, Min(gamma, Min(PrimalLength(run, steps, i), DualLength(run, steps, i))), steps[i].failed,
              (i + 1) % 10 == 0);
  }

  lemma Chained(q: real, t: real, c: real, after: real, before: real, left: real, first: real)
    requires Mul(t, after) == Mul(c, before) && Mul(q, before) == Mul(left, first)
    ensures Mul(Mul(q, t), after) == Mul(Mul(c, left), first)
  {
    Reassociate(q, t, after);
    Reassociate(q, c, before);
    Reassociate(c, left, first);
    assert q * (t * after) == q * Mul(t, after);
    assert q * (c * before) == q * Mul(c, before);
    assert c * (q * before) == c * Mul(q, before);
    assert c * (left * first) == c * Mul(left, first);
  }

  lemma TenthsAdd(steps: seq<Step>, k: nat)
    requires 0 < k <= |steps|
    ensures k / 10 + Misses(steps, k) == (k - 1) / 10 + Misses(steps, k - 1) + Tenths(steps, k - 1)
  {
  }

  /** The parameter mu after k steps, against the first one. */
  ghost predicate IsParameter(gamma: real, run: seq<Iterate>, steps: seq<Step>, k: nat, mu: real, first: real)
    requires FitsAll(run, steps) && k <= |steps|
  {
    Mul(TenTo(k / 10 + Misses(steps, k)), mu) == Mul(Leftover(gamma, run, steps, k), first)
  }

  lemma ParameterNext(gamma: real, run: seq<Iterate>, steps: seq<Step>, k: nat, mu: real, before: real, first: real)
    requires FitsAll(run, steps) && k < |steps|
    requires Mul(TenTo(Tenths(steps, k)), mu) == Mul(Factor(gamma, run, steps, k), before)
    requires IsParameter(gamma, run, steps, k, before, first)
    ensures IsParameter(gamma, run, steps, k + 1, mu, first)
  {
    var more, less := Tenths(steps, k), k / 10 + Misses(steps, k);
    TenthsAdd(steps, k + 1);
    TenToSum(less, more);
    Chained(TenTo(less), TenTo(more), Factor(gamma, run, steps, k), mu, before, Leftover(gamma, run, steps, k), first);
  }

  lemma ParameterOnce(a: Mat, s: Vec, lam: real, gamma: real, run: seq<Iterate>, steps: seq<Step>, k: nat)
    requires Columns(a, |s|) && IsRun(a, s, lam, gamma, run, steps) && k < |steps| && FitsAll(run, steps)
    requires IsParameter(gamma, run, steps, k, run[k].mu, run[0].mu)
    ensures IsParameter(gamma, run, steps, k + 1, run[k + 1].mu, run[0].mu)
  {
    var mu := run[k + 1].mu;
    ParameterStep(a, s, lam, gamma, run, steps, k, mu);
    ParameterNext(gamma, run, steps, k, mu, run[k].mu, run[0].mu);
  }

  /** After k steps the barrier parameter is the first one times the product of the factors
      1 - min(gamma, beta_x, beta_yz), divided by ten for every tenth step and every factor missed. */
  lemma {:induction false} ParameterIs(a: Mat, s: Vec, lam: real, gamma: real, run: seq<Iterate>, steps: seq<Step>,
                                       k: nat)
    requires Columns(a, |s|) && IsRun(a, s, lam, gamma, run, steps) && k <= |steps|
    ensures FitsAll(run, steps)
    ensures IsParameter(gamma, run, steps, k, run[k].mu, run[0].mu)
  {
    RunFits(a, s, lam, gamma, run, steps);
    if k > 0 {
      ParameterIs(a, s, lam, gamma, run, steps, k - 1);
      ParameterOnce(a, s, lam, gamma, run, steps, k - 1);
    } else {
      assert TenTo(0) == 1.0;
    }
  }

  // ----- so it falls

  lemma LeftoverFactor(gamma: real, run: seq<Iterate>, steps: seq<Step>, i: nat)
    requires FitsAll(run, steps) && i < |steps| && 0.0 <= gamma <= 1.0
    requires NonNegative(run[i].x) && NonNegative(run[i].z)
    ensures 0.0 <= Factor(gamma, run, steps, i) <= 1.0
  {
    StepNonNeg(run[i].x, steps[i].dx);
    StepNonNeg(run[i].z, steps[i].dz);
  }

  lemma {:induction false} LeftoverBetween(gamma: real, run: seq<Iterate>, steps: seq<Step>, k: nat)
    requires FitsAll(run, steps) && k <= |steps| && 0.0 <= gamma <= 1.0
    requires forall i :: 0 <= i < k ==> NonNegative(run[i].x) && NonNegative(run[i].z)
    ensures 0.0 <= Leftover(gamma, run, steps, k) <= 1.0
  {
    if k > 0 {
      LeftoverBetween(gamma, run, steps, k - 1);
      LeftoverFactor(gamma, run, steps, k - 1);
      Products(Factor(gamma, run, steps, k - 1), Leftover(gamma, run, steps, k - 1));
    }
  }

  lemma FactorNonNeg(power: real, mu: real)
    requires power > 0.0 && Mul(power, mu) >= 0.0
    ensures mu >= 0.0
  {
    if mu < 0.0 { MulPos(power, -mu); }
  }

  lemma LessThanMultiple(part: real, misses: real, whole: real)
    requires part >= 0.0 && misses >= 1.0 && whole == part * misses
    ensures part <= whole
  {
    ScaleMono(part, 1.0, misses);
  }

  lemma Divided(power: real, tens: real, misses: real, mu: real, left: real, first: real)
    requires power == Mul(tens, misses) && tens >= 1.0 && misses >= 1.0 && 0.0 <= left <= 1.0 && first >= 0.0
    requires Mul(power, mu) == Mul(left, first)
    ensures mu >= 0.0 && Mul(tens, mu) <= first
  {
    ProductNonNeg(left, first);
    ScaleMono(first, left, 1.0);
    MulPos(tens, misses);
    FactorNonNeg(power, mu);
    var part, whole := tens * mu, power * mu;
    ProductNonNeg(tens, mu);
    Reassociate(misses, tens, mu);
    LessThanMultiple(part, misses, whole);
  }

  /** Inside the region the parameter never rises above the first one, and it has fallen by a factor
      of at least ten for every ten steps. */
  lemma ParameterFalls(a: Mat, s: Vec, lam: real, gamma: real, run: seq<Iterate>, steps: seq<Step>, k: nat)
    requires Columns(a, |s|) && IsRun(a, s, lam, gamma, run, steps) && k <= |steps|
    requires 0.0 <= gamma <= 1.0 && run[0].mu >= 0.0
    requires forall i :: 0 <= i < k ==> NonNegative(run[i].x) && NonNegative(run[i].z)
    ensures run[k].mu >= 0.0 && Mul(TenTo(k / 10), run[k].mu) <= run[0].mu
  {
    ParameterIs(a, s, lam, gamma, run, steps, k);
    LeftoverBetween(gamma, run, steps, k);
    TenToSum(k / 10, Misses(steps, k));
    Divided(TenTo(k / 10 + Misses(steps, k)), TenTo(k / 10), TenTo(Misses(steps, k)), run[k].mu,
            Leftover(gamma, run, steps, k), run[0].mu);
  }

  /** It does not rise in any single step either. */
  lemma ParameterNeverRises(a: Mat, s: Vec, lam: real, gamma: real, run: seq<Iterate>, steps: seq<Step>, i: nat)
    requires Columns(a, |s|) && IsRun(a, s, lam, gamma, run, steps) && i < |steps| && 0.0 <= gamma <= 1.0
    requires NonNegative(run[i].x) && NonNegative(run[i].z) && run[i].mu >= 0.0
    ensures 0.0 <= run[i + 1].mu <= run[i].mu
  {
    RunFits(a, s, lam, gamma, run, steps);
    ParameterStep(a, s, lam, gamma, run, steps, i, run[i + 1].mu);
    LeftoverFactor(gamma, run, steps, i);
    var power := TenTo(Tenths(steps, i));
    Divided(power, power, 1.0, run[i + 1].mu, Factor(gamma, run, steps, i), run[i].mu);
    ScaleMono(run[i + 1].mu, 1.0, power);
  }

  // ----- what the parameter is aimed at

  lemma ProductMoved(x: real, z: real, dx: real, dz: real, t: real, u: real, mu: real, x': real, z': real)
    requires z * dx + x * dz == mu - x * z && x' == x + t * dx && z' == z + u * dz
    ensures Mul(x', z')
         == Mul(1.0 - t, Mul(x, z)) + Mul(t, mu) + Mul(u - t, Mul(x, dz)) + Mul(Mul(t, u), Mul(dx, dz))
  {
    var xz, p, q, r := x * z, z * dx, x * dz, dx * dz;
    assert x' * z' == xz + t * p + u * q + t * u * r by {
      assert x' * z' == x * z' + (t * dx) * z';
      assert x * z' == xz + u * q;
      assert (t * dx) * z' == t * p + t * u * r;
    }
    assert t * p == t * mu - t * xz - t * q;
    assert Mul(1.0 - t, xz) == xz - t * xz;
    assert Mul(u - t, q) == u * q - t * q;
  }

  lemma GapRow(a: Mat, s: Vec, lam: real, p: Iterate, d: Step, j: nat)
    requires Columns(a, |s|) && Sized(a, s, p) && IsDirection(a, s, lam, p, d) && j < |a|
    ensures p.z[j] * d.dx[j] + p.x[j] * d.dz[j] == p.mu - p.x[j] * p.z[j]
  {
    assert Add(Had(p.z, d.dx), Had(p.x, d.dz))[j] == GapResidual(p.mu, p.x, p.z)[j];
  }

  lemma MovedBy(a: Mat, s: Vec, lam: real, gamma: real, run: seq<Iterate>, steps: seq<Step>, i: nat)
    requires Columns(a, |s|) && IsRun(a, s, lam, gamma, run, steps) && i < |steps| && FitsAll(run, steps)
    ensures IsDirection(a, s, lam, run[i], steps[i])
    ensures run[i + 1].x == Move(run[i].x, Damped(gamma, PrimalLength(run, steps, i)), steps[i].dx)
    ensures run[i + 1].z == Move(run[i].z, Damped(gamma, DualLength(run, steps, i)), steps[i].dz)
  {
    assert StepAt(a, s, lam, gamma, run, steps, i);
  }

  lemma MovedAt(a: Mat, s: Vec, lam: real, p: Iterate, d: Step, q: Iterate, j: nat, t: real, u: real)
    requires Columns(a, |s|) && Sized(a, s, p) && IsDirection(a, s, lam, p, d) && j < |a|
    requires q.x == Move(p.x, t, d.dx) && q.z == Move(p.z, u, d.dz)
    ensures |q.x| == |q.z| == |a|
    ensures Mul(q.x[j], q.z[j]) == Mul(1.0 - t, Mul(p.x[j], p.z[j])) + Mul(t, p.mu)
      + Mul(u - t, Mul(p.x[j], d.dz[j])) + Mul(Mul(t, u), Mul(d.dx[j], d.dz[j]))
  {
    GapRow(a, s, lam, p, d, j);
    MoveAt(p.x, t, d.dx, j);
    MoveAt(p.z, u, d.dz, j);
    ProductMoved(p.x[j], p.z[j], d.dx[j], d.dz[j], t, u, p.mu, q.x[j], q.z[j]);
  }

  /** One step, with damped lengths t and u, takes every product x_j*z_j the fraction t of the way
      to the barrier parameter, up to the difference of the lengths and a term of second order. */
  lemma ProductsAim(a: Mat, s: Vec, lam: real, gamma: real, run: seq<Iterate>, steps: seq<Step>, i: nat, j: nat,
                    t: real, u: real)
    requires Columns(a, |s|) && IsRun(a, s, lam, gamma, run, steps) && i < |steps| && j < |a| && FitsAll(run, steps)
    requires t == Damped(gamma, PrimalLength(run, steps, i)) && u == Damped(gamma, DualLength(run, steps, i))
    ensures
      var p, q, d := run[i], run[i + 1], steps[i];
      Mul(q.x[j], q.z[j]) == Mul(1.0 - t, Mul(p.x[j], p.z[j])) + Mul(t, p.mu)
        + Mul(u - t, Mul(p.x[j], d.dz[j])) + Mul(Mul(t, u), Mul(d.dx[j], d.dz[j]))
  {
    MovedBy(a, s, lam, gamma, run, steps, i);
    MovedAt(a, s, lam, run[i], steps[i], run[i + 1], j, t, u);
  }
}
