/** `LassoPrimalDualLogBarrier` as a whole: its starting point, its loop, and the weights it
    returns. A run is followed wherever it goes; it ends early only where the Newton system has no
    unique solution or, in the modes that divide by them, a slack is zero.
 */
module LogBarrier {
  import opened LinearAlgebra
  import opened L1LeastSquares
  import opened NewtonSystem
  import opened PrimalDual
  import opened RidgeModes

  // ----- one step

  /** The current point and barrier parameter. */
  datatype Iterate = Iterate(x: Vec, y: Vec, z: Vec, mu: real)

  /** A Newton direction, and whether mode 0 failed to find a Cholesky factor on the way. */
  datatype Step = Step(dx: Vec, dy: Vec, dz: Vec, failed: bool)

  predicate Sized(a: Mat, s: Vec, p: Iterate) {
    |p.x| == |p.z| == |a| && |p.y| == |s|
  }

  predicate Fits(p: Iterate, d: Step) {
    |d.dx| == |p.x| && |d.dy| == |p.y| && |d.dz| == |p.z|
  }

  /** The barrier parameter after a step whose least length is t. */
  function Lowered(mu: real, t: real, failed: bool, tenth: bool): real {
    var m := (1.0 - t) * (if failed then mu / 10.0 else mu);
    if tenth then m / 10.0 else m
  }

  /** The point after step d from p in iteration i. */
  function After(gamma: real, i: nat, p: Iterate, d: Step): (q: Iterate)
    requires Fits(p, d)
  {
    var betaX, betaYZ := StepLength(p.x, d.dx), StepLength(p.z, d.dz);
    Iterate(Move(p.x, Damped(gamma, betaX), d.dx), Move(p.y, Damped(gamma, betaYZ), d.dy),
            Move(p.z, Damped(gamma, betaYZ), d.dz),
            Lowered(p.mu, Min(gamma, Min(betaX, betaYZ)), d.failed, (i + 1) % 10 == 0))
  }

  ghost predicate IsDirection(a: Mat, s: Vec, lam: real, p: Iterate, d: Step)
    requires Columns(a, |s|) && Sized(a, s, p)
  {
    Newton(a, |s|, p.x, p.z, DualResidual(a, lam, p.y, p.z), PrimalResidual(a, s, p.x, p.y),
           GapResidual(p.mu, p.x, p.z), d.dx, d.dy, d.dz)
  }

  // ----- runs

  /** The points of a run and the steps between them. */
  ghost predicate IsRun(a: Mat, s: Vec, lam: real, gamma: real, run: seq<Iterate>, steps: seq<Step>)
    requires Columns(a, |s|)
  {
    && |run| == |steps| + 1
    && (forall i :: 0 <= i < |run| ==> Sized(a, s, run[i]))
    && (forall i {:trigger StepAt(a, s, lam, gamma, run, steps, i)} :: 0 <= i < |steps| ==>
         StepAt(a, s, lam, gamma, run, steps, i))
  }

  ghost predicate StepAt(a: Mat, s: Vec, lam: real, gamma: real, run: seq<Iterate>, steps: seq<Step>, i: nat)
    requires Columns(a, |s|) && i < |steps| && |run| == |steps| + 1 && Sized(a, s, run[i])
  {
    IsDirection(a, s, lam, run[i], steps[i]) && run[i + 1] == After(gamma, i, run[i], steps[i])
  }

  /** Two runs from the same point go through the same points as far as both go, as long as the
      Newton system has one solution and a factor is found or not alike: the modes only differ in
      how they find the direction. */
  lemma {:induction false} RunsAgree(a: Mat, s: Vec, lam: real, gamma: real, run: seq<Iterate>, steps: seq<Step>,
                                     run': seq<Iterate>, steps': seq<Step>, k: nat)
    requires Columns(a, |s|) && IsRun(a, s, lam, gamma, run, steps) && IsRun(a, s, lam, gamma, run', steps')
    requires run[0] == run'[0] && k < |run| && k < |run'|
    requires forall i :: 0 <= i < k ==>
      Regular(a, |s|, run[i].x, run[i].z) && steps[i].failed == steps'[i].failed
    ensures run[k] == run'[k]
  {
    if k > 0 {
      RunsAgree(a, s, lam, gamma, run, steps, run', steps', k - 1);
      assert StepAt(a, s, lam, gamma, run, steps, k - 1) && StepAt(a, s, lam, gamma, run', steps', k - 1);
      var p, d, d' := run[k - 1], steps[k - 1], steps'[k - 1];
      NewtonUnique(a, |s|, p.x, p.z, DualResidual(a, lam, p.y, p.z), PrimalResidual(a, s, p.x, p.y),
                   GapResidual(p.mu, p.x, p.z), d.dx, d.dy, d.dz, d'.dx, d'.dy, d'.dz);
    }
  }

  /** The dual step length of step i. */
  function DualStep(gamma: real, run: seq<Iterate>, steps: seq<Step>, i: nat): real
    requires i < |run| && i < |steps| && |steps[i].dz| == |run[i].z|
  {
    Damped(gamma, StepLength(run[i].z, steps[i].dz))
  }

  ghost predicate FitsAll(run: seq<Iterate>, steps: seq<Step>) {
    |run| == |steps| + 1 && forall i :: 0 <= i < |steps| ==> Fits(run[i], steps[i])
  }

  /** The product of the factors 1 - t over the first k steps. */
  ghost function Remaining(gamma: real, run: seq<Iterate>, steps: seq<Step>, k: nat): real
    requires FitsAll(run, steps) && k <= |steps|
  {
    if k == 0 then 1.0
    else Mul(1.0 - DualStep(gamma, run, steps, k - 1), Remaining(gamma, run, steps, k - 1))
  }

  lemma RunFits(a: Mat, s: Vec, lam: real, gamma: real, run: seq<Iterate>, steps: seq<Step>)
    requires Columns(a, |s|) && IsRun(a, s, lam, gamma, run, steps)
    ensures FitsAll(run, steps)
  {
    forall i | 0 <= i < |steps| ensures Fits(run[i], steps[i]) {
      assert StepAt(a, s, lam, gamma, run, steps, i);
    }
  }

  lemma UnitScale(r: Vec)
    ensures Scale(1.0, r) == r
  {}

  lemma ScaleTwice(u: real, v: real, r: Vec)
    ensures Scale(u, Scale(v, r)) == Scale(Mul(u, v), r)
  {
    forall j | 0 <= j < |r| ensures Scale(u, Scale(v, r))[j] == Scale(Mul(u, v), r)[j] {
      Reassociate(u, v, r[j]);
    }
  }

  lemma ResidualStep(a: Mat, s: Vec, lam: real, gamma: real, run: seq<Iterate>, steps: seq<Step>, i: nat)
    requires Columns(a, |s|) && IsRun(a, s, lam, gamma, run, steps) && i < |steps| && FitsAll(run, steps)
    ensures DualResidual(a, lam, run[i + 1].y, run[i + 1].z)
         == Scale(1.0 - DualStep(gamma, run, steps, i), DualResidual(a, lam, run[i].y, run[i].z))
  {
    assert StepAt(a, s, lam, gamma, run, steps, i);
    DualResidualScales(a, lam, run[i].y, run[i].z, steps[i].dy, steps[i].dz, DualStep(gamma, run, steps, i));
  }

  /** However many steps are taken, and wherever they lead, the dual residual is the first one
      times the product of the factors 1 - t. */
  lemma {:induction false} ResidualShrinks(a: Mat, s: Vec, lam: real, gamma: real, run: seq<Iterate>,
                                           steps: seq<Step>, k: nat)
    requires Columns(a, |s|) && IsRun(a, s, lam, gamma, run, steps) && k <= |steps|
    ensures FitsAll(run, steps)
    ensures DualResidual(a, lam, run[k].y, run[k].z)
         == Scale(Remaining(gamma, run, steps, k), DualResidual(a, lam, run[0].y, run[0].z))
    decreases k
  {
    RunFits(a, s, lam, gamma, run, steps);
    var r0 := DualResidual(a, lam, run[0].y, run[0].z);
    if k == 0 {
      UnitScale(r0);
    } else {
      ResidualShrinks(a, s, lam, gamma, run, steps, k - 1);
      ResidualStep(a, s, lam, gamma, run, steps, k - 1);
      ScaleTwice(1.0 - DualStep(gamma, run, steps, k - 1), Remaining(gamma, run, steps, k - 1), r0);
    }
  }

  lemma StepAtMostOne(gamma: real, beta: real)
    requires 0.0 <= gamma <= 1.0 && beta <= 1.0
    ensures Damped(gamma, beta) <= 1.0 && (beta >= 0.0 ==> Damped(gamma, beta) >= 0.0)
  {
    ScaleMono(gamma, beta, 1.0);
    assert gamma * beta <= gamma;
    if beta >= 0.0 { ProductNonNeg(gamma, beta); }
  }

  lemma FactorBetween(gamma: real, run: seq<Iterate>, steps: seq<Step>, i: nat)
    requires FitsAll(run, steps) && i < |steps| && 0.0 <= gamma <= 1.0
    ensures DualStep(gamma, run, steps, i) <= 1.0
    ensures NonNegative(run[i].z) ==> DualStep(gamma, run, steps, i) >= 0.0
  {
    StepAtMostOne(gamma, StepLength(run[i].z, steps[i].dz));
    if NonNegative(run[i].z) { StepNonNeg(run[i].z, steps[i].dz); }
  }

  lemma Products(factor: real, rest: real)
    requires factor >= 0.0 && rest >= 0.0
    ensures Mul(factor, rest) >= 0.0 && (factor <= 1.0 && rest <= 1.0 ==> Mul(factor, rest) <= 1.0)
  {
    ProductNonNeg(factor, rest);
    if factor <= 1.0 { ScaleMono(rest, factor, 1.0); }
  }

  /** The product is never negative, and at most 1 as long as the slacks are not negative; from a
      negative slack a step can also enlarge the residual. */
  lemma {:induction false} RemainingBetween(gamma: real, run: seq<Iterate>, steps: seq<Step>, k: nat)
    requires FitsAll(run, steps) && k <= |steps| && 0.0 <= gamma <= 1.0
    ensures Remaining(gamma, run, steps, k) >= 0.0
    ensures (forall i :: 0 <= i < k ==> NonNegative(run[i].z)) ==> Remaining(gamma, run, steps, k) <= 1.0
  {
    if k > 0 {
      RemainingBetween(gamma, run, steps, k - 1);
      FactorBetween(gamma, run, steps, k - 1);
      Products(1.0 - DualStep(gamma, run, steps, k - 1), Remaining(gamma, run, steps, k - 1));
    }
  }

  // ----- the factorisation of mode 0

  /** v'*m*v > 0 unless v = 0 */
  ghost predicate PositiveDefinite(m: Mat, n: nat)
    requires IsSquare(m, n)
  {
    forall v: Vec :: |v| == n && v != Zero(n) ==> Dot(v, Proj(m, v)) > 0.0
  }

  /** A Cholesky factorisation that is found exactly for positive definite matrices. */
  ghost predicate ExactChol(chol: Mat -> bool) {
    forall m: Mat :: IsSquare(m, |m|) ==> (chol(m) <==> PositiveDefinite(m, |m|))
  }

  /** With non-negative weights d, I + A*D*A' is positive definite. */
  lemma LowRankPositive(a: Mat, n: nat, d: Vec, v: Vec)
    requires Columns(a, n) && |d| == |a| && NonNegative(d) && |v| == n && v != Zero(n)
    ensures Dot(v, Proj(Matrix3(a, n, d), v)) > 0.0
  {
    var p := Proj(a, v);
    var u := Had(d, p);
    var c := Comb(a, u, n);
    forall i | 0 <= i < n ensures Proj(Matrix3(a, n, d), v)[i] == Add(c, v)[i] { Times3(a, n, d, v, i); }
    assert Proj(Matrix3(a, n, d), v) == Add(c, v);
    DotAdd(v, c, v);
    Adjoint(a, u, v);
    forall j | 0 <= j < |a| ensures Had(p, u)[j] >= 0.0 { WeightedSquare(d[j], p[j], Had(p, u)[j]); }
    SumToNonNeg(Had(p, u), |a|);
    SqNormNonNeg(v);
  }

  lemma WeightedSquare(d: real, p: real, h: real)
    requires d >= 0.0 && h == p * (d * p)
    ensures h >= 0.0
  {
    var q := p * p;
    Square(p, q);
    ProductNonNeg(d, q);
    assert h == d * q;
  }

  lemma QuotNonNeg(x: Vec, z: Vec)
    requires Interior(x, z)
    ensures NonZero(z) && NonNegative(Quot(x, z))
  {
    forall j | 0 <= j < |x| ensures Quot(x, z)[j] >= 0.0 { RatioNonNeg(x[j], z[j]); }
  }

  lemma RatioNonNeg(x: real, z: real)
    requires x >= 0.0 && z > 0.0
    ensures x / z >= 0.0
  {
    var r := x / z;
    assert r * z == x;
    if r < 0.0 { MulPos(-r, z); }
  }

  /** Inside the region mode 0 always finds its factor. */
  lemma InteriorFactors(a: Mat, n: nat, x: Vec, z: Vec, chol: Mat -> bool)
    requires Columns(a, n) && |x| == |z| == |a| && Interior(x, z) && NonZero(z) && ExactChol(chol)
    ensures chol(Matrix3(a, n, Quot(x, z)))
  {
    var m := Matrix3(a, n, Quot(x, z));
    QuotNonNeg(x, z);
    forall v: Vec | |v| == n && v != Zero(n) ensures Dot(v, Proj(m, v)) > 0.0 {
      LowRankPositive(a, n, Quot(x, z), v);
    }
    assert PositiveDefinite(m, n);
  }

  // ----- the loop

  datatype Exit = Optimal | IterationLimit | Singular

  /** A factor is missed in mode 0 only, and there exactly when its matrix is not positive definite. */
  ghost predicate FailsExactly(mode: nat, a: Mat, n: nat, p: Iterate, d: Step)
    requires Columns(a, n) && |p.x| == |p.z| == |a| && (mode != 1 ==> NonZero(p.z))
  {
    d.failed <==> mode == 0 && !PositiveDefinite(Matrix3(a, n, Quot(p.x, p.z)), n)
  }

  /** The direction from p. Where mode 0 finds no factor the source solves its system otherwise,
      and lowers the barrier parameter. */
  method FindStep(mode: nat, a: Mat, s: Vec, lam: real, p: Iterate, solve: (Mat, Vec) -> Vec, chol: Mat -> bool)
    returns (d: Step)
    requires Columns(a, |s|) && Sized(a, s, p) && Solvable(mode, a, |s|, p.x, p.z)
    requires ExactSolver(solve) && ExactChol(chol)
    ensures IsDirection(a, s, lam, p, d)
    ensures FailsExactly(mode, a, |s|, p, d)
  {
    var rx, ry, rz := DualResidual(a, lam, p.y, p.z), PrimalResidual(a, s, p.x, p.y), GapResidual(p.mu, p.x, p.z);
    var dx, dy, dz := Direction(mode, a, |s|, p.x, p.z, rx, ry, rz, solve);
    var failed := mode == 0 && !chol(Matrix3(a, |s|, Quot(p.x, p.z)));
    d := Step(dx, dy, dz, failed);
  }

  /** A run from `start`: every step could be taken in this mode, and factors are missed exactly
      where mode 0 finds its matrix not positive definite. */
  ghost predicate Follows(mode: nat, a: Mat, s: Vec, lam: real, gamma: real, start: Iterate,
                          run: seq<Iterate>, steps: seq<Step>)
    requires Columns(a, |s|)
  {
    && IsRun(a, s, lam, gamma, run, steps) && run[0] == start
    && forall i :: 0 <= i < |steps| ==> StepAllowed(mode, a, s, run[i], steps[i])
  }

  ghost predicate StepAllowed(mode: nat, a: Mat, s: Vec, p: Iterate, d: Step)
    requires Columns(a, |s|) && Sized(a, s, p)
  {
    Solvable(mode, a, |s|, p.x, p.z) && FailsExactly(mode, a, |s|, p, d)
  }

  lemma ExtendRun(mode: nat, a: Mat, s: Vec, lam: real, gamma: real, start: Iterate,
                  run: seq<Iterate>, steps: seq<Step>, d: Step)
    requires Columns(a, |s|) && Follows(mode, a, s, lam, gamma, start, run, steps)
    requires Sized(a, s, run[|steps|])
    requires IsDirection(a, s, lam, run[|steps|], d) && StepAllowed(mode, a, s, run[|steps|], d)
    ensures Fits(run[|steps|], d)
    ensures Follows(mode, a, s, lam, gamma, start, run + [After(gamma, |steps|, run[|steps|], d)], steps + [d])
  {
    var run', steps' := run + [After(gamma, |steps|, run[|steps|], d)], steps + [d];
    forall i | 0 <= i < |steps'| ensures StepAt(a, s, lam, gamma, run', steps', i) {
      if i < |steps| {
        assert StepAt(a, s, lam, gamma, run, steps, i);
      }
    }
  }

  /** The stopping test. */
  ghost predicate Passes(a: Mat, s: Vec, lam: real, p: Iterate, epsilon: real, norm: Vec -> real)
    requires Columns(a, |s|) && Sized(a, s, p) && norm(p.x) >= 0.0 && norm(p.y) >= 0.0
  {
    Converged(DualResidual(a, lam, p.y, p.z), PrimalResidual(a, s, p.x, p.y), p.x, p.z, norm(p.x), norm(p.y), epsilon)
  }

  /** Every step of a run was taken because the test had failed. */
  ghost predicate FailedBefore(a: Mat, s: Vec, lam: real, run: seq<Iterate>, k: nat, epsilon: real, norm: Vec -> real)
    requires Columns(a, |s|) && k <= |run| && forall v: Vec :: norm(v) >= 0.0
    requires forall i :: 0 <= i < |run| ==> Sized(a, s, run[i])
  {
    forall i :: 0 <= i < k ==> !Passes(a, s, lam, run[i], epsilon, norm)
  }

  lemma FailedMore(a: Mat, s: Vec, lam: real, run: seq<Iterate>, q: Iterate, epsilon: real, norm: Vec -> real)
    requires Columns(a, |s|) && |run| > 0 && forall v: Vec :: norm(v) >= 0.0
    requires Sized(a, s, q) && forall i :: 0 <= i < |run| ==> Sized(a, s, run[i])
    requires FailedBefore(a, s, lam, run, |run| - 1, epsilon, norm)
    requires !Passes(a, s, lam, run[|run| - 1], epsilon, norm)
    ensures FailedBefore(a, s, lam, run + [q], |run|, epsilon, norm)
  {
    var run' := run + [q];
    forall i | 0 <= i < |run| ensures !Passes(a, s, lam, run'[i], epsilon, norm) {
      assert run'[i] == run[i];
    }
  }

  /** What the exit means at the last point. */
  ghost predicate Ends(exit: Exit, mode: nat, x: Mat, s: Vec, lam: real, p: Iterate, epsilon: real, norm: Vec -> real)
    requires Columns(x, |s|) && Sized(Split(x), s, p) && forall v: Vec :: norm(v) >= 0.0
  {
    match exit
    case Optimal =>
      && Passes(Split(x), s, lam, p, epsilon, norm)
      && CertifiesLasso(x, s, lam, p.x, p.z, norm(p.x), norm(p.y), epsilon)
      && (Interior(p.x, p.z) ==> forall d: Vec :: |d| == |p.z| ==> SignLoss(lam, p.x, p.z, d) == 0.0)
    case Singular => !Passes(Split(x), s, lam, p, epsilon, norm) && !Solvable(mode, Split(x), |s|, p.x, p.z)
    case IterationLimit => true
  }

  method TestPasses(x: Mat, s: Vec, lam: real, p: Iterate, epsilon: real, mode: nat, norm: Vec -> real)
    returns (ok: bool)
    requires Columns(x, |s|) && Sized(Split(x), s, p) && lam >= 0.0 && forall v: Vec :: norm(v) >= 0.0
    ensures ok <==> Passes(Split(x), s, lam, p, epsilon, norm)
    ensures ok ==> Ends(Optimal, mode, x, s, lam, p, epsilon, norm)
  {
    var rx, ry := DualResidual(Split(x), lam, p.y, p.z), PrimalResidual(Split(x), s, p.x, p.y);
    ok := Converged(rx, ry, p.x, p.z, norm(p.x), norm(p.y), epsilon);
    if ok {
      ConvergedCertifies(x, s, lam, p.x, p.y, p.z, norm(p.x), norm(p.y), epsilon);
      InteriorLoses(lam, p.x, p.z);
    }
  }

  /** The main loop from any starting point, for the columns x of X. Its points make a run of
      Newton steps; it is left by the stopping test, which bounds how much better any other weights
      can be, up to what negative entries hide, by the iteration limit, or where the mode's system
      cannot be solved. */
  method Solve(mode: nat, x: Mat, s: Vec, lam: real, start: Iterate, gamma: real, epsilon: real, maxIter: nat,
               solve: (Mat, Vec) -> Vec, singular: Mat -> bool, chol: Mat -> bool, norm: Vec -> real)
    returns (exit: Exit, p: Iterate, ghost run: seq<Iterate>, ghost steps: seq<Step>)
    requires Columns(x, |s|) && Sized(Split(x), s, start) && lam >= 0.0
    requires ExactSolver(solve) && ExactTest(singular) && ExactChol(chol) && forall v: Vec :: norm(v) >= 0.0
    ensures Follows(mode, Split(x), s, lam, gamma, start, run, steps)
    ensures FailedBefore(Split(x), s, lam, run, |steps|, epsilon, norm)
    ensures p == run[|steps|] && |steps| <= maxIter && Sized(Split(x), s, p)
    ensures Ends(exit, mode, x, s, lam, p, epsilon, norm)
    ensures exit.IterationLimit? ==> |steps| == maxIter
  {
    var a := Split(x);
    var iteration := 0;
    p, run, steps := start, [start], [];
    while iteration < maxIter
      invariant iteration == |steps| <= maxIter
      invariant Follows(mode, a, s, lam, gamma, start, run, steps) && p == run[|steps|]
      invariant FailedBefore(a, s, lam, run, |steps|, epsilon, norm)
    {
      var done := TestPasses(x, s, lam, p, epsilon, mode, norm);
      if done {
        return Optimal, p, run, steps;
      }
      var ok := CanSolve(mode, a, |s|, p.x, p.z, singular);
      if !ok {
        return Singular, p, run, steps;
      }
      var d := FindStep(mode, a, s, lam, p, solve, chol);
      ExtendRun(mode, a, s, lam, gamma, start, run, steps, d);
      FailedMore(a, s, lam, run, After(gamma, iteration, p, d), epsilon, norm);
      p := After(gamma, iteration, p, d);
      run, steps, iteration := run + [p], steps + [d], iteration + 1;
    }
    exit := IterationLimit;
  }

  // ----- the starting point

  /** The largest magnitude, or 0. */
  function NormInf(v: Vec): (m: real)
    ensures m >= 0.0 && forall j :: 0 <= j < |v| ==> Abs(v[j]) <= m
    ensures m == 0.0 || exists j :: 0 <= j < |v| && Abs(v[j]) == m
  {
    if v == [] then 0.0 else
      var n := |v| - 1;
      var m := NormInf(v[..n]);
      assert forall j :: 0 <= j < n ==> v[..n][j] == v[j];
      Max(m, Abs(v[n]))
  }

  function Signs(v: Vec): (r: Vec)
    ensures |r| == |v|
  {
    seq(|v|, j requires 0 <= j < |v| => if v[j] > 0.0 then 1.0 else if v[j] < 0.0 then -1.0 else 0.0)
  }

  /** A times the signs of the parts of the ridge weights alpha. */
  function SignImage(x: Mat, n: nat, alpha: Vec): (r: Vec)
    requires Columns(x, n) && |alpha| == |x|
    ensures |r| == n
  {
    Comb(Split(x), Signs(Plus(alpha) + Minus(alpha)), n)
  }

  function Omega(x: Mat, s: Vec): (r: real)
    requires Columns(x, |s|)
  {
    1.1 * NormInf(Proj(x, s))
  }

  /** The division that makes y_0 is by zero only where it is not used. */
  predicate Startable(x: Mat, s: Vec)
    requires Columns(x, |s|)
  {
    |x| > 0 ==> Omega(x, s) != 0.0
  }

  /** lambda - A'*(lambda*y_bar/omega_hat) */
  function StartSlack(x: Mat, s: Vec, lam: real, alpha: Vec): (z: Vec)
    requires Columns(x, |s|) && |alpha| == |x| && Startable(x, s)
    ensures |z| == 2 * |x|
  {
    if |x| == 0 then [] else
    var y0 := Scale(lam / Omega(x, s), SignImage(x, |s|, alpha));
    var p := Proj(Split(x), y0);
    seq(2 * |x|, j requires 0 <= j < 2 * |x| => lam - p[j])
  }

  /** The starting point. The dual variables begin as the observations, not as the y_0 that the
      slacks are made from. */
  function Start(x: Mat, s: Vec, lam: real, mu: real, alpha: Vec): (p: Iterate)
    requires Columns(x, |s|) && |alpha| == |x| && Startable(x, s)
    ensures Sized(Split(x), s, p)
  {
    var parts := Plus(alpha) + Minus(alpha);
    Iterate(seq(|parts|, j requires 0 <= j < |parts| => parts[j] + 0.1), s, StartSlack(x, s, lam, alpha), mu)
  }

  lemma SlackSign(lam: real, omega: real, q: real, z: real)
    requires lam > 0.0 && omega > 0.0 && z == lam - Mul(lam / omega, q)
    ensures z > 0.0 <==> q < omega
  {
    var r := lam / omega;
    assert r * omega == lam;
    if r <= 0.0 { ScaleMono(omega, r, 0.0); }
    assert z == Mul(r, omega - q);
    if q < omega { MulPos(r, omega - q); } else { ScaleMono(r, omega - q, 0.0); }
  }

  lemma SlackSigns(lam: real, omega: real, r: real, q: real, q': real, z: real, z': real)
    requires lam > 0.0 && omega > 0.0 && r == lam / omega && z == lam - Mul(r, q) && z' == lam - Mul(r, q') && q' == -q
    ensures z > 0.0 && z' > 0.0 <==> Abs(q) < omega
  {
    SlackSign(lam, omega, q, z);
    SlackSign(lam, omega, q', z');
  }

  /** Both slacks of variable j are positive. */
  ghost predicate BothPositive(z: Vec, p: nat, j: nat)
    requires |z| == 2 * p && j < p
  {
    z[j] > 0.0 && z[p + j] > 0.0
  }

  /** An entry of the slacks, a being the column of A it belongs to. */
  lemma SlackEntry(x: Mat, s: Vec, lam: real, alpha: Vec, r: real, j: nat)
    requires Columns(x, |s|) && |alpha| == |x| && Omega(x, s) > 0.0 && lam > 0.0 && j < 2 * |x|
    requires r == lam / Omega(x, s)
    ensures StartSlack(x, s, lam, alpha)[j] == lam - Mul(r, Dot(Split(x)[j], SignImage(x, |s|, alpha)))
  {
    DotScale(Split(x)[j], lam / Omega(x, s), SignImage(x, |s|, alpha));
  }

  lemma NegatedDot(a: Vec, b: Vec)
    requires |a| == |b|
    ensures Dot(Scale(-1.0, a), b) == -Dot(a, b)
  {
    DotSym(Scale(-1.0, a), b);
    DotScale(b, -1.0, a);
    DotSym(a, b);
  }

  /** The products of the two columns that variable j has in A. */
  lemma SplitDots(x: Mat, v: Vec, j: nat)
    requires Columns(x, |v|) && j < |x|
    ensures Dot(Split(x)[j], v) == Proj(x, v)[j] && Dot(Split(x)[|x| + j], v) == -Proj(x, v)[j]
  {
    NegatedDot(x[j], v);
  }

  lemma SlackAt(x: Mat, s: Vec, lam: real, alpha: Vec, j: nat)
    requires Columns(x, |s|) && |alpha| == |x| && Omega(x, s) > 0.0 && lam > 0.0 && j < |x|
    ensures BothPositive(StartSlack(x, s, lam, alpha), |x|, j)
       <==> Abs(Proj(x, SignImage(x, |s|, alpha))[j]) < Omega(x, s)
  {
    var omega, z := Omega(x, s), StartSlack(x, s, lam, alpha);
    var r, ybar := lam / omega, SignImage(x, |s|, alpha);
    SlackEntry(x, s, lam, alpha, r, j);
    SlackEntry(x, s, lam, alpha, r, |x| + j);
    SplitDots(x, ybar, j);
    SlackSigns(lam, omega, r, Dot(Split(x)[j], ybar), Dot(Split(x)[|x| + j], ybar), z[j], z[|x| + j]);
  }

  lemma AllBelow(q: Vec, omega: real)
    requires omega > 0.0
    ensures NormInf(q) < omega <==> forall j :: 0 <= j < |q| ==> Abs(q[j]) < omega
  {
  }

  lemma HalvesPositive(x: Vec, z: Vec, p: nat)
    requires |x| == |z| == 2 * p && NonNegative(x)
    ensures Interior(x, z) <==> forall j: nat :: j < p ==> BothPositive(z, p, j)
  {
    if forall j: nat :: j < p ==> BothPositive(z, p, j) {
      forall j | 0 <= j < |z| ensures z[j] > 0.0 {
        assert BothPositive(z, p, if j < p then j else j - p);
      }
    }
  }

  lemma SlacksBelow(x: Mat, s: Vec, lam: real, alpha: Vec)
    requires Columns(x, |s|) && |alpha| == |x| && Omega(x, s) > 0.0 && lam > 0.0
    ensures (forall j: nat :: j < |x| ==> BothPositive(StartSlack(x, s, lam, alpha), |x|, j))
       <==> NormInf(Proj(x, SignImage(x, |s|, alpha))) < Omega(x, s)
  {
    var q, z := Proj(x, SignImage(x, |s|, alpha)), StartSlack(x, s, lam, alpha);
    forall j: nat | j < |x| ensures BothPositive(z, |x|, j) <==> Abs(q[j]) < Omega(x, s) {
      SlackAt(x, s, lam, alpha, j);
    }
    AllBelow(q, Omega(x, s));
  }

  /** The start lies in the region exactly when the columns' products with the image of the signs
      stay below 1.1 times the largest product with the observations. */
  lemma StartInside(x: Mat, s: Vec, lam: real, mu: real, alpha: Vec)
    requires Columns(x, |s|) && |alpha| == |x| > 0 && Startable(x, s) && lam > 0.0
    ensures
      var p := Start(x, s, lam, mu, alpha);
      Interior(p.x, p.z) <==> NormInf(Proj(x, SignImage(x, |s|, alpha))) < 1.1 * NormInf(Proj(x, s))
  {
    var p := Start(x, s, lam, mu, alpha);
    SlacksBelow(x, s, lam, alpha);
    HalvesPositive(p.x, p.z, |x|);
  }

  // ----- the whole function

  /** The weights u - v with everything within the threshold set to zero. */
  function WeightsOf(p: nat, x: Vec, threshold: real): (w: Vec)
    requires |x| == 2 * p
    ensures |w| == p
  {
    Thresholded(Sub(x[..p], x[p..]), threshold)
  }

  datatype Result = Undefined | Fitted(exit: Exit, w: Vec)

  /** w is not worse than any other weights by more than the test allows, negative entries hide,
      and the last truncation loses. */
  ghost predicate CertifiesWeights(x: Mat, s: Vec, lam: real, p: Iterate, w: Vec, normX: real, normY: real,
                                   epsilon: real)
    requires Columns(x, |s|) && Sized(Split(x), s, p) && |w| == |x|
  {
    var raw := Sub(p.x[..|x|], p.x[|x|..]);
    forall c: Vec, dist: real :: |c| == |x| && Reaches(dist, normY, epsilon, p.x, c) ==>
      Objective(x, s, lam, w) <= Objective(x, s, lam, c) + Allowance(normX, normY, epsilon) + dist
        + SignLoss(lam, p.x, p.z, Plus(c) + Minus(c)) + ThresholdLoss(x, s, lam, raw, Sub(w, raw))
  }

  lemma TruncatedCertifies(x: Mat, s: Vec, lam: real, p: Iterate, threshold: real, normX: real, normY: real,
                           epsilon: real)
    requires Columns(x, |s|) && Sized(Split(x), s, p)
    requires CertifiesLasso(x, s, lam, p.x, p.z, normX, normY, epsilon)
    ensures CertifiesWeights(x, s, lam, p, WeightsOf(|x|, p.x, threshold), normX, normY, epsilon)
  {
    var raw := Sub(p.x[..|x|], p.x[|x|..]);
    ThresholdedObjective(x, s, lam, raw, threshold);
    forall c: Vec, dist: real | |c| == |x| && Reaches(dist, normY, epsilon, p.x, c)
      ensures Objective(x, s, lam, Thresholded(raw, threshold))
           <= Objective(x, s, lam, c) + Allowance(normX, normY, epsilon) + dist
            + SignLoss(lam, p.x, p.z, Plus(c) + Minus(c))
            + ThresholdLoss(x, s, lam, raw, Sub(Thresholded(raw, threshold), raw))
    {
      assert WithinAllowance(x, s, lam, p.x, p.z, normX, normY, epsilon, c, dist);
    }
  }

  /** The penalty on the weights: half of lambda, or a small one in place of none. */
  function Penalty(lambda0: real): (lam: real)
    ensures lambda0 >= 0.0 ==> lam > 0.0
  {
    if lambda0 == 0.0 then 0.0001 else lambda0 / 2.0
  }

  method RidgeWeights(x: Mat, s: Vec, lam: real, solve: (Mat, Vec) -> Vec) returns (alpha: Vec)
    requires Columns(x, |s|) && lam > 0.0 && ExactSolver(solve)
    ensures |alpha| == |x| && Ridge(x, |s|, Proj(x, s), seq(|x|, j => lam), alpha)
  {
    var pen := seq(|x|, j => lam);
    var m, b := Matrix0(Gram(x, |s|), pen), Proj(x, s);
    Regular0(x, |s|, pen);
    alpha := solve(m, b);
    assert Solution(m, b, alpha);
    Mode0(x, |s|, b, pen, alpha);
  }

  /** LassoPrimalDualLogBarrier: the start divides by zero when no column has a product with the
      observations; otherwise the run starts from the ridge weights and ends as `Ends` says, and
      the weights returned are the last ones truncated. */
  method Fit(mode: nat, x: Mat, s: Vec, lambda0: real, mu0: real, gamma: real, epsilon: real, threshold: real,
             maxIter: nat, solve: (Mat, Vec) -> Vec, singular: Mat -> bool, chol: Mat -> bool, norm: Vec -> real)
    returns (r: Result, ghost alpha: Vec, ghost run: seq<Iterate>, ghost steps: seq<Step>)
    requires Columns(x, |s|) && lambda0 >= 0.0
    requires ExactSolver(solve) && ExactTest(singular) && ExactChol(chol) && forall v: Vec :: norm(v) >= 0.0
    ensures r.Undefined? <==> |x| > 0 && Proj(x, s) == Zero(|x|)
    ensures r.Fitted? ==>
      var lam := Penalty(lambda0);
      && |alpha| == |x| && Startable(x, s)
      && Ridge(x, |s|, Proj(x, s), seq(|x|, j => lam), alpha)
      && Follows(mode, Split(x), s, lam, gamma, Start(x, s, lam, mu0, alpha), run, steps) && |steps| <= maxIter
      && FailedBefore(Split(x), s, lam, run, |steps|, epsilon, norm)
      && (r.exit.IterationLimit? ==> |steps| == maxIter)
      && r.w == WeightsOf(|x|, run[|steps|].x, threshold)
      && Ends(r.exit, mode, x, s, lam, run[|steps|], epsilon, norm)
      && (r.exit.Optimal? ==> CertifiesWeights(x, s, lam, run[|steps|], r.w, norm(run[|steps|].x),
                                               norm(run[|steps|].y), epsilon))
  {
    var lam := Penalty(lambda0);
    var first := RidgeWeights(x, s, lam, solve);
    alpha, run, steps := first, [], [];
    NoProducts(x, s);
    if !Startable(x, s) {
      return Undefined, alpha, run, steps;
    }
    var exit, p;
    exit, p, run, steps := Solve(mode, x, s, lam, Start(x, s, lam, mu0, first), gamma, epsilon, maxIter,
                                 solve, singular, chol, norm);
    if exit.Optimal? {
      TruncatedCertifies(x, s, lam, p, threshold, norm(p.x), norm(p.y), epsilon);
    }
    r := Fitted(exit, WeightsOf(|x|, p.x, threshold));
  }

  lemma NoProducts(x: Mat, s: Vec)
    requires Columns(x, |s|)
    ensures Omega(x, s) == 0.0 <==> Proj(x, s) == Zero(|x|)
  {
    var p := Proj(x, s);
    if NormInf(p) == 0.0 {
      assert forall j :: 0 <= j < |p| ==> Abs(p[j]) <= 0.0;
    }
  }

  // ----- inputs on which the promises fail

  ghost predicate Pair(v: Vec, p: real, q: real) {
    |v| == 2 && v[0] == p && v[1] == q
  }

  lemma OneSplit(x: Mat, s: Vec, xk: Vec, y: Vec)
    requires OneByOne(x, s) && |xk| == 2 && |y| == 1
    ensures Columns(Split(x), 1) && Pair(Proj(Split(x), y), y[0], -y[0])
    ensures Comb(Split(x), xk, 1)[0] == xk[0] - xk[1]
  {
    var a := Split(x);
    Dot1(a[0], y);
    Dot1(a[1], y);
    CombAt(a, xk, 1, 0);
    Dot2(xk, RowOf(a, 1, 0));
  }

  /** X = [1], y = 0.1, any penalty: the start is outside the region, one slack being negative. */
  lemma StartOutside(x: Mat, s: Vec, lam: real, mu: real, alpha: Vec)
    requires OneByOne(x, s) && s[0] == 0.1 && lam > 0.0 && |alpha| == 1
    requires Ridge(x, 1, Proj(x, s), seq(1, j => lam), alpha)
    ensures Startable(x, s) && !Interior(Start(x, s, lam, mu, alpha).x, Start(x, s, lam, mu, alpha).z)
  {
    OneGradient(x, s, alpha);
    OneRidge(x, s, lam, alpha);
    OneImage(x, s, alpha);
    StartInside(x, s, lam, mu, alpha);
  }

  lemma OneRidge(x: Mat, s: Vec, lam: real, alpha: Vec)
    requires OneByOne(x, s) && lam > 0.0 && |alpha| == 1
    requires Ridge(x, 1, Proj(x, s), seq(1, j => lam), alpha)
    ensures Mul(1.0 + lam, alpha[0]) == s[0]
    ensures s[0] > 0.0 ==> alpha[0] > 0.0
  {
    assert RidgeRow(x, 1, Proj(x, s), seq(1, j => lam), alpha, 0);
    OneGradient(x, s, alpha);
    GramTimes(x, alpha, 1, 0);
    if s[0] > 0.0 && alpha[0] <= 0.0 { ScaleMono(1.0 + lam, alpha[0], 0.0); }
  }

  /** With a positive weight the image of the signs is 1. */
  lemma OneImage(x: Mat, s: Vec, alpha: Vec)
    requires OneByOne(x, s) && |alpha| == 1 && alpha[0] > 0.0
    ensures Proj(x, s)[0] == s[0] && Proj(x, SignImage(x, 1, alpha))[0] == 1.0
  {
    var signs := Signs(Plus(alpha) + Minus(alpha));
    OneSplit(x, s, signs, s);
    Dot1(x[0], s);
    Dot1(x[0], SignImage(x, 1, alpha));
  }

  /** With one column the system has one solution unless a determinant is zero. */
  lemma OneRegular(x: Mat, s: Vec, xk: Vec, z: Vec)
    requires OneByOne(x, s) && |xk| == |z| == 2 && NonZero(z)
    requires z[0] * z[1] + xk[0] * z[1] + xk[1] * z[0] != 0.0
    ensures Regular(Split(x), 1, xk, z)
  {
    var a := Split(x);
    forall dx, dy, dz | Newton(a, 1, xk, z, Zero(2), Zero(1), Zero(2), dx, dy, dz)
      ensures dx == Zero(2) && dy == Zero(1) && dz == Zero(2)
    {
      OneKernel(x, s, xk, z, dx, dy, dz);
    }
  }

  lemma OneKernel(x: Mat, s: Vec, xk: Vec, z: Vec, dx: Vec, dy: Vec, dz: Vec)
    requires OneByOne(x, s) && |xk| == |z| == 2 && NonZero(z)
    requires z[0] * z[1] + xk[0] * z[1] + xk[1] * z[0] != 0.0
    requires Newton(Split(x), 1, xk, z, Zero(2), Zero(1), Zero(2), dx, dy, dz)
    ensures dx == Zero(2) && dy == Zero(1) && dz == Zero(2)
  {
    var a, c := Split(x), dx[0] - dx[1];
    Homogeneous(a, 1, xk, z, dx, dy, dz);
    OneSplit(x, s, dx, dy);
    assert dy[0] == Scale(-1.0, Comb(a, dx, 1))[0] == -c;
    assert dz[0] == Scale(-1.0, Proj(a, dy))[0] == c && dz[1] == Scale(-1.0, Proj(a, dy))[1] == -c;
    Determinant(z[0], z[1], xk[0], xk[1], dx[0], dx[1], c);
    ZeroImages(a, 1, dx, dy);
    assert dz == Zero(2);
    NoSlack(a, 1, xk, z, dx, dy, dz);
  }

  lemma Determinant(z: real, z': real, x: real, x': real, d: real, d': real, c: real)
    requires z * z' + x * z' + x' * z != 0.0 && c == d - d'
    requires z * d + x * c == 0.0 && z' * d' + x' * -c == 0.0
    ensures c == 0.0
  {
    var e, e' := z * d + x * c, z' * d' + x' * -c;
    assert Mul(z', e) - Mul(z, e') == (z * z' + x * z' + x' * z) * c;
    CancelZero(z * z' + x * z' + x' * z, c);
  }

  /** At the penalty 1 all modes can take a step from that start, so the source goes on. */
  lemma StartGoesOn(mode: nat, x: Mat, s: Vec, mu: real, alpha: Vec)
    requires OneByOne(x, s) && s[0] == 0.1 && |alpha| == 1
    requires Ridge(x, 1, Proj(x, s), seq(1, j => 1.0), alpha)
    ensures Startable(x, s)
    ensures Solvable(mode, Split(x), 1, Start(x, s, 1.0, mu, alpha).x, Start(x, s, 1.0, mu, alpha).z)
  {
    OneRidge(x, s, 1.0, alpha);
    OneImage(x, s, alpha);
    var p := Start(x, s, 1.0, mu, alpha);
    var y0 := Scale(1.0 / Omega(x, s), SignImage(x, 1, alpha));
    Dot1(x[0], SignImage(x, 1, alpha));
    OneSplit(x, s, p.x, y0);
    assert p.x[0] == 0.15 && p.x[1] == 0.1;
    assert Omega(x, s) == 0.11;
    assert p.z[0] == 1.0 - 1.0 / 0.11 && p.z[1] == 1.0 + 1.0 / 0.11;
    OneRegular(x, s, p.x, p.z);
  }

  /** X = [1], y = 1 and penalty 0.1, at x = [0; 0], z = [-0.9; 1.1] and dual 1: all residuals and
      products are zero, so that the test passes whatever the tolerance and the norms; and the
      weight 0 is no minimiser. A slack is negative, which the test does not look at. */
  lemma OptimalMisses(x: Mat, s: Vec, xk: Vec, y: Vec, z: Vec, normX: real, normY: real, epsilon: real)
    requires OneByOne(x, s) && s[0] == 1.0 && Pair(xk, 0.0, 0.0) && |y| == 1 && y[0] == 1.0 && Pair(z, -0.9, 1.1)
    requires normX >= 0.0 && normY >= 0.0 && epsilon > 0.0
    ensures Converged(DualResidual(Split(x), 0.1, y, z), PrimalResidual(Split(x), s, xk, y), xk, z,
                      normX, normY, epsilon)
    ensures !Interior(xk, z) && !IsMinimiser(x, s, 0.1, Sub(xk[..1], xk[1..]))
  {
    OneSplit(x, s, xk, y);
    var rx, ry := DualResidual(Split(x), 0.1, y, z), PrimalResidual(Split(x), s, xk, y);
    assert rx == Zero(2) && ry == Zero(1);
    ZerosConverge(rx, ry, xk, z, normX, normY, epsilon);
    ZeroMisses(x, s, Sub(xk[..1], xk[1..]));
  }

  lemma ZerosConverge(rx: Vec, ry: Vec, x: Vec, z: Vec, normX: real, normY: real, epsilon: real)
    requires |x| == |z| && rx == Zero(|rx|) && ry == Zero(|ry|) && x == Zero(|x|)
    requires normX >= 0.0 && normY >= 0.0 && epsilon > 0.0
    ensures Converged(rx, ry, x, z, normX, normY, epsilon)
  {
    SqNormNonNeg(rx);
    SqNormNonNeg(ry);
    SumToZero(Had(z, x), |x|);
    ProductNonNeg(normX, normY);
  }

  lemma ZeroViolates(x: Mat, s: Vec, g: real, w: Vec)
    requires OneByOne(x, s) && s[0] == 1.0 && g == 0.1 && |w| == 1 && w[0] == 0.0
    ensures !AllWithin(x, s, g, w, 0.0)
  {
    OneWithin(x, s, g, w);
  }

  lemma ZeroMisses(x: Mat, s: Vec, w: Vec)
    requires OneByOne(x, s) && s[0] == 1.0 && |w| == 1 && w[0] == 0.0
    ensures !IsMinimiser(x, s, 0.1, w)
  {
    ZeroViolates(x, s, 0.1, w);
    MinimiserIff(x, s, 0.1, w);
  }

  // ----- a Newton direction that leaves the region

  lemma OneNewton(x: Mat, xk: Vec, z: Vec, rx: Vec, ry: Vec, rz: Vec, dx: Vec, dy: Vec, dz: Vec)
    requires |x| == 1 && |x[0]| == 1 && x[0][0] == 1.0
    requires |xk| == |z| == |rx| == |rz| == |dx| == |dz| == 2 && |ry| == |dy| == 1
    requires rx[0] == dy[0] + dz[0] && rx[1] == -dy[0] + dz[1] && ry[0] == dx[0] - dx[1] + dy[0]
    requires rz[0] == z[0] * dx[0] + xk[0] * dz[0] && rz[1] == z[1] * dx[1] + xk[1] * dz[1]
    ensures Newton(Split(x), 1, xk, z, rx, ry, rz, dx, dy, dz)
  {
    OneSplit(x, dy, dx, dy);
    var a := Split(x);
    assert Add(Proj(a, dy), dz) == rx && Add(Comb(a, dx, 1), dy) == ry;
    var gap := Add(Had(z, dx), Had(xk, dz));
    assert gap[0] == rz[0] && gap[1] == rz[1];
    assert gap == rz;
  }

  /** X = [1], penalty 3.000005, y = -4.000035, gamma = 0.99 and mu = 0.00001: at a positive x
      and z the residuals the source forms have a Newton direction after whose damped step x
      is no longer positive. By uniqueness it is the one the source takes. */
  lemma NewtonLeaves(x: Mat, s: Vec, xk: Vec, y: Vec, z: Vec, dx: Vec, dy: Vec, dz: Vec)
    requires OneByOne(x, s) && s[0] == -4.000035 && |y| == |dy| == 1 && y[0] == -2.999995 && dy[0] == 0.0
    requires Pair(xk, 0.00001, 1.0) && Pair(z, 1.0, 1.0) && Pair(dx, -0.00005, 0.0) && Pair(dz, 5.0, -0.99999)
    ensures AllPositive(xk) && AllPositive(z)
    ensures Newton(Split(x), 1, xk, z, DualResidual(Split(x), 3.000005, y, z), PrimalResidual(Split(x), s, xk, y),
                   GapResidual(0.00001, xk, z), dx, dy, dz)
    ensures !StaysPositive(xk, 0.99, dx)
  {
    OneSplit(x, s, xk, y);
    OneNewton(x, xk, z, DualResidual(Split(x), 3.000005, y, z), PrimalResidual(Split(x), s, xk, y),
              GapResidual(0.00001, xk, z), dx, dy, dz);
    assert StepLength(xk, dx) == 1.0;
    MoveAt(xk, Damped(0.99, 1.0), dx, 0);
  }

  // ----- the last truncation

  lemma SmallZeroed(w: Vec, zero: Vec)
    requires |w| == 1 && w[0] == 0.00005 && zero == Thresholded(w, 0.0001)
    ensures |zero| == 1 && zero[0] == 0.0
  {}

  /** X = [1], y = 0.50005 and penalty 0.5, with the default threshold: the minimiser 0.00005 is
      returned as 0, which does not minimise. */
  lemma TruncationMisses(x: Mat, s: Vec, g: real, w: Vec, zero: Vec)
    requires OneByOne(x, s) && s[0] == 0.50005 && g == 0.5 && |w| == 1 && w[0] == 0.00005
    requires zero == Thresholded(w, 0.0001)
    ensures IsMinimiser(x, s, g, w) && !IsMinimiser(x, s, g, zero)
  {
    SmallZeroed(w, zero);
    SmallMinimiser(x, s, g, w);
    SmallMinimiser(x, s, g, zero);
  }
}
