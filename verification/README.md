# Verified models of the rejuvenation framework's numerical and concurrent cores

The repository predicts when virtual machines will fail and balances load around them. It has
two halves: a model builder, which aggregates monitored data points and fits sparse linear models
with several Lasso solvers, and a run-time, in which a controller and a load balancer keep track
of the machines. This project models the parts of both whose correctness is hard to see, in
Dafny, and proves what those parts are for. `dafny verify dfyconfig.toml` checks everything.

All solver arithmetic is over exact reals. A matrix is a sequence of columns; `Comb(X, w, n)` is
X*w and `Proj(X, r)` is X'*r. Code that works in place keeps its arrays or its objects; threads
are state machines over atomic steps, and statements about them hold for every run.

| file | what it holds |
|---|---|
| `LinearAlgebra`, `Indexing` | vectors, sums, products, the adjoint law, permutations, gather and scatter |
| `ModifiedCholesky`, `FactorisationLaws` | the pivoted in-place factorisation of `mchol.m`, and what its result means |
| `ProjectionDirection`, `DirectionLaws`, `ProjectedObjective`, `ProjectionSolver` | the descent direction made from it and the system it solves, the objective it descends, and the loop with its stopping test |
| `L1LeastSquares` | the objective all solvers share, and when a point is optimal |
| `Shooting`, `GaussSeidel` | the two coordinate solvers |
| `RidgeModes`, `IteratedRidge` | the four ways of solving the ridge system, and the iteration around them |
| `NewtonSystem`, `PrimalDual`, `LogBarrier`, `BarrierLaws` | the interior-point solver: its linear system, what its residuals certify, the whole function, and what becomes of its barrier parameter |
| `Tiling` | `repmatC.c`, the tiling of arrays by recursive doubling |
| `LinkedLists`, `Aggregation` | the lists of data points, and their aggregation over windows |
| `ControllerServer`, `ThreadEvents`, `Promotions` | the threads and mutexes of the controller, what they make of events, and what the balancer learns of promotions |
| `LoadBalancer`, `Relay` | the balancer's tables, the assignment of clients, and the forwarding of bytes |
| `ThreadIds`, `SpinLocks`, `LeaderElection` | compare-and-swap tickets, the spin lock, the election |

Some promises turned out to hold only under a condition, and the project states it:

* The bound on the growth of the factor is not built into the first column of the factorisation
  (`FactorisationLaws.FirstColumn` says exactly when it holds there, `FirstColumnGrows` when not).
* Gauss-Seidel's first test uses `gamma` where the objective has `gamma/2`, so a run that never
  enters its loop certifies less (`GaussSeidel.Solve`, `GaussSeidel.FirstTestTooLax`).
* Projection tests slopes from before it sets small weights to zero, so that it can report a
  solution and return weights that do not minimise (`ProjectionSolver.StopMisses`); what its test
  is worth is stated in terms of what was set to zero (`ProjectionSolver.Solve`), and taking the
  slopes once more would tell exactly (`ProjectedObjective.StationaryIsLasso`).
* Without a penalty, Shooting moves away from minimisers that use a zero column; it stays exactly
  at the others (`Shooting.FixedIffMinimiser`, `Shooting.ZeroColumn`). The start of the source is a
  singular system in that case (LassoShooting.m:15), so whether it gets there is open.
* Iterated Ridge uses data it has not formed when its first iteration finds only zeros
  (`IteratedRidge.Solve`), which it does for y = 0 (`IteratedRidge.StartsMasked`).
* The interior-point solver need not start inside its region: its slacks are positive exactly
  under a condition on the data (`LogBarrier.StartInside`, `LogBarrier.StartOutside`). From inside,
  a step stays there for sure only while entries exceed `gamma*0.0001`
  (`PrimalDual.NewtonPositiveExactlyWhen`, `LogBarrier.NewtonLeaves`). Its exit test does not look
  at signs: with a negative slack the test certifies nothing (`LogBarrier.OptimalMisses`). Whether
  runs from the source's start end at such a point is not shown.
* It then sets small weights to zero, minimisers included (`LogBarrier.TruncationMisses`); what that
  loses is stated exactly (`L1LeastSquares.ThresholdedObjective`, `ThresholdedMinimiser`).
* The average of an integer feature is wrong when its sum is negative and the window holds more
  than one point (`Aggregation.CountsExact`, `Aggregation.NegativeCounts`); aggregation fails on
  runs of fewer than two points (`Aggregation.AggregateAll`).
* A machine promoted in the controller's table goes on being ignored by its own thread
  (`ControllerServer.PromotedIsIgnored`), and the balancer is never told of it
  (`Promotions.NeverRouted`, `Promotions.PromotionRun`).
* A controller never regards itself as leader, so it never sends a heartbeat
  (`LeaderElection.Elector.Turn`).

## Model

| member | source | states |
|---|---|---|
| ModifiedCholesky.Factorise | model_build/lasso/sub/mchol.m:9-62 | In place and for any square matrix: perm is a permutation that begins with the first largest diagonal entry, l is unit lower triangular, every pivot is at least delta = mu*max(gamma + xi, 1), l*d*l' reproduces the permuted matrix off the diagonal, pivots are the larger of the remaining diagonal, the growth term and delta, and each was the largest remaining diagonal when chosen |
| ModifiedCholesky.LargestDiagonal | model_build/lasso/sub/mchol.m:33-34 | The position chosen has the largest diagonal magnitude from j on, and is the first such |
| ModifiedCholesky.Exchange | model_build/lasso/sub/mchol.m:37-44 | Exchanging two rows and columns of c, l and A with d and perm exchanges exactly these and keeps everything else |
| ModifiedCholesky.Eliminate | model_build/lasso/sub/mchol.m:46-61 | Row j of l, column j of c, pivot j and the rest of the diagonal become what one elimination step makes of them |
| ModifiedCholesky.ExchangeStep | model_build/lasso/sub/mchol.m:36-44 | The loop invariant of the factorisation survives the exchange of all five arrays together |
| ModifiedCholesky.AdvanceStep | model_build/lasso/sub/mchol.m:46-61 | The loop invariant advances by one pivot, although l is filled in rows and c in columns |
| FactorisationLaws.Reconstruction | model_build/lasso/sub/mchol.m:30-62 | For symmetric A, l*diag(d)*l' is the permuted A plus a non-negative diagonal; the shift at a pivot is zero exactly when what is left on the diagonal is at least delta and, between the first and the last column, the squares of the entries of l*d below it are at most beta^2 times what is left |
| FactorisationLaws.GrowthBound | model_build/lasso/sub/mchol.m:52-56 | For every column but the first, l_ij^2*d_j <= beta^2, although l_ij is written in a later pass |
| FactorisationLaws.PivotReason | model_build/lasso/sub/mchol.m:52-56 | No pivot is larger than it must be: it is delta, or the magnitude of what was left on the diagonal, or its column, neither the first nor the last, has an entry with l_ij^2*d_j equal to beta^2 |
| FactorisationLaws.UnshiftedIff | model_build/lasso/sub/mchol.m:46-61 | A symmetric matrix comes back without any shift if and only if, in pivot order, it has an LDL' factorisation of its own with pivots of at least delta and columns after the first within the bound; and that is then the one returned |
| FactorisationLaws.FirstColumn | model_build/lasso/sub/mchol.m:52-56 | In the first column, where theta stays zero, the bound can be read off A: with p the first position of a largest diagonal entry, the whole column is bounded if and only if every other entry of column p of A has a square of at most beta^2 times the larger of gamma and delta |
| FactorisationLaws.FirstColumnGrows | model_build/lasso/sub/mchol.m:52-56 | For the 2 by 2 exchange matrix and any mu below 1, the default included, every factorisation breaks the bound in the first column |
| ProjectionDirection.ForwardSolve | model_build/lasso/LassoProjection.m:50-50 | Forward substitution solves the unit lower triangular system |
| ProjectionDirection.BackSolve | model_build/lasso/LassoProjection.m:50-50 | Back substitution solves the transposed system |
| ProjectionDirection.PositiveCurvature | model_build/lasso/LassoProjection.m:50-50 | b'x >= 0 for a solution x of L*D*L'x = b with positive pivots, and b'x = 0 exactly when b = 0 |
| ProjectionDirection.ScatterDot | model_build/lasso/LassoProjection.m:46-51 | The product with a vector scattered to some positions only sees those positions |
| ProjectionDirection.Descent | model_build/lasso/LassoProjection.m:46-51 | The direction made through factorisation, two solves and the scatter through perm satisfies g'd <= 0, with equality exactly when the free gradient is zero, whatever the Hessian |
| ProjectionDirection.FindDirection | model_build/lasso/LassoProjection.m:30-71 | The search stops exactly when the free slopes add up to less than the tolerance; otherwise the direction accepted has g'd < 0 and is one that factorisation, solves and scatter make of the free block, with the modification 1e-12, or with 1 exactly when the first is longer than 1e5 |
| DirectionLaws.DirectionSystem | model_build/lasso/LassoProjection.m:46-51 | At each free variable the Hessian times the direction, plus the non-negative shift of that variable's pivot times its entry, is minus the slope |
| DirectionLaws.UnraisedIsNewton | model_build/lasso/LassoProjection.m:46-51 | Where the free block has factors of its own within the bounds, as UnshiftedIff says, the free block times the direction is exactly minus the free slopes |
| ProjectedObjective.ValueIs | model_build/lasso/LassoProjection.m:110-117 | The value computed from XX, Xy and yy is the squared residual at u - v plus lambda times all clipped weights |
| ProjectedObjective.Expansion | model_build/lasso/LassoProjection.m:110-122 | Between non-negative points the value differs by exactly the returned gradient times the move plus a square, so that the gradient is right and the value convex |
| ProjectedObjective.StationaryMinimises | model_build/lasso/LassoProjection.m:110-122 | A non-negative point with non-negative slopes, zero where the point is not, has the lowest value of all non-negative points: what the stopping test would certify with no tolerance and no truncation |
| ProjectedObjective.StationaryIsLasso | model_build/lasso/LassoProjection.m:110-122 | For any non-negative u and v: the slopes at (u, v) itself are non-negative, and zero where u or v is not, if and only if the weights u - v minimise the Lasso objective over all vectors and, with a penalty, no variable has both halves positive |
| ProjectionSolver.HessianExact | model_build/lasso/LassoProjection.m:26-26 | 2*[XX -XX; -XX XX] times a move between non-negative points is exactly the change of the slopes |
| ProjectionSolver.FreeSlopes | model_build/lasso/LassoProjection.m:30-35 | No move of length at most m, entry by entry, to a non-negative point loses more than m times the sum the test looks at |
| ProjectionSolver.StopValue | model_build/lasso/LassoProjection.m:30-40 | At the stop no non-negative point within m of the truncated point has a value lower by more than optTol*m plus the squared change that the truncation made to X*w |
| ProjectionSolver.StopIsNearBest | model_build/lasso/LassoProjection.m:30-40 | So against any weights c within m the objective of the weights returned is off by at most half of that |
| ProjectionSolver.StopViolation | model_build/lasso/LassoProjection.m:30-40 | At the weights returned each optimality condition holds up to half of optTol and the cross terms of its variable times what was truncated |
| ProjectionSolver.StopCertifies | model_build/lasso/LassoProjection.m:30-40 | So no weights are better by more than tau per unit of distance, for any tau above those bounds |
| ProjectionSolver.NothingDropped | model_build/lasso/LassoProjection.m:30-31 | When no weight is below the threshold both terms vanish |
| ProjectionSolver.MissStart | model_build/lasso/LassoProjection.m:12-26 | X = 1, y = 0.50005, lambda = 1: the start 0.250025 and its exact Newton step to 0.00005 |
| ProjectionSolver.StopMisses | model_build/lasso/LassoProjection.m:30-40 | There, with the default tolerances, the weight is the minimiser, the truncation sets it to zero, the test passes, and zero is no minimiser |
| ProjectionSolver.Solve | model_build/lasso/LassoProjection.m:12-106 | From any start: the points are a run, in which the test fails at every point left, each direction is one that FindDirection may choose there, each length is the first of those tried that meets the Armijo condition, each point is the clipped sum of the truncated point before it and length times direction, and no move but the last is shorter than optTol. It ends with the last point truncated where the test passes or where every length tried is refused, with the last point as it is after a short move or after maxIter + 1 moves. At a solution the optimality conditions and the objective are as good as StopViolation and StopIsNearBest say, in terms of the weights before the last truncation; and whether the weights returned are optimal can be read off their own slopes, exactly |
| ProjectionSolver.LineSearch | model_build/lasso/LassoProjection.m:64-84 | The length returned is the first of the full step and the lengths tried after it that meets the Armijo condition; the search fails only when all of them are refused |
| ProjectionSolver.ValuesFall | model_build/lasso/LassoProjection.m:64-87 | As long as no step length is negative the values before the truncations never rise, and fall with each positive step |
| ProjectionSolver.StepSolves | model_build/lasso/LassoProjection.m:26-71 | Every direction of a run solves the system of the free variables with the Hessian as one of the two factorisations modified it, and the Newton system itself where no pivot was raised |
| ProjectionSolver.NewtonStep | model_build/lasso/LassoProjection.m:26-87 | A full step along a direction that solves the Newton system makes the slopes of all its variables zero, as long as nothing is clipped |
| L1LeastSquares.GradientFromGram | model_build/lasso/LassoGaussSeidel.m:38-40 | XX*b - Xy is X'(Xb - y) |
| L1LeastSquares.Expand | model_build/lasso/LassoShooting.m:26-27 | The squared residual at any point, expanded exactly around any other |
| L1LeastSquares.CertificateIff | model_build/lasso/computeViol.m:6-11 | All violations are at most tau if and only if no vector beats b by more than tau per unit of distance |
| L1LeastSquares.MinimiserIff | model_build/lasso/computeViol.m:6-11 | b minimises the objective over all vectors if and only if no violation is positive |
| L1LeastSquares.ThresholdedObjective | model_build/lasso/LassoPrimalDualLogBarrier.m:142-142 | What setting small weights to zero does to the objective, exactly: the change of the squared residual less the penalty saved, so nothing when nothing changes |
| L1LeastSquares.ThresholdedMinimiser | model_build/lasso/LassoPrimalDualLogBarrier.m:142-142 | From a minimiser it loses half the squared change of X*w, and the weights kept minimise if and only if those dropped contribute nothing together |
| Shooting.NeverDividesByZero | model_build/lasso/LassoShooting.m:36-43 | The slope of a zero column never exceeds lambda, so the update never divides by zero |
| Shooting.TargetOptimal | model_build/lasso/LassoShooting.m:36-43 | The updated coordinate satisfies its own optimality condition exactly |
| Shooting.TargetGain | model_build/lasso/LassoShooting.m:36-43 | The update gains at least half the curvature times the squared move |
| Shooting.ShootInPlace | model_build/lasso/LassoShooting.m:36-43 | One update of the array is the update of that coordinate and no other |
| Shooting.SweepGain | model_build/lasso/LassoShooting.m:33-45 | A sweep lowers the objective by at least the sum of half the curvature times each squared move |
| Shooting.SweepViolation | model_build/lasso/LassoShooting.m:33-45 | After a sweep each optimality condition holds up to half of max_k abs(XX2(j,k)) times the length of the sweep |
| Shooting.FixedIffMinimiser | model_build/lasso/LassoShooting.m:33-60 | For every problem and every b: a sweep leaves b unchanged if and only if b is a global minimiser and, without a penalty, gives zero columns zero weight |
| Shooting.ZeroColumn | model_build/lasso/LassoShooting.m:33-60 | The points that the second condition shuts out: without a penalty the weight of a zero column does not matter to the objective, in any problem, and a sweep sets it to zero |
| Shooting.Solve | model_build/lasso/LassoShooting.m:24-63 | From any start: the result is what so many sweeps make of beta0, the first to move less than optTol being the last; the objective does not rise, at most p*f(beta0)/(least*optTol^2) sweeps fail the tolerance test, and a result returned by that test meets every optimality condition up to the cross term times optTol |
| GaussSeidel.ComputeViol | model_build/lasso/computeViol.m:6-11 | The three masked assignments together give each coordinate its violation |
| GaussSeidel.LineMinDescends | model_build/lasso/LassoGaussSeidel.m:57-67 | A line minimisation never raises the objective, in the sub-threshold sign cases and when clipped too |
| GaussSeidel.LineMinExact | model_build/lasso/LassoGaussSeidel.m:57-67 | From zero, and from any value that is not below the threshold, a step that is not clipped minimises the objective along its variable exactly |
| GaussSeidel.FreeProgress | model_build/lasso/LassoGaussSeidel.m:57-75 | On a free variable that violates by tau a step clips it to zero or gains a fixed amount |
| GaussSeidel.SolveFree | model_build/lasso/LassoGaussSeidel.m:55-76 | The inner loop terminates, with no free variable violating by tau, and never raises the objective |
| GaussSeidel.RidgeStart | model_build/lasso/LassoGaussSeidel.m:30-35 | The top-down starting point gives zero columns zero weight |
| GaussSeidel.Solve | model_build/lasso/LassoGaussSeidel.m:30-98 | A run that enters the loop reports success if and only if no vector beats the result by more than tau per unit of distance, and fails only by running out of line minimisations; a run that does not enter it is certified if and only if the test with gamma/2 would have passed |
| GaussSeidel.FirstTestTooLax | model_build/lasso/LassoGaussSeidel.m:42-54 | An input on which the first test passes and the point is not optimal to the tolerance |
| RidgeModes.RidgeUnique | model_build/lasso/LassoIteratedRidge.m:75-91 | The ridge system with positive penalties has at most one solution, whatever X |
| RidgeModes.Mode0 | model_build/lasso/LassoIteratedRidge.m:75-77 | The pseudo-inverse form has the solutions of the ridge system |
| RidgeModes.Mode1 | model_build/lasso/LassoIteratedRidge.m:78-81 | So has the form multiplied by square roots on both sides |
| RidgeModes.Mode2 | model_build/lasso/LassoIteratedRidge.m:82-85 | So has the form multiplied from the left |
| RidgeModes.Mode3 | model_build/lasso/LassoIteratedRidge.m:86-91 | The vector formed from a solution of the n by n diagonal-plus-low-rank system solves the ridge system |
| IteratedRidge.ModeSolve | model_build/lasso/LassoIteratedRidge.m:75-91 | In every mode an exact solver yields the solution of the ridge system on the restricted data |
| IteratedRidge.Restricted | model_build/lasso/LassoIteratedRidge.m:64-73 | Restricting X'X and X'y is forming them from the restricted columns |
| IteratedRidge.Refresh | model_build/lasso/LassoIteratedRidge.m:66-73 | The cached data are those of the current non-zero set |
| IteratedRidge.FullStep | model_build/lasso/LassoIteratedRidge.m:75-97 | From cached data a step is the ridge step, zero on the zero set |
| IteratedRidge.StepUnique | model_build/lasso/LassoIteratedRidge.m:75-97 | The ridge step is determined, so all modes make the same |
| IteratedRidge.StepDescends | model_build/lasso/LassoIteratedRidge.m:60-97 | A step does not raise the objective above that of the thresholded previous point |
| IteratedRidge.ZerosGrow | model_build/lasso/LassoIteratedRidge.m:64-97 | The zero set only grows |
| IteratedRidge.StepFixed | model_build/lasso/LassoIteratedRidge.m:60-97 | A thresholded point is left unchanged if and only if it minimises the objective over its non-zero variables |
| IteratedRidge.TracesAgree | model_build/lasso/LassoIteratedRidge.m:60-135 | Runs from one start log the same points as far as both go, whatever their modes |
| IteratedRidge.RunDescends | model_build/lasso/LassoIteratedRidge.m:60-135 | Along a run, line-search iterations apart, the objective descends in that sense and zeros stay |
| IteratedRidge.Solve | model_build/lasso/LassoIteratedRidge.m:52-135 | The loop with its cache logs a trace of ridge steps, which ends with the first move that is small or seen to diverge, or after maxIter; it uses data never formed if and only if its first iteration finds every weight within the threshold |
| IteratedRidge.StartsMasked | model_build/lasso/LassoIteratedRidge.m:43-43 | For y = 0 the ridge start is zero, whatever X, so that the first iteration finds every weight within the threshold |
| NewtonSystem.NewtonUnique | model_build/lasso/LassoPrimalDualLogBarrier.m:85-107 | Where its homogeneous system has only the zero solution, the Newton system has at most one, whatever the signs of x and z |
| NewtonSystem.Direction | model_build/lasso/LassoPrimalDualLogBarrier.m:85-107 | At any such point, the slacks being non-zero in the modes that divide by them, the direction computed in each of the three modes solves that one system |
| NewtonSystem.DualRegular | model_build/lasso/LassoPrimalDualLogBarrier.m:85-96 | The n by n matrix of mode 0 is non-singular if and only if the homogeneous Newton system has only the zero solution |
| NewtonSystem.PrimalRegular | model_build/lasso/LassoPrimalDualLogBarrier.m:97-101 | So is the matrix of mode 1 |
| NewtonSystem.SlackRegular | model_build/lasso/LassoPrimalDualLogBarrier.m:102-107 | So is the matrix of mode 2: the three orders of elimination fail at the same points, but for zero slacks |
| NewtonSystem.InteriorSolvable | model_build/lasso/LassoPrimalDualLogBarrier.m:85-107 | With x non-negative and z positive every mode can solve its system |
| PrimalDual.DualResidualScales | model_build/lasso/LassoPrimalDualLogBarrier.m:115-128 | A step of length t along the dual direction scales r_x by exactly 1 - t |
| PrimalDual.PrimalResidualScales | model_build/lasso/LassoPrimalDualLogBarrier.m:115-129 | What a step of two lengths leaves of r_y |
| PrimalDual.NewtonPositiveExactlyWhen | model_build/lasso/LassoPrimalDualLogBarrier.m:85-117 | A damped Newton step keeps x and z positive whatever the residuals if and only if the entries of both exceed gamma*0.0001 |
| PrimalDual.GapIdentity | model_build/lasso/LassoPrimalDualLogBarrier.m:46-48 | The duality gap at any point in terms of products and residuals |
| PrimalDual.LassoSuboptimality | model_build/lasso/LassoPrimalDualLogBarrier.m:70-80 | How far the weights u - v can be from the best Lasso objective at any point whatever: the products and residuals tested at exit, plus what entries of x and z below zero hide |
| PrimalDual.NoSignLoss | model_build/lasso/LassoPrimalDualLogBarrier.m:70-80 | Non-negative x and z hide nothing |
| PrimalDual.ConvergedMeans | model_build/lasso/LassoPrimalDualLogBarrier.m:70-80 | The exit test bounds Objective(u - v) against every w: epsilon*(1 + norm(x)*norm(y)) + epsilon*(1 + norm(x))/2, plus sqrt(epsilon*(1 + norm(y))) times the distance to w, plus what negative entries hide |
| LogBarrier.Solve | model_build/lasso/LassoPrimalDualLogBarrier.m:41-134 | In any mode and from any point: the points make a run of Newton steps with the step lengths and updates of the source, each of which the mode can solve; the loop ends by its limit, where the mode cannot solve its system, or by the test, which then bounds the Lasso objective of u - v against every w as ConvergedMeans says, with nothing hidden inside the region; the test fails at every point left, and mode 0 misses a factor exactly where its matrix is not positive definite |
| LogBarrier.RunsAgree | model_build/lasso/LassoPrimalDualLogBarrier.m:58-134 | Runs from one point go through the same points in all modes, as far as the system has one solution and mode 0 finds its Cholesky factor |
| LogBarrier.InteriorFactors | model_build/lasso/LassoPrimalDualLogBarrier.m:85-95 | Inside the region mode 0 always finds it |
| LogBarrier.ResidualShrinks | model_build/lasso/LassoPrimalDualLogBarrier.m:109-128 | After any number of steps, wherever they lead, r_x is the first one times the product of (1 - gamma*beta_yz) |
| LogBarrier.RemainingBetween | model_build/lasso/LassoPrimalDualLogBarrier.m:111-117 | That product is never negative, and at most 1 as long as no slack has been negative |
| BarrierLaws.ParameterIs | model_build/lasso/LassoPrimalDualLogBarrier.m:85-125 | After any number of steps the barrier parameter is the first one times the product of the factors 1 - min(gamma, beta_x, beta_yz), divided by ten for every tenth step and for every factor missed |
| BarrierLaws.ParameterFalls | model_build/lasso/LassoPrimalDualLogBarrier.m:109-125 | With gamma in [0, 1] and a non-negative start, as long as x and z are non-negative, it stays between zero and the first one divided by ten for every ten steps |
| BarrierLaws.ParameterNeverRises | model_build/lasso/LassoPrimalDualLogBarrier.m:109-125 | From such a point no single step raises it |
| BarrierLaws.ProductsAim | model_build/lasso/LassoPrimalDualLogBarrier.m:109-129 | A step with damped lengths t and u makes x_j*z_j the mixture (1 - t)*x_j*z_j + t*mu, up to (u - t)*x_j*dz_j and t*u*dx_j*dz_j |
| LogBarrier.StartInside | model_build/lasso/LassoPrimalDualLogBarrier.m:29-43 | The start has x >= 0 and z > 0 if and only if the largest product of a column with the image of the signs is below 1.1 times the largest product of a column with the observations |
| LogBarrier.StartOutside | model_build/lasso/LassoPrimalDualLogBarrier.m:29-43 | X = 1, y = 0.1 and any penalty: the start has a negative slack |
| LogBarrier.StartGoesOn | model_build/lasso/LassoPrimalDualLogBarrier.m:85-107 | There, with the penalty 1, every mode can solve its system, so that the source goes on |
| LogBarrier.Fit | model_build/lasso/LassoPrimalDualLogBarrier.m:17-142 | The whole function: undefined if and only if no column has a product with the observations, which the start divides by; otherwise a run from the ridge weights that ends as Solve says, and weights that are the last ones truncated, with the bound of the test carried through the truncation |
| LogBarrier.TruncationMisses | model_build/lasso/LassoPrimalDualLogBarrier.m:140-142 | X = 1, y = 0.50005, lambda = 1: the minimiser 0.00005 is returned as 0, which does not minimise |
| LogBarrier.NewtonLeaves | model_build/lasso/LassoPrimalDualLogBarrier.m:85-129 | A problem and a positive x and z at which the residuals the source forms have a Newton direction after whose damped step x is no longer positive |
| LogBarrier.OptimalMisses | model_build/lasso/LassoPrimalDualLogBarrier.m:70-80 | A point with a negative slack where all residuals and products are zero, so that the test passes for every tolerance, and the weights are no minimiser |
| Tiling.RepeatNaive | model_build/lasso/sub/repmatC.c:14-21 | The slow form writes exactly the repetition of the block and nothing else |
| Tiling.Repeat | model_build/lasso/sub/repmatC.c:11-32 | The doubling form writes the same, only copies filled cells between disjoint regions, and makes at most 2*floor(log2 rep) copies |
| Tiling.TimesLength | model_build/lasso/sub/repmatC.c:11-32 | A repetition occupies chunk*rep cells |
| Tiling.TimesAt | model_build/lasso/sub/repmatC.c:11-32 | Every copy in a repetition is the block |
| Tiling.Doubling | model_build/lasso/sub/repmatC.c:23-30 | A repetition is its double-width repetition half as often, after one block when the count is odd |
| Tiling.Repmat | model_build/lasso/sub/repmatC.c:34-54 | In any number of dimensions the recursion writes the tiling at dest and nothing else |
| Tiling.TileAt | model_build/lasso/sub/repmatC.c:34-54 | The destination cell at coordinates c is the source cell at c_i mod dims_i |
| Tiling.EveryCell | model_build/lasso/sub/repmatC.c:104-113 | Every destination cell has coordinates, so none is left out |
| Tiling.TrailingOnes | model_build/lasso/sub/repmatC.c:106-109 | Repetitions beyond the source's dimensions multiply to one more repetition of the whole |
| Tiling.TileArray | model_build/lasso/sub/repmatC.c:77-142 | The result is the tiling in all its dimensions for every argument form: a lone number, missing repetitions, more repetitions than dimensions, and zeros |
| LinkedLists.List.InsertFront | model_build/list.c:12-20 | Puts the point first, keeping head, tail and links right |
| LinkedLists.List.InsertRear | model_build/list.c:22-30 | Puts the point last |
| LinkedLists.List.InsertNext | model_build/list.c:32-54 | Puts the point after the first one with the key, or does nothing |
| LinkedLists.List.DeleteNode | model_build/list.c:56-90 | Takes out the first point with the key, or does nothing |
| Aggregation.AverageExact | model_build/aggregate.c:190-197 | The unsigned division gives the rounded mean if and only if the sum is not negative or the window holds one point |
| Aggregation.CountsExact | model_build/aggregate.c:190-197 | In the output of a run each integer feature is the rounded mean of its window if and only if its sum is not negative or the window holds one point |
| Aggregation.NegativeCounts | model_build/aggregate.c:173-234 | A run of three points with two values of -2 is reported as 2147483646 |
| Aggregation.AggregateRun | model_build/aggregate.c:173-368 | One run: the windows' aggregates are appended, each closed by the first point beyond the step or by the last; fewer than two points fail |
| Aggregation.AggregateAll | model_build/aggregate.c:162-372 | All runs in turn into one list; the program survives if and only if every run holds at least two points |
| Aggregation.Partition | model_build/aggregate.c:183-368 | The windows hold every point but the last exactly once and in order |
| Aggregation.SlopesTelescope | model_build/aggregate.c:205-234 | Slopes weighted by window size add up to tail minus head, for each of the fourteen features |
| Aggregation.TimesTelescope | model_build/aggregate.c:187-187 | So do generation times |
| Aggregation.CrashTimes | model_build/aggregate.c:315-324 | The time to crash of a window is what the generation times of this and the later windows, weighted by window size, add up to |
| Aggregation.LoadsConserved | model_build/aggregate.c:198-203 | Averages weighted by window size add up to the total of the points consumed |
| Aggregation.MembersWithinStep | model_build/aggregate.c:181-181 | Every member of a window lies within the step of its first, and every closing point but the last lies beyond |
| Aggregation.TimeToCrashFalls | model_build/aggregate.c:315-324 | With increasing times the time to crash is positive and strictly decreasing |
| ControllerServer.FoundFirst | controller/server.c:107-132 | The searches of the tables find the first match |
| ControllerServer.RemoveCount | controller/server.c:103-115 | Swap-with-last removal takes away one record with the address and no other |
| ControllerServer.RemovalFinds | controller/server.c:280-286 | A removal finds a record |
| ControllerServer.StepKeeps | controller/server.c:103-403 | Every step of every thread keeps all invariants of locks, buffer, tables and histories |
| ControllerServer.Safety | controller/server.c:150-403 | In every run the messages sent are those announced, in order, with at most the last one pending in the buffer; every thread copies exactly the record stored for it; tables stay within their allocation and hold each address once per live thread |
| ControllerServer.NoDeadlock | controller/server.c:252-403 | In every reachable state with a mutex held, some step that counts towards its release can be taken, although the two mutexes are taken in opposite orders |
| ControllerServer.BufferReleased | controller/server.c:150-164 | In every run the buffer mutex is released after at most nine steps of its successive holders, whatever the others do |
| ControllerServer.TablesReleased | controller/server.c:103-406 | In every run the tables are released after at most 22 + 18n steps of their holders and of the holders of the message buffer these wait for, n threads having been started, whatever the others do: the accepting thread waiting for the buffer is not starved |
| ControllerServer.StandbyForever | controller/server.c:202-278 | In every run a thread that copied a record standing by stays idle for good |
| ControllerServer.PromotedIsIgnored | controller/server.c:121-205 | In every run, when a thread promotes a record some other thread serves exactly that record as standing by, and goes on ignoring its machine for the rest of the run; where the address is in its table once, no other thread is registered for it |
| ControllerServer.StandbyStep | controller/server.c:103-403 | Every step keeps: each record standing by is in the table of its service, at most as often as threads serve, or are about to serve, exactly that record |
| ThreadEvents.RejsAnnounced | controller/server.c:247-260 | In every run a thread announces its machine for rejuvenation as often as it was told, serving an active copy, that the machine is near its crash, but for the report on its way |
| ThreadEvents.DeletesAnnounced | controller/server.c:226-286 | It announces its machine as gone as often as it was told of a disconnection, which is at most once; it stops serving its machine, removes its record and ends for that reason only |
| ThreadEvents.AnnouncesOwn | controller/server.c:251-285 | What a thread announces is about the machine it copied |
| ThreadEvents.PromotionCause | controller/server.c:121-205 | In every run, when a table changes without gaining or losing a record, exactly its first record standing by has become active, by a thread of that group which was told that its active machine is near its crash and has done nothing else since |
| Promotions.NeverRouted | controller/server.c:121-165 | In every run a machine never stored as active is at no time in the table the balancer folds from what it has been sent, whatever promotions there were |
| Promotions.AddedInRuns | controller/server.c:252-403 | In every run the machines announced are exactly those stored active, in order, with at most the last one to come; threads announce none |
| Promotions.PromotionRun | controller/server.c:121-286 | For any two machines of a group a run in which the one standing by is promoted, the only thing any thread is told being that the other is near its crash: the table calls it active, its thread ignores it, and the balancer, having taken away the other, is left with none |
| LoadBalancer.Balancer.CheckSize | controller/balancer.c:74-79 | A full table is doubled, and keeps its machines |
| LoadBalancer.Balancer.DeleteVm | controller/balancer.c:85-95 | As bags, the machines lose one occurrence of the address and port |
| LoadBalancer.Balancer.Handle | controller/balancer.c:426-466 | Each message does to the bag of machines what it means, within capacity |
| LoadBalancer.Balancer.HandleAll | controller/balancer.c:410-467 | For any stream every table is, as a bag, the fold of the stream |
| LoadBalancer.CopiesLeft | controller/balancer.c:426-466 | A stream leaves a machine in the table as often as its additions exceed its removals, counted from wherever that excess is largest |
| LoadBalancer.BagSwap | controller/balancer.c:89-94 | Overwriting with the last and dropping the last takes away one element |
| LoadBalancer.Balancer.IdleRouted | controller/balancer.c:393-482 | Once machines without clients are in the table, routing starts from its invariant with no clients dealt |
| LoadBalancer.Balancer.FindClient | controller/balancer.c:149-156 | A client is found exactly when it has been seen, and on its own machine |
| LoadBalancer.Balancer.Route | controller/balancer.c:123-185 | A known client goes to its machine, a new one to the next in turn, and a new one finds no free slot exactly when five times as many clients as machines have come |
| LoadBalancer.Balancer.RouteAll | controller/balancer.c:149-185 | For any connections of at most 5n clients each client is kept on the machine its place comes to |
| LoadBalancer.SeenNext | controller/balancer.c:149-164 | A client's place among all clients is fixed by its first connection |
| LoadBalancer.NextFree | controller/balancer.c:113-121 | The machine whose turn it is has a free slot exactly while fewer than 5n clients have come, and its first free slot is the right one |
| LoadBalancer.HeldShare | controller/balancer.c:158-162 | A machine's occupied slots are the first ones, as many as its share |
| LoadBalancer.SharesEven | controller/balancer.c:158-175 | The machines' shares never differ by more than one |
| Relay.SockWrite | controller/sockhelp.c:297-315 | What is written is exactly the part of the buffer that the calls before the first failure take; the result is completion when that is all of it, failure when a call failed before, and waiting otherwise; interruptions and short writes alone never fail it |
| Relay.Channel.Flush | controller/balancer.c:306-316 | Exactly that part is delivered, the rest is kept only by a write that waits, and the channel stays intact exactly when no write failed |
| Relay.Serve | controller/balancer.c:304-343 | What one ready end does to both channels, exactly: how much is delivered and what stays buffered, what is received, when the turn closes or waits, and that the direction written stays intact exactly when its write does not fail |
| Relay.DealWithData | controller/balancer.c:284-388 | For any turns: the run ends with the first turn that reads an end of file or blocks in a write, and only then; as long as no write fails, each direction has delivered what its sender sent but for what is buffered, which is what came since the other end was last ready; at the end it is known what was cut off |
| ThreadIds.TidsExact | controller/thread.c:31-40 | In every run the identifiers given out are distinct and exactly 1 to the counter |
| ThreadIds.FailureBound | controller/thread.c:34-39 | In every run of n threads compare-and-swap fails at most n(n - 1)/2 times in all |
| ThreadIds.RunsEnd | controller/thread.c:34-39 | Every run ends within n(n + 1) steps, with identifiers exactly 1 to n |
| ThreadIds.StepKeeps | controller/atomic.c:48-62 | Each atomic step keeps the invariant tying failures to counter values seen replaced |
| SpinLocks.MutualExclusion | controller/atomic.c:245-309 | In every run at most one thread is inside, and the word is 1 exactly while one is; meanwhile neither spinning nor trying changes anything |
| LeaderElection.Elector.Propose | controller/leader.c:149-154 | A proposal is entered after those received, while there is room |
| LeaderElection.Elector.Reduce | controller/leader.c:40-66 | Nothing is decided while proposals are missing and time is left; otherwise the first with the greatest positive identifier wins, or no one |
| LeaderElection.Elector.Elect | controller/leader.c:69-90 | Without an agreement one is begun, and the proposals received before are forgotten; with one, it goes on exactly while proposals are missing and time is left, and is over otherwise |
| LeaderElection.Elector.Turn | controller/leader.c:166-200 | A suspected leader is dropped, an election begun without one, or its agreement concluded exactly when Elect says; otherwise nothing changes, and no heartbeat is ever sent |
| LeaderElection.GreatestIs | controller/leader.c:49-55 | The identifier chosen is the greatest positive one proposed |
| LeaderElection.OrderIrrelevant | controller/leader.c:40-66 | It depends neither on the order of proposals nor on repetitions |
| LeaderElection.Agreement | controller/leader.c:40-66 | Two controllers that were proposed the same positive identifiers and have concluded reach the same decision: none, or the same identifier, each over the socket on which it first came |
| LeaderElection.ConcludeBoth | controller/leader.c:40-66 | The two reductions leave both controllers so, whatever the order and the repetitions of the proposals |

## Left out

- Floating point: all real arithmetic is exact, so rounding, overflow and the tests for NaN do not occur.
- `beta` in the factorisation is any positive real; how the source computes it (`sqrt` of a maximum) is not modelled.
- `\`, `chol` and the test for singular matrices are exact and given as parameters; `minres`, `fminbnd`, `fminunc`, `quadprog`, `fmincon` and `lsqlin` are library calls outside the model. The minres option (mode2 = 2) and the step of `fminbnd` are parameters or left out.
- GaussSeidel.Solve: does not model thresholds or tolerances that are not positive, for which the inner loop need not end.
- ProjectionSolver.Solve: takes the lengths that the cubic interpolation yields as a parameter, and gives up after a number of tries where the source goes on; that the search ends, or that the value at the truncated weights falls, is not shown.
- LogBarrier.Solve: ends with `Singular` where the system of its mode has no unique solution, or a slack is zero in a mode that divides by it; the source goes on there with a warning and no usable direction. Convergence is not shown.
- Tiling.TileArray: does not model the imaginary plane, which is the same call again, the rejection of sparse and cell arrays, negative or fractional repetitions, and overflow of sizes.
- Aggregation.AggregateRun: does not model overflow of the integer sums, which the language leaves undefined; parsing and writing of files are left out, and the fourteen features are held in sequences.
- LinkedLists.List.DeleteNode: does not model the release of the node's memory.
- ControllerServer.Safety: does not model failing sends, failing thread creation, the predictions themselves, or `mttf_mutex` with the rate table. A mutex is released by whichever thread the code has release it, as the mutexes used there allow.
- Starvation of a communication thread waiting for a mutex is possible in the source and not excluded; the accepting thread waiting for the message buffer is not starved (ControllerServer.TablesReleased).
- LoadBalancer.Balancer.RouteAll: keeps the machines fixed while clients come, since the index is only compared for equality with their number; routing among machines that come and go is left out.
- Relay.DealWithData: does not model the sizes of buffers, which are taken to grow in place as needed.
- ThreadIds.TidsExact: does not model wrap-around of the 32-bit counter.
- LeaderElection.Elector.Propose: does not model proposals beyond the table's 32 places, which the source writes past its end; broadcasting and the timers are parameters.
- Memory ordering below atomic steps, and the assembly encodings, are left out.
- Sockets, `select`, name resolution, `/proc` parsing, the client, plotting, scripts, error tables and the fault injectors are left out: input and output, or single formulas.
- The other Lasso variants (active set, block coordinate, grafting, soft thresholding, constrained and sub-gradient forms) are left out; they share the objective and the optimality conditions proved here.
