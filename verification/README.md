# OCS2: stacked problems, backward passes, integrators and realisations

A Dafny model of the numerical and bookkeeping core of OCS2, the optimal control toolbox for switched systems, with
proofs of what that core promises. `dfyconfig.toml` is the project file. Scalars are exact reals, vectors are sequences
of reals, and a matrix (`Vectors.Mat`) carries its number of columns so that empty blocks keep their shape.

## What is modelled

| files | component |
|---|---|
| `QpSolver`, `QpMeaning`, `DenseQp`, `QpOptimality` | stacking a stage-wise linear quadratic problem into one KKT system, solving it, slicing the trajectory back, and why that trajectory is the cheapest feasible one |
| `Gershgorin`, `ConstraintProjection` | diagonal repair of a Hessian by Gershgorin's bound; range and null-space projectors of the input constraints |
| `ChangeOfInputs`, `ProjectedController` | elimination of the input constraints, the projected controllers of iLQR and SLQ: the input they ask for after a step of any length, what it leaves of the constraint, and what it minimises |
| `IlqrRiccati`, `NormalizedTime`, `SlqRiccati`, `PartitionIntervals`, `ParallelSweep`, `PartitionedSweeps`, `WorkClaiming` | the two backward passes, their partitions and event numbering, and the workers that share them |
| `DdpIterations`, `PrimalSolution` | the main loop with its nominal, optimised and cached data; truncation and extraction of trajectories with events |
| `Interpolation`, `LinearController` | look-up and interpolation in time, the linear controller, its event times, and the controller that spreads over them |
| `SensitivityIntegrator`, `DiscretizationOrder`, `Ode`, `DormandPrince`, `DormandPrinceAccuracy`, `DormandPrinceOrder`, `ElementaryProblems` | Euler, RK2 and RK4 with sensitivities, and their orders; the adaptive Dormand-Prince stepper, its three drivers, its accuracy and its order |
| `DescendingPolynomials`, `TransferFunction`, `StateSpace`, `TransferFunctionBase`, `LoopshapingFilter` | polynomial products, delay absorption, state-space realisation, filters from roots |
| `MrtBuffer` | the double buffer between the solver and the tracking thread |
| `GaussNewtonApproximation` | gradient and Hessian of a squared norm from a sparse Jacobian |
| `Vectors`, `Norms`, `Polynomials`, `LinearFlow`, `Types`, `NumericTraits` | the mathematics and the records the others share |

Objects the program updates in place are classes, its arrays are arrays, its loops are loops; each such method is proved
against a function or a predicate, and the lemmas are about those. Thread interleavings are runs of a step relation,
with one step for each access to shared data.

## What is assumed

- Reals are exact. `almost_eq(alpha, 0)` in `extractPrimalSolution` is `alpha == 0`; the tolerances of the program keep
  their values.
- The factorisations and solves of Eigen enter as function parameters with contracts: `DenseQp.SolvesLinearSystems`
  (the LU solve of the KKT system, which fails exactly on singular systems), `ConstraintProjection.FactorisesTall`
  (QR), `FactorisesDefinite` (Cholesky) and `SolvesTriangular`. `pow(e, -1/n)` is a positive `r` with `r^n e = 1`
  (`DormandPrince.IsInverseRoot`), and `sqrt` is `TransferFunctionBases.IsSquareRoot`.
- Butcher's theory of Runge-Kutta methods, by which exactness on the elementary problem (`ElementaryProblems`) means order
  five on every smooth flow, is not part of this model.
- A linear quadratic problem that is solved has at least one intermediate stage: with a single stage
  `getNumStatesInputsConstraints` reads the stage before it, and with none the slicing reads an empty list. Stacking
  itself is modelled for problems of any size.
- Dormand-Prince tolerances are not negative. Where the allowance of a component is zero, an error counts as infinite, and
  the quotient of no error is not a number: the program's comparisons let it pass, and do not enlarge the step. That a
  maximum with other components keeps the larger one is an assumption Eigen does not settle.
- The Hessian a constraint is projected with is symmetric and positive definite, as the Cholesky factorisation needs it.
- Models that user code supplies (flow maps, Riccati map and jump, rollout, line search, convergence test) are arbitrary
  functions of the horizon of the run and the data they get, except that a rollout, and a line search that reports
  success, leave a trajectory of at least two samples with nondecreasing times and a state for each.
- Exceptions become `Err`, an `Outcome` or a false flag.

## Where code, comments and expectations part

- `multiplyPolynomials` bounds its inner loop by the size of the left factor. `TransferFunctions.MultiplyPolynomials`
  keeps that: coefficients of the right factor beyond that size are dropped, and a longer left factor reads out of range
  (`Err` here). `MultiplyIsProductIff` says exactly when the result is the product, `MultiplyLosesCoefficient` gives an
  instance where it is not, and `DelayIsAbsorbedIff` says what this means for a delay: right only for a denominator of
  degree one and a numerator of the same size, or the zero polynomial.
- The last branch of `padeApproximation` builds an exception and does not throw it, so its outputs are never filled
  (parameter `unset`, an arbitrary pair).
- Balancing takes square roots of the lower denominator coefficients but the first. When one of them is not positive the
  program goes on with values that are not finite; here that is `Err`, and only that.
- The iLQR sweep does not find an event at the end of its partition, nor two events at adjacent samples, and a missed
  event hides those before it. `MetIffWellSpaced`, `SweepIsRecursionIff` and `AppliedOnceIff` give the exact
  condition, `EventAtEndHidesOthers` an instance. Partitions made by the solver meet it exactly when no event sits at
  the last sample and no desired partition point falls between the two samples of an event
  (`PartitionedSweeps.PartitionsWellSpaced`). Samples at one time leave no room for that, but a rollout begins the
  stretch after an event up to epsilon later (core/ocs2_oc/src/rollout/RolloutBase.cpp:61-63), so an event on a desired
  point is lost (`EventLostAtBoundary`). The SLQ sweep has no such condition.
- With a late event the spread query lies a tolerance before the end of its mode. Its segment ends at the pre-event sample
  unless the sample before that is within this tolerance too (`MovedQueryUsesModeSamples`).
- `computeConstraintProjection` clips the diagonal of R. The pseudo-inverse is a right inverse exactly when nothing was
  clipped, and exactly then does a full step meet every constraint (`FullStepMeetsConstraintIff`). A constraint with
  dependent rows is always clipped (`DependentRowsAreClipped`).
- `controllerEventTimes` overwrites its leading zero when the first short interval begins within 2 eps of the first time,
  which moves every mode by one event (`EventsAreListed`).
- `extractPrimalSolution` interpolates the last post-event sample at `min(final + eps, final)` in time, which is `final`;
  the states and inputs are taken at `final + eps`. A start inside an event pair begins at the post-event sample.
- `concatenate` drops the bias increments when it copies an array to its very end (strict comparison).
- `runIntegrateTimes` starts each stretch with the derivative computed where the previous one stopped, which may lie up
  to epsilon before the requested time; the call counter is not reset between the stretches of SLQ.
- With a zero step the adaptive drivers compare as if they went backwards: they end at once when the target is not
  earlier, even far from it, and otherwise go on until the call counter stops them (`RunIntegrateAdaptive`,
  `RunIntegrateTimes`).
- The inner loop of the sparse Gauss-Newton Hessian has no bound at the end of the entries. `Hessian` takes the row number
  found behind them as a parameter: J'J comes out exactly when it is not that of the last entry (`Err` otherwise).

## Model

| member | source | states |
|---|---|---|
| `QpSolver.GetConstraintMatrices` | mpc/ocs2_qp_solver/src/QpSolver.cpp:99-158 | the block-by-block writes into preallocated A and b, with running row and column offsets, give exactly the stacked rows: initial state, then constraints and dynamics of every stage, then final constraints; an empty problem has none |
| `QpSolver.GetCostMatrices` | mpc/ocs2_qp_solver/src/QpSolver.cpp:160-203 | the same for H, g and the constant cost: every stage block at its own offset, zeros everywhere else; an empty problem has no cost |
| `QpSolver.AppendStage` | mpc/ocs2_qp_solver/src/QpSolver.cpp:122-147 | one pass of the loop extends the stacked rows and bias by those of stage k, keeps what was there, and arrives at the offsets of stage k + 1 |
| `QpSolver.AppendCost` | mpc/ocs2_qp_solver/src/QpSolver.cpp:178-193 | one pass of the cost loop adds the Hessian block and gradient of stage k and keeps the rest |
| `QpMeaning.ConstraintsMeanFeasible` | mpc/ocs2_qp_solver/src/QpSolver.cpp:99-158 | a decision vector satisfies A w + b = 0 if and only if the trajectory it stands for starts at the initial state and meets all dynamics, stage constraints and final constraints |
| `QpMeaning.UnpackPack` | mpc/ocs2_qp_solver/src/QpSolver.cpp:242-268 | slicing a stacked trajectory gives the trajectory back |
| `DenseQp.SolveDenseQp` | mpc/ocs2_qp_solver/src/QpSolver.cpp:223-240 | the solve succeeds if and only if the KKT matrix is nonsingular, and its leading part is then stationary for some multiplier and meets A w + b = 0 |
| `DenseQp.StationaryCostGap` | mpc/ocs2_qp_solver/src/QpSolver.cpp:223-240 | any feasible point costs the stationary one plus half the Hessian form of their difference |
| `DenseQp.NoCurvatureNoImage` | mpc/ocs2_qp_solver/src/QpSolver.cpp:223-240 | a positive semidefinite Hessian sends a direction without curvature to zero |
| `DenseQp.StationaryIsStrictOptimum` | mpc/ocs2_qp_solver/src/QpSolver.cpp:223-240 | with a positive semidefinite Hessian and a nonsingular KKT matrix every other feasible point is strictly more expensive |
| `QpOptimality.GetNumStatesInputsConstraints` | mpc/ocs2_qp_solver/src/QpSolver.cpp:42-66 | the dimensions read off the matrices are those of every stage, the last without input; empty lists for an empty problem |
| `QpOptimality.PartialSums` | mpc/ocs2_qp_solver/src/QpSolver.cpp:66-90 | sums of the dimension lists are the row and column offsets of every stage |
| `QpOptimality.HessianIsForm` | mpc/ocs2_qp_solver/src/QpSolver.cpp:160-203 | the bilinear form of the stacked Hessian is the sum of the stage forms along two trajectories |
| `QpOptimality.StackedCostIsTrajectoryCost` | mpc/ocs2_qp_solver/src/QpSolver.cpp:160-203 | constant, gradient and Hessian of the stacked problem add up to the summed stage costs of the trajectory |
| `QpOptimality.StackConvex` | mpc/ocs2_qp_solver/src/QpSolver.cpp:160-203 | stage and terminal Hessians symmetric and positive semidefinite make the stacked one so |
| `QpOptimality.KktPointSolves` | mpc/ocs2_qp_solver/src/QpSolver.cpp:81-97 | a KKT point unpacks into a feasible trajectory which, for a convex problem, is strictly cheaper than every other feasible one |
| `QpOptimality.GetStateAndInputTrajectory` | mpc/ocs2_qp_solver/src/QpSolver.cpp:242-268 | the slicing loop with its running index yields the states and inputs of the stacked vector |
| `QpOptimality.SolveLinearQuadraticProblem` | mpc/ocs2_qp_solver/src/QpSolver.cpp:81-97 | end to end, for any horizon of at least one step and any dimensions per stage: a trajectory is returned if and only if the KKT matrix is nonsingular; it is feasible, and the unique cheapest feasible one when every stage is convex |
| `Gershgorin.MakePsdGershgorin` | core/ocs2_core/src/misc/LinearAlgebra.cpp:73-82 | in place: the result is the symmetrised input with raised diagonal, symmetric, and x'Ax >= minEigenvalue x'x for every x |
| `Gershgorin.RepairedMatrix` | core/ocs2_core/src/misc/LinearAlgebra.cpp:73-82 | off-diagonal entries are the symmetrised ones, diagonal entries never fall, and the quadratic-form bound holds |
| `Gershgorin.DominantIsDefinite` | core/ocs2_core/src/misc/LinearAlgebra.cpp:73-82 | a symmetric matrix whose diagonal exceeds the magnitudes of its row by a margin bounds its quadratic form by that margin |
| `Gershgorin.RepairIsIdentityIffDominant` | core/ocs2_core/src/misc/LinearAlgebra.cpp:73-82 | the repair leaves a matrix alone if and only if it is symmetric and dominant already |
| `Gershgorin.RepairIsLeast` | core/ocs2_core/src/misc/LinearAlgebra.cpp:73-82 | the diagonal is raised no further than needed: every other dominant matrix with these entries off the diagonal and no smaller ones on it has a diagonal at least as large |
| `Gershgorin.EigenvaluesBounded` | core/ocs2_core/src/misc/LinearAlgebra.cpp:73-82 | every eigenvalue of the repaired matrix is at least minEigenvalue |
| `ConstraintProjection.SetTriangularMinimumEigenvalues` | core/ocs2_core/src/misc/LinearAlgebra.cpp:36-46 | in place: diagonal entries nearer to zero than the threshold are replaced, nothing else changes |
| `ConstraintProjection.ClipIsNearest` | core/ocs2_core/src/misc/LinearAlgebra.cpp:36-46 | the value put in place of a diagonal entry keeps its sign, reaches the threshold, and is nearest to it among all that do |
| `ConstraintProjection.ClippedTriangular` | core/ocs2_core/src/misc/LinearAlgebra.cpp:36-46 | the clipped factor is triangular with nonzero diagonal, and equals the original if and only if no diagonal entry was too small |
| `ConstraintProjection.ComputeInverseMatrixUUT` | core/ocs2_core/src/misc/LinearAlgebra.cpp:115-123 | the returned factor U satisfies A U U' = I, U U' A = I and U' A U = I |
| `ConstraintProjection.ComputeConstraintProjection` | core/ocs2_core/src/misc/LinearAlgebra.cpp:125-153 | the null-space projector is annihilated by D and orthonormal in the given weight; the pseudo-inverse is orthogonal to it in that weight and has the returned square for its own weight; D times the pseudo-inverse is what the clipping leaves of the identity, and the identity if and only if no diagonal entry of R was clipped |
| `ConstraintProjection.DependentRowsAreClipped` | core/ocs2_core/src/misc/LinearAlgebra.cpp:125-151 | when a nontrivial combination of the rows of D vanishes, some diagonal entry of R is clipped, whatever the weight and the factorisation |
| `ConstraintProjection.DependentRowsCannotBeMet` | core/ocs2_core/src/misc/LinearAlgebra.cpp:125-151 | and with an offset along that combination no input at all meets the constraint |
| `ChangeOfInputs.ChangeLinear` | core/ocs2_oc/src/approximate_model/ChangeOfInputVariables.cpp:95-112 | the substituted linear model equals the original at the substituted input, for every state and new input, with or without state and constant parts |
| `ChangeOfInputs.ChangeQuadratic` | core/ocs2_oc/src/approximate_model/ChangeOfInputVariables.cpp:33-92 | the same for the quadratic model, whose updates in place are order dependent, for every symmetric input Hessian |
| `ProjectedControllers.ProjectLQ` | mpc/ocs2_ddp/src/DDP_HelperFunctions.cpp:143-205 | the projected dynamics and cost equal the original ones at the reduced input, for every state and reduced input; projected constraint and bias data are those the controller reads; both branches |
| `ProjectedControllers.CalculateControllerWorker` | mpc/ocs2_ddp/src/ILQR.cpp:170-190 | the worker changes only its own node, whose gain, bias and bias increment are those that EntriesDeviate and FullStepIsReducedInput are about |
| `ProjectedControllers.CalculateSlqControllerWorker` | mpc/ocs2_ddp/src/SLQ.cpp:128-169 | the SLQ worker computes feedback and feedforward from the value function, which SlqFeedMinimises is about, and writes the same node data |
| `ProjectedControllers.IncrementController` | mpc/ocs2_ddp/src/DDP_HelperFunctions.cpp:303-313 | time stamps and gains are copied, every bias is moved by the step length times its increment, and increments are cleared |
| `ProjectedControllers.EntriesDeviate` | mpc/ocs2_ddp/src/ILQR.cpp:170-190 | for every state and step length a, gain, bias and a times the increment ask for the nominal input less the pseudo-inverse of C dx + a e, plus the null space of feedback km dx and a times the feedforward lv |
| `ProjectedControllers.FullStepIsReducedInput` | mpc/ocs2_ddp/src/DDP_HelperFunctions.cpp:143-205 | at a = 1 that is the reduced input of the projection at v = km dx + lv |
| `ProjectedControllers.SlqFeedMinimises` | mpc/ocs2_ddp/src/SLQ.cpp:128-169 | at every state, feedback and feedforward of SLQ minimise cost plus value function along the dynamics over all reduced inputs: any other one costs half the square of its distance more; with a Riccati modification too |
| `ProjectedControllers.CurvatureIsIdentity` | mpc/ocs2_ddp/src/SLQ.cpp:202-206 | with the Hessian of the cost as weight, as in SLQ, the curvature that this takes for the identity is the one of the cost |
| `ProjectedControllers.GeneralResidual` | mpc/ocs2_ddp/src/DDP_HelperFunctions.cpp:143-205 | the linearised constraint residual for any projectors, clipped or not |
| `ProjectedControllers.ResidualAfterStep` | mpc/ocs2_ddp/src/DDP_HelperFunctions.cpp:303-313 | for every state and step length a, the controller leaves exactly (1 - a) e of the linearised constraint |
| `ProjectedControllers.FullStepMeetsConstraintIff` | core/ocs2_core/src/misc/LinearAlgebra.cpp:125-153 | a full step meets every constraint with that input matrix, at every state, if and only if no diagonal entry of R was clipped |
| `ProjectedControllers.ComputeProjections` | mpc/ocs2_ddp/src/GaussNewtonDDP.cpp:782-808 | from a definite Hessian H and a constraint D: the null-space projector is annihilated by D and H-orthonormal, the range projector is H-orthogonal to it, and a right inverse of D if and only if there are no constraints or R is not clipped |
| `ProjectedControllers.CalculateNode` | mpc/ocs2_ddp/src/GaussNewtonDDP.cpp:759-808 | computing the projectors, projecting the problem and running the iLQR worker, or the SLQ worker from the value function, changes only the entries of that node, which steer with those projectors at every state and step length; the feedback and feedforward are the given ones, or minimise the Hamiltonian |
| `ProjectedControllers.CalculateController` | mpc/ocs2_ddp/src/GaussNewtonDDP.cpp:608-639 | the controller of a whole trajectory has that property at every node, but for the last one when it is overwritten by the one before it |
| `ProjectedControllers.StepController` | mpc/ocs2_ddp/src/DDP_HelperFunctions.cpp:303-313 | end to end from node data, with the gains of iLQR or the value function of SLQ, to the incremented controller: at every node but an overwritten last one, a step of length a asks at every state for the nominal input, less the pseudo-inverse of C dx + a e, plus the null space of km dx + a lv, and so leaves exactly (1 - a) e of the linearised constraint unless R is clipped |
| `ProjectedControllers.ComputedInputSteers` | core/ocs2_core/src/control/LinearController.cpp:66-74 | what the controller computes at the time of a node, for any state, is that input: the residual is (1 - a) e unless R is clipped, and at a = 1 it is the reduced input |
| `IlqrRiccati.RiccatiEquationsWorker` | mpc/ocs2_ddp/src/ILQR.cpp:233-314 | the loop with its pointer between stored nodes and the temporary writes every node of the partition, with value and gains of the sweep, and no other node |
| `IlqrRiccati.MetIffWellSpaced` | mpc/ocs2_ddp/src/ILQR.cpp:253-313 | every event of the partition is met by the loop if and only if none sits at its end and consecutive ones are at least two samples apart |
| `IlqrRiccati.SweepIsRecursion` | mpc/ocs2_ddp/src/ILQR.cpp:233-314 | for such partitions the values are the recursion: jump below a post-event sample, Riccati map elsewhere, for any map and jump |
| `IlqrRiccati.SweepIsRecursionIff` | mpc/ocs2_ddp/src/ILQR.cpp:233-314 | with operators that record their applications, the sweep is the recursion if and only if the events are so spaced |
| `IlqrRiccati.AppliedOnceIff` | mpc/ocs2_ddp/src/ILQR.cpp:233-314 | the record contains the jump of every event of the partition exactly once if and only if the events are so spaced, never more than once, and that of no other event |
| `IlqrRiccati.EventAtEndHidesOthers` | mpc/ocs2_ddp/src/ILQR.cpp:253-313 | a partition of four nodes with an event at its end, where an earlier event is skipped too |
| `PartitionIntervals.DesiredPartitionPoints` | mpc/ocs2_ddp/src/DDP_HelperFunctions.cpp:343-350 | the loop of additions gives equally spaced points from the first to the last time |
| `PartitionIntervals.DesiredPointsSpaced` | mpc/ocs2_ddp/src/DDP_HelperFunctions.cpp:342-353 | neighbouring points are all one distance apart, the span of the times divided by the number of workers |
| `PartitionIntervals.ComputePartitionIntervals` | mpc/ocs2_ddp/src/DDP_HelperFunctions.cpp:342-368 | at most numWorkers non-empty contiguous intervals tile [0, size - 1), every boundary separates times, and the boundaries are exactly the samples right after the desired points, the first point excepted; none exactly for a single sample |
| `PartitionIntervals.CoveredOnce` | mpc/ocs2_ddp/src/DDP_HelperFunctions.cpp:342-368 | every node lies in exactly one interval |
| `PartitionIntervals.NoEventAtBoundary` | mpc/ocs2_ddp/src/DDP_HelperFunctions.cpp:342-368 | samples with exactly the same time fall on different sides of a boundary only at the end of the last interval |
| `PartitionIntervals.EndPositionIs` | mpc/ocs2_ddp/src/DDP_HelperFunctions.cpp:357-360 | an interior boundary is p if and only if the desired point is not before sample p - 1 and before sample p |
| `PartitionIntervals.TilesOrdered` | mpc/ocs2_ddp/src/DDP_HelperFunctions.cpp:342-368 | earlier intervals end before later ones begin |
| `ParallelSweep.RunKeeps` | mpc/ocs2_ddp/src/GaussNewtonDDP.cpp:530-573 | every interleaving of claiming, writing and finishing keeps: partitions are claimed in order and once, the nodes a worker has counted are written once with their results, the others not at all; for workers that write upwards or downwards |
| `ParallelSweep.WrittenAtMostOnce` | mpc/ocs2_ddp/src/GaussNewtonDDP.cpp:530-573 | no entry of the value function is written twice, in any interleaving |
| `ParallelSweep.CounterInRange` | mpc/ocs2_ddp/src/GaussNewtonDDP.cpp:567-572 | a worker that is about to claim finds a partition to claim |
| `ParallelSweep.AllWrittenOnce` | mpc/ocs2_ddp/src/GaussNewtonDDP.cpp:530-573 | when all workers are done every entry was written exactly once and holds the result of its partition |
| `PartitionedSweeps.IlqrWorkers` | mpc/ocs2_ddp/src/ILQR.cpp:253-313 | for the iLQR workers, which read the node above the one they write, every node ends up with the value its own sweep computes alone, in every interleaving |
| `PartitionedSweeps.SlqWorkers` | mpc/ocs2_ddp/src/SLQ.cpp:244-249 | for the SLQ workers, which write upwards after integrating, every node is written once with what the integration of its partition observed, in every interleaving |
| `PartitionedSweeps.PartitionsWellSpaced` | mpc/ocs2_ddp/src/DDP_HelperFunctions.cpp:342-368 | all iLQR sweeps over the partitions of the solver are well spaced if and only if no two events are at adjacent samples, none is at the last sample, and no desired point but the first lies in the pair of samples around an event, before its post-event sample |
| `PartitionedSweeps.EventLostAtBoundary` | mpc/ocs2_ddp/src/DDP_HelperFunctions.cpp:342-368 | an event in the middle of a horizon shared by two workers, its samples one epsilon apart as after a rollout: the boundary falls on it and the sweep loses its jump |
| `WorkClaiming.RunKeeps` | mpc/ocs2_ddp/src/ILQR.cpp:80-143 | in every interleaving the shared counter covers the claimed indices, and each claimed index is held by one worker or done |
| `WorkClaiming.ProcessedOnce` | mpc/ocs2_ddp/src/ILQR.cpp:92-142 | when all workers have stopped every time index was processed exactly once, with its own result |
| `NormalizedTime.NormalizedEventIsPreEvent` | mpc/ocs2_ddp/src/DDP_HelperFunctions.cpp:316-339 | the reversed index of post-event sample p is its pre-event sample p - 1, counted from the end, at the negated times |
| `NormalizedTime.NormalizeTwice` | mpc/ocs2_ddp/src/DDP_HelperFunctions.cpp:316-339 | reversing twice gives back the times of the partition and its event indices relative to its start |
| `NormalizedTime.NormalizedEventsInside` | mpc/ocs2_ddp/src/DDP_HelperFunctions.cpp:316-339 | reversed event indices increase and lie inside the partition |
| `NormalizedTime.ActiveEventsComplete` | mpc/ocs2_ddp/src/DDP_HelperFunctions.cpp:316-339 | an event index is selected if and only if it lies after the first and not after the last sample of the partition |
| `NormalizedTime.SwitchingIntervals` | mpc/ocs2_ddp/src/SLQ.cpp:272-282 | the stretches between events are non-empty, tile the partition and end at the events |
| `SlqRiccati.IntegrateRiccatiEquationNominalTime` | mpc/ocs2_ddp/src/SLQ.cpp:253-308 | a finished integration observes every sample of the partition; each stretch is a run of the integrator from the final value or from the jump of the last value of the stretch before |
| `SlqRiccati.RiccatiEquationsWorker` | mpc/ocs2_ddp/src/SLQ.cpp:209-250 | the value stored at node k is the one observed at normalised time -t[k]; other nodes are unchanged, and all are after an exception |
| `SlqRiccati.EventIsJump` | mpc/ocs2_ddp/src/SLQ.cpp:253-308 | for every event of the partition, also one at its end, the value at the pre-event sample is the jump of the value at the post-event sample |
| `SlqRiccati.ObservedTimes` | mpc/ocs2_ddp/src/SLQ.cpp:253-308 | observation times are the negated nominal times in reverse order |
| `DdpIterations.GaussNewtonDdp.Reset` | mpc/ocs2_ddp/src/GaussNewtonDDP.cpp:175-203 | a reset forgets the iterations and the cache and keeps the object usable |
| `DdpIterations.GaussNewtonDdp.GetValueFunctionFromCache` | mpc/ocs2_ddp/include/ocs2_ddp/GaussNewtonDDP.h:231-234 | cached value functions are only read when the cache matches the last iteration; each read is recorded with what it saw |
| `DdpIterations.GaussNewtonDdp.SolveSequentialRiccatiEquations` | mpc/ocs2_ddp/src/GaussNewtonDDP.cpp:530-573 | the last node holds the final value function and every other one the value of the sweep of its own partition; in the first iteration that is one partition, later each partition but the last starts from what the iteration before says where the next one begins |
| `DdpIterations.GaussNewtonDdp.PartitionFinalValues` | mpc/ocs2_ddp/src/GaussNewtonDDP.cpp:553-565 | final values are read from the cache at the first node of the next partition, one read for each partition but the last |
| `DdpIterations.GaussNewtonDdp.SweepPartitions` | mpc/ocs2_ddp/src/GaussNewtonDDP.cpp:567-572 | after the sweeps of all partitions each node holds the value of its own |
| `DdpIterations.GaussNewtonDdp.TakePrimalDualStep` | mpc/ocs2_ddp/src/GaussNewtonDDP.cpp:930-965 | on success the optimised data are those of the search, on failure exactly the nominal data and the last performance index |
| `DdpIterations.GaussNewtonDdp.Initialize` | mpc/ocs2_ddp/src/GaussNewtonDDP.cpp:1020-1045 | a run with its own initial time, state, final time and reference moves the nominal data to the cache and leaves the rollout for that horizon from the optimised or given trajectory, with its dual solution and metrics, and one performance index |
| `DdpIterations.GaussNewtonDdp.RollOut` | mpc/ocs2_ddp/src/GaussNewtonDDP.cpp:1040-1045 | the nominal data are the rollout for the current horizon from the optimised trajectory and its assessment |
| `DdpIterations.GaussNewtonDdp.IterateOnce` | mpc/ocs2_ddp/src/GaussNewtonDDP.cpp:1064-1089 | an iteration records the nominal data with the value functions of a backward pass over them; the optimised data and the new performance index are those of the search from both, or the nominal ones and the last index if it fails |
| `DdpIterations.GaussNewtonDdp.PromoteOptimized` | mpc/ocs2_ddp/src/GaussNewtonDDP.cpp:1107-1112 | nominal data move to the cache, optimised to nominal |
| `DdpIterations.GaussNewtonDdp.RunImpl` | mpc/ocs2_ddp/src/GaussNewtonDDP.cpp:1005-1114 | a run begins with the rollout and its assessment, every iteration takes the solution of the one before, has the values of a backward pass and hands on what its search makes of them; every entry of the performance history is of its own iteration, and the last solution is the result; at least one and at most maxNumIterations iterations, fewer only when the convergence test holds of the last two indices |
| `DdpIterations.Serve` | mpc/ocs2_ddp/src/GaussNewtonDDP.cpp:1005-1114 | after any sequence of runs, each with a horizon of its own, and resets, every run has ended in time and every read of the cache since the last reset saw primal and dual data of the immediately preceding iteration, of equal lengths |
| `PrimalSolutions.GetPrimalSolution` | mpc/ocs2_ddp/src/GaussNewtonDDP.cpp:206-264 | the result is the prefix up to the requested time, with the events that point into it and, with feedback, the controller cut at its own requested length |
| `PrimalSolutions.TruncatedEvents` | mpc/ocs2_ddp/src/GaussNewtonDDP.cpp:206-264 | exactly the event indices inside the prefix are kept |
| `PrimalSolutions.SegmentOfPrefix` | mpc/ocs2_ddp/src/GaussNewtonDDP.cpp:206-264 | up to the final time the interpolation segment of the prefix is that of the whole |
| `PrimalSolutions.TruncatedPolicyAgrees` | mpc/ocs2_ddp/src/GaussNewtonDDP.cpp:206-264 | the truncated controller gives the input of the full one for every state and every time up to the final time |
| `PrimalSolutions.TruncatedInputAgrees` | mpc/ocs2_ddp/src/GaussNewtonDDP.cpp:206-264 | the same for the feedforward trajectory |
| `PrimalSolutions.CopySegment` | mpc/ocs2_ddp/src/DDP_HelperFunctions.cpp:42-58 | first and last entry are the given ones, those between are the original samples |
| `PrimalSolutions.KeepEvents` | mpc/ocs2_ddp/src/DDP_HelperFunctions.cpp:260-267 | kept indices are those after the start whose pre-event time is not after the end, shifted by the start index |
| `PrimalSolutions.KeptExactly` | mpc/ocs2_ddp/src/DDP_HelperFunctions.cpp:260-267 | an index is kept if and only if its event comes after the start segment and its pre-event time is not past the end |
| `PrimalSolutions.ExtractPrimalSolution` | mpc/ocs2_ddp/src/DDP_HelperFunctions.cpp:208-281 | times, states, inputs and events of the requested period, of equal lengths, with the post-event sample appended where the end is an event; mode schedule copied, controller cleared |
| `PrimalSolutions.EventsKeepTheirSamples` | mpc/ocs2_ddp/src/DDP_HelperFunctions.cpp:208-281 | every kept event index points at the sample of its original post-event node, or at the appended last one, which is taken just after the event; for any period that does not end before it starts or within an event |
| `PrimalSolutions.ExtractedTimesSpanPeriod` | mpc/ocs2_ddp/src/DDP_HelperFunctions.cpp:208-281 | extracted times are nondecreasing; there are none if and only if the adjusted start is two samples past the end segment, and otherwise they end at the end of the period and begin at its start or at the post-event sample of the event there, both moved into the trajectory |
| `PrimalSolutions.ExtractedOnLine` | mpc/ocs2_ddp/src/DDP_HelperFunctions.cpp:208-281 | states and inputs belong to the extracted times: data on a line in time stay on it at every sample but one appended at the end |
| `Interpolation.AtTheEnds` | core/ocs2_core/include/ocs2_core/misc/implementation/LinearInterpolation.h:117-137 | weights one and zero give the samples themselves |
| `Interpolation.TimesInterpolateToQuery` | core/ocs2_core/include/ocs2_core/misc/implementation/LinearInterpolation.h:63-101 | inside the array and on a long interval, the query lies in the found segment and the weights recover it exactly |
| `Interpolation.SegmentMeans` | core/ocs2_core/include/ocs2_core/misc/implementation/LinearInterpolation.h:63-101 | outside the times the first or last sample counts; between two that are far enough apart the weights are in proportion to the distances, and otherwise the nearer one counts |
| `Interpolation.SampleReturned` | core/ocs2_core/include/ocs2_core/misc/implementation/LinearInterpolation.h:63-137 | the first sample at its time is returned as it is |
| `Interpolation.LinesInterpolateToQuery` | core/ocs2_core/include/ocs2_core/misc/implementation/LinearInterpolation.h:63-137 | vectors and matrices on a line in time interpolate to the point of the line at the query |
| `Controllers.LinearController.ComputeInput` | core/ocs2_core/src/control/LinearController.cpp:66-74 | the law that the three lemmas below are about, evaluated by interpolating bias and gain |
| `Controllers.InputAtSample` | core/ocs2_core/src/control/LinearController.cpp:66-74 | at the time of a sample, the first one at that time, the input is bias plus gain times state of that sample |
| `Controllers.InputBetween` | core/ocs2_core/src/control/LinearController.cpp:66-74 | between two samples it is the mean of the inputs of both, weighted by the distances in time; between samples close in time, the input of the nearer one |
| `Controllers.InputOutside` | core/ocs2_core/src/control/LinearController.cpp:66-74 | before the first sample and after the last one their inputs go on |
| `Controllers.LinearController.Clear` | core/ocs2_core/src/control/LinearController.cpp:203-208 | all arrays are empty afterwards |
| `Controllers.LinearController.Concatenate` | core/ocs2_core/src/control/LinearController.cpp:167-190 | fails exactly when the other starts before this one ends, and then changes nothing; otherwise appends the range, dropping increments when they do not reach past it |
| `Controllers.LinearController.ControllerEventTimes` | core/ocs2_core/src/control/LinearController.cpp:231-257 | entries are more than 2 eps apart and contain the start of the last short interval of every cluster of them; the first entry is the zero if no short interval begins within 2 eps of the first time, and otherwise an event |
| `Controllers.EventsAreListed` | core/ocs2_core/src/control/LinearController.cpp:231-257 | so they are exactly the event times in order, after a zero if and only if no short interval begins within 2 eps of the first time; without the zero every mode is looked up one event later |
| `Controllers.StateBasedLinearController.SetController` | core/ocs2_core/src/control/StateBasedLinearController.cpp:33-40 | fails exactly for a missing controller; otherwise keeps its event times |
| `Controllers.StateBasedLinearController.ComputeInput` | core/ocs2_core/src/control/StateBasedLinearController.cpp:42-80 | the input of the controller at the spread query time, for the mode in the last entry of the state |
| `Controllers.QueryStaysInMode` | core/ocs2_core/src/control/StateBasedLinearController.cpp:42-75 | in every mode but the last the queried time lies between the event times of the mode, at most two tolerances after its start when the mode is ahead of time and at most one before its end when the event is late; a time inside the mode, or after the start of the last one, is not moved |
| `Controllers.MovedQueryUsesModeSamples` | core/ocs2_core/src/control/StateBasedLinearController.cpp:42-75 | a moved query interpolates only samples strictly between the events of its mode: ahead of time from the post-event sample on, late up to the pre-event sample, unless the sample before that is within a tolerance of it |
| `SensitivityIntegrators.EulerSensitivityDiscretization` | core/ocs2_core/src/integration/SensitivityIntegratorImpl.cpp:42-54 | value of the plain step; exact for affine flow, derivative for differentiable flow |
| `SensitivityIntegrators.Rk2SensitivityDiscretization` | core/ocs2_core/src/integration/SensitivityIntegratorImpl.cpp:71-96 | the same for RK2, with the Jacobian of the second stage overwritten in place |
| `SensitivityIntegrators.Rk4SensitivityDiscretization` | core/ocs2_core/src/integration/SensitivityIntegratorImpl.cpp:118-156 | the same for RK4: for time-varying affine flow f + A dx + B du is the plain step at (x + dx, u + du) for all dx, du, although k2, k3, k4 are overwritten in order; for any differentiable flow it is the Frechet derivative of the step |
| `SensitivityIntegrators.AffineIsExact` | core/ocs2_core/src/integration/SensitivityIntegratorImpl.cpp:71-156 | the chain rule over the stages has no error for affine flow, for each of the three schemes |
| `SensitivityIntegrators.DifferentiableHasDerivative` | core/ocs2_core/src/integration/SensitivityIntegratorImpl.cpp:71-156 | the error of the chain rule is of smaller order than the perturbation, for each of the three schemes |
| `SensitivityIntegrators.TimeVaryingIsAffine` | core/ocs2_core/src/integration/SensitivityIntegratorImpl.cpp:118-156 | A(t) x + B(t) u + c(t) is affine in this sense |
| `SensitivityIntegrators.SchemeSums` | core/ocs2_core/src/integration/SensitivityIntegratorImpl.cpp:35-115 | the three plain steps are the weighted sums of their stages |
| `DiscretizationOrder.DiscretizationWithTime` | core/ocs2_core/src/integration/SensitivityIntegratorImpl.cpp:35-115 | making time a state with slope one changes no plain step, for any flow, and the time arrives at t + dt |
| `DiscretizationOrder.DiscretizationOfLinear` | core/ocs2_core/src/integration/SensitivityIntegratorImpl.cpp:35-115 | on x' = M x + b the plain steps are the Taylor polynomials of the exact solution, of order one, two and four |
| `Odes.SystemFunction` | core/ocs2_core/src/integration/IntegratorBase.cpp:41-54 | each evaluation is counted, and fails exactly when the count exceeds the bound |
| `DormandPrince.Stepper.ComputeSlopes` | core/ocs2_core/src/integration/RungeKuttaDormandPrince5.cpp:166-176 | the slopes k1 to k6 in the fields are those of the tableau, after five evaluations; the lemmas of DormandPrinceOrder and ElementaryProblems say what they amount to |
| `DormandPrince.Stepper.DoStep` | core/ocs2_core/src/integration/RungeKuttaDormandPrince5.cpp:130-180 | one step of the tableau with first-same-as-last derivative, six evaluations, correct when output and input share storage |
| `DormandPrince.Stepper.TryStep` | core/ocs2_core/src/integration/RungeKuttaDormandPrince5.cpp:84-117 | accepts exactly when the error is at most one; then moves and enlarges the step, otherwise leaves state and time and reduces it |
| `DormandPrince.ErrorTestIsComponentwise` | core/ocs2_core/src/integration/RungeKuttaDormandPrince5.cpp:194-198 | the error is at most one if and only if every component of the estimate is within its own tolerance, zero tolerances included |
| `DormandPrince.AllowanceAdds` | core/ocs2_core/src/integration/RungeKuttaDormandPrince5.cpp:194-198 | the allowance is the absolute tolerance plus the relative one times the magnitudes of the state and of its increment |
| `DormandPrince.AllowanceScales` | core/ocs2_core/src/integration/RungeKuttaDormandPrince5.cpp:194-198 | and scales with the units of the state |
| `DormandPrince.DecreaseShrinks` | core/ocs2_core/src/integration/RungeKuttaDormandPrince5.cpp:207-211 | after a rejected step the factor is at least 0.2 and less than 0.9: nine tenths of the cube root that would bring the error to one, or 0.2 where that is less |
| `DormandPrince.UnboundedErrorsShrinkAlike` | core/ocs2_core/src/integration/RungeKuttaDormandPrince5.cpp:207-211 | errors from a certain size on, infinite ones included, cut the step to a fifth |
| `DormandPrince.IncreaseGrows` | core/ocs2_core/src/integration/RungeKuttaDormandPrince5.cpp:220-227 | after an accepted step the factor is at least 1 and at most 4.5: nine tenths of the fifth root that would bring the error, at least 5^-5, to one, for errors below one half, and one otherwise |
| `DormandPrince.StepSizeAfterTrial` | core/ocs2_core/src/integration/RungeKuttaDormandPrince5.cpp:207-227 | the step keeps its sign, and never grows after a rejection |
| `DormandPrince.RunIntegrateConst` | core/ocs2_core/src/integration/RungeKuttaDormandPrince5.cpp:236-256 | observes the points of the fixed-step recursion while the target is not passed by a tenth of a step; six calls for each step |
| `DormandPrince.ConstRunEnds` | core/ocs2_core/src/integration/RungeKuttaDormandPrince5.cpp:236-256 | such a run ends at most nine tenths of a step, and the comparison tolerance, before the final time, and less than a tenth after it |
| `DormandPrince.TakeStep` | core/ocs2_core/src/integration/RungeKuttaDormandPrince5.cpp:269-283 | ends with the first accepted one of at most 101 trials, each reduced from the one before by its own error, and leaves the increased size; or with all of them rejected, or with exhausted calls; six calls for each trial; the step keeps its sign |
| `DormandPrince.RunIntegrateAdaptive` | core/ocs2_core/src/integration/RungeKuttaDormandPrince5.cpp:259-285 | always ends; every observation follows from the one before by the first accepted trial from the size that was left there, cut at the final time; a normal end is within epsilon of the final time, in either direction; with a zero step a run ends normally, at its start, if and only if the start is not past the final time and the first call is allowed |
| `DormandPrince.LimitedIsLongest` | core/ocs2_core/src/integration/RungeKuttaDormandPrince5.cpp:272-274 | the cut trial is the longest one, up to the held size, that does not pass the final time by more than the comparison tolerance |
| `DormandPrince.MagnitudesCompared` | core/ocs2_core/src/integration/RungeKuttaDormandPrince5.cpp:306-316 | the trial towards a requested time has the smaller magnitude of the held size and the way left, and the size taken up again the larger one |
| `DormandPrince.IntegrateTo` | core/ocs2_core/src/integration/RungeKuttaDormandPrince5.cpp:306-321 | the stretch to one requested time never oversteps it; each step is the first accepted trial from the held size or the rest of the way, and a size that only the target cut short is taken up again |
| `DormandPrince.RunIntegrateTimes` | core/ocs2_core/src/integration/RungeKuttaDormandPrince5.cpp:288-323 | always ends; observes the requested times in order, all of them on a normal end, each reached from the one before by such steps from the derivative and the size held there; with a zero step it ends normally, all at the initial state, if and only if the times never step back and the first call is allowed |
| `DormandPrinceAccuracy.StepInTime` | core/ocs2_core/src/integration/RungeKuttaDormandPrince5.cpp:84-180 | a step with a right-hand side that is the derivative of polynomials of degree six errs by exactly the leading coefficient times dt^6/900; with degree five the error estimate is 71/54000 times the leading coefficient times dt^5 |
| `DormandPrinceAccuracy.ConstStepsIntegrate` | core/ocs2_core/src/integration/RungeKuttaDormandPrince5.cpp:236-256 | the exact error of any number of steps |
| `DormandPrinceAccuracy.ConstRunIsExact` | core/ocs2_core/src/integration/RungeKuttaDormandPrince5.cpp:236-256 | every observation of a fixed-step run is exact when the right-hand side is a polynomial in time of degree at most four |
| `DormandPrinceAccuracy.AdaptiveRunIsExact` | core/ocs2_core/src/integration/RungeKuttaDormandPrince5.cpp:259-285 | the same for adaptive runs, whatever steps were accepted |
| `DormandPrinceAccuracy.CubicsPassTheTest` | core/ocs2_core/src/integration/RungeKuttaDormandPrince5.cpp:84-117 | for degree at most three the error estimate is zero, so any step is accepted; the next is 4.5 times longer if every component is allowed some error, and otherwise of the same size |
| `DormandPrinceOrder.StepWithTime` | core/ocs2_core/src/integration/RungeKuttaDormandPrince5.cpp:130-180 | making time a state with slope one changes no step, for any flow: every node of the tableau is the sum of its row |
| `DormandPrinceOrder.StepOfLinear` | core/ocs2_core/src/integration/RungeKuttaDormandPrince5.cpp:84-180 | on x' = M x + b a step is the Taylor polynomial of order five of the exact solution plus dt^6/600 M^5 (M x + b), and the error estimate starts with dt^5 |
| `ElementaryProblems.StepSolvesElementary` | core/ocs2_core/src/integration/RungeKuttaDormandPrince5.cpp:84-180 | from zero a step of any size solves the problem whose components stand for the 17 rooted trees with up to five nodes exactly, and the error estimate is zero for those with up to four: the conditions of order five and four |
| `ElementaryProblems.SolutionSolves` | core/ocs2_core/src/integration/RungeKuttaDormandPrince5.cpp:84-180 | the solution this is compared with starts at zero and has the branches of each tree for its derivative |
| `DormandPrinceOrder.StepGrows` | core/ocs2_core/src/integration/RungeKuttaDormandPrince5.cpp:130-180 | one step on x' = lambda x multiplies x by 1 + z + z^2/2 + z^3/6 + z^4/24 + z^5/120 + z^6/600 |
| `DormandPrinceOrder.ConstStepsGrow` | core/ocs2_core/src/integration/RungeKuttaDormandPrince5.cpp:236-256 | n steps multiply x by the n-th power of that polynomial |
| `TransferFunctions.MultiplyPolynomialsLoop` | core/ocs2_core/src/dynamics/TransferFunctionBase.cpp:61-70 | the double loop computes the product with the right factor cut at the size of the left, and reads out of range exactly for a longer left or an empty right factor |
| `TransferFunctions.MultiplyIsProductIff` | core/ocs2_core/src/dynamics/TransferFunctionBase.cpp:61-70 | the result is the product if and only if the left factor is zero or the right one vanishes beyond the size of the left |
| `TransferFunctions.MultiplyLosesCoefficient` | core/ocs2_core/src/dynamics/TransferFunctionBase.cpp:61-70 | 1 times s + 2 gives s |
| `TransferFunctionBases.TransferFunctionBase.AbsorbDelay` | core/ocs2_core/src/dynamics/TransferFunctionBase.cpp:80-91 | numerator and denominator are multiplied by the approximation when the delay exceeds its tolerance; fails exactly when a product reads out of range |
| `TransferFunctionBases.PadeMatchesDelay` | core/ocs2_core/src/dynamics/TransferFunctionBase.cpp:35-58 | the approximations agree with exp(-sT) at s = 0 up to the first power of s with one coefficient and up to the second with two; with two the numerator at s is the denominator at -s, so that the modulus is one on the imaginary axis |
| `TransferFunctionBases.TransferFunctionBase.Normalize` | core/ocs2_core/src/dynamics/TransferFunctionBase.cpp:94-98 | the denominator becomes monic and both polynomials keep their ratio |
| `TransferFunctionBases.TransferFunctionBase.GetStateSpace` | core/ocs2_core/src/dynamics/TransferFunctionBase.cpp:101-145 | (A, B, C, D) realises num/den of the prepared and of the normalised polynomials; A is the companion matrix, or its balanced form; exact failure condition; the order is the degree of the denominator |
| `TransferFunctionBases.Realisation` | core/ocs2_core/src/dynamics/TransferFunctionBase.cpp:112-145 | controller canonical form and balancing by a diagonal transformation, for a proper monic transfer function |
| `TransferFunctionBases.BalancingBalances` | core/ocs2_core/src/dynamics/TransferFunctionBase.cpp:135-143 | balancing makes the couplings of the first state with any other, there along the first row and back down the subdiagonal, of one magnitude, the root of the coefficient |
| `TransferFunctionBases.PreparedIsProper` | core/ocs2_core/src/dynamics/TransferFunctionBase.cpp:101-110 | absorbing a delay keeps a transfer function proper, with nonzero leading denominator |
| `TransferFunctionBases.DelayIsAbsorbedIff` | core/ocs2_core/src/dynamics/TransferFunctionBase.cpp:80-91 | the delay is absorbed by true products if and only if the denominator has degree one and the numerator the same size or no nonzero coefficient |
| `StateSpaces.CanonicalRealises` | core/ocs2_core/src/dynamics/TransferFunctionBase.cpp:121-133 | for every s there is a state for the input den(s) with output num(s), and every solution has output in that ratio |
| `StateSpaces.CanonicalSolves` | core/ocs2_core/src/dynamics/TransferFunctionBase.cpp:121-133 | a state solves the canonical form if and only if it consists of descending powers scaled by its last entry, and the input is den(s) times that entry |
| `StateSpaces.CommonFactor` | core/ocs2_core/src/dynamics/TransferFunctionBase.cpp:94-98 | a realisation of num/den is one of the ratio with a common factor |
| `StateSpaces.TransformedRealises` | core/ocs2_core/src/dynamics/TransferFunctionBase.cpp:135-143 | a change of coordinates with an inverse keeps the realised ratio |
| `LoopshapingFilters.ExpandRoots` | core/ocs2_core/src/loopshaping/LoopshapingPropertyTree.cpp:46-62 | the loops over the roots, updating one coefficient array in place, compute the polynomial of the roots |
| `LoopshapingFilters.RootPolynomialMeans` | core/ocs2_core/src/loopshaping/LoopshapingPropertyTree.cpp:46-62 | that polynomial is the product of s - z over the roots, for every s |
| `LoopshapingFilters.VanishesAtRoots` | core/ocs2_core/src/loopshaping/LoopshapingPropertyTree.cpp:46-62 | and is zero exactly at the roots |
| `LoopshapingFilters.ReadSisoFilter` | core/ocs2_core/src/loopshaping/LoopshapingPropertyTree.cpp:37-90 | the filter, inverted or not, realises scaling times the zeros over the poles; exact failure condition |
| `LoopshapingFilters.FilterIsRootRatio` | core/ocs2_core/src/loopshaping/LoopshapingPropertyTree.cpp:37-90 | output and input of the filter are in the ratio of the root products |
| `MrtBuffer.RunKeeps` | mpc/ocs2_mpc/src/MRT_BASE.cpp:42-220 | the invariant of every interleaving of publication, update with won or lost lock, and reset |
| `MrtBuffer.ActiveIsOfOneCall` | mpc/ocs2_mpc/src/MRT_BASE.cpp:160-187 | whenever no update or reset is under way, the active command, policy and performance index come from one publication, the last accepted one, or are all absent since a reset |
| `MrtBuffer.AcceptedIncrease` | mpc/ocs2_mpc/src/MRT_BASE.cpp:160-187 | accepted publications strictly increase over a whole run, resets included, so none is accepted twice, and all were published |
| `MrtBuffer.TrueMeansLatest` | mpc/ocs2_mpc/src/MRT_BASE.cpp:160-187 | an update about to return true has made the latest publication active |
| `MrtBuffer.FalseMeansNothingNew` | mpc/ocs2_mpc/src/MRT_BASE.cpp:160-187 | an update that won the lock and returns false had nothing new to accept |
| `MrtBuffer.ReceivedIffPublished` | mpc/ocs2_mpc/src/MRT_BASE.cpp:42-220 | between the operations the flag for a received policy is set if and only if something was published since the last reset |
| `MrtBuffer.ResetDropsAll` | mpc/ocs2_mpc/src/MRT_BASE.cpp:42-56 | a reset about to return has emptied both triples and both flags |
| `MrtBuffer.MutualExclusion` | mpc/ocs2_mpc/src/MRT_BASE.cpp:42-220 | no two threads are inside the guarded regions at once |
| `GaussNewtonApproximation.Gradient` | core/ocs2_core/src/automatic_differentation/CppAdInterface.cpp:221-226 | the loop over the entries computes J'f of the dense Jacobian |
| `GaussNewtonApproximation.AddProducts` | core/ocs2_core/src/automatic_differentation/CppAdInterface.cpp:237-251 | one entry adds its square and both mirrored products with later entries of its row, and uses what lies behind the last entry if and only if the row number read there is that of the entry and of the last one; the matrix stays symmetric at every step |
| `GaussNewtonApproximation.Hessian` | core/ocs2_core/src/automatic_differentation/CppAdInterface.cpp:228-252 | the loops, without a bound as in the program, compute J'J of the dense Jacobian if and only if the row number read behind the last entry is not the one of the last entry |
| `GaussNewtonApproximation.GetGaussNewtonApproximation` | core/ocs2_core/src/automatic_differentation/CppAdInterface.cpp:199-257 | value, J'f and, under that condition, J'J for any row-sorted Jacobian without duplicates |
| `GaussNewtonApproximation.ApproximatesSquaredNorm` | core/ocs2_core/src/automatic_differentation/CppAdInterface.cpp:199-257 | which are the value and derivatives of half the squared norm of f + J dx |

## Left out

- Rounding, overflow and non-finite values of floating-point arithmetic.
- Eigen's factorisations and solves, `makePsdEigenvalue`, `makePsdCholesky` and the numeric Riccati solver of
  `ContinuousTimeLqr`: what is hard there is in the library, of which only contracts appear.
- The Riccati map and jump, rollouts, line search, Levenberg-Marquardt and penalty updates: arbitrary functions here.
- `ProjectedControllers.CalculateController`: the workers that share the nodes run in sequence here; `WorkClaiming` is
  about their sharing.
- Numerical-stability checks, timers, printing and the exceptions of user code inside the main loop.
- `numRepeats` and the block assembly of several filters into one: independent copies side by side.
- `SlqRiccati.IntegrateRiccatiEquationNominalTime`: the vector form of the value function is integrated as it is; its
  conversion to and from matrices is left out.
- `IlqrRiccati.RiccatiEquationsWorker`: value and gains of a node are one record, and projection, Riccati modification
  and map are one function of model data and next value.
- `DormandPrince.Stepper.DoStep`: the six slope fields are one record field, stored after the last slope.
- `DdpIterations.GaussNewtonDdp.RunImpl`: exceptions, and the linear quadratic approximation as separate steps, are left
  out; the sweep of a partition is a function of the nominal trajectory, the partition, its final value and the node.
- `MrtBuffer.RunKeeps`: objects are named by their publication; their contents and what observers do to them are left
  out, and so are the getters, which only read an active pointer.
- `ParallelSweep.RunKeeps`: writes of whole nodes are atomic; each node belongs to one worker.
- `PrimalSolutions.ExtractPrimalSolution`: requires a segment at the adjusted start, at most two samples beyond the
  segment of the end (`Extractable`); otherwise the program reads out of range or resizes to a negative length.
- Event handlers and observers of integrators only record what they are given.
- Robot models, constraint and cost collections, code generation by CppAD, ROS, settings and file input.
