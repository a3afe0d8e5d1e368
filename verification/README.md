# system_solver core in Dafny

This project models the core of `system_solver`, a Rust parameter solver, together with the 2D character-dynamics example that feeds it. The modelled parts are listed below.

- **Residual plumbing.** Residual functions of (given parameters, unknown parameters) are filtered to a solution block. Each residual passes through a loss transform (identity, `r*r`, `r*r/s`). The transformed residuals are then aggregated: summed to one value, or passed through for Gauss-Newton.
- **Solution plan.** A square Jacobian is reduced to its non-zero pattern (`to_binary_matrix`). A block-triangular decomposition of that pattern becomes a numbered list of solution blocks.
- **Sub-problems.** One solution block becomes an optimisation sub-problem. Its index bookkeeping is modelled:
  - gathering the block's entries of a full parameter vector;
  - scattering optimiser output back into it, where the last write wins;
  - selecting Jacobian columns;
  - converting between model space and optimisation space.
- **Argmin interface.** The sub-problem's operator, cost, gradient and Jacobian, each with its length guard. Also the simulated-annealing neighbour proposal: temperature fraction, interpolated step sizes, the safety clamp, and exactly one coordinate moved.
- **Solve cascade.** Blocks are solved in plan order. A failed Gauss-Newton run falls back to simulated annealing, then a Gauss-Newton refinement. A final L-BFGS pass runs over the whole problem.
- **Example dynamics.**
  - Ground throttle, drive force and drag.
  - Air thrust and drag, and the jump boost.
  - Friction-contact construction and equilibrium contacts.
  - The semi-implicit Euler step and the two stepping loops: free stepping, and stepping on flat ground.

Values are Dafny `real`s. Rust panics, including failed `debug_assert!`s (modelled as enabled), become `Err(Panic(..))`. An argmin `bail!` becomes `Err(ArgminError(..))`. Some library calls are outside the model and become function parameters: the automatic differentiation, the block-triangular decomposition, the optimisers, the random draws, `is_finite`, `norm` and `atan2`.

Modules follow the source files:

| module | file | source |
|---|---|---|
| `Wrappers` | wrappers.dfy | `Result` and `Option` types |
| `LinAlg` | linalg.dfy | 2-vectors and row-major matrices |
| `SolutionPlan` | solution_plan.dfy | `solution_plan.rs` |
| `Transformation` | transformation.dfy | `transformation_hof.rs` |
| `Aggregation` | aggregation.dfy | `aggregation_hof.rs` |
| `Residuals` | residuals.dfy | `residuals.rs` |
| `Objective` | objective.dfy | `objective.rs` |
| `AnnealConfig` | anneal_config.dfy | `SimulatedAnnealingConfig` |
| `SubProblems` | sub_problem.dfy | `sub_problem.rs` |
| `ArgminImpls` | argmin_impls.dfy | `argmin_impls.rs` |
| `SimulatedAnnealing` | simulated_annealing.dfy | `simulated_annealing.rs` |
| `EquationSystem` | equation_system.dfy | `equation_system/mod.rs` |
| `Params` | params.dfy | the dynamics parameter structs |
| `State` | state.dfy | `dynamics/state.rs` and `estimate_normal_force_from_gravity` |
| `Ground` | ground.dfy | `dynamics/ground.rs` |
| `Air` | air.dfy | `dynamics/air.rs` |
| `Dynamics` | dynamics.dfy | `dynamics/mod.rs` |
| `Integrate` | integrate.dfy | `constraints/integrate.rs` |

The repository contains two overlapping source trees. The sub-problem and the aggregators follow the `system_solver/src` copy; everything else follows `src`. The non-generic copy `system_solver/src/equation_system/sub_problem/argmin_impls.rs` has the same logic as the generic one:

- the length guards are at lines 33-39, 57-63, 87-93 and 173-179;
- the gradient's one-row check is at lines 71-78;
- the proposal is at lines 189-226 and 254.

`ArgminImpls` therefore models both copies.

Two places where the code and its own tests or documentation part ways:

- **The drive force uses the sticky-glove force even when the normal force is zero.** The test `test_ground_drive_force_zero_when_no_normal_force` expects a zero force. The code gives `tangent * fmax * throttle * traction * (0 + glove)`, which is not zero. The model follows the code, and `Ground.GloveDrivesWithoutNormalForce` exhibits the non-zero force for the test's input (1, 0) at every velocity along the ground, which covers the test's cases (1, 0, 5) and (1, 0, -5).
- **Block filtering can misalign names and functions.** `filter_res_fns_to_block` keeps functions in list order but looks names up in equation-index order. With unsorted or repeated indices the names and functions no longer line up. `Residuals.NamesCanMisalignWithFunctions` shows such a case.

## Model

| member | source | states |
|---|---|---|
| SolutionPlan.Range | src/equation_system/solution_plan.rs:56-57 | `(0..n).collect()` has length n and holds i at position i |
| SolutionPlan.NewFullprob | src/equation_system/solution_plan.rs:53-59 | the whole-problem block is block 0; its equation and unknown lists are the same; it covers exactly the indices below `size`, each once |
| Transformation.MakeLossFns | src/equation_system/residuals/transformation_hof.rs:24-57 | the number of loss functions depends only on `n` or the number of scales, never on the residuals; with non-zero scales every function is defined |
| Transformation.IdentityFnsAreIdentity | src/equation_system/residuals/transformation_hof.rs:24-29 | `ResidTransIdentity{n}` yields n functions, each returning its residual |
| Transformation.UnscaledL2FnsSquare | src/equation_system/residuals/transformation_hof.rs:37-42 | `ResidTransUnscaledL2{n}` yields n functions, each mapping r to r*r, which is never negative |
| Transformation.ScaledL2FnsDivideByScale | src/equation_system/residuals/transformation_hof.rs:48-57 | function i of `ResidTransScaledL2` maps r to r*r/s_i, which is non-negative for a positive scale |
| Aggregation.FoldSum | system_solver/src/equation_system/residuals/aggregation_hof.rs:38-46 | the `ResidAggSum` fold gives 0 for no residuals, the residual itself for one, and 0 when every residual is 0 |
| Aggregation.Operator | system_solver/src/equation_system/residuals/aggregation_hof.rs:22-26 | a to-scalar aggregator wraps its scalar cost in a vector of length one; the pass-through returns the residuals unchanged |
| Aggregation.ScalarCost | system_solver/src/equation_system/residuals/aggregation_hof.rs:27-30 | the scalar cost of either aggregator is the plain sum of the residuals |
| Aggregation.NumOutputs | system_solver/src/equation_system/residuals/aggregation_hof.rs:31-33 | the declared output count is the operator's output length: always for a to-scalar aggregator, and on inputs of the declared width for the pass-through |
| Aggregation.NoOpForSubprob | system_solver/src/equation_system/residuals/aggregation_hof.rs:57-69 | the block's pass-through aggregator declares one output per equation of the block and returns its input unchanged |
| Aggregation.NoOpForFullprob | system_solver/src/equation_system/residuals/aggregation_hof.rs:54-69 | the whole-problem pass-through aggregator declares n outputs and returns its input unchanged |
| Aggregation.ScalarAggregatorShape | system_solver/src/equation_system/residuals/aggregation_hof.rs:22-34 | every to-scalar aggregator returns a length-1 vector, declares one output, and that output is its scalar cost |
| Aggregation.NoOpIsPassThrough | system_solver/src/equation_system/residuals/aggregation_hof.rs:63-72 | the Gauss-Newton aggregator returns the residual vector untouched, and its scalar cost is the plain sum |
| Aggregation.FoldSumAppend | system_solver/src/equation_system/residuals/aggregation_hof.rs:38-46 | the `ResidAggSum` fold splits over concatenation, so the total does not depend on how the residuals are grouped |
| Aggregation.FoldSumNonNegZeroIff | system_solver/src/equation_system/residuals/aggregation_hof.rs:38-46 | a sum of non-negative residuals is non-negative, and it is zero exactly when every residual is zero |
| Residuals.KeptPositions | src/equation_system/residuals/residuals.rs:85-94 | the kept positions are exactly the list positions that occur among the equation indices; they are ascending and never repeated |
| Residuals.FilterToBlock | src/equation_system/residuals/residuals.rs:81-95 | the filtered list holds the functions at the kept positions, in original list order |
| Residuals.FilterResFns | src/equation_system/residuals/residuals.rs:99-117 | both function lists are filtered by the same rule; name k is the name at equation index k; an equation index past the name list panics |
| Residuals.FilterKeepsExactlyBlockPositions | src/equation_system/residuals/residuals.rs:85-94 | a function survives iff its original position is an equation index of the block; survivors keep their order and appear once |
| Residuals.FilterPreservesEqualLength | src/equation_system/residuals/residuals.rs:103-104 | filtering two lists of equal length by one block gives lists of equal length |
| Residuals.FilterNeverLengthens | src/equation_system/residuals/residuals.rs:81-95 | filtering never lengthens a list |
| Residuals.FilterFullBlockIsIdentity | src/equation_system/residuals/residuals.rs:99-117 | filtering with the whole-problem block returns the functions and names unchanged |
| Residuals.NamesCanMisalignWithFunctions | src/equation_system/residuals/residuals.rs:106-110 | with indices [1, 0, 1] the functions stay [f0, f1] while the names become [b, a, b] |
| Residuals.OutOfRangeIndexPanicsOnlyInNames | src/equation_system/residuals/residuals.rs:85-110 | an out-of-range equation index is ignored by the function filter but aborts the name lookup |
| Objective.ModelToOpt | src/equation_system/objective.rs:47-49 | `model_to_opt` keeps the length and applies the link coordinate by coordinate |
| Objective.OptToModel | src/equation_system/objective.rs:50-52 | `opt_to_model` keeps the length and applies the inverse link coordinate by coordinate |
| Objective.ScalerRoundTrip | src/equation_system/objective.rs:26-52 | when the two links undo each other, going to optimisation space and back gives back the model-space vector |
| Objective.L2LossFns | src/equation_system/objective.rs:7-10 | `l2_loss_fns(n)` gives n defined loss functions, each mapping r to r*r |
| Objective.SumLoss | src/equation_system/objective.rs:12-17 | `sum_loss` is the scalar cost of `ResidAggSum`, and it is non-negative on non-negative residuals |
| Objective.L2LossFnsAreUnscaledL2 | src/equation_system/objective.rs:7-10 | `l2_loss_fns(n)` is n squares, the same list the unscaled L2 transform makes |
| Objective.SumLossIsSumAggregator | src/equation_system/objective.rs:12-17 | `sum_loss` is 0 on no residuals, adds across concatenation, and equals the single output of `ResidAggSum` |
| Objective.EvalResiduals | src/equation_system/objective.rs:124-126 | every residual function is evaluated once, in list order, at the same unknowns |
| Objective.Call | src/equation_system/objective.rs:108-143 | a call aborts exactly on a wrong input length; with the pass-through, output i is transform i applied to residual function i at the model-space inputs, and there are min(#transforms, #functions) outputs; with a scalar aggregator the one output is the scalar cost of the transformed residuals |
| Objective.GaussNewtonCallSquaresResiduals | src/equation_system/objective.rs:108-136 | with unscaled L2 losses for every function and the pass-through, output i is the square of residual i; every output is non-negative, and all outputs are zero exactly when every residual is |
| Objective.NumInputs | src/equation_system/objective.rs:145-147 | when every transform is defined, a call succeeds exactly on inputs of the declared length |
| Objective.NumOutputs | src/equation_system/objective.rs:149-151 | for a scalar aggregator, or a pass-through sized to the functions and their transforms, a successful call has the declared number of outputs |
| Objective.CallMatchesDeclaredWidths | src/equation_system/objective.rs:108-151 | a call succeeds exactly on `num_inputs` inputs, and its output length is `num_outputs` when every function has a transform |
| Objective.CallUsesModelSpace | src/equation_system/objective.rs:117-124 | residual functions see the inputs unchanged without a scaler, and their `opt_to_model` image with one |
| Objective.IdentityPassThroughReturnsResiduals | src/equation_system/objective.rs:126-136 | with the identity transform and the pass-through aggregator, a call returns the raw residuals |
| Objective.ExtraResidualsAreDropped | src/equation_system/objective.rs:128-134 | functions past the last transform have no effect on the output |
| Objective.L2SumIsZeroExactlyAtRoots | src/equation_system/objective.rs:126-136 | with L2 losses and the sum, the single output is non-negative and zero iff every residual is zero |
| AnnealConfig.Default | src/equation_system/sub_problem/solve_subproblem/simulated_annealing.rs:35-51 | the default schedule cools: each minimum lies below its initial value, both jump probabilities lie in [0, 1], the temperature is positive, the clamp is not inverted, and a big step fits inside it |
| SubProblems.New | system_solver/src/equation_system/sub_problem/sub_problem.rs:46-104 | the sub-problem keeps its block and initial unknowns and seeds its RNG with 0; it has no annealing config; it has a scaler iff scaling is asked for; its objective holds the block-filtered functions; it panics only when a name lookup is out of range |
| SubProblems.NewIsShaped | system_solver/src/equation_system/sub_problem/sub_problem.rs:46-104 | when the derivative always has the objective's shape, the new sub-problem's derivative has one row per aggregator output and one column per initial unknown |
| SubProblems.WithSaConfig | system_solver/src/equation_system/sub_problem/sub_problem.rs:106-109 | installs the annealing config and changes nothing else |
| SubProblems.OptToMod | system_solver/src/equation_system/sub_problem/sub_problem.rs:112-118 | converting to model space keeps the length |
| SubProblems.ModToOpt | system_solver/src/equation_system/sub_problem/sub_problem.rs:121-127 | converting to optimisation space keeps the length |
| SubProblems.ConversionsRoundTrip | system_solver/src/equation_system/sub_problem/sub_problem.rs:111-127 | without a scaler both conversions are the identity; with inverse links, optimisation space and back is the identity |
| SubProblems.SelectItems | system_solver/src/equation_system/sub_problem/sub_problem.rs:137-149 | gathering gives one value per unknown index, element i being `items[unknown_idxs[i]]`; a wrong length or a bad index panics |
| SubProblems.SelectJacobian | system_solver/src/equation_system/sub_problem/sub_problem.rs:153-162 | the selection keeps the row count, has one column per unknown index, and entry (i, j) is full(i, unknown_idxs[j]) |
| SubProblems.FullInitialOpt | system_solver/src/equation_system/sub_problem/sub_problem.rs:175-178 | the initial unknowns in optimisation space have one entry per unknown |
| SubProblems.SubInitialOpt | system_solver/src/equation_system/sub_problem/sub_problem.rs:165-173 | the block's initial values are the gathered entries of the full initial vector |
| SubProblems.Overwrite | system_solver/src/equation_system/sub_problem/sub_problem.rs:206-210 | the overwrite loop keeps the length; a written position holds the value of its last write; others are unchanged |
| SubProblems.Scatter | system_solver/src/equation_system/sub_problem/sub_problem.rs:193-211 | the scatter gives a length-N vector; position `unknown_idxs[i]` holds the last input written there; every other position keeps the initial optimisation-space value |
| SubProblems.ParamsWithResult | system_solver/src/equation_system/sub_problem/sub_problem.rs:181-190 | the reconstruction succeeds exactly when the scatter does, with one value per unknown |
| SubProblems.SelectAfterScatter | system_solver/src/equation_system/sub_problem/sub_problem.rs:137-211 | for distinct in-range indices, gathering after scattering gives back the optimiser's vector |
| SubProblems.ScatterOfInitialIsInitial | system_solver/src/equation_system/sub_problem/sub_problem.rs:165-211 | scattering the block's initial values reproduces the full initial optimisation-space vector |
| SubProblems.ParamsWithResultKeepsOtherUnknowns | system_solver/src/equation_system/sub_problem/sub_problem.rs:181-211 | with inverse links, unknowns outside the block keep their initial values, and block unknowns come from the optimiser's last value for them |
| ArgminImpls.Apply | src/equation_system/sub_problem/argmin_impls.rs:45-62 | a parameter vector of the wrong length is rejected with an argmin error and nothing else happens; otherwise the objective runs at the scattered vector |
| ArgminImpls.Cost | src/equation_system/sub_problem/argmin_impls.rs:27-30 | the cost is element 0 of the operator's output, and the operator's errors propagate |
| ArgminImpls.CostIsSumOfSquares | src/equation_system/sub_problem/argmin_impls.rs:27-62 | for the L2-and-sum set-up, the cost exists, is non-negative, and is zero exactly at a common root of the block's residuals |
| ArgminImpls.Gradient | src/equation_system/sub_problem/argmin_impls.rs:77-100 | the gradient is the one derivative row restricted to the block's columns; any other row count is an error; the length guard rejects first |
| ArgminImpls.Jacobian | src/equation_system/sub_problem/argmin_impls.rs:114-129 | the Jacobian is the derivative restricted to the block's columns, behind the same length guard |
| ArgminImpls.GradientExists | src/equation_system/sub_problem/argmin_impls.rs:77-100 | for a scalar aggregator with a well-shaped derivative and in-range unknown indices, the gradient exists at every parameter vector of the block's width and has that width |
| ArgminImpls.JacobianExists | src/equation_system/sub_problem/argmin_impls.rs:114-129 | for the pass-through with a well-shaped derivative and in-range unknown indices, the Jacobian exists at every parameter vector of the block's width, with one row per output and one column per block unknown |
| ArgminImpls.Clamp | src/equation_system/sub_problem/argmin_impls.rs:205 | `f64::clamp` lies in the range, is the identity inside it and saturates outside |
| ArgminImpls.Tau | src/equation_system/sub_problem/argmin_impls.rs:168-172 | the temperature fraction lies in [0, 1]; it is 0 when the initial temperature is not positive, and temp/init_temp in between |
| ArgminImpls.LerpBetween | src/equation_system/sub_problem/argmin_impls.rs:176-178 | for t in [0, 1] the interpolation stays between its ends and hits them at 0 and 1 |
| ArgminImpls.PBig | src/equation_system/sub_problem/argmin_impls.rs:182 | the big-jump probability is clamped into [0, 1] |
| ArgminImpls.ScheduleBetweenEnds | src/equation_system/sub_problem/argmin_impls.rs:180-182 | at any temperature the small and big steps and the jump probability lie between their minimum and initial values |
| ArgminImpls.Anneal | src/equation_system/sub_problem/argmin_impls.rs:151-235 | a proposal has the input's length and changes only the chosen coordinate, by at most `max_abs_step`; the error cases are the length guard, a missing config, an empty vector or uniform window, and an inverted clamp |
| ArgminImpls.AnnealMovesByClampedStep | src/equation_system/sub_problem/argmin_impls.rs:192-205 | the chosen coordinate moves by the clamped raw step; a local move stays inside the half-open window [-small_step, small_step) |
| SimulatedAnnealing.Solve | src/equation_system/sub_problem/solve_subproblem/simulated_annealing.rs:62-133 | a missing config panics; executor errors propagate; a success is the best parameters scattered into the initial unknowns and taken to model space |
| SimulatedAnnealing.Settings | src/equation_system/sub_problem/solve_subproblem/simulated_annealing.rs:65-111 | the solver starts from the given parameters at the configured temperature, stalls after 1000 iterations without a new best or accepted point, and stops at 10 000 iterations or at cost 0 |
| SimulatedAnnealing.SettingsFollowConfig | src/equation_system/sub_problem/solve_subproblem/simulated_annealing.rs:65-111 | the run starts from the block's initial values with the configured temperature, stalls after 1000 iterations, stops at 10 000 iterations and at cost 0 |
| SimulatedAnnealing.UnmovedRunReturnsInitialUnknowns | src/equation_system/sub_problem/solve_subproblem/simulated_annealing.rs:122-132 | if the best parameters are the starting point, annealing returns the initial unknowns |
| EquationSystem.New | src/equation_system/mod.rs:73-112 | building never fails; the raw engine has the identity transform and pass-through aggregator sized to the residual functions, and no scaler |
| EquationSystem.RawEngineReturnsRawResiduals | src/equation_system/mod.rs:79-102 | the raw engine returns each raw residual, in order, one output per function |
| EquationSystem.ToBinaryMatrix | src/equation_system/mod.rs:178-197 | the pattern has the Jacobian's shape, entry by entry: non-finite to NaN, non-zero to 1, zero to 0 |
| EquationSystem.BinaryPatternKeepsZeros | src/equation_system/mod.rs:184-195 | a pattern entry is 0 exactly where the Jacobian is 0 and NaN exactly where it is non-finite; classifying twice changes nothing |
| EquationSystem.WithTriangularization | src/equation_system/mod.rs:123-175 | it fails with the mismatch error carrying (rows, cols) exactly when the Jacobian is not square; otherwise block k is numbered k and copies the decomposition's row and column lists |
| EquationSystem.PlanNeedsSquareSystem | src/equation_system/mod.rs:123-175 | for a well-shaped raw derivative, planning succeeds exactly when there are as many residual functions as unknowns, and fails with the mismatch error carrying (functions, unknowns) otherwise |
| EquationSystem.SubProblemFor | src/equation_system/mod.rs:276-350 | building fails (a name-lookup panic) exactly when an equation index is past the name list; otherwise all three sub-problems use L2 losses sized to every raw function and scaling from the current unknowns; Gauss-Newton gets the block's pass-through aggregator; annealing and L-BFGS get the sum; only annealing gets the default config |
| EquationSystem.ScalarSubProblemsMinimiseSquares | src/equation_system/mod.rs:276-325 | the annealing and L-BFGS costs are non-negative and zero exactly at a common root of the block's residuals |
| EquationSystem.CascadeDerivativesExist | src/equation_system/mod.rs:276-350 | when the derivative always has the objective's shape, every annealing or L-BFGS sub-problem has a gradient of the block's width, and every Gauss-Newton sub-problem a Jacobian with one row per block equation and one column per block unknown |
| EquationSystem.SolveBlock | src/equation_system/mod.rs:367-404 | Gauss-Newton runs first; its success or its panic ends the block; on a returned error annealing runs from the same unknowns; annealing's error is returned; otherwise a refinement runs from its result, and a failed refinement panics |
| EquationSystem.AnnealingOnlyAfterReturnedError | src/equation_system/mod.rs:367-404 | annealing runs on a block exactly when Gauss-Newton returned an error; a Gauss-Newton panic leaves it as the block's only run and its outcome |
| EquationSystem.BlockResultComesFromGaussNewton | src/equation_system/mod.rs:367-404 | every accepted block result is the output of a Gauss-Newton run on that block |
| EquationSystem.SolveBlocks | src/equation_system/mod.rs:355-407 | with no blocks nothing runs and the current unknowns are returned; otherwise the first run is Gauss-Newton on the first block from the current unknowns |
| EquationSystem.SolveBlocksStaysInPlan | src/equation_system/mod.rs:355-407 | walking the plan only runs optimisers on plan blocks, and never L-BFGS |
| EquationSystem.SolveBlocksSplits | src/equation_system/mod.rs:355-407 | walking the plan is walking its first k blocks and then, if they succeed, the rest from their result; an error stops the walk |
| EquationSystem.SolveSystem | src/equation_system/mod.rs:352-419 | a block error is returned without the final pass; otherwise L-BFGS runs on the whole-problem block over all raw functions, from the accumulated unknowns |
| EquationSystem.GaussNewtonPanicEndsSolve | src/equation_system/mod.rs:355-419 | a Gauss-Newton panic on the first block unwinds the whole solve: no annealing, no further blocks, no L-BFGS |
| EquationSystem.FinalLbfgsRunsOnlyAfterEveryBlock | src/equation_system/mod.rs:409-418 | L-BFGS runs iff every block succeeded, and then only as the last run |
| EquationSystem.GaussNewtonEverywhereSkipsAnnealing | src/equation_system/mod.rs:367-371 | when Gauss-Newton always succeeds, the runs are exactly one Gauss-Newton per block in plan order |
| State.EstimateNormalForce | examples/dynamics/src/dynamics/ground.rs:30-42 | the normal force is the opposite of gravity's component along the normal, floored at 0 |
| State.NormalForceExamples | examples/dynamics/src/dynamics/ground.rs:51-59 | 2 kg under g = -10 presses with 20 on a floor; it presses with 0 on a ceiling |
| State.Tangent | dynamics_example/src/dynamics/state.rs:81-84 | the tangent is (n.y, -n.x), perpendicular to the normal |
| State.TangentIsUnit | dynamics_example/src/dynamics/state.rs:81-84 | the tangent of a unit normal is a unit vector |
| State.NewContact | dynamics_example/src/dynamics/state.rs:103-131 | the normal force is floored at 0; the traction is clamped into [0, 1]; the stored velocity is perpendicular to the normal |
| State.TangentVelocityIsKept | dynamics_example/src/dynamics/state.rs:120-123 | for a unit normal, a velocity already along the ground is kept unchanged |
| State.NewContactKeepsValidInputs | dynamics_example/src/dynamics/state.rs:103-131 | inputs that already meet the contact's invariants are stored as given |
| State.FlatGroundProjection | examples/dynamics/src/dynamics/ground.rs:73-83 | on flat ground the velocity (3, 2) projects to (3, 0) |
| State.NewEquilibriumContact | dynamics_example/src/dynamics/state.rs:140-153 | fails iff gravity is not negative; otherwise it is the contact whose normal force is gravity's estimate |
| State.EquilibriumContactCarriesWeight | dynamics_example/src/dynamics/state.rs:140-153 | on a floor the equilibrium contact carries the full weight -(m*g) |
| State.NewEquilibriumContactFromNormal | dynamics_example/src/dynamics/state.rs:159-180 | fails iff gravity is not negative or the velocity is off the ground by 1e-4 or more; otherwise it is the equilibrium contact with traction 1 |
| State.FlatEquilibriumContact | dynamics_example/src/dynamics/state.rs:159-180 | on flat ground (tangent angle 0) the contact carries the full weight and keeps only the horizontal velocity |
| State.ForceToAccel | examples/dynamics/src/dynamics/air.rs:58 | mass times (acceleration minus gravity) is the force |
| State.NewZeroedState | dynamics_example/src/dynamics/state.rs:213-220 | the zeroed state is at rest, with no input, no contact and no boost |
| State.ContactToAd | dynamics_example/src/dynamics/state.rs:41-56 | every field becomes a constant dual number of the same value, with zero derivative |
| State.ContactToF64 | dynamics_example/src/dynamics/state.rs:182-195 | every field keeps its value and drops its derivative |
| State.ContactConversionsRoundTrip | dynamics_example/src/dynamics/state.rs:41-195 | converting to dual numbers and back returns the contact unchanged |
| State.StateToAd | dynamics_example/src/dynamics/state.rs:223-231 | the velocity and input become constants; the contact is converted when present; the boost flag is kept |
| State.StateToAdKeepsValues | dynamics_example/src/dynamics/state.rs:223-231 | the dual state holds the same values with zero derivatives, and the contact converts back unchanged |
| Ground.Throttle | examples/dynamics/src/dynamics/ground.rs:119-123 | the throttle is the input's component along the tangent, clamped into [-1, 1] |
| Ground.ThrottleExamples | examples/dynamics/src/dynamics/ground.rs:181-204 | on flat ground (2, 0) saturates at 1, (-2, 0) at -1, (0.25, 0) gives 0.25, and a perpendicular input gives 0 |
| Ground.ThrottleIsOdd | examples/dynamics/src/dynamics/ground.rs:119-123 | reversing the input reverses the throttle |
| Ground.DriveForce | examples/dynamics/src/dynamics/ground.rs:151-174 | a negative force maximum fails the debug assertion; a throttle below 1e-6 gives zero; otherwise the force is along the tangent, so it has no normal component |
| Ground.DriveMagnitude | examples/dynamics/src/dynamics/ground.rs:164-173 | the drive factor is zero at zero throttle, and follows the throttle's sign when the force maximum, traction and glove force are non-negative |
| Ground.DriveMagnitudeIsOdd | examples/dynamics/src/dynamics/ground.rs:165-173 | the scalar factor of the drive force is odd in the throttle |
| Ground.DriveInDeadZone | examples/dynamics/src/dynamics/ground.rs:159-162 | inside the dead zone the drive force is zero |
| Ground.DriveOutsideDeadZone | examples/dynamics/src/dynamics/ground.rs:165-173 | outside the dead zone the drive force is the tangent times the drive factor |
| Ground.DriveIsOdd | examples/dynamics/src/dynamics/ground.rs:246-264 | reversing the input reverses the drive force: equal magnitude, opposite direction |
| Ground.GloveDrivesWithoutNormalForce | examples/dynamics/src/dynamics/ground.rs:226-243 | with zero normal force and glove force 1, input (1, 0) on flat ground still drives with (100, 0), whatever the velocity along the ground |
| Ground.DragFactor | examples/dynamics/src/dynamics/ground.rs:322-325 | the drag factor is zero without a drag coefficient, and never positive when traction, drag coefficient and normal force plus glove force are non-negative |
| Ground.DragForce | examples/dynamics/src/dynamics/ground.rs:310-326 | a negative drag coefficient fails the debug assertion; no normal force gives zero drag; otherwise the drag scales the tangent velocity |
| Ground.DragOpposesMotion | examples/dynamics/src/dynamics/ground.rs:333-354 | with a positive drag factor the drag strictly opposes the tangent velocity and has no normal component |
| Ground.DragProportionalToNormalForce | examples/dynamics/src/dynamics/ground.rs:356-370 | without glove force, doubling the normal force doubles the drag |
| Ground.NetForce | examples/dynamics/src/dynamics/ground.rs:393-403 | the ground force is drive plus drag, and it fails iff either debug assertion does |
| Ground.NetForceAlongGround | examples/dynamics/src/dynamics/ground.rs:283-302 | for a contact built by `new`, the whole ground force is perpendicular to the normal |
| Ground.Accel | examples/dynamics/src/dynamics/ground.rs:420-436 | the ground acceleration is the ground force over the mass plus gravity |
| Air.Thrust | examples/dynamics/src/dynamics/air.rs:5-10 | the thrust is zero when the input's squared length is below 1e-6, and the input times the maximum otherwise |
| Air.ThrustAlongInput | examples/dynamics/src/dynamics/air.rs:5-10 | outside the dead zone the thrust is parallel to the input, with component max*|u|^2 along it |
| Air.ThrustHorizontal | examples/dynamics/src/dynamics/air.rs:12-19 | the horizontal thrust has no vertical part; it is zero when |u.x| < 1e-6, and u.x times the maximum otherwise |
| Air.ThrustHorizontalIgnoresVertical | examples/dynamics/src/dynamics/air.rs:12-19 | the vertical input has no effect on horizontal thrust |
| Air.HorizontalInputThrustsAlike | examples/dynamics/src/dynamics/air.rs:5-19 | on a horizontal input outside both dead zones, the two thrust laws agree |
| Air.DragLinear | examples/dynamics/src/dynamics/air.rs:25-27 | linear drag is -v*c |
| Air.DragQuadratic | examples/dynamics/src/dynamics/air.rs:21-23 | given the velocity's length, quadratic drag is parallel to the velocity with component -c*|v|*|v|^2 along it |
| Air.QuadraticIsLinearTimesSpeed | examples/dynamics/src/dynamics/air.rs:21-27 | quadratic drag is linear drag with the coefficient multiplied by the speed |
| Air.DragOpposesVelocity | examples/dynamics/src/dynamics/air.rs:21-23 | quadratic drag never pushes along the velocity, and strictly opposes any motion for a positive coefficient |
| Air.BoostForce | examples/dynamics/src/dynamics/air.rs:44-47 | the jump boost points straight up with the boost force |
| Air.NetForce | examples/dynamics/src/dynamics/air.rs:30-49 | the air force is the drag, plus horizontal thrust exactly when there is no contact, plus the boost exactly when it is active |
| Air.ContactRemovesOnlyThrust | examples/dynamics/src/dynamics/air.rs:38-41 | touching the ground removes exactly the horizontal thrust |
| Air.BoostAddsBoostForce | examples/dynamics/src/dynamics/air.rs:43-47 | an active boost adds exactly the boost force |
| Air.NoAirForceAtRestOnGround | examples/dynamics/src/dynamics/air.rs:30-49 | at rest, on the ground and without boost, there is no air force |
| Air.Accel | examples/dynamics/src/dynamics/air.rs:52-59 | mass times (acceleration minus gravity) is the air force |
| Air.ZeroedStateFalls | examples/dynamics/src/dynamics/air.rs:52-59 | the zeroed state accelerates by gravity alone |
| Dynamics.GloveForce | examples/dynamics/src/dynamics/mod.rs:28-32 | the glove force applies only on slopes steeper than the threshold angle |
| Dynamics.TotalForce | examples/dynamics/src/dynamics/mod.rs:20-44 | airborne, the total force is the air force; in contact, it fails iff a ground debug assertion does |
| Dynamics.GroundedForceIsAirPlusGround | examples/dynamics/src/dynamics/mod.rs:27-41 | in contact the total force is the air force plus the ground force with the slope's glove force |
| Dynamics.AirborneForceIgnoresGroundParams | examples/dynamics/src/dynamics/mod.rs:25-43 | airborne, the run force, run drag and glove force have no effect |
| Dynamics.GloveIgnoredOnGentleSlopes | examples/dynamics/src/dynamics/mod.rs:28-32 | on slopes no steeper than the threshold the glove force has no effect |
| Dynamics.TotalAccel | examples/dynamics/src/dynamics/mod.rs:48-57 | the total acceleration exists iff the total force does, and mass times (acceleration minus gravity) is that force |
| Dynamics.AirborneAccelIsAirAccel | examples/dynamics/src/dynamics/mod.rs:48-57 | airborne, the total acceleration is the air acceleration |
| Integrate.NewZeroed | examples/dynamics/src/constraints/integrate.rs:19-25 | the zeroed integration state is at time 0, at the origin, at rest, airborne |
| Integrate.NextVel | examples/dynamics/src/constraints/integrate.rs:54 | the velocity changes by a*dt |
| Integrate.StepState | examples/dynamics/src/constraints/integrate.rs:31-76 | time always advances by dt; a non-finite acceleration changes nothing else; otherwise the position moves with the new velocity; the new velocity is kept only when every new value is finite; nothing else changes |
| Integrate.StepIsSemiImplicitEuler | examples/dynamics/src/constraints/integrate.rs:54-55 | when all stays finite, velocity changes by a*dt and position by the new velocity times dt |
| Integrate.CoastingStep | examples/dynamics/src/constraints/integrate.rs:54-56 | without acceleration a finite step keeps the velocity and moves by it |
| Integrate.Run | examples/dynamics/src/constraints/integrate.rs:86-90 | zero steps keep the start; one step is the stepper applied to it; a run that succeeds succeeded at every shorter length |
| Integrate.RunAdvancesTime | examples/dynamics/src/constraints/integrate.rs:86-90 | n successful steps advance the time by n*dt |
| Integrate.RunToTarget | examples/dynamics/src/constraints/integrate.rs:86-90 | the loop stops at the first state not before the target, or at the first failure; every earlier state was before the target; the overshoot is under one step; a state already at the target is returned unchanged |
| Integrate.StepRunsNeverFail | examples/dynamics/src/constraints/integrate.rs:41-76 | runs of `step_state` never fail and change nothing in the dynamic state but the velocity |
| Integrate.StepToT | examples/dynamics/src/constraints/integrate.rs:78-91 | stepping until the target always returns a state, the first one at or past the target, less than one step past it |
| Integrate.FlatContact | examples/dynamics/src/constraints/integrate.rs:107-112 | the rebuilt contact is the equilibrium contact for a flat floor; it fails iff gravity is not negative or the vertical velocity reaches 1e-4 |
| Integrate.FlatStep | examples/dynamics/src/constraints/integrate.rs:103-114 | one flat step installs the rebuilt contact, then steps with gravity zeroed for the acceleration law; it fails iff the contact does |
| Integrate.FlatStepCarriesWeight | examples/dynamics/src/constraints/integrate.rs:103-114 | each flat step's contact carries the full weight under the real gravity and keeps only the horizontal velocity |
| Integrate.StepToTOnFlatGround | examples/dynamics/src/constraints/integrate.rs:94-117 | flat stepping ends at the first state at or past the target, or at a failed contact assertion; the overshoot is under one step |
| Integrate.FlatRunsOnlyPanic | examples/dynamics/src/constraints/integrate.rs:106-115 | a flat-ground run can fail only through a contact's debug assertion |

## Left out

- The link functions `default_link_fns_builder` (logarithm and exponential) are not part of this model. `ParamScaler` is a pair of abstract coordinate functions, and round trips assume the links undo each other.
- Automatic differentiation (`FunctionEngine`, `ForwardAD`) is a function parameter. So is the block-triangular decomposition (`lower_block_triangular_structure`), whose row and column permutations and permuted matrix are not modelled.
- The optimisers themselves (argmin's Gauss-Newton, L-BFGS and annealing executors, with their observers) are parameters. Only the code around them is modelled.
- The RNG is replaced by its draws, which are inputs: the coordinate, the Bernoulli outcome, the uniform sample and the Cauchy sample. The Cauchy sample's `tan` is not modelled.
- Floating point is not modelled: rounding, NaN propagation and overflow. `is_finite` is a parameter of the integrator. Only `to_binary_matrix` distinguishes non-finite entries.
- Printing and logging are not modelled. This includes `print_solution_block` and `print_per_fn_residuals_at_params` in `solve_system`, which index the name and residual lists and could panic on their own.
- `gauss_newton.rs`, `lbfgs.rs`, `pso_solve.rs`, `param_scaling.rs`, the constraint residual functions (`aerial.rs`, `jump.rs`, `run.rs`) and `wall_and_slope.rs` are not part of this model.
- Debug assertions are modelled as enabled. A release build skips them and would continue with the unchecked values.
- Air.DragQuadratic: `vel.norm()` (a square root) is the parameter `speed`. Every member that takes it requires `LinAlg.IsLength(speed, vel)`: the speed is non-negative and its square is `|v|^2`.
- Dynamics.TotalForce: `abs_tangent_angle_degrees` (an `atan2`) is the parameter `angleDeg`.
- State.NewEquilibriumContactFromNormal: `normal_from_tan_angle` (sine and cosine) is not modelled. The caller passes the normal; the flat-ground integrator uses the normal (0, 1) for angle 0.
- State.ContactToAd: `UnitVector2::new_normalize` is the identity on the normal, which the model assumes is a unit vector. `UnitVector2` is the predicate `LinAlg.IsUnit`, required where a lemma needs it.
- Air.Accel, Ground.Accel, Dynamics.TotalAccel and State.ForceToAccel require a non-zero mass. f64 division by zero gives infinities that real numbers have no counterpart for.
- Integrate.RunToTarget, Integrate.StepToT and Integrate.StepToTOnFlatGround require a positive step, or a start already at the target. The source loops forever otherwise.
- Objective.Call requires every scale of `ResidTransScaledL2` to be non-zero, for the same division-by-zero reason.
- Integrate.StepToT: the source's `Option` result is never `None`, because `step_state` always returns `Some`. The model proves this rather than carrying an unused failure path.
- SubProblems.New: the RNG behind `Arc<Mutex<..>>` is represented only by its seed. The mutex-poisoning panic is not modelled.
- EquationSystem.SolveBlock: the `EqSysError` variants other than the size mismatch are not told apart. Solver failures are whatever the `solve` parameter returns.
- ArgminImpls.GradientExists, ArgminImpls.JacobianExists, SubProblems.NewIsShaped, EquationSystem.CascadeDerivativesExist and EquationSystem.PlanNeedsSquareSystem assume that the derivative parameter has the shape forward AD gives: one row per objective output and one column per input (`SubProblems.DifferentiatesShaped`, `EquationSystem.RawShaped`). The types alone do not rule out another shape, and the members that use the derivative keep their error path for it.
