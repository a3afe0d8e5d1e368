/** `EquationSystemBuilder`: collects the raw residual functions, derives a
    block-triangular solution plan from the Jacobian's non-zero pattern, and
    solves the plan block by block (Gauss-Newton, then simulated annealing
    with a Gauss-Newton refinement), finishing with L-BFGS over the whole
    problem. */
module EquationSystem {
  import opened Wrappers
  import opened LinAlg
  import opened SolutionPlan
  import opened Residuals
  import opened Transformation
  import opened Aggregation
  import opened Objective
  import opened AnnealConfig
  import opened SubProblems
  import opened ArgminImpls

  /** An f64 as the pattern classification sees it: finite, or not (an
      infinity or NaN). */
  datatype Num = Fin(x: real) | NonFinite

  /** The builder in its initial state. The raw engine evaluates every raw
      residual function unchanged; its derivative is the automatic
      differentiation, opaque to this model and given as a function. */
  datatype Builder<!G> = Builder(
    givens: G,
    rawFns: ResidualFns<(G, seq<real>) -> real, (G, seq<real>) -> real>,
    rawEngine: ObjectiveFunction<G>,
    rawDerivative: seq<real> -> Matrix<Num>,
    unknownNames: seq<string>)

  /** `EquationSystemBuilder::new` for `n` unknowns: never fails. */
  function New<G>(
    givens: G,
    rawFns: ResidualFns<(G, seq<real>) -> real, (G, seq<real>) -> real>,
    unknownNames: seq<string>,
    n: nat,
    rawDerivative: seq<real> -> Matrix<Num>
  ): (r: Result<Builder<G>>)
    ensures r.Ok?
    ensures r.value.rawFns == rawFns && r.value.givens == givens && r.value.unknownNames == unknownNames
    ensures r.value.rawEngine.trans == ResidTransIdentity(|rawFns.f64|)
    ensures r.value.rawEngine.agg == NoOpForFullprob(|rawFns.f64|)
    ensures r.value.rawEngine.fns == rawFns.f64 && r.value.rawEngine.givens == givens
    ensures r.value.rawEngine.scaling.None? && r.value.rawEngine.n == n
  {
    var numEqs := |rawFns.f64|;
    var engine := ObjectiveFunction(givens, rawFns.f64, ResidTransIdentity(numEqs), NoOpForFullprob(numEqs), None, n);
    Ok(Builder(givens, rawFns, engine, rawDerivative, unknownNames))
  }

  /** The raw engine of a new builder returns the raw residuals themselves,
      one per function, in list order, and declares one output each. */
  lemma RawEngineReturnsRawResiduals<G>(
    givens: G,
    rawFns: ResidualFns<(G, seq<real>) -> real, (G, seq<real>) -> real>,
    unknownNames: seq<string>,
    unknowns: seq<real>,
    rawDerivative: seq<real> -> Matrix<Num>)
    ensures var b := New(givens, rawFns, unknownNames, |unknowns|, rawDerivative).value;
            && Call(b.rawEngine, unknowns).Ok?
            && |Call(b.rawEngine, unknowns).value| == Objective.NumOutputs(b.rawEngine) == |rawFns.f64|
            && forall i | 0 <= i < |rawFns.f64| :: Call(b.rawEngine, unknowns).value[i] == rawFns.f64[i](givens, unknowns)
  {
    var b := New(givens, rawFns, unknownNames, |unknowns|, rawDerivative).value;
    IdentityPassThroughReturnsResiduals(b.rawEngine, unknowns);
  }

  /** One entry of `to_binary_matrix`: NaN for a non-finite value, 1 for a
      non-zero one, 0 for zero. */
  function Classify(x: Num): (c: Num)
  {
    match x
    case NonFinite => NonFinite
    case Fin(v) => if v != 0.0 then Fin(1.0) else Fin(0.0)
  }

  /** `to_binary_matrix`: the same shape, entry by entry classified. */
  function ToBinaryMatrix(m: Matrix<Num>): (b: Matrix<Num>)
    ensures b.rows == m.rows && b.cols == m.cols
    ensures forall i, j | 0 <= i < m.rows && 0 <= j < m.cols :: At(b, i, j) == Classify(At(m, i, j))
  {
    var data := seq(m.rows, i requires 0 <= i < m.rows =>
                      seq(m.cols, j requires 0 <= j < m.cols => Classify(m.data[i][j])));
    var b: Matrix<Num> := RawMatrix(m.rows, m.cols, data);
    b
  }

  /** The pattern keeps exactly the zeros and the non-finite entries where
      they were, marks every other entry 1, and classifying a pattern again
      changes nothing. */
  lemma BinaryPatternKeepsZeros(m: Matrix<Num>)
    ensures var b := ToBinaryMatrix(m);
            forall i, j | 0 <= i < m.rows && 0 <= j < m.cols ::
              && (At(b, i, j) == Fin(0.0) <==> At(m, i, j) == Fin(0.0))
              && (At(b, i, j).NonFinite? <==> At(m, i, j).NonFinite?)
              && (At(b, i, j) == Fin(1.0) <==> At(m, i, j).Fin? && At(m, i, j).x != 0.0)
    ensures ToBinaryMatrix(ToBinaryMatrix(m)) == ToBinaryMatrix(m)
  {
    var b := ToBinaryMatrix(m);
    var bb := ToBinaryMatrix(b);
    forall i | 0 <= i < m.rows ensures bb.data[i] == b.data[i] {
      forall j | 0 <= j < m.cols ensures bb.data[i][j] == b.data[i][j] {
        assert At(bb, i, j) == Classify(At(b, i, j));
      }
    }
  }

  /** The builder once a solution plan exists. */
  datatype Planned<!G> = Planned(builder: Builder<G>, binary: Matrix<Num>, plan: SolutionPlan)

  /** `with_triangularization`: the Jacobian at the initial unknowns must be
      square; its non-zero pattern goes to the block-triangular
      decomposition (`blockIndices`, the row and column index lists of each
      block, from a crate outside this model), and block `k` of the plan is
      numbered `k`. */
  function WithTriangularization<G>(
    b: Builder<G>,
    initialUnknowns: seq<real>,
    blockIndices: Matrix<Num> -> seq<(seq<nat>, seq<nat>)>
  ): (r: Result<Planned<G>>)
    ensures var jac := b.rawDerivative(initialUnknowns);
            (r.Err? <==> jac.rows != jac.cols)
            && (r.Err? ==> r.error == NumEquationsNumUnknownsMismatch(jac.rows, jac.cols))
    ensures r.Ok? ==>
              var bin := ToBinaryMatrix(b.rawDerivative(initialUnknowns));
              var bi := blockIndices(bin);
              && r.value.builder == b
              && r.value.binary == bin
              && |r.value.plan.blocks| == |bi|
              && forall k | 0 <= k < |bi| ::
                   r.value.plan.blocks[k] == SolutionBlock(k, bi[k].0, bi[k].1)
  {
    var jac := b.rawDerivative(initialUnknowns);
    if jac.rows != jac.cols then
      Err(NumEquationsNumUnknownsMismatch(jac.rows, jac.cols))
    else
      var bin := ToBinaryMatrix(jac);
      var bi := blockIndices(bin);
      var blocks := seq(|bi|, k requires 0 <= k < |bi| => SolutionBlock(k, bi[k].0, bi[k].1));
      Ok(Planned(b, bin, SolutionPlan(blocks)))
  }

  /** The raw Jacobian has the raw engine's shape: one row per raw
      residual function, one column per unknown. */
  ghost predicate RawShaped<G>(b: Builder<G>) {
    HasShape(b.rawDerivative, b.rawEngine.n, |b.rawFns.f64|)
  }

  /** With a raw Jacobian of that shape, the plan can be built exactly when
      there are as many residual functions as unknowns; otherwise the error
      carries the two counts. */
  lemma PlanNeedsSquareSystem<G>(b: Builder<G>, initialUnknowns: seq<real>,
                                 blockIndices: Matrix<Num> -> seq<(seq<nat>, seq<nat>)>)
    requires RawShaped(b) && |initialUnknowns| == b.rawEngine.n
    ensures WithTriangularization(b, initialUnknowns, blockIndices).Ok? <==> |b.rawFns.f64| == b.rawEngine.n
    ensures WithTriangularization(b, initialUnknowns, blockIndices).Err? ==>
              WithTriangularization(b, initialUnknowns, blockIndices).error
              == NumEquationsNumUnknownsMismatch(|b.rawFns.f64|, b.rawEngine.n)
  {
    var jac := b.rawDerivative(initialUnknowns);
    assert jac.rows == |b.rawFns.f64| && jac.cols == b.rawEngine.n;
  }

  /** The three optimisers of the cascade. */
  datatype SolverKind = GaussNewton | Annealing | Lbfgs

  /** The sub-problem `solve_sub_problem_*` builds for one optimiser: the
      unscaled L2 transform sized to all raw residual functions, scaling on,
      the pass-through aggregator for Gauss-Newton and the sum otherwise,
      and the default annealing configuration for annealing. `links` and `ad`
      are as in `SubProblems.New`. */
  function SubProblemFor<G>(
    sys: Planned<G>,
    kind: SolverKind,
    block: SolutionBlock,
    unknowns: seq<real>,
    links: seq<real> -> ParamScaler,
    ad: ObjectiveFunction<G> -> (seq<real> -> Matrix<real>)
  ): (r: Result<SubProblem<G>>)
    ensures r.Ok? <==> AllBelow(block.equationIdxs, |sys.builder.rawFns.fnNames|)
    ensures r.Ok? ==>
              && r.value.block == block
              && r.value.initialUnknowns == unknowns
              && r.value.paramScaler == Some(links(unknowns))
              && r.value.engine.objective.trans == ResidTransUnscaledL2(|sys.builder.rawFns.f64|)
              && r.value.aggregator == r.value.engine.objective.agg
              && (kind == GaussNewton <==> r.value.aggregator == NoOpForSubprob(block))
              && (kind != GaussNewton <==> r.value.aggregator == ToScalar(ResidAggSum))
              && (kind == Annealing <==> r.value.saCfg == Some(Default()))
              && (kind != Annealing <==> r.value.saCfg.None?)
  {
    var raw := sys.builder.rawFns;
    var agg := if kind == GaussNewton then NoOpForSubprob(block) else ToScalar(ResidAggSum);
    var sub :- SubProblems.New(raw, block, sys.builder.givens, unknowns,
                               ResidTransUnscaledL2(|raw.f64|), agg, true, links(unknowns), ad);
    if kind == Annealing then Ok(WithSaConfig(sub, Default())) else Ok(sub)
  }

  /** The annealing and L-BFGS sub-problems minimise a sum of squares: at
      every well-sized parameter vector the cost exists, is never negative,
      and is zero exactly at a root of every residual function of the
      block. */
  lemma ScalarSubProblemsMinimiseSquares<G>(
    sys: Planned<G>,
    kind: SolverKind,
    block: SolutionBlock,
    unknowns: seq<real>,
    links: seq<real> -> ParamScaler,
    ad: ObjectiveFunction<G> -> (seq<real> -> Matrix<real>),
    p: seq<real>)
    requires kind != GaussNewton
    requires SubProblemFor(sys, kind, block, unknowns, links, ad).Ok?
    requires AllBelow(block.unknownIdxs, |unknowns|)
    requires |p| == |block.unknownIdxs|
    ensures var s := SubProblemFor(sys, kind, block, unknowns, links, ad).value;
            && Cost(s, p).Ok?
            && Cost(s, p).value >= 0.0
            && (Cost(s, p).value == 0.0 <==>
                  var at := ModelInputs(s.engine.objective, Scatter(s, p).value);
                  forall i | 0 <= i < |s.engine.objective.fns| ::
                    s.engine.objective.fns[i](s.engine.objective.givens, at) == 0.0)
  {
    var s := SubProblemFor(sys, kind, block, unknowns, links, ad).value;
    FilterNeverLengthens(sys.builder.rawFns.f64, block);
    CostIsSumOfSquares(s, p);
  }

  /** With differentiation of the declared shape, the derivative every
      optimiser of the cascade asks for exists at every well-sized parameter
      vector: the gradient for annealing and L-BFGS, and for Gauss-Newton a
      Jacobian with one row per equation of the block and one column per
      unknown of the block. */
  lemma CascadeDerivativesExist<G(!new)>(
    sys: Planned<G>,
    kind: SolverKind,
    block: SolutionBlock,
    unknowns: seq<real>,
    links: seq<real> -> ParamScaler,
    ad: ObjectiveFunction<G> -> (seq<real> -> Matrix<real>),
    p: seq<real>)
    requires DifferentiatesShaped(ad)
    requires SubProblemFor(sys, kind, block, unknowns, links, ad).Ok?
    requires AllBelow(block.unknownIdxs, |unknowns|)
    requires |p| == |block.unknownIdxs|
    ensures var s := SubProblemFor(sys, kind, block, unknowns, links, ad).value;
            kind != GaussNewton ==> Gradient(s, p).Ok? && |Gradient(s, p).value| == |p|
    ensures var s := SubProblemFor(sys, kind, block, unknowns, links, ad).value;
            kind == GaussNewton ==>
              && Jacobian(s, p).Ok?
              && Jacobian(s, p).value.rows == |block.equationIdxs|
              && Jacobian(s, p).value.cols == |p|
  {
    var s := SubProblemFor(sys, kind, block, unknowns, links, ad).value;
    var raw := sys.builder.rawFns;
    var agg := if kind == GaussNewton then NoOpForSubprob(block) else ToScalar(ResidAggSum);
    NewIsShaped(raw, block, sys.builder.givens, unknowns, ResidTransUnscaledL2(|raw.f64|), agg, true, links(unknowns), ad);
    assert s.engine == SubProblems.New(raw, block, sys.builder.givens, unknowns,
                                       ResidTransUnscaledL2(|raw.f64|), agg, true, links(unknowns), ad).value.engine;
    if kind == GaussNewton {
      JacobianExists(s, p);
    } else {
      GradientExists(s, p);
    }
  }

  /** One optimiser run, as the cascade sees it: which optimiser, on which
      block, from which unknowns. */
  datatype SolverCall = SolverCall(kind: SolverKind, block: SolutionBlock, start: seq<real>)

  /** What a stretch of the cascade returns, with the runs it made in
      order. */
  datatype Outcome = Outcome(result: Result<seq<real>>, calls: seq<SolverCall>)

  /** An optimiser run that `solve_system` can recover from: one that
      returns an error. A panic inside the run is not returned at all; it
      unwinds the whole solve. */
  predicate Returned(r: Result<seq<real>>) {
    r.Err? && !r.error.Panic?
  }

  /** One block of `solve_system`: Gauss-Newton; if it returns an error,
      simulated annealing, whose error ends the solve; on success a
      Gauss-Newton refinement from the annealing result, whose failure
      panics. A panic in the first Gauss-Newton run ends the solve there.
      The optimiser runs (`solve_sub_problem_*`) are the parameter
      `solve`. */
  function SolveBlock(solve: (SolverKind, SolutionBlock, seq<real>) -> Result<seq<real>>,
                      block: SolutionBlock, current: seq<real>): (o: Outcome)
    ensures 1 <= |o.calls| <= 3
    ensures o.calls[0] == SolverCall(GaussNewton, block, current)
    ensures !Returned(solve(GaussNewton, block, current)) ==>
              o == Outcome(solve(GaussNewton, block, current), [SolverCall(GaussNewton, block, current)])
    ensures Returned(solve(GaussNewton, block, current)) ==>
              |o.calls| >= 2 && o.calls[1] == SolverCall(Annealing, block, current)
    ensures Returned(solve(GaussNewton, block, current)) && solve(Annealing, block, current).Err? ==>
              o.result == solve(Annealing, block, current) && |o.calls| == 2
    ensures Returned(solve(GaussNewton, block, current)) && solve(Annealing, block, current).Ok? ==>
              var y := solve(Annealing, block, current).value;
              && |o.calls| == 3
              && o.calls[2] == SolverCall(GaussNewton, block, y)
              && (solve(GaussNewton, block, y).Ok? ==> o.result == solve(GaussNewton, block, y))
              && (solve(GaussNewton, block, y).Err? ==> o.result.Err? && o.result.error.Panic?)
  {
    var gnCall := SolverCall(GaussNewton, block, current);
    var gn := solve(GaussNewton, block, current);
    if !Returned(gn) then Outcome(gn, [gnCall])
    else
      var saCall := SolverCall(Annealing, block, current);
      var sa := solve(Annealing, block, current);
      if sa.Err? then Outcome(sa, [gnCall, saCall])
      else
        var refineCall := SolverCall(GaussNewton, block, sa.value);
        var refined := solve(GaussNewton, block, sa.value);
        if refined.Ok? then Outcome(refined, [gnCall, saCall, refineCall])
        else Outcome(Err(Panic("Gauss-Newton refinement after SA also failed")), [gnCall, saCall, refineCall])
  }

  /** Annealing runs only after Gauss-Newton returned an error: a panic in
      Gauss-Newton is the block's result, with no other run. */
  lemma AnnealingOnlyAfterReturnedError(solve: (SolverKind, SolutionBlock, seq<real>) -> Result<seq<real>>,
                                        block: SolutionBlock, current: seq<real>)
    ensures var o := SolveBlock(solve, block, current);
            (exists c :: c in o.calls && c.kind == Annealing) <==> Returned(solve(GaussNewton, block, current))
    ensures var gn := solve(GaussNewton, block, current);
            gn.Err? && gn.error.Panic? ==> SolveBlock(solve, block, current) == Outcome(gn, [SolverCall(GaussNewton, block, current)])
  {
    var o := SolveBlock(solve, block, current);
    if Returned(solve(GaussNewton, block, current)) {
      assert o.calls[1] in o.calls;
    } else {
      assert forall c | c in o.calls :: c == o.calls[0];
    }
  }

  /** Every unknowns vector a block accepts is the result of its last
      optimiser run, and that run is a Gauss-Newton run on the block. */
  lemma BlockResultComesFromGaussNewton(solve: (SolverKind, SolutionBlock, seq<real>) -> Result<seq<real>>,
                                        block: SolutionBlock, current: seq<real>)
    ensures var o := SolveBlock(solve, block, current);
            var last := o.calls[|o.calls| - 1];
            o.result.Ok? ==>
              && last.kind == GaussNewton && last.block == block
              && solve(last.kind, last.block, last.start) == o.result
  {
  }

  /** The blocks in plan order, each starting from the previous block's
      result; the first failure ends the walk. */
  function SolveBlocks(solve: (SolverKind, SolutionBlock, seq<real>) -> Result<seq<real>>,
                       blocks: seq<SolutionBlock>, current: seq<real>): (o: Outcome)
    ensures |blocks| == 0 ==> o == Outcome(Ok(current), [])
    ensures |blocks| > 0 ==> |o.calls| >= 1 && o.calls[0] == SolverCall(GaussNewton, blocks[0], current)
    decreases |blocks|
  {
    if |blocks| == 0 then Outcome(Ok(current), [])
    else
      var first := SolveBlock(solve, blocks[0], current);
      if first.result.Err? then first
      else
        var rest := SolveBlocks(solve, blocks[1..], first.result.value);
        Outcome(rest.result, first.calls + rest.calls)
  }

  /** The walk runs only the plan's blocks, and never L-BFGS. */
  lemma {:induction false} SolveBlocksStaysInPlan(solve: (SolverKind, SolutionBlock, seq<real>) -> Result<seq<real>>,
                                                  blocks: seq<SolutionBlock>, current: seq<real>)
    ensures forall c | c in SolveBlocks(solve, blocks, current).calls :: c.kind != Lbfgs && c.block in blocks
    decreases |blocks|
  {
    if |blocks| > 0 {
      var first := SolveBlock(solve, blocks[0], current);
      assert forall c | c in first.calls :: c.kind != Lbfgs && c.block == blocks[0];
      if first.result.Ok? {
        SolveBlocksStaysInPlan(solve, blocks[1..], first.result.value);
        assert forall b | b in blocks[1..] :: b in blocks;
      }
    }
  }

  /** Walking a plan is walking its first `k` blocks and then, unless that
      failed, the remaining blocks from where the first part ended: blocks
      are visited strictly in order, and nothing after a failing block
      runs. */
  lemma {:induction false} SolveBlocksSplits(solve: (SolverKind, SolutionBlock, seq<real>) -> Result<seq<real>>,
                                             blocks: seq<SolutionBlock>, current: seq<real>, k: nat)
    requires k <= |blocks|
    ensures var whole := SolveBlocks(solve, blocks, current);
            var front := SolveBlocks(solve, blocks[..k], current);
            && (front.result.Err? ==> whole == front)
            && (front.result.Ok? ==>
                  var back := SolveBlocks(solve, blocks[k..], front.result.value);
                  whole == Outcome(back.result, front.calls + back.calls))
    decreases k, 1
  {
    if k == 0 {
      assert blocks[k..] == blocks;
    } else if SolveBlock(solve, blocks[0], current).result.Ok? {
      SolveBlocksSplitsAfterFirst(solve, blocks, current, k);
    } else {
      assert blocks[..k][0] == blocks[0];
    }
  }

  /** The step of `SolveBlocksSplits` when the first block succeeds. */
  lemma {:induction false} SolveBlocksSplitsAfterFirst(solve: (SolverKind, SolutionBlock, seq<real>) -> Result<seq<real>>,
                                                       blocks: seq<SolutionBlock>, current: seq<real>, k: nat)
    requires 0 < k <= |blocks| && SolveBlock(solve, blocks[0], current).result.Ok?
    ensures var whole := SolveBlocks(solve, blocks, current);
            var front := SolveBlocks(solve, blocks[..k], current);
            && (front.result.Err? ==> whole == front)
            && (front.result.Ok? ==>
                  var back := SolveBlocks(solve, blocks[k..], front.result.value);
                  whole == Outcome(back.result, front.calls + back.calls))
    decreases k, 0
  {
    var first := SolveBlock(solve, blocks[0], current);
    var prefix := blocks[..k];
    assert prefix[0] == blocks[0];
    assert prefix[1..] == blocks[1..][..k - 1];
    var y := first.result.value;
    var rest := SolveBlocks(solve, blocks[1..], y);
    var frest := SolveBlocks(solve, blocks[1..][..k - 1], y);
    assert SolveBlocks(solve, blocks, current) == Outcome(rest.result, first.calls + rest.calls);
    assert SolveBlocks(solve, prefix, current) == Outcome(frest.result, first.calls + frest.calls);
    SolveBlocksSplits(solve, blocks[1..], y, k - 1);
    if frest.result.Ok? {
      assert blocks[1..][k - 1..] == blocks[k..];
      var back := SolveBlocks(solve, blocks[k..], frest.result.value);
      AppendAssoc(first.calls, frest.calls, back.calls);
    }
  }

  lemma AppendAssoc<T>(a: seq<T>, b: seq<T>, c: seq<T>)
    ensures a + (b + c) == (a + b) + c
  {
  }

  /** `solve_system`: the plan's blocks, then L-BFGS on the whole-problem
      block over every raw residual function, from the accumulated
      unknowns. */
  function SolveSystem<G>(sys: Planned<G>, initial: seq<real>,
                          solve: (SolverKind, SolutionBlock, seq<real>) -> Result<seq<real>>): (o: Outcome)
    ensures var walk := SolveBlocks(solve, sys.plan.blocks, initial);
            && (walk.result.Err? ==> o == walk)
            && (walk.result.Ok? ==>
                  var full := NewFullprob(|sys.builder.rawFns.f64|);
                  && o.calls == walk.calls + [SolverCall(Lbfgs, full, walk.result.value)]
                  && o.result == solve(Lbfgs, full, walk.result.value))
  {
    var walk := SolveBlocks(solve, sys.plan.blocks, initial);
    if walk.result.Err? then walk
    else
      var full := NewFullprob(|sys.builder.rawFns.f64|);
      Outcome(solve(Lbfgs, full, walk.result.value), walk.calls + [SolverCall(Lbfgs, full, walk.result.value)])
  }

  /** The final L-BFGS pass runs exactly when every block was solved, as
      the last run, and nothing else is L-BFGS. */
  lemma FinalLbfgsRunsOnlyAfterEveryBlock<G>(sys: Planned<G>, initial: seq<real>,
                                             solve: (SolverKind, SolutionBlock, seq<real>) -> Result<seq<real>>)
    ensures var o := SolveSystem(sys, initial, solve);
            var walk := SolveBlocks(solve, sys.plan.blocks, initial);
            && ((exists c :: c in o.calls && c.kind == Lbfgs) <==> walk.result.Ok?)
            && (walk.result.Ok? ==> o.calls[|o.calls| - 1].kind == Lbfgs)
            && forall i | 0 <= i < |o.calls| - 1 :: o.calls[i].kind != Lbfgs
  {
    var o := SolveSystem(sys, initial, solve);
    var walk := SolveBlocks(solve, sys.plan.blocks, initial);
    SolveBlocksStaysInPlan(solve, sys.plan.blocks, initial);
    if walk.result.Ok? {
      assert o.calls[|o.calls| - 1] in o.calls;
      forall i | 0 <= i < |o.calls| - 1 ensures o.calls[i].kind != Lbfgs {
        assert o.calls[i] == walk.calls[i];
        assert walk.calls[i] in walk.calls;
      }
    } else {
      forall i | 0 <= i < |o.calls| ensures o.calls[i].kind != Lbfgs {
        assert o.calls[i] in walk.calls;
      }
    }
  }

  /** When Gauss-Newton solves every block, annealing never runs: walking
      the plan succeeds with exactly one Gauss-Newton run per block, in plan
      order. */
  lemma {:induction false} GaussNewtonEverywhereSkipsAnnealing(
    solve: (SolverKind, SolutionBlock, seq<real>) -> Result<seq<real>>,
    blocks: seq<SolutionBlock>, current: seq<real>)
    requires forall b, x :: solve(GaussNewton, b, x).Ok?
    ensures var o := SolveBlocks(solve, blocks, current);
            && o.result.Ok?
            && |o.calls| == |blocks|
            && forall i | 0 <= i < |blocks| :: o.calls[i].kind == GaussNewton && o.calls[i].block == blocks[i]
    decreases |blocks|
  {
    if |blocks| > 0 {
      var first := SolveBlock(solve, blocks[0], current);
      GaussNewtonEverywhereSkipsAnnealing(solve, blocks[1..], first.result.value);
    }
  }

  /** A panic inside the first block's Gauss-Newton run ends `solve_system`
      after that one run: no annealing, no later block, no final L-BFGS. */
  lemma GaussNewtonPanicEndsSolve<G>(sys: Planned<G>, initial: seq<real>,
                                     solve: (SolverKind, SolutionBlock, seq<real>) -> Result<seq<real>>)
    requires |sys.plan.blocks| > 0
    requires solve(GaussNewton, sys.plan.blocks[0], initial).Err?
    requires solve(GaussNewton, sys.plan.blocks[0], initial).error.Panic?
    ensures SolveSystem(sys, initial, solve)
            == Outcome(solve(GaussNewton, sys.plan.blocks[0], initial),
                       [SolverCall(GaussNewton, sys.plan.blocks[0], initial)])
  {
  }
}
