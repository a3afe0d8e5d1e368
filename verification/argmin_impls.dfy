/** The argmin problem interface of a sub-problem: operator, cost, gradient,
    Jacobian and the simulated-annealing neighbour proposal. Every entry
    point first rejects a parameter vector whose length is not the block's
    number of unknowns. */
module ArgminImpls {
  import opened Wrappers
  import opened LinAlg
  import opened SolutionPlan
  import opened Residuals
  import opened Transformation
  import opened Aggregation
  import opened Objective
  import opened AnnealConfig
  import opened SubProblems

  /** `Operator::apply`: the objective at the scattered full vector. */
  function Apply<G>(s: SubProblem<G>, p: seq<real>): (r: Result<seq<real>>)
    requires TransDefined(s.engine.objective.trans)
    ensures (r.Err? && r.error.ArgminError?) <==> |p| != |s.block.unknownIdxs|
    ensures |p| == |s.block.unknownIdxs| ==>
              (r.Ok? <==> AllBelow(s.block.unknownIdxs, NumUnknowns(s)) && s.engine.objective.n == NumUnknowns(s))
    ensures r.Ok? ==> Scatter(s, p).Ok? && Call(s.engine.objective, Scatter(s, p).value) == r
  {
    if |p| != |s.block.unknownIdxs| then
      Err(ArgminError("Parameter vector length for subproblem cost function did not match number subproblem unknowns"))
    else
      var full :- Scatter(s, p);
      Call(s.engine.objective, full)
  }

  /** `CostFunction::cost`: element 0 of the operator's output; an empty
      output would panic on the index. Implemented for scalar aggregators
      only. */
  function Cost<G>(s: SubProblem<G>, p: seq<real>): (r: Result<real>)
    requires s.aggregator.ToScalar?
    requires TransDefined(s.engine.objective.trans)
    ensures r.Ok? <==> Apply(s, p).Ok? && |Apply(s, p).value| > 0
    ensures r.Ok? ==> r.value == Apply(s, p).value[0]
    ensures Apply(s, p).Err? ==> r == Err(Apply(s, p).error)
  {
    var out :- Apply(s, p);
    if |out| == 0 then Err(Panic("index out of bounds: the operator returned no outputs"))
    else Ok(out[0])
  }

  /** For a sub-problem posed as the solver builds it for L-BFGS and
      annealing (unscaled L2 over the residuals, summed), every
      well-sized parameter vector has a cost, the cost is never negative,
      and it is zero exactly when every residual function of the block
      vanishes at the scattered point. */
  lemma CostIsSumOfSquares<G>(s: SubProblem<G>, p: seq<real>)
    requires s.aggregator.ToScalar?
    requires s.engine.objective.trans.ResidTransUnscaledL2?
    requires s.engine.objective.trans.n >= |s.engine.objective.fns|
    requires s.engine.objective.agg == ToScalar(ResidAggSum)
    requires s.engine.objective.n == NumUnknowns(s)
    requires AllBelow(s.block.unknownIdxs, NumUnknowns(s))
    requires |p| == |s.block.unknownIdxs|
    ensures Cost(s, p).Ok?
    ensures Cost(s, p).value >= 0.0
    ensures var obj := s.engine.objective;
            var at := ModelInputs(obj, Scatter(s, p).value);
            Cost(s, p).value == 0.0 <==> forall i | 0 <= i < |obj.fns| :: obj.fns[i](obj.givens, at) == 0.0
  {
    L2SumIsZeroExactlyAtRoots(s.engine.objective, Scatter(s, p).value);
  }

  /** `Gradient::gradient`: the single row of the derivative restricted to
      the block's columns; a derivative with any other number of rows is an
      error. Implemented for scalar aggregators only. */
  function Gradient<G>(s: SubProblem<G>, p: seq<real>): (r: Result<seq<real>>)
    requires s.aggregator.ToScalar?
    ensures |p| != |s.block.unknownIdxs| ==> r.Err? && r.error.ArgminError?
    ensures r.Ok? ==>
              && Scatter(s, p).Ok?
              && var d := s.engine.derivative(Scatter(s, p).value);
              && d.rows == 1
              && |r.value| == |s.block.unknownIdxs|
              && forall j | 0 <= j < |r.value| ::
                   s.block.unknownIdxs[j] < d.cols && r.value[j] == At(d, 0, s.block.unknownIdxs[j])
    ensures Scatter(s, p).Ok? ==>
              var d := s.engine.derivative(Scatter(s, p).value);
              (r.Ok? <==> d.rows == 1 && AllBelow(s.block.unknownIdxs, d.cols))
  {
    if |p| != |s.block.unknownIdxs| then
      Err(ArgminError("Parameter vector length for subproblem gradient function did not match number subproblem unknowns"))
    else
      var full :- Scatter(s, p);
      var g :- SelectJacobian(s, s.engine.derivative(full));
      if g.rows != 1 then
        Err(ArgminError("Expected gradient to have 1 row (scalar function output)"))
      else
        Ok(g.data[0])
  }

  /** `Jacobian::jacobian`: the derivative restricted to the block's
      columns. Implemented for the Gauss-Newton pass-through only. */
  function Jacobian<G>(s: SubProblem<G>, p: seq<real>): (r: Result<Matrix<real>>)
    requires s.aggregator.ResidNoOpGaussNewton?
    ensures |p| != |s.block.unknownIdxs| ==> r.Err? && r.error.ArgminError?
    ensures |p| == |s.block.unknownIdxs| ==>
              (r.Ok? <==> Scatter(s, p).Ok? && SelectJacobian(s, s.engine.derivative(Scatter(s, p).value)).Ok?)
    ensures r.Ok? ==> SelectsColumns(r.value, s.engine.derivative(Scatter(s, p).value), s.block.unknownIdxs)
  {
    if |p| != |s.block.unknownIdxs| then
      Err(ArgminError("Parameter vector length for subproblem jacobian function did not match number subproblem unknowns"))
    else
      var full :- Scatter(s, p);
      SelectJacobian(s, s.engine.derivative(full))
  }

  /** With a derivative of the declared shape, the gradient of a scalar
      sub-problem exists at every well-sized parameter vector: the single
      row restricted to the block's columns, one entry per block unknown. */
  lemma GradientExists<G>(s: SubProblem<G>, p: seq<real>)
    requires s.aggregator.ToScalar? && s.engine.objective.agg.ToScalar?
    requires Shaped(s.engine) && s.engine.objective.n == NumUnknowns(s)
    requires AllBelow(s.block.unknownIdxs, NumUnknowns(s))
    requires |p| == |s.block.unknownIdxs|
    ensures Gradient(s, p).Ok?
    ensures |Gradient(s, p).value| == |p|
  {
    var full := Scatter(s, p).value;
    assert |full| == s.engine.objective.n;
    var d := s.engine.derivative(full);
    assert d.rows == 1 && d.cols == NumUnknowns(s);
  }

  /** With a derivative of the declared shape, the Jacobian of a
      pass-through sub-problem exists at every well-sized parameter vector:
      one row per declared output, one column per block unknown. */
  lemma JacobianExists<G>(s: SubProblem<G>, p: seq<real>)
    requires s.aggregator.ResidNoOpGaussNewton?
    requires Shaped(s.engine) && s.engine.objective.n == NumUnknowns(s)
    requires AllBelow(s.block.unknownIdxs, NumUnknowns(s))
    requires |p| == |s.block.unknownIdxs|
    ensures Jacobian(s, p).Ok?
    ensures Jacobian(s, p).value.rows == Objective.NumOutputs(s.engine.objective)
    ensures Jacobian(s, p).value.cols == |p|
  {
    var full := Scatter(s, p).value;
    assert |full| == s.engine.objective.n;
    var d := s.engine.derivative(full);
    assert d.rows == Objective.NumOutputs(s.engine.objective) && d.cols == NumUnknowns(s);
  }

  /** `f64::clamp`; an inverted range panics in the source, so callers
      check `lo <= hi` first. */
  function Clamp(x: real, lo: real, hi: real): (c: real)
    requires lo <= hi
    ensures lo <= c <= hi
    ensures lo <= x <= hi ==> c == x
    ensures x < lo ==> c == lo
    ensures x > hi ==> c == hi
  {
    if x < lo then lo else if x > hi then hi else x
  }

  /** The temperature as a fraction of the initial temperature. */
  function Tau(cfg: SimulatedAnnealingConfig, temp: real): (tau: real)
    ensures 0.0 <= tau <= 1.0
    ensures cfg.initTemp <= 0.0 ==> tau == 0.0
    ensures cfg.initTemp > 0.0 && 0.0 <= temp <= cfg.initTemp ==> tau * cfg.initTemp == temp
    ensures cfg.initTemp > 0.0 && temp >= cfg.initTemp ==> tau == 1.0
    ensures cfg.initTemp > 0.0 && temp <= 0.0 ==> tau == 0.0
  {
    if cfg.initTemp > 0.0 then Clamp(temp / cfg.initTemp, 0.0, 1.0) else 0.0
  }

  /** `lerp(lo, hi, t)`. */
  function Lerp(lo: real, hi: real, t: real): real {
    lo + (hi - lo) * t
  }

  /** For `t` in [0, 1] the interpolation stays between its ends, and it
      meets them at 0 and 1. */
  lemma LerpBetween(lo: real, hi: real, t: real)
    requires lo <= hi && 0.0 <= t <= 1.0
    ensures lo <= Lerp(lo, hi, t) <= hi
    ensures t == 0.0 ==> Lerp(lo, hi, t) == lo
    ensures t == 1.0 ==> Lerp(lo, hi, t) == hi
  {
    var d := hi - lo;
    assert d * t >= 0.0;
    assert d * t <= d * 1.0 by {
      assert d * (1.0 - t) >= 0.0;
    }
  }

  function SmallStep(cfg: SimulatedAnnealingConfig, tau: real): real {
    Lerp(cfg.smallStepMin, cfg.smallStepInit, tau)
  }

  function BigStep(cfg: SimulatedAnnealingConfig, tau: real): real {
    Lerp(cfg.bigStepMin, cfg.bigStepInit, tau)
  }

  /** The probability of a big jump, clamped to [0, 1]. */
  function PBig(cfg: SimulatedAnnealingConfig, tau: real): (pb: real)
    ensures 0.0 <= pb <= 1.0
  {
    Clamp(Lerp(cfg.pBigMin, cfg.pBigInit, tau), 0.0, 1.0)
  }

  /** The step sizes of a configuration whose minima lie below their
      initial values stay between the two at any temperature, and the big
      jump probability is a probability between its ends when those are. */
  lemma ScheduleBetweenEnds(cfg: SimulatedAnnealingConfig, temp: real)
    requires cfg.smallStepMin <= cfg.smallStepInit
    requires cfg.bigStepMin <= cfg.bigStepInit
    requires 0.0 <= cfg.pBigMin <= cfg.pBigInit <= 1.0
    ensures var tau := Tau(cfg, temp);
            && cfg.smallStepMin <= SmallStep(cfg, tau) <= cfg.smallStepInit
            && cfg.bigStepMin <= BigStep(cfg, tau) <= cfg.bigStepInit
            && cfg.pBigMin <= PBig(cfg, tau) <= cfg.pBigInit
  {
    var tau := Tau(cfg, temp);
    LerpBetween(cfg.smallStepMin, cfg.smallStepInit, tau);
    LerpBetween(cfg.bigStepMin, cfg.bigStepInit, tau);
    LerpBetween(cfg.pBigMin, cfg.pBigInit, tau);
  }

  /** The random draws of one proposal: the coordinate, whether to take a
      big jump, the standard Cauchy sample and the uniform sample. */
  datatype AnnealDraw = AnnealDraw(idx: nat, big: bool, cauchy: real, uniform: real)

  /** What the RNG can return: a coordinate in range, a Bernoulli outcome
      that a probability of 0 or 1 forces, and a uniform sample in the
      half-open window `[-small, small)`. */
  predicate DrawFits(d: AnnealDraw, n: nat, pBig: real, small: real) {
    && (n > 0 ==> d.idx < n)
    && (pBig == 0.0 ==> !d.big)
    && (pBig == 1.0 ==> d.big)
    && (!d.big && small > 0.0 ==> -small <= d.uniform < small)
  }

  /** The proposed change before the safety clamp. */
  function RawDelta(cfg: SimulatedAnnealingConfig, tau: real, d: AnnealDraw): real {
    if d.big then BigStep(cfg, tau) * d.cauchy else d.uniform
  }

  /** `Anneal::anneal`: changes one coordinate by a temperature-scaled step.
      Sampling a coordinate of an empty vector, a uniform step from an empty
      window and a clamp to an inverted range all panic in the source. */
  function Anneal<G>(s: SubProblem<G>, p: seq<real>, temp: real, d: AnnealDraw): (r: Result<seq<real>>)
    requires s.saCfg.Some? ==>
               var tau := Tau(s.saCfg.value, temp);
               DrawFits(d, |p|, PBig(s.saCfg.value, tau), SmallStep(s.saCfg.value, tau))
    ensures |p| != |s.block.unknownIdxs| ==> r.Err? && r.error.ArgminError?
    ensures |p| == |s.block.unknownIdxs| && s.saCfg.None? ==> r.Err? && r.error.Panic?
    ensures r.Ok? <==>
              && |p| == |s.block.unknownIdxs|
              && s.saCfg.Some?
              && |p| > 0
              && (d.big || SmallStep(s.saCfg.value, Tau(s.saCfg.value, temp)) > 0.0)
              && s.saCfg.value.maxAbsStep >= 0.0
    ensures r.Ok? ==>
              && |r.value| == |p|
              && d.idx < |p|
              && (forall j | 0 <= j < |p| && j != d.idx :: r.value[j] == p[j])
              && -s.saCfg.value.maxAbsStep <= r.value[d.idx] - p[d.idx] <= s.saCfg.value.maxAbsStep
  {
    if |p| != |s.block.unknownIdxs| then
      Err(ArgminError("Parameter vector length for subproblem anneal function did not match number subproblem unknowns"))
    else if s.saCfg.None? then
      Err(Panic("Simulated annealing config (sa_cfg) not set on annealing SubProblem"))
    else
      var cfg := s.saCfg.value;
      var tau := Tau(cfg, temp);
      if |p| == 0 then
        Err(Panic("cannot sample empty range"))
      else if !d.big && !(SmallStep(cfg, tau) > 0.0) then
        Err(Panic("cannot sample empty range"))
      else if cfg.maxAbsStep < 0.0 then
        Err(Panic("clamp: min > max"))
      else
        var delta := Clamp(RawDelta(cfg, tau, d), -cfg.maxAbsStep, cfg.maxAbsStep);
        Ok(p[d.idx := p[d.idx] + delta])
  }

  /** A proposal moves the chosen coordinate by the clamped raw step; a
      local (non-jump) move stays strictly inside the uniform window, so it
      shrinks with the temperature. */
  lemma AnnealMovesByClampedStep<G>(s: SubProblem<G>, p: seq<real>, temp: real, d: AnnealDraw)
    requires s.saCfg.Some?
    requires var tau := Tau(s.saCfg.value, temp);
             DrawFits(d, |p|, PBig(s.saCfg.value, tau), SmallStep(s.saCfg.value, tau))
    requires Anneal(s, p, temp, d).Ok?
    ensures var cfg := s.saCfg.value;
            var tau := Tau(cfg, temp);
            Anneal(s, p, temp, d).value[d.idx] - p[d.idx] ==
              Clamp(RawDelta(cfg, tau, d), -cfg.maxAbsStep, cfg.maxAbsStep)
    ensures !d.big ==>
              var step := SmallStep(s.saCfg.value, Tau(s.saCfg.value, temp));
              -step <= Anneal(s, p, temp, d).value[d.idx] - p[d.idx] < step
  {
  }
}
