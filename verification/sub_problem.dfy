/** `SubProblem`: one solution block posed as an optimisation over the
    block's unknowns only. The optimiser sees a short vector in
    optimisation space; the sub-problem gathers it from, and scatters it
    back into, the full vector of `N` unknowns. */
module SubProblems {
  import opened Wrappers
  import opened LinAlg
  import opened SolutionPlan
  import opened Residuals
  import opened Transformation
  import opened Aggregation
  import opened Objective
  import opened AnnealConfig

  /** The `FunctionEngine`: the objective gives the values; the derivative
      (forward-mode automatic differentiation of the same objective) is
      opaque to this model and given as a function. */
  datatype Engine<!G> = Engine(objective: ObjectiveFunction<G>, derivative: seq<real> -> Matrix<real>)

  /** Forward-mode differentiation yields, for every objective, the
      Jacobian of its declared shape: one row per declared output and one
      column per input. */
  ghost predicate DifferentiatesShaped<G(!new)>(ad: ObjectiveFunction<G> -> (seq<real> -> Matrix<real>)) {
    forall obj: ObjectiveFunction<G> :: HasShape(ad(obj), obj.n, Objective.NumOutputs(obj))
  }

  /** An engine whose derivative has the objective's declared shape. */
  ghost predicate Shaped<G>(e: Engine<G>) {
    HasShape(e.derivative, e.objective.n, Objective.NumOutputs(e.objective))
  }

  /** The fields of `SubProblem`. `initialUnknowns` is the model-space
      unknowns struct as its array of `N` values; `rngSeed` is the seed of the
      annealing RNG, whose draws are inputs of `Anneal` instead. */
  datatype SubProblem<!G> = SubProblem(
    engine: Engine<G>,
    block: SolutionBlock,
    paramScaler: Option<ParamScaler>,
    initialUnknowns: seq<real>,
    aggregator: ResidAgg,
    rngSeed: nat,
    saCfg: Option<SimulatedAnnealingConfig>)

  /** `N`, the number of unknowns of the whole problem. */
  function NumUnknowns<G>(s: SubProblem<G>): nat {
    |s.initialUnknowns|
  }

  /** `SubProblem::new`. `links` stands for the link functions built from the
      initial unknowns as priors, and `ad` for the automatic differentiation
      of an objective. Filtering the residual functions to the block can
      panic (see `FilterResFns`); nothing else can. */
  function New<G>(
    superFns: ResidualFns<(G, seq<real>) -> real, (G, seq<real>) -> real>,
    block: SolutionBlock,
    givens: G,
    initialUnknowns: seq<real>,
    trans: ResidTrans,
    agg: ResidAgg,
    useScaling: bool,
    links: ParamScaler,
    ad: ObjectiveFunction<G> -> (seq<real> -> Matrix<real>)
  ): (r: Result<SubProblem<G>>)
    ensures r.Ok? <==> AllBelow(block.equationIdxs, |superFns.fnNames|)
    ensures r.Err? ==> r.error.Panic?
    ensures r.Ok? ==>
              && r.value.block == block
              && r.value.initialUnknowns == initialUnknowns
              && r.value.aggregator == agg
              && r.value.rngSeed == 0
              && r.value.saCfg.None?
              && (r.value.paramScaler.Some? <==> useScaling)
              && (useScaling ==> r.value.paramScaler == Some(links))
              && r.value.engine.objective.fns == FilterToBlock(superFns.f64, block)
              && r.value.engine.objective.givens == givens
              && r.value.engine.objective.trans == trans
              && r.value.engine.objective.agg == agg
              && r.value.engine.objective.scaling == r.value.paramScaler
              && r.value.engine.objective.n == |initialUnknowns|
  {
    var filtered :- FilterResFns(superFns, block);
    var scaler := if useScaling then Some(links) else None;
    var objective := ObjectiveFunction(givens, filtered.f64, trans, agg, scaler, |initialUnknowns|);
    Ok(SubProblem(Engine(objective, ad(objective)), block, scaler, initialUnknowns, agg, 0, None))
  }

  /** The engine of a new sub-problem differentiates its own objective, so
      it has the objective's shape: one row per declared output of the
      aggregator, one column per unknown of the whole problem. */
  lemma NewIsShaped<G(!new)>(
    superFns: ResidualFns<(G, seq<real>) -> real, (G, seq<real>) -> real>,
    block: SolutionBlock,
    givens: G,
    initialUnknowns: seq<real>,
    trans: ResidTrans,
    agg: ResidAgg,
    useScaling: bool,
    links: ParamScaler,
    ad: ObjectiveFunction<G> -> (seq<real> -> Matrix<real>))
    requires DifferentiatesShaped(ad)
    requires AllBelow(block.equationIdxs, |superFns.fnNames|)
    ensures var s := New(superFns, block, givens, initialUnknowns, trans, agg, useScaling, links, ad).value;
            && Shaped(s.engine)
            && forall p: seq<real> | |p| == |initialUnknowns| ::
                 s.engine.derivative(p).rows == Aggregation.NumOutputs(agg) && s.engine.derivative(p).cols == |initialUnknowns|
  {
    var s := New(superFns, block, givens, initialUnknowns, trans, agg, useScaling, links, ad).value;
    assert s.engine.derivative == ad(s.engine.objective);
  }

  /** `with_simulated_annealing_config`: installs the configuration and
      changes nothing else. */
  function WithSaConfig<G>(s: SubProblem<G>, cfg: SimulatedAnnealingConfig): (r: SubProblem<G>)
    ensures r.saCfg == Some(cfg)
    ensures r.engine == s.engine && r.block == s.block && r.paramScaler == s.paramScaler
    ensures r.initialUnknowns == s.initialUnknowns && r.aggregator == s.aggregator
    ensures r.rngSeed == s.rngSeed
  {
    s.(saCfg := Some(cfg))
  }

  /** `optspace_to_modspace`. */
  function OptToMod<G>(s: SubProblem<G>, p: seq<real>): (r: seq<real>)
    ensures |r| == |p|
  {
    match s.paramScaler
    case Some(sc) => OptToModel(sc, p)
    case None => p
  }

  /** `modspace_to_optspace`. */
  function ModToOpt<G>(s: SubProblem<G>, p: seq<real>): (r: seq<real>)
    ensures |r| == |p|
  {
    match s.paramScaler
    case Some(sc) => ModelToOpt(sc, p)
    case None => p
  }

  /** Without a scaler both conversions are the identity; with a scaler
      whose links undo each other, converting to optimisation space and back
      gives the vector back. */
  lemma ConversionsRoundTrip<G>(s: SubProblem<G>, p: seq<real>)
    ensures s.paramScaler.None? ==> OptToMod(s, p) == p && ModToOpt(s, p) == p
    ensures s.paramScaler.Some? && RoundTrips(s.paramScaler.value) ==> OptToMod(s, ModToOpt(s, p)) == p
  {
    if s.paramScaler.Some? && RoundTrips(s.paramScaler.value) {
      ScalerRoundTrip(s.paramScaler.value, p);
    }
  }

  /** `select_subprob_items`: the entries at the block's unknown indices, in
      the block's order. The length check is a debug assertion, modelled as
      enabled; an index past the items panics. */
  function SelectItems<G>(s: SubProblem<G>, items: seq<real>): (r: Result<seq<real>>)
    ensures r.Ok? <==> |items| == NumUnknowns(s) && AllBelow(s.block.unknownIdxs, |items|)
    ensures r.Err? ==> r.error.Panic?
    ensures r.Ok? ==> |r.value| == |s.block.unknownIdxs|
    ensures r.Ok? ==> forall i | 0 <= i < |r.value| :: r.value[i] == items[s.block.unknownIdxs[i]]
  {
    var idxs := s.block.unknownIdxs;
    if |items| != NumUnknowns(s) then
      Err(Panic("Items length does not match expected number of unknowns"))
    else if !AllBelow(idxs, |items|) then
      Err(Panic("index out of bounds"))
    else
      Ok(seq(|idxs|, i requires 0 <= i < |idxs| => items[idxs[i]]))
  }

  /** `sub` holds every row of `full` restricted to the columns `idxs`, in
      that order. */
  predicate SelectsColumns(sub: Matrix<real>, full: Matrix<real>, idxs: seq<nat>) {
    && sub.rows == full.rows && sub.cols == |idxs|
    && forall i, j | 0 <= i < full.rows && 0 <= j < |idxs| ::
         idxs[j] < full.cols && At(sub, i, j) == At(full, i, idxs[j])
  }

  /** `select_subprob_jacobian`: every row of the full Jacobian, restricted
      to the block's unknown columns. An index past the columns panics as
      soon as an entry is built, which needs at least one row. */
  function SelectJacobian<G>(s: SubProblem<G>, full: Matrix<real>): (r: Result<Matrix<real>>)
    ensures r.Ok? <==> full.rows == 0 || AllBelow(s.block.unknownIdxs, full.cols)
    ensures r.Err? ==> r.error.Panic?
    ensures r.Ok? ==> SelectsColumns(r.value, full, s.block.unknownIdxs)
  {
    var idxs := s.block.unknownIdxs;
    if full.rows > 0 && !AllBelow(idxs, full.cols) then
      Err(Panic("index out of bounds: unknown index past the Jacobian's columns"))
    else
      var data := seq(full.rows, i requires 0 <= i < full.rows =>
                        seq(|idxs|, j requires 0 <= j < |idxs| => full.data[i][idxs[j]]));
      var sub: Matrix<real> := RawMatrix(full.rows, |idxs|, data);
      Ok(sub)
  }

  /** `fullprob_initial_params_optspace`: the initial unknowns in
      optimisation space. */
  function FullInitialOpt<G>(s: SubProblem<G>): (p: seq<real>)
    ensures |p| == NumUnknowns(s)
  {
    ModToOpt(s, s.initialUnknowns)
  }

  /** `subprob_initial_params_optspace`: the block's entries of the full
      initial vector; an index past `N` panics. */
  function SubInitialOpt<G>(s: SubProblem<G>): (r: Result<seq<real>>)
    ensures r.Ok? <==> AllBelow(s.block.unknownIdxs, NumUnknowns(s))
    ensures r.Err? ==> r.error.Panic?
    ensures r.Ok? ==> r == SelectItems(s, FullInitialOpt(s))
  {
    var full := FullInitialOpt(s);
    var idxs := s.block.unknownIdxs;
    if !AllBelow(idxs, |full|) then
      Err(Panic("index out of bounds"))
    else
      Ok(seq(|idxs|, i requires 0 <= i < |idxs| => full[idxs[i]]))
  }

  /** The position of the last occurrence of `j` in `idxs`. */
  function LastIndexOf(idxs: seq<nat>, j: nat): (k: nat)
    requires j in idxs
    ensures k < |idxs| && idxs[k] == j
    ensures forall l | k < l < |idxs| :: idxs[l] != j
  {
    if idxs[|idxs| - 1] == j then |idxs| - 1
    else
      assert j in idxs[..|idxs| - 1] by {
        var i :| 0 <= i < |idxs| && idxs[i] == j;
        assert idxs[..|idxs| - 1][i] == j;
      }
      LastIndexOf(idxs[..|idxs| - 1], j)
  }

  /** Writes `vals[i]` to position `idxs[i]` for `i = 0, 1, ...` in turn: a
      position named once takes its value, a position named several times
      keeps the last write, and every other position keeps its old value. */
  function Overwrite(full: seq<real>, idxs: seq<nat>, vals: seq<real>): (r: seq<real>)
    requires |vals| == |idxs| && AllBelow(idxs, |full|)
    ensures |r| == |full|
    ensures forall j | 0 <= j < |full| ::
              r[j] == (if j in idxs then vals[LastIndexOf(idxs, j)] else full[j])
    decreases |idxs|
  {
    if |idxs| == 0 then full
    else
      var k := |idxs| - 1;
      var prev := Overwrite(full, idxs[..k], vals[..k]);
      assert forall j | 0 <= j < |full| && j != idxs[k] :: (j in idxs <==> j in idxs[..k]) by {
        assert idxs == idxs[..k] + [idxs[k]];
      }
      prev[idxs[k] := vals[k]]
  }

  /** `optspace_fullprob_input_from_subprob_input`: the full initial vector
      in optimisation space with the block's positions overwritten by the
      optimiser's values. The length check is a debug assertion, modelled as
      enabled; an index past `N` panics. */
  function Scatter<G>(s: SubProblem<G>, inputs: seq<real>): (r: Result<seq<real>>)
    ensures r.Ok? <==> |inputs| == |s.block.unknownIdxs| && AllBelow(s.block.unknownIdxs, NumUnknowns(s))
    ensures r.Err? ==> r.error.Panic?
    ensures r.Ok? ==> |r.value| == NumUnknowns(s)
    ensures r.Ok? ==> forall i | 0 <= i < |inputs| ::
              r.value[s.block.unknownIdxs[i]] == inputs[LastIndexOf(s.block.unknownIdxs, s.block.unknownIdxs[i])]
    ensures r.Ok? ==> forall j | 0 <= j < NumUnknowns(s) && j !in s.block.unknownIdxs ::
              r.value[j] == FullInitialOpt(s)[j]
  {
    var idxs := s.block.unknownIdxs;
    if |inputs| != |idxs| then
      Err(Panic("Parameter vector length for reconstruction did not match number subproblem unknowns"))
    else if !AllBelow(idxs, NumUnknowns(s)) then
      Err(Panic("index out of bounds"))
    else
      Ok(Overwrite(FullInitialOpt(s), idxs, inputs))
  }

  /** `params_with_subprob_optimizer_result`: the scattered vector taken back
      to model space. */
  function ParamsWithResult<G>(s: SubProblem<G>, p: seq<real>): (r: Result<seq<real>>)
    ensures r.Ok? <==> Scatter(s, p).Ok?
    ensures r.Err? ==> r.error.Panic?
    ensures r.Ok? ==> |r.value| == NumUnknowns(s)
  {
    var full :- Scatter(s, p);
    Ok(OptToMod(s, full))
  }

  /** With distinct in-range unknown indices, gathering the block's entries
      from the scatter of `x` gives `x` back. */
  lemma SelectAfterScatter<G>(s: SubProblem<G>, x: seq<real>)
    requires Distinct(s.block.unknownIdxs) && AllBelow(s.block.unknownIdxs, NumUnknowns(s))
    requires |x| == |s.block.unknownIdxs|
    ensures Scatter(s, x).Ok?
    ensures SelectItems(s, Scatter(s, x).value) == Ok(x)
  {
    var idxs := s.block.unknownIdxs;
    var full := Scatter(s, x).value;
    var back := SelectItems(s, full).value;
    forall i | 0 <= i < |x| ensures back[i] == x[i] {
      var k := LastIndexOf(idxs, idxs[i]);
    }
    assert back == x;
  }

  /** Scattering the block's own initial values reproduces the full initial
      vector, even when an index repeats. */
  lemma ScatterOfInitialIsInitial<G>(s: SubProblem<G>)
    requires SubInitialOpt(s).Ok?
    ensures Scatter(s, SubInitialOpt(s).value) == Ok(FullInitialOpt(s))
  {
    var idxs := s.block.unknownIdxs;
    var init := SubInitialOpt(s).value;
    var full := FullInitialOpt(s);
    var r := Scatter(s, init).value;
    forall j | 0 <= j < |full| ensures r[j] == full[j] {
      if j in idxs {
        var k := LastIndexOf(idxs, j);
        assert r[j] == init[k] == full[idxs[k]];
      }
    }
    assert r == full;
  }

  /** The reconstructed unknowns: each block unknown comes from the
      optimiser's last value for it, taken to model space; with no scaler,
      or one whose links undo each other, every other unknown is its initial
      value. */
  lemma ParamsWithResultKeepsOtherUnknowns<G>(s: SubProblem<G>, p: seq<real>)
    requires ParamsWithResult(s, p).Ok?
    requires s.paramScaler.None? || RoundTrips(s.paramScaler.value)
    ensures forall j | 0 <= j < NumUnknowns(s) && j !in s.block.unknownIdxs ::
              ParamsWithResult(s, p).value[j] == s.initialUnknowns[j]
    ensures forall i | 0 <= i < |p| ::
              var j := s.block.unknownIdxs[i];
              ParamsWithResult(s, p).value[j] ==
                OptToMod(s, Scatter(s, p).value)[j]
    ensures s.paramScaler.None? ==> forall i | 0 <= i < |p| ::
              ParamsWithResult(s, p).value[s.block.unknownIdxs[i]] ==
                p[LastIndexOf(s.block.unknownIdxs, s.block.unknownIdxs[i])]
  {
    var full := Scatter(s, p).value;
    var r := ParamsWithResult(s, p).value;
    forall j | 0 <= j < NumUnknowns(s) && j !in s.block.unknownIdxs
      ensures r[j] == s.initialUnknowns[j]
    {
      assert full[j] == FullInitialOpt(s)[j];
      match s.paramScaler {
        case None =>
        case Some(sc) =>
          assert r[j] == sc.optToModel(j, sc.modelToOpt(j, s.initialUnknowns[j]));
      }
    }
  }
}
