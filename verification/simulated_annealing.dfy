/** `solve_simulated_annealing`: runs argmin's annealing executor on a
    sub-problem and patches its best parameters into the unknowns. The
    executor itself is a parameter: it receives the run's settings and
    answers with an error, no best parameter, or the best parameter found. */
module SimulatedAnnealing {
  import opened Wrappers
  import opened AnnealConfig
  import opened SubProblems

  /** The settings the solver is configured with before the run. */
  datatype RunSettings = RunSettings(
    initParam: seq<real>,
    temp: real,
    stallBest: nat,
    stallAccepted: nat,
    maxIters: nat,
    targetCost: real)

  /** The run's settings: the block's initial parameters in optimisation
      space, the configured initial temperature, stop after 1000 iterations
      without a new best or without an accepted move, at most 10 000
      iterations, and stop early at cost 0. */
  function Settings(initParam: seq<real>, cfg: SimulatedAnnealingConfig): (st: RunSettings)
    ensures st.initParam == initParam && st.temp == cfg.initTemp
    ensures st.stallBest == 1000 && st.stallAccepted == 1000
    ensures st.maxIters == 10000 && st.targetCost == 0.0
  {
    RunSettings(initParam, cfg.initTemp, 1000, 1000, 10000, 0.0)
  }

  /** `solve_simulated_annealing`. The initial parameters are gathered first
      (an index past `N` panics), then a missing configuration panics, then
      the executor runs; a run without a best parameter panics. */
  function Solve<G>(s: SubProblem<G>, run: RunSettings -> Result<Option<seq<real>>>): (r: Result<seq<real>>)
    ensures SubInitialOpt(s).Ok? && s.saCfg.None? ==> r.Err? && r.error.Panic?
    ensures r.Ok? ==>
              && SubInitialOpt(s).Ok?
              && s.saCfg.Some?
              && var st := Settings(SubInitialOpt(s).value, s.saCfg.value);
              && run(st).Ok? && run(st).value.Some?
              && ParamsWithResult(s, run(st).value.value) == r
    ensures SubInitialOpt(s).Ok? && s.saCfg.Some? &&
            run(Settings(SubInitialOpt(s).value, s.saCfg.value)).Err? ==>
              r == Err(run(Settings(SubInitialOpt(s).value, s.saCfg.value)).error)
  {
    var init :- SubInitialOpt(s);
    if s.saCfg.None? then
      Err(Panic("Simulated annealing config (sa_cfg) not set on annealing SubProblem"))
    else
      var outcome :- run(Settings(init, s.saCfg.value));
      if outcome.None? then Err(Panic("must have best param"))
      else ParamsWithResult(s, outcome.value)
  }

  /** The settings carry the documented stopping rules, and the starting
      point is the block's slice of the initial unknowns. */
  lemma SettingsFollowConfig<G>(s: SubProblem<G>)
    requires SubInitialOpt(s).Ok? && s.saCfg.Some?
    ensures var st := Settings(SubInitialOpt(s).value, s.saCfg.value);
            && st.temp == s.saCfg.value.initTemp
            && st.maxIters == 10000 && st.targetCost == 0.0
            && st.stallBest == 1000 && st.stallAccepted == 1000
            && |st.initParam| == |s.block.unknownIdxs|
            && forall i | 0 <= i < |st.initParam| ::
                 st.initParam[i] == FullInitialOpt(s)[s.block.unknownIdxs[i]]
  {
  }

  /** When the executor hands back the starting point itself, and the
      scaler's links undo each other, annealing returns the initial
      unknowns unchanged. */
  lemma UnmovedRunReturnsInitialUnknowns<G>(s: SubProblem<G>, run: RunSettings -> Result<Option<seq<real>>>)
    requires SubInitialOpt(s).Ok? && s.saCfg.Some?
    requires s.paramScaler.None? || Objective.RoundTrips(s.paramScaler.value)
    requires var st := Settings(SubInitialOpt(s).value, s.saCfg.value);
             run(st) == Ok(Some(st.initParam))
    ensures Solve(s, run) == Ok(s.initialUnknowns)
  {
    ScatterOfInitialIsInitial(s);
    ConversionsRoundTrip(s, s.initialUnknowns);
  }
}
