/** `SimulatedAnnealingConfig`: the annealing proposal's tuning, in
    optimisation space. */
module AnnealConfig {
  import opened Wrappers

  datatype SimulatedAnnealingConfig = SimulatedAnnealingConfig(
    initTemp: real,
    smallStepInit: real,
    smallStepMin: real,
    bigStepInit: real,
    bigStepMin: real,
    pBigInit: real,
    pBigMin: real,
    maxAbsStep: real,
    gradDriftMax: Option<real>)

  /** `std::f64::consts::LN_10`, the f64 nearest to ln 10. */
  const Ln10: real := 2.302585092994046

  /** `100f64.ln()`, the f64 nearest to ln 100. */
  const Ln100: real := 4.605170185988092

  /** `SimulatedAnnealingConfig::default()`. The schedule shrinks every
      quantity as it cools: each minimum lies below its initial value, both
      jump probabilities are probabilities, the temperature is positive, the
      clamp is not inverted and a big step fits inside it. */
  function Default(): (c: SimulatedAnnealingConfig)
    ensures 0.0 <= c.pBigMin <= c.pBigInit <= 1.0
    ensures 0.0 < c.smallStepMin <= c.smallStepInit
    ensures 0.0 < c.bigStepMin <= c.bigStepInit
    ensures c.initTemp > 0.0
    ensures c.maxAbsStep >= 0.0
    ensures c.bigStepInit < c.maxAbsStep
  {
    SimulatedAnnealingConfig(
      initTemp := 100.0,
      smallStepInit := 0.25,
      smallStepMin := 0.01,
      bigStepInit := Ln10,
      bigStepMin := 0.10,
      pBigInit := 0.30,
      pBigMin := 0.02,
      maxAbsStep := Ln100,
      gradDriftMax := Some(1.0))
  }
}
