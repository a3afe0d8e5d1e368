/** Time integration of the dynamics example: one semi-implicit Euler step,
    stepping until a target time, and stepping on flat ground with a
    contact rebuilt before every step. The acceleration law is a parameter,
    and so is `is_finite`, the floating-point test the step guards with. */
module Integrate {
  import opened Wrappers
  import opened LinAlg
  import opened Params
  import opened State

  /** `IntegrationState`: the time and position the integrator tracks,
      beside the dynamic state the acceleration law sees. */
  datatype IntegrationState = IntegrationState(t: real, pos: Vec2, state: DynamicsState)

  /** `IntegrationState::new_zeroed`. */
  function NewZeroed(): (s: IntegrationState)
    ensures s.t == 0.0 && s.pos == Zero2
    ensures s.state.vel == Zero2 && s.state.input == Zero2 && s.state.contact.None? && !s.state.jumpBoostActive
  {
    IntegrationState(0.0, Zero2, NewZeroedState())
  }

  /** An acceleration law: state, givens and unknowns to acceleration. */
  type AccelFn = (DynamicsState, Givens, Derived) -> Vec2

  predicate FiniteVec(finite: real -> bool, v: Vec2) {
    finite(v.x) && finite(v.y)
  }

  /** The velocity after one step: the old one plus the acceleration over
      the step. */
  function NextVel(vel: Vec2, a: Vec2, dt: real): (v: Vec2)
    ensures v.x - vel.x == a.x * dt && v.y - vel.y == a.y * dt
  {
    Add(vel, Scale(a, dt))
  }

  /** `step_state`: one semi-implicit Euler step. The time always advances
      by `dt`. A non-finite acceleration changes nothing else. Otherwise the
      position moves with the NEW velocity; the new velocity is kept only
      when the new time, position and velocity are all finite. Nothing but
      the velocity of the dynamic state ever changes. The source returns an
      option but never its empty case. */
  function StepState(accFn: AccelFn, start: IntegrationState, givens: Givens, unk: Derived, dt: real,
                     finite: real -> bool): (r: Option<IntegrationState>)
    ensures r.Some?
    ensures r.value.t == start.t + dt
    ensures r.value.state.(vel := start.state.vel) == start.state
    ensures !FiniteVec(finite, accFn(start.state, givens, unk)) ==> r.value == start.(t := start.t + dt)
    ensures FiniteVec(finite, accFn(start.state, givens, unk)) ==>
              r.value.pos == Add(start.pos, Scale(NextVel(start.state.vel, accFn(start.state, givens, unk), dt), dt))
    ensures FiniteVec(finite, accFn(start.state, givens, unk)) ==>
              var v := NextVel(start.state.vel, accFn(start.state, givens, unk), dt);
              r.value.state.vel == (if finite(r.value.t) && FiniteVec(finite, r.value.pos) && FiniteVec(finite, v)
                                    then v else start.state.vel)
  {
    var s := start.state;
    var a := accFn(s, givens, unk);
    if !FiniteVec(finite, a) then Some(start.(t := start.t + dt))
    else
      var v := NextVel(s.vel, a, dt);
      var next := start.(pos := Add(start.pos, Scale(v, dt)), t := start.t + dt);
      if !finite(next.t) || !FiniteVec(finite, next.pos) || !FiniteVec(finite, v) then Some(next)
      else Some(next.(state := s.(vel := v)))
  }

  /** When everything stays finite the step is symplectic Euler: the
      velocity changes by `a * dt`, and the position by the new velocity
      times `dt`. */
  lemma StepIsSemiImplicitEuler(accFn: AccelFn, start: IntegrationState, givens: Givens, unk: Derived, dt: real,
                                finite: real -> bool)
    requires forall x :: finite(x)
    ensures var r := StepState(accFn, start, givens, unk, dt, finite).value;
            var a := accFn(start.state, givens, unk);
            && r.state.vel.x - start.state.vel.x == a.x * dt
            && r.state.vel.y - start.state.vel.y == a.y * dt
            && r.pos == Add(start.pos, Scale(r.state.vel, dt))
  {
  }

  /** Without acceleration a finite step coasts: the velocity stays and the
      position moves by it. */
  lemma CoastingStep(accFn: AccelFn, start: IntegrationState, givens: Givens, unk: Derived, dt: real,
                     finite: real -> bool)
    requires forall x :: finite(x)
    requires accFn(start.state, givens, unk) == Zero2
    ensures StepState(accFn, start, givens, unk, dt, finite).value
            == start.(t := start.t + dt, pos := Add(start.pos, Scale(start.state.vel, dt)))
  {
    NoAccelKeepsVel(start.state.vel, dt);
  }

  lemma NoAccelKeepsVel(vel: Vec2, dt: real)
    ensures NextVel(vel, Zero2, dt) == vel
  {
  }

  /** One step of an integrator, which may fail. */
  type Stepper = IntegrationState -> Result<IntegrationState>

  /** The state after `n` steps from `start`, or the first failure: no
      steps leave the start alone, one step is the stepper itself, and a run
      that succeeds succeeded at every shorter length. */
  function Run(step: Stepper, start: IntegrationState, n: nat): (r: Result<IntegrationState>)
    ensures n == 0 ==> r == Ok(start)
    ensures n == 1 ==> r == step(start)
    ensures r.Ok? ==> forall j: nat | j < n :: Run(step, start, j).Ok?
    decreases n
  {
    if n == 0 then Ok(start)
    else
      var prev :- Run(step, start, n - 1);
      step(prev)
  }

  /** Every successful step advances the time by `dt`. */
  ghost predicate AdvancesBy(step: Stepper, dt: real) {
    forall s :: step(s).Ok? ==> step(s).value.t == s.t + dt
  }

  /** A successful run of `n` steps has advanced the time by `n * dt`. */
  lemma {:induction false} RunAdvancesTime(step: Stepper, start: IntegrationState, dt: real, n: nat)
    requires AdvancesBy(step, dt) && Run(step, start, n).Ok?
    ensures Run(step, start, n).value.t == start.t + n as real * dt
    decreases n
  {
    if n > 0 {
      RunAdvancesTime(step, start, dt, n - 1);
      NextMultiple(start.t, n - 1, dt);
    }
  }

  lemma NextMultiple(t0: real, k: nat, dt: real)
    ensures t0 + k as real * dt + dt == t0 + (k + 1) as real * dt
  {
  }

  /** A whole number of steps whose total stays below a positive distance
      is below the bound the loops count down from. */
  lemma StepCountBelowBound(k: nat, dist: real, dt: real)
    requires dt > 0.0 && k as real * dt < dist
    ensures k < StepBound(dist, dt)
  {
    var q := dist / dt;
    assert (k as real * dt) / dt == k as real;
    assert k as real < q;
  }

  /** More than the number of steps of length `dt` that fit in `dist`. */
  function StepBound(dist: real, dt: real): (b: int)
    requires dt > 0.0
  {
    (dist / dt).Floor + 1
  }

  /** The loop both integrators share: steps until the time reaches the
      target. It returns the first state of the run whose time is not below
      the target, or the first failure, together with the number of steps
      taken; a state already at or past the target comes back unchanged.
      With a positive step the final time overshoots the target by less
      than one step. The source loops forever when the step is not positive
      and the target is still ahead, so that case is excluded. */
  method RunToTarget(step: Stepper, start: IntegrationState, dt: real, target: real)
    returns (r: Result<IntegrationState>, steps: nat)
    requires AdvancesBy(step, dt)
    requires dt > 0.0 || start.t >= target
    ensures r == Run(step, start, steps)
    ensures r.Ok? ==> r.value.t >= target
    ensures forall j :: 0 <= j < steps ==> Run(step, start, j).Ok? && Run(step, start, j).value.t < target
    ensures start.t >= target ==> steps == 0 && r == Ok(start)
    ensures start.t < target && r.Ok? ==> r.value.t < target + dt
  {
    var s := start;
    steps := 0;
    ghost var bound := if start.t >= target then 0 else StepBound(target - start.t, dt);
    while s.t < target
      invariant Run(step, start, steps) == Ok(s)
      invariant s.t == start.t + steps as real * dt
      invariant forall j :: 0 <= j < steps ==> Run(step, start, j).Ok? && Run(step, start, j).value.t < target
      invariant start.t < target ==> s.t < target + dt
      invariant start.t >= target ==> steps == 0
      decreases bound - steps
    {
      StepCountBelowBound(steps, target - start.t, dt);
      var next := step(s);
      NextMultiple(start.t, steps, dt);
      if next.Err? {
        return next, steps + 1;
      }
      s := next.value;
      steps := steps + 1;
    }
    r := Ok(s);
  }

  /** `step_state` as a stepper that never fails. */
  function StepStepper(accFn: AccelFn, givens: Givens, unk: Derived, dt: real, finite: real -> bool): (step: Stepper)
  {
    s => Ok(StepState(accFn, s, givens, unk, dt, finite).value)
  }

  lemma StepStepperAdvances(accFn: AccelFn, givens: Givens, unk: Derived, dt: real, finite: real -> bool)
    ensures AdvancesBy(StepStepper(accFn, givens, unk, dt, finite), dt)
  {
  }

  /** Runs of `step_state` never fail, and they change nothing in the
      dynamic state but its velocity. */
  lemma {:induction false} StepRunsNeverFail(accFn: AccelFn, givens: Givens, unk: Derived, dt: real,
                                             finite: real -> bool, start: IntegrationState, n: nat)
    ensures Run(StepStepper(accFn, givens, unk, dt, finite), start, n).Ok?
    ensures Run(StepStepper(accFn, givens, unk, dt, finite), start, n).value.state.(vel := start.state.vel)
            == start.state
    decreases n
  {
    if n > 0 {
      StepRunsNeverFail(accFn, givens, unk, dt, finite, start, n - 1);
    }
  }

  /** `step_state_to_t_with_acc_fn`: `step_state` until the target time.
      The source threads the step's option through `?`, but the step never
      returns its empty case, so neither does this. */
  method StepToT(accFn: AccelFn, start: IntegrationState, givens: Givens, unk: Derived, dt: real, target: real,
                 finite: real -> bool) returns (r: Option<IntegrationState>, steps: nat)
    requires dt > 0.0 || start.t >= target
    ensures r.Some? && Run(StepStepper(accFn, givens, unk, dt, finite), start, steps) == Ok(r.value)
    ensures r.value.t >= target
    ensures forall j :: 0 <= j < steps ==>
              Run(StepStepper(accFn, givens, unk, dt, finite), start, j).Ok? &&
              Run(StepStepper(accFn, givens, unk, dt, finite), start, j).value.t < target
    ensures start.t >= target ==> steps == 0 && r == Some(start)
    ensures start.t < target ==> r.value.t < target + dt
  {
    var step := StepStepper(accFn, givens, unk, dt, finite);
    StepStepperAdvances(accFn, givens, unk, dt, finite);
    var res;
    res, steps := RunToTarget(step, start, dt, target);
    StepRunsNeverFail(accFn, givens, unk, dt, finite, start, steps);
    r := Some(res.value);
  }

  /** The contact the flat-ground integrator rebuilds before every step:
      an equilibrium contact on flat ground (tangent angle 0) from the
      current velocity, under the real gravity. */
  function FlatContact(s: IntegrationState, givens: Givens, contactG: real): (r: Result<FrictionContact2D>)
    ensures r == NewEquilibriumContactFromNormal(Up, s.state.vel, contactG, givens.mass)
    ensures r.Err? <==> contactG >= 0.0 || Abs(s.state.vel.y) >= OrthogonalityTolerance
  {
    VerticalComponent(s.state.vel);
    NewEquilibriumContactFromNormal(Up, s.state.vel, contactG, givens.mass)
  }

  /** One step on flat ground: the contact is rebuilt with the unknowns'
      gravity, while the acceleration law sees zero gravity (on the ground
      the engine's collision handling cancels it). */
  function FlatStep(accFn: AccelFn, s: IntegrationState, givens: Givens, unk: Derived, dt: real,
                    finite: real -> bool): (r: Result<IntegrationState>)
    ensures r.Err? <==> FlatContact(s, givens, unk.g).Err?
    ensures r.Err? ==> r.error.Panic?
    ensures r.Ok? ==> r.value.t == s.t + dt
    ensures r.Ok? ==> r.value.state.contact == Some(FlatContact(s, givens, unk.g).value)
    ensures r.Ok? ==>
              r == Ok(StepState(accFn, s.(state := s.state.(contact := Some(FlatContact(s, givens, unk.g).value))),
                                givens, unk.(g := 0.0), dt, finite).value)
  {
    var contact :- FlatContact(s, givens, unk.g);
    var withContact := s.(state := s.state.(contact := Some(contact)));
    Ok(StepState(accFn, withContact, givens, unk.(g := 0.0), dt, finite).value)
  }

  /** On flat ground, for a positive mass, the contact of every successful
      step carries the full weight under the real gravity and keeps only
      the horizontal velocity, although the acceleration law itself sees no
      gravity. */
  lemma FlatStepCarriesWeight(accFn: AccelFn, s: IntegrationState, givens: Givens, unk: Derived, dt: real,
                              finite: real -> bool)
    requires givens.mass > 0.0 && unk.g < 0.0 && Abs(s.state.vel.y) < OrthogonalityTolerance
    ensures FlatStep(accFn, s, givens, unk, dt, finite).Ok?
    ensures FlatStep(accFn, s, givens, unk, dt, finite).value.state.contact
            == Some(FrictionContact2D(Up, -(givens.mass * unk.g), Vec2(s.state.vel.x, 0.0), 1.0))
  {
    FlatEquilibriumContact(s.state.vel, unk.g, givens.mass);
  }

  /** `FlatStep` as a stepper. */
  function FlatStepper(accFn: AccelFn, givens: Givens, unk: Derived, dt: real, finite: real -> bool): (step: Stepper)
  {
    s => FlatStep(accFn, s, givens, unk, dt, finite)
  }

  lemma FlatStepperAdvances(accFn: AccelFn, givens: Givens, unk: Derived, dt: real, finite: real -> bool)
    ensures AdvancesBy(FlatStepper(accFn, givens, unk, dt, finite), dt)
  {
  }

  /** `step_state_to_t_on_flat_ground_with_acc_fn`: `FlatStep` until the
      target time; a step whose contact fails its debug assertions stops the
      run with that failure. */
  method StepToTOnFlatGround(accFn: AccelFn, start: IntegrationState, givens: Givens, unk: Derived, dt: real,
                             target: real, finite: real -> bool) returns (r: Result<IntegrationState>, steps: nat)
    requires dt > 0.0 || start.t >= target
    ensures r == Run(FlatStepper(accFn, givens, unk, dt, finite), start, steps)
    ensures r.Ok? ==> r.value.t >= target
    ensures r.Err? ==> r.error.Panic?
    ensures forall j :: 0 <= j < steps ==>
              Run(FlatStepper(accFn, givens, unk, dt, finite), start, j).Ok? &&
              Run(FlatStepper(accFn, givens, unk, dt, finite), start, j).value.t < target
    ensures start.t >= target ==> steps == 0 && r == Ok(start)
    ensures start.t < target && r.Ok? ==> r.value.t < target + dt
  {
    FlatStepperAdvances(accFn, givens, unk, dt, finite);
    r, steps := RunToTarget(FlatStepper(accFn, givens, unk, dt, finite), start, dt, target);
    FlatRunsOnlyPanic(accFn, givens, unk, dt, finite, start, steps);
  }

  /** A flat-ground run fails only by a failed debug assertion. */
  lemma {:induction false} FlatRunsOnlyPanic(accFn: AccelFn, givens: Givens, unk: Derived, dt: real,
                                             finite: real -> bool, start: IntegrationState, n: nat)
    ensures Run(FlatStepper(accFn, givens, unk, dt, finite), start, n).Err? ==>
              Run(FlatStepper(accFn, givens, unk, dt, finite), start, n).error.Panic?
    decreases n
  {
    if n > 0 {
      FlatRunsOnlyPanic(accFn, givens, unk, dt, finite, start, n - 1);
    }
  }
}
