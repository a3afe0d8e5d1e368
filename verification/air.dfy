/** Airborne forces of the dynamics example: thrust from input, air drag,
    and the net air force and acceleration on a body. The speed `|v|` that
    quadratic drag needs is passed in by the caller, since square roots are
    outside this model. */
module Air {
  import opened Wrappers
  import opened LinAlg
  import opened Params
  import opened State

  /** Inputs whose (squared) magnitude is below this produce no thrust. */
  const ThrustDeadZone: real := 0.000001

  /** `air_thrust_2d`: the input scaled by the maximum thrust, or nothing
      when the input is (almost) zero. */
  function Thrust(input: Vec2, maxThrust: real): (f: Vec2)
    ensures NormSquared(input) < ThrustDeadZone ==> f == Zero2
    ensures NormSquared(input) >= ThrustDeadZone ==> f.x == input.x * maxThrust && f.y == input.y * maxThrust
  {
    if NormSquared(input) < ThrustDeadZone then Zero2 else Scale(input, maxThrust)
  }

  /** Thrust points along the input: it has no component across it, and
      its component along it is the maximum thrust times the input's
      squared length. */
  lemma ThrustAlongInput(input: Vec2, maxThrust: real)
    requires NormSquared(input) >= ThrustDeadZone
    ensures Dot(Thrust(input, maxThrust), input) == maxThrust * NormSquared(input)
    ensures Thrust(input, maxThrust).x * input.y == Thrust(input, maxThrust).y * input.x
  {
    DotScale(input, maxThrust, input);
  }

  /** `air_thrust_horizontal`: only the horizontal part of the input
      thrusts, and only when it is not (almost) zero. */
  function ThrustHorizontal(input: Vec2, maxThrust: real): (f: Vec2)
    ensures f.y == 0.0
    ensures Abs(input.x) < ThrustDeadZone ==> f.x == 0.0
    ensures Abs(input.x) >= ThrustDeadZone ==> f.x == input.x * maxThrust
  {
    if Abs(input.x) < ThrustDeadZone then Zero2 else Vec2(input.x * maxThrust, 0.0)
  }

  /** The vertical part of the input has no effect on horizontal thrust. */
  lemma ThrustHorizontalIgnoresVertical(input: Vec2, y: real, maxThrust: real)
    ensures ThrustHorizontal(Vec2(input.x, y), maxThrust) == ThrustHorizontal(input, maxThrust)
  {
  }

  /** On a purely horizontal input the two thrust laws differ only in the
      dead zone they use (`|x|` against `x * x`); outside both they agree. */
  lemma HorizontalInputThrustsAlike(x: real, maxThrust: real)
    requires Abs(x) >= ThrustDeadZone && NormSquared(Vec2(x, 0.0)) >= ThrustDeadZone
    ensures ThrustHorizontal(Vec2(x, 0.0), maxThrust) == Thrust(Vec2(x, 0.0), maxThrust)
  {
  }

  /** `air_drag_linear_2d`: the velocity reversed and scaled by the
      coefficient. */
  function DragLinear(vel: Vec2, dragCoeff: real): (f: Vec2)
    ensures f.x == -(vel.x * dragCoeff) && f.y == -(vel.y * dragCoeff)
  {
    Scale(Neg(vel), dragCoeff)
  }

  /** `air_drag_quadratic_2d`, given `speed`, the length of the velocity:
      a force parallel to the velocity whose component along it is minus
      the coefficient times the speed cubed. */
  function DragQuadratic(vel: Vec2, dragCoeff: real, speed: real): (f: Vec2)
    requires IsLength(speed, vel)
    ensures Dot(f, vel) == -(dragCoeff * speed) * NormSquared(vel)
    ensures f.x * vel.y == f.y * vel.x
  {
    NegScale(vel, dragCoeff * speed);
    DotScale(vel, -(dragCoeff * speed), vel);
    Scale(Neg(vel), dragCoeff * speed)
  }

  /** Quadratic drag is linear drag whose coefficient grows with the speed. */
  lemma QuadraticIsLinearTimesSpeed(vel: Vec2, dragCoeff: real, speed: real)
    requires IsLength(speed, vel)
    ensures DragQuadratic(vel, dragCoeff, speed) == DragLinear(vel, dragCoeff * speed)
  {
  }

  /** Drag with a non-negative coefficient never pushes along the velocity;
      with a positive coefficient it strictly opposes any motion. */
  lemma DragOpposesVelocity(vel: Vec2, dragCoeff: real, speed: real)
    requires IsLength(speed, vel) && dragCoeff >= 0.0
    ensures Dot(DragQuadratic(vel, dragCoeff, speed), vel) <= 0.0
    ensures dragCoeff > 0.0 && vel != Zero2 ==> Dot(DragQuadratic(vel, dragCoeff, speed), vel) < 0.0
  {
    NormSquaredSign(vel);
    LengthZeroIff(speed, vel);
    ResistanceSign(dragCoeff, speed, NormSquared(vel));
  }

  lemma NegScale(v: Vec2, k: real)
    ensures Scale(Neg(v), k) == Scale(v, -k)
  {
  }

  /** The sign of `-(c * s) * n` for non-negative factors. */
  lemma ResistanceSign(c: real, s: real, n: real)
    requires c >= 0.0 && s >= 0.0 && n >= 0.0
    ensures -(c * s) * n <= 0.0
    ensures c > 0.0 && s > 0.0 && n > 0.0 ==> -(c * s) * n < 0.0
  {
    assert c * s >= 0.0;
    if c > 0.0 && s > 0.0 && n > 0.0 {
      assert c * s > 0.0;
    }
  }

  /** The jump boost: straight up with the boost force. */
  function BoostForce(unknowns: Derived): (f: Vec2)
    ensures f.x == 0.0 && f.y == unknowns.jumpBoostForce
  {
    Vec2(0.0, unknowns.jumpBoostForce)
  }

  /** `air_net_force_2d`: drag always; horizontal thrust only without a
      ground contact; the jump boost only while it is active. */
  function NetForce(s: DynamicsState, unknowns: Derived, speed: real): (f: Vec2)
    requires IsLength(speed, s.vel)
    ensures var drag := DragQuadratic(s.vel, unknowns.airDragCoeff, speed);
            var thrust := ThrustHorizontal(s.input, unknowns.airThrustMax);
            && (s.contact.None? && !s.jumpBoostActive ==> f == Add(drag, thrust))
            && (s.contact.Some? && !s.jumpBoostActive ==> f == drag)
            && (s.contact.None? && s.jumpBoostActive ==> f == Add(Add(drag, thrust), BoostForce(unknowns)))
            && (s.contact.Some? && s.jumpBoostActive ==> f == Add(drag, BoostForce(unknowns)))
  {
    var drag := DragQuadratic(s.vel, unknowns.airDragCoeff, speed);
    var withThrust := if s.contact.None? then Add(drag, ThrustHorizontal(s.input, unknowns.airThrustMax)) else drag;
    if s.jumpBoostActive then Add(withThrust, BoostForce(unknowns)) else withThrust
  }

  /** Touching the ground removes exactly the horizontal thrust, whatever
      the contact is. */
  lemma ContactRemovesOnlyThrust(s: DynamicsState, c: FrictionContact2D, unknowns: Derived, speed: real)
    requires IsLength(speed, s.vel) && s.contact.None?
    ensures NetForce(s, unknowns, speed)
            == Add(NetForce(s.(contact := Some(c)), unknowns, speed), ThrustHorizontal(s.input, unknowns.airThrustMax))
  {
  }

  /** An active jump boost adds exactly the boost force. */
  lemma BoostAddsBoostForce(s: DynamicsState, unknowns: Derived, speed: real)
    requires IsLength(speed, s.vel)
    ensures NetForce(s.(jumpBoostActive := true), unknowns, speed)
            == Add(NetForce(s.(jumpBoostActive := false), unknowns, speed), BoostForce(unknowns))
  {
  }

  /** At rest, on the ground and without boost, there is no air force. */
  lemma NoAirForceAtRestOnGround(s: DynamicsState, unknowns: Derived)
    requires s.vel == Zero2 && s.contact.Some? && !s.jumpBoostActive
    ensures NetForce(s, unknowns, 0.0) == Zero2
  {
  }

  /** `air_accel_2d`: the air force divided by the mass, plus gravity; the
      mass times the acceleration without gravity is the air force. */
  function Accel(s: DynamicsState, givens: Givens, unknowns: Derived, speed: real): (a: Vec2)
    requires givens.mass != 0.0 && IsLength(speed, s.vel)
    ensures a.x * givens.mass == NetForce(s, unknowns, speed).x
    ensures (a.y - unknowns.g) * givens.mass == NetForce(s, unknowns, speed).y
  {
    ForceToAccel(NetForce(s, unknowns, speed), givens.mass, unknowns.g)
  }

  /** The starting state is at rest, airborne and without input or boost,
      so it only falls. */
  lemma ZeroedStateFalls(givens: Givens, unknowns: Derived)
    requires givens.mass != 0.0
    ensures Accel(NewZeroedState(), givens, unknowns, 0.0) == Vec2(0.0, unknowns.g)
  {
    ZeroedStateHasNoAirForce(unknowns);
    NoForceOnlyFalls(givens.mass, unknowns.g);
  }

  lemma ZeroedStateHasNoAirForce(unknowns: Derived)
    ensures NetForce(NewZeroedState(), unknowns, 0.0) == Zero2
  {
    var s := NewZeroedState();
    ZeroHasLengthZero();
    NoDragAtRest(unknowns.airDragCoeff);
    NoThrustWithoutInput(unknowns.airThrustMax);
    assert NetForce(s, unknowns, 0.0)
           == Add(DragQuadratic(Zero2, unknowns.airDragCoeff, 0.0), ThrustHorizontal(Zero2, unknowns.airThrustMax));
  }

  lemma NoDragAtRest(dragCoeff: real)
    ensures IsLength(0.0, Zero2) && DragQuadratic(Zero2, dragCoeff, 0.0) == Zero2
  {
    ZeroHasLengthZero();
  }

  lemma NoThrustWithoutInput(maxThrust: real)
    ensures ThrustHorizontal(Zero2, maxThrust) == Zero2
  {
  }

  lemma NoForceOnlyFalls(mass: real, g: real)
    requires mass != 0.0
    ensures ForceToAccel(Zero2, mass, g) == Vec2(0.0, g)
  {
  }
}
