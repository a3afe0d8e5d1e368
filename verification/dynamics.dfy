/** The combined dynamics of the example: the air force always, the ground
    force while in contact, and the resulting acceleration. The contact's
    absolute tangent angle in degrees (an `atan2` of the tangent) is passed
    in by the caller. */
module Dynamics {
  import opened Wrappers
  import opened LinAlg
  import opened Params
  import opened State
  import Air
  import Ground

  /** The sticky-glove force for a contact at the given angle: the full
      glove force on slopes steeper than the given threshold, none on
      gentler ones. */
  function GloveForce(angleDeg: real, givens: Givens, unknowns: Derived): (f: real)
    ensures angleDeg > givens.stickyGloveAngleDeg ==> f == unknowns.stickyGloveForce
    ensures angleDeg <= givens.stickyGloveAngleDeg ==> f == 0.0
  {
    if angleDeg > givens.stickyGloveAngleDeg then unknowns.stickyGloveForce else 0.0
  }

  /** `total_force_2d`: the air force, plus the ground force while there is
      a contact. The ground force fails (a debug assertion) on a negative
      run force or run drag coefficient. */
  function TotalForce(s: DynamicsState, givens: Givens, unknowns: Derived, speed: real, angleDeg: real)
    : (r: Result<Vec2>)
    requires IsLength(speed, s.vel)
    ensures s.contact.None? ==> r == Ok(Air.NetForce(s, unknowns, speed))
    ensures r.Err? <==> s.contact.Some? && (unknowns.runForceMax < 0.0 || unknowns.runDragCoeff < 0.0)
    ensures r.Err? ==> r.error.Panic?
  {
    var f := Air.NetForce(s, unknowns, speed);
    match s.contact
    case None => Ok(f)
    case Some(contact) =>
      var ground :- Ground.NetForce(s.input, contact, unknowns.runDragCoeff, unknowns.runForceMax,
                                    GloveForce(angleDeg, givens, unknowns));
      Ok(Add(f, ground))
  }

  /** In contact, the total force is the air force without thrust plus the
      ground force with the glove force the slope selects. */
  lemma GroundedForceIsAirPlusGround(s: DynamicsState, givens: Givens, unknowns: Derived, speed: real, angleDeg: real)
    requires IsLength(speed, s.vel) && s.contact.Some? && unknowns.runForceMax >= 0.0 && unknowns.runDragCoeff >= 0.0
    ensures TotalForce(s, givens, unknowns, speed, angleDeg).value
            == Add(Air.NetForce(s, unknowns, speed),
                   Ground.NetForce(s.input, s.contact.value, unknowns.runDragCoeff, unknowns.runForceMax,
                                   GloveForce(angleDeg, givens, unknowns)).value)
  {
  }

  /** Airborne, the ground parameters play no part in the force. */
  lemma AirborneForceIgnoresGroundParams(s: DynamicsState, givens: Givens, unknowns: Derived, speed: real,
                                         angleDeg: real, runForceMax: real, runDragCoeff: real, glove: real)
    requires IsLength(speed, s.vel) && s.contact.None?
    ensures TotalForce(s, givens, unknowns, speed, angleDeg)
            == TotalForce(s, givens, unknowns.(runForceMax := runForceMax, runDragCoeff := runDragCoeff,
                                               stickyGloveForce := glove), speed, angleDeg)
  {
  }

  /** On slopes no steeper than the threshold the glove force plays no part
      in the force. */
  lemma GloveIgnoredOnGentleSlopes(s: DynamicsState, givens: Givens, unknowns: Derived, speed: real,
                                   angleDeg: real, glove: real)
    requires IsLength(speed, s.vel) && angleDeg <= givens.stickyGloveAngleDeg
    ensures TotalForce(s, givens, unknowns, speed, angleDeg)
            == TotalForce(s, givens, unknowns.(stickyGloveForce := glove), speed, angleDeg)
  {
  }

  /** `total_accel_2d`: the total force divided by the mass, plus gravity;
      the mass times the acceleration without gravity is the total force. */
  function TotalAccel(s: DynamicsState, givens: Givens, unknowns: Derived, speed: real, angleDeg: real)
    : (r: Result<Vec2>)
    requires givens.mass != 0.0 && IsLength(speed, s.vel)
    ensures r.Ok? <==> TotalForce(s, givens, unknowns, speed, angleDeg).Ok?
    ensures r.Err? ==> r == Err(TotalForce(s, givens, unknowns, speed, angleDeg).error)
    ensures r.Ok? ==> r.value.x * givens.mass == TotalForce(s, givens, unknowns, speed, angleDeg).value.x
    ensures r.Ok? ==> (r.value.y - unknowns.g) * givens.mass == TotalForce(s, givens, unknowns, speed, angleDeg).value.y
  {
    var f :- TotalForce(s, givens, unknowns, speed, angleDeg);
    Ok(ForceToAccel(f, givens.mass, unknowns.g))
  }

  /** Airborne, the total acceleration is the air acceleration. */
  lemma AirborneAccelIsAirAccel(s: DynamicsState, givens: Givens, unknowns: Derived, speed: real, angleDeg: real)
    requires givens.mass != 0.0 && IsLength(speed, s.vel) && s.contact.None?
    ensures TotalAccel(s, givens, unknowns, speed, angleDeg) == Ok(Air.Accel(s, givens, unknowns, speed))
  {
  }
}
