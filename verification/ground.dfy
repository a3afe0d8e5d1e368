/** Ground forces of the dynamics example: throttle from input, the drive
    force along the ground tangent, the velocity-proportional ground drag,
    and the resulting ground acceleration. */
module Ground {
  import opened Wrappers
  import opened LinAlg
  import opened Params
  import opened State

  /** Throttles below this magnitude produce no drive force. */
  const ThrottleDeadZone: real := 0.000001

  /** `ground_throttle_from_input`: the input's component along the tangent,
      clamped to [-1, 1]. */
  function Throttle(input: Vec2, tangent: Vec2): (thr: real)
    ensures -1.0 <= thr <= 1.0
    ensures -1.0 <= Dot(input, tangent) <= 1.0 ==> thr == Dot(input, tangent)
    ensures Dot(input, tangent) > 1.0 ==> thr == 1.0
    ensures Dot(input, tangent) < -1.0 ==> thr == -1.0
  {
    var d := Dot(input, tangent);
    if d < -1.0 then -1.0 else if d > 1.0 then 1.0 else d
  }

  /** The worked values on flat ground: (2, 0) saturates at 1, (-2, 0) at
      -1, (0.25, 0) passes through, and straight up gives 0. */
  lemma ThrottleExamples()
    ensures Throttle(Vec2(2.0, 0.0), Vec2(1.0, 0.0)) == 1.0
    ensures Throttle(Vec2(-2.0, 0.0), Vec2(1.0, 0.0)) == -1.0
    ensures Throttle(Vec2(0.25, 0.0), Vec2(1.0, 0.0)) == 0.25
    ensures Throttle(Vec2(0.0, 1.0), Vec2(1.0, 0.0)) == 0.0
  {
  }

  /** The scalar the tangent is multiplied by outside the dead zone: the
      maximum force, the throttle, the traction coefficient and the normal
      force (never below 0) plus the sticky-glove force. The source multiplies
      the vector by each factor in turn; over the reals that is one scale by
      their product. */
  function DriveMagnitude(thr: real, contact: FrictionContact2D, groundForceMax: real, stickyGloveForce: real)
    : (k: real)
    ensures thr == 0.0 ==> k == 0.0
    ensures groundForceMax >= 0.0 && contact.tractionCoeff >= 0.0 && stickyGloveForce >= 0.0 ==>
              (thr >= 0.0 ==> k >= 0.0) && (thr <= 0.0 ==> k <= 0.0)
  {
    var n := if contact.normalForceMag >= 0.0 then contact.normalForceMag else 0.0;
    ProductFollowsSign(groundForceMax, thr, contact.tractionCoeff, n + stickyGloveForce);
    groundForceMax * thr * contact.tractionCoeff * (n + stickyGloveForce)
  }

  /** Non-negative factors leave the sign of `b` to the product. */
  lemma ProductFollowsSign(a: real, b: real, c: real, d: real)
    ensures b == 0.0 ==> a * b * c * d == 0.0
    ensures a >= 0.0 && c >= 0.0 && d >= 0.0 ==>
              (b >= 0.0 ==> a * b * c * d >= 0.0) && (b <= 0.0 ==> a * b * c * d <= 0.0)
  {
    if a >= 0.0 && c >= 0.0 && d >= 0.0 {
      assert c * d >= 0.0;
      assert a * b * c * d == b * (a * (c * d));
      assert a * (c * d) >= 0.0;
    }
  }

  /** `ground_drive_force_2d`. A negative maximum force fails a debug
      assertion. Inside the dead zone the force is zero; otherwise it is the
      tangent scaled by `DriveMagnitude`. Either way it acts along the
      ground, never into it. */
  function DriveForce(input: Vec2, contact: FrictionContact2D, groundForceMax: real, stickyGloveForce: real)
    : (r: Result<Vec2>)
    ensures r.Err? <==> groundForceMax < 0.0
    ensures r.Err? ==> r.error.Panic?
    ensures r.Ok? && Abs(Throttle(input, Tangent(contact))) < ThrottleDeadZone ==> r.value == Zero2
    ensures r.Ok? && Abs(Throttle(input, Tangent(contact))) >= ThrottleDeadZone ==>
              r.value == Scale(Tangent(contact),
                               DriveMagnitude(Throttle(input, Tangent(contact)), contact, groundForceMax, stickyGloveForce))
    ensures r.Ok? ==> Dot(r.value, contact.normal) == 0.0
  {
    if groundForceMax < 0.0 then Err(Panic("debug_assert: ground_force_max >= 0"))
    else
      var t := Tangent(contact);
      var thr := Throttle(input, t);
      if Abs(thr) < ThrottleDeadZone then Ok(Zero2)
      else
        var k := DriveMagnitude(thr, contact, groundForceMax, stickyGloveForce);
        DotScale(t, k, contact.normal);
        Ok(Scale(t, k))
  }

  /** Reversing the input reverses the throttle. */
  lemma ThrottleIsOdd(input: Vec2, tangent: Vec2)
    ensures Throttle(Neg(input), tangent) == -Throttle(input, tangent)
  {
    assert Dot(Neg(input), tangent) == -Dot(input, tangent);
  }

  /** Reversing the throttle reverses the drive magnitude. */
  lemma DriveMagnitudeIsOdd(thr: real, contact: FrictionContact2D, groundForceMax: real, stickyGloveForce: real)
    ensures DriveMagnitude(-thr, contact, groundForceMax, stickyGloveForce)
            == -DriveMagnitude(thr, contact, groundForceMax, stickyGloveForce)
  {
    var n := if contact.normalForceMag >= 0.0 then contact.normalForceMag else 0.0;
    NegatedFactor(groundForceMax, thr, contact.tractionCoeff, n + stickyGloveForce);
  }

  lemma NegatedFactor(a: real, b: real, c: real, d: real)
    ensures a * -b * c * d == -(a * b * c * d)
  {
  }

  /** Reversing the input reverses the drive force: equal magnitude,
      opposite direction. */
  lemma DriveIsOdd(input: Vec2, contact: FrictionContact2D, groundForceMax: real, stickyGloveForce: real)
    requires groundForceMax >= 0.0
    ensures DriveForce(Neg(input), contact, groundForceMax, stickyGloveForce).value
            == Neg(DriveForce(input, contact, groundForceMax, stickyGloveForce).value)
  {
    if Abs(Throttle(input, Tangent(contact))) < ThrottleDeadZone {
      DriveIsOddInDeadZone(input, contact, groundForceMax, stickyGloveForce);
    } else {
      DriveIsOddOutsideDeadZone(input, contact, groundForceMax, stickyGloveForce);
    }
  }

  lemma DriveIsOddInDeadZone(input: Vec2, contact: FrictionContact2D, groundForceMax: real, stickyGloveForce: real)
    requires groundForceMax >= 0.0 && Abs(Throttle(input, Tangent(contact))) < ThrottleDeadZone
    ensures DriveForce(Neg(input), contact, groundForceMax, stickyGloveForce).value
            == Neg(DriveForce(input, contact, groundForceMax, stickyGloveForce).value)
  {
    ThrottleIsOdd(input, Tangent(contact));
    AbsOfNeg(Throttle(input, Tangent(contact)));
    DriveInDeadZone(input, contact, groundForceMax, stickyGloveForce);
    DriveInDeadZone(Neg(input), contact, groundForceMax, stickyGloveForce);
    NegOfZero();
  }

  lemma NegOfZero()
    ensures Neg(Zero2) == Zero2
  {
  }

  lemma DriveIsOddOutsideDeadZone(input: Vec2, contact: FrictionContact2D, groundForceMax: real,
                                  stickyGloveForce: real)
    requires groundForceMax >= 0.0 && Abs(Throttle(input, Tangent(contact))) >= ThrottleDeadZone
    ensures DriveForce(Neg(input), contact, groundForceMax, stickyGloveForce).value
            == Neg(DriveForce(input, contact, groundForceMax, stickyGloveForce).value)
  {
    var t := Tangent(contact);
    var thr := Throttle(input, t);
    ThrottleIsOdd(input, t);
    DriveOutsideDeadZone(input, contact, groundForceMax, stickyGloveForce);
    DriveOutsideDeadZone(Neg(input), contact, groundForceMax, stickyGloveForce);
    DriveMagnitudeIsOdd(thr, contact, groundForceMax, stickyGloveForce);
    ScaleNegated(t, DriveMagnitude(thr, contact, groundForceMax, stickyGloveForce));
  }

  lemma DriveInDeadZone(input: Vec2, contact: FrictionContact2D, groundForceMax: real, stickyGloveForce: real)
    requires groundForceMax >= 0.0 && Abs(Throttle(input, Tangent(contact))) < ThrottleDeadZone
    ensures DriveForce(input, contact, groundForceMax, stickyGloveForce) == Ok(Zero2)
  {
  }

  lemma DriveOutsideDeadZone(input: Vec2, contact: FrictionContact2D, groundForceMax: real, stickyGloveForce: real)
    requires groundForceMax >= 0.0 && Abs(Throttle(input, Tangent(contact))) >= ThrottleDeadZone
    ensures DriveForce(input, contact, groundForceMax, stickyGloveForce)
            == Ok(Scale(Tangent(contact), DriveMagnitude(Throttle(input, Tangent(contact)), contact,
                                                         groundForceMax, stickyGloveForce)))
  {
  }

  lemma ScaleNegated(t: Vec2, k: real)
    ensures Scale(t, -k) == Neg(Scale(t, k))
  {
  }

  /** On flat ground with no normal force, a non-zero sticky-glove force
      still drives, whatever the velocity along the ground: full input to
      the right with maximum force 100 and glove force 1 gives (100, 0), not
      zero. */
  lemma GloveDrivesWithoutNormalForce(velocityX: real)
    ensures DriveForce(Vec2(1.0, 0.0), NewContact(Vec2(0.0, 1.0), Vec2(velocityX, 0.0), 0.0, 1.0), 100.0, 1.0)
            == Ok(Vec2(100.0, 0.0))
  {
    FlatGloveDrive(NewContact(Vec2(0.0, 1.0), Vec2(velocityX, 0.0), 0.0, 1.0));
  }

  lemma FlatGloveDrive(c: FrictionContact2D)
    requires c.normal == Vec2(0.0, 1.0) && c.normalForceMag == 0.0 && c.tractionCoeff == 1.0
    ensures DriveForce(Vec2(1.0, 0.0), c, 100.0, 1.0) == Ok(Vec2(100.0, 0.0))
  {
    FlatTangent(c);
    FlatThrottle(Tangent(c));
    FlatGloveMagnitude(c);
    FlatDriveScale();
  }

  lemma FlatDriveScale()
    ensures Scale(Vec2(1.0, 0.0), 100.0) == Vec2(100.0, 0.0)
  {
  }

  lemma FlatTangent(c: FrictionContact2D)
    requires c.normal == Vec2(0.0, 1.0)
    ensures Tangent(c) == Vec2(1.0, 0.0)
  {
  }

  lemma FlatThrottle(t: Vec2)
    requires t == Vec2(1.0, 0.0)
    ensures Throttle(Vec2(1.0, 0.0), t) == 1.0
  {
  }

  lemma FlatGloveMagnitude(c: FrictionContact2D)
    requires c.normalForceMag == 0.0 && c.tractionCoeff == 1.0
    ensures DriveMagnitude(1.0, c, 100.0, 1.0) == 100.0
  {
  }

  /** The scalar the tangent velocity is multiplied by when there is normal
      force: the traction coefficient, the drag coefficient and the normal
      force plus the glove force, with the sign reversed. */
  function DragFactor(contact: FrictionContact2D, runDragCoeff: real, stickyGloveForce: real): (k: real)
    ensures runDragCoeff == 0.0 ==> k == 0.0
    ensures contact.tractionCoeff >= 0.0 && runDragCoeff >= 0.0 && contact.normalForceMag + stickyGloveForce >= 0.0
            ==> k <= 0.0
  {
    ProductFollowsSign(1.0, runDragCoeff, contact.tractionCoeff, contact.normalForceMag + stickyGloveForce);
    -(contact.tractionCoeff * runDragCoeff * (contact.normalForceMag + stickyGloveForce))
  }

  /** `ground_drag_force_2d`. A negative drag coefficient fails a debug
      assertion. Without normal force there is no drag; otherwise it is the
      tangent velocity scaled by `DragFactor`. */
  function DragForce(contact: FrictionContact2D, runDragCoeff: real, stickyGloveForce: real): (r: Result<Vec2>)
    ensures r.Err? <==> runDragCoeff < 0.0
    ensures r.Err? ==> r.error.Panic?
    ensures r.Ok? && contact.normalForceMag <= 0.0 ==> r.value == Zero2
    ensures r.Ok? && contact.normalForceMag > 0.0 ==>
              r.value == Scale(contact.tangentRelativeVelocity, DragFactor(contact, runDragCoeff, stickyGloveForce))
  {
    if runDragCoeff < 0.0 then Err(Panic("debug_assert: run_drag_coeff >= 0"))
    else
      var n := contact.normalForceMag;
      if n <= 0.0 then Ok(Zero2)
      else Ok(Scale(contact.tangentRelativeVelocity, DragFactor(contact, runDragCoeff, stickyGloveForce)))
  }

  /** The drag opposes the tangent velocity whenever its scale factor is
      positive, and lies along the ground whenever the tangent velocity
      does, as it does for every contact built by `new`. */
  lemma DragOpposesMotion(contact: FrictionContact2D, runDragCoeff: real, stickyGloveForce: real)
    requires runDragCoeff >= 0.0 && contact.normalForceMag > 0.0
    requires contact.tractionCoeff * runDragCoeff * (contact.normalForceMag + stickyGloveForce) > 0.0
    requires contact.tangentRelativeVelocity != Zero2
    ensures Dot(DragForce(contact, runDragCoeff, stickyGloveForce).value, contact.tangentRelativeVelocity) < 0.0
    ensures Dot(contact.tangentRelativeVelocity, contact.normal) == 0.0 ==>
              Dot(DragForce(contact, runDragCoeff, stickyGloveForce).value, contact.normal) == 0.0
  {
    var v := contact.tangentRelativeVelocity;
    var k := DragFactor(contact, runDragCoeff, stickyGloveForce);
    DotScale(v, k, v);
    DotScale(v, k, contact.normal);
    NormSquaredSign(v);
    assert k == -(contact.tractionCoeff * runDragCoeff * (contact.normalForceMag + stickyGloveForce));
    assert k * Dot(v, v) < 0.0;
  }

  lemma DoublingLastFactor(a: real, n: real)
    ensures -(a * (2.0 * n + 0.0)) == 2.0 * -(a * (n + 0.0))
  {
  }

  /** Without glove force the drag is proportional to the normal force:
      doubling the normal force doubles the drag. */
  lemma DragProportionalToNormalForce(contact: FrictionContact2D, runDragCoeff: real)
    requires runDragCoeff >= 0.0 && contact.normalForceMag > 0.0
    ensures DragForce(contact.(normalForceMag := 2.0 * contact.normalForceMag), runDragCoeff, 0.0).value
            == Scale(DragForce(contact, runDragCoeff, 0.0).value, 2.0)
  {
    var v := contact.tangentRelativeVelocity;
    var k := DragFactor(contact, runDragCoeff, 0.0);
    var c2 := contact.(normalForceMag := 2.0 * contact.normalForceMag);
    DoublingLastFactor(contact.tractionCoeff * runDragCoeff, contact.normalForceMag);
    assert DragFactor(c2, runDragCoeff, 0.0) == 2.0 * k;
    assert DragForce(c2, runDragCoeff, 0.0).value == Scale(v, 2.0 * k);
    assert DragForce(contact, runDragCoeff, 0.0).value == Scale(v, k);
    ScaleTwice(v, k);
  }

  lemma ScaleTwice(v: Vec2, k: real)
    ensures Scale(v, 2.0 * k) == Scale(Scale(v, k), 2.0)
  {
    assert v.x * (2.0 * k) == (v.x * k) * 2.0;
    assert v.y * (2.0 * k) == (v.y * k) * 2.0;
  }

  /** `ground_net_force_2d`: drive plus drag. */
  function NetForce(input: Vec2, contact: FrictionContact2D, runDragCoeff: real, groundForceMax: real,
                    stickyGloveForce: real): (r: Result<Vec2>)
    ensures r.Ok? <==> groundForceMax >= 0.0 && runDragCoeff >= 0.0
    ensures r.Ok? ==> r.value == Add(DriveForce(input, contact, groundForceMax, stickyGloveForce).value,
                                     DragForce(contact, runDragCoeff, stickyGloveForce).value)
  {
    var drive :- DriveForce(input, contact, groundForceMax, stickyGloveForce);
    var drag :- DragForce(contact, runDragCoeff, stickyGloveForce);
    Ok(Add(drive, drag))
  }

  /** For a contact built by `new` the whole ground force acts along the
      ground: it has no component along the normal. */
  lemma NetForceAlongGround(normal: Vec2, approxVel: Vec2, normalForceMag: real, tractionCoeff: real,
                            input: Vec2, runDragCoeff: real, groundForceMax: real, stickyGloveForce: real)
    requires groundForceMax >= 0.0 && runDragCoeff >= 0.0
    ensures var c := NewContact(normal, approxVel, normalForceMag, tractionCoeff);
            Dot(NetForce(input, c, runDragCoeff, groundForceMax, stickyGloveForce).value, normal) == 0.0
  {
    var c := NewContact(normal, approxVel, normalForceMag, tractionCoeff);
    DotScale(c.tangentRelativeVelocity, DragFactor(c, runDragCoeff, stickyGloveForce), normal);
  }

  /** `ground_accel_2d`: the ground force divided by the mass, plus gravity. */
  function Accel(input: Vec2, contact: FrictionContact2D, givens: Givens, unknowns: Derived): (r: Result<Vec2>)
    requires givens.mass != 0.0
    ensures r.Ok? <==> unknowns.runForceMax >= 0.0 && unknowns.runDragCoeff >= 0.0
    ensures r.Ok? ==>
              r.value == ForceToAccel(NetForce(input, contact, unknowns.runDragCoeff, unknowns.runForceMax,
                                               unknowns.stickyGloveForce).value, givens.mass, unknowns.g)
  {
    var f :- NetForce(input, contact, unknowns.runDragCoeff, unknowns.runForceMax, unknowns.stickyGloveForce);
    Ok(ForceToAccel(f, givens.mass, unknowns.g))
  }
}
