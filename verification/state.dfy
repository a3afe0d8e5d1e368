/** The dynamics example's state: the friction contact frame at a ground
    contact and the body's dynamic state, with their conversions to and
    from dual numbers for automatic differentiation. */
module State {
  import opened Wrappers
  import opened LinAlg

  /** `estimate_normal_force_from_gravity`: the part of the gravity force
      `(0, m*g)` pressing into the surface, never negative. It lives beside
      the ground forces in the source and is placed here because the
      equilibrium contact needs it. */
  function EstimateNormalForce(mass: real, g: real, n: Vec2): (f: real)
    ensures f >= 0.0
    ensures f == 0.0 || f == -Dot(Vec2(0.0, mass * g), n)
    ensures -Dot(Vec2(0.0, mass * g), n) >= 0.0 ==> f == -Dot(Vec2(0.0, mass * g), n)
  {
    var fg := Vec2(0.0, mass * g);
    var pressing := -Dot(fg, n);
    if pressing >= 0.0 then pressing else 0.0
  }

  /** The worked values: 2 kg under gravity -10 on flat ground presses with
      20 N; on a ceiling (normal pointing down) with nothing. */
  lemma NormalForceExamples()
    ensures EstimateNormalForce(2.0, -10.0, Vec2(0.0, 1.0)) == 20.0
    ensures EstimateNormalForce(2.0, -10.0, Vec2(0.0, -1.0)) == 0.0
  {
  }

  /** The tangent `(n.y, -n.x)` of a normal. */
  function TangentOf(n: Vec2): Vec2 {
    Vec2(n.y, -n.x)
  }

  /** `FrictionContact2D`: the outward unit normal, the normal force's
      magnitude, the velocity relative to the ground along the tangent, and
      the share of the normal force usable for traction. */
  datatype FrictionContact2D = FrictionContact2D(
    normal: Vec2,
    normalForceMag: real,
    tangentRelativeVelocity: Vec2,
    tractionCoeff: real)

  /** `FrictionContact2D::tangent`: the normal turned a quarter clockwise;
      normalising it changes nothing because it is already of length one. */
  function Tangent(c: FrictionContact2D): (t: Vec2)
    ensures Dot(t, c.normal) == 0.0
    ensures t.x == c.normal.y && t.y == -c.normal.x
  {
    TangentOf(c.normal)
  }

  /** The tangent of a unit normal is itself of length one. */
  lemma TangentIsUnit(c: FrictionContact2D)
    requires IsUnit(c.normal)
    ensures IsUnit(Tangent(c))
  {
    SquareOfNeg(c.normal.x);
  }

  /** `FrictionContact2D::new`: a negative normal force becomes 0, the
      velocity is projected onto the tangent, and the traction coefficient
      is clamped to [0, 1]. */
  function NewContact(normal: Vec2, approxTangentVel: Vec2, normalForceMag: real, tractionCoeff: real)
    : (c: FrictionContact2D)
    ensures c.normal == normal
    ensures c.normalForceMag >= 0.0
    ensures normalForceMag >= 0.0 ==> c.normalForceMag == normalForceMag
    ensures normalForceMag < 0.0 ==> c.normalForceMag == 0.0
    ensures 0.0 <= c.tractionCoeff <= 1.0
    ensures 0.0 <= tractionCoeff <= 1.0 ==> c.tractionCoeff == tractionCoeff
    ensures Dot(c.tangentRelativeVelocity, normal) == 0.0
  {
    var n := if normalForceMag >= 0.0 then normalForceMag else 0.0;
    var t := TangentOf(normal);
    var vtMag := Dot(approxTangentVel, t);
    var vt := Scale(t, vtMag);
    assert Dot(vt, normal) == normal.y * vtMag * normal.x - normal.x * vtMag * normal.y;
    var lo := if tractionCoeff >= 0.0 then tractionCoeff else 0.0;
    var tc := if lo <= 1.0 then lo else 1.0;
    FrictionContact2D(normal, n, vt, tc)
  }

  /** A velocity already along the ground is kept as it is: the projection
      onto the tangent of a unit normal does not change it. */
  lemma TangentVelocityIsKept(normal: Vec2, v: Vec2, normalForceMag: real, tractionCoeff: real)
    requires IsUnit(normal) && Dot(v, normal) == 0.0
    ensures NewContact(normal, v, normalForceMag, tractionCoeff).tangentRelativeVelocity == v
  {
    var n := normal;
    var k := v.x * n.y - v.y * n.x;
    assert v.y * n.y == -(v.x * n.x);
    assert v.x * n.x == -(v.y * n.y);
    calc {
      n.y * k;
      v.x * (n.y * n.y) - n.x * (v.y * n.y);
      v.x * (n.y * n.y) + n.x * (v.x * n.x);
      v.x * (n.x * n.x + n.y * n.y);
      v.x;
    }
    calc {
      -n.x * k;
      -(n.x * (v.x * n.y)) + v.y * (n.x * n.x);
      -(n.y * (v.x * n.x)) + v.y * (n.x * n.x);
      n.y * (v.y * n.y) + v.y * (n.x * n.x);
      v.y * (n.x * n.x + n.y * n.y);
      v.y;
    }
  }

  /** Building a contact from values that already satisfy its invariants
      (a tangent velocity, a non-negative normal force, a traction
      coefficient in [0, 1]) stores them unchanged. */
  lemma NewContactKeepsValidInputs(normal: Vec2, v: Vec2, normalForceMag: real, tractionCoeff: real)
    requires IsUnit(normal) && Dot(v, normal) == 0.0
    requires normalForceMag >= 0.0 && 0.0 <= tractionCoeff <= 1.0
    ensures NewContact(normal, v, normalForceMag, tractionCoeff) == FrictionContact2D(normal, normalForceMag, v, tractionCoeff)
  {
    TangentVelocityIsKept(normal, v, normalForceMag, tractionCoeff);
  }

  /** The worked value: on flat ground the velocity (3, 2) keeps only its
      horizontal part. */
  lemma FlatGroundProjection()
    ensures NewContact(Vec2(0.0, 1.0), Vec2(3.0, 2.0), 100.0, 1.0).tangentRelativeVelocity == Vec2(3.0, 0.0)
  {
    var t := TangentOf(Vec2(0.0, 1.0));
    assert t == Vec2(1.0, 0.0);
    assert Dot(Vec2(3.0, 2.0), t) == 3.0;
  }

  /** `new_equilibrium_contact`: the normal force is the one gravity alone
      would press with. Gravity must point down (a debug assertion). */
  function NewEquilibriumContact(normal: Vec2, approxTangentVel: Vec2, tractionCoeff: real, g: real, mass: real)
    : (r: Result<FrictionContact2D>)
    ensures r.Err? <==> g >= 0.0
    ensures r.Err? ==> r.error.Panic?
    ensures r.Ok? ==> r.value == NewContact(normal, approxTangentVel, EstimateNormalForce(mass, g, normal), tractionCoeff)
  {
    if g >= 0.0 then Err(Panic("gravity_acc_y should be negative"))
    else
      var f := EstimateNormalForce(mass, g, normal);
      Ok(NewContact(normal, approxTangentVel, f, tractionCoeff))
  }

  /** On flat ground with the normal pointing up, an equilibrium contact
      presses with the full weight `-m*g`, for a positive mass. */
  lemma EquilibriumContactCarriesWeight(approxTangentVel: Vec2, tractionCoeff: real, g: real, mass: real)
    requires g < 0.0 && mass > 0.0
    ensures var r := NewEquilibriumContact(Vec2(0.0, 1.0), approxTangentVel, tractionCoeff, g, mass);
            r.Ok? && r.value.normalForceMag == -(mass * g) > 0.0
  {
    assert mass * g < 0.0;
  }

  /** How far off the ground the world velocity may point in
      `new_equilibrium_contact_from_angle`: its component along the normal
      must stay below this (a debug assertion). */
  const OrthogonalityTolerance: real := 0.0001

  /** `new_equilibrium_contact_from_angle`, given the normal its tangent
      angle determines. Gravity must point down and the world velocity must
      lie along the ground within the tolerance (both debug assertions);
      the traction coefficient is 1. */
  function NewEquilibriumContactFromNormal(n: Vec2, worldVel: Vec2, g: real, mass: real)
    : (r: Result<FrictionContact2D>)
    ensures r.Err? <==> g >= 0.0 || Abs(Dot(worldVel, n)) >= OrthogonalityTolerance
    ensures r.Err? ==> r.error.Panic?
    ensures r.Ok? ==> r == NewEquilibriumContact(n, worldVel, 1.0, g, mass)
  {
    if g >= 0.0 then Err(Panic("gravity_acc_y should be negative"))
    else if Abs(Dot(worldVel, n)) >= OrthogonalityTolerance then
      Err(Panic("world_vel must be orthogonal to normal for ground contact"))
    else
      Ok(NewContact(n, worldVel, EstimateNormalForce(mass, g, n), 1.0))
  }

  /** The normal for tangent angle 0: flat ground, pointing up. */
  const Up: Vec2 := Vec2(0.0, 1.0)

  /** On flat ground, with gravity down, a positive mass and a velocity
      whose vertical part is within the tolerance, the contact carries the
      full weight, keeps only the horizontal velocity, and has full
      traction. */
  lemma FlatEquilibriumContact(worldVel: Vec2, g: real, mass: real)
    requires g < 0.0 && mass > 0.0 && Abs(worldVel.y) < OrthogonalityTolerance
    ensures NewEquilibriumContactFromNormal(Up, worldVel, g, mass)
            == Ok(FrictionContact2D(Up, -(mass * g), Vec2(worldVel.x, 0.0), 1.0))
  {
    VerticalComponent(worldVel);
    WeightOnFlatGround(g, mass);
    HorizontalProjection(worldVel);
  }

  lemma VerticalComponent(v: Vec2)
    ensures Dot(v, Up) == v.y
  {
  }

  lemma WeightOnFlatGround(g: real, mass: real)
    requires g < 0.0 && mass > 0.0
    ensures EstimateNormalForce(mass, g, Up) == -(mass * g)
  {
    assert mass * g < 0.0;
  }

  lemma HorizontalProjection(v: Vec2)
    ensures Scale(TangentOf(Up), Dot(v, TangentOf(Up))) == Vec2(v.x, 0.0)
  {
  }

  /** Acceleration from a net force: the force divided by the mass, plus
      gravity along y. Multiplying back by the mass recovers the force
      (Newton's second law with gravity apart). */
  function ForceToAccel(f: Vec2, mass: real, g: real): (a: Vec2)
    requires mass != 0.0
    ensures a.x * mass == f.x
    ensures (a.y - g) * mass == f.y
  {
    var a := Add(Div(f, mass), Vec2(0.0, g));
    assert a.y - g == f.y / mass;
    a
  }

  /** `DynamicsState`. */
  datatype DynamicsState = DynamicsState(
    vel: Vec2,
    input: Vec2,
    contact: Option<FrictionContact2D>,
    jumpBoostActive: bool)

  /** `DynamicsState::new_zeroed`: at rest, no input, airborne, no boost. */
  function NewZeroedState(): (s: DynamicsState)
    ensures s.vel == Zero2 && s.input == Zero2
    ensures s.contact.None? && !s.jumpBoostActive
  {
    DynamicsState(Zero2, Zero2, None, false)
  }

  /** `adfn<1>`: a value with one tangent (derivative) component. */
  datatype Dual = Dual(value: real, tangent: real)

  /** `T::constant`: a value whose derivative is zero. */
  function Constant(x: real): (d: Dual)
    ensures d.value == x && d.tangent == 0.0
  {
    Dual(x, 0.0)
  }

  datatype DualVec2 = DualVec2(x: Dual, y: Dual)

  function ConstantVec(v: Vec2): (d: DualVec2)
    ensures d.x == Constant(v.x) && d.y == Constant(v.y)
  {
    DualVec2(Constant(v.x), Constant(v.y))
  }

  function ValueVec(d: DualVec2): (v: Vec2)
    ensures v.x == d.x.value && v.y == d.y.value
  {
    Vec2(d.x.value, d.y.value)
  }

  /** `FrictionContact2D<adfn<1>>`. */
  datatype DualContact = DualContact(
    normal: DualVec2,
    normalForceMag: Dual,
    tangentRelativeVelocity: DualVec2,
    tractionCoeff: Dual)

  /** `FrictionContact2D::to_ad`: every field becomes a constant of the same
      value; re-normalising the unit normal changes nothing. */
  function ContactToAd(c: FrictionContact2D): (d: DualContact)
    ensures ValueVec(d.normal) == c.normal && d.normal.x.tangent == 0.0 && d.normal.y.tangent == 0.0
    ensures d.normalForceMag == Constant(c.normalForceMag)
    ensures d.tangentRelativeVelocity == ConstantVec(c.tangentRelativeVelocity)
    ensures d.tractionCoeff == Constant(c.tractionCoeff)
  {
    DualContact(ConstantVec(c.normal), Constant(c.normalForceMag), ConstantVec(c.tangentRelativeVelocity), Constant(c.tractionCoeff))
  }

  /** `FrictionContact2D::to_f64`: every field's value; derivatives are
      dropped. */
  function ContactToF64(d: DualContact): (c: FrictionContact2D)
    ensures c.normal == ValueVec(d.normal)
    ensures c.normalForceMag == d.normalForceMag.value
    ensures c.tangentRelativeVelocity == ValueVec(d.tangentRelativeVelocity)
    ensures c.tractionCoeff == d.tractionCoeff.value
  {
    FrictionContact2D(ValueVec(d.normal), d.normalForceMag.value, ValueVec(d.tangentRelativeVelocity), d.tractionCoeff.value)
  }

  /** Converting to dual numbers and back returns the contact unchanged,
      and converting back and forth keeps every value of a dual contact. */
  lemma ContactConversionsRoundTrip(c: FrictionContact2D, d: DualContact)
    ensures ContactToF64(ContactToAd(c)) == c
    ensures ContactToF64(ContactToAd(ContactToF64(d))) == ContactToF64(d)
  {
  }

  /** `DynamicsState<adfn<1>>`. */
  datatype DualState = DualState(
    vel: DualVec2,
    input: DualVec2,
    contact: Option<DualContact>,
    jumpBoostActive: bool)

  /** `DynamicsState::to_ad`. */
  function StateToAd(s: DynamicsState): (d: DualState)
    ensures d.vel == ConstantVec(s.vel) && d.input == ConstantVec(s.input)
    ensures d.contact.Some? <==> s.contact.Some?
    ensures s.contact.Some? ==> d.contact.value == ContactToAd(s.contact.value)
    ensures d.jumpBoostActive == s.jumpBoostActive
  {
    var c := match s.contact
      case None => None
      case Some(k) => Some(ContactToAd(k));
    DualState(ConstantVec(s.vel), ConstantVec(s.input), c, s.jumpBoostActive)
  }

  /** The dual state holds the same values as the state it came from, with
      every derivative zero. */
  lemma StateToAdKeepsValues(s: DynamicsState)
    ensures var d := StateToAd(s);
            && ValueVec(d.vel) == s.vel && ValueVec(d.input) == s.input
            && d.vel.x.tangent == d.vel.y.tangent == d.input.x.tangent == d.input.y.tangent == 0.0
            && (s.contact.Some? ==> ContactToF64(d.contact.value) == s.contact.value)
  {
    if s.contact.Some? {
      ContactConversionsRoundTrip(s.contact.value, StateToAd(s).contact.value);
    }
  }
}
