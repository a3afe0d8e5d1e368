/** The dynamics example's parameter structs: the givens a designer picks
    and the derived unknowns the solver finds. */
module Params {

  /** `DynamicsGivenParams`. */
  datatype Givens = Givens(
    mass: real,
    jumpTimeUp: real,
    jumpTimeDown: real,
    jumpHeight: real,
    maxAirSpeedX: real,
    timeTo95pctMaxAirSpeedX: real,
    maxVelRun: real,
    timeTo95pctMaxVelRun: real,
    xStopSpeedThreshold: real,
    wallSlideTerminalVel: real,
    stickyGloveAngleDeg: real)

  /** `DynamicsDerivedParams`. */
  datatype Derived = Derived(
    airDragCoeff: real,
    airThrustMax: real,
    g: real,
    jumpVy0: real,
    jumpBoostForce: real,
    runForceMax: real,
    runDragCoeff: real,
    stickyGloveForce: real)
}
