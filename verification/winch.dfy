/** The climbing winch: a two-state hoist/stop machine that emits one motor
    output per control tick. The motor controller is not modelled; the output
    it would be sent is returned by `Execute`. */
module WinchComponent {

  /** The duty cycle used while hoisting. */
  const HOIST_SPEED: real := 0.5

  class Winch {
    var isHoisting: bool
    var desiredOutput: real

    /** The invariant of every reachable state: the requested output is either
        zero or the hoist speed, and it is zero exactly when not hoisting. */
    ghost predicate Valid()
      reads this
    {
      && (desiredOutput == 0.0 || desiredOutput == HOIST_SPEED)
      && (desiredOutput == 0.0 <==> !isHoisting)
    }

    /** A new winch is stopped with a zero output. */
    constructor ()
      ensures Valid()
      ensures !isHoisting && desiredOutput == 0.0
    {
      isHoisting := false;
      desiredOutput := 0.0;
    }

    /** Enabling does nothing. */
    method OnEnable()
      ensures isHoisting == old(isHoisting) && desiredOutput == old(desiredOutput)
    {
    }

    /** Disabling stops the winch. */
    method OnDisable()
      modifies this
      ensures Valid()
      ensures !isHoisting && desiredOutput == 0.0
    {
      Stop();
    }

    /** Hoist at HOIST_SPEED. The requested output is ignored. */
    method Hoist(output: real)
      modifies this
      ensures Valid()
      ensures isHoisting && desiredOutput == HOIST_SPEED
    {
      isHoisting := true;
      desiredOutput := HOIST_SPEED;
    }

    /** Stop: not hoisting with a zero output, whatever the state before, so a
        second stop changes nothing. */
    method Stop()
      modifies this
      ensures Valid()
      ensures !isHoisting && desiredOutput == 0.0
    {
      isHoisting := false;
      desiredOutput := 0.0;
    }

    /** One control tick: the output sent to the motor. It is zero unless
        hoisting; in every reachable state it is just the requested output,
        HOIST_SPEED while hoisting. No field changes. */
    method Execute() returns (output: real)
      ensures !isHoisting ==> output == 0.0
      ensures isHoisting ==> output == desiredOutput
      ensures Valid() ==> output == desiredOutput
      ensures Valid() ==> (output == if isHoisting then HOIST_SPEED else 0.0)
    {
      if isHoisting {
        output := desiredOutput;
      } else {
        output := 0.0;
      }
    }
  }
}
