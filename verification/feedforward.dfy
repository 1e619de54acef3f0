/** The permanent-magnet DC motor feedforward model of WPILib's
    `SimpleMotorFeedforward`: a static-friction voltage in the direction of
    motion, plus a voltage proportional to velocity and one proportional to
    acceleration. */
module Feedforward {
  import opened RealMath

  /** The three characterisation constants: kS (volts), kV (volts per unit of
      velocity) and kA (volts per unit of acceleration). */
  datatype SimpleMotorFeedforward = SimpleMotorFeedforward(ks: real, kv: real, ka: real)
  {
    /** `calculate(velocity, acceleration)`: kS * sgn(v) + kV * v + kA * a.
        At rest the static-friction term drops out entirely. */
    function Calculate(velocity: real, acceleration: real): (voltage: real)
      ensures velocity > 0.0 ==> voltage == ks + kv * velocity + ka * acceleration
      ensures velocity < 0.0 ==> voltage == -ks + kv * velocity + ka * acceleration
      ensures velocity == 0.0 ==> voltage == ka * acceleration
    {
      ks * Sign(velocity) + kv * velocity + ka * acceleration
    }
  }

  /** Reversing the motion reverses the voltage: the model is odd in (v, a). */
  lemma CalculateOdd(ff: SimpleMotorFeedforward, velocity: real, acceleration: real)
    ensures ff.Calculate(-velocity, -acceleration) == -ff.Calculate(velocity, acceleration)
  {
  }
}
