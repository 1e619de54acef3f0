/** The shooter flywheel: a velocity-controlled motor behind a 30:56 gear
    stage, driven by closed-loop velocity control plus a feedforward voltage,
    with a distance-to-RPM shot table.

    The motor's encoder, the `DESIRED_RPM` tunable and the length of a foot in
    metres are not ambient state here: they are passed to the operations that
    read them. The commands sent to the motor controller are returned as a
    `FlywheelCommand`. */
module FlywheelComponent {
  import opened RealMath
  import opened Interpolation
  import opened Feedforward

  // Gearing between the motor (input) and the flywheel (output).
  const GEAR_RATIO: real := 30.0 / 56.0
  const INPUTS_PER_OUTPUT: real := GEAR_RATIO
  const OUTPUTS_PER_INPUT: real := 1.0 / GEAR_RATIO

  // Motor characterisation for the feedforward model.
  const FLYWHEEL_KS: real := 0.0574     // volts
  const FLYWHEEL_KV: real := 0.002183   // volts per rpm
  const FLYWHEEL_KA: real := 0.00102    // volts per (rpm per second)
  const CHARACTERIZATION: SimpleMotorFeedforward :=
    SimpleMotorFeedforward(FLYWHEEL_KS, FLYWHEEL_KV, FLYWHEEL_KA)

  /** Fraction of the setpoint within which the flywheel counts as at speed. */
  const RPM_TOLERANCE: real := 0.05

  /** Shot table: distances in feet (converted to metres by `Distances`) and
      the flywheel speed to use at each. */
  const FEET: seq<real> := [6.0, 7.0, 8.0, 9.0, 10.0, 11.0, 12.0, 13.0, 14.0, 15.0, 16.0]
  const RPMS: seq<real> := [4620.0, 4620.0, 4390.0, 4200.0, 4250.0, 4300.0, 4220.0, 4300.0, 4330.0, 4350.0, 4360.0]

  /** The closed-loop gains pushed to the motor controller. */
  datatype PidGains = PidGains(kp: real, ki: real, kd: real, kf: real, izone: real)

  /** What `execute` asks of the motor controller in one tick: a closed-loop
      velocity reference in motor rpm (PID slot and arbitrary feedforward
      voltage included), or an open-loop duty cycle. */
  datatype FlywheelCommand =
    | VelocityReference(reference: real, pidSlot: nat, arbFeedforward: real)
    | OpenLoop(output: real)

  /** Flywheel rpm to motor rpm. */
  function ToInternal(flywheelRpm: real): real
  {
    flywheelRpm * INPUTS_PER_OUTPUT
  }

  /** Motor rpm to flywheel rpm. */
  function ToExternal(motorRpm: real): real
  {
    motorRpm * OUTPUTS_PER_INPUT
  }

  /** The two gear constants are reciprocal, so the conversions undo each other. */
  lemma GearRoundTrip(x: real)
    ensures INPUTS_PER_OUTPUT * OUTPUTS_PER_INPUT == 1.0
    ensures ToExternal(ToInternal(x)) == x
    ensures ToInternal(ToExternal(x)) == x
  {
    assert INPUTS_PER_OUTPUT * OUTPUTS_PER_INPUT == 1.0;
    calc {
      ToExternal(ToInternal(x));
      (x * INPUTS_PER_OUTPUT) * OUTPUTS_PER_INPUT;
      x * (INPUTS_PER_OUTPUT * OUTPUTS_PER_INPUT);
    }
    calc {
      ToInternal(ToExternal(x));
      (x * OUTPUTS_PER_INPUT) * INPUTS_PER_OUTPUT;
      x * (INPUTS_PER_OUTPUT * OUTPUTS_PER_INPUT);
    }
  }

  /** The shot-table distances in metres, for a foot of `metersPerFoot` metres. */
  function Distances(metersPerFoot: real): (ds: seq<real>)
    requires metersPerFoot > 0.0
    ensures |ds| == |FEET| == |RPMS|
    ensures forall i :: 0 <= i < |ds| ==> ds[i] == FEET[i] * metersPerFoot
    ensures IsTable(ds, RPMS)
  {
    FeetIncreasing();
    var ds := seq(|FEET|, i requires 0 <= i < |FEET| => FEET[i] * metersPerFoot);
    forall i, j | 0 <= i < j < |ds| ensures ds[i] < ds[j] {
      ScaleStrict(FEET[i], FEET[j], metersPerFoot, ds[i], ds[j]);
    }
    ds
  }

  /** The feet column of the table is strictly increasing. */
  lemma FeetIncreasing()
    ensures StrictlyIncreasing(FEET)
  {
    forall k | 0 <= k < |FEET| ensures FEET[k] == (k + 6) as real {
      assert k == 0 || k == 1 || k == 2 || k == 3 || k == 4 || k == 5
          || k == 6 || k == 7 || k == 8 || k == 9 || k == 10;
    }
  }

  /** Scaling by a positive factor keeps a strict ordering. */
  lemma ScaleStrict(a: real, b: real, m: real, am: real, bm: real)
    requires a < b && m > 0.0 && am == a * m && bm == b * m
    ensures am < bm
  {
  }

  /** Every entry of the rpm column lies between 4200 and 4620. */
  lemma RpmsRange()
    ensures forall k :: 0 <= k < |RPMS| ==> 4200.0 <= RPMS[k] <= 4620.0
  {
    forall k | 0 <= k < |RPMS| ensures 4200.0 <= RPMS[k] <= 4620.0 {
      assert k == 0 || k == 1 || k == 2 || k == 3 || k == 4 || k == 5
          || k == 6 || k == 7 || k == 8 || k == 9 || k == 10;
    }
  }

  /** `np.interp(distance, DISTANCES, RPMS)`: the flywheel speed for a shot
      from `distance` metres, never outside the table's speeds. */
  function ShotRpm(distance: real, metersPerFoot: real): (rpm: real)
    requires metersPerFoot > 0.0
    ensures 4200.0 <= rpm <= 4620.0
  {
    RpmsRange();
    InterpWithin(distance, Distances(metersPerFoot), RPMS, 4200.0, 4620.0);
    Interp(distance, Distances(metersPerFoot), RPMS)
  }

  /** Closer than 6 ft the first speed is used, beyond 16 ft the last. */
  lemma ShotRpmClamps(distance: real, metersPerFoot: real)
    requires metersPerFoot > 0.0
    ensures distance <= 6.0 * metersPerFoot ==> ShotRpm(distance, metersPerFoot) == 4620.0
    ensures distance >= 16.0 * metersPerFoot ==> ShotRpm(distance, metersPerFoot) == 4360.0
  {
    var ds := Distances(metersPerFoot);
    assert ds[0] == 6.0 * metersPerFoot && ds[10] == 16.0 * metersPerFoot;
  }

  /** At a table distance the table's speed is used exactly. */
  lemma ShotRpmAtEntry(i: nat, metersPerFoot: real)
    requires metersPerFoot > 0.0 && i < |FEET|
    ensures ShotRpm(FEET[i] * metersPerFoot, metersPerFoot) == RPMS[i]
  {
    var ds := Distances(metersPerFoot);
    InterpAtBreakpoint(ds, RPMS, i);
  }

  /** Between two neighbouring table distances the speed lies between theirs. */
  lemma ShotRpmBetweenEntries(distance: real, metersPerFoot: real, i: nat)
    requires metersPerFoot > 0.0 && i + 1 < |FEET|
    requires FEET[i] * metersPerFoot <= distance <= FEET[i + 1] * metersPerFoot
    ensures RPMS[i] <= RPMS[i + 1] ==> RPMS[i] <= ShotRpm(distance, metersPerFoot) <= RPMS[i + 1]
    ensures RPMS[i + 1] <= RPMS[i] ==> RPMS[i + 1] <= ShotRpm(distance, metersPerFoot) <= RPMS[i]
  {
    InterpBetween(distance, Distances(metersPerFoot), RPMS, i);
  }

  /** Halfway between the 9 ft (4200 rpm) and 10 ft (4250 rpm) entries the
      speed is their mean, 4225 rpm. */
  lemma ShotRpmHalfwayNineToTen(metersPerFoot: real)
    requires metersPerFoot > 0.0
    ensures ShotRpm(9.5 * metersPerFoot, metersPerFoot) == 4225.0
  {
    var m := metersPerFoot;
    var ds := Distances(m);
    InterpOnSegment(9.5 * m, ds, RPMS, 3);
    assert ds[3] == 9.0 * m && ds[4] == 10.0 * m;
    assert ds[4] - ds[3] == m;
    assert 9.5 * m - ds[3] == 0.5 * m;
    assert (4250.0 - 4200.0) / m * (0.5 * m) == 25.0;
  }

  class Flywheel {
    var isSpinning: bool
    var desiredRpm: real
    var desiredAcceleration: real
    var feedforward: real

    /** A new flywheel is idle with everything at zero. */
    constructor ()
      ensures !isSpinning
      ensures desiredRpm == 0.0 && desiredAcceleration == 0.0 && feedforward == 0.0
    {
      isSpinning := false;
      desiredRpm := 0.0;
      desiredAcceleration := 0.0;
      feedforward := 0.0;
    }

    /** On enable the current tunable gains are pushed to the motor controller
        again; no field of the flywheel changes. */
    method OnEnable(tunables: PidGains) returns (pushed: PidGains)
      ensures pushed == tunables
    {
      pushed := tunables;
    }

    /** Disabling stops the flywheel. */
    method OnDisable()
      modifies this
      ensures !isSpinning && desiredRpm == 0.0
      ensures desiredAcceleration == old(desiredAcceleration) && feedforward == old(feedforward)
    {
      Stop();
    }

    /** Spin at `rpm`; nothing else changes. */
    method SetRpm(rpm: real)
      modifies this
      ensures isSpinning && desiredRpm == rpm
      ensures desiredAcceleration == old(desiredAcceleration) && feedforward == old(feedforward)
    {
      isSpinning := true;
      desiredRpm := rpm;
    }

    /** Spin at the shot table's speed for `distance` metres. */
    method SetDistance(distance: real, metersPerFoot: real)
      requires metersPerFoot > 0.0
      modifies this
      ensures isSpinning && desiredRpm == ShotRpm(distance, metersPerFoot)
      ensures 4200.0 <= desiredRpm <= 4620.0
      ensures desiredAcceleration == old(desiredAcceleration) && feedforward == old(feedforward)
    {
      var rpm := ShotRpm(distance, metersPerFoot);
      SetRpm(rpm);
    }

    /** Stop: idle with a zero setpoint, whatever the state before, so a
        second stop changes nothing. */
    method Stop()
      modifies this
      ensures !isSpinning && desiredRpm == 0.0
      ensures desiredAcceleration == old(desiredAcceleration) && feedforward == old(feedforward)
    {
      isSpinning := false;
      desiredRpm := 0.0;
    }

    /** At setpoint: the encoder reading `measured` (motor rpm, taken as it is)
        within RPM_TOLERANCE of the setpoint, i.e. inside the band
        [0.95 * setpoint, 1.05 * setpoint]. That band is empty for a negative
        setpoint and is the single point 0 for a zero setpoint. */
    function IsAtSetpoint(measured: real): (ok: bool)
      reads this
      ensures ok <==> desiredRpm * (1.0 - RPM_TOLERANCE) <= measured <= desiredRpm * (1.0 + RPM_TOLERANCE)
      ensures desiredRpm == 0.0 ==> (ok <==> measured == 0.0)
      ensures desiredRpm < 0.0 ==> !ok
    {
      Abs(desiredRpm - measured) <= desiredRpm * RPM_TOLERANCE
    }

    /** Ready for a ball exactly when at setpoint. */
    function IsReady(measured: real): (ok: bool)
      reads this
      ensures ok <==> IsAtSetpoint(measured)
    {
      IsAtSetpoint(measured)
    }

    /** The tolerance check with the encoder reading first converted from motor
        rpm to flywheel rpm, the units the setpoint is in. */
    function IsAtSetpointGeared(measured: real): (ok: bool)
      reads this
      ensures ok <==> IsAtSetpoint(ToExternal(measured))
      ensures desiredRpm >= 0.0 && measured == ToInternal(desiredRpm) ==> ok
    {
      GearRoundTrip(desiredRpm);
      Abs(desiredRpm - ToExternal(measured)) <= desiredRpm * RPM_TOLERANCE
    }

    /** Feedforward for this tick: the acceleration is estimated as the
        setpoint minus the encoder reading, and the voltage is the motor
        model's at (setpoint, that acceleration). */
    method CalculateFF(measured: real)
      modifies this
      ensures desiredAcceleration == desiredRpm - measured
      ensures feedforward == CHARACTERIZATION.Calculate(desiredRpm, desiredAcceleration)
      ensures isSpinning == old(isSpinning) && desiredRpm == old(desiredRpm)
    {
      desiredAcceleration := desiredRpm - measured;
      feedforward := CHARACTERIZATION.Calculate(desiredRpm, desiredAcceleration);
    }

    /** One control tick: take the setpoint from the `DESIRED_RPM` tunable,
        recompute the feedforward from the encoder reading, then command a
        closed-loop velocity (in motor rpm, carrying the feedforward) when
        spinning and an open-loop zero otherwise. The spinning state is kept. */
    method Execute(desiredRpmTunable: real, measured: real) returns (cmd: FlywheelCommand)
      modifies this
      ensures isSpinning == old(isSpinning)
      ensures desiredRpm == desiredRpmTunable
      ensures desiredAcceleration == desiredRpmTunable - measured
      ensures feedforward == CHARACTERIZATION.Calculate(desiredRpm, desiredAcceleration)
      ensures isSpinning ==>
        && cmd.VelocityReference? && cmd.pidSlot == 0
        && cmd.arbFeedforward == feedforward
        && cmd.reference == ToInternal(desiredRpm)
        && ToExternal(cmd.reference) == desiredRpm
      ensures !isSpinning ==> cmd == OpenLoop(0.0)
    {
      desiredRpm := desiredRpmTunable;
      CalculateFF(measured);
      if isSpinning {
        cmd := VelocityReference(desiredRpm * INPUTS_PER_OUTPUT, 0, feedforward);
        GearRoundTrip(desiredRpm);
      } else {
        cmd := OpenLoop(0.0);
      }
    }
  }

  /** With a positive setpoint and the motor turning at exactly the speed the
      closed loop commands, the as-written check still reports "not at
      setpoint", while the geared check reports "at setpoint". */
  lemma AtSetpointUnitMismatch(f: Flywheel)
    requires f.desiredRpm > 0.0
    ensures !f.IsAtSetpoint(ToInternal(f.desiredRpm))
    ensures f.IsAtSetpointGeared(ToInternal(f.desiredRpm))
  {
    var d := f.desiredRpm;
    assert ToInternal(d) == d * (30.0 / 56.0);
    assert d - ToInternal(d) == d * (26.0 / 56.0);
  }

  /** The tolerance examples: at 1000 rpm a reading of 960 is at setpoint and
      one of 940 is not. */
  lemma AtSetpointExamples(f: Flywheel)
    requires f.desiredRpm == 1000.0
    ensures f.IsAtSetpoint(960.0) && !f.IsAtSetpoint(940.0)
  {
  }
}
