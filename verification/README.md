# Shooter flywheel, climbing winch and joystick response curves

A Dafny model of three small sequential parts of a competition robot's control code:

- **Flywheel** (`FlywheelComponent`, flywheel.dfy). A velocity-controlled shooter wheel behind a 30:56 gear stage. It is a two-state machine: spinning or idle, with a desired speed in flywheel rpm.
  - `SetRpm`, `SetDistance` and `Stop` change that state.
  - `SetDistance` looks the speed up in an 11-entry distance-to-rpm shot table by clamped linear interpolation (`Interpolation`, interpolation.dfy, modelling numpy's `interp`).
  - Every control tick `Execute` does three things. It takes the setpoint from the `DESIRED_RPM` tunable. It recomputes a feedforward voltage from the motor model (`Feedforward`, feedforward.dfy, WPILib's `SimpleMotorFeedforward`). It then returns the command for the motor controller: a closed-loop velocity reference in motor rpm carrying that voltage, or open-loop zero.
  - `IsAtSetpoint`/`IsReady` are the 5 % tolerance check.
- **Winch** (`WinchComponent`, winch.dfy). A hoist/stop machine that emits one motor output per tick. Its reachable states satisfy the class invariant `Valid()`: the output is 0 or the hoist speed, and it is 0 exactly when not hoisting.
- **Joystick curves** (`Joysticks`, joysticks.dfy). Pure scalar maps.
  - The dual-slope `Piecewise` curve has its breakpoint chosen so that the two branches meet.
  - The power curve `Exponential` raises the signed reading to a natural exponent.

`RealMath` (real_math.dfy) holds `np.sign`, `abs` and integer powers over `real`.

Floats are modelled as `real`. The motor encoder reading, the `DESIRED_RPM` tunable and the PID tunables are parameters of the operations that read them, not ambient state. So is the length of a foot in metres (`metersPerFoot`), which scales the shot table's distances and is only required to be positive. Commands to the motor controllers are returned values.

`Stop` fixes the whole new state of the winch independently of the old one. For the flywheel it fixes the spinning flag and the setpoint and keeps the acceleration estimate and the feedforward, so in both classes stopping twice is the same as stopping once. `Execute` shows that the flywheel's debugging override is real. Each tick replaces the setpoint with the `DESIRED_RPM` tunable, so whatever `SetRpm`/`SetDistance` chose lasts only until the next tick. Idle does not imply a zero setpoint after a tick either.

Halfway between the 9 ft and 10 ft table entries the code's table gives 4225 rpm (`ShotRpmHalfwayNineToTen`).

The continuity and range lemmas of the `Piecewise` curve require a breakpoint of at least 0. The constructor accepts slope pairs with a negative breakpoint, and there the curve loses both properties: `PiecewiseNegativeBreakpoint` shows that slopes 3 and 2 (breakpoint -1) map 0.25 to -0.5, and that slopes 0.2 and 0.5 (breakpoint -5/3) jump from 0 to above 0.5 at 0.01.

Two places where the code's behaviour differs from what its surroundings evidently intend are listed under Findings.

## Model

| member | source | states |
|---|---|---|
| `RealMath.Sign` | src/utils/joysticks.py:14 | numpy sign: one of -1, 0, 1; zero exactly at zero; sign times value is the magnitude and sign times magnitude is the value |
| `RealMath.PowOfNegation` | src/utils/joysticks.py:29 | negating the base keeps an even power and negates an odd one |
| `RealMath.PowUnitInterval` | src/utils/joysticks.py:29 | for a base in [0, 1] and exponent at least 1 the power lies in [0, base] |
| `Interpolation.Interp` | src/components/flywheel.py:89 | np.interp clamps: at or below the first breakpoint the first value, at or above the last breakpoint the last value |
| `Interpolation.InterpOnSegment` | src/components/flywheel.py:89 | on any bracketing segment [xs[j], xs[j+1]] the result is the straight line through those two breakpoints |
| `Interpolation.InterpAtBreakpoint` | src/components/flywheel.py:89 | every breakpoint xs[i] maps to exactly ys[i] |
| `Interpolation.InterpBetween` | src/components/flywheel.py:89 | between two neighbouring breakpoints the result lies between their two values |
| `Interpolation.InterpWithin` | src/components/flywheel.py:89 | the result never leaves any range that contains all table values |
| `Feedforward.SimpleMotorFeedforward.Calculate` | src/components/flywheel.py:69-71 | kS * sgn(v) + kV * v + kA * a split by the sign of v: +kS when moving forward, -kS backward, and no static term at rest |
| `Feedforward.CalculateOdd` | src/components/flywheel.py:107-112 | reversing velocity and acceleration reverses the voltage |
| `FlywheelComponent.GearRoundTrip` | src/components/flywheel.py:12-14 | INPUTS_PER_OUTPUT * OUTPUTS_PER_INPUT == 1, so converting to motor rpm and back (either way round) is the identity |
| `FlywheelComponent.Distances` | src/components/flywheel.py:39-41 | the table distances are the feet values 6..16 times the foot length, strictly increasing, one per rpm entry |
| `FlywheelComponent.ShotRpm` | src/components/flywheel.py:88-90 | the interpolated shot speed always lies in [4200, 4620] rpm, the range of the table |
| `FlywheelComponent.ShotRpmClamps` | src/components/flywheel.py:39-42 | closer than 6 ft gives 4620 rpm, beyond 16 ft gives 4360 rpm |
| `FlywheelComponent.ShotRpmAtEntry` | src/components/flywheel.py:39-42 | at each table distance the speed is exactly that entry's rpm |
| `FlywheelComponent.ShotRpmBetweenEntries` | src/components/flywheel.py:39-42 | between two neighbouring table distances the speed lies between their rpms |
| `FlywheelComponent.ShotRpmHalfwayNineToTen` | src/components/flywheel.py:39-42 | halfway between 9 ft and 10 ft the speed is 4225 rpm |
| `FlywheelComponent.Flywheel.constructor` | src/components/flywheel.py:47-51 | a new flywheel is idle with setpoint, acceleration and feedforward all 0 |
| `FlywheelComponent.Flywheel.OnEnable` | src/components/flywheel.py:73-78 | changes no field; pushes exactly the current tunable gains |
| `FlywheelComponent.Flywheel.OnDisable` | src/components/flywheel.py:80-81 | idle with setpoint 0; acceleration and feedforward unchanged |
| `FlywheelComponent.Flywheel.SetRpm` | src/components/flywheel.py:83-86 | spinning with setpoint r; nothing else changes |
| `FlywheelComponent.Flywheel.SetDistance` | src/components/flywheel.py:88-90 | spinning with the shot table's speed for the distance (so within [4200, 4620]); nothing else changes |
| `FlywheelComponent.Flywheel.Stop` | src/components/flywheel.py:92-95 | idle with setpoint 0 whatever the previous state (hence idempotent); nothing else changes |
| `FlywheelComponent.Flywheel.IsAtSetpoint` | src/components/flywheel.py:97-101 | holds iff the raw reading lies in [0.95 * setpoint, 1.05 * setpoint]; with setpoint 0 only for reading 0; never for a negative setpoint |
| `FlywheelComponent.Flywheel.IsReady` | src/components/flywheel.py:103-105 | ready exactly when at setpoint |
| `FlywheelComponent.Flywheel.IsAtSetpointGeared` | src/components/flywheel.py:97-101 | corrected check: the at-setpoint test on the reading converted to flywheel rpm; holds when the motor turns at exactly the commanded reference |
| `FlywheelComponent.Flywheel.CalculateFF` | src/components/flywheel.py:107-112 | acceleration estimate = setpoint - reading; feedforward = motor model at (setpoint, that estimate); state and setpoint kept |
| `FlywheelComponent.Flywheel.Execute` | src/components/flywheel.py:123-140 | setpoint := tunable; feedforward recomputed; spinning gives a slot-0 velocity reference of setpoint * INPUTS_PER_OUTPUT, which converts back to the setpoint, and carries the feedforward; idle gives open-loop 0; spinning state kept |
| `FlywheelComponent.AtSetpointUnitMismatch` | src/components/flywheel.py:97-101 | for any positive setpoint, a motor turning at exactly the commanded reference is reported not at setpoint; the geared check reports it at setpoint |
| `FlywheelComponent.AtSetpointExamples` | src/components/flywheel.py:97-101 | at 1000 rpm a reading of 960 is at setpoint and 940 is not |
| `WinchComponent.Winch.constructor` | src/components/winch.py:15-17 | a new winch is not hoisting, output 0, invariant established |
| `WinchComponent.Winch.OnEnable` | src/components/winch.py:22-23 | changes nothing |
| `WinchComponent.Winch.OnDisable` | src/components/winch.py:25-26 | not hoisting with output 0 from any state; invariant established |
| `WinchComponent.Winch.Hoist` | src/components/winch.py:28-31 | hoisting with output HOIST_SPEED (0.5) whatever the argument; invariant established |
| `WinchComponent.Winch.Stop` | src/components/winch.py:33-36 | not hoisting with output 0 from any state (hence idempotent); invariant established |
| `WinchComponent.Winch.Execute` | src/components/winch.py:38-42 | output 0 unless hoisting; in every reachable state the output equals the requested output, HOIST_SPEED exactly while hoisting; no field changes |
| `Joysticks.NewPiecewise` | src/utils/joysticks.py:8-11 | equal slopes give the division-by-zero error; otherwise the curve with both slopes and breakpoint (1 - fast) / (slow - fast) |
| `Joysticks.PiecewiseBranchesMeet` | src/utils/joysticks.py:11 | at the breakpoint slow * i == fast * i + (1 - fast): the two branches agree |
| `Joysticks.Piecewise.GetValue` | src/utils/joysticks.py:13-21 | up to the breakpoint (in magnitude) the output is signal * slow; beyond it signal * fast + sgn(signal) * (1 - fast) |
| `Joysticks.PiecewiseOdd` | src/utils/joysticks.py:13-21 | the curve is odd and maps 0 to 0 |
| `Joysticks.PiecewiseFullDeflection` | src/utils/joysticks.py:16-21 | with the breakpoint below 1, inputs 1 and -1 map to 1 and -1 |
| `Joysticks.PiecewiseSignedForm` | src/utils/joysticks.py:13-21 | with a non-negative breakpoint the curve is the slow line up to the breakpoint continued by the fast line, mirrored to negative inputs |
| `Joysticks.PiecewiseLipschitz` | src/utils/joysticks.py:13-21 | with a non-negative breakpoint the curve is continuous: outputs differ by at most max(abs(slow), abs(fast)) times the input difference |
| `Joysticks.PiecewiseUnitRange` | src/utils/joysticks.py:13-21 | with non-negative slopes and breakpoint in [0, 1], inputs in [-1, 1] give outputs in [-1, 1] of the same sign |
| `Joysticks.PiecewiseNegativeBreakpoint` | src/utils/joysticks.py:8-21 | with a negative breakpoint the curve can reverse the sign (slopes 3 and 2 map 0.25 to -0.5) and jump at 0 (slopes 0.2 and 0.5 map 0.01 above 0.5) |
| `Joysticks.Exponential.GetValue` | src/utils/joysticks.py:27-30 | as written: 0 maps to 0 and positive readings give positive output |
| `Joysticks.ExponentialEven` | src/utils/joysticks.py:27-30 | with an even exponent the curve equals the sign-preserving curve and is odd |
| `Joysticks.ExponentialOddExponentLosesSign` | src/utils/joysticks.py:27-30 | with an odd exponent the output is abs(x)^n, never negative, and the curve is even |
| `Joysticks.ExponentialCubeCounterexample` | src/utils/joysticks.py:27-30 | exponent 3 at -0.5 gives +0.125 where the sign-preserving curve gives -0.125 |
| `Joysticks.ExponentialUnitInterval` | src/utils/joysticks.py:27-30 | on [0, 1] with exponent at least 1 the output lies between 0 and the input |
| `Joysticks.ExponentialShrinks` | src/utils/joysticks.py:27-30 | as written, with exponent at least 1, a reading in [-1, 1] gives an output no larger in magnitude |
| `Joysticks.Exponential.SignedPower` | src/utils/joysticks.py:27-30 | corrected curve: sign(x) * abs(x)^n; 0 maps to 0 and the output has the input's sign |
| `Joysticks.SignedPowerOdd` | src/utils/joysticks.py:27-30 | the corrected curve is odd for every exponent |
| `Joysticks.SignedPowerShrinks` | src/utils/joysticks.py:27-30 | with exponent at least 1 the corrected curve maps [-1, 1] into itself and never increases the magnitude |

## Left out

- Motor configuration in `setup` (inversion, open- and closed-loop ramp rates) and the gain setters called there and in `on_enable`. They are calls into the motor-controller driver. `OnEnable` only returns the gain set it would push.
- `Winch.setup` (`setInverted` on the winch motor). It is a driver call.
- `updateNetworkTables`. It only writes telemetry to a network table.
- Fetching the encoder and PID-controller handles in `setup`. The encoder reading is a parameter. The feedforward model, built there from the kS/kV/kA constants, is the module constant `CHARACTERIZATION`.
- src/robot.py: device construction, button-to-action dispatch and its exception handler are wiring around external objects.
- IEEE floating point: NaN, infinities and rounding are not modelled, and all arithmetic is exact over `real`.
- `Exponential` with a non-integer exponent is not modelled. The exponent is a `nat`, because a negative base raised to a fractional power is not real.
- `utils.units.meters_per_foot` is not part of this model. It is the positive parameter `metersPerFoot`.
- Equal slopes given as numpy scalars, rather than Python floats, would give an infinite breakpoint, or NaN when both slopes are 1 (0/0), instead of raising. That case is not modelled; the division is Python's, which raises.
- The time-step overload of WPILib's feedforward `calculate` is not modelled, only the two-argument form used here.

## Findings

| source | as written | input that shows it | evidently intended | confidence | as-written member | corrected member |
|---|---|---|---|---|---|---|
| src/utils/joysticks.py:27-30 | `np.sign(signal) * signal ** exponent` raises the signed reading, so an odd exponent cancels the sign | exponent 3, signal -0.5: output +0.125 (full reverse stick drives forward) | sign times the magnitude raised to the exponent, as `Piecewise.getValue` takes `abs(signal)` before scaling and reapplies the sign (src/utils/joysticks.py:14-21): -0.125 | medium, not executed | `Joysticks.ExponentialCubeCounterexample` | `Joysticks.Exponential.SignedPower` |
| src/components/flywheel.py:97-101 | the setpoint (flywheel rpm) is compared with the raw motor encoder reading (motor rpm), with no gear conversion | setpoint 4620 rpm with the motor at exactly the commanded 2475 rpm: not at setpoint | compare with the reading times OUTPUTS_PER_INPUT, as the telemetry converts it (src/components/flywheel.py:120) | medium, not executed | `FlywheelComponent.AtSetpointUnitMismatch` | `FlywheelComponent.Flywheel.IsAtSetpointGeared` |

For the second row, `IsReady` is kept as written and calls the as-written check. The same unconverted reading also enters the acceleration estimate in `CalculateFF` (src/components/flywheel.py:109), which the model likewise keeps as written.
