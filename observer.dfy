/**
 * The motor state observer: a fixed-point, discrete state-space model of a
 * DC motor that predicts angle, speed and current every control tick from
 * the applied voltage and a static friction torque, is pulled back toward
 * the measured angle by a clamped proportional feedback voltage, and
 * raises a debounced stall flag when the feedback shows an unmodelled load.
 *
 * Angles are plain millidegree integers. All arithmetic is over
 * mathematical integers with C's truncating division; where a product of
 * the C code fits in `int32_t` that is proved separately.
 */
module Observer {
  import opened CInt

  // Bounds and fixed-point prescale factors of the model.
  const MAX_NUM_SPEED: int := 2500000
  const MAX_NUM_ACCELERATION: int := 2500000
  const MAX_NUM_CURRENT: int := 30000
  const MAX_NUM_VOLTAGE: int := 12000
  const MAX_NUM_TORQUE: int := 1000000
  const PRESCALE_SPEED: int := 858
  const PRESCALE_ACCELERATION: int := 858
  const PRESCALE_CURRENT: int := 71582
  const PRESCALE_VOLTAGE: int := 178956
  const PRESCALE_TORQUE: int := 2147

  /** How the motor is currently driven. */
  datatype Actuation = Coast | Brake | Voltage | Torque

  /**
   * Calibration coefficients of one motor type. Each `d_x_d_y` is the
   * divisor that turns a prescaled `y` into its contribution to `x`.
   */
  datatype Model = Model(
    dAngleDSpeed: int, dAngleDCurrent: int, dAngleDVoltage: int, dAngleDTorque: int,
    dSpeedDSpeed: int, dSpeedDCurrent: int, dSpeedDVoltage: int, dSpeedDTorque: int,
    dCurrentDSpeed: int, dCurrentDCurrent: int, dCurrentDVoltage: int, dCurrentDTorque: int,
    dVoltageDTorque: int, dTorqueDVoltage: int, dTorqueDSpeed: int, dTorqueDAcceleration: int,
    torqueFriction: int)

  /** A usable model divides by no zero coefficient. */
  predicate ValidModel(m: Model) {
    && m.dAngleDSpeed != 0 && m.dAngleDCurrent != 0 && m.dAngleDVoltage != 0 && m.dAngleDTorque != 0
    && m.dSpeedDSpeed != 0 && m.dSpeedDCurrent != 0 && m.dSpeedDVoltage != 0 && m.dSpeedDTorque != 0
    && m.dCurrentDSpeed != 0 && m.dCurrentDCurrent != 0 && m.dCurrentDVoltage != 0 && m.dCurrentDTorque != 0
    && m.dVoltageDTorque != 0 && m.dTorqueDVoltage != 0 && m.dTorqueDSpeed != 0 && m.dTorqueDAcceleration != 0
  }

  /** Per-motor observer settings. */
  datatype Settings = Settings(stallSpeedLimit: int, stallTime: U32, feedbackGain: int)

  /** The observer's estimate. */
  datatype State = State(
    angle: int, speed: int, current: int, speedNumeric: int, stalled: bool, stallStart: U32)

  /** One tick's inputs to `update`; `differentiatorSpeed` is the numeric derivative for this tick. */
  datatype Tick = Tick(time: U32, measured: int, actuation: Actuation, voltage: int, differentiatorSpeed: int)

  /** Speed and current within the ranges the model clamps them to. */
  predicate Bounded(s: State) {
    -MAX_NUM_SPEED <= s.speed <= MAX_NUM_SPEED && -MAX_NUM_CURRENT <= s.current <= MAX_NUM_CURRENT
  }

  // ---------------------------------------------------------------------
  // Unit conversions and feedforward

  /** Voltage (mV) that produces the given torque, with the torque clamped first. */
  function TorqueToVoltage(m: Model, desiredTorque: int): (v: int)
    requires ValidModel(m)
    ensures InInt32(PRESCALE_TORQUE * Clamp(desiredTorque, MAX_NUM_TORQUE))
    ensures Abs(v) <= PRESCALE_TORQUE * MAX_NUM_TORQUE
  {
    CDivShrinks(PRESCALE_TORQUE * Clamp(desiredTorque, MAX_NUM_TORQUE), m.dVoltageDTorque);
    CDiv(PRESCALE_TORQUE * Clamp(desiredTorque, MAX_NUM_TORQUE), m.dVoltageDTorque)
  }

  /** Torque produced by the given voltage, with the voltage clamped first. */
  function VoltageToTorque(m: Model, voltage: int): (t: int)
    requires ValidModel(m)
    ensures InInt32(PRESCALE_VOLTAGE * Clamp(voltage, MAX_NUM_VOLTAGE))
    ensures Abs(t) <= PRESCALE_VOLTAGE * MAX_NUM_VOLTAGE
  {
    CDivShrinks(PRESCALE_VOLTAGE * Clamp(voltage, MAX_NUM_VOLTAGE), m.dTorqueDVoltage);
    CDiv(PRESCALE_VOLTAGE * Clamp(voltage, MAX_NUM_VOLTAGE), m.dTorqueDVoltage)
  }

  /** Inputs beyond the torque bound convert like the bound itself. */
  lemma TorqueToVoltageSaturates(m: Model, t: int)
    requires ValidModel(m)
    ensures t >= MAX_NUM_TORQUE ==> TorqueToVoltage(m, t) == TorqueToVoltage(m, MAX_NUM_TORQUE)
    ensures t <= -MAX_NUM_TORQUE ==> TorqueToVoltage(m, t) == TorqueToVoltage(m, -MAX_NUM_TORQUE)
  {
  }

  /** Inputs beyond the voltage bound convert like the bound itself. */
  lemma VoltageToTorqueSaturates(m: Model, v: int)
    requires ValidModel(m)
    ensures v >= MAX_NUM_VOLTAGE ==> VoltageToTorque(m, v) == VoltageToTorque(m, MAX_NUM_VOLTAGE)
    ensures v <= -MAX_NUM_VOLTAGE ==> VoltageToTorque(m, v) == VoltageToTorque(m, -MAX_NUM_VOLTAGE)
  {
  }

  /** Both conversions are odd: reversing the input reverses the output exactly. */
  lemma {:induction false} ConversionsAreOdd(m: Model, x: int)
    requires ValidModel(m)
    ensures TorqueToVoltage(m, -x) == -TorqueToVoltage(m, x)
    ensures VoltageToTorque(m, -x) == -VoltageToTorque(m, x)
  {
    ClampNegate(x, MAX_NUM_TORQUE);
    CDivNegate(PRESCALE_TORQUE * Clamp(x, MAX_NUM_TORQUE), m.dVoltageDTorque);
    ClampNegate(x, MAX_NUM_VOLTAGE);
    CDivNegate(PRESCALE_VOLTAGE * Clamp(x, MAX_NUM_VOLTAGE), m.dTorqueDVoltage);
  }

  /** With a positive coefficient, more torque never asks for less voltage. */
  lemma TorqueToVoltageMonotone(m: Model, t: int, t': int)
    requires ValidModel(m) && m.dVoltageDTorque > 0 && t <= t'
    ensures TorqueToVoltage(m, t) <= TorqueToVoltage(m, t')
  {
    CDivMonotone(PRESCALE_TORQUE * Clamp(t, MAX_NUM_TORQUE), PRESCALE_TORQUE * Clamp(t', MAX_NUM_TORQUE), m.dVoltageDTorque);
  }

  /** Half the static friction torque, signed like the reference rate. */
  function FrictionCompensation(m: Model, rateRef: int): (t: int)
    ensures rateRef == 0 ==> t == 0
    ensures rateRef > 0 ==> t == CDiv(m.torqueFriction, 2)
    ensures rateRef < 0 ==> t == -CDiv(m.torqueFriction, 2)
  {
    CDiv(m.torqueFriction, 2) * Sign(rateRef)
  }

  /** Torque that balances back EMF at the clamped reference rate. */
  function BackEmfCompensation(m: Model, rateRef: int): int
    requires ValidModel(m)
  {
    CDiv(PRESCALE_SPEED * Clamp(rateRef, MAX_NUM_SPEED), m.dTorqueDSpeed)
  }

  /** Torque that produces the clamped reference acceleration. */
  function AccelerationTorque(m: Model, accelerationRef: int): int
    requires ValidModel(m)
  {
    CDiv(PRESCALE_ACCELERATION * Clamp(accelerationRef, MAX_NUM_ACCELERATION), m.dTorqueDAcceleration)
  }

  /** Open-loop torque for a reference rate and acceleration, clamped to the torque bound. */
  function FeedforwardTorque(m: Model, rateRef: int, accelerationRef: int): (t: int)
    requires ValidModel(m)
    ensures -MAX_NUM_TORQUE <= t <= MAX_NUM_TORQUE
  {
    Clamp(FrictionCompensation(m, rateRef) + BackEmfCompensation(m, rateRef) + AccelerationTorque(m, accelerationRef), MAX_NUM_TORQUE)
  }

  /** At zero reference rate only the acceleration torque remains. */
  lemma FeedforwardAtRest(m: Model, accelerationRef: int)
    requires ValidModel(m)
    ensures FeedforwardTorque(m, 0, accelerationRef) == Clamp(AccelerationTorque(m, accelerationRef), MAX_NUM_TORQUE)
  {
    assert FrictionCompensation(m, 0) == 0;
    assert BackEmfCompensation(m, 0) == 0 by {
      assert PRESCALE_SPEED * Clamp(0, MAX_NUM_SPEED) == 0;
      CDivIsTruncation(0, m.dTorqueDSpeed);
    }
  }

  /** Reversing the reference trajectory reverses the feedforward torque exactly. */
  lemma {:induction false} FeedforwardIsOdd(m: Model, rateRef: int, accelerationRef: int)
    requires ValidModel(m)
    ensures FeedforwardTorque(m, -rateRef, -accelerationRef) == -FeedforwardTorque(m, rateRef, accelerationRef)
  {
    ClampNegate(rateRef, MAX_NUM_SPEED);
    CDivNegate(PRESCALE_SPEED * Clamp(rateRef, MAX_NUM_SPEED), m.dTorqueDSpeed);
    ClampNegate(accelerationRef, MAX_NUM_ACCELERATION);
    CDivNegate(PRESCALE_ACCELERATION * Clamp(accelerationRef, MAX_NUM_ACCELERATION), m.dTorqueDAcceleration);
    var sum := FrictionCompensation(m, rateRef) + BackEmfCompensation(m, rateRef) + AccelerationTorque(m, accelerationRef);
    assert FrictionCompensation(m, -rateRef) + BackEmfCompensation(m, -rateRef) + AccelerationTorque(m, -accelerationRef) == -sum;
    ClampNegate(sum, MAX_NUM_TORQUE);
  }

  /** Every prescale factor times the bound of its quantity fits in `int32_t`. */
  lemma PrescaleProductsFit()
    ensures PRESCALE_SPEED * MAX_NUM_SPEED <= INT32_MAX
    ensures PRESCALE_ACCELERATION * MAX_NUM_ACCELERATION <= INT32_MAX
    ensures PRESCALE_CURRENT * MAX_NUM_CURRENT <= INT32_MAX
    ensures PRESCALE_VOLTAGE * MAX_NUM_VOLTAGE <= INT32_MAX
    ensures PRESCALE_TORQUE * MAX_NUM_TORQUE <= INT32_MAX
  {
  }

  // ---------------------------------------------------------------------
  // Feedback voltage

  /**
   * Proportional correction toward the measured angle: the angle error
   * scaled by the feedback gain, clamped to the voltage bound.
   */
  function FeedbackVoltage(mulByGain: (int, int) -> int, st: Settings, estimated: int, measured: int): (v: int)
    ensures -MAX_NUM_VOLTAGE <= v <= MAX_NUM_VOLTAGE
    ensures -MAX_NUM_VOLTAGE <= mulByGain(measured - estimated, st.feedbackGain) <= MAX_NUM_VOLTAGE
            ==> v == mulByGain(measured - estimated, st.feedbackGain)
  {
    Clamp(mulByGain(measured - estimated, st.feedbackGain), MAX_NUM_VOLTAGE)
  }

  // ---------------------------------------------------------------------
  // Stall detection

  /** The four stall conditions, for forward (non-negative) voltage. */
  predicate ForwardStallCondition(m: Model, st: Settings, speed: int, voltage: int, feedbackVoltage: int)
    requires ValidModel(m)
  {
    // slow or even backward,
    && speed < st.stallSpeedLimit
    // the model is ahead of reality and pushes back,
    && feedbackVoltage < 0
    // by more than 75% of the applied voltage,
    && -feedbackVoltage > CDiv(voltage * 3, 4)
    // and the applied voltage clearly exceeds what friction alone takes.
    && voltage > 5 * TorqueToVoltage(m, CDiv(m.torqueFriction, 2))
  }

  /** The stall condition of one tick: voltage actuation, normalised to forward motion. */
  predicate StallCondition(m: Model, st: Settings, actuation: Actuation, speed: int, voltage: int, feedbackVoltage: int)
    requires ValidModel(m)
  {
    && actuation == Voltage
    && if voltage < 0 then ForwardStallCondition(m, st, -speed, -voltage, -feedbackVoltage)
       else ForwardStallCondition(m, st, speed, voltage, feedbackVoltage)
  }

  /** The stall flag and its start time after one tick. */
  function StallUpdate(m: Model, st: Settings, s: State, time: U32, actuation: Actuation, voltage: int, feedbackVoltage: int): (r: State)
    requires ValidModel(m)
    ensures r == s.(stalled := r.stalled, stallStart := r.stallStart)
    ensures r.stalled ==> actuation == Voltage
    ensures r.stalled && !s.stalled ==> r.stallStart == time
    ensures r.stallStart != s.stallStart ==> r.stalled && !s.stalled
  {
    if actuation != Voltage then s.(stalled := false)
    else if StallCondition(m, st, actuation, s.speed, voltage, feedbackVoltage) then
      s.(stalled := true, stallStart := if s.stalled then s.stallStart else time)
    else s.(stalled := false)
  }

  /** Any actuation other than voltage clears the stall flag, and only it. */
  lemma NonVoltageClearsStall(m: Model, st: Settings, s: State, time: U32, actuation: Actuation, voltage: int, fb: int)
    requires ValidModel(m) && actuation != Voltage
    ensures StallUpdate(m, st, s, time, actuation, voltage, fb) == s.(stalled := false)
  {
  }

  /**
   * The start time is overwritten exactly on a rising edge, and the flag
   * is raised exactly when the tick's condition holds; nothing else changes.
   */
  lemma StallUpdateLatchesRisingEdge(m: Model, st: Settings, s: State, time: U32, actuation: Actuation, voltage: int, fb: int)
    requires ValidModel(m)
    ensures var s' := StallUpdate(m, st, s, time, actuation, voltage, fb);
      && (s'.stalled <==> StallCondition(m, st, actuation, s.speed, voltage, fb))
      && (s'.stalled && !s.stalled ==> s'.stallStart == time)
      && (!(s'.stalled && !s.stalled) ==> s'.stallStart == s.stallStart)
      && s' == s.(stalled := s'.stalled, stallStart := s'.stallStart)
  {
  }

  /** Under negative voltage the decision is that of the mirrored forward case. */
  lemma StallMirrorsNegativeVoltage(m: Model, st: Settings, speed: int, voltage: int, fb: int)
    requires ValidModel(m) && voltage < 0
    ensures StallCondition(m, st, Voltage, speed, voltage, fb) == StallCondition(m, st, Voltage, -speed, -voltage, -fb)
  {
  }

  /** A stall needs all four conditions, evaluated on the forward-normalised values. */
  lemma StallNeedsAllConditions(m: Model, st: Settings, actuation: Actuation, speed: int, voltage: int, fb: int)
    requires ValidModel(m) && StallCondition(m, st, actuation, speed, voltage, fb)
    ensures actuation == Voltage
    ensures var (sp, v, f) := if voltage < 0 then (-speed, -voltage, -fb) else (speed, voltage, fb);
      && sp < st.stallSpeedLimit
      && f < 0
      && -f > CDiv(v * 3, 4)
      && v > 5 * TorqueToVoltage(m, CDiv(m.torqueFriction, 2))
  {
  }

  /** `is_stalled`: whether the flag has held for longer than the stall time, and for how long. */
  function StallReport(s: State, st: Settings, time: U32): (r: (bool, U32))
    ensures r.0 ==> s.stalled && r.1 > st.stallTime
    ensures !r.0 ==> r.1 == 0
  {
    if s.stalled && U32Sub(time, s.stallStart) > st.stallTime then (true, U32Sub(time, s.stallStart))
    else (false, 0)
  }

  // ---------------------------------------------------------------------
  // Model prediction

  /** The only modelled torque: half the static friction, signed by the estimated speed. */
  function FrictionTorque(m: Model, speed: int): (r: int)
    ensures Abs(r) == Abs(CDiv(m.torqueFriction, 2))
  {
    CDivNegate(m.torqueFriction, 2);
    if speed > 0 then CDiv(m.torqueFriction, 2) else CDiv(-m.torqueFriction, 2)
  }

  /** The friction torque is +tf/2 while moving forward and -tf/2 otherwise. */
  lemma FrictionTorqueSign(m: Model, speed: int)
    ensures FrictionTorque(m, speed) == if speed > 0 then CDiv(m.torqueFriction, 2) else -CDiv(m.torqueFriction, 2)
  {
    CDivNegate(m.torqueFriction, 2);
  }

  /** Change of angle over one tick. */
  function AngleIncrement(m: Model, speed: int, current: int, voltage: int, torque: int): int
    requires ValidModel(m)
  {
    CDiv(PRESCALE_SPEED * speed, m.dAngleDSpeed) +
    CDiv(PRESCALE_CURRENT * current, m.dAngleDCurrent) +
    CDiv(PRESCALE_VOLTAGE * voltage, m.dAngleDVoltage) +
    CDiv(PRESCALE_TORQUE * torque, m.dAngleDTorque)
  }

  /** The torque's contribution to the next speed. */
  function SpeedTorqueTerm(m: Model, torque: int): int
    requires ValidModel(m)
  {
    CDiv(PRESCALE_TORQUE * torque, m.dSpeedDTorque)
  }

  /** Next speed before clamping. */
  function SpeedEstimate(m: Model, speed: int, current: int, voltage: int, torque: int): int
    requires ValidModel(m)
  {
    CDiv(PRESCALE_SPEED * speed, m.dSpeedDSpeed) +
    CDiv(PRESCALE_CURRENT * current, m.dSpeedDCurrent) +
    CDiv(PRESCALE_VOLTAGE * voltage, m.dSpeedDVoltage) +
    SpeedTorqueTerm(m, torque)
  }

  /** Next current before clamping. */
  function CurrentEstimate(m: Model, speed: int, current: int, voltage: int, torque: int): int
    requires ValidModel(m)
  {
    CDiv(PRESCALE_SPEED * speed, m.dCurrentDSpeed) +
    CDiv(PRESCALE_CURRENT * current, m.dCurrentDCurrent) +
    CDiv(PRESCALE_VOLTAGE * voltage, m.dCurrentDVoltage) +
    CDiv(PRESCALE_TORQUE * torque, m.dCurrentDTorque)
  }

  /** Zero when removing the torque term would flip the speed's sign, else the speed itself. */
  function ZeroCrossingGuard(m: Model, speedNext: int, torque: int): (r: int)
    requires ValidModel(m)
    ensures r == 0 || r == speedNext
  {
    if (speedNext < 0) != (speedNext - SpeedTorqueTerm(m, torque) < 0) then 0 else speedNext
  }

  /** `update`: one observer tick. */
  function Step(m: Model, st: Settings, mulByGain: (int, int) -> int, s: State, t: Tick): (r: State)
    requires ValidModel(m)
    ensures Bounded(r)
    ensures r.speedNumeric == t.differentiatorSpeed
    ensures r.stalled ==> t.actuation == Voltage
  {
    var feedbackVoltage := FeedbackVoltage(mulByGain, st, s.angle, t.measured);
    var s1 := StallUpdate(m, st, s, t.time, t.actuation, t.voltage, feedbackVoltage);
    var voltage := t.voltage + feedbackVoltage;
    var torque := FrictionTorque(m, s.speed);
    var speedNext := Clamp(SpeedEstimate(m, s.speed, s.current, voltage, torque), MAX_NUM_SPEED);
    var currentNext := Clamp(CurrentEstimate(m, s.speed, s.current, voltage, torque), MAX_NUM_CURRENT);
    State(s.angle + AngleIncrement(m, s.speed, s.current, voltage, torque),
          ZeroCrossingGuard(m, speedNext, torque), currentNext,
          t.differentiatorSpeed, s1.stalled, s1.stallStart)
  }

  /**
   * What one tick commits: speed and current within their bounds, the
   * speed forced to exactly zero on a friction-induced sign change and
   * otherwise the clamped prediction, and the stall fields of the stall update.
   */
  lemma StepCommits(m: Model, st: Settings, mulByGain: (int, int) -> int, s: State, t: Tick)
    requires ValidModel(m)
    ensures var s' := Step(m, st, mulByGain, s, t);
      var fb := FeedbackVoltage(mulByGain, st, s.angle, t.measured);
      var torque := FrictionTorque(m, s.speed);
      var speedNext := Clamp(SpeedEstimate(m, s.speed, s.current, t.voltage + fb, torque), MAX_NUM_SPEED);
      var s1 := StallUpdate(m, st, s, t.time, t.actuation, t.voltage, fb);
      && Bounded(s')
      && ((speedNext < 0) != (speedNext - SpeedTorqueTerm(m, torque) < 0) ==> s'.speed == 0)
      && ((speedNext < 0) == (speedNext - SpeedTorqueTerm(m, torque) < 0) ==> s'.speed == speedNext)
      && s'.current == Clamp(CurrentEstimate(m, s.speed, s.current, t.voltage + fb, torque), MAX_NUM_CURRENT)
      && s'.speedNumeric == t.differentiatorSpeed
      && s'.stalled == s1.stalled && s'.stallStart == s1.stallStart
  {
  }

  /** A committed speed never has the opposite sign of the prediction with the torque term removed. */
  lemma {:induction false} ZeroCrossingGuardNoFlip(m: Model, speedNext: int, torque: int)
    requires ValidModel(m)
    ensures var r := ZeroCrossingGuard(m, speedNext, torque);
      r == 0 || (r < 0 <==> speedNext - SpeedTorqueTerm(m, torque) < 0)
  {
  }

  /** In a bounded state the speed and current products of the next update fit in `int32_t`. */
  lemma BoundedProductsFit(s: State)
    requires Bounded(s)
    ensures InInt32(PRESCALE_SPEED * s.speed)
    ensures InInt32(PRESCALE_CURRENT * s.current)
  {
  }

  /**
   * The voltage fed to the model is not clamped: the voltage product fits
   * in `int32_t` exactly while the sum of applied and feedback voltage is
   * within the voltage bound, and two in-range voltages can exceed it.
   */
  lemma VoltageProductRange(voltage: int, feedbackVoltage: int)
    ensures -MAX_NUM_VOLTAGE <= voltage + feedbackVoltage <= MAX_NUM_VOLTAGE
            ==> InInt32(PRESCALE_VOLTAGE * (voltage + feedbackVoltage))
    ensures voltage == MAX_NUM_VOLTAGE && feedbackVoltage == MAX_NUM_VOLTAGE
            ==> PRESCALE_VOLTAGE * (voltage + feedbackVoltage) > INT32_MAX
  {
  }

  // ---------------------------------------------------------------------
  // Runs of ticks

  /** The state after a sequence of ticks, applied first to last. */
  function Run(m: Model, st: Settings, mulByGain: (int, int) -> int, s: State, ticks: seq<Tick>): State
    requires ValidModel(m)
    decreases |ticks|
  {
    if ticks == [] then s
    else Step(m, st, mulByGain, Run(m, st, mulByGain, s, ticks[..|ticks| - 1]), ticks[|ticks| - 1])
  }

  /** After any non-empty run without voltage actuation the flag is down. */
  lemma {:induction false} RunWithoutVoltageNeverStalls(m: Model, st: Settings, mulByGain: (int, int) -> int, s: State, ticks: seq<Tick>)
    requires ValidModel(m)
    requires forall i :: 0 <= i < |ticks| ==> ticks[i].actuation != Voltage
    ensures forall j :: 0 < j <= |ticks| ==> !Run(m, st, mulByGain, s, ticks[..j]).stalled
  {
    forall j | 0 < j <= |ticks|
      ensures !Run(m, st, mulByGain, s, ticks[..j]).stalled
    {
      var prefix := ticks[..j];
      assert prefix[..j - 1] == ticks[..j - 1];
      assert prefix[j - 1] == ticks[j - 1];
    }
  }

  /** Every run keeps the state bounded. */
  lemma {:induction false} RunStaysBounded(m: Model, st: Settings, mulByGain: (int, int) -> int, s: State, ticks: seq<Tick>)
    requires ValidModel(m) && Bounded(s)
    ensures Bounded(Run(m, st, mulByGain, s, ticks))
  {
    if ticks != [] {
      StepCommits(m, st, mulByGain, Run(m, st, mulByGain, s, ticks[..|ticks| - 1]), ticks[|ticks| - 1]);
    }
  }

  /** A step from `before` to `after` at `time` moves the stall start time only on a rising edge. */
  predicate Latches(before: State, after: State, time: U32) {
    && (after.stalled && !before.stalled ==> after.stallStart == time)
    && (after.stalled && before.stalled ==> after.stallStart == before.stallStart)
  }

  /**
   * Along any trace of states whose steps latch, a flag that rose at step
   * k and stayed up through state n carries the time of step k.
   */
  lemma {:induction false} LatestRisingEdge(states: seq<State>, times: seq<U32>, k: nat, n: nat)
    requires |states| == |times| + 1 && k < n <= |times|
    requires forall i :: 0 <= i < |times| ==> Latches(states[i], states[i + 1], times[i])
    requires !states[k].stalled
    requires forall j :: k < j <= n ==> states[j].stalled
    ensures states[n].stallStart == times[k]
    decreases n
  {
    assert Latches(states[n - 1], states[n], times[n - 1]);
    if n - 1 > k {
      LatestRisingEdge(states, times, k, n - 1);
    }
  }

  /**
   * Debounce: when the flag was down after the first k ticks and has been
   * up after every later prefix, the start time is the time of tick k,
   * the latest rising edge, not any earlier one.
   */
  lemma StallStartIsLatestRisingEdge(m: Model, st: Settings, mulByGain: (int, int) -> int, s: State, ticks: seq<Tick>, k: nat)
    requires ValidModel(m)
    requires k < |ticks|
    requires !Run(m, st, mulByGain, s, ticks[..k]).stalled
    requires forall j :: k < j <= |ticks| ==> Run(m, st, mulByGain, s, ticks[..j]).stalled
    ensures Run(m, st, mulByGain, s, ticks).stallStart == ticks[k].time
  {
    var n := |ticks|;
    var states := seq(n + 1, j requires 0 <= j <= n => Run(m, st, mulByGain, s, ticks[..j]));
    var times := seq(n, i requires 0 <= i < n => ticks[i].time);
    forall i | 0 <= i < n ensures Latches(states[i], states[i + 1], times[i]) {
      RunLatchesRisingEdge(m, st, mulByGain, s, ticks[..i + 1]);
      assert ticks[..i + 1][..i] == ticks[..i];
    }
    LatestRisingEdge(states, times, k, n);
    assert ticks[..n] == ticks;
  }

  /** The last tick of a run moves the stall start time only on a rising edge of the flag. */
  lemma RunLatchesRisingEdge(m: Model, st: Settings, mulByGain: (int, int) -> int, s: State, ticks: seq<Tick>)
    requires ValidModel(m) && ticks != []
    ensures Latches(Run(m, st, mulByGain, s, ticks[..|ticks| - 1]), Run(m, st, mulByGain, s, ticks), ticks[|ticks| - 1].time)
  {
    StepLatchesRisingEdge(m, st, mulByGain, Run(m, st, mulByGain, s, ticks[..|ticks| - 1]), ticks[|ticks| - 1]);
  }

  /** One tick moves the stall start time only on a rising edge of the flag. */
  lemma StepLatchesRisingEdge(m: Model, st: Settings, mulByGain: (int, int) -> int, s: State, t: Tick)
    requires ValidModel(m)
    ensures var s' := Step(m, st, mulByGain, s, t);
      && (s'.stalled && !s.stalled ==> s'.stallStart == t.time)
      && (s'.stalled && s.stalled ==> s'.stallStart == s.stallStart)
  {
  }

  /**
   * Stall latency: in that situation `is_stalled` at `time` reports a stall
   * exactly when more than the stall time has passed since tick k, and
   * then reports that elapsed time.
   */
  lemma StallReportAfterRisingEdge(m: Model, st: Settings, mulByGain: (int, int) -> int, s: State, ticks: seq<Tick>, k: nat, time: U32)
    requires ValidModel(m)
    requires k < |ticks|
    requires !Run(m, st, mulByGain, s, ticks[..k]).stalled
    requires forall j :: k < j <= |ticks| ==> Run(m, st, mulByGain, s, ticks[..j]).stalled
    ensures var r := StallReport(Run(m, st, mulByGain, s, ticks), st, time);
      && (r.0 <==> U32Sub(time, ticks[k].time) > st.stallTime)
      && (r.0 ==> r.1 == U32Sub(time, ticks[k].time))
  {
    StallStartIsLatestRisingEdge(m, st, mulByGain, s, ticks, k);
    assert ticks[..|ticks|] == ticks;
  }

  // ---------------------------------------------------------------------
  // The observer object

  class Observer {
    const model: Model
    const settings: Settings
    /** The control settings' gain scaling, `mul_by_gain(value, gain)`, supplied at setup. */
    const mulByGain: (int, int) -> int

    var angle: int
    var speed: int
    var current: int
    var speedNumeric: int
    var stalled: bool
    var stallStart: U32

    /** The estimate as a value. */
    function Snapshot(): State
      reads this
    {
      State(angle, speed, current, speedNumeric, stalled, stallStart)
    }

    ghost predicate Valid()
      reads this
    {
      ValidModel(model) && Bounded(Snapshot())
    }

    /** A zero-initialised observer for the given model and settings. */
    constructor (model: Model, settings: Settings, mulByGain: (int, int) -> int)
      requires ValidModel(model)
      ensures Valid()
      ensures this.model == model && this.settings == settings && this.mulByGain == mulByGain
      ensures Snapshot() == State(0, 0, 0, 0, false, 0)
    {
      this.model := model;
      this.settings := settings;
      this.mulByGain := mulByGain;
      angle, speed, current, speedNumeric, stalled, stallStart := 0, 0, 0, 0, false, 0;
    }

    /** Resets the estimate to an angle, at rest, not stalled. */
    method Reset(a: int)
      requires Valid()
      modifies this
      ensures Valid()
      ensures angle == a && speed == 0 && current == 0 && !stalled
      ensures speedNumeric == old(speedNumeric) && stallStart == old(stallStart)
    {
      angle := a;
      speed := 0;
      current := 0;
      stalled := false;
    }

    /** Reads the numeric speed, the estimated angle and the estimated speed. */
    method GetEstimatedState() returns (speedNum: int, angleEst: int, speedEst: int)
      requires Valid()
      ensures speedNum == speedNumeric && angleEst == angle && speedEst == speed
      ensures -MAX_NUM_SPEED <= speedEst <= MAX_NUM_SPEED
    {
      angleEst := angle;
      speedEst := speed;
      speedNum := speedNumeric;
    }

    /** Feedback voltage toward a measured angle; always within the voltage bound. */
    method GetFeedbackVoltage(measured: int) returns (v: int)
      ensures v == FeedbackVoltage(mulByGain, settings, angle, measured)
      ensures -MAX_NUM_VOLTAGE <= v <= MAX_NUM_VOLTAGE
    {
      var error := measured - angle;
      v := Clamp(mulByGain(error, settings.feedbackGain), MAX_NUM_VOLTAGE);
    }

    method UpdateStallState(time: U32, actuation: Actuation, voltage: int, feedbackVoltage: int)
      requires Valid()
      modifies this`stalled, this`stallStart
      ensures Valid()
      ensures Snapshot() == StallUpdate(model, settings, old(Snapshot()), time, actuation, voltage, feedbackVoltage)
    {
      if actuation != Voltage {
        stalled := false;
        return;
      }
      var sp, v, fb := speed, voltage, feedbackVoltage;
      if v < 0 {
        sp, v, fb := -sp, -v, -fb;
      }
      if sp < settings.stallSpeedLimit && fb < 0 && -fb > CDiv(v * 3, 4)
         && v > 5 * TorqueToVoltage(model, CDiv(model.torqueFriction, 2))
      {
        if !stalled {
          stallStart := time;
        }
        stalled := true;
      } else {
        stalled := false;
      }
    }

    /** One tick: predict from the applied plus feedback voltage, detect stall, commit. */
    method Update(time: U32, measured: int, actuation: Actuation, voltage: int, differentiatorSpeed: int)
      requires Valid()
      modifies this
      ensures Valid()
      ensures Snapshot() == Step(model, settings, mulByGain, old(Snapshot()), Tick(time, measured, actuation, voltage, differentiatorSpeed))
    {
      speedNumeric := differentiatorSpeed;
      var feedbackVoltage := GetFeedbackVoltage(measured);
      UpdateStallState(time, actuation, voltage, feedbackVoltage);
      Predict(voltage + feedbackVoltage);
    }

    /**
     * The prediction half of `update`: angle, speed and current advanced
     * one tick under the given total voltage, with the friction torque of
     * the current speed; speed and current clamped, a friction-induced
     * zero crossing of the speed stopped at zero.
     */
    method Predict(v: int)
      requires Valid()
      modifies this`angle, this`speed, this`current
      ensures Valid()
      ensures var torque := FrictionTorque(model, old(speed));
        && angle == old(angle) + AngleIncrement(model, old(speed), old(current), v, torque)
        && speed == ZeroCrossingGuard(model, Clamp(SpeedEstimate(model, old(speed), old(current), v, torque), MAX_NUM_SPEED), torque)
        && current == Clamp(CurrentEstimate(model, old(speed), old(current), v, torque), MAX_NUM_CURRENT)
    {
      var torque := if speed > 0 then CDiv(model.torqueFriction, 2) else CDiv(-model.torqueFriction, 2);
      angle := angle + AngleIncrement(model, speed, current, v, torque);
      var speedNext := Clamp(SpeedEstimate(model, speed, current, v, torque), MAX_NUM_SPEED);
      var currentNext := Clamp(CurrentEstimate(model, speed, current, v, torque), MAX_NUM_CURRENT);
      if (speedNext < 0) != (speedNext - CDiv(PRESCALE_TORQUE * torque, model.dSpeedDTorque) < 0) {
        speedNext := 0;
      }
      speed := speedNext;
      current := currentNext;
    }

    /** Whether the stall flag has held for more than the stall time, and for how long. */
    method IsStalled(time: U32) returns (isStalled: bool, duration: U32)
      ensures (isStalled, duration) == StallReport(Snapshot(), settings, time)
      ensures isStalled <==> stalled && U32Sub(time, stallStart) > settings.stallTime
      ensures duration == if isStalled then U32Sub(time, stallStart) else 0
    {
      if stalled && U32Sub(time, stallStart) > settings.stallTime {
        duration := U32Sub(time, stallStart);
        return true, duration;
      }
      duration := 0;
      return false, duration;
    }
  }
}
