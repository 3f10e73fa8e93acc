/** The actuation path of src/command_adapter.cpp: saturation, driver-torque limit, slew and the duty cycle
    of the steering request. The angle controller of the other lateral modes is an arbitrary function of
    what it reads. Physical quantities are reals, torque counts integers. */
module Torque {
  import opened Arithmetic

  const MAX_VALID_TORQUE: int := 1021
  const MIN_SCC_ACCEL: real := -10.23
  const MAX_SCC_ACCEL: real := 10.24

  const TWO_32: int := 0x1_0000_0000
  const TWO_31: int := 0x8000_0000

  /** An unsigned 32-bit number. */
  type Word32 = n: nat | n < TWO_32

  /** What only the angle controller reads. */
  datatype Tuning = Tuning(
    unfilteredInput: bool, wheelbase: real, steeringRatio: real, actuatorDelay: real,
    kp: real, ki: real, kd: real, kf: real, latAccelFactor: real, friction: real, frictionThreshold: real,
    angleDeadzone: real, integralLimit: real, freezeSpeed: real, maxTargetAngle: real, maxTargetRate: real,
    breakpoints: seq<real>, factors: seq<real>)

  datatype Config = Config(
    tuning: Tuning, directTorque: bool, lateralScale: real, lateralOffset: real,
    accelScale: real, accelOffset: real, accelMin: real, accelMax: real, jerkLimit: real,
    maxTorque: int, rateUp: int, rateDown: int, outputScale: int,
    driverAllowance: real, driverMultiplier: real, driverFactor: real,
    cutoffAngle: real, validFrames: Word32, cutFrames: Word32)

  const TABLE: nat := 4

  /** The low-speed table has four entries, as its type says in the source. */
  predicate HasTable(t: Tuning) { |t.breakpoints| == |t.factors| == TABLE }

  /** Its breakpoints ascend and its factors are not negative. */
  predicate ValidTable(t: Tuning)
    requires HasTable(t)
  {
    && (forall i, j :: 0 <= i < j < TABLE ==> t.breakpoints[i] < t.breakpoints[j])
    && (forall i :: 0 <= i < TABLE ==> t.factors[i] >= 0.0)
  }

  predicate ValidTuning(t: Tuning)
    requires HasTable(t)
  {
    && t.wheelbase > 0.0 && t.steeringRatio > 0.0 && t.latAccelFactor > 0.0 && t.frictionThreshold > 0.0
    && t.maxTargetAngle > 0.0 && t.maxTargetRate > 0.0
    && t.actuatorDelay >= 0.0 && t.kp >= 0.0 && t.ki >= 0.0 && t.kd >= 0.0 && t.kf >= 0.0 && t.friction >= 0.0
    && t.angleDeadzone >= 0.0 && t.integralLimit >= 0.0 && t.freezeSpeed >= 0.0
    && ValidTable(t)
  }

  /** What the limits and the duty cycle need. */
  predicate ValidLimits(c: Config) {
    && c.driverAllowance >= 0.0 && c.driverMultiplier >= 0.0 && c.driverFactor >= 0.0 && c.cutoffAngle >= 0.0
    && 89 <= c.validFrames && 1 <= c.cutFrames <= 2 && c.jerkLimit > 0.0
    && 0 <= c.maxTorque <= MAX_VALID_TORQUE && 1 <= c.outputScale <= MAX_VALID_TORQUE
    && 1 <= c.rateUp <= 2 * MAX_VALID_TORQUE && 1 <= c.rateDown <= 2 * MAX_VALID_TORQUE
    && MIN_SCC_ACCEL <= c.accelMin <= c.accelMax <= MAX_SCC_ACCEL
  }

  /** The configurations of an adapter. */
  predicate ValidConfig(c: Config) {
    HasTable(c.tuning) && ValidTuning(c.tuning) && ValidLimits(c)
  }

  datatype Vehicle = Vehicle(angle: real, speed: real, driverTorque: real)

  datatype Input = Input(
    lateral: real, acceleration: real, vehicle: Vehicle, dt: real, lateralAllowed: bool, longitudinalAllowed: bool)

  datatype Output = Output(
    torque: int, lateralActive: bool, request: bool, longitudinalActive: bool, acceleration: real, stopping: bool)

  /** What the adapter remembers of its past. */
  datatype History = History(
    targetAngle: real, targetRate: real, integral: real, previousError: real, lastTorque: int,
    highAngleFrames: nat, initialized: bool)

  /** What the angle controller leaves behind: its own memory and the normalized torque. */
  datatype Control = Control(targetAngle: real, targetRate: real, integral: real, previousError: real, torque: real)

  type Controller = (History, Input) -> Control

  const FRESH := History(0.0, 0.0, 0.0, 0.0, 0, 0, false)

  // ----- Arithmetic -----

  function Abs(x: int): nat { if x < 0 then -x else x }

  function Min(a: real, b: real): real { if a < b then a else b }

  function Max(a: real, b: real): real { if a < b then b else a }

  /** Rounding half away from zero. */
  function Lround(x: real): int {
    if x >= 0.0 then (x + 0.5).Floor else -((-x + 0.5).Floor)
  }

  /** The cast to a 32-bit int. */
  function Int32(x: int): int {
    var m := x % TWO_32;
    if m < TWO_31 then m else m - TWO_32
  }

  // ----- The stages -----

  /** The driver's torque may narrow the range around zero, never widen it. */
  function DriverLimits(c: Config, desired: int, driverTorque: real): int {
    Lround(ClampReal(desired as real, MinimumAllowed(c, driverTorque), MaximumAllowed(c, driverTorque)))
  }

  function MaximumAllowed(c: Config, driverTorque: real): (m: real)
    ensures m >= 0.0
  {
    var maximum := c.maxTorque as real;
    Max(Min(maximum, maximum + (c.driverAllowance + driverTorque * c.driverFactor) * c.driverMultiplier), 0.0)
  }

  function MinimumAllowed(c: Config, driverTorque: real): (m: real)
    ensures m <= 0.0
  {
    var maximum := c.maxTorque as real;
    Min(Max(-maximum, -maximum + (-c.driverAllowance + driverTorque * c.driverFactor) * c.driverMultiplier), 0.0)
  }

  function Slew(c: Config, last: int, desired: int): int {
    if last > 0 then ClampInt(desired, last - c.rateDown, last + c.rateUp)
    else if last < 0 then ClampInt(desired, last - c.rateUp, last + c.rateDown)
    else ClampInt(desired, -c.rateUp, c.rateUp)
  }

  predicate HighAngle(c: Config, angle: real) {
    c.cutoffAngle != 0.0 && AbsReal(angle) >= c.cutoffAngle
  }

  /** The sum of the two counts, in 32 bits. */
  function Cycle(c: Config): nat { Wrapped(c.validFrames + c.cutFrames) }

  /** The remainder of a sum of two 32-bit numbers by 2^32. */
  function Wrapped(sum: nat): nat
    requires sum < 2 * TWO_32
  {
    if sum < TWO_32 then sum else sum - TWO_32
  }

  lemma WrappedIsRemainder(sum: nat)
    requires sum < 2 * TWO_32
    ensures Wrapped(sum) == sum % TWO_32
  {
    Division(sum, TWO_32, if sum < TWO_32 then 0 else 1, Wrapped(sum));
  }

  /** A configuration that the constructor accepts and whose cycle is not zero, as it is when the counts add
      up to 2^32: only then is the remainder by it defined. */
  predicate Usable(c: Config) { ValidConfig(c) && Cycle(c) > 0 }

  /** The new frame count and the request. */
  function SteeringRequest(c: Config, frames: nat, active: bool, angle: real): (nat, bool)
    requires Cycle(c) > 0
  {
    if !active || !HighAngle(c, angle) then (0, active)
    else ((frames + 1) % Cycle(c), frames % Cycle(c) < c.validFrames)
  }

  function ResetHistory(v: Vehicle): History {
    History(v.angle, 0.0, 0.0, 0.0, 0, 0, true)
  }

  function Started(h: History, v: Vehicle): History {
    if h.initialized then h else ResetHistory(v)
  }

  /** The controller's part of an update, and the torque it asks for before any limit. */
  function Demand(c: Config, ctl: Controller, h: History, i: Input): (History, int) {
    if c.directTorque then (h, DirectDemand(c, i))
    else
      var k := ctl(h, i);
      (h.(targetAngle := k.targetAngle, targetRate := k.targetRate, integral := k.integral,
          previousError := k.previousError),
       ScaledDemand(c, k))
  }

  function DirectDemand(c: Config, i: Input): int { Lround(i.lateral * c.lateralScale + c.lateralOffset) }

  function ScaledDemand(c: Config, k: Control): int { Lround(k.torque * c.outputScale as real) }

  /** The torque that the slew moves towards. */
  function Target(c: Config, ctl: Controller, h: History, i: Input): int {
    DriverLimits(c, ClampInt(Int32(Demand(c, ctl, h, i).1), -c.maxTorque, c.maxTorque), i.vehicle.driverTorque)
  }

  function Acceleration(c: Config, i: Input): real {
    if i.longitudinalAllowed then ClampReal(RequestedAcceleration(c, i), c.accelMin, c.accelMax) else 0.0
  }

  function RequestedAcceleration(c: Config, i: Input): real { i.acceleration * c.accelScale + c.accelOffset }

  function Out(c: Config, i: Input, torque: int, request: bool): Output {
    Output(torque, i.lateralAllowed, request, i.longitudinalAllowed, Acceleration(c, i),
           i.longitudinalAllowed && Acceleration(c, i) < -0.1 && i.vehicle.speed < 0.3)
  }

  datatype Update = Thrown | Updated(history: History, output: Output)

  /** One update. */
  function Step(c: Config, ctl: Controller, h: History, i: Input): Update
    requires Cycle(c) > 0
  {
    if i.dt <= 0.0 then Thrown
    else
      var s := Started(h, i.vehicle);
      var (frames, request) := SteeringRequest(c, s.highAngleFrames, i.lateralAllowed, i.vehicle.angle);
      if !i.lateralAllowed then
        Updated(History(i.vehicle.angle, 0.0, 0.0, 0.0, 0, frames, true), Out(c, i, 0, request))
      else
        var torque := Slew(c, s.lastTorque, Target(c, ctl, s, i));
        Updated(Demand(c, ctl, s, i).0.(lastTorque := torque, highAngleFrames := frames), Out(c, i, torque, request))
  }

  // ----- The adapter -----

  class CommandAdapter {
    const config: Config
    const controller: Controller
    var targetAngle: real
    var targetRate: real
    var torqueIntegral: real
    var previousTorqueError: real
    var lastTorque: int
    var highAngleFrames: nat
    var initialized: bool

    function Past(): History
      reads this
    {
      History(targetAngle, targetRate, torqueIntegral, previousTorqueError, lastTorque, highAngleFrames, initialized)
    }

    constructor (config: Config, controller: Controller)
      requires ValidConfig(config)
      ensures this.config == config && this.controller == controller && Past() == FRESH
    {
      this.config, this.controller := config, controller;
      targetAngle, targetRate, torqueIntegral, previousTorqueError := 0.0, 0.0, 0.0, 0.0;
      lastTorque, highAngleFrames, initialized := 0, 0, false;
    }

    /** `reset` */
    method Reset(v: Vehicle)
      modifies this
      ensures Past() == ResetHistory(v)
    {
      targetAngle := v.angle;
      targetRate := 0.0;
      torqueIntegral := 0.0;
      previousTorqueError := 0.0;
      lastTorque := 0;
      highAngleFrames := 0;
      initialized := true;
    }

    /** `apply_torque_slew` */
    method ApplyTorqueSlew(desired: int) returns (torque: int)
      ensures torque == Slew(config, lastTorque, desired)
    {
      var lower, upper := 0, 0;
      if lastTorque > 0 {
        lower := lastTorque - config.rateDown;
        upper := lastTorque + config.rateUp;
      } else if lastTorque < 0 {
        lower := lastTorque - config.rateUp;
        upper := lastTorque + config.rateDown;
      } else {
        lower := -config.rateUp;
        upper := config.rateUp;
      }
      torque := ClampInt(desired, lower, upper);
    }

    /** `update_steering_request` */
    method UpdateSteeringRequest(active: bool, angle: real) returns (request: bool)
      requires Cycle(config) > 0
      modifies this`highAngleFrames
      ensures (highAngleFrames, request) == SteeringRequest(config, old(highAngleFrames), active, angle)
    {
      if !active || config.cutoffAngle == 0.0 || AbsReal(angle) < config.cutoffAngle {
        highAngleFrames := 0;
        return active;
      }
      var cycle := (config.validFrames + config.cutFrames) % TWO_32;
      WrappedIsRemainder(config.validFrames + config.cutFrames);
      var position := highAngleFrames % cycle;
      highAngleFrames := (highAngleFrames + 1) % cycle;
      request := position < config.validFrames;
    }

    /** `update`; `ok` is false where the source throws. */
    method Update(i: Input) returns (output: Output, ok: bool)
      requires Cycle(config) > 0
      modifies this
      ensures var r := Step(config, controller, old(Past()), i);
              && ok == r.Updated?
              && Past() == (if ok then r.history else old(Past()))
              && (ok ==> output == r.output)
    {
      hide DirectDemand, ScaledDemand, RequestedAcceleration, Int32, DriverLimits, Slew, SteeringRequest;
      var acceleration, stopping := 0.0, false;
      if i.dt <= 0.0 { return Output(0, false, false, false, 0.0, false), false; }
      if !initialized { Reset(i.vehicle); }
      if i.longitudinalAllowed {
        acceleration := ClampReal(RequestedAcceleration(config, i), config.accelMin, config.accelMax);
        stopping := acceleration < -0.1 && i.vehicle.speed < 0.3;
      }
      if !i.lateralAllowed {
        torqueIntegral := 0.0;
        previousTorqueError := 0.0;
        targetAngle := i.vehicle.angle;
        targetRate := 0.0;
        lastTorque := 0;
        var request := UpdateSteeringRequest(false, i.vehicle.angle);
        return Output(0, false, request, i.longitudinalAllowed, acceleration, stopping), true;
      }
      var desired := 0;
      if config.directTorque {
        desired := Int32(DirectDemand(config, i));
      } else {
        var k := controller(Past(), i);
        targetAngle, targetRate := k.targetAngle, k.targetRate;
        torqueIntegral, previousTorqueError := k.integral, k.previousError;
        desired := Int32(ScaledDemand(config, k));
      }
      desired := ClampInt(desired, -config.maxTorque, config.maxTorque);
      desired := DriverLimits(config, desired, i.vehicle.driverTorque);
      lastTorque := ApplyTorqueSlew(desired);
      var request := UpdateSteeringRequest(true, i.vehicle.angle);
      output := Output(lastTorque, true, request, i.longitudinalAllowed, acceleration, stopping);
      ok := true;
    }
  }

  /** The constructor: each throw of the source is a null result, in its order. */
  method Construct(config: Config, controller: Controller) returns (adapter: CommandAdapter?)
    requires HasTable(config.tuning)
    ensures adapter != null <==> ValidConfig(config)
    ensures adapter != null ==> fresh(adapter) && adapter.config == config && adapter.Past() == FRESH
  {
    var t := config.tuning;
    if t.wheelbase <= 0.0 || t.steeringRatio <= 0.0 || t.actuatorDelay < 0.0 || t.kp < 0.0 || t.ki < 0.0 ||
       t.kd < 0.0 || t.kf < 0.0 || t.latAccelFactor <= 0.0 || t.friction < 0.0 || t.frictionThreshold <= 0.0 ||
       t.angleDeadzone < 0.0 || t.integralLimit < 0.0 || t.freezeSpeed < 0.0 || t.maxTargetAngle <= 0.0 ||
       t.maxTargetRate <= 0.0 || config.driverAllowance < 0.0 || config.driverMultiplier < 0.0 ||
       config.driverFactor < 0.0 || config.cutoffAngle < 0.0 || config.validFrames < 89 ||
       config.cutFrames < 1 || config.cutFrames > 2 || config.jerkLimit <= 0.0 {
      return null;
    }
    for index := 0 to TABLE
      invariant forall i, j :: 0 <= i < j < index ==> t.breakpoints[i] < t.breakpoints[j]
      invariant forall i :: 0 <= i < index ==> t.factors[i] >= 0.0
    {
      if t.factors[index] < 0.0 || (index > 0 && t.breakpoints[index] <= t.breakpoints[index - 1]) {
        return null;
      }
    }
    if config.maxTorque < 0 || config.maxTorque > MAX_VALID_TORQUE { return null; }
    if config.outputScale < 1 || config.outputScale > MAX_VALID_TORQUE { return null; }
    if config.rateUp < 1 || config.rateUp > 2 * MAX_VALID_TORQUE ||
       config.rateDown < 1 || config.rateDown > 2 * MAX_VALID_TORQUE {
      return null;
    }
    if config.accelMin < MIN_SCC_ACCEL || config.accelMax > MAX_SCC_ACCEL || config.accelMin > config.accelMax {
      return null;
    }
    adapter := new CommandAdapter(config, controller);
  }

  // ----- Saturation before and after the cast -----

  lemma LroundOfInt(n: int)
    ensures Lround(n as real) == n
  {
  }

  lemma LroundMonotone(x: real, y: real)
    requires x <= y
    ensures Lround(x) <= Lround(y)
  {
  }

  /** What the cast leaves of a demand still lies within 32 bits or beyond the limit on the same side. */
  predicate SaturatesRight(v: int, m: int) {
    || -TWO_31 <= v < TWO_31
    || (v >= TWO_31 && m <= v % TWO_32 < TWO_31)
    || (v < -TWO_31 && m <= (-v) % TWO_32 <= TWO_31)
  }

  lemma CastThenClamp(v: int, m: int)
    requires 0 < m <= MAX_VALID_TORQUE
    ensures ClampInt(Int32(v), -m, m) == ClampInt(v, -m, m) <==> SaturatesRight(v, m)
  {
    NegatedRemainder(v, TWO_32);
    if -TWO_31 <= v < TWO_31 {
      Int32IsIdentity(v);
    }
  }

  lemma Int32IsIdentity(v: int)
    requires -TWO_31 <= v < TWO_31
    ensures Int32(v) == v
  {
  }

  lemma NegatedRemainder(v: int, m: int)
    requires m > 0
    ensures (-v) % m == if v % m == 0 then 0 else m - v % m
  {
    var q, r := v / m, v % m;
    assert v == m * q + r;
    if r == 0 {
      assert -v == m * (-q) + 0;
      Division(-v, m, -q, 0);
    } else {
      assert -v == m * (-q - 1) + (m - r);
      Division(-v, m, -q - 1, m - r);
    }
  }

  // ----- The driver limit -----

  /** The limit only moves the demand towards zero, and a zero multiplier switches it off. */
  lemma DriverLimitsShrink(c: Config, desired: int, driverTorque: real)
    requires -c.maxTorque <= desired <= c.maxTorque
    ensures var t := DriverLimits(c, desired, driverTorque); 0 <= t <= desired || desired <= t <= 0
    ensures c.driverMultiplier == 0.0 ==> DriverLimits(c, desired, driverTorque) == desired
  {
    hide Lround, MaximumAllowed, MinimumAllowed;
    var x := ClampReal(desired as real, MinimumAllowed(c, driverTorque), MaximumAllowed(c, driverTorque));
    assert DriverLimits(c, desired, driverTorque) == Lround(x);
    LroundOfInt(desired);
    LroundOfInt(0);
    assert Lround(0.0) == 0;
    if desired >= 0 {
      assert 0.0 <= x <= desired as real;
      LroundMonotone(0.0, x);
      LroundMonotone(x, desired as real);
    } else {
      assert desired as real <= x <= 0.0;
      LroundMonotone(desired as real, x);
      LroundMonotone(x, 0.0);
    }
    if c.driverMultiplier == 0.0 {
      Unlimited(c, driverTorque);
    }
  }

  lemma Unlimited(c: Config, driverTorque: real)
    requires c.driverMultiplier == 0.0 && c.maxTorque >= 0
    ensures MaximumAllowed(c, driverTorque) == c.maxTorque as real == -MinimumAllowed(c, driverTorque)
  {
    TimesZero(c.driverAllowance + driverTorque * c.driverFactor);
    TimesZero(-c.driverAllowance + driverTorque * c.driverFactor);
  }

  lemma TimesZero(x: real)
    ensures x * 0.0 == 0.0
  {
  }

  lemma TargetBounded(c: Config, ctl: Controller, h: History, i: Input)
    requires ValidConfig(c)
    ensures -c.maxTorque <= Target(c, ctl, h, i) <= c.maxTorque
  {
    hide Demand, Int32, DriverLimits;
    DriverLimitsShrink(c, ClampInt(Int32(Demand(c, ctl, h, i).1), -c.maxTorque, c.maxTorque), i.vehicle.driverTorque);
  }

  // ----- The slew -----

  function MinRate(c: Config): int { if c.rateUp < c.rateDown then c.rateUp else c.rateDown }

  /** One slew step: between the last torque and the target, and closer by at least the smaller rate or
      all the way. */
  lemma SlewProgress(c: Config, last: int, target: int)
    requires ValidConfig(c)
    ensures var next := Slew(c, last, target);
            && (last <= next <= target || target <= next <= last)
            && (next == target || Abs(target - next) <= Abs(target - last) - MinRate(c))
  {
  }

  /** The pass-through configuration: any target is reached in one step. */
  lemma PassThrough(c: Config, last: int, desired: int, driverTorque: real)
    requires ValidConfig(c) && c.rateUp == c.rateDown == 2 * MAX_VALID_TORQUE && c.driverMultiplier == 0.0
    requires -c.maxTorque <= last <= c.maxTorque && -c.maxTorque <= desired <= c.maxTorque
    ensures Slew(c, last, DriverLimits(c, desired, driverTorque)) == desired
  {
    hide DriverLimits;
    DriverLimitsShrink(c, desired, driverTorque);
  }

  /** The torque that an update would ask for if the demand were clamped before it is cast. */
  function IdealTarget(c: Config, ctl: Controller, h: History, i: Input): int {
    DriverLimits(c, ClampInt(Demand(c, ctl, h, i).1, -c.maxTorque, c.maxTorque), i.vehicle.driverTorque)
  }

  /** The 32-bit cast comes before the clamp. Every configuration steers towards the right target for a
      demand that saturates right; without driver limit and slew the output of the update is the clamped
      demand exactly for those. */
  lemma SaturationIsRight(c: Config, ctl: Controller, h: History, i: Input, r: Update)
    requires Usable(c) && 0 < c.maxTorque && i.dt > 0.0 && i.lateralAllowed
    requires r == Step(c, ctl, h, i)
    ensures var s := Started(h, i.vehicle);
            var v := Demand(c, ctl, s, i).1;
            && (SaturatesRight(v, c.maxTorque) ==> Target(c, ctl, s, i) == IdealTarget(c, ctl, s, i))
            && (c.driverMultiplier == 0.0 && c.rateUp == c.rateDown == 2 * MAX_VALID_TORQUE &&
                -c.maxTorque <= s.lastTorque <= c.maxTorque ==>
                  && r.Updated?
                  && (r.output.torque == ClampInt(v, -c.maxTorque, c.maxTorque) <==> SaturatesRight(v, c.maxTorque)))
  {
    hide Demand, DriverLimits, Slew, SaturatesRight, Int32, SteeringRequest, Acceleration;
    var s := Started(h, i.vehicle);
    var v := Demand(c, ctl, s, i).1;
    CastThenClamp(v, c.maxTorque);
    SteersTo(c, ctl, s, i);
    if c.driverMultiplier == 0.0 && c.rateUp == c.rateDown == 2 * MAX_VALID_TORQUE &&
       -c.maxTorque <= s.lastTorque <= c.maxTorque {
      PassThrough(c, s.lastTorque, ClampInt(Int32(v), -c.maxTorque, c.maxTorque), i.vehicle.driverTorque);
    }
  }

  const FLIPPING := Config(
    Tuning(true, 2.97, 14.26, 0.1, 1.0, 0.1, 0.0, 1.0, 3.2, 0.1, 0.3, 0.0, 3.78, 0.0, 175.0, 500.0,
           [0.0, 10.0, 20.0, 30.0], [15.0, 13.0, 10.0, 5.0]),
    true, 1.0, 0.0, 1.0, 0.0, -10.23, 10.24, 12.7, 1021, 2042, 2042, 270, 250.0, 0.0, 1.0, 85.0, 89, 2)

  const FLIPPED_INPUT := Input(2147483648.0, 0.0, Vehicle(0.0, 0.0, 0.0), 0.01, true, false)

  /** An input for which it is not: the direct-torque command 2^31 makes a fresh adapter steer with full
      torque the other way. */
  lemma SaturationCanFlip(ctl: Controller)
    ensures ValidConfig(FLIPPING) && Demand(FLIPPING, ctl, FRESH, FLIPPED_INPUT).1 == TWO_31
    ensures var r := Step(FLIPPING, ctl, FRESH, FLIPPED_INPUT); r.Updated? && r.output.torque == -1021
  {
    var x := FLIPPED_INPUT.lateral * FLIPPING.lateralScale + FLIPPING.lateralOffset;
    assert x == 2147483648.0;
    assert DirectDemand(FLIPPING, FLIPPED_INPUT) == TWO_31;
    assert Int32(TWO_31) == -TWO_31;
    PassThrough(FLIPPING, 0, -1021, 0.0);
  }

  // ----- Runs -----

  /** The history after a run; an update that throws leaves it as it was. */
  function After(c: Config, ctl: Controller, h: History, inputs: seq<Input>): History
    requires Cycle(c) > 0
  {
    if inputs == [] then h
    else
      var before := After(c, ctl, h, inputs[..|inputs| - 1]);
      match Step(c, ctl, before, inputs[|inputs| - 1])
      case Thrown => before
      case Updated(after, _) => after
  }

  /** The result of the k-th update of a run. */
  function OutputAt(c: Config, ctl: Controller, h: History, inputs: seq<Input>, k: nat): Update
    requires Cycle(c) > 0 && k < |inputs|
  {
    Step(c, ctl, After(c, ctl, h, inputs[..k]), inputs[k])
  }

  lemma StepBounded(c: Config, ctl: Controller, h: History, i: Input)
    requires Usable(c) && -c.maxTorque <= h.lastTorque <= c.maxTorque
    ensures var r := Step(c, ctl, h, i);
            r.Updated? ==> r.output.torque == r.history.lastTorque && -c.maxTorque <= r.output.torque <= c.maxTorque
  {
    hide Target, Slew, Demand, SteeringRequest, Acceleration;
    if i.dt > 0.0 {
      var s := Started(h, i.vehicle);
      TargetBounded(c, ctl, s, i);
      SlewProgress(c, s.lastTorque, Target(c, ctl, s, i));
    }
  }

  /** Torque bound over every history: whatever is asked, in whatever order, no output exceeds the limit. */
  lemma {:induction false} TorqueAlwaysBounded(c: Config, ctl: Controller, h: History, inputs: seq<Input>)
    requires Usable(c) && -c.maxTorque <= h.lastTorque <= c.maxTorque
    ensures -c.maxTorque <= After(c, ctl, h, inputs).lastTorque <= c.maxTorque
  {
    hide Step;
    if inputs != [] {
      var init := inputs[..|inputs| - 1];
      TorqueAlwaysBounded(c, ctl, h, init);
      StepBounded(c, ctl, After(c, ctl, h, init), inputs[|inputs| - 1]);
    }
  }

  /** Every output of every run from a fresh adapter is within the limits. */
  lemma OutputsBounded(c: Config, ctl: Controller, inputs: seq<Input>, k: nat)
    requires Usable(c) && k < |inputs|
    ensures var r := OutputAt(c, ctl, FRESH, inputs, k);
            r.Updated? ==>
              && -c.maxTorque <= r.output.torque <= c.maxTorque
              && (r.output.torque != 0 ==> inputs[k].lateralAllowed)
              && (inputs[k].longitudinalAllowed ==> c.accelMin <= r.output.acceleration <= c.accelMax)
              && (!inputs[k].longitudinalAllowed ==> r.output.acceleration == 0.0 && !r.output.stopping)
  {
    hide After, Target, Slew, Demand, SteeringRequest;
    TorqueAlwaysBounded(c, ctl, FRESH, inputs[..k]);
    StepBounded(c, ctl, After(c, ctl, FRESH, inputs[..k]), inputs[k]);
  }

  /** Every update of the run may steer and its target is t. */
  predicate Aims(c: Config, ctl: Controller, h: History, inputs: seq<Input>, t: int)
    requires Cycle(c) > 0
  {
    inputs == [] ||
    (var init, last := inputs[..|inputs| - 1], inputs[|inputs| - 1];
     Aims(c, ctl, h, init, t) && last.dt > 0.0 && last.lateralAllowed &&
     Target(c, ctl, After(c, ctl, h, init), last) == t)
  }

  /** Convergence: n updates towards one target close the distance by n times the smaller rate. */
  lemma {:induction false} Converges(c: Config, ctl: Controller, h: History, inputs: seq<Input>, t: int)
    requires Usable(c) && h.initialized && Aims(c, ctl, h, inputs, t)
    ensures var h' := After(c, ctl, h, inputs);
            && h'.initialized
            && (h'.lastTorque == t || Abs(t - h'.lastTorque) <= Abs(t - h.lastTorque) - |inputs| * MinRate(c))
  {
    hide Target, Slew, SteeringRequest, Acceleration, MinRate, Demand;
    if inputs != [] {
      var init := inputs[..|inputs| - 1];
      Converges(c, ctl, h, init, t);
      var before := After(c, ctl, h, init);
      SteersTo(c, ctl, before, inputs[|inputs| - 1]);
      SlewProgress(c, before.lastTorque, t);
      assert |inputs| * MinRate(c) == |init| * MinRate(c) + MinRate(c);
    }
  }

  lemma SteersTo(c: Config, ctl: Controller, h: History, i: Input)
    requires Cycle(c) > 0 && h.initialized && i.dt > 0.0 && i.lateralAllowed
    ensures var r := Step(c, ctl, h, i);
            && r.Updated? && r.history.initialized
            && r.history.lastTorque == r.output.torque == Slew(c, h.lastTorque, Target(c, ctl, h, i))
  {
    hide Target, Slew, SteeringRequest, Acceleration;
    assert Demand(c, ctl, h, i).0.initialized;
  }

  /** So a constant target is reached within ceil(2 * max / rate) updates. */
  lemma ReachedInTime(c: Config, ctl: Controller, h: History, inputs: seq<Input>, t: int)
    requires Usable(c) && h.initialized && Aims(c, ctl, h, inputs, t)
    requires -c.maxTorque <= h.lastTorque <= c.maxTorque && -c.maxTorque <= t <= c.maxTorque
    requires |inputs| >= (2 * c.maxTorque + MinRate(c) - 1) / MinRate(c)
    ensures After(c, ctl, h, inputs).lastTorque == t
  {
    hide After, Aims;
    Converges(c, ctl, h, inputs, t);
    EnoughSteps(|inputs|, MinRate(c), 2 * c.maxTorque);
  }

  lemma EnoughSteps(n: nat, rate: int, distance: nat)
    requires rate > 0 && n >= (distance + rate - 1) / rate
    ensures n * rate >= distance
  {
    var q := (distance + rate - 1) / rate;
    assert q * rate + (distance + rate - 1) % rate == distance + rate - 1;
    assert n * rate >= q * rate;
  }

  // ----- The duty cycle of the steering request -----

  /** Every update of the run steers at a high angle. */
  predicate AllHigh(c: Config, inputs: seq<Input>) {
    forall k :: 0 <= k < |inputs| ==>
      inputs[k].dt > 0.0 && inputs[k].lateralAllowed && HighAngle(c, inputs[k].vehicle.angle)
  }

  lemma CountOn(a: nat, n: nat, m: nat)
    requires m > 0
    ensures ((a + n) % m + 1) % m == (a + n + 1) % m
  {
    var x := a + n;
    var y := x % m + 1;
    assert x + 1 == m * (x / m) + y;
    assert y == m * (y / m) + y % m;
    SumOfProducts(m, x / m, y / m);
    Division(x + 1, m, x / m + y / m, y % m);
  }

  lemma SumOfProducts(m: int, p: int, q: int)
    ensures m * p + m * q == m * (p + q)
  {
  }

  lemma {:induction false} HighAngleCount(c: Config, ctl: Controller, h: History, inputs: seq<Input>)
    requires Cycle(c) > 0 && h.initialized && AllHigh(c, inputs)
    ensures var h' := After(c, ctl, h, inputs);
            h'.initialized && h'.highAngleFrames % Cycle(c) == (h.highAngleFrames + |inputs|) % Cycle(c)
  {
    hide Target, Slew, Demand, Acceleration, Cycle, HighAngle;
    if inputs != [] {
      var init, last := inputs[..|inputs| - 1], inputs[|inputs| - 1];
      HighAngleCount(c, ctl, h, init);
      HighStep(c, ctl, After(c, ctl, h, init), last);
      CountOn(After(c, ctl, h, init).highAngleFrames, 0, Cycle(c));
      CountOn(h.highAngleFrames, |init|, Cycle(c));
      ModTwice(After(c, ctl, h, init).highAngleFrames + 1, Cycle(c));
    }
  }

  lemma ModTwice(a: nat, m: nat)
    requires m > 0
    ensures (a % m) % m == a % m
  {
  }

  lemma HighStep(c: Config, ctl: Controller, h: History, i: Input)
    requires Cycle(c) > 0 && h.initialized && i.dt > 0.0 && i.lateralAllowed && HighAngle(c, i.vehicle.angle)
    ensures var r := Step(c, ctl, h, i);
            && r.Updated? && r.history.initialized
            && r.history.highAngleFrames == (h.highAngleFrames + 1) % Cycle(c)
            && r.output.request == (h.highAngleFrames % Cycle(c) < c.validFrames)
  {
    hide Target, Slew, Acceleration, HighAngle, Cycle;
    assert Demand(c, ctl, h, i).0.initialized;
  }

  predicate Requested(c: Config, n: nat)
    requires Cycle(c) > 0
  {
    n % Cycle(c) < c.validFrames
  }

  /** Unrequested frames among a, ..., a + length - 1. */
  function Unrequested(c: Config, a: nat, length: nat): nat
    requires Cycle(c) > 0
  {
    if length == 0 then 0 else Unrequested(c, a, length - 1) + if Requested(c, a + length - 1) then 0 else 1
  }

  lemma SmallRemainder(a: nat, m: nat)
    requires a < m
    ensures a % m == a
  {
    Division(a, m, 0, a);
  }

  /** The sum of the two counts does not wrap. */
  predicate SumFits(c: Config) { c.validFrames + c.cutFrames < TWO_32 }

  lemma CycleOfFitting(c: Config)
    requires SumFits(c)
    ensures Cycle(c) == c.validFrames + c.cutFrames
  {
  }

  /** A sum that wraps leaves a cycle of one frame, or none. */
  lemma CycleOfWrapping(c: Config)
    requires ValidConfig(c) && !SumFits(c)
    ensures Cycle(c) == c.validFrames + c.cutFrames - TWO_32 <= 1
  {
  }

  lemma {:induction false} UnrequestedFromStart(c: Config, length: nat)
    requires SumFits(c) && Cycle(c) > 0 && length <= Cycle(c)
    ensures Unrequested(c, 0, length) == if length <= c.validFrames then 0 else length - c.validFrames
  {
    hide Cycle;
    CycleOfFitting(c);
    if length > 0 {
      UnrequestedFromStart(c, length - 1);
      SmallRemainder(length - 1, Cycle(c));
    }
  }

  lemma {:induction false} UnrequestedShift(c: Config, a: nat, length: nat)
    requires Cycle(c) > 0
    ensures Unrequested(c, a, length) + (if Requested(c, a + length) then 0 else 1) ==
            (if Requested(c, a) then 0 else 1) + Unrequested(c, a + 1, length)
  {
    hide Requested;
    if length > 0 {
      UnrequestedShift(c, a, length - 1);
    }
  }

  lemma {:induction false} WindowOfFrames(c: Config, a: nat)
    requires SumFits(c) && Cycle(c) > 0
    ensures Unrequested(c, a, Cycle(c)) == c.cutFrames
  {
    hide Cycle;
    CycleOfFitting(c);
    if a == 0 {
      UnrequestedFromStart(c, Cycle(c));
    } else {
      WindowOfFrames(c, a - 1);
      UnrequestedShift(c, a - 1, Cycle(c));
      OnePeriodOn(a - 1, Cycle(c));
    }
  }

  lemma OnePeriodOn(a: nat, m: nat)
    requires m > 0
    ensures (a + m) % m == a % m
  {
    Division(a + m, m, a / m + 1, a % m);
  }

  lemma NextOffAndOn(c: Config, a: nat) returns (off: nat, on: nat)
    requires ValidConfig(c) && SumFits(c)
    ensures a <= off <= a + c.validFrames && Cycle(c) > 0 && !Requested(c, off)
    ensures a <= on <= a + c.cutFrames && Requested(c, on)
  {
    CycleOfFitting(c);
    var m, r := Cycle(c), a % Cycle(c);
    off := if r >= c.validFrames then a else a + (c.validFrames - r);
    on := if r < c.validFrames then a else a + (m - r);
    if r < c.validFrames {
      ShiftedRemainder(a, c.validFrames - r, m);
    } else {
      ShiftedToZero(a, m);
    }
  }

  lemma ShiftedRemainder(a: nat, d: nat, m: nat)
    requires m > 0 && a % m + d < m
    ensures (a + d) % m == a % m + d
  {
    Division(a + d, m, a / m, a % m + d);
  }

  lemma ShiftedToZero(a: nat, m: nat)
    requires m > 0
    ensures (a + (m - a % m)) % m == 0
  {
    assert a + (m - a % m) == m * (a / m + 1) + 0;
    Division(a + (m - a % m), m, a / m + 1, 0);
  }

  /** Update n of the run requests steering. */
  predicate RequestsAt(c: Config, ctl: Controller, h: History, inputs: seq<Input>, n: nat)
    requires Cycle(c) > 0 && n < |inputs|
  {
    OutputAt(c, ctl, h, inputs, n).Updated? && OutputAt(c, ctl, h, inputs, n).output.request
  }

  /** Frame n of a run of high-angle frames is requested exactly when its place in the cycle, counted on from
      the adapter's own count, is below `valid`. A low-angle or inactive frame resets that count to zero. */
  lemma RequestPattern(c: Config, ctl: Controller, h: History, inputs: seq<Input>, n: nat)
    requires Cycle(c) > 0 && h.initialized && AllHigh(c, inputs) && n < |inputs|
    ensures RequestsAt(c, ctl, h, inputs, n) <==> (h.highAngleFrames + n) % Cycle(c) < c.validFrames
    ensures OutputAt(c, ctl, h, inputs, n).Updated?
  {
    hide After, Step, HighAngle, Cycle;
    HighAngleCount(c, ctl, h, inputs[..n]);
    HighStep(c, ctl, After(c, ctl, h, inputs[..n]), inputs[n]);
  }

  /** Updates without a request among a, ..., a + length - 1. */
  function UnrequestedOutputs(c: Config, ctl: Controller, h: History, inputs: seq<Input>, a: nat, length: nat): nat
    requires Cycle(c) > 0 && a + length <= |inputs|
  {
    if length == 0 then 0
    else UnrequestedOutputs(c, ctl, h, inputs, a, length - 1) +
         if RequestsAt(c, ctl, h, inputs, a + length - 1) then 0 else 1
  }

  lemma {:induction false} OutputsFollowFrames(c: Config, ctl: Controller, h: History, inputs: seq<Input>,
                                               a: nat, length: nat)
    requires Cycle(c) > 0 && h.initialized && AllHigh(c, inputs) && a + length <= |inputs|
    ensures UnrequestedOutputs(c, ctl, h, inputs, a, length) == Unrequested(c, h.highAngleFrames + a, length)
  {
    hide RequestsAt, Cycle, AllHigh;
    if length > 0 {
      OutputsFollowFrames(c, ctl, h, inputs, a, length - 1);
      RequestPattern(c, ctl, h, inputs, a + length - 1);
    }
  }

  /** Of any valid + cut consecutive high-angle updates of any adapter, exactly `cut` request no steering, if
      and only if the 32-bit sum of the two counts does not wrap. */
  lemma ExactlyCutPerWindow(c: Config, ctl: Controller, h: History, inputs: seq<Input>, a: nat)
    requires Usable(c) && h.initialized && AllHigh(c, inputs) && a + c.validFrames + c.cutFrames <= |inputs|
    ensures UnrequestedOutputs(c, ctl, h, inputs, a, c.validFrames + c.cutFrames) == c.cutFrames <==> SumFits(c)
  {
    hide AllHigh, Cycle, UnrequestedOutputs, Unrequested, ValidTuning;
    OutputsFollowFrames(c, ctl, h, inputs, a, c.validFrames + c.cutFrames);
    if SumFits(c) {
      CycleOfFitting(c);
      WindowOfFrames(c, h.highAngleFrames + a);
    } else {
      CycleOfWrapping(c);
      AlwaysRequested(c, h.highAngleFrames + a, c.validFrames + c.cutFrames);
    }
  }

  /** In a cycle of one frame every frame is requested. */
  lemma {:induction false} AlwaysRequested(c: Config, a: nat, length: nat)
    requires Cycle(c) == 1 && c.validFrames > 0
    ensures Unrequested(c, a, length) == 0
  {
    hide Cycle;
    if length > 0 {
      AlwaysRequested(c, a, length - 1);
      Division(a + length - 1, 1, a + length - 1, 0);
    }
  }

  /** No streak of updates without a request is longer than `cut`; none that request steering is longer than
      `valid` where the sum of the two counts does not wrap. */
  lemma StreaksBounded(c: Config, ctl: Controller, h: History, inputs: seq<Input>, a: nat)
    requires Usable(c) && h.initialized && AllHigh(c, inputs)
    ensures SumFits(c) && a + c.validFrames < |inputs| ==>
              exists n :: a <= n <= a + c.validFrames && !RequestsAt(c, ctl, h, inputs, n)
    ensures a + c.cutFrames < |inputs| ==>
              exists n :: a <= n <= a + c.cutFrames && RequestsAt(c, ctl, h, inputs, n)
  {
    hide AllHigh, RequestsAt, ValidTuning, Cycle;
    if SumFits(c) {
      StreaksBoundedFitting(c, ctl, h, inputs, a);
    } else if a + c.cutFrames < |inputs| {
      CycleOfWrapping(c);
      RequestPattern(c, ctl, h, inputs, a);
      Division(h.highAngleFrames + a, 1, h.highAngleFrames + a, 0);
      assert RequestsAt(c, ctl, h, inputs, a);
    }
  }

  lemma StreaksBoundedFitting(c: Config, ctl: Controller, h: History, inputs: seq<Input>, a: nat)
    requires Usable(c) && SumFits(c) && h.initialized && AllHigh(c, inputs)
    ensures a + c.validFrames < |inputs| ==>
              exists n :: a <= n <= a + c.validFrames && !RequestsAt(c, ctl, h, inputs, n)
    ensures a + c.cutFrames < |inputs| ==>
              exists n :: a <= n <= a + c.cutFrames && RequestsAt(c, ctl, h, inputs, n)
  {
    hide AllHigh, RequestsAt, ValidTuning, Cycle;
    var off, on := NextOffAndOn(c, h.highAngleFrames + a);
    if a + c.validFrames < |inputs| {
      RequestPattern(c, ctl, h, inputs, off - h.highAngleFrames);
      assert !RequestsAt(c, ctl, h, inputs, off - h.highAngleFrames);
    }
    if a + c.cutFrames < |inputs| {
      RequestPattern(c, ctl, h, inputs, on - h.highAngleFrames);
      assert RequestsAt(c, ctl, h, inputs, on - h.highAngleFrames);
    }
  }

  // ----- Forgetting -----

  /** A lateral-off update forgets: whatever two adapters went through, after it they remember the same. */
  lemma OffForgets(c: Config, ctl: Controller, h1: History, h2: History, i: Input)
    requires Cycle(c) > 0 && i.dt > 0.0 && !i.lateralAllowed
    ensures Step(c, ctl, h1, i) == Step(c, ctl, h2, i) && Step(c, ctl, h1, i).Updated?
  {
    hide Acceleration;
  }

  lemma AfterOne(c: Config, ctl: Controller, h: History, i: Input)
    requires Cycle(c) > 0
    ensures After(c, ctl, h, [i]) == match Step(c, ctl, h, i) case Thrown => h case Updated(after, _) => after
  {
    hide Step;
    assert [i][..0] == [];
  }

  /** So from a lateral-off update on, all their outputs agree. */
  lemma {:induction false} PastsDoNotMatter(c: Config, ctl: Controller, h1: History, h2: History, off: Input,
                                            inputs: seq<Input>, k: nat)
    requires Cycle(c) > 0 && off.dt > 0.0 && !off.lateralAllowed && k < |[off] + inputs|
    ensures OutputAt(c, ctl, h1, [off] + inputs, k) == OutputAt(c, ctl, h2, [off] + inputs, k)
    ensures After(c, ctl, h1, ([off] + inputs)[..k + 1]) == After(c, ctl, h2, ([off] + inputs)[..k + 1])
    decreases k
  {
    hide Step;
    var all := [off] + inputs;
    assert all[..k + 1][..k] == all[..k];
    if k == 0 {
      assert all[..0] == [] && all[..1] == [off];
      OffForgets(c, ctl, h1, h2, off);
      AfterOne(c, ctl, h1, off);
      AfterOne(c, ctl, h2, off);
    } else {
      PastsDoNotMatter(c, ctl, h1, h2, off, inputs, k - 1);
    }
  }
}
