/** One update of the command adapter, number by number: what Torque.dfy computes through its stages is stated here
    over the fields of configuration, history, input and output alone, with every constant written out. */
module TorqueLaws {
  import opened Arithmetic
  import opened Torque

  // ----- Which configurations there are -----

  /** The constructor's bounds, entry by entry. */
  lemma ConfigExactly(c: Config)
    requires |c.tuning.breakpoints| == 4 && |c.tuning.factors| == 4
    ensures ValidConfig(c) <==>
      (var t := c.tuning;
       var b, f := t.breakpoints, t.factors;
       && t.wheelbase > 0.0 && t.steeringRatio > 0.0 && t.actuatorDelay >= 0.0
       && t.kp >= 0.0 && t.ki >= 0.0 && t.kd >= 0.0 && t.kf >= 0.0 && t.latAccelFactor > 0.0
       && t.friction >= 0.0 && t.frictionThreshold > 0.0 && t.angleDeadzone >= 0.0 && t.integralLimit >= 0.0
       && t.freezeSpeed >= 0.0 && t.maxTargetAngle > 0.0 && t.maxTargetRate > 0.0
       && b[0] < b[1] < b[2] < b[3] && f[0] >= 0.0 && f[1] >= 0.0 && f[2] >= 0.0 && f[3] >= 0.0
       && c.driverAllowance >= 0.0 && c.driverMultiplier >= 0.0 && c.driverFactor >= 0.0 && c.cutoffAngle >= 0.0
       && c.validFrames >= 89 && (c.cutFrames == 1 || c.cutFrames == 2) && c.jerkLimit > 0.0
       && 0 <= c.maxTorque <= 1021 && 1 <= c.outputScale <= 1021
       && 1 <= c.rateUp <= 2042 && 1 <= c.rateDown <= 2042
       && -10.23 <= c.accelMin <= c.accelMax <= 10.24)
  {
    TableExactly(c.tuning);
  }

  lemma TableExactly(t: Tuning)
    requires HasTable(t)
    ensures var b, f := t.breakpoints, t.factors;
            ValidTable(t) <==>
              b[0] < b[1] < b[2] < b[3] && f[0] >= 0.0 && f[1] >= 0.0 && f[2] >= 0.0 && f[3] >= 0.0
  {
  }

  // ----- The longitudinal channel -----

  /** The scaled request where it lies within the configured range, the nearer end where it does not, zero without
      permission; the car is to hold exactly when it is told to brake while it hardly moves. */
  lemma AccelerationExactly(c: Config, ctl: Controller, h: History, i: Input)
    requires Usable(c) && i.dt > 0.0
    ensures var r := Step(c, ctl, h, i);
            var x := i.acceleration * c.accelScale + c.accelOffset;
            && r.Updated? && r.output.longitudinalActive == i.longitudinalAllowed
            && (!i.longitudinalAllowed ==> r.output.acceleration == 0.0)
            && (i.longitudinalAllowed && c.accelMin <= x <= c.accelMax ==> r.output.acceleration == x)
            && (i.longitudinalAllowed && x < c.accelMin ==> r.output.acceleration == c.accelMin)
            && (i.longitudinalAllowed && c.accelMax < x ==> r.output.acceleration == c.accelMax)
            && (r.output.stopping <==>
                  i.longitudinalAllowed && r.output.acceleration < -0.1 && i.vehicle.speed < 0.3)
  {
    hide Demand, Target, Slew, SteeringRequest, Started, ValidTuning;
  }

  // ----- The lateral channel -----

  /** The integer nearest to x, and of two such the one farther from zero. */
  predicate Nearest(x: real, n: int) {
    if x >= 0.0 then n as real - 0.5 <= x < n as real + 0.5 else n as real - 0.5 < x <= n as real + 0.5
  }

  lemma RoundsToNearest(x: real, n: int)
    ensures Lround(x) == n <==> Nearest(x, n)
  {
  }

  /** What 32 bits leave of an integer. */
  predicate SameWord(raw: int, word: int) {
    (raw - word) % 4294967296 == 0 && -2147483648 <= word < 2147483648
  }

  lemma CastExactly(raw: int)
    ensures SameWord(raw, Int32(raw))
  {
    var q := raw / 4294967296;
    var k := if Int32(raw) < 0 then q + 1 else q;
    assert raw - Int32(raw) == 4294967296 * k;
    Division(raw - Int32(raw), 4294967296, k, 0);
  }

  /** The value within the limits, or the limit it exceeds. */
  predicate Within(x: int, low: int, high: int, y: int) {
    (low <= x <= high ==> y == x) && (x < low ==> y == low) && (x > high ==> y == high)
  }

  /** How much torque the driver leaves to the right: the limit, moved by what the driver's own torque exceeds the
      allowance against it. To the left it is the same with the driver's torque negated. */
  function Room(c: Config, driverTorque: real): real {
    c.maxTorque as real + (c.driverAllowance + driverTorque * c.driverFactor) * c.driverMultiplier
  }

  /** A demand is cut down to the rounded room on its own side, to nothing where there is none. */
  predicate CutToRoom(desired: int, room: real, target: int) {
    && (desired as real <= room ==> target == desired)
    && (0.0 < room < desired as real ==> Nearest(room, target))
    && (room <= 0.0 ==> target == 0)
  }

  predicate DriverLimited(c: Config, driverTorque: real, desired: int, target: int) {
    if desired >= 0 then desired > 0 ==> CutToRoom(desired, Room(c, driverTorque), target)
    else CutToRoom(-desired, Room(c, -driverTorque), -target)
  }

  lemma CutsToRoom(desired: nat, maximum: nat, room: real, low: real)
    requires 0 < desired <= maximum && low <= 0.0
    ensures CutToRoom(desired, room, Lround(ClampReal(desired as real, low, Max(Min(maximum as real, room), 0.0))))
  {
    hide Lround, Nearest;
    LroundOfInt(desired);
    assert Lround(0.0) == 0 by { LroundOfInt(0); }
    RoundsToNearest(room, Lround(room));
  }

  lemma RoundingIsOdd(x: real)
    ensures Lround(-x) == -Lround(x)
  {
  }

  lemma ClampIsOdd(x: real, low: real, high: real)
    requires low <= high
    ensures ClampReal(-x, -high, -low) == -ClampReal(x, low, high)
  {
  }

  lemma RoomIsMirrored(c: Config, t: real)
    ensures Room(c, -t) == -(-(c.maxTorque as real) + (-c.driverAllowance + t * c.driverFactor) * c.driverMultiplier)
  {
    var x := -c.driverAllowance + t * c.driverFactor;
    assert (-t) * c.driverFactor == -(t * c.driverFactor);
    Negated(x, c.driverMultiplier);
  }

  lemma Negated(x: real, m: real)
    ensures (-x) * m == -(x * m)
  {
  }

  /** On which side, and by how much, the driver narrows the range. */
  lemma DriverLimitExactly(c: Config, desired: int, driverTorque: real)
    requires -c.maxTorque <= desired <= c.maxTorque
    ensures DriverLimited(c, driverTorque, desired, DriverLimits(c, desired, driverTorque))
    ensures desired == 0 ==> DriverLimits(c, desired, driverTorque) == 0
  {
    hide Lround, CutToRoom, ClampReal;
    var maximum := c.maxTorque as real;
    var low, high := MinimumAllowed(c, driverTorque), MaximumAllowed(c, driverTorque);
    if desired == 0 {
      DriverLimitsShrink(c, desired, driverTorque);
    } else if desired > 0 {
      CutsToRoom(desired, c.maxTorque, Room(c, driverTorque), low);
    } else {
      RoomIsMirrored(c, driverTorque);
      var room := Room(c, -driverTorque);
      assert low == -Max(Min(maximum, room), 0.0);
      CutsToRoom(-desired, c.maxTorque, room, -high);
      ClampIsOdd(desired as real, low, high);
      RoundingIsOdd(ClampReal(desired as real, low, high));
    }
  }

  /** The last torque moves towards the target by one rate when it grows and by the other when it shrinks. */
  predicate Slewed(c: Config, last: int, target: int, torque: int) {
    if last > 0 then Within(target, last - c.rateDown, last + c.rateUp, torque)
    else if last == 0 then Within(target, -c.rateUp, c.rateUp, torque)
    else Within(target, last - c.rateUp, last + c.rateDown, torque)
  }

  /** The history an update works on: its own, or a fresh start from the vehicle. */
  function Begun(h: History, v: Vehicle): History {
    if h.initialized then h else History(v.angle, 0.0, 0.0, 0.0, 0, 0, true)
  }

  lemma DemandExactly(c: Config, ctl: Controller, s: History, i: Input)
    ensures c.directTorque ==> Nearest(i.lateral * c.lateralScale + c.lateralOffset, Demand(c, ctl, s, i).1)
    ensures !c.directTorque ==> Nearest(ctl(s, i).torque * c.outputScale as real, Demand(c, ctl, s, i).1)
  {
    hide Lround;
    DirectIsNearest(c, i);
    ScaledIsNearest(c, ctl(s, i));
  }

  lemma DirectIsNearest(c: Config, i: Input)
    ensures Nearest(i.lateral * c.lateralScale + c.lateralOffset, DirectDemand(c, i))
  {
    RoundsToNearest(i.lateral * c.lateralScale + c.lateralOffset, DirectDemand(c, i));
  }

  lemma ScaledIsNearest(c: Config, k: Control)
    ensures Nearest(k.torque * c.outputScale as real, ScaledDemand(c, k))
  {
    RoundsToNearest(k.torque * c.outputScale as real, ScaledDemand(c, k));
  }

  /** The way of a torque from the command to the output: scaled and rounded, cut to 32 bits, to the limit, to the
      driver's room, and to what the slew allows. */
  lemma TorqueExactly(c: Config, ctl: Controller, h: History, i: Input)
    returns (raw: int, word: int, within: int, target: int)
    requires Usable(c) && i.dt > 0.0 && i.lateralAllowed
    ensures c.directTorque ==> Nearest(i.lateral * c.lateralScale + c.lateralOffset, raw)
    ensures !c.directTorque ==> Nearest(ctl(Begun(h, i.vehicle), i).torque * c.outputScale as real, raw)
    ensures SameWord(raw, word) && Within(word, -c.maxTorque, c.maxTorque, within)
    ensures DriverLimited(c, i.vehicle.driverTorque, within, target) && (within == 0 ==> target == 0)
    ensures var r := Step(c, ctl, h, i);
            && r.Updated? && r.output.lateralActive
            && Slewed(c, Begun(h, i.vehicle).lastTorque, target, r.output.torque)
            && r.history.lastTorque == r.output.torque
  {
    hide SteeringRequest, Acceleration, ValidTuning, DriverLimits, Int32, Lround, SameWord, DriverLimited;
    var s := Begun(h, i.vehicle);
    assert s == Started(h, i.vehicle);
    raw := Demand(c, ctl, s, i).1;
    word := Int32(raw);
    within := ClampInt(word, -c.maxTorque, c.maxTorque);
    target := DriverLimits(c, within, i.vehicle.driverTorque);
    DemandExactly(c, ctl, s, i);
    CastExactly(raw);
    DriverLimitExactly(c, within, i.vehicle.driverTorque);
  }

  /** What an update remembers of its controller: its memory in the angle modes, nothing new with a torque command. */
  lemma ControllerRemembered(c: Config, ctl: Controller, h: History, i: Input)
    requires Usable(c) && i.dt > 0.0 && i.lateralAllowed
    ensures var r := Step(c, ctl, h, i);
            var s := Begun(h, i.vehicle);
            && r.Updated? && r.history.initialized
            && (if c.directTorque then
                  && r.history.targetAngle == s.targetAngle && r.history.targetRate == s.targetRate
                  && r.history.integral == s.integral && r.history.previousError == s.previousError
                else
                  && r.history.targetAngle == ctl(s, i).targetAngle && r.history.targetRate == ctl(s, i).targetRate
                  && r.history.integral == ctl(s, i).integral
                  && r.history.previousError == ctl(s, i).previousError)
  {
    hide SteeringRequest, Acceleration, ValidTuning, Target, Slew;
  }

  /** An update throws exactly without a positive period; without permission it steers nothing, asks for nothing and
      starts over from the vehicle's angle. */
  lemma OffExactly(c: Config, ctl: Controller, h: History, i: Input)
    requires Usable(c)
    ensures Step(c, ctl, h, i).Thrown? <==> i.dt <= 0.0
    ensures var r := Step(c, ctl, h, i);
            i.dt > 0.0 && !i.lateralAllowed ==>
              && r.output.torque == 0 && !r.output.lateralActive && !r.output.request
              && r.history == History(i.vehicle.angle, 0.0, 0.0, 0.0, 0, 0, true)
  {
    hide Acceleration, ValidTuning, Target, Slew, Demand;
  }

  /** The request is up at every steering update below the cutoff angle, or with no cutoff; at or above it the count
      decides, which starts again from zero below it. */
  lemma RequestExactly(c: Config, ctl: Controller, h: History, i: Input)
    requires Usable(c) && i.dt > 0.0 && i.lateralAllowed
    ensures var r := Step(c, ctl, h, i);
            var high := c.cutoffAngle != 0.0 && !(-c.cutoffAngle < i.vehicle.angle < c.cutoffAngle);
            var cycle := (c.validFrames + c.cutFrames) % 4294967296;
            var count := Begun(h, i.vehicle).highAngleFrames;
            && cycle > 0 && r.Updated?
            && (!high ==> r.output.request && r.history.highAngleFrames == 0)
            && (high ==> (r.output.request <==> count % cycle < c.validFrames) &&
                         r.history.highAngleFrames == (count + 1) % cycle)
  {
    hide Acceleration, ValidTuning, Target, Slew;
    WrappedIsRemainder(c.validFrames + c.cutFrames);
  }
}
