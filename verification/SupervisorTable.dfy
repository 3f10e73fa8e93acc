/** The supervisor's update as a decision table over the raw inputs. Every condition and every number is written
    out here once more, from the requirements, without the functions of Supervisor.dfy; the update is proved
    equal to the first row that applies. */
module SupervisorTable {
  import opened Arithmetic
  import opened Supervisor

  // ----- The conditions, in the fields of one sample -----

  predicate Fresh(cfg: Config, i: Inputs) {
    i.panda.connected && i.panda.updatedAt != 0 && 0 <= i.now - i.panda.updatedAt <= cfg.pandaTimeout
  }

  predicate Commanded(cfg: Config, i: Inputs) {
    i.command.receivedAt != 0 && 0 <= i.now - i.command.receivedAt <= cfg.commandTimeout
  }

  /** No fault bit but ignored ones, and a fault status only as long as those explain it. */
  predicate Healthy(p: Panda) {
    && !p.sessionBlocked && !p.heartbeatLost && !p.rxChecksInvalid && !p.busOff
    && p.faults & !p.ignoredFaults == 0 && (p.faultStatus == 0 || (p.faults != 0 && p.ignoredFaults != 0))
  }

  predicate Configured(cfg: Config, p: Panda) {
    p.safetyMode == cfg.requiredSafetyMode && p.safetyParam == cfg.requiredSafetyParam
  }

  predicate Standby(cfg: Config, p: Panda) {
    cfg.resumeOnCommandReturn && p.sessionActive && p.safetyMode == 19 && p.safetyParam == cfg.requiredSafetyParam
  }

  predicate Working(s: State) { s.control == Active || s.control == SoftDisabling }

  /** The vehicle is unknown, too fast, or steered too far; a limit of zero is no limit. */
  predicate Unfit(cfg: Config, v: Vehicle) {
    || !v.valid
    || (cfg.maxActiveSpeed > 0.0 && v.speed > cfg.maxActiveSpeed)
    || (cfg.maxAbsSteeringAngle > 0.0 &&
        (v.steeringAngle >= cfg.maxAbsSteeringAngle || -v.steeringAngle >= cfg.maxAbsSteeringAngle))
  }

  // ----- The channels after buttons, pedals and Panda's rejections -----

  predicate LanePress(s: State, v: Vehicle) { v.laneKeepEvents != s.lastLaneKeep }

  predicate SetPress(s: State, v: Vehicle) { v.setEvents != s.lastSet }

  /** Lateral control is selected after the buttons: mirrored in resume mode; otherwise the last press decides,
      SET over LDA, and a toggling press switches off what it alone had selected. */
  predicate LateralSelected(cfg: Config, s: State, i: Inputs) {
    if !s.armRequested then s.lateral
    else if cfg.resumeOnCommandReturn then i.panda.lateralSelected
    else if SetPress(s, i.vehicle) then !SetSwitchesOff(cfg, s, i)
    else if LanePress(s, i.vehicle) then !LaneSwitchesOff(cfg, s)
    else s.lateral
  }

  predicate LaneSwitchesOff(cfg: Config, s: State) { cfg.lateralButtonToggle && s.lateral && !s.longitudinal }

  /** SET switches off a combined selection that no LDA press of the same sample has just reduced. */
  predicate SetSwitchesOff(cfg: Config, s: State, i: Inputs) {
    cfg.longitudinalButtonToggle && s.lateral && s.longitudinal && !LanePress(s, i.vehicle)
  }

  /** The longitudinal channel is latched off before the pedals: in resume mode a new SET press with the brake
      released and no ACC fault lifts the latch. */
  predicate LatchedBefore(cfg: Config, s: State, i: Inputs) {
    && s.longitudinalLatchedOff
    && !(s.armRequested && cfg.resumeOnCommandReturn && SetPress(s, i.vehicle) &&
         !i.vehicle.brakePressed && !i.vehicle.accFault)
  }

  predicate LongitudinalSelected(cfg: Config, s: State, i: Inputs) {
    if !s.armRequested then s.longitudinal
    else if cfg.resumeOnCommandReturn then i.panda.longitudinalSelected && !LatchedBefore(cfg, s, i)
    else if SetPress(s, i.vehicle) then !SetSwitchesOff(cfg, s, i)
    else if LanePress(s, i.vehicle) then false
    else s.longitudinal
  }

  /** A press, or Panda in resume mode, has just switched everything off. */
  predicate SwitchedOff(cfg: Config, s: State, i: Inputs) {
    && s.armRequested
    && if cfg.resumeOnCommandReturn then
         (s.lateral || s.longitudinal) && !i.panda.lateralSelected && !i.panda.longitudinalSelected
       else if SetPress(s, i.vehicle) then SetSwitchesOff(cfg, s, i)
       else LanePress(s, i.vehicle) && LaneSwitchesOff(cfg, s)
  }

  /** Lateral control survives the pedals. */
  predicate Lateral(cfg: Config, s: State, i: Inputs) {
    LateralSelected(cfg, s, i) && !(i.vehicle.brakePressed && cfg.lateralDisengageOnBrake)
  }

  predicate BrakeTakes(cfg: Config, v: Vehicle) { v.brakePressed && cfg.longitudinalDisengageOnBrake }

  predicate FaultTakes(cfg: Config, v: Vehicle) { v.accFault && cfg.allowLongitudinal }

  /** Longitudinal control survives the pedals and an ACC fault. */
  predicate Longitudinal(cfg: Config, s: State, i: Inputs) {
    LongitudinalSelected(cfg, s, i) && !BrakeTakes(cfg, i.vehicle) && !FaultTakes(cfg, i.vehicle)
  }

  predicate Latched(cfg: Config, s: State, i: Inputs) {
    || LatchedBefore(cfg, s, i) || BrakeTakes(cfg, i.vehicle)
    || (FaultTakes(cfg, i.vehicle) && LongitudinalSelected(cfg, s, i))
  }

  /** Panda has rejected a frame since the last sample, while control was engaged. */
  predicate Rejected(s: State, p: Panda) { Working(s) && p.txBlocked > s.lastTxBlocked }

  /** That is nothing when everything has just been switched off and an actuator frame was in flight. */
  predicate Excused(cfg: Config, s: State, i: Inputs) {
    && SwitchedOff(cfg, s, i) && !Lateral(cfg, s, i) && !Longitudinal(cfg, s, i)
    && (i.panda.lastRejectedAddress == 0x12A || i.panda.lastRejectedAddress == 0x1A0 ||
        i.panda.lastRejectedAddress == 0x160)
  }

  /** It costs the longitudinal channel when that channel's frame was rejected, or the brake has just taken it,
      and lateral control goes on. */
  predicate CostsLongitudinal(cfg: Config, s: State, i: Inputs) {
    && (i.panda.lastRejectedAddress == 0x1A0 || i.panda.lastRejectedAddress == 0x160 ||
        (BrakeTakes(cfg, i.vehicle) && LongitudinalSelected(cfg, s, i)))
    && Lateral(cfg, s, i)
  }

  /** Anything else is a fault. */
  predicate Offends(cfg: Config, s: State, i: Inputs) {
    Rejected(s, i.panda) && !Excused(cfg, s, i) && !CostsLongitudinal(cfg, s, i)
  }

  /** The channels that go into the decision. */
  predicate LongitudinalLeft(cfg: Config, s: State, i: Inputs) {
    Longitudinal(cfg, s, i) && !(Healthy(i.panda) && Rejected(s, i.panda) && CostsLongitudinal(cfg, s, i))
  }

  predicate LatchedLeft(cfg: Config, s: State, i: Inputs) {
    Latched(cfg, s, i) || (Healthy(i.panda) && Rejected(s, i.panda) && CostsLongitudinal(cfg, s, i))
  }

  predicate GasOverrides(cfg: Config, v: Vehicle) { cfg.longitudinalOverrideOnGas && v.gasPressed }

  // ----- The table -----

  datatype Effect =
    | Disarm(to: ControlState)  // the arm request and both channels are gone
    | Become(to: ControlState)  // the request stands, nothing is permitted
    | Remain                    // a fault that was there before
    | AwaitCommand              // the stock functions get the car back, the selection is kept
    | StandReady                // vehicle mode, nothing permitted
    | PauseSteering             // the longitudinal channel may go on
    | Actuate

  const ROWS := 27

  /** The conditions in their order of precedence; the last row always applies. */
  predicate Row(cfg: Config, s: State, i: Inputs, k: nat) {
    var v, p, c := i.vehicle, i.panda, i.command;
    match k
    case 0 => !Fresh(cfg, i)
    case 1 => !cfg.allowActuation
    case 2 => !Healthy(p)
    case 3 => Offends(cfg, s, i)
    case 4 => !s.armRequested && s.control == Fault
    case 5 => !s.armRequested
    case 6 => p.harnessStatus != cfg.requiredHarnessStatus
    case 7 => cfg.resumeOnCommandReturn && !p.ignitionOn
    case 8 => Unfit(cfg, v)
    case 9 => cfg.disengageOnCancel && v.cancelEvents != s.lastCancel
    case 10 => !Configured(cfg, p) && Working(s)
    case 11 => !Configured(cfg, p) && !Standby(cfg, p) && cfg.resumeOnCommandReturn
    case 12 => !Configured(cfg, p) && !Standby(cfg, p)
    case 13 => !Commanded(cfg, i) && cfg.resumeOnCommandReturn && s.control != SoftDisabling && !v.epsFault
    case 14 => !Commanded(cfg, i) && Working(s)
    case 15 => !Commanded(cfg, i)
    case 16 => !c.valid
    case 17 => !c.enable
    case 18 => Standby(cfg, p)
    case 19 => cfg.resumeOnCommandReturn && !p.sessionReady && Working(s)
    case 20 => cfg.resumeOnCommandReturn && !p.sessionReady
    case 21 => !Lateral(cfg, s, i) && !(cfg.allowLongitudinal && LongitudinalLeft(cfg, s, i))
    case 22 => v.epsFault && !Working(s)
    case 23 => s.control == SoftDisabling && i.now >= s.deadline
    case 24 => (s.control == SoftDisabling || v.epsFault) && (v.epsFault || !p.controlsAllowed)
    case 25 => !p.controlsAllowed
    case 26 => !Lateral(cfg, s, i) && GasOverrides(cfg, v)
    case _ => true
  }

  function EffectOf(k: nat): (e: Effect)
    ensures e.Become? || e.Disarm? ==> e.to != SoftDisabling && e.to != Active
  {
    match k
    case 0 => Disarm(Disconnected)
    case 1 => Disarm(Passive)
    case 4 => Remain
    case 5 => Become(Passive)
    case 9 => Disarm(Passive)
    case 12 => Become(Armed)
    case 13 => AwaitCommand
    case 15 => Disarm(Passive)
    case 17 => StandReady
    case 18 => Become(Armed)
    case 20 => StandReady
    case 21 => StandReady
    case 22 => StandReady
    case 24 => PauseSteering
    case 25 => StandReady
    case 26 => StandReady
    case 27 => Actuate
    case _ => Disarm(Fault)
  }

  /** The first row from k on that applies. */
  function FirstRow(cfg: Config, s: State, i: Inputs, k: nat): (r: nat)
    requires k <= ROWS
    ensures k <= r <= ROWS
    decreases ROWS - k
  {
    if k == ROWS || Row(cfg, s, i, k) then k else FirstRow(cfg, s, i, k + 1)
  }

  function Verdict(cfg: Config, s: State, i: Inputs): Effect { EffectOf(FirstRow(cfg, s, i, 0)) }

  // ----- What a row does -----

  /** What the update has taken from its inputs before the verdict; nothing at all from a stale Panda. */
  function Seen(cfg: Config, s: State, i: Inputs): State {
    if !Fresh(cfg, i) || !cfg.allowActuation then s.(waiting := false)
    else s.(waiting := false, lateral := Lateral(cfg, s, i), longitudinal := LongitudinalLeft(cfg, s, i),
            longitudinalLatchedOff := LatchedLeft(cfg, s, i), lastLaneKeep := i.vehicle.laneKeepEvents,
            lastSet := i.vehicle.setEvents, lastCancel := i.vehicle.cancelEvents, lastTxBlocked := i.panda.txBlocked)
  }

  /** The pause has one deadline, three seconds after it began. */
  function Deadline(s: State, i: Inputs): int {
    if s.control == SoftDisabling then s.deadline else i.now + 3_000_000_000
  }

  function After(cfg: Config, s: State, i: Inputs, e: Effect): State {
    var t := Seen(cfg, s, i);
    match e
    case Disarm(to) => t.(control := to, deadline := 0, armRequested := false, lateral := false, longitudinal := false)
    case Become(to) => t.(control := to, deadline := 0)
    case Remain => t
    case AwaitCommand => t.(control := Passive, deadline := 0, waiting := true)
    case StandReady => t.(control := Armed, deadline := 0)
    case PauseSteering => t.(control := SoftDisabling, deadline := Deadline(s, i))
    case Actuate => t.(control := Active, deadline := 0)
  }

  function DecisionOf(cfg: Config, s: State, i: Inputs, e: Effect): Decision {
    var t := After(cfg, s, i, e);
    var longitudinal := LongitudinalLeft(cfg, s, i) && cfg.allowLongitudinal && !GasOverrides(cfg, i.vehicle);
    Decision(t.control,
             e == Actuate && Lateral(cfg, s, i),
             longitudinal && (e == Actuate || (e == PauseSteering && i.panda.controlsAllowed)),
             t.lateral,
             cfg.allowLongitudinal && t.longitudinal,
             e == StandReady || e == PauseSteering || e == Actuate,
             e == PauseSteering || e == Actuate,
             if e == PauseSteering && i.now < t.deadline then (t.deadline - i.now) / 1_000_000 else 0,
             e == AwaitCommand)
  }

  // ----- The update is the table -----

  lemma FirstRowIs(cfg: Config, s: State, i: Inputs, k: nat, r: nat)
    requires k <= r <= ROWS && (r == ROWS || Row(cfg, s, i, r))
    requires forall j :: k <= j < r ==> !Row(cfg, s, i, j)
    ensures FirstRow(cfg, s, i, k) == r
    decreases r - k
  {
    if k < r { FirstRowIs(cfg, s, i, k + 1, r); }
  }

  lemma HealthAgrees(p: Panda)
    ensures Healthy(p) <==> !PandaFaulted(p)
  {
    assert EffectiveFaults(p) == p.faults & !p.ignoredFaults;
    hide EffectiveFaults;
  }

  lemma SelectionAgrees(cfg: Config, s: State, i: Inputs)
    ensures var c := Selected(cfg, s.(waiting := false), i.vehicle, i.panda);
            && c.lateral == LateralSelected(cfg, s, i) && c.longitudinal == LongitudinalSelected(cfg, s, i)
            && c.latchedOff == LatchedBefore(cfg, s, i) && c.turnedOff == SwitchedOff(cfg, s, i)
  {
  }

  lemma PedalsAgree(cfg: Config, s: State, i: Inputs)
    ensures var c := Selected(cfg, s.(waiting := false), i.vehicle, i.panda);
            var (d, brakeTook) := ApplyPedals(cfg, i.vehicle, c);
            && d.lateral == Lateral(cfg, s, i) && d.longitudinal == Longitudinal(cfg, s, i)
            && d.latchedOff == Latched(cfg, s, i)
            && brakeTook == (BrakeTakes(cfg, i.vehicle) && LongitudinalSelected(cfg, s, i))
  {
    hide Selected, LateralSelected, LongitudinalSelected, LatchedBefore, SwitchedOff;
    SelectionAgrees(cfg, s, i);
  }

  /** Observation is what has been seen, unless Panda is unhealthy or an offence disarms. */
  lemma ObservationAgrees(cfg: Config, s: State, i: Inputs)
    requires Fresh(cfg, i) && cfg.allowActuation
    ensures var o := Observe(cfg, s.(waiting := false), i.vehicle, i.panda);
            o == if !Healthy(i.panda) || Offends(cfg, s, i) then After(cfg, s, i, Disarm(Fault)) else Seen(cfg, s, i)
  {
    hide Selected, ApplyPedals, PandaFaulted, Healthy, Lateral, Longitudinal, Latched, SwitchedOff,
         LongitudinalSelected, BrakeTakes;
    HealthAgrees(i.panda);
    SelectionAgrees(cfg, s, i);
    PedalsAgree(cfg, s, i);
  }

  /** The index of the first row, as one expression. */
  function Index(cfg: Config, s: State, i: Inputs): nat {
    if Row(cfg, s, i, 0) then 0 else if Row(cfg, s, i, 1) then 1 else if Row(cfg, s, i, 2) then 2
    else if Row(cfg, s, i, 3) then 3 else if Row(cfg, s, i, 4) then 4 else if Row(cfg, s, i, 5) then 5
    else if Row(cfg, s, i, 6) then 6 else if Row(cfg, s, i, 7) then 7 else if Row(cfg, s, i, 8) then 8
    else if Row(cfg, s, i, 9) then 9 else if Row(cfg, s, i, 10) then 10 else if Row(cfg, s, i, 11) then 11
    else if Row(cfg, s, i, 12) then 12 else CommandIndex(cfg, s, i)
  }

  function CommandIndex(cfg: Config, s: State, i: Inputs): (k: nat)
    ensures 13 <= k <= ROWS
  {
    if Row(cfg, s, i, 13) then 13 else if Row(cfg, s, i, 14) then 14 else if Row(cfg, s, i, 15) then 15
    else if Row(cfg, s, i, 16) then 16 else if Row(cfg, s, i, 17) then 17 else if Row(cfg, s, i, 18) then 18
    else if Row(cfg, s, i, 19) then 19 else if Row(cfg, s, i, 20) then 20 else if Row(cfg, s, i, 21) then 21
    else if Row(cfg, s, i, 22) then 22 else if Row(cfg, s, i, 23) then 23 else if Row(cfg, s, i, 24) then 24
    else if Row(cfg, s, i, 25) then 25 else if Row(cfg, s, i, 26) then 26 else 27
  }

  lemma IndexIsFirst(cfg: Config, s: State, i: Inputs)
    ensures FirstRow(cfg, s, i, 0) == Index(cfg, s, i)
  {
    hide Row, FirstRow;
    FirstRowIs(cfg, s, i, 0, Index(cfg, s, i));
  }

  /** The verdict of the source's order, on what has been seen, has the effect of the row. */
  predicate SameEffect(cfg: Config, s: State, i: Inputs, verdict: Supervisor.Verdict, e: Effect) {
    match verdict
    case Stay => e == Remain && s.control == Fault
    case To(next) => e == Become(next)
    case Off(next) => e == Disarm(next)
    case Wait => e == AwaitCommand
    case Hold => e == StandReady
    case Pause(deadline, longitudinal) =>
      && e == PauseSteering && deadline == Deadline(s, i)
      && longitudinal == (cfg.allowLongitudinal && LongitudinalLeft(cfg, s, i) && !GasOverrides(cfg, i.vehicle) &&
                          i.panda.controlsAllowed)
    case Run(longitudinal) =>
      && e == Actuate
      && longitudinal == (cfg.allowLongitudinal && LongitudinalLeft(cfg, s, i) && !GasOverrides(cfg, i.vehicle))
  }

  lemma EngageAgrees(cfg: Config, s: State, i: Inputs, o: State)
    requires o == Seen(cfg, s, i) && Fresh(cfg, i) && cfg.allowActuation
    requires Lateral(cfg, s, i) || (cfg.allowLongitudinal && LongitudinalLeft(cfg, s, i))
    ensures var k := if Row(cfg, s, i, 22) then 22 else if Row(cfg, s, i, 23) then 23 else if Row(cfg, s, i, 24) then 24
                     else if Row(cfg, s, i, 25) then 25 else if Row(cfg, s, i, 26) then 26 else 27;
            SameEffect(cfg, s, i, Engage(cfg, o, i.now, i.vehicle, i.panda), EffectOf(k))
  {
    hide Fresh, Lateral, LongitudinalLeft, LatchedLeft;
  }

  /** The command asks for actuation and Panda is past standby. */
  predicate Asked(cfg: Config, i: Inputs) {
    Commanded(cfg, i) && i.command.valid && i.command.enable && !Standby(cfg, i.panda)
  }

  lemma UnaskedRows(cfg: Config, s: State, i: Inputs, o: State)
    requires o.control == s.control && !Asked(cfg, i)
    ensures CommandIndex(cfg, s, i) <= 18
    ensures SameEffect(cfg, s, i, AdmitCommand(cfg, o, i), EffectOf(CommandIndex(cfg, s, i)))
  {
    hide Lateral, LongitudinalLeft, Engage, Commanded, CommandFresh, Standby, StandbyMode, GasOverrides, Deadline;
    CommandedAgrees(cfg, i);
  }

  lemma AskedRows(cfg: Config, s: State, i: Inputs, o: State)
    requires o.control == s.control && o.lateral == Lateral(cfg, s, i) && o.longitudinal == LongitudinalLeft(cfg, s, i)
    requires Asked(cfg, i)
    ensures CommandIndex(cfg, s, i) > 18
    ensures CommandIndex(cfg, s, i) <= 21 ==>
              SameEffect(cfg, s, i, AdmitCommand(cfg, o, i), EffectOf(CommandIndex(cfg, s, i)))
    ensures CommandIndex(cfg, s, i) > 21 ==> AdmitCommand(cfg, o, i) == Engage(cfg, o, i.now, i.vehicle, i.panda)
  {
    hide Lateral, LongitudinalLeft, Engage, Commanded, CommandFresh, Standby, StandbyMode, GasOverrides, Deadline;
    CommandedAgrees(cfg, i);
  }

  lemma CommandAgrees(cfg: Config, s: State, i: Inputs, o: State)
    requires o == Seen(cfg, s, i) && Fresh(cfg, i) && cfg.allowActuation
    ensures SameEffect(cfg, s, i, AdmitCommand(cfg, o, i), EffectOf(CommandIndex(cfg, s, i)))
  {
    hide Fresh, Lateral, LongitudinalLeft, LatchedLeft, Engage, SameEffect, Asked, Seen, AdmitCommand;
    SeenKeeps(cfg, s, i);
    if !Asked(cfg, i) {
      UnaskedRows(cfg, s, i, o);
    } else {
      AskedRows(cfg, s, i, o);
      if CommandIndex(cfg, s, i) > 21 { EngageAgrees(cfg, s, i, o); }
    }
  }

  lemma SeenKeeps(cfg: Config, s: State, i: Inputs)
    requires Fresh(cfg, i) && cfg.allowActuation
    ensures var o := Seen(cfg, s, i);
            && o.control == s.control && o.deadline == s.deadline && o.armRequested == s.armRequested
            && o.lateral == Lateral(cfg, s, i) && o.longitudinal == LongitudinalLeft(cfg, s, i)
  {
    hide Fresh, Lateral, LongitudinalLeft, LatchedLeft;
  }

  lemma CommandedAgrees(cfg: Config, i: Inputs)
    ensures Commanded(cfg, i) <==> CommandFresh(cfg, i.now, i.command)
    ensures Standby(cfg, i.panda) <==> StandbyMode(cfg, i.panda)
    ensures Configured(cfg, i.panda) <==> ConfiguredMode(cfg, i.panda)
  {
  }

  lemma AdmissionAgrees(cfg: Config, s: State, i: Inputs, o: State)
    requires Consistent(s) && o == Seen(cfg, s, i) && Fresh(cfg, i) && cfg.allowActuation
    requires Healthy(i.panda) && !Offends(cfg, s, i)
    ensures SameEffect(cfg, s, i, Admit(cfg, o, i.vehicle.cancelEvents != s.lastCancel, i), EffectOf(Index(cfg, s, i)))
  {
    hide Fresh, Healthy, Offends, Lateral, LongitudinalLeft, LatchedLeft, AdmitCommand, CommandIndex, Configured,
         ConfiguredMode, Standby, StandbyMode, Unfit, TooFast, TooSteep;
    CommandedAgrees(cfg, i);
    CommandAgrees(cfg, s, i, o);
    SteepAgrees(cfg, i.vehicle);
  }

  lemma SteepAgrees(cfg: Config, v: Vehicle)
    ensures Unfit(cfg, v) <==> !v.valid || TooFast(cfg, v) || TooSteep(cfg, v)
  {
  }

  lemma PerformAgrees(cfg: Config, s: State, i: Inputs, o: State, verdict: Supervisor.Verdict, e: Effect)
    requires o == Seen(cfg, s, i) && Fresh(cfg, i) && cfg.allowActuation && SameEffect(cfg, s, i, verdict, e)
    requires e.Become? || e.Disarm? ==> e.to != SoftDisabling
    ensures Perform(o, verdict) == After(cfg, s, i, e)
    ensures Report(cfg, Perform(o, verdict), verdict, i.now) == DecisionOf(cfg, s, i, e)
  {
    hide Fresh, Lateral, LongitudinalLeft, LatchedLeft, GasOverrides;
  }

  /** The update of any consistent state is the first row that applies: state and decision. */
  lemma UpdateIsTable(cfg: Config, s: State, i: Inputs)
    requires Consistent(s)
    ensures var e := Verdict(cfg, s, i);
            Update(cfg, s, i) == Outcome(After(cfg, s, i, e), DecisionOf(cfg, s, i, e))
  {
    hide Observe, Admit, Index, FirstRow, Fresh, Healthy, Offends, Seen, SameEffect, Lateral,
         LongitudinalLeft, LatchedLeft;
    IndexIsFirst(cfg, s, i);
    FreshAgrees(cfg, i);
    if !Fresh(cfg, i) || !cfg.allowActuation {
      StaleAgrees(cfg, s, i);
    } else {
      ObservationAgrees(cfg, s, i);
      if !Healthy(i.panda) || Offends(cfg, s, i) {
        FaultIndex(cfg, s, i);
        FaultAgrees(cfg, s, i, i.vehicle.cancelEvents != s.lastCancel);
      } else {
        var o := Seen(cfg, s, i);
        AdmissionAgrees(cfg, s, i, o);
        PerformAgrees(cfg, s, i, o, Admit(cfg, o, i.vehicle.cancelEvents != s.lastCancel, i), Verdict(cfg, s, i));
      }
    }
  }

  lemma FreshAgrees(cfg: Config, i: Inputs)
    ensures Fresh(cfg, i) <==> PandaFresh(cfg, i.now, i.panda)
  {
  }

  lemma StaleAgrees(cfg: Config, s: State, i: Inputs)
    requires !Fresh(cfg, i) || !cfg.allowActuation
    ensures var e := EffectOf(Index(cfg, s, i));
            Update(cfg, s, i) == Outcome(After(cfg, s, i, e), DecisionOf(cfg, s, i, e))
  {
    hide Observe, Admit, Fresh, Lateral, LongitudinalLeft, LatchedLeft;
    FreshAgrees(cfg, i);
  }

  lemma FaultIndex(cfg: Config, s: State, i: Inputs)
    requires Fresh(cfg, i) && cfg.allowActuation && (!Healthy(i.panda) || Offends(cfg, s, i))
    ensures EffectOf(Index(cfg, s, i)) == Disarm(Fault)
  {
    hide Fresh, Healthy, Offends;
  }

  lemma FaultAgrees(cfg: Config, s: State, i: Inputs, cancel: bool)
    ensures var e := Disarm(Fault);
            var o := After(cfg, s, i, e);
            var verdict := Admit(cfg, o, cancel, i);
            Outcome(Perform(o, verdict), Report(cfg, Perform(o, verdict), verdict, i.now)) ==
              Outcome(After(cfg, s, i, e), DecisionOf(cfg, s, i, e))
  {
    hide Seen, Lateral, LongitudinalLeft, LatchedLeft;
    SeenWaitsNot(cfg, s, i);
  }

  lemma SeenWaitsNot(cfg: Config, s: State, i: Inputs)
    ensures !Seen(cfg, s, i).waiting
  {
  }

  // ----- When the arm request survives -----

  /** Panda is in the vehicle profile, or in standby while nothing is engaged: the command is looked at. */
  predicate Looked(cfg: Config, s: State, p: Panda) {
    Configured(cfg, p) || (Standby(cfg, p) && !Working(s))
  }

  /** The command does not ask for actuation right now, and that is all. */
  predicate Waits(cfg: Config, s: State, i: Inputs) {
    cfg.resumeOnCommandReturn && s.control != SoftDisabling && !i.vehicle.epsFault
  }

  predicate Called(cfg: Config, s: State, i: Inputs) { Looked(cfg, s, i.panda) && Asked(cfg, i) }

  /** The causes that take an arm request away, in no order. */
  predicate Disarms(cfg: Config, s: State, i: Inputs) {
    var v, p, c := i.vehicle, i.panda, i.command;
    || !Fresh(cfg, i) || !cfg.allowActuation || !Healthy(p) || Offends(cfg, s, i)
    || p.harnessStatus != cfg.requiredHarnessStatus
    || (cfg.resumeOnCommandReturn && !p.ignitionOn)
    || Unfit(cfg, v)
    || (cfg.disengageOnCancel && v.cancelEvents != s.lastCancel)
    || (!Configured(cfg, p) && (Working(s) || (!Standby(cfg, p) && cfg.resumeOnCommandReturn)))
    || (Looked(cfg, s, p) && !Commanded(cfg, i) && !Waits(cfg, s, i))
    || (Looked(cfg, s, p) && Commanded(cfg, i) && !c.valid)
    || (Called(cfg, s, i) && cfg.resumeOnCommandReturn && !p.sessionReady && Working(s))
    || (Called(cfg, s, i) && (cfg.resumeOnCommandReturn ==> p.sessionReady) && s.control == SoftDisabling &&
        i.now >= s.deadline && (Lateral(cfg, s, i) || (cfg.allowLongitudinal && LongitudinalLeft(cfg, s, i))))
  }

  /** The arm request survives an update if and only if none of the causes holds. */
  lemma ArmSurvivesExactly(cfg: Config, s: State, i: Inputs)
    requires Consistent(s)
    ensures Update(cfg, s, i).state.armRequested <==> s.armRequested && !Disarms(cfg, s, i)
  {
    hide Update, FirstRow, Seen, CommandIndex, Fresh, Healthy, Offends, Unfit, Lateral, LongitudinalLeft, LatchedLeft,
         Looked, Waits, Called, Row;
    UpdateIsTable(cfg, s, i);
    IndexIsFirst(cfg, s, i);
    SeenArms(cfg, s, i);
    DisarmingRows(cfg, s, i);
  }

  lemma SeenArms(cfg: Config, s: State, i: Inputs)
    ensures Seen(cfg, s, i).armRequested == s.armRequested
  {
    hide Fresh, Lateral, LongitudinalLeft, LatchedLeft;
  }

  lemma DisarmingRows(cfg: Config, s: State, i: Inputs)
    requires Consistent(s)
    ensures s.armRequested ==> (EffectOf(Index(cfg, s, i)).Disarm? <==> Disarms(cfg, s, i))
  {
    hide Row, CommandIndex, Fresh, Healthy, Offends, Unfit, Lateral, LongitudinalLeft, Commanded, Standby, Configured,
         Waits, Called, Looked;
    if s.armRequested {
      if Index(cfg, s, i) <= 12 { EarlyRows(cfg, s, i); } else { LateRows(cfg, s, i); }
    }
  }

  lemma EarlyRows(cfg: Config, s: State, i: Inputs)
    requires Consistent(s) && s.armRequested && Index(cfg, s, i) <= 12
    ensures EffectOf(Index(cfg, s, i)).Disarm? <==> Disarms(cfg, s, i)
  {
    hide CommandIndex, Fresh, Healthy, Offends, Unfit, Lateral, LongitudinalLeft, Commanded, Standby, Configured, Waits;
  }

  lemma LateRows(cfg: Config, s: State, i: Inputs)
    requires Consistent(s) && s.armRequested && Index(cfg, s, i) > 12
    ensures EffectOf(Index(cfg, s, i)).Disarm? <==> Disarms(cfg, s, i)
  {
    hide CommandIndex, Fresh, Healthy, Offends, Unfit, Lateral, LongitudinalLeft, Commanded, Standby, Configured, Waits,
         Called;
    DisarmingCommands(cfg, s, i);
  }

  lemma DisarmingCommands(cfg: Config, s: State, i: Inputs)
    requires Looked(cfg, s, i.panda)
    ensures EffectOf(CommandIndex(cfg, s, i)).Disarm? <==>
              || (!Commanded(cfg, i) && !Waits(cfg, s, i))
              || (Commanded(cfg, i) && !i.command.valid)
              || (Called(cfg, s, i) && cfg.resumeOnCommandReturn && !i.panda.sessionReady && Working(s))
              || (Called(cfg, s, i) && (cfg.resumeOnCommandReturn ==> i.panda.sessionReady) &&
                  s.control == SoftDisabling && i.now >= s.deadline &&
                  (Lateral(cfg, s, i) || (cfg.allowLongitudinal && LongitudinalLeft(cfg, s, i))))
  {
    hide CommandIndex, EffectOf, Lateral, LongitudinalLeft, Commanded, Standby, Configured, Looked, GasOverrides,
         Working;
    if !Asked(cfg, i) {
      DisarmingUnasked(cfg, s, i);
    } else {
      DisarmingAsked(cfg, s, i);
    }
  }

  lemma DisarmingUnasked(cfg: Config, s: State, i: Inputs)
    requires !Asked(cfg, i)
    ensures EffectOf(CommandIndex(cfg, s, i)).Disarm? <==>
              (!Commanded(cfg, i) && !Waits(cfg, s, i)) || (Commanded(cfg, i) && !i.command.valid)
  {
    hide Lateral, LongitudinalLeft, Commanded, Standby, Configured, GasOverrides;
  }

  lemma DisarmingAsked(cfg: Config, s: State, i: Inputs)
    requires Asked(cfg, i)
    ensures EffectOf(CommandIndex(cfg, s, i)).Disarm? <==>
              || (cfg.resumeOnCommandReturn && !i.panda.sessionReady && Working(s))
              || ((cfg.resumeOnCommandReturn ==> i.panda.sessionReady) && s.control == SoftDisabling &&
                  i.now >= s.deadline && (Lateral(cfg, s, i) || (cfg.allowLongitudinal && LongitudinalLeft(cfg, s, i))))
  {
    hide Lateral, LongitudinalLeft, Commanded, Standby, Configured, GasOverrides;
  }

  /** A cancel press disarms whatever else the sample says, where it is configured to. */
  lemma CancelDisarms(cfg: Config, s: State, i: Inputs)
    requires Consistent(s) && cfg.disengageOnCancel && i.vehicle.cancelEvents != s.lastCancel
    ensures !Update(cfg, s, i).state.armRequested
  {
    hide Update, Fresh, Healthy, Offends, Unfit, Looked, Called;
    ArmSurvivesExactly(cfg, s, i);
  }

  // ----- The arm request itself -----

  /** An arming request against the configuration only leaves a passive supervisor; an accepted one acknowledges a
      fault and starts a session with no channel selected and no latch, unless one is going on; a disarming one
      ends it, and leaves a supervisor passive that is not disconnected. */
  lemma RequestExactly(cfg: Config, s: State, arm: bool)
    ensures var t := RequestArm(cfg, s, arm);
            var begins := arm && cfg.allowActuation && !s.armRequested;
            && t.armRequested == (if arm then s.armRequested || cfg.allowActuation else false)
            && t.lateral == (s.lateral && arm && !begins) && t.longitudinal == (s.longitudinal && arm && !begins)
            && t.longitudinalLatchedOff == (s.longitudinalLatchedOff && !begins)
            && t.control == (if arm && cfg.allowActuation then (if s.control == Fault then Passive else s.control)
                             else if !arm && s.control == Disconnected then Disconnected else Passive)
            && t.deadline == (if t.control == s.control && (s.control == Disconnected || (arm && cfg.allowActuation))
                              then s.deadline else 0)
            && t.lastLaneKeep == s.lastLaneKeep && t.lastSet == s.lastSet && t.lastCancel == s.lastCancel
            && t.lastTxBlocked == s.lastTxBlocked && t.waiting == s.waiting
    ensures ArmAccepted(cfg, arm) <==> !arm || cfg.allowActuation
  {
  }
}
