/** The decision logic of src/safety_supervisor.cpp, as functions of the state that the source's
    class updates. SupervisorObject.dfy holds the class itself, SupervisorRuns.dfy what whole runs
    guarantee. Times are nanoseconds of the steady clock; zero is the "never" time point. */
module Supervisor {
  import opened Arithmetic

  datatype ControlState = Disconnected | Passive | Armed | Active | Fault | SoftDisabling

  const SOFT_DISABLE_TIME: int := 3_000_000_000
  const STANDBY_MODE := 19
  const LFA_ADDRESS := 0x12A
  const SCC_ADDRESS := 0x1A0
  const FCA_ADDRESS := 0x160

  datatype Config = Config(
    allowActuation: bool,
    allowLongitudinal: bool,
    resumeOnCommandReturn: bool,
    lateralButtonToggle: bool,
    longitudinalButtonToggle: bool,
    lateralDisengageOnBrake: bool,
    longitudinalDisengageOnBrake: bool,
    disengageOnCancel: bool,
    longitudinalOverrideOnGas: bool,
    maxActiveSpeed: real,
    maxAbsSteeringAngle: real,
    requiredSafetyMode: nat,
    requiredSafetyParam: nat,
    requiredHarnessStatus: nat,
    commandTimeout: int,
    pandaTimeout: int)

  datatype Vehicle = Vehicle(
    speed: real,
    steeringAngle: real,
    brakePressed: bool,
    gasPressed: bool,
    epsFault: bool,
    accFault: bool,
    standstill: bool,
    gear: nat,
    laneKeepEvents: nat,
    setEvents: nat,
    cancelEvents: nat,
    valid: bool)

  datatype Panda = Panda(
    connected: bool,
    sessionActive: bool,
    sessionReady: bool,
    sessionBlocked: bool,
    ignitionOn: bool,
    lateralSelected: bool,
    longitudinalSelected: bool,
    controlsAllowed: bool,
    heartbeatLost: bool,
    rxChecksInvalid: bool,
    busOff: bool,
    faults: bv32,
    ignoredFaults: bv32,
    faultStatus: nat,
    harnessStatus: nat,
    safetyMode: nat,
    safetyParam: nat,
    txBlocked: nat,
    lastRejectedAddress: nat,
    updatedAt: int)

  datatype Command = Command(enable: bool, valid: bool, receivedAt: int)

  datatype Inputs = Inputs(now: int, vehicle: Vehicle, panda: Panda, command: Command)

  datatype State = State(
    control: ControlState,
    armRequested: bool,
    lateral: bool,
    longitudinal: bool,
    longitudinalLatchedOff: bool,
    lastLaneKeep: nat,
    lastSet: nat,
    lastCancel: nat,
    lastTxBlocked: nat,
    deadline: int,
    waiting: bool)

  const INITIAL := State(Disconnected, false, false, false, false, 0, 0, 0, 0, 0, false)

  datatype Decision = Decision(
    control: ControlState,
    lateralAllowed: bool,
    longitudinalAllowed: bool,
    lateralArmed: bool,
    longitudinalArmed: bool,
    useVehicleMode: bool,
    heartbeatEngaged: bool,
    remaining: int,
    waiting: bool)

  datatype Outcome = Outcome(state: State, decision: Decision)

  predicate Engaged(control: ControlState) {
    control == Active || control == SoftDisabling
  }

  // ----- State changes shared by every path -----

  function Transition(s: State, next: ControlState): State {
    s.(control := next, deadline := if next == SoftDisabling then s.deadline else 0)
  }

  function ChannelsOff(s: State): State {
    s.(armRequested := false, lateral := false, longitudinal := false)
  }

  function DisarmTo(s: State, next: ControlState): State {
    Transition(ChannelsOff(s), next)
  }

  function RequestArm(cfg: Config, s: State, arm: bool): State {
    if arm && !cfg.allowActuation then Transition(s, Passive)
    else if arm then
      var woken := if s.control == Fault then Transition(s, Passive) else s;
      if s.armRequested then woken
      else woken.(armRequested := true, lateral := false, longitudinal := false, longitudinalLatchedOff := false)
    else
      var off := ChannelsOff(s);
      if s.control == Disconnected then off else Transition(off, Passive)
  }

  /** What `request_arm` returns. */
  predicate ArmAccepted(cfg: Config, arm: bool) {
    arm ==> cfg.allowActuation
  }

  // ----- What one update reads from its inputs -----

  predicate PandaFresh(cfg: Config, now: int, p: Panda) {
    p.connected && p.updatedAt != 0 && now >= p.updatedAt && now - p.updatedAt <= cfg.pandaTimeout
  }

  predicate CommandFresh(cfg: Config, now: int, c: Command) {
    c.receivedAt != 0 && now >= c.receivedAt && now - c.receivedAt <= cfg.commandTimeout
  }

  /** The update gets past the connection and configuration checks and looks at the vehicle. */
  predicate Processes(cfg: Config, i: Inputs) {
    PandaFresh(cfg, i.now, i.panda) && cfg.allowActuation
  }

  function EffectiveFaults(p: Panda): bv32 { p.faults & !p.ignoredFaults }

  predicate PandaFaulted(p: Panda) {
    var effective := EffectiveFaults(p);
    var onlyIgnored := p.faults != 0 && effective == 0 && p.ignoredFaults != 0;
    p.sessionBlocked || p.heartbeatLost || p.rxChecksInvalid || p.busOff || effective != 0 ||
    (p.faultStatus != 0 && !onlyIgnored)
  }

  predicate ConfiguredMode(cfg: Config, p: Panda) {
    p.safetyMode == cfg.requiredSafetyMode && p.safetyParam == cfg.requiredSafetyParam
  }

  predicate StandbyMode(cfg: Config, p: Panda) {
    cfg.resumeOnCommandReturn && p.sessionActive && p.safetyMode == STANDBY_MODE &&
    p.safetyParam == cfg.requiredSafetyParam
  }

  predicate TooFast(cfg: Config, v: Vehicle) {
    cfg.maxActiveSpeed > 0.0 && v.speed > cfg.maxActiveSpeed
  }

  predicate TooSteep(cfg: Config, v: Vehicle) {
    cfg.maxAbsSteeringAngle > 0.0 && AbsReal(v.steeringAngle) >= cfg.maxAbsSteeringAngle
  }

  // ----- First half of an update: buttons, pedals, Panda health -----

  datatype Channels = Channels(lateral: bool, longitudinal: bool, latchedOff: bool, turnedOff: bool)

  /** LDA selects lateral only, or switches lateral-only off. */
  function PressLaneKeep(cfg: Config, c: Channels): Channels {
    var off := cfg.lateralButtonToggle && c.lateral && !c.longitudinal;
    Channels(!off, false, c.latchedOff, off)
  }

  /** SET selects both channels, or switches both off. */
  function PressSet(cfg: Config, c: Channels): Channels {
    var off := cfg.longitudinalButtonToggle && c.lateral && c.longitudinal;
    Channels(!off, !off, c.latchedOff, off)
  }

  /** Panda's selection, except that a latched-off longitudinal channel stays off until released. */
  function MirrorSelection(c: Channels, release: bool, lateral: bool, longitudinal: bool): Channels {
    var latch := c.latchedOff && !release;
    Channels(lateral, longitudinal && !latch, latch, (c.lateral || c.longitudinal) && !lateral && !longitudinal)
  }

  /** Without resume mode every press acts on the channels, the lane-keep press first. */
  function PressButtons(cfg: Config, c: Channels, laneEvent: bool, setEvent: bool): Channels {
    var lane := if laneEvent then PressLaneKeep(cfg, c) else c;
    if setEvent then PressSet(cfg, lane) else lane
  }

  /** Channel selection by the physical buttons, or mirrored from Panda in resume mode. */
  function SelectChannels(cfg: Config, armed: bool, c: Channels, laneEvent: bool, setEvent: bool,
                          v: Vehicle, p: Panda): Channels {
    if !armed then c
    else if cfg.resumeOnCommandReturn then
      MirrorSelection(c, setEvent && !v.brakePressed && !v.accFault, p.lateralSelected, p.longitudinalSelected)
    else PressButtons(cfg, c, laneEvent, setEvent)
  }

  /** The channels that one update starts from, after its buttons. */
  function Selected(cfg: Config, s: State, v: Vehicle, p: Panda): Channels {
    SelectChannels(cfg, s.armRequested, Channels(s.lateral, s.longitudinal, s.longitudinalLatchedOff, false),
                   v.laneKeepEvents != s.lastLaneKeep, v.setEvents != s.lastSet, v, p)
  }

  /** A pressed brake and an ACC fault take channels away; the flag says the brake took longitudinal. */
  function ApplyPedals(cfg: Config, v: Vehicle, c: Channels): (r: (Channels, bool)) {
    var braked := v.brakePressed && cfg.longitudinalDisengageOnBrake;
    var afterBrake := c.(lateral := c.lateral && !(v.brakePressed && cfg.lateralDisengageOnBrake),
                         longitudinal := c.longitudinal && !braked,
                         latchedOff := c.latchedOff || braked);
    var accOff := v.accFault && cfg.allowLongitudinal && afterBrake.longitudinal;
    (afterBrake.(longitudinal := afterBrake.longitudinal && !accOff, latchedOff := afterBrake.latchedOff || accOff),
     braked && c.longitudinal)
  }

  /** The state after buttons and pedals; the rejection counter is still the old one. */
  function WithChannels(s: State, v: Vehicle, c: Channels): State {
    s.(lateral := c.lateral, longitudinal := c.longitudinal, longitudinalLatchedOff := c.latchedOff,
       lastLaneKeep := v.laneKeepEvents, lastSet := v.setEvents, lastCancel := v.cancelEvents)
  }

  predicate LongitudinalAddress(address: nat) {
    address == SCC_ADDRESS || address == FCA_ADDRESS
  }

  /** A frame that Panda rejected while control was engaged: a button-off race is nothing, an SCC or
      FCA rejection costs the longitudinal channel, anything else is a fault. */
  function JudgeRejection(s: State, p: Panda, turnedOff: bool, brakeTookLongitudinal: bool): State {
    if turnedOff && !s.lateral && !s.longitudinal &&
       (p.lastRejectedAddress == LFA_ADDRESS || LongitudinalAddress(p.lastRejectedAddress)) then s
    else if (LongitudinalAddress(p.lastRejectedAddress) || brakeTookLongitudinal) && s.lateral then
      s.(longitudinal := false, longitudinalLatchedOff := true)
    else DisarmTo(s, Fault)
  }

  function JudgeHealth(s: State, p: Panda, turnedOff: bool, brakeTookLongitudinal: bool): State {
    var judged :=
      if PandaFaulted(p) then DisarmTo(s, Fault)
      else if Engaged(s.control) && p.txBlocked > s.lastTxBlocked then
        JudgeRejection(s, p, turnedOff, brakeTookLongitudinal)
      else s;
    judged.(lastTxBlocked := p.txBlocked)
  }

  function Observe(cfg: Config, s: State, v: Vehicle, p: Panda): State {
    var selected := Selected(cfg, s, v, p);
    var (channels, brakeTookLongitudinal) := ApplyPedals(cfg, v, selected);
    JudgeHealth(WithChannels(s, v, channels), p, selected.turnedOff, brakeTookLongitudinal)
  }

  // ----- Second half: the ordered list of reasons not to engage -----

  /** What the rest of the update decides to do with the observed state. */
  datatype Verdict =
    | Stay
    | To(next: ControlState)
    | Off(next: ControlState)
    | Wait
    | Hold
    | Pause(deadline: int, longitudinal: bool)
    | Run(longitudinal: bool)

  /** The arm, harness, ignition, vehicle and mode checks; `cancel` says a cancel press was consumed. */
  function Admit(cfg: Config, s: State, cancel: bool, i: Inputs): Verdict {
    var v, p := i.vehicle, i.panda;
    if !s.armRequested then (if s.control == Fault then Stay else To(Passive))
    else if p.harnessStatus != cfg.requiredHarnessStatus then Off(Fault)
    else if cfg.resumeOnCommandReturn && !p.ignitionOn then Off(Fault)
    else if s.control == Fault then Stay
    else if !v.valid || TooFast(cfg, v) || TooSteep(cfg, v) then Off(Fault)
    else if cfg.disengageOnCancel && cancel then Off(Passive)
    else if !ConfiguredMode(cfg, p) && (!StandbyMode(cfg, p) || Engaged(s.control)) then
      if Engaged(s.control) || cfg.resumeOnCommandReturn then Off(Fault) else To(Armed)
    else AdmitCommand(cfg, s, i)
  }

  function AdmitCommand(cfg: Config, s: State, i: Inputs): Verdict {
    var v, p, c := i.vehicle, i.panda, i.command;
    if !CommandFresh(cfg, i.now, c) then
      if cfg.resumeOnCommandReturn && s.control != SoftDisabling && !v.epsFault then Wait
      else if Engaged(s.control) then Off(Fault)
      else Off(Passive)
    else if !c.valid then Off(Fault)
    else if !c.enable then Hold
    else if StandbyMode(cfg, p) then To(Armed)
    else if cfg.resumeOnCommandReturn && !p.sessionReady then
      if Engaged(s.control) then Off(Fault) else Hold
    else if !s.lateral && !(cfg.allowLongitudinal && s.longitudinal) then Hold
    else Engage(cfg, s, i.now, v, p)
  }

  /** The EPS pause with its fixed deadline, then Panda's permission, then activation. */
  function Engage(cfg: Config, s: State, now: int, v: Vehicle, p: Panda): Verdict {
    var longitudinal := cfg.allowLongitudinal && s.longitudinal && !(cfg.longitudinalOverrideOnGas && v.gasPressed);
    if v.epsFault && !Engaged(s.control) then Hold
    else
      var paused := s.control == SoftDisabling || v.epsFault;
      var deadline := if s.control == SoftDisabling then s.deadline else now + SOFT_DISABLE_TIME;
      if paused && now >= deadline then Off(Fault)
      else if paused && (v.epsFault || !p.controlsAllowed) then Pause(deadline, longitudinal && p.controlsAllowed)
      else if !p.controlsAllowed then Hold
      else if !s.lateral && !longitudinal then Hold
      else Run(longitudinal)
  }

  function Perform(s: State, verdict: Verdict): State {
    match verdict
    case Stay => s
    case To(next) => Transition(s, next)
    case Off(next) => DisarmTo(s, next)
    case Wait => Transition(s.(waiting := true), Passive)
    case Hold => Transition(s, Armed)
    case Pause(deadline, _) => s.(control := SoftDisabling, deadline := deadline)
    case Run(_) => Transition(s, Active)
  }

  /** The decision published for a state that a verdict has just produced. */
  function Report(cfg: Config, s: State, verdict: Verdict, now: int): Decision {
    Decision(s.control,
             verdict.Run? && s.lateral,
             (verdict.Run? || verdict.Pause?) && verdict.longitudinal,
             s.lateral,
             cfg.allowLongitudinal && s.longitudinal,
             verdict.Hold? || verdict.Pause? || verdict.Run?,
             verdict.Pause? || verdict.Run?,
             if s.control == SoftDisabling && now < s.deadline then (s.deadline - now) / 1_000_000 else 0,
             s.waiting)
  }

  /** The state that the verdict is about, and the verdict. */
  function Assess(cfg: Config, s: State, i: Inputs): (State, Verdict) {
    var cleared := s.(waiting := false);
    if !PandaFresh(cfg, i.now, i.panda) then (cleared, Off(Disconnected))
    else if !cfg.allowActuation then (cleared, Off(Passive))
    else
      var o := Observe(cfg, cleared, i.vehicle, i.panda);
      (o, Admit(cfg, o, i.vehicle.cancelEvents != s.lastCancel, i))
  }

  /** One call of `update`: the new state and the decision. */
  function Update(cfg: Config, s: State, i: Inputs): Outcome {
    var (observed, verdict) := Assess(cfg, s, i);
    var next := Perform(observed, verdict);
    Outcome(next, Report(cfg, next, verdict, i.now))
  }

  // ----- What a permission means -----

  /** The admission conditions common to both channels, written from the requirements. */
  predicate ReadyToActuate(cfg: Config, s: State, i: Inputs) {
    var v, p, c := i.vehicle, i.panda, i.command;
    && cfg.allowActuation && s.armRequested
    && PandaFresh(cfg, i.now, p) && !PandaFaulted(p)
    && p.harnessStatus == cfg.requiredHarnessStatus && ConfiguredMode(cfg, p) && !StandbyMode(cfg, p)
    && (cfg.resumeOnCommandReturn ==> p.ignitionOn && p.sessionReady)
    && v.valid && !TooFast(cfg, v) && !TooSteep(cfg, v)
    && !(cfg.disengageOnCancel && v.cancelEvents != s.lastCancel)
    && CommandFresh(cfg, i.now, c) && c.valid && c.enable
    && p.controlsAllowed
    && (s.control == SoftDisabling ==> i.now < s.deadline)
  }

  /** The channels that survive buttons, pedals and the judgement of a rejected frame; none when that
      frame is a fault. */
  function SurvivingChannels(cfg: Config, s: State, v: Vehicle, p: Panda): (bool, bool) {
    var selected := Selected(cfg, s, v, p);
    var (channels, brakeTook) := ApplyPedals(cfg, v, selected);
    if !(Engaged(s.control) && p.txBlocked > s.lastTxBlocked) then (channels.lateral, channels.longitudinal)
    else if (LongitudinalAddress(p.lastRejectedAddress) || brakeTook) && channels.lateral then (true, false)
    else (false, false)
  }

  /** Reachable states: nothing stays selected while disarmed, and a fault is always disarmed. */
  predicate Consistent(s: State) {
    && (!s.armRequested ==> !s.lateral && !s.longitudinal)
    && (s.control == Fault ==> !s.armRequested)
  }

  lemma RequestArmKeepsConsistent(cfg: Config, s: State, arm: bool)
    requires Consistent(s)
    ensures Consistent(RequestArm(cfg, s, arm))
    ensures RequestArm(cfg, s, arm).armRequested ==> arm || s.armRequested
  {
  }

  lemma ObserveKeepsConsistent(cfg: Config, s: State, v: Vehicle, p: Panda)
    requires Consistent(s)
    ensures var o := Observe(cfg, s, v, p);
            && Consistent(o)
            && (o.armRequested ==> s.armRequested && o.control == s.control)
            && (o.control == s.control || o.control == Fault)
            && (o.control != Fault ==> o.deadline == s.deadline)
  {
  }

  /** A verdict that keeps the arm request was given with an arm request and without a fault. */
  lemma VerdictNeedsArm(cfg: Config, s: State, cancel: bool, i: Inputs)
    requires Consistent(s)
    ensures var verdict := Admit(cfg, s, cancel, i);
            && (verdict.Wait? || verdict.Hold? || verdict.Pause? || verdict.Run? ==>
                  s.armRequested && s.control != Fault)
            && (verdict.To? ==> verdict.next != Fault)
            && (verdict.Off? ==> verdict.next == Fault || verdict.next == Passive)
  {
  }

  lemma UpdateKeepsConsistent(cfg: Config, s: State, i: Inputs)
    requires Consistent(s)
    ensures Consistent(Update(cfg, s, i).state)
    ensures Update(cfg, s, i).state.armRequested ==> s.armRequested
  {
    if Processes(cfg, i) {
      var cleared := s.(waiting := false);
      ObserveKeepsConsistent(cfg, cleared, i.vehicle, i.panda);
      VerdictNeedsArm(cfg, Observe(cfg, cleared, i.vehicle, i.panda), i.vehicle.cancelEvents != s.lastCancel, i);
    }
  }
}
