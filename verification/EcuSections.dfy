/** The sections of src/node.cpp that run under `actuation_mutex_`, as functions of the node's flags and
    of everything the outside world answers.

    A call that throws in the source ends its section with Failed, keeping what was already done. The
    environment of a section says of each Panda or UDS call whether it succeeds, and how many stock
    frames each wait sees. */
module EcuSections {
  import opened EcuLedger
  import opened RecoveryRetryModel
  import S = Supervisor

  const ELM327 := 3
  const NO_OUTPUT := S.STANDBY_MODE
  const HYUNDAI_CANFD := 28
  const ELM327_ECAN_PARAM := 1
  const DRIVE_GEAR := 5
  /** 0.5 km/h in m/s. */
  const DISABLE_MAXIMUM_SPEED: real := 0.5 / 3.6
  const LFA := S.LFA_ADDRESS
  const SCC := S.SCC_ADDRESS
  const CLUSTER := 0x1E0

  datatype Config = Config(safety: S.Config, autoArmOnCommand: bool, allowRawTx: bool)

  /** Who owns the ECUs: the safety mode, the silenced ECUs, the owed recovery and the SCC template. */
  datatype Custody = Custody(
    vehicleMode: bool,
    cameraDisabled: bool,
    radarDisabled: bool,
    recoveryPending: bool,
    retry: Retry,
    hasTemplate: bool)

  /** What the operator, the buttons and earlier faults ask for. */
  datatype Intent = Intent(
    requestedArm: bool,
    appliedArm: bool,
    autoArmInhibited: bool,
    rearmRequired: bool,
    generation: nat,
    preserveSession: bool,
    gapQualified: bool,
    operatorDisarmed: bool,
    buttonTakeover: bool)

  /** The flags that the threads share; the last two are those of `latest_decision_`. */
  datatype Node = Node(connected: bool, own: Custody, want: Intent, permitsLateral: bool, permitsLongitudinal: bool)

  const STARTED := Node(false, Custody(false, false, false, false, IDLE, false),
                        Intent(false, false, false, false, 0, false, false, false, false), false, false)

  function RulesOf(cfg: Config): Rules {
    Rules(cfg.safety.allowActuation, cfg.safety.allowLongitudinal, cfg.safety.resumeOnCommandReturn,
          cfg.autoArmOnCommand, cfg.allowRawTx, cfg.safety.requiredSafetyParam)
  }

  /** How far a section has come. */
  datatype Progress = Progress(node: Node, log: Log)

  /** A section that may throw. */
  datatype Attempt = Done(p: Progress) | Failed(p: Progress) {
    predicate IsFailure() { Failed? }
    function PropagateFailure(): Attempt requires Failed? { this }
    function Extract(): Progress requires Done? { p }
  }

  /** A node that has just started. */
  function Beginning(cfg: Config): Progress { Progress(STARTED, [Started(RulesOf(cfg))]) }

  function WithOwn(p: Progress, own: Custody): Progress {
    p.(node := p.node.(own := own))
  }

  function WithWant(p: Progress, want: Intent): Progress {
    p.(node := p.node.(want := want))
  }

  function Note(p: Progress, a: Action): Progress {
    Progress(p.node, p.log + [a])
  }

  /** A call that leaves `a` in the log when it succeeds and throws otherwise. */
  function Try(p: Progress, ok: bool, a: Action): Attempt {
    if ok then Done(Note(p, a)) else Failed(p)
  }

  function Need(p: Progress, condition: bool): Attempt {
    if condition then Done(p) else Failed(p)
  }

  predicate Disabled(n: Node, ecu: Ecu) {
    if ecu == Camera then n.own.cameraDisabled else n.own.radarDisabled
  }

  function SetDisabled(n: Custody, ecu: Ecu, disabled: bool): Custody {
    if ecu == Camera then n.(cameraDisabled := disabled) else n.(radarDisabled := disabled)
  }

  // ----- Internal disarm and the arm service -----

  function RequestInternalDisarm(p: Progress, requireRearm: bool): Progress {
    var own, want := p.node.own, p.node.want;
    Note(p.(node := p.node.(own := own.(recoveryPending := true),
                            want := Dropped(want, own.vehicleMode, requireRearm))),
         InternalDisarm(requireRearm))
  }

  /** Only an armed session that is taken away against its will inhibits the node. */
  predicate Inhibits(want: Intent, vehicleMode: bool, requireRearm: bool) {
    requireRearm && (want.requestedArm || want.appliedArm || vehicleMode)
  }

  function Dropped(want: Intent, vehicleMode: bool, requireRearm: bool): Intent {
    var inhibit := Inhibits(want, vehicleMode, requireRearm);
    want.(preserveSession := false, gapQualified := false, buttonTakeover := false, requestedArm := false,
          autoArmInhibited := want.autoArmInhibited || inhibit,
          rearmRequired := want.rearmRequired || inhibit,
          generation := want.generation + 1)
  }

  function ArmService(cfg: Config, p: Progress, arm: bool): Progress {
    var want := p.node.want;
    if arm && (!cfg.safety.allowActuation || p.node.own.recoveryPending) then p
    else
      Note(WithWant(p, want.(autoArmInhibited := !arm, operatorDisarmed := !arm, buttonTakeover := false,
                             gapQualified := false, preserveSession := false,
                             rearmRequired := want.rearmRequired && !arm,
                             requestedArm := arm, generation := want.generation + 1)),
           ServiceCall(arm))
  }

  // ----- Taking the ECUs over -----

  /** How the silencing request ends. Its response is suppressed, so the send is all there is: it may go out
      and still throw, as a USB transfer that completes late does. */
  datatype Delivery = Returned | NotSent | SentThenThrew

  datatype DisableEnv = DisableEnv(session: bool, silence: Delivery, tester: bool, maintain: bool, observed: nat)

  /** A flagged ECU is skipped; otherwise open a session, stop its transmission, flag it, keep it in the
      session and watch its frame stay away. A silencing request that throws leaves the flag down, even when
      it went out. */
  function DisableEcu(p: Progress, ecu: Ecu, v: S.Vehicle, env: DisableEnv): Attempt {
    if Disabled(p.node, ecu) then Done(p)
    else
      var session :- Try(p, env.session, Uds(ecu, ExtendedSession));
      match env.silence
      case NotSent => Failed(session)
      case SentThenThrew => Failed(Note(session, Silence(ecu, v.standstill, v.speed, false)))
      case Returned =>
        var silenced := Note(session, Silence(ecu, v.standstill, v.speed, true));
        WatchSilence(WithOwn(silenced, SetDisabled(silenced.node.own, ecu, true)), ecu, env)
  }

  function WatchSilence(p: Progress, ecu: Ecu, env: DisableEnv): Attempt {
    var tested :- Try(p, env.tester, TesterPresent(ecu));
    var kept :- Need(tested, env.maintain);
    Try(kept, env.observed == 0, Quiet(ecu))
  }

  predicate Moving(v: S.Vehicle) {
    !v.standstill || v.speed > DISABLE_MAXIMUM_SPEED
  }

  datatype TakeoverEnv = TakeoverEnv(
    template: bool,           // a recent stock SCC frame exists
    heartbeat: bool, elm: bool,
    camera: DisableEnv, cameraHeartbeat: bool,
    radar: DisableEnv, radarHeartbeat: bool,
    templateAccepted: bool,
    mode: bool, ready: bool,  // Panda switches, its health is readable and, in resume mode, ready in time
    probe: bool, probeAccepted: bool,
    confirmed: bool,          // the mode and parameter read back
    maintain: bool)

  /** `enter_vehicle_safety_mode`. */
  function EnterVehicleMode(cfg: Config, p: Progress, v: S.Vehicle, gapResume: bool, env: TakeoverEnv): Attempt {
    if p.node.own.vehicleMode then Done(p)
    else
      var ready :- MayTakeOver(cfg, p, v, gapResume, env);
      var silenced :- SilenceEcus(cfg, ready, v, env);
      SwitchToVehicleMode(cfg, silenced, env)
  }

  /** The checks before anything is sent. */
  function MayTakeOver(cfg: Config, p: Progress, v: S.Vehicle, gapResume: bool, env: TakeoverEnv): Attempt {
    var settled :- Need(p, !p.node.own.recoveryPending);
    var healthy :- Need(settled, v.valid && !v.epsFault);
    var licensed :- Need(healthy, Moving(v) ==> gapResume && (p.node.want.gapQualified || p.node.want.buttonTakeover) &&
                                                cfg.safety.resumeOnCommandReturn);
    Need(licensed, cfg.safety.allowLongitudinal ==> v.gear == DRIVE_GEAR && env.template)
  }

  /** Diagnostic mode, then the camera, then the radar when longitudinal control needs it. */
  function SilenceEcus(cfg: Config, p: Progress, v: S.Vehicle, env: TakeoverEnv): Attempt {
    var beat :- Try(p, env.heartbeat, Heartbeat);
    var elm :- Try(beat, env.elm,
                   Mode(ELM327, if cfg.safety.resumeOnCommandReturn then cfg.safety.requiredSafetyParam
                                else ELM327_ECAN_PARAM));
    SilenceBoth(cfg, elm, v, env)
  }

  function SilenceBoth(cfg: Config, p: Progress, v: S.Vehicle, env: TakeoverEnv): Attempt {
    var camera :- DisableAndBeat(p, Camera, v, env.camera, env.cameraHeartbeat);
    if cfg.safety.allowLongitudinal then DisableAndBeat(camera, Radar, v, env.radar, env.radarHeartbeat)
    else Done(camera)
  }

  function DisableAndBeat(p: Progress, ecu: Ecu, v: S.Vehicle, env: DisableEnv, beat: bool): Attempt {
    var disabled :- DisableEcu(p, ecu, v, env);
    Try(disabled, beat, Heartbeat)
  }

  /** Template, Panda mode, the probe frame of longitudinal mode, confirmation; then the mode flag. */
  function SwitchToVehicleMode(cfg: Config, p: Progress, env: TakeoverEnv): Attempt {
    if !cfg.safety.allowLongitudinal then SwitchMode(cfg, p, env)
    else if !env.templateAccepted then Failed(p)
    else SwitchMode(cfg, WithOwn(p, p.node.own.(hasTemplate := true)), env)
  }

  function SwitchMode(cfg: Config, p: Progress, env: TakeoverEnv): Attempt {
    var switched :- Try(p, env.mode, Mode(HYUNDAI_CANFD, cfg.safety.requiredSafetyParam));
    var ready :- Need(switched, env.ready);
    ProbeAndConfirm(ready, cfg.safety.allowLongitudinal, env)
  }

  /** The probe is on the wire before its call may throw. */
  function ProbeAndConfirm(p: Progress, longitudinal: bool, env: TakeoverEnv): Attempt {
    var probed :- if longitudinal then Need(Note(p, Sent(SCC, Probe)), env.probe) else Done(p);
    var confirmed :- Need(probed, (longitudinal ==> env.probeAccepted) && env.confirmed && env.maintain);
    Done(CompleteTakeover(confirmed, longitudinal))
  }

  function CompleteTakeover(p: Progress, longitudinal: bool): Progress {
    Note(p.(node := p.node.(own := p.node.own.(vehicleMode := true), want := p.node.want.(buttonTakeover := false))),
         TakenOver(longitudinal))
  }

  // ----- Giving the ECUs back -----

  datatype RestoreEnv = RestoreEnv(seenBefore: nat, session: bool, enable: bool, default: bool)

  /** New stock frames have been seen: the flag goes. */
  function SettleDebt(p: Progress, ecu: Ecu, frames: nat): Progress {
    Note(WithOwn(p, SetDisabled(p.node.own, ecu, false)), Resumed(ecu, frames))
  }

  /** After an earlier failed attempt, stock frames that are already back settle the debt; otherwise the
      three diagnostic requests that re-enable communication. */
  function RestoreEcu(p: Progress, ecu: Ecu, env: RestoreEnv): Attempt {
    if !Disabled(p.node, ecu) then Done(p)
    else if p.node.own.retry.failures != 0 && env.seenBefore != 0 then
      Done(SettleDebt(p, ecu, env.seenBefore))
    else
      var session :- Try(p, env.session, Uds(ecu, ExtendedSession));
      var enabled :- Try(session, env.enable, Uds(ecu, EnableCommunication));
      Try(enabled, env.default, Uds(ecu, DefaultSession))
  }

  /** Only new stock frames clear the flag. */
  function ConfirmEcuRestored(p: Progress, ecu: Ecu, frames: nat): Attempt {
    if !Disabled(p.node, ecu) then Done(p)
    else if frames == 0 then Failed(p)
    else Done(SettleDebt(p, ecu, frames))
  }

  datatype NoOutputEnv = NoOutputEnv(
    now: int, failedAt: int,
    heartbeat: bool, elm: bool,
    radar: RestoreEnv, radarHeartbeat: bool,
    camera: RestoreEnv, cameraHeartbeat: bool,
    radarFrames: nat, cameraFrames: nat,
    cleared: bool, standby: bool, readBack: bool)

  /** A section that records failures and goes on. */
  datatype Effort = Effort(p: Progress, errors: bool)

  function Continue(a: Attempt, errors: bool): Effort {
    Effort(a.p, errors || a.Failed?)
  }

  function RestoreAndBeat(e: Effort, ecu: Ecu, env: RestoreEnv, beat: bool): Effort {
    if !Disabled(e.p.node, ecu) then e
    else
      match RestoreEcu(e.p, ecu, env)
      case Failed(q) => Effort(q, true)
      case Done(q) => Continue(Try(q, beat, Heartbeat), e.errors)
  }

  function Confirm(e: Effort, ecu: Ecu, frames: nat): Effort {
    Continue(ConfirmEcuRestored(e.p, ecu, frames), e.errors)
  }

  /** Radar before camera in both passes; communication of both is restored before either is confirmed. */
  function RestoreEcus(e: Effort, env: NoOutputEnv): Effort {
    Confirm(Confirm(RestoreAndBeat(RestoreAndBeat(e, Radar, env.radar, env.radarHeartbeat),
                                   Camera, env.camera, env.cameraHeartbeat),
                    Radar, env.radarFrames),
            Camera, env.cameraFrames)
  }

  function StandbyParam(cfg: Config, n: Node): nat {
    if n.want.preserveSession || (cfg.safety.resumeOnCommandReturn && !n.want.operatorDisarmed)
    then cfg.safety.requiredSafetyParam else 0
  }

  /** NO_OUTPUT, through profile 0 unless a healthy gap preserves the session, read back. */
  function ConfirmNoOutput(cfg: Config, p: Progress, env: NoOutputEnv): Attempt {
    var param := StandbyParam(cfg, p.node);
    var cleared :-
      if param != 0 && !p.node.want.preserveSession then Try(p, env.cleared, Mode(NO_OUTPUT, 0)) else Done(p);
    var standby :- Try(cleared, env.standby, Mode(NO_OUTPUT, param));
    Try(standby, env.readBack, NoOutputConfirmed(param))
  }

  function BeginRecovery(p: Progress, now: int): Progress {
    var own := p.node.own;
    Note(WithOwn(p, own.(vehicleMode := false, recoveryPending := true, retry := Request(own.retry, now))),
         RecoveryStarted(now))
  }

  /** Diagnostic mode when an ECU is flagged, then the ECUs; an ELM327 failure skips them with an error. */
  function RestoreFlagged(cfg: Config, e: Effort, preserve: bool, env: NoOutputEnv): Effort {
    if !e.p.node.own.cameraDisabled && !e.p.node.own.radarDisabled then e
    else
      var elm := Continue(Try(e.p, env.elm, Mode(ELM327, if preserve then cfg.safety.requiredSafetyParam
                                                         else ELM327_ECAN_PARAM)), e.errors);
      if env.elm then RestoreEcus(elm, env) else elm
  }

  /** The host-side effort of `enter_no_output_mode`, before its verdict. */
  function RestoreStock(cfg: Config, p: Progress, env: NoOutputEnv): Effort {
    var begun := BeginRecovery(p, env.now);
    var beat := Continue(Try(begun, env.heartbeat, Heartbeat), false);
    var restored := RestoreFlagged(cfg, beat, p.node.want.preserveSession, env);
    Continue(ConfirmNoOutput(cfg, restored.p, env), restored.errors)
  }

  /** `enter_no_output_mode`. */
  function EnterNoOutput(cfg: Config, p: Progress, env: NoOutputEnv): Attempt {
    var effort := RestoreStock(cfg, p, env);
    var ended := WithOwn(effort.p, effort.p.node.own.(hasTemplate := false));
    if effort.errors then Failed(GiveUp(ended, env.failedAt)) else Done(Recover(ended))
  }

  function GiveUp(p: Progress, now: int): Progress {
    var own := p.node.own;
    Note(WithWant(WithOwn(p, own.(retry := RecoveryRetryModel.Failed(own.retry, now))),
                  p.node.want.(autoArmInhibited := true, rearmRequired := true)),
         RecoveryFailed(now))
  }

  function Recover(p: Progress): Progress {
    var own := p.node.own;
    Note(WithOwn(p, own.(recoveryPending := false, retry := Restored(own.retry))), Recovered)
  }

  /** The guarded first section of `retry_no_output_recovery`: does an attempt follow? */
  predicate RetryWanted(n: Node) {
    n.own.recoveryPending && !n.want.requestedArm && !n.want.appliedArm && !n.own.vehicleMode && n.connected
  }

  function CheckRetry(p: Progress, now: int): (Progress, bool) {
    if !RetryWanted(p.node) then (p, false)
    else
      var retry := Request(p.node.own.retry, now);
      var asked := WithOwn(p, p.node.own.(retry := retry));
      if Due(retry, now) then (Note(asked, RetryDue(now)), true) else (asked, false)
  }

  // ----- Raw transmission, connection, disconnection -----

  /** `raw_can_tx_callback`; a send that throws may already have put the frame on the wire. */
  function RawTransmit(cfg: Config, p: Progress, address: nat, wellFormed: bool): Progress {
    if !cfg.allowRawTx || !wellFormed then p
    else if address == LFA && !p.node.permitsLateral then p
    else if !p.node.own.vehicleMode || !p.node.connected || !p.node.permitsLongitudinal then p
    else Note(p, Sent(address, Raw))
  }

  /** A successful connection, and the disarm that follows it while an ECU is still flagged. */
  function Connect(p: Progress): Progress {
    var up := Link(p, true);
    if up.node.own.cameraDisabled || up.node.own.radarDisabled then RequestInternalDisarm(up, true) else up
  }

  /** The receive thread's error path. */
  function Disconnect(p: Progress): Progress {
    Release(RequestInternalDisarm(Link(p, false), true))
  }

  /** The arm request is no longer applied. */
  function Release(p: Progress): Progress {
    Note(WithWant(p, p.node.want.(appliedArm := false)), Applied(false))
  }

  /** Either way vehicle mode is over. */
  function Link(p: Progress, connected: bool): Progress {
    Note(p.(node := p.node.(connected := connected, own := p.node.own.(vehicleMode := false))), LinkChanged(connected))
  }

  // ----- The node's flags agree with its log -----

  predicate Agrees(n: Node, f: Facts) {
    && n.own.cameraDisabled == f.camera.flagged && n.own.radarDisabled == f.radar.flagged
    && n.own.vehicleMode == f.vehicle && n.own.recoveryPending == f.outstanding && n.own.retry == f.retry
    && n.want.gapQualified == f.gapLicense && n.want.buttonTakeover == f.pressLicense
    && StandingOf(n.want) == f.standing
    && n.permitsLateral == f.loop.lateralOut && n.permitsLongitudinal == f.loop.longitudinalOut
  }

  function StandingOf(want: Intent): Standing {
    Standing(want.autoArmInhibited, want.rearmRequired, want.operatorDisarmed, want.requestedArm, want.appliedArm,
             want.preserveSession)
  }

  /** The rules, what the loop has recorded and the stage of the attempts carry over. */
  predicate Carries(a: Log, b: Log) {
    Read(b).rules == Read(a).rules && Read(b).loop == Read(a).loop && Read(b).stage == Read(a).stage
  }

  /** The flags agree with the log, and the log is lawful. */
  predicate Ledger(p: Progress) {
    Lawful(p.log) && Agrees(p.node, Read(p.log))
  }

  /** The log is judged by the node's own configuration. */
  predicate Ruled(cfg: Config, p: Progress) {
    Ledger(p) && Read(p.log).rules == RulesOf(cfg)
  }

  /** Vehicle mode is entered only over silenced ECUs and with a template. */
  predicate Owns(cfg: Config, n: Node) {
    n.own.vehicleMode ==>
      n.own.cameraDisabled && (cfg.safety.allowLongitudinal ==> n.own.radarDisabled && n.own.hasTemplate)
  }

  /** No silenced ECU is forgotten. */
  predicate Remembered(n: Node) {
    n.own.cameraDisabled || n.own.radarDisabled ==> n.own.vehicleMode || n.own.recoveryPending
  }

  predicate Permits(cfg: Config, n: Node) {
    n.permitsLongitudinal ==> cfg.safety.allowLongitudinal
  }

  predicate Sound(cfg: Config, p: Progress) {
    Ruled(cfg, p) && Owns(cfg, p.node) && Remembered(p.node) && Permits(cfg, p.node)
  }

  lemma NoteKeeps(p: Progress, n: Node, a: Action)
    requires Lawful(p.log) && LawfulAction(Read(p.log), p.log, a)
    requires Agrees(n, Absorb(Read(p.log), a))
    ensures Ledger(Note(p.(node := n), a))
    ensures Read(p.log + [a]) == Absorb(Read(p.log), a)
  {
    Append(p.log, a);
  }

  lemma TryKeeps(p: Progress, ok: bool, a: Action)
    requires Ledger(p) && LawfulAction(Read(p.log), p.log, a) && Absorb(Read(p.log), a) == Read(p.log)
    ensures var r := Try(p, ok, a);
            && Ledger(r.p) && r.p.node == p.node && Read(r.p.log) == Read(p.log)
            && (ok ==> r.p.log[|p.log|] == a && |r.p.log| == |p.log| + 1)
  {
    Append(p.log, a);
  }

  lemma ModeKeeps(p: Progress, ok: bool, mode: nat, param: nat)
    requires Ledger(p) && LawfulMode(Read(p.log), mode, param)
    ensures var r := Try(p, ok, Mode(mode, param));
            && Ledger(r.p) && r.p.node == p.node
            && Read(r.p.log) == (if ok then Read(p.log).(mode := mode) else Read(p.log))
            && (ok ==> EndsWith(r.p.log, Mode(mode, param)) && r.p.log[..|p.log|] == p.log && |r.p.log| == |p.log| + 1)
  {
    Append(p.log, Mode(mode, param));
  }

  /** The commanded mode decides none of these. */
  lemma ModeDecidesNothing(f: Facts, mode: nat, standstill: bool, speed: real)
    ensures var g := f.(mode := mode);
            && MayBeSilenced(g, standstill, speed) == MayBeSilenced(f, standstill, speed)
            && StandbyProfile(g) == StandbyProfile(f)
  {
  }

  // ----- Disarming, service calls, the link -----

  lemma DisarmKeeps(cfg: Config, p: Progress, requireRearm: bool)
    requires Ruled(cfg, p) && Owns(cfg, p.node) && Permits(cfg, p.node)
    ensures var q := RequestInternalDisarm(p, requireRearm);
            Sound(cfg, q) && Carries(p.log, q.log)
  {
    Append(p.log, InternalDisarm(requireRearm));
  }

  lemma ReleaseKeeps(cfg: Config, p: Progress)
    requires Sound(cfg, p) && !p.node.want.requestedArm
    ensures Sound(cfg, Release(p)) && Carries(p.log, Release(p).log)
  {
    hide Read, Lawful, Agrees;
    ReleaseAgrees(p);
    NoteKeeps(p, p.node.(want := p.node.want.(appliedArm := false)), Applied(false));
  }

  lemma ReleaseAgrees(p: Progress)
    requires Ledger(p) && !p.node.want.requestedArm
    ensures LawfulAction(Read(p.log), p.log, Applied(false))
    ensures Agrees(p.node.(want := p.node.want.(appliedArm := false)), Absorb(Read(p.log), Applied(false)))
  {
    hide Read, Lawful;
  }

  lemma ServiceKeeps(cfg: Config, p: Progress, arm: bool)
    requires Sound(cfg, p)
    ensures var q := ArmService(cfg, p, arm);
            && Sound(cfg, q) && Read(q.log).rules == Read(p.log).rules && Read(q.log).stage == Read(p.log).stage
            && Read(q.log).loop == (if q == p then Read(p.log).loop else Read(p.log).loop.(iterations := 0))
  {
    Append(p.log, ServiceCall(arm));
    assert |p.log + [ServiceCall(arm)]| == |p.log| + 1;
  }

  lemma LinkKeeps(cfg: Config, p: Progress, up: bool)
    requires Ruled(cfg, p) && Permits(cfg, p.node)
    ensures var q := Link(p, up);
            Ruled(cfg, q) && Owns(cfg, q.node) && Permits(cfg, q.node) && Carries(p.log, q.log)
  {
    Append(p.log, LinkChanged(up));
  }

  lemma ConnectKeeps(cfg: Config, p: Progress)
    requires Sound(cfg, p)
    ensures Sound(cfg, Connect(p)) && Carries(p.log, Connect(p).log)
  {
    hide Read, Lawful, RequestInternalDisarm, Link;
    LinkKeeps(cfg, p, true);
    LinkFlags(p, true);
    DisarmKeeps(cfg, Link(p, true), true);
  }

  lemma LinkFlags(p: Progress, up: bool)
    ensures Link(p, up).node == p.node.(connected := up, own := p.node.own.(vehicleMode := false))
  {
  }

  lemma DisconnectKeeps(cfg: Config, p: Progress)
    requires Sound(cfg, p)
    ensures Sound(cfg, Disconnect(p)) && Carries(p.log, Disconnect(p).log)
  {
    hide Read, Lawful, Link, Release;
    LinkKeeps(cfg, p, false);
    DisarmKeeps(cfg, Link(p, false), true);
    ReleaseKeeps(cfg, RequestInternalDisarm(Link(p, false), true));
  }

  /** After an operator's off at most one iteration has been completed while vehicle mode lasts, so what is sent is
      lawful. */
  lemma RawTransmitKeeps(cfg: Config, p: Progress, address: nat, wellFormed: bool)
    requires Sound(cfg, p)
    requires p.node.own.vehicleMode && p.node.connected && p.node.want.operatorDisarmed ==>
               Read(p.log).loop.iterations <= 1
    ensures var q := RawTransmit(cfg, p, address, wellFormed);
            Sound(cfg, q) && q.node == p.node && Read(q.log) == Read(p.log)
  {
    if RawTransmit(cfg, p, address, wellFormed) != p {
      TryKeeps(p, true, Sent(address, Raw));
    }
  }

  // ----- Takeover -----

  /** Only the line of one ECU may differ. */
  predicate OnlyLine(f: Facts, g: Facts, ecu: Ecu) {
    g == if ecu == Camera then f.(camera := g.camera) else f.(radar := g.radar)
  }

  lemma WatchSilenceKeeps(p: Progress, ecu: Ecu, env: DisableEnv)
    requires Ledger(p) && LineOf(Read(p.log), ecu) == Line(true, true, false, false)
    requires p.log != [] && SilencesEcu(p.log[|p.log| - 1], ecu)
    ensures var r := WatchSilence(p, ecu, env);
            && Ledger(r.p) && r.p.node == p.node && OnlyLine(Read(p.log), Read(r.p.log), ecu)
            && (r.Done? ==> LineOf(Read(r.p.log), ecu) == SILENT)
  {
    hide Read, Lawful;
    TryKeeps(p, env.tester, TesterPresent(ecu));
    var tested := Note(p, TesterPresent(ecu));
    if env.tester {
      NoteKeeps(tested, p.node, Quiet(ecu));
    }
  }

  /** At most this ECU's flag and line differ; after success it is flagged and was seen quiet. */
  predicate Silenced(p: Progress, ecu: Ecu, r: Attempt) {
    && Ledger(r.p) && OnlyLine(Read(p.log), Read(r.p.log), ecu)
    && (r.p.node == p.node || r.p.node == p.node.(own := SetDisabled(p.node.own, ecu, true)))
    && (r.Done? ==> Disabled(r.p.node, ecu) && LineOf(Read(r.p.log), ecu) == SILENT)
  }

  /** Nothing forbids the silencing of this ECU. */
  predicate MaySilence(f: Facts, ecu: Ecu, v: S.Vehicle) {
    && !f.outstanding && f.mode == 3 && (ecu == Radar ==> f.rules.longitudinal)
    && Invited(f.rules, f.loop.note) && MayBeSilenced(f, v.standstill, v.speed)
  }

  /** What disabling one ECU guarantees, however it ends. */
  lemma DisableEcuKeeps(p: Progress, ecu: Ecu, v: S.Vehicle, env: DisableEnv)
    requires Ledger(p) && !Disabled(p.node, ecu) && MaySilence(Read(p.log), ecu, v)
    ensures Silenced(p, ecu, DisableEcu(p, ecu, v, env))
  {
    hide WatchSilence, Read, Lawful, Invited, MayBeSilenced;
    var session := Note(p, Uds(ecu, ExtendedSession));
    TryKeeps(p, env.session, Uds(ecu, ExtendedSession));
    if env.session && env.silence.Returned? {
      SilenceReturns(session, ecu, v, env);
    } else if env.session && env.silence.SentThenThrew? {
      NoteKeeps(session, p.node, Silence(ecu, v.standstill, v.speed, false));
    }
  }

  lemma SilenceReturns(session: Progress, ecu: Ecu, v: S.Vehicle, env: DisableEnv)
    requires Ledger(session) && !Disabled(session.node, ecu) && MaySilence(Read(session.log), ecu, v)
    requires EndsWith(session.log, Uds(ecu, ExtendedSession))
    ensures var silence := Silence(ecu, v.standstill, v.speed, true);
            var flagged := WithOwn(Note(session, silence), SetDisabled(session.node.own, ecu, true));
            Silenced(session, ecu, WatchSilence(flagged, ecu, env))
  {
    hide WatchSilence, Read, Lawful, Invited, MayBeSilenced;
    var flagged, silence := SetDisabled(session.node.own, ecu, true), Silence(ecu, v.standstill, v.speed, true);
    NoteKeeps(session, session.node.(own := flagged), silence);
    WatchSilenceKeeps(WithOwn(Note(session, silence), flagged), ecu, env);
  }

  lemma DisableAndBeatKeeps(p: Progress, ecu: Ecu, v: S.Vehicle, env: DisableEnv, beat: bool)
    requires Ledger(p) && !Disabled(p.node, ecu) && MaySilence(Read(p.log), ecu, v)
    ensures Silenced(p, ecu, DisableAndBeat(p, ecu, v, env, beat))
  {
    DisableEcuKeeps(p, ecu, v, env);
    TryKeeps(DisableEcu(p, ecu, v, env).p, beat, Heartbeat);
  }

  /** The flags of the ECUs are the only ones that silencing changes. */
  predicate OnlyFlags(n: Node, m: Node) {
    && m == n.(own := m.own)
    && m.own.vehicleMode == n.own.vehicleMode && m.own.recoveryPending == n.own.recoveryPending
    && m.own.retry == n.own.retry && m.own.hasTemplate == n.own.hasTemplate
  }

  predicate AllSilenced(cfg: Config, p: Progress, r: Attempt) {
    && Ledger(r.p) && Carries(p.log, r.p.log) && OnlyFlags(p.node, r.p.node)
    && (r.Done? ==> AllSilent(Read(r.p.log)))
  }

  /** Nothing forbids a takeover of this vehicle. */
  predicate MayEnter(cfg: Config, p: Progress, v: S.Vehicle) {
    var f := Read(p.log);
    && Ruled(cfg, p) && !f.outstanding && f.stage == AtRest && Invited(f.rules, f.loop.note)
    && MayBeSilenced(f, v.standstill, v.speed)
  }

  /** What silencing the ECUs guarantees: after success every ECU the mode needs is flagged and quiet. */
  lemma SilenceEcusKeeps(cfg: Config, p: Progress, v: S.Vehicle, env: TakeoverEnv)
    requires MayEnter(cfg, p, v) && !p.node.own.cameraDisabled && !p.node.own.radarDisabled
    ensures AllSilenced(cfg, p, SilenceEcus(cfg, p, v, env))
  {
    hide SilenceBoth, Read, Lawful, Invited, MayBeSilenced;
    var param := if cfg.safety.resumeOnCommandReturn then cfg.safety.requiredSafetyParam else ELM327_ECAN_PARAM;
    TryKeeps(p, env.heartbeat, Heartbeat);
    if env.heartbeat {
      var beat := Note(p, Heartbeat);
      ModeKeeps(beat, env.elm, ELM327, param);
      if env.elm {
        ModeDecidesNothing(Read(beat.log), ELM327, v.standstill, v.speed);
        SilenceFromElm(cfg, Note(beat, Mode(ELM327, param)), v, env);
      }
    }
  }

  /** The camera, then the radar. */
  lemma SilenceFromElm(cfg: Config, p: Progress, v: S.Vehicle, env: TakeoverEnv)
    requires MayEnter(cfg, p, v) && Read(p.log).mode == 3 && !p.node.own.cameraDisabled && !p.node.own.radarDisabled
    ensures AllSilenced(cfg, p, SilenceBoth(cfg, p, v, env))
  {
    hide DisableAndBeat, AllSilenced, Read, Lawful, Invited, MayBeSilenced;
    DisableAndBeatKeeps(p, Camera, v, env.camera, env.cameraHeartbeat);
    var camera := DisableAndBeat(p, Camera, v, env.camera, env.cameraHeartbeat);
    if camera.Done? && cfg.safety.allowLongitudinal {
      StillMaySilence(p, camera, v);
      DisableAndBeatKeeps(camera.p, Radar, v, env.radar, env.radarHeartbeat);
      SilencedInTurn(cfg, p, camera, DisableAndBeat(camera.p, Radar, v, env.radar, env.radarHeartbeat));
    } else {
      SilencedAlone(cfg, p, camera);
    }
  }

  lemma StillMaySilence(p: Progress, camera: Attempt, v: S.Vehicle)
    requires MaySilence(Read(p.log), Camera, v) && Read(p.log).rules.longitudinal && Silenced(p, Camera, camera)
    ensures MaySilence(Read(camera.p.log), Radar, v)
  {
    hide Read, Lawful;
  }

  lemma SilencedAlone(cfg: Config, p: Progress, camera: Attempt)
    requires Ruled(cfg, p) && Silenced(p, Camera, camera) && (camera.Done? ==> !cfg.safety.allowLongitudinal)
    ensures AllSilenced(cfg, p, camera)
  {
    hide Read, Lawful;
  }

  lemma SilencedInTurn(cfg: Config, p: Progress, camera: Attempt, radar: Attempt)
    requires camera.Done? && Silenced(p, Camera, camera) && Silenced(camera.p, Radar, radar)
    ensures AllSilenced(cfg, p, radar)
  {
    hide Read, Lawful;
  }

  /** A takeover changes the custody and may use up the press license, nothing else. */
  predicate OnlyTakeover(n: Node, m: Node) {
    && m.connected == n.connected && m.want == n.want.(buttonTakeover := m.want.buttonTakeover)
    && m.permitsLateral == n.permitsLateral && m.permitsLongitudinal == n.permitsLongitudinal
    && m.own.recoveryPending == n.own.recoveryPending && m.own.retry == n.own.retry
  }

  /** Every ECU that vehicle mode needs is silenced and quiet, and nothing is outstanding. */
  predicate HandshakeDone(cfg: Config, p: Progress) {
    && Ruled(cfg, p) && !p.node.own.vehicleMode && !p.node.own.recoveryPending
    && Read(p.log).stage == AtRest && AllSilent(Read(p.log))
  }

  /** What a finished or failed switch leaves behind. */
  predicate Switched(cfg: Config, p: Progress, r: Attempt) {
    && Ledger(r.p) && Owns(cfg, r.p.node) && Carries(p.log, r.p.log)
    && OnlyTakeover(p.node, r.p.node) && r.p.node.own.vehicleMode == r.Done?
  }

  /** The switch itself: it may fail anywhere, and raises the mode flag only at its very end. */
  lemma SwitchKeeps(cfg: Config, p: Progress, env: TakeoverEnv)
    requires HandshakeDone(cfg, p)
    ensures Switched(cfg, p, SwitchToVehicleMode(cfg, p, env))
  {
    if !cfg.safety.allowLongitudinal {
      SwitchModeKeeps(cfg, p, env);
    } else if env.templateAccepted {
      SwitchModeKeeps(cfg, WithOwn(p, p.node.own.(hasTemplate := true)), env);
    }
  }

  lemma SwitchModeKeeps(cfg: Config, p: Progress, env: TakeoverEnv)
    requires HandshakeDone(cfg, p) && (cfg.safety.allowLongitudinal ==> p.node.own.hasTemplate)
    ensures Switched(cfg, p, SwitchMode(cfg, p, env))
  {
    hide Read, Lawful, ProbeAndConfirm;
    var param := cfg.safety.requiredSafetyParam;
    ModeKeeps(p, env.mode, HYUNDAI_CANFD, param);
    if env.mode {
      ProbeKeeps(cfg, Note(p, Mode(HYUNDAI_CANFD, param)), env);
    }
  }

  lemma ProbeKeeps(cfg: Config, p: Progress, env: TakeoverEnv)
    requires HandshakeDone(cfg, p) && (cfg.safety.allowLongitudinal ==> p.node.own.hasTemplate)
    requires EndsWith(p.log, Mode(HYUNDAI_CANFD, cfg.safety.requiredSafetyParam))
    ensures Switched(cfg, p, ProbeAndConfirm(p, cfg.safety.allowLongitudinal, env))
  {
    hide CompleteTakeover, Read, Lawful;
    if cfg.safety.allowLongitudinal {
      TryKeeps(p, true, Sent(SCC, Probe));
      CompleteKeeps(cfg, Note(p, Sent(SCC, Probe)));
    } else {
      CompleteKeeps(cfg, p);
    }
  }

  lemma CompleteKeeps(cfg: Config, p: Progress)
    requires HandshakeDone(cfg, p) && (cfg.safety.allowLongitudinal ==> p.node.own.hasTemplate)
    requires EndsWith(p.log, if cfg.safety.allowLongitudinal then Sent(SCC, Probe)
                             else Mode(HYUNDAI_CANFD, cfg.safety.requiredSafetyParam))
    ensures Switched(cfg, p, Done(CompleteTakeover(p, cfg.safety.allowLongitudinal)))
  {
    var longitudinal := cfg.safety.allowLongitudinal;
    NoteKeeps(p, CompleteTakeover(p, longitudinal).node, TakenOver(longitudinal));
  }

  /** What passing the checks means; they change nothing. */
  lemma ChecksMean(cfg: Config, p: Progress, v: S.Vehicle, gapResume: bool, env: TakeoverEnv)
    requires Ruled(cfg, p) && Read(p.log).stage == AtRest && Invited(Read(p.log).rules, Read(p.log).loop.note)
    ensures var r := MayTakeOver(cfg, p, v, gapResume, env);
            r.p == p && (r.Done? ==> MayEnter(cfg, p, v))
  {
    hide Read, Lawful, Invited;
  }

  /** Success takes ownership soundly; failure leaves at most a debt, which the internal disarm that
      follows turns into a pending recovery. */
  predicate TakesOver(cfg: Config, p: Progress, r: Attempt) {
    && Ruled(cfg, r.p) && Owns(cfg, r.p.node) && Permits(cfg, r.p.node)
    && Carries(p.log, r.p.log)
    && (r.Done? ==> Sound(cfg, r.p)) && r.p.node.own.vehicleMode == r.Done?
    && OnlyTakeover(p.node, r.p.node)
  }

  lemma EnterVehicleModeKeeps(cfg: Config, p: Progress, v: S.Vehicle, gapResume: bool, env: TakeoverEnv)
    requires Sound(cfg, p) && Read(p.log).stage == AtRest && Invited(Read(p.log).rules, Read(p.log).loop.note)
    ensures TakesOver(cfg, p, EnterVehicleMode(cfg, p, v, gapResume, env))
  {
    hide SilenceEcus, SwitchToVehicleMode, MayTakeOver, Moving, TakesOver, AllSilenced, Switched, MayEnter,
         Read, Lawful, Invited;
    ChecksMean(cfg, p, v, gapResume, env);
    if p.node.own.vehicleMode {
      AlreadyTaken(cfg, p);
    } else if MayTakeOver(cfg, p, v, gapResume, env).Done? {
      SilenceThenSwitch(cfg, p, v, env);
    } else {
      ChecksFailed(cfg, p);
    }
  }

  lemma AlreadyTaken(cfg: Config, p: Progress)
    requires Sound(cfg, p) && p.node.own.vehicleMode
    ensures TakesOver(cfg, p, Done(p))
  {
    hide Read, Lawful;
  }

  lemma ChecksFailed(cfg: Config, p: Progress)
    requires Sound(cfg, p) && !p.node.own.vehicleMode
    ensures TakesOver(cfg, p, Failed(p))
  {
    hide Read, Lawful;
  }

  lemma SilenceThenSwitch(cfg: Config, p: Progress, v: S.Vehicle, env: TakeoverEnv)
    requires Sound(cfg, p) && !p.node.own.vehicleMode && MayEnter(cfg, p, v)
    ensures var silenced := SilenceEcus(cfg, p, v, env);
            TakesOver(cfg, p, if silenced.Done? then SwitchToVehicleMode(cfg, silenced.p, env) else silenced)
  {
    hide SilenceEcus, SwitchToVehicleMode, TakesOver, AllSilenced, Switched, Read, Lawful, Invited, MayBeSilenced;
    SilenceEcusKeeps(cfg, p, v, env);
    var silenced := SilenceEcus(cfg, p, v, env);
    if silenced.Done? {
      QuietIsHandshake(cfg, p, silenced);
      SwitchKeeps(cfg, silenced.p, env);
      SwitchedTakesOver(cfg, p, silenced, SwitchToVehicleMode(cfg, silenced.p, env));
    } else {
      SilenceFailed(cfg, p, silenced);
    }
  }

  lemma QuietIsHandshake(cfg: Config, p: Progress, silenced: Attempt)
    requires Ruled(cfg, p) && AllSilenced(cfg, p, silenced) && silenced.Done? && Read(p.log).stage == AtRest
    requires !p.node.own.vehicleMode && !p.node.own.recoveryPending
    ensures HandshakeDone(cfg, silenced.p)
  {
    hide Read, Lawful;
  }

  lemma SilenceFailed(cfg: Config, p: Progress, silenced: Attempt)
    requires Sound(cfg, p) && !p.node.own.vehicleMode && AllSilenced(cfg, p, silenced) && silenced.Failed?
    ensures TakesOver(cfg, p, silenced)
  {
    hide Read, Lawful;
  }

  lemma SwitchedTakesOver(cfg: Config, p: Progress, silenced: Attempt, r: Attempt)
    requires Sound(cfg, p) && AllSilenced(cfg, p, silenced) && Switched(cfg, silenced.p, r)
    ensures TakesOver(cfg, p, r)
  {
    hide Read, Lawful;
  }

  // ----- Restoration -----

  /** Restoration never flags an ECU, and changes no other flag and no license. */
  predicate Repays(p: Progress, q: Progress) {
    && OnlyFlags(p.node, q.node)
    && (q.node.own.cameraDisabled ==> p.node.own.cameraDisabled)
    && (q.node.own.radarDisabled ==> p.node.own.radarDisabled)
    && Carries(p.log, q.log)
  }

  predicate SameMode(p: Progress, q: Progress) { Read(q.log).mode == Read(p.log).mode }

  lemma ResumedKeeps(p: Progress, ecu: Ecu, frames: nat)
    requires Ledger(p) && Disabled(p.node, ecu) && frames > 0
    ensures var q := SettleDebt(p, ecu, frames);
            Ledger(q) && Repays(p, q) && SameMode(p, q) && !Disabled(q.node, ecu)
  {
    NoteKeeps(p, p.node.(own := SetDisabled(p.node.own, ecu, false)), Resumed(ecu, frames));
  }

  lemma RestoreEcuKeeps(p: Progress, ecu: Ecu, env: RestoreEnv)
    requires Ledger(p) && Read(p.log).mode == 3
    ensures var r := RestoreEcu(p, ecu, env); Ledger(r.p) && Repays(p, r.p) && SameMode(p, r.p)
  {
    hide Read, Lawful, SettleDebt;
    if Disabled(p.node, ecu) {
      if p.node.own.retry.failures != 0 && env.seenBefore != 0 {
        ResumedKeeps(p, ecu, env.seenBefore);
      } else if env.session {
        TryKeeps(p, true, Uds(ecu, ExtendedSession));
        var session := Note(p, Uds(ecu, ExtendedSession));
        TryKeeps(session, env.enable, Uds(ecu, EnableCommunication));
        if env.enable {
          TryKeeps(Note(session, Uds(ecu, EnableCommunication)), env.default, Uds(ecu, DefaultSession));
        }
      }
    }
  }

  lemma RestoreAndBeatKeeps(e: Effort, ecu: Ecu, env: RestoreEnv, beat: bool)
    requires Ledger(e.p) && Read(e.p.log).mode == 3
    ensures var f := RestoreAndBeat(e, ecu, env, beat);
            Ledger(f.p) && Repays(e.p, f.p) && SameMode(e.p, f.p) && (e.errors ==> f.errors)
  {
    RestoreEcuKeeps(e.p, ecu, env);
    TryKeeps(RestoreEcu(e.p, ecu, env).p, beat, Heartbeat);
  }

  lemma ConfirmKeeps(e: Effort, ecu: Ecu, frames: nat)
    requires Ledger(e.p)
    ensures var f := Confirm(e, ecu, frames);
            && Ledger(f.p) && Repays(e.p, f.p) && (e.errors ==> f.errors)
            && (!f.errors ==> !Disabled(f.p.node, ecu))
  {
    if Disabled(e.p.node, ecu) && frames != 0 {
      ResumedKeeps(e.p, ecu, frames);
    }
  }

  predicate SettlesAll(e: Effort, f: Effort) {
    && Ledger(f.p) && Repays(e.p, f.p) && (e.errors ==> f.errors)
    && (!f.errors ==> !f.p.node.own.cameraDisabled && !f.p.node.own.radarDisabled)
  }

  lemma RestoreEcusKeeps(e: Effort, env: NoOutputEnv)
    requires Ledger(e.p) && Read(e.p.log).mode == 3
    ensures SettlesAll(e, RestoreEcus(e, env))
  {
    hide RestoreAndBeat, Confirm, Read, Lawful;
    RestoreAndBeatKeeps(e, Radar, env.radar, env.radarHeartbeat);
    var e1 := RestoreAndBeat(e, Radar, env.radar, env.radarHeartbeat);
    RestoreAndBeatKeeps(e1, Camera, env.camera, env.cameraHeartbeat);
    var e2 := RestoreAndBeat(e1, Camera, env.camera, env.cameraHeartbeat);
    ConfirmKeeps(e2, Radar, env.radarFrames);
    ConfirmKeeps(Confirm(e2, Radar, env.radarFrames), Camera, env.cameraFrames);
  }

  lemma ConfirmNoOutputKeeps(cfg: Config, p: Progress, env: NoOutputEnv)
    requires Ruled(cfg, p) && Read(p.log).stage == UnderWay
    ensures var r := ConfirmNoOutput(cfg, p, env);
            && Ledger(r.p) && r.p.node == p.node && Carries(p.log, r.p.log)
            && (r.Done? ==> r.p.log != [] && r.p.log[|r.p.log| - 1].NoOutputConfirmed?)
  {
    hide Read, Lawful, Ledger, Agrees, StandbyParam, StandbyProfile, Try;
    var param, clears := StandbyParam(cfg, p.node), StandbyParam(cfg, p.node) != 0 && !p.node.want.preserveSession;
    var cleared := if clears then Try(p, env.cleared, Mode(NO_OUTPUT, 0)) else Done(p);
    ClearKeeps(cfg, p, cleared, env.cleared);
    if cleared.Done? {
      StandbyKeeps(cfg, p, cleared.p, env);
    }
  }

  lemma ClearKeeps(cfg: Config, p: Progress, cleared: Attempt, ok: bool)
    requires Ruled(cfg, p) && Read(p.log).stage == UnderWay
    requires var param := StandbyParam(cfg, p.node);
             cleared == if param != 0 && !p.node.want.preserveSession then Try(p, ok, Mode(NO_OUTPUT, 0)) else Done(p)
    ensures Ledger(cleared.p) && cleared.p.node == p.node && Carries(p.log, cleared.p.log)
    ensures Read(cleared.p.log) == Read(p.log).(mode := Read(cleared.p.log).mode)
    ensures cleared.Done? && StandbyProfile(Read(p.log)) != 0 && !Read(p.log).standing.preserved ==>
              EndsWith(cleared.p.log, Mode(19, 0))
  {
    hide Read, Lawful, StandbyParam, StandbyProfile;
    StandbyOf(cfg, p);
    ModeKeeps(p, ok, NO_OUTPUT, 0);
  }

  lemma StandbyKeeps(cfg: Config, p: Progress, cleared: Progress, env: NoOutputEnv)
    requires Ruled(cfg, p) && Read(p.log).stage == UnderWay
    requires Ledger(cleared) && cleared.node == p.node
    requires Read(cleared.log) == Read(p.log).(mode := Read(cleared.log).mode)
    requires StandbyProfile(Read(p.log)) != 0 && !Read(p.log).standing.preserved ==> EndsWith(cleared.log, Mode(19, 0))
    ensures var standby := Try(cleared, env.standby, Mode(NO_OUTPUT, StandbyParam(cfg, p.node)));
            var r := if standby.Done? then Try(standby.p, env.readBack, NoOutputConfirmed(StandbyParam(cfg, p.node)))
                     else standby;
            && Ledger(r.p) && r.p.node == p.node && Carries(p.log, r.p.log)
            && (r.Done? ==> r.p.log != [] && r.p.log[|r.p.log| - 1].NoOutputConfirmed?)
  {
    hide Read, Lawful, StandbyParam, StandbyProfile;
    StandbyOf(cfg, p);
    var param := StandbyParam(cfg, p.node);
    ModeDecidesNothing(Read(p.log), Read(cleared.log).mode, true, 0.0);
    ModeKeeps(cleared, env.standby, NO_OUTPUT, param);
    if env.standby {
      ReadBackKeeps(p, Note(cleared, Mode(NO_OUTPUT, param)), param, env.readBack);
    }
  }

  lemma StandbyOf(cfg: Config, p: Progress)
    requires Ruled(cfg, p)
    ensures StandbyParam(cfg, p.node) == StandbyProfile(Read(p.log))
  {
    hide Read, Lawful;
  }

  lemma ReadBackKeeps(p: Progress, standby: Progress, param: nat, ok: bool)
    requires Ledger(standby) && Read(standby.log) == Read(p.log).(mode := Read(standby.log).mode)
    requires Read(p.log).stage == UnderWay && param == StandbyProfile(Read(p.log))
    requires EndsWith(standby.log, Mode(19, param))
    requires param != 0 && !Read(p.log).standing.preserved ==> EndsWith(standby.log[..|standby.log| - 1], Mode(19, 0))
    ensures var r := Try(standby, ok, NoOutputConfirmed(param));
            && Ledger(r.p) && r.p.node == standby.node && Read(r.p.log) == Read(standby.log)
            && (ok ==> r.p.log != [] && r.p.log[|r.p.log| - 1].NoOutputConfirmed?)
  {
    hide Read, Lawful, StandbyProfile;
    ModeDecidesNothing(Read(p.log), Read(standby.log).mode, true, 0.0);
    TryKeeps(standby, ok, NoOutputConfirmed(param));
  }

  /** Leaving vehicle mode touches the custody and, when it fails, the two inhibiting flags only. */
  predicate OnlyRestore(n: Node, m: Node) {
    && m.connected == n.connected && m.permitsLateral == n.permitsLateral
    && m.permitsLongitudinal == n.permitsLongitudinal
    && m.want == n.want.(autoArmInhibited := m.want.autoArmInhibited, rearmRequired := m.want.rearmRequired)
    && (n.want.autoArmInhibited ==> m.want.autoArmInhibited)
    && !m.own.vehicleMode
  }

  lemma RestoreFlaggedKeeps(cfg: Config, e: Effort, env: NoOutputEnv)
    requires Ruled(cfg, e.p) && Read(e.p.log).stage == UnderWay
    ensures SettlesAll(e, RestoreFlagged(cfg, e, e.p.node.want.preserveSession, env))
  {
    hide RestoreEcus, Try, SettlesAll, Read, Lawful, Ledger, Agrees;
    if !e.p.node.own.cameraDisabled && !e.p.node.own.radarDisabled {
      NothingToSettle(cfg, e);
    } else {
      var param := if e.p.node.want.preserveSession then cfg.safety.requiredSafetyParam else ELM327_ECAN_PARAM;
      var elm := Continue(Try(e.p, env.elm, Mode(ELM327, param)), e.errors);
      ElmKeeps(cfg, e, env);
      if env.elm {
        RestoreEcusKeeps(elm, env);
      }
      SettlesLater(e, elm, if env.elm then RestoreEcus(elm, env) else elm);
    }
  }

  lemma NothingToSettle(cfg: Config, e: Effort)
    requires Ruled(cfg, e.p) && !e.p.node.own.cameraDisabled && !e.p.node.own.radarDisabled
    ensures SettlesAll(e, e)
  {
    hide Read, Lawful;
  }

  lemma ElmKeeps(cfg: Config, e: Effort, env: NoOutputEnv)
    requires Ruled(cfg, e.p) && Read(e.p.log).stage == UnderWay
    requires e.p.node.own.cameraDisabled || e.p.node.own.radarDisabled
    ensures var param := if e.p.node.want.preserveSession then cfg.safety.requiredSafetyParam else ELM327_ECAN_PARAM;
            var elm := Continue(Try(e.p, env.elm, Mode(ELM327, param)), e.errors);
            && Ledger(elm.p) && elm.p.node == e.p.node && Carries(e.p.log, elm.p.log) && (e.errors ==> elm.errors)
            && (env.elm ==> Read(elm.p.log).mode == 3) && (!env.elm ==> SettlesAll(elm, elm))
  {
    hide Read, Lawful;
    var param := if e.p.node.want.preserveSession then cfg.safety.requiredSafetyParam else ELM327_ECAN_PARAM;
    ModeKeeps(e.p, env.elm, ELM327, param);
  }

  lemma SettlesLater(e: Effort, elm: Effort, f: Effort)
    requires SettlesAll(elm, f) && elm.p.node == e.p.node && Carries(e.p.log, elm.p.log) && (e.errors ==> elm.errors)
    ensures SettlesAll(e, f)
  {
    hide Read, Lawful;
  }

  lemma RestoreStockKeeps(cfg: Config, p: Progress, env: NoOutputEnv)
    requires Ruled(cfg, p) && MayStart(p)
    ensures var e := RestoreStock(cfg, p, env);
            && Ledger(e.p) && e.p.node.own.recoveryPending && !e.p.node.own.vehicleMode && e.p.node.own.retry.pending
            && e.p.node == p.node.(own := e.p.node.own)
            && Read(e.p.log).loop == Read(p.log).loop && Read(e.p.log).stage == UnderWay
            && Read(e.p.log).rules == Read(p.log).rules
            && (!e.errors ==>
                  && !e.p.node.own.cameraDisabled && !e.p.node.own.radarDisabled
                  && e.p.log != [] && e.p.log[|e.p.log| - 1].NoOutputConfirmed?)
  {
    hide RestoreFlagged, ConfirmNoOutput, Read, Lawful;
    NoteKeeps(p, BeginRecovery(p, env.now).node, RecoveryStarted(env.now));
    var begun := BeginRecovery(p, env.now);
    TryKeeps(begun, env.heartbeat, Heartbeat);
    var beat := Continue(Try(begun, env.heartbeat, Heartbeat), false);
    RestoreFlaggedKeeps(cfg, beat, env);
    ConfirmNoOutputKeeps(cfg, RestoreFlagged(cfg, beat, p.node.want.preserveSession, env).p, env);
  }

  /** An outage that has seen a failure starts no attempt that was not found due. */
  predicate MayStart(p: Progress) {
    Failing(p.node.own.retry) ==> Read(p.log).stage == FoundDue
  }

  /** Both flags are down, and NO_OUTPUT was read back before the recovery was reported. */
  predicate GivenBack(p: Progress) {
    && !p.node.own.cameraDisabled && !p.node.own.radarDisabled
    && |p.log| > 1 && p.log[|p.log| - 2].NoOutputConfirmed? && p.log[|p.log| - 1] == Recovered
  }

  predicate LeavesVehicleMode(cfg: Config, p: Progress, r: Attempt) {
    && Sound(cfg, r.p) && OnlyRestore(p.node, r.p.node)
    && Read(r.p.log).loop == Read(p.log).loop && Read(r.p.log).stage == AtRest
    && r.Failed? == r.p.node.own.recoveryPending == r.p.node.own.retry.pending
    && (r.Done? ==> GivenBack(r.p))
    && (r.Failed? ==> r.p.node.want.autoArmInhibited && r.p.node.want.rearmRequired)
  }

  /** `enter_no_output_mode` from any ledger: it always leaves vehicle mode soundly, and it clears the
      pending recovery exactly when no step failed. Then both flags are down, each cleared by new stock
      frames, and NO_OUTPUT has been read back. */
  lemma EnterNoOutputKeeps(cfg: Config, p: Progress, env: NoOutputEnv)
    requires Ruled(cfg, p) && Permits(cfg, p.node) && MayStart(p)
    ensures LeavesVehicleMode(cfg, p, EnterNoOutput(cfg, p, env))
  {
    hide RestoreStock, Read, Lawful, GivenBack;
    RestoreStockKeeps(cfg, p, env);
    var e := RestoreStock(cfg, p, env);
    var ended := WithOwn(e.p, e.p.node.own.(hasTemplate := false));
    if e.errors {
      GiveUpKeeps(cfg, ended, env.failedAt);
    } else {
      RecoverKeeps(cfg, ended);
    }
  }

  lemma GiveUpKeeps(cfg: Config, p: Progress, now: int)
    requires Ruled(cfg, p) && Permits(cfg, p.node) && p.node.own.recoveryPending && !p.node.own.vehicleMode
    requires p.node.own.retry.pending && Read(p.log).stage == UnderWay
    ensures var q := GiveUp(p, now);
            && Sound(cfg, q) && Read(q.log).loop == Read(p.log).loop && Read(q.log).stage == AtRest
            && q.node.own.retry.pending && q.node.own.recoveryPending
  {
    hide Read, Lawful;
    NoteKeeps(p, GiveUp(p, now).node, RecoveryFailed(now));
  }

  lemma RecoverKeeps(cfg: Config, p: Progress)
    requires Ruled(cfg, p) && Permits(cfg, p.node) && !p.node.own.vehicleMode
    requires !p.node.own.cameraDisabled && !p.node.own.radarDisabled && Read(p.log).stage == UnderWay
    requires p.log != [] && p.log[|p.log| - 1].NoOutputConfirmed?
    ensures var q := Recover(p);
            && Sound(cfg, q) && Read(q.log).loop == Read(p.log).loop && Read(q.log).stage == AtRest
            && GivenBack(q) && !q.node.own.recoveryPending && !q.node.own.retry.pending
  {
    hide Read, Lawful;
    NoteKeeps(p, Recover(p).node, Recovered);
  }

  /** The guarded section of a retry keeps the ledger: an attempt is noted only when it is due. */
  lemma CheckRetryKeeps(cfg: Config, p: Progress, now: int)
    requires Sound(cfg, p) && Read(p.log).stage == AtRest
    ensures var q := CheckRetry(p, now).0;
            && Sound(cfg, q) && Read(q.log).loop == Read(p.log).loop
            && Read(q.log).stage == (if CheckRetry(p, now).1 then FoundDue else AtRest)
            && q.node == p.node.(own := p.node.own.(retry := q.node.own.retry))
  {
    hide Read, Lawful;
    var retry := Request(p.node.own.retry, now);
    if RetryWanted(p.node) && Due(retry, now) {
      NoteKeeps(p, p.node.(own := p.node.own.(retry := retry)), RetryDue(now));
    }
  }

  // ----- The order of a restoration -----

  /** `b` is `a` and then actions none of which is an observed resumption. */
  predicate AddsNoResumption(a: Log, b: Log) {
    a <= b && forall k :: |a| <= k < |b| ==> !b[k].Resumed?
  }

  /** `b` is `a` and then actions none of which is a diagnostic request. */
  predicate AddsNoRequest(a: Log, b: Log) {
    a <= b && forall k :: |a| <= k < |b| ==> !b[k].Uds?
  }

  /** Between `a` and `b` the ECU got the three requests that re-enable it. */
  predicate Asked(a: Log, b: Log, ecu: Ecu) {
    exists k :: |a| <= k < |b| - 2 && AskedAt(b, ecu, k)
  }

  predicate AskedAt(b: Log, ecu: Ecu, k: nat)
    requires k + 2 < |b|
  {
    && b[k] == Uds(ecu, ExtendedSession) && b[k + 1] == Uds(ecu, EnableCommunication)
    && b[k + 2] == Uds(ecu, DefaultSession)
  }

  lemma AskedLater(a: Log, b: Log, c: Log, d: Log, ecu: Ecu)
    requires Asked(b, c, ecu) && a <= b && c <= d
    ensures Asked(a, d, ecu)
  {
    var k :| |b| <= k < |c| - 2 && AskedAt(c, ecu, k);
    assert AskedAt(d, ecu, k);
  }

  /** The environment's answers to the requests of one ECU. */
  predicate Answers(env: RestoreEnv) { env.session && env.enable && env.default }

  lemma FirstPassAsks(e: Effort, ecu: Ecu, env: RestoreEnv, beat: bool)
    requires e.p.node.own.retry.failures == 0
    ensures var f := RestoreAndBeat(e, ecu, env, beat);
            && AddsNoResumption(e.p.log, f.p.log) && f.p.node == e.p.node
            && (Disabled(e.p.node, ecu) && Answers(env) ==> Asked(e.p.log, f.p.log, ecu))
            && (Disabled(e.p.node, ecu) && !Answers(env) ==> f.errors) && (e.errors ==> f.errors)
  {
    if Disabled(e.p.node, ecu) && Answers(env) {
      assert AskedAt(RestoreAndBeat(e, ecu, env, beat).p.log, ecu, |e.p.log|);
    }
  }

  lemma SecondPassWatches(e: Effort, ecu: Ecu, frames: nat)
    ensures var f := Confirm(e, ecu, frames); AddsNoRequest(e.p.log, f.p.log) && (e.errors ==> f.errors)
  {
  }

  /** Every flagged ECU is asked: its three requests are in the log, or one of them failed and the attempt
      reports errors. */
  predicate FlaggedAsked(p: Progress, asked: Log, ecu: Ecu, env: RestoreEnv, errors: bool) {
    Disabled(p.node, ecu) ==> if Answers(env) then Asked(p.log, asked, ecu) else errors
  }

  lemma PassesInTurn(e: Effort, env: NoOutputEnv) returns (asked: Log)
    requires e.p.node.own.retry.failures == 0
    ensures var f := RestoreEcus(e, env);
            && AddsNoResumption(e.p.log, asked) && AddsNoRequest(asked, f.p.log)
            && FlaggedAsked(e.p, asked, Radar, env.radar, f.errors)
            && FlaggedAsked(e.p, asked, Camera, env.camera, f.errors)
            && (e.errors ==> f.errors)
  {
    hide RestoreAndBeat, Confirm, Asked;
    FirstPassAsks(e, Radar, env.radar, env.radarHeartbeat);
    var e1 := RestoreAndBeat(e, Radar, env.radar, env.radarHeartbeat);
    FirstPassAsks(e1, Camera, env.camera, env.cameraHeartbeat);
    var e2 := RestoreAndBeat(e1, Camera, env.camera, env.cameraHeartbeat);
    asked := e2.p.log;
    if Asked(e.p.log, e1.p.log, Radar) { AskedLater(e.p.log, e.p.log, e1.p.log, asked, Radar); }
    if Asked(e1.p.log, asked, Camera) { AskedLater(e.p.log, e1.p.log, asked, asked, Camera); }
    SecondPassWatches(e2, Radar, env.radarFrames);
    SecondPassWatches(Confirm(e2, Radar, env.radarFrames), Camera, env.cameraFrames);
  }

  lemma ConfirmNoOutputAsksNothing(cfg: Config, p: Progress, env: NoOutputEnv)
    ensures var q := ConfirmNoOutput(cfg, p, env).p; AddsNoRequest(p.log, q.log) && AddsNoResumption(p.log, q.log)
  {
  }

  lemma RestoreFlaggedAsks(cfg: Config, e: Effort, preserve: bool, env: NoOutputEnv) returns (asked: Log)
    requires e.p.node.own.retry.failures == 0
    ensures var f := RestoreFlagged(cfg, e, preserve, env);
            && AddsNoResumption(e.p.log, asked) && AddsNoRequest(asked, f.p.log) && (e.errors ==> f.errors)
            && (env.elm ==> FlaggedAsked(e.p, asked, Radar, env.radar, f.errors) &&
                            FlaggedAsked(e.p, asked, Camera, env.camera, f.errors))
            && (!env.elm && (e.p.node.own.cameraDisabled || e.p.node.own.radarDisabled) ==> f.errors)
  {
    hide RestoreEcus, Asked;
    asked := e.p.log;
    if e.p.node.own.cameraDisabled || e.p.node.own.radarDisabled {
      var mode := Mode(ELM327, if preserve then cfg.safety.requiredSafetyParam else ELM327_ECAN_PARAM);
      var elm := Continue(Try(e.p, env.elm, mode), e.errors);
      if env.elm {
        asked := PassesInTurn(elm, env);
        if Asked(elm.p.log, asked, Radar) { AskedLater(e.p.log, elm.p.log, asked, asked, Radar); }
        if Asked(elm.p.log, asked, Camera) { AskedLater(e.p.log, elm.p.log, asked, asked, Camera); }
      }
    }
  }

  lemma FlaggedAskedFrom(p: Progress, q: Progress, asked: Log, ecu: Ecu, env: RestoreEnv, errors: bool, later: bool)
    requires FlaggedAsked(q, asked, ecu, env, errors) && p.log <= q.log && (errors ==> later)
    requires Disabled(p.node, ecu) == Disabled(q.node, ecu)
    ensures FlaggedAsked(p, asked, ecu, env, later)
  {
    hide Asked;
    if Asked(q.log, asked, ecu) {
      AskedLater(p.log, q.log, asked, asked, ecu);
    }
  }

  /** The first attempt of an outage asks every flagged ECU, and asks both before either is declared
      restored: silencing the camera also silences the radar's frame, so a radar that has acknowledged proves
      nothing yet. Without diagnostic mode nobody is asked and the attempt fails. */
  lemma BothAskedBeforeEitherConfirmed(cfg: Config, p: Progress, env: NoOutputEnv) returns (asked: Log)
    requires Request(p.node.own.retry, env.now).failures == 0
    ensures var r := EnterNoOutput(cfg, p, env);
            && AddsNoResumption(p.log, asked) && AddsNoRequest(asked, r.p.log)
            && (env.elm ==> FlaggedAsked(p, asked, Radar, env.radar, r.Failed?) &&
                            FlaggedAsked(p, asked, Camera, env.camera, r.Failed?))
            && (!env.elm && (p.node.own.cameraDisabled || p.node.own.radarDisabled) ==> r.Failed?)
  {
    hide RestoreFlagged, ConfirmNoOutput, FlaggedAsked;
    var beat := Continue(Try(BeginRecovery(p, env.now), env.heartbeat, Heartbeat), false);
    asked := RestoreFlaggedAsks(cfg, beat, p.node.want.preserveSession, env);
    var restored := RestoreFlagged(cfg, beat, p.node.want.preserveSession, env);
    ConfirmNoOutputAsksNothing(cfg, restored.p, env);
    var failed := EnterNoOutput(cfg, p, env).Failed?;
    if env.elm {
      FlaggedAskedFrom(p, beat.p, asked, Radar, env.radar, restored.errors, failed);
      FlaggedAskedFrom(p, beat.p, asked, Camera, env.camera, restored.errors, failed);
    }
  }
}
