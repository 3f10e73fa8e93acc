/** Which answers a section of EcuSections.dfy needs, what it then writes and which flags it leaves: written out in
    the fields of the vehicle, the flags and the answers alone. */
module EcuAnswers {
  import opened EcuLedger
  import opened EcuSections
  import S = Supervisor

  // ----- Disarming and the arm service -----

  /** Every flag after an internal disarm. */
  lemma DisarmExactly(p: Progress, requireRearm: bool)
    ensures var n, q := p.node, RequestInternalDisarm(p, requireRearm);
            var inhibits := requireRearm && (n.want.requestedArm || n.want.appliedArm || n.own.vehicleMode);
            && q.log == p.log + [InternalDisarm(requireRearm)]
            && q.node == n.(own := n.own.(recoveryPending := true),
                            want := Intent(false, n.want.appliedArm, n.want.autoArmInhibited || inhibits,
                                           n.want.rearmRequired || inhibits, n.want.generation + 1, false, false,
                                           n.want.operatorDisarmed, false))
  {
  }

  /** Every flag after a service call, refused or not. */
  lemma ServiceExactly(cfg: Config, p: Progress, arm: bool)
    ensures var n, q := p.node, ArmService(cfg, p, arm);
            if arm && (!cfg.safety.allowActuation || n.own.recoveryPending) then q == p
            else
              && q.log == p.log + [ServiceCall(arm)]
              && q.node == n.(want := Intent(arm, n.want.appliedArm, !arm, n.want.rearmRequired && !arm,
                                             n.want.generation + 1, false, false, !arm, false))
  {
  }

  // ----- Takeover -----

  /** Not known to stand still, or faster than 0.5 km/h. */
  predicate InMotion(v: S.Vehicle) { !v.standstill || v.speed > 0.5 / 3.6 }

  /** What refuses a takeover before anything is sent to an ECU. */
  predicate Refuses(cfg: Config, n: Node, v: S.Vehicle, gapResume: bool, env: TakeoverEnv) {
    || n.own.recoveryPending
    || !v.valid || v.epsFault
    || (InMotion(v) &&
        !(cfg.safety.resumeOnCommandReturn && gapResume && (n.want.gapQualified || n.want.buttonTakeover)))
    || (cfg.safety.allowLongitudinal && (v.gear != 5 || !env.template))
    || !env.heartbeat
  }

  /** Out of vehicle mode a takeover leaves node and car alone exactly when one of these refuses it. */
  lemma TakeoverRefusedExactly(cfg: Config, p: Progress, v: S.Vehicle, gapResume: bool, env: TakeoverEnv)
    requires !p.node.own.vehicleMode
    ensures EnterVehicleMode(cfg, p, v, gapResume, env) == Failed(p) <==> Refuses(cfg, p.node, v, gapResume, env)
  {
    hide DisableAndBeat, SwitchToVehicleMode;
    if !Refuses(cfg, p.node, v, gapResume, env) {
      BeatStays(cfg, p, v, env);
    }
  }

  lemma BeatStays(cfg: Config, p: Progress, v: S.Vehicle, env: TakeoverEnv)
    requires env.heartbeat
    ensures var s := SilenceEcus(cfg, p, v, env);
            |s.p.log| > |p.log| && (s.Done? ==> |SwitchToVehicleMode(cfg, s.p, env).p.log| > |p.log|)
  {
    hide DisableAndBeat;
    SilencingGrows(p, v, env);
    var mode := Mode(ELM327, if cfg.safety.resumeOnCommandReturn then cfg.safety.requiredSafetyParam
                             else ELM327_ECAN_PARAM);
    SilencingGrows(Note(Note(p, Heartbeat), mode), v, env);
    var elm := Note(Note(p, Heartbeat), mode);
    SilencingGrows(DisableAndBeat(elm, Camera, v, env.camera, env.cameraHeartbeat).p, v, env);
  }

  lemma SilencingGrows(p: Progress, v: S.Vehicle, env: TakeoverEnv)
    ensures |DisableAndBeat(p, Camera, v, env.camera, env.cameraHeartbeat).p.log| >= |p.log|
    ensures |DisableAndBeat(p, Radar, v, env.radar, env.radarHeartbeat).p.log| >= |p.log|
  {
  }

  /** Every answer that silencing one ECU asks for. */
  predicate Yields(env: DisableEnv) {
    env.session && env.silence == Returned && env.tester && env.maintain && env.observed == 0
  }

  /** What silencing one ECU writes. */
  function SilencingOf(ecu: Ecu, v: S.Vehicle): Log {
    [Uds(ecu, ExtendedSession), Silence(ecu, v.standstill, v.speed, true), TesterPresent(ecu), Quiet(ecu), Heartbeat]
  }

  lemma SilencesExactly(p: Progress, ecu: Ecu, v: S.Vehicle, env: DisableEnv, beat: bool)
    requires !Disabled(p.node, ecu)
    ensures var r := DisableAndBeat(p, ecu, v, env, beat);
            && (r.Done? <==> Yields(env) && beat)
            && (r.Done? ==>
                  r.p == Progress(p.node.(own := SetDisabled(p.node.own, ecu, true)), p.log + SilencingOf(ecu, v)))
  {
  }

  /** How far silencing an ECU gets, and what it leaves: nothing for a flagged one, and otherwise a prefix of the four
      actions; the flag goes up with a silencing that returns, whatever fails after it. */
  lemma DisableExactly(p: Progress, ecu: Ecu, v: S.Vehicle, env: DisableEnv)
    ensures var r := DisableEcu(p, ecu, v, env);
            var session := if env.session then [Uds(ecu, ExtendedSession)] else [];
            var silenced := if env.session && env.silence != NotSent
                            then [Silence(ecu, v.standstill, v.speed, env.silence == Returned)] else [];
            var flags := env.session && env.silence == Returned;
            var tested := if flags && env.tester then [TesterPresent(ecu)] else [];
            if Disabled(p.node, ecu) then r == Done(p)
            else
              && (r.Done? <==> Yields(env))
              && r.p.node == (if flags then p.node.(own := SetDisabled(p.node.own, ecu, true)) else p.node)
              && r.p.log == p.log + session + silenced + tested + (if Yields(env) then [Quiet(ecu)] else [])
  {
  }

  /** Every answer that a takeover asks for after its checks. */
  predicate AllYield(cfg: Config, env: TakeoverEnv) {
    && env.elm && Yields(env.camera) && env.cameraHeartbeat
    && (cfg.safety.allowLongitudinal ==>
          Yields(env.radar) && env.radarHeartbeat && env.templateAccepted && env.probe && env.probeAccepted)
    && env.mode && env.ready && env.confirmed && env.maintain
  }

  /** What a takeover writes, in longitudinal mode and without it. */
  function TakeoverLog(cfg: Config, v: S.Vehicle): Log {
    var param := cfg.safety.requiredSafetyParam;
    [Heartbeat, Mode(3, if cfg.safety.resumeOnCommandReturn then param else 1)] + SilencingOf(Camera, v) +
    if cfg.safety.allowLongitudinal
    then SilencingOf(Radar, v) + [Mode(28, param), Sent(0x1A0, Probe), TakenOver(true)]
    else [Mode(28, param), TakenOver(false)]
  }

  lemma ChecksExactly(cfg: Config, p: Progress, v: S.Vehicle, gapResume: bool, env: TakeoverEnv)
    ensures var r := MayTakeOver(cfg, p, v, gapResume, env);
            r.p == p && (r.Done? && env.heartbeat <==> !Refuses(cfg, p.node, v, gapResume, env))
  {
  }

  /** The flags after the ECUs that the mode needs have been silenced. */
  function AllDisabled(cfg: Config, own: Custody): Custody {
    own.(cameraDisabled := true, radarDisabled := own.radarDisabled || cfg.safety.allowLongitudinal)
  }

  lemma SilenceBothExactly(cfg: Config, p: Progress, v: S.Vehicle, env: TakeoverEnv)
    requires !p.node.own.cameraDisabled && !p.node.own.radarDisabled
    ensures var r := SilenceBoth(cfg, p, v, env);
            && (r.Done? <==> Yields(env.camera) && env.cameraHeartbeat &&
                             (cfg.safety.allowLongitudinal ==> Yields(env.radar) && env.radarHeartbeat))
            && (r.Done? ==>
                  && r.p.node == p.node.(own := AllDisabled(cfg, p.node.own))
                  && r.p.log == p.log + SilencingOf(Camera, v)
                                      + (if cfg.safety.allowLongitudinal then SilencingOf(Radar, v) else []))
  {
    hide DisableAndBeat, Yields, SilencingOf;
    SilencesExactly(p, Camera, v, env.camera, env.cameraHeartbeat);
    var camera := DisableAndBeat(p, Camera, v, env.camera, env.cameraHeartbeat);
    if camera.Done? {
      SilencesExactly(camera.p, Radar, v, env.radar, env.radarHeartbeat);
    }
  }

  lemma SilenceAllExactly(cfg: Config, p: Progress, v: S.Vehicle, env: TakeoverEnv)
    requires !p.node.own.cameraDisabled && !p.node.own.radarDisabled && env.heartbeat
    ensures var r := SilenceEcus(cfg, p, v, env);
            && (r.Done? <==> env.elm && Yields(env.camera) && env.cameraHeartbeat &&
                             (cfg.safety.allowLongitudinal ==> Yields(env.radar) && env.radarHeartbeat))
            && (r.Done? ==>
                  && r.p.node == p.node.(own := AllDisabled(cfg, p.node.own))
                  && r.p.log == p.log
                       + [Heartbeat, Mode(3, if cfg.safety.resumeOnCommandReturn
                                             then cfg.safety.requiredSafetyParam else 1)]
                       + SilencingOf(Camera, v)
                       + (if cfg.safety.allowLongitudinal then SilencingOf(Radar, v) else []))
  {
    hide SilenceBoth, Yields, SilencingOf, AllDisabled;
    SilenceBothExactly(cfg, Note(Note(p, Heartbeat),
                       Mode(3, if cfg.safety.resumeOnCommandReturn then cfg.safety.requiredSafetyParam else 1)),
                       v, env);
  }

  /** What the switch to the vehicle profile asks for and writes. */
  lemma SwitchExactly(cfg: Config, p: Progress, env: TakeoverEnv)
    ensures var longitudinal, param := cfg.safety.allowLongitudinal, cfg.safety.requiredSafetyParam;
            var r := SwitchToVehicleMode(cfg, p, env);
            && (r.Done? <==> (longitudinal ==> env.templateAccepted && env.probe && env.probeAccepted) &&
                             env.mode && env.ready && env.confirmed && env.maintain)
            && (r.Done? ==>
                  && r.p.log == p.log + [Mode(28, param)] + (if longitudinal then [Sent(0x1A0, Probe)] else [])
                                      + [TakenOver(longitudinal)]
                  && r.p.node == p.node.(own := p.node.own.(vehicleMode := true,
                                                            hasTemplate := p.node.own.hasTemplate || longitudinal),
                                         want := p.node.want.(buttonTakeover := false)))
  {
  }

  /** From a state with neither ECU flagged a takeover succeeds exactly when nothing refuses it and every answer
      is given; it has then written exactly this and silenced every ECU that its mode needs. */
  lemma TakeoverExactly(cfg: Config, p: Progress, v: S.Vehicle, gapResume: bool, env: TakeoverEnv)
    requires !p.node.own.vehicleMode && !p.node.own.cameraDisabled && !p.node.own.radarDisabled
    ensures var r := EnterVehicleMode(cfg, p, v, gapResume, env);
            && (r.Done? <==> !Refuses(cfg, p.node, v, gapResume, env) && AllYield(cfg, env))
            && (r.Done? ==>
                  && r.p.log == p.log + TakeoverLog(cfg, v)
                  && r.p.node.own == AllDisabled(cfg, p.node.own).(vehicleMode := true,
                                                                   hasTemplate := r.p.node.own.hasTemplate)
                  && r.p.node.connected == p.node.connected
                  && r.p.node.want == p.node.want.(buttonTakeover := false))
  {
    hide MayTakeOver, SilenceEcus, SwitchToVehicleMode, Refuses, Yields, SilencingOf;
    ChecksExactly(cfg, p, v, gapResume, env);
    if MayTakeOver(cfg, p, v, gapResume, env).Done? {
      if env.heartbeat {
        SilenceAllExactly(cfg, p, v, env);
        SwitchExactly(cfg, SilenceEcus(cfg, p, v, env).p, env);
      } else {
        NoBeat(cfg, p, v, env);
      }
    }
  }

  /** In vehicle mode there is nothing to take over. */
  lemma TakenAlready(cfg: Config, p: Progress, v: S.Vehicle, gapResume: bool, env: TakeoverEnv)
    requires p.node.own.vehicleMode
    ensures EnterVehicleMode(cfg, p, v, gapResume, env) == Done(p)
  {
  }

  lemma NoBeat(cfg: Config, p: Progress, v: S.Vehicle, env: TakeoverEnv)
    requires !env.heartbeat
    ensures SilenceEcus(cfg, p, v, env).Failed?
  {
  }

  // ----- Restoration -----

  /** What giving one ECU back asks for: after an earlier failure stock frames that are back already, otherwise
      three acknowledged requests and new stock frames; a heartbeat in between. */
  predicate GivesBack(flagged: bool, failures: nat, env: RestoreEnv, beat: bool, frames: nat) {
    flagged ==>
      beat && ((failures > 0 && env.seenBefore > 0) || (env.session && env.enable && env.default && frames > 0))
  }

  /** The failures of the outage that this attempt belongs to. */
  function FailuresSoFar(n: Node): nat { if n.own.retry.pending then n.own.retry.failures else 0 }

  /** Every answer that a restoration asks for. */
  predicate Restores(cfg: Config, n: Node, env: NoOutputEnv) {
    var preserved := n.want.preserveSession;
    var profiled := preserved || (cfg.safety.resumeOnCommandReturn && !n.want.operatorDisarmed);
    && env.heartbeat && (n.own.cameraDisabled || n.own.radarDisabled ==> env.elm)
    && GivesBack(n.own.cameraDisabled, FailuresSoFar(n), env.camera, env.cameraHeartbeat, env.cameraFrames)
    && GivesBack(n.own.radarDisabled, FailuresSoFar(n), env.radar, env.radarHeartbeat, env.radarFrames)
    && (profiled && !preserved && cfg.safety.requiredSafetyParam != 0 ==> env.cleared)
    && env.standby && env.readBack
  }

  predicate FirstPass(flagged: bool, failures: nat, env: RestoreEnv, beat: bool) {
    flagged ==> beat && ((failures > 0 && env.seenBefore > 0) || (env.session && env.enable && env.default))
  }

  predicate StillFlagged(flagged: bool, failures: nat, env: RestoreEnv) {
    flagged && !(failures > 0 && env.seenBefore > 0)
  }

  /** What a pass over one ECU leaves alone. */
  predicate OtherStays(n: Node, m: Node, ecu: Ecu) {
    && m.want == n.want && m.own.retry == n.own.retry
    && (if ecu == Camera then m.own.radarDisabled == n.own.radarDisabled
        else m.own.cameraDisabled == n.own.cameraDisabled)
  }

  lemma RequestsExactly(p: Progress, ecu: Ecu, env: RestoreEnv)
    ensures var r := RestoreEcu(p, ecu, env);
            var flagged, failures := Disabled(p.node, ecu), p.node.own.retry.failures;
            && (r.Done? <==> FirstPass(flagged, failures, env, true))
            && Disabled(r.p.node, ecu) == StillFlagged(flagged, failures, env) && OtherStays(p.node, r.p.node, ecu)
  {
    hide SettleDebt, OtherStays;
    SettlesOne(p, ecu, env.seenBefore);
    OtherStaysAlone(p.node, ecu);
  }

  lemma SettlesOne(p: Progress, ecu: Ecu, frames: nat)
    ensures var q := SettleDebt(p, ecu, frames); !Disabled(q.node, ecu) && OtherStays(p.node, q.node, ecu)
  {
  }

  lemma OtherStaysAlone(n: Node, ecu: Ecu)
    ensures OtherStays(n, n, ecu)
  {
  }

  lemma FirstPassExactly(e: Effort, ecu: Ecu, env: RestoreEnv, beat: bool)
    ensures var f := RestoreAndBeat(e, ecu, env, beat);
            var flagged, failures := Disabled(e.p.node, ecu), e.p.node.own.retry.failures;
            && (f.errors <==> e.errors || !FirstPass(flagged, failures, env, beat))
            && Disabled(f.p.node, ecu) == StillFlagged(flagged, failures, env) && OtherStays(e.p.node, f.p.node, ecu)
  {
    hide RestoreEcu;
    RequestsExactly(e.p, ecu, env);
  }

  lemma SecondPassExactly(e: Effort, ecu: Ecu, frames: nat)
    ensures var f := Confirm(e, ecu, frames);
            (f.errors <==> e.errors || (Disabled(e.p.node, ecu) && frames == 0)) && OtherStays(e.p.node, f.p.node, ecu)
  {
  }

  lemma BothPassesExactly(e: Effort, env: NoOutputEnv)
    ensures var n, failures := e.p.node.own, e.p.node.own.retry.failures;
            RestoreEcus(e, env).errors <==>
              || e.errors
              || !GivesBack(n.radarDisabled, failures, env.radar, env.radarHeartbeat, env.radarFrames)
              || !GivesBack(n.cameraDisabled, failures, env.camera, env.cameraHeartbeat, env.cameraFrames)
    ensures RestoreEcus(e, env).p.node.want == e.p.node.want
  {
    hide RestoreAndBeat, Confirm;
    FirstPassExactly(e, Radar, env.radar, env.radarHeartbeat);
    var e1 := RestoreAndBeat(e, Radar, env.radar, env.radarHeartbeat);
    FirstPassExactly(e1, Camera, env.camera, env.cameraHeartbeat);
    var e2 := RestoreAndBeat(e1, Camera, env.camera, env.cameraHeartbeat);
    SecondPassExactly(e2, Radar, env.radarFrames);
    SecondPassExactly(Confirm(e2, Radar, env.radarFrames), Camera, env.cameraFrames);
  }

  lemma StandbyExactly(cfg: Config, p: Progress, env: NoOutputEnv)
    ensures var preserved := p.node.want.preserveSession;
            var profiled := preserved || (cfg.safety.resumeOnCommandReturn && !p.node.want.operatorDisarmed);
            ConfirmNoOutput(cfg, p, env).Done? <==>
              && (profiled && !preserved && cfg.safety.requiredSafetyParam != 0 ==> env.cleared)
              && env.standby && env.readBack
  {
  }

  /** A restoration succeeds exactly when every answer that it asks for is given, whatever state it starts in. */
  lemma RestorationSucceedsExactly(cfg: Config, p: Progress, env: NoOutputEnv)
    ensures EnterNoOutput(cfg, p, env).Done? <==> Restores(cfg, p.node, env)
  {
    hide RestoreEcus, ConfirmNoOutput, GivesBack;
    var beat := Continue(Try(BeginRecovery(p, env.now), env.heartbeat, Heartbeat), false);
    var mode := Mode(ELM327, if p.node.want.preserveSession then cfg.safety.requiredSafetyParam else ELM327_ECAN_PARAM);
    var elm := Continue(Try(beat.p, env.elm, mode), beat.errors);
    BothPassesExactly(elm, env);
    NothingFlaggedGivesBack(env);
    StandbyExactly(cfg, RestoreFlagged(cfg, beat, p.node.want.preserveSession, env).p, env);
  }

  lemma NothingFlaggedGivesBack(env: NoOutputEnv)
    ensures forall failures :: GivesBack(false, failures, env.camera, env.cameraHeartbeat, env.cameraFrames)
    ensures forall failures :: GivesBack(false, failures, env.radar, env.radarHeartbeat, env.radarFrames)
  {
  }

  /** The flags that a restoration leaves, by success and failure. */
  lemma RestorationFlags(cfg: Config, p: Progress, env: NoOutputEnv)
    ensures var r := EnterNoOutput(cfg, p, env);
            && !r.p.node.own.vehicleMode && !r.p.node.own.hasTemplate && r.p.node.own.recoveryPending == r.Failed?
            && r.p.node.want == if r.Failed? then p.node.want.(autoArmInhibited := true, rearmRequired := true)
                                else p.node.want
  {
    hide RestoreAndBeat, Confirm, ConfirmNoOutput;
    var beat := Continue(Try(BeginRecovery(p, env.now), env.heartbeat, Heartbeat), false);
    var mode := Mode(ELM327, if p.node.want.preserveSession then cfg.safety.requiredSafetyParam else ELM327_ECAN_PARAM);
    PassesLeave(Continue(Try(beat.p, env.elm, mode), beat.errors), env);
    StandbyLeaves(cfg, RestoreFlagged(cfg, beat, p.node.want.preserveSession, env).p, env);
  }

  /** Neither pass touches what is not an ECU's flag. */
  predicate LeavesRest(n: Node, m: Node) {
    && m.want == n.want && m.own.vehicleMode == n.own.vehicleMode && m.own.recoveryPending == n.own.recoveryPending
    && m.connected == n.connected && m.own.retry == n.own.retry && m.own.hasTemplate == n.own.hasTemplate
  }

  lemma SettlingLeaves(p: Progress, ecu: Ecu, frames: nat)
    ensures LeavesRest(p.node, SettleDebt(p, ecu, frames).node) && LeavesRest(p.node, p.node)
  {
  }

  lemma RequestsLeave(p: Progress, ecu: Ecu, env: RestoreEnv)
    ensures LeavesRest(p.node, RestoreEcu(p, ecu, env).p.node)
  {
    hide SettleDebt, LeavesRest;
    SettlingLeaves(p, ecu, env.seenBefore);
  }

  lemma PassLeaves(e: Effort, ecu: Ecu, env: RestoreEnv, beat: bool, frames: nat)
    ensures LeavesRest(e.p.node, RestoreAndBeat(e, ecu, env, beat).p.node)
    ensures LeavesRest(e.p.node, Confirm(e, ecu, frames).p.node)
  {
    hide SettleDebt, RestoreEcu, LeavesRest;
    SettlingLeaves(e.p, ecu, frames);
    RequestsLeave(e.p, ecu, env);
  }

  lemma PassesLeave(e: Effort, env: NoOutputEnv)
    ensures LeavesRest(e.p.node, RestoreEcus(e, env).p.node)
  {
    hide RestoreAndBeat, Confirm;
    var e1 := RestoreAndBeat(e, Radar, env.radar, env.radarHeartbeat);
    var e2 := RestoreAndBeat(e1, Camera, env.camera, env.cameraHeartbeat);
    PassLeaves(e, Radar, env.radar, env.radarHeartbeat, 0);
    PassLeaves(e1, Camera, env.camera, env.cameraHeartbeat, 0);
    PassLeaves(e2, Radar, env.radar, true, env.radarFrames);
    PassLeaves(Confirm(e2, Radar, env.radarFrames), Camera, env.camera, true, env.cameraFrames);
  }

  lemma StandbyLeaves(cfg: Config, p: Progress, env: NoOutputEnv)
    ensures ConfirmNoOutput(cfg, p, env).p.node == p.node
  {
  }

  /** The requests that re-enable one ECU. */
  function RequestsTo(ecu: Ecu): Log {
    [Uds(ecu, ExtendedSession), Uds(ecu, EnableCommunication), Uds(ecu, DefaultSession), Heartbeat]
  }

  /** What the first attempt of an outage writes when it succeeds with both ECUs flagged: radar before camera in
      either pass, both asked before either is declared restored, then NO_OUTPUT. */
  lemma FirstRestorationWrites(cfg: Config, p: Progress, env: NoOutputEnv)
    requires p.node.own.cameraDisabled && p.node.own.radarDisabled && FailuresSoFar(p.node) == 0
    requires Restores(cfg, p.node, env)
    ensures var preserved := p.node.want.preserveSession;
            var q := if preserved || (cfg.safety.resumeOnCommandReturn && !p.node.want.operatorDisarmed)
                     then cfg.safety.requiredSafetyParam else 0;
            var r := EnterNoOutput(cfg, p, env);
            && r.Done?
            && r.p.log == p.log
                 + [RecoveryStarted(env.now), Heartbeat,
                    Mode(3, if preserved then cfg.safety.requiredSafetyParam else 1)]
                 + RequestsTo(Radar) + RequestsTo(Camera)
                 + [Resumed(Radar, env.radarFrames), Resumed(Camera, env.cameraFrames)]
                 + (if q != 0 && !preserved then [Mode(19, 0)] else [])
                 + [Mode(19, q), NoOutputConfirmed(q), Recovered]
  {
    hide RestoreEcus, ConfirmNoOutput;
    RestorationSucceedsExactly(cfg, p, env);
    var beat := Continue(Try(BeginRecovery(p, env.now), true, Heartbeat), false);
    var preserved := p.node.want.preserveSession;
    var mode := Mode(3, if preserved then cfg.safety.requiredSafetyParam else 1);
    var elm := Effort(Note(beat.p, mode), false);
    BothPassesWrite(elm, env);
    StandbyWrites(cfg, RestoreEcus(elm, env).p, env);
  }

  lemma BothPassesWrite(e: Effort, env: NoOutputEnv)
    requires e.p.node.own.cameraDisabled && e.p.node.own.radarDisabled && e.p.node.own.retry.failures == 0
    requires GivesBack(true, 0, env.radar, env.radarHeartbeat, env.radarFrames)
    requires GivesBack(true, 0, env.camera, env.cameraHeartbeat, env.cameraFrames)
    ensures var f := RestoreEcus(e, env);
            && f.errors == e.errors && f.p.node.want == e.p.node.want
            && f.p.log == e.p.log + RequestsTo(Radar) + RequestsTo(Camera)
                            + [Resumed(Radar, env.radarFrames), Resumed(Camera, env.cameraFrames)]
  {
    hide RestoreAndBeat;
    FirstPassWrites(e, Radar, env.radar, env.radarHeartbeat);
    var e1 := RestoreAndBeat(e, Radar, env.radar, env.radarHeartbeat);
    FirstPassWrites(e1, Camera, env.camera, env.cameraHeartbeat);
  }

  lemma FirstPassWrites(e: Effort, ecu: Ecu, env: RestoreEnv, beat: bool)
    requires Disabled(e.p.node, ecu) && e.p.node.own.retry.failures == 0
    requires env.session && env.enable && env.default && beat
    ensures RestoreAndBeat(e, ecu, env, beat) == Effort(Progress(e.p.node, e.p.log + RequestsTo(ecu)), e.errors)
  {
  }

  lemma StandbyWrites(cfg: Config, p: Progress, env: NoOutputEnv)
    requires ConfirmNoOutput(cfg, p, env).Done?
    ensures var preserved := p.node.want.preserveSession;
            var q := if preserved || (cfg.safety.resumeOnCommandReturn && !p.node.want.operatorDisarmed)
                     then cfg.safety.requiredSafetyParam else 0;
            ConfirmNoOutput(cfg, p, env).p.log ==
              p.log + (if q != 0 && !preserved then [Mode(19, 0)] else []) + [Mode(19, q), NoOutputConfirmed(q)]
  {
  }
}
