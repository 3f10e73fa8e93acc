/** The node's ECU sections as the class that src/node.cpp writes: flags that are rewritten step by step,
    calls that throw half-way, errors that are recorded while the section goes on. A thrown exception is
    the result `ok == false`. Each method is proved equal to its section in EcuSections.dfy, so the
    invariants of the sections and the theorems of ControlRuns.dfy hold of these bodies. */
module EcuObject {
  import opened EcuLedger
  import R = RecoveryRetryModel
  import S = Supervisor
  import M = EcuSections

  class EcuOwner {
    const cfg: M.Config
    /** What the outside world has seen. */
    ghost var log: Log

    var connected: bool
    var own: M.Custody
    var want: M.Intent
    /** The permissions of `latest_decision_`. */
    var lateralAllowed: bool
    var longitudinalAllowed: bool

    ghost function Abs(): M.Progress
      reads this
    {
      M.Progress(M.Node(connected, own, want, lateralAllowed, longitudinalAllowed), log)
    }

    constructor (cfg: M.Config)
      ensures this.cfg == cfg && Abs() == M.Beginning(cfg)
    {
      this.cfg := cfg;
      log := [Started(M.RulesOf(cfg))];
      connected, own, want := false, M.STARTED.own, M.STARTED.want;
      lateralAllowed, longitudinalAllowed := false, false;
    }

    /** A Panda or UDS call. */
    method Call(works: bool, ghost a: Action) returns (ok: bool)
      modifies this`log
      ensures ok == works
      ensures Abs() == M.Try(old(Abs()), works, a).p
    {
      if works { log := log + [a]; }
      ok := works;
    }

    /** The arming part of `request_internal_disarm`. */
    method DropIntent(requireRearm: bool)
      modifies this`want
      ensures want == M.Dropped(old(want), own.vehicleMode, requireRearm)
    {
      want := want.(preserveSession := false, gapQualified := false, buttonTakeover := false);
      var wasArmed := want.requestedArm || want.appliedArm || own.vehicleMode;
      want := want.(requestedArm := false);
      if wasArmed && requireRearm {
        want := want.(autoArmInhibited := true, rearmRequired := true);
      }
      want := want.(generation := want.generation + 1);
    }

    /** `request_internal_disarm`. */
    method RequestInternalDisarm(requireRearm: bool) returns (generation: nat)
      modifies this
      ensures Abs() == M.RequestInternalDisarm(old(Abs()), requireRearm)
      ensures generation == want.generation
    {
      hide M.Dropped;
      DropIntent(requireRearm);
      own := own.(recoveryPending := true);
      log := log + [InternalDisarm(requireRearm)];
      generation := want.generation;
    }

    /** `arm_callback`; `success` is what the service reports. */
    method ArmService(arm: bool) returns (success: bool)
      modifies this
      ensures Abs() == M.ArmService(cfg, old(Abs()), arm)
      ensures success == !(arm && (!cfg.safety.allowActuation || old(own.recoveryPending)))
    {
      if arm && !cfg.safety.allowActuation { return false; }
      if arm && own.recoveryPending { return false; }
      want := want.(autoArmInhibited := !arm, operatorDisarmed := !arm, buttonTakeover := false,
                    gapQualified := false, preserveSession := false);
      if arm { want := want.(rearmRequired := false); }
      want := want.(requestedArm := arm, generation := want.generation + 1);
      log := log + [ServiceCall(arm)];
      success := true;
    }

    predicate Flagged(ecu: Ecu)
      reads this
    {
      if ecu == Camera then own.cameraDisabled else own.radarDisabled
    }

    method SetFlag(ecu: Ecu, disabled: bool)
      modifies this`own
      ensures Abs() == M.WithOwn(old(Abs()), M.SetDisabled(old(own), ecu, disabled))
    {
      if ecu == Camera { own := own.(cameraDisabled := disabled); } else { own := own.(radarDisabled := disabled); }
    }

    // ----- Taking the ECUs over -----

    /** `disable_ecu`. */
    method DisableEcu(ecu: Ecu, v: S.Vehicle, env: M.DisableEnv) returns (ok: bool)
      modifies this
      ensures var r := M.DisableEcu(old(Abs()), ecu, v, env); ok == r.Done? && Abs() == r.p
    {
      if Flagged(ecu) { return true; }
      ok := Call(env.session, Uds(ecu, ExtendedSession));
      if !ok { return; }
      if env.silence.NotSent? { return false; }
      log := log + [Silence(ecu, v.standstill, v.speed, env.silence.Returned?)];
      if env.silence.SentThenThrew? { return false; }
      SetFlag(ecu, true);
      ok := Call(env.tester, TesterPresent(ecu));
      if !ok { return; }
      if !env.maintain { return false; }
      ok := Call(env.observed == 0, Quiet(ecu));
    }

    /** `enter_vehicle_safety_mode`. */
    method EnterVehicleSafetyMode(v: S.Vehicle, gapResume: bool, env: M.TakeoverEnv) returns (ok: bool)
      modifies this
      ensures var r := M.EnterVehicleMode(cfg, old(Abs()), v, gapResume, env); ok == r.Done? && Abs() == r.p
    {
      hide M.MayTakeOver, M.SilenceEcus, M.SwitchToVehicleMode;
      if own.vehicleMode { return true; }
      ok := MayTakeOver(v, gapResume, env);
      if !ok { return; }
      ok := SilenceEcus(v, env);
      if !ok { return; }
      ok := SwitchToVehicleMode(env);
    }

    /** Its checks. */
    method MayTakeOver(v: S.Vehicle, gapResume: bool, env: M.TakeoverEnv) returns (ok: bool)
      ensures var r := M.MayTakeOver(cfg, Abs(), v, gapResume, env); ok == r.Done? && Abs() == r.p
    {
      if own.recoveryPending { return false; }
      if !v.valid || v.epsFault { return false; }
      if (!v.standstill || v.speed > M.DISABLE_MAXIMUM_SPEED) &&
         !(gapResume && (want.gapQualified || want.buttonTakeover) && cfg.safety.resumeOnCommandReturn) {
        return false;
      }
      if cfg.safety.allowLongitudinal {
        if v.gear != M.DRIVE_GEAR { return false; }
        if !env.template { return false; }
      }
      ok := true;
    }

    /** Its diagnostic part. */
    method SilenceEcus(v: S.Vehicle, env: M.TakeoverEnv) returns (ok: bool)
      modifies this
      ensures var r := M.SilenceEcus(cfg, old(Abs()), v, env); ok == r.Done? && Abs() == r.p
    {
      hide M.DisableAndBeat;
      ok := Call(env.heartbeat, Heartbeat);
      if !ok { return; }
      ok := Call(env.elm, Mode(M.ELM327, if cfg.safety.resumeOnCommandReturn then cfg.safety.requiredSafetyParam
                                         else M.ELM327_ECAN_PARAM));
      if !ok { return; }
      ok := DisableAndBeat(Camera, v, env.camera, env.cameraHeartbeat);
      if !ok { return; }
      if cfg.safety.allowLongitudinal {
        ok := DisableAndBeat(Radar, v, env.radar, env.radarHeartbeat);
      }
    }

    method DisableAndBeat(ecu: Ecu, v: S.Vehicle, env: M.DisableEnv, beat: bool) returns (ok: bool)
      modifies this
      ensures var r := M.DisableAndBeat(old(Abs()), ecu, v, env, beat); ok == r.Done? && Abs() == r.p
    {
      hide M.DisableEcu;
      ok := DisableEcu(ecu, v, env);
      if !ok { return; }
      ok := Call(beat, Heartbeat);
    }

    /** The second half of `enter_vehicle_safety_mode`. */
    method SwitchToVehicleMode(env: M.TakeoverEnv) returns (ok: bool)
      modifies this
      ensures var r := M.SwitchToVehicleMode(cfg, old(Abs()), env); ok == r.Done? && Abs() == r.p
    {
      if cfg.safety.allowLongitudinal {
        if !env.templateAccepted { return false; }
        own := own.(hasTemplate := true);
      }
      ok := Call(env.mode, Mode(M.HYUNDAI_CANFD, cfg.safety.requiredSafetyParam));
      if !ok { return; }
      if !env.ready { return false; }
      if cfg.safety.allowLongitudinal {
        log := log + [Sent(M.SCC, Probe)];
        if !env.probe { return false; }
        if !env.probeAccepted { return false; }
      }
      if !env.confirmed { return false; }
      if !env.maintain { return false; }
      own := own.(vehicleMode := true);
      want := want.(buttonTakeover := false);
      log := log + [TakenOver(cfg.safety.allowLongitudinal)];
      ok := true;
    }

    // ----- Giving the ECUs back -----

    /** `restore_ecu`. */
    method RestoreEcu(ecu: Ecu, env: M.RestoreEnv) returns (ok: bool)
      modifies this
      ensures var r := M.RestoreEcu(old(Abs()), ecu, env); ok == r.Done? && Abs() == r.p
    {
      if !Flagged(ecu) { return true; }
      if own.retry.failures != 0 {
        if env.seenBefore != 0 {
          SetFlag(ecu, false);
          log := log + [Resumed(ecu, env.seenBefore)];
          return true;
        }
      }
      ok := Call(env.session, Uds(ecu, ExtendedSession));
      if !ok { return; }
      ok := Call(env.enable, Uds(ecu, EnableCommunication));
      if !ok { return; }
      ok := Call(env.default, Uds(ecu, DefaultSession));
    }

    /** `confirm_ecu_restored`. */
    method ConfirmEcuRestored(ecu: Ecu, frames: nat) returns (ok: bool)
      modifies this
      ensures var r := M.ConfirmEcuRestored(old(Abs()), ecu, frames); ok == r.Done? && Abs() == r.p
    {
      if !Flagged(ecu) { return true; }
      if frames == 0 { return false; }
      SetFlag(ecu, false);
      log := log + [Resumed(ecu, frames)];
      ok := true;
    }

    /** One `try` block of the first pass. */
    method RestoreAndBeat(ecu: Ecu, env: M.RestoreEnv, beat: bool, before: bool) returns (errors: bool)
      modifies this
      ensures M.Effort(Abs(), errors) == M.RestoreAndBeat(M.Effort(old(Abs()), before), ecu, env, beat)
    {
      hide M.RestoreEcu;
      if !Flagged(ecu) { return before; }
      var ok := RestoreEcu(ecu, env);
      if !ok { return true; }
      ok := Call(beat, Heartbeat);
      errors := before || !ok;
    }

    /** One `try` block of the second pass. */
    method Confirm(ecu: Ecu, frames: nat, before: bool) returns (errors: bool)
      modifies this
      ensures M.Effort(Abs(), errors) == M.Confirm(M.Effort(old(Abs()), before), ecu, frames)
    {
      hide M.ConfirmEcuRestored;
      var ok := ConfirmEcuRestored(ecu, frames);
      errors := before || !ok;
    }

    /** Both passes over the ECUs, with ELM327 ready. */
    method RestoreEcus(env: M.NoOutputEnv, before: bool) returns (errors: bool)
      modifies this
      ensures M.Effort(Abs(), errors) == M.RestoreEcus(M.Effort(old(Abs()), before), env)
    {
      hide M.RestoreAndBeat, M.Confirm;
      errors := RestoreAndBeat(Radar, env.radar, env.radarHeartbeat, before);
      errors := RestoreAndBeat(Camera, env.camera, env.cameraHeartbeat, errors);
      errors := Confirm(Radar, env.radarFrames, errors);
      errors := Confirm(Camera, env.cameraFrames, errors);
    }

    /** The NO_OUTPUT block of `enter_no_output_mode`. */
    method ConfirmNoOutput(env: M.NoOutputEnv) returns (ok: bool)
      modifies this
      ensures var r := M.ConfirmNoOutput(cfg, old(Abs()), env); ok == r.Done? && Abs() == r.p
    {
      var standbyParam := if want.preserveSession || (cfg.safety.resumeOnCommandReturn && !want.operatorDisarmed)
                          then cfg.safety.requiredSafetyParam else 0;
      if standbyParam != 0 && !want.preserveSession {
        ok := Call(env.cleared, Mode(M.NO_OUTPUT, 0));
        if !ok { return; }
      }
      ok := Call(env.standby, Mode(M.NO_OUTPUT, standbyParam));
      if !ok { return; }
      ok := Call(env.readBack, NoOutputConfirmed(standbyParam));
    }

    /** The first two blocks of `enter_no_output_mode`. */
    method BeginRecovery(now: int, works: bool) returns (errors: bool)
      modifies this
      ensures M.Effort(Abs(), errors) == M.Continue(M.Try(M.BeginRecovery(old(Abs()), now), works, Heartbeat), false)
    {
      own := own.(vehicleMode := false, recoveryPending := true, retry := R.Request(own.retry, now));
      log := log + [RecoveryStarted(now)];
      var beat := Call(works, Heartbeat);
      errors := !beat;
    }

    /** Its ELM327 and ECU blocks. */
    method RestoreFlagged(env: M.NoOutputEnv, before: bool) returns (errors: bool)
      modifies this
      ensures M.Effort(Abs(), errors) ==
              M.RestoreFlagged(cfg, M.Effort(old(Abs()), before), old(want.preserveSession), env)
    {
      hide M.RestoreEcus;
      errors := before;
      if own.cameraDisabled || own.radarDisabled {
        var elmReady := Call(env.elm, Mode(M.ELM327, if want.preserveSession then cfg.safety.requiredSafetyParam
                                                     else M.ELM327_ECAN_PARAM));
        errors := errors || !elmReady;
        if elmReady {
          errors := RestoreEcus(env, errors);
        }
      }
    }

    /** Its verdict. */
    method Conclude(errors: bool, failedAt: int) returns (ok: bool)
      modifies this
      ensures ok == !errors
      ensures var ended := M.WithOwn(old(Abs()), old(own).(hasTemplate := false));
              Abs() == if errors then M.GiveUp(ended, failedAt) else M.Recover(ended)
    {
      own := own.(hasTemplate := false);
      if errors {
        want := want.(autoArmInhibited := true, rearmRequired := true);
        own := own.(retry := R.Failed(own.retry, failedAt));
        log := log + [RecoveryFailed(failedAt)];
        return false;
      }
      own := own.(retry := R.Restored(own.retry), recoveryPending := false);
      log := log + [Recovered];
      ok := true;
    }

    /** `enter_no_output_mode`: every failed step is recorded and the section goes on. */
    method EnterNoOutputMode(env: M.NoOutputEnv) returns (ok: bool)
      modifies this
      ensures var r := M.EnterNoOutput(cfg, old(Abs()), env); ok == r.Done? && Abs() == r.p
    {
      hide M.RestoreFlagged, M.ConfirmNoOutput, M.GiveUp, M.Recover;
      var errors := BeginRecovery(env.now, env.heartbeat);
      errors := RestoreFlagged(env, errors);
      var confirmed := ConfirmNoOutput(env);
      errors := errors || !confirmed;
      ok := Conclude(errors, env.failedAt);
    }

    /** The guarded first section of `retry_no_output_recovery`. */
    method CheckRetry(now: int) returns (due: bool)
      modifies this`own, this`log
      ensures (Abs(), due) == M.CheckRetry(old(Abs()), now)
    {
      if !own.recoveryPending || want.requestedArm || want.appliedArm || own.vehicleMode || !connected { return false; }
      own := own.(retry := R.Request(own.retry, now));
      due := R.Due(own.retry, now);
      if due { log := log + [RetryDue(now)]; }
    }

    // ----- Raw transmission and the link -----

    /** `raw_can_tx_callback`, after the message has been parsed. */
    method RawCanTx(address: nat, wellFormed: bool)
      modifies this`log
      ensures Abs() == M.RawTransmit(cfg, old(Abs()), address, wellFormed)
    {
      if !cfg.allowRawTx || !wellFormed { return; }
      if address == M.LFA && !lateralAllowed { return; }
      if !own.vehicleMode || !connected || !longitudinalAllowed { return; }
      log := log + [Sent(address, Raw)];
    }

    /** The connection part of `receive_loop`. */
    method Connect()
      modifies this
      ensures Abs() == M.Connect(old(Abs()))
    {
      connected := true;
      own := own.(vehicleMode := false);
      log := log + [LinkChanged(true)];
      var restorePending := own.cameraDisabled || own.radarDisabled;
      if restorePending {
        var _ := RequestInternalDisarm(true);
      }
    }

    /** The error path of `receive_loop`. */
    method Disconnect()
      modifies this
      ensures Abs() == M.Disconnect(old(Abs()))
    {
      connected := false;
      own := own.(vehicleMode := false);
      log := log + [LinkChanged(false)];
      var _ := RequestInternalDisarm(true);
      want := want.(appliedArm := false);
      log := log + [Applied(false)];
    }
  }
}
