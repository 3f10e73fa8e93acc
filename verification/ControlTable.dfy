/** The loop of ControlLoop.dfy as a table: for every step the next phase, what the step writes and what the control
    thread remembers, over the raw flags, samples and answers. */
module ControlTable {
  import opened EcuLedger
  import opened EcuSections
  import opened ControlLoop
  import A = EcuAnswers
  import S = Supervisor

  /** Neither the control thread's own variables nor the supervisor change. */
  predicate OnlyPhase(w: World, t: World, phase: Phase) {
    t.sup == w.sup && t.local == w.local.(phase := phase)
  }

  /** A node starts at the head of its loop, disarmed, unconnected and owing nothing. */
  lemma InitialExactly(cfg: Config)
    ensures var w := Initial(cfg);
            && w.p.log == [Started(Rules(cfg.safety.allowActuation, cfg.safety.allowLongitudinal,
                                         cfg.safety.resumeOnCommandReturn, cfg.autoArmOnCommand, cfg.allowRawTx,
                                         cfg.safety.requiredSafetyParam))]
            && !w.p.node.connected && !w.p.node.permitsLateral && !w.p.node.permitsLongitudinal
            && w.p.node.own == Custody(false, false, false, false, w.p.node.own.retry, false)
            && !w.p.node.own.retry.pending
            && w.p.node.want == Intent(false, false, false, false, 0, false, false, false, false)
            && w.local.phase == Head && w.local.appliedGeneration == 0 && w.local.previous == S.Disconnected
            && w.local.frameIndex == 0 && w.local.laneKeepEvents == 0 && w.local.setEvents == 0
            && w.sup.control == S.Disconnected && !w.sup.armRequested && !w.sup.lateral && !w.sup.longitudinal
            && !w.sup.longitudinalLatchedOff && w.sup.lastLaneKeep == w.sup.lastSet == w.sup.lastCancel == 0
            && w.sup.lastTxBlocked == 0
  {
  }

  /** The command of the sample is young enough, valid and enabling. */
  predicate Enabling(cfg: Config, i: S.Inputs) {
    && i.command.receivedAt != 0 && 0 <= i.now - i.command.receivedAt <= cfg.safety.commandTimeout
    && i.command.valid && i.command.enable
  }

  lemma CommandIsEnabling(cfg: Config, i: S.Inputs)
    ensures Enabling(cfg, i) <==> Commanded(cfg, i)
  {
  }

  /** An attempt follows when one is owed, nobody asks for the ECUs, the link is up and its time has come. */
  lemma CheckExactly(cfg: Config, w: World, now: int)
    requires Enabled(w, Check(now))
    ensures var n, t := w.p.node, Next(cfg, w, Check(now));
            var due := n.own.recoveryPending && !n.want.requestedArm && !n.want.appliedArm && !n.own.vehicleMode &&
                       n.connected && (n.own.retry.pending ==> now >= n.own.retry.nextAttempt);
            && t.p.log == w.p.log + (if due then [RetryDue(now)] else [])
            && OnlyPhase(w, t, if w.local.phase == Head then (if due then Retry else Sampling)
                               else if due then MidRetry else Deciding)
  {
  }

  /** What follows a restoration: nothing after a retry, and an abort when an arm request's fails. */
  lemma RestoreExactly(cfg: Config, w: World, env: NoOutputEnv)
    requires Enabled(w, Restore(env)) && w.local.phase != GapRestore && w.local.phase != CleanRestore
    ensures var phase, t := w.local.phase, Next(cfg, w, Restore(env));
            var section := EnterNoOutput(cfg, w.p, env).p;
            if phase == ArmRestore && !A.Restores(cfg, w.p.node, env) then Aborted(cfg, w, section, t)
            else t.p == section && OnlyPhase(w, t, if phase == Retry then Sampling else Deciding)
  {
    hide EnterNoOutput, A.Restores, S.RequestArm;
    A.RestorationSucceedsExactly(cfg, w.p, env);
    EnterNoOutputKeepsLink(cfg, w.p, env);
  }

  /** An internal disarm when a gap's restoration fails; the record of the decision after a gap or a clean-up, which
      is skipped without a link. */
  lemma RestoreRecordsExactly(cfg: Config, w: World, env: NoOutputEnv)
    requires Enabled(w, Restore(env)) && (w.local.phase == GapRestore || w.local.phase == CleanRestore)
    ensures var n, d, gap, t := w.p.node, w.local.decision, w.local.phase == GapRestore, Next(cfg, w, Restore(env));
            var section := if !gap && !n.connected then w.p else EnterNoOutput(cfg, w.p, env).p;
            && t.p.log == section.log + (if gap && !A.Restores(cfg, n, env) then [InternalDisarm(true)] else [])
                          + [Published(d.lateralAllowed, d.longitudinalAllowed), Recorded(d.control)]
            && t.sup == w.sup && t.local == w.local.(phase := Head, previous := d.control)
  {
    hide EnterNoOutput, A.Restores, S.RequestArm;
    A.RestorationSucceedsExactly(cfg, w.p, env);
  }

  lemma EnterNoOutputKeepsLink(cfg: Config, p: Progress, env: NoOutputEnv)
    ensures EnterNoOutput(cfg, p, env).p.node.connected == p.node.connected
  {
    hide RestoreAndBeat, Confirm, ConfirmNoOutput;
    var beat := Continue(Try(BeginRecovery(p, env.now), env.heartbeat, Heartbeat), false);
    var mode := Mode(ELM327, if p.node.want.preserveSession then cfg.safety.requiredSafetyParam else ELM327_ECAN_PARAM);
    A.PassesLeave(Continue(Try(beat.p, env.elm, mode), beat.errors), env);
    A.StandbyLeaves(cfg, RestoreFlagged(cfg, beat, p.node.want.preserveSession, env).p, env);
  }

  /** The request is withdrawn, the supervisor disarmed, and a retry checked for over a live link. */
  predicate Aborted(cfg: Config, w: World, section: Progress, t: World) {
    && t.p.log == section.log + [InternalDisarm(true), Applied(false)]
    && t.sup == S.RequestArm(cfg.safety, w.sup, false)
    && t.local == w.local.(phase := if section.node.connected then MidCheck else Deciding)
  }

  /** A press since the last sample re-engages a node that a fault inhibits. */
  function Pressed(cfg: Config, w: World, v: S.Vehicle): Intent {
    var want := w.p.node.want;
    if (v.laneKeepEvents > w.local.laneKeepEvents || v.setEvents > w.local.setEvents) &&
       cfg.safety.resumeOnCommandReturn && !want.operatorDisarmed && !want.requestedArm &&
       (want.autoArmInhibited || want.rearmRequired)
    then want.(autoArmInhibited := false, rearmRequired := false, buttonTakeover := true)
    else want
  }

  /** Automatic arming asks. */
  predicate Arms(cfg: Config, pending: bool, want: Intent, i: S.Inputs, preflight: bool) {
    var p := i.panda;
    && cfg.autoArmOnCommand && cfg.safety.allowActuation && !want.requestedArm && !want.autoArmInhibited
    && !pending && i.vehicle.valid && !i.vehicle.epsFault && p.connected
    && if cfg.safety.resumeOnCommandReturn
       then p.ignitionOn && p.safetyMode == 19 && p.safetyParam == cfg.safety.requiredSafetyParam && p.sessionActive &&
            p.sessionReady && !p.sessionBlocked
       else Enabling(cfg, i) && preflight
  }

  /** A sample is taken over with its event counters, after its press and before automatic arming. */
  lemma SampleExactly(cfg: Config, w: World, i: S.Inputs, preflight: bool)
    requires Enabled(w, Sample(i, preflight))
    ensures var t := Next(cfg, w, Sample(i, preflight));
            var want := Pressed(cfg, w, i.vehicle);
            && t.sup == w.sup
            && t.p.node == w.p.node.(want := if !Arms(cfg, w.p.node.own.recoveryPending, want, i, preflight) then want
                                             else want.(requestedArm := true, generation := want.generation + 1))
            && t.local == w.local.(phase := Requesting, inputs := i, laneKeepEvents := i.vehicle.laneKeepEvents,
                                   setEvents := i.vehicle.setEvents)
  {
    hide PressBlock, Pressed, AutoArmReady, Arms;
    PressAgrees(cfg, w, i.vehicle);
    ArmsAgree(cfg, PressBlock(cfg, w.local, w.p, i.vehicle).node, i, preflight);
  }

  lemma PressAgrees(cfg: Config, w: World, v: S.Vehicle)
    ensures PressBlock(cfg, w.local, w.p, v).node == w.p.node.(want := Pressed(cfg, w, v))
  {
  }

  lemma ArmsAgree(cfg: Config, n: Node, i: S.Inputs, preflight: bool)
    ensures AutoArmReady(cfg, n, i, preflight) && !n.want.requestedArm <==>
            Arms(cfg, n.own.recoveryPending, n.want, i, preflight)
  {
  }

  /** Only a request that is newer than the applied one, and over a live link if it arms, is applied. One that the
      configuration refuses disarms. An accepted one goes on to the listener in resume mode without a session, to the
      takeover without resume mode, or to the restoration, unless only a retry is left to do. */
  lemma RequestExactly(cfg: Config, w: World)
    requires Enabled(w, Request)
    ensures var n, t, arm := w.p.node, Next(cfg, w, Request), w.p.node.want.requestedArm;
            var newer := n.want.generation != w.local.appliedGeneration && (arm ==> n.connected);
            && (!newer ==> t == w.(local := w.local.(phase := Deciding)))
            && (newer ==>
                  && t.sup == S.RequestArm(cfg.safety, w.sup, arm)
                  && t.p.log == w.p.log + (if arm && !cfg.safety.allowActuation
                                           then [InternalDisarm(true), Applied(false)] else [Applied(arm)])
                  && t.local == w.local.(appliedGeneration := n.want.generation, phase := t.local.phase)
                  && t.local.phase == if arm then
                       if !cfg.safety.allowActuation then Deciding
                       else if !cfg.safety.resumeOnCommandReturn then ArmTakeover
                       else if w.local.inputs.panda.sessionActive then Deciding else Listening
                     else if !n.connected then Deciding
                     else if n.own.recoveryPending && !n.own.vehicleMode then MidCheck
                     else ArmRestore)
  {
    hide S.RequestArm;
  }

  lemma ListenExactly(cfg: Config, w: World, switched: bool, read: bool)
    requires Enabled(w, Listen(switched, read))
    ensures var t := Next(cfg, w, Listen(switched, read));
            var mode := if switched then [Mode(19, cfg.safety.requiredSafetyParam)] else [];
            var section := Progress(w.p.node, w.p.log + mode);
            if switched && read then t.p == section && OnlyPhase(w, t, Head) else Aborted(cfg, w, section, t)
  {
    hide S.RequestArm;
  }

  /** The takeover of an arm request never resumes while moving and aborts the request when it fails; the other one
      resumes while moving as it was chosen, and a failure of it or of the health read after it disarms. */
  lemma TakeOverLoopExactly(cfg: Config, w: World, env: TakeoverEnv, healthRead: bool)
    requires Enabled(w, TakeOver(env, healthRead))
    ensures var t := Next(cfg, w, TakeOver(env, healthRead));
            var first := w.local.phase == ArmTakeover;
            var r := EnterVehicleMode(cfg, w.p, w.local.inputs.vehicle, !first && w.local.moving, env);
            && (first && r.Done? ==> t.p == r.p && OnlyPhase(w, t, Head))
            && (first && r.Failed? ==> Aborted(cfg, w, r.p, t))
            && (!first ==> OnlyPhase(w, t, Head) && t.p.log == r.p.log + if r.Done? && healthRead then []
                                                                         else [InternalDisarm(true)])
  {
    hide EnterVehicleMode, S.RequestArm;
  }

  /** A permission that Panda still grants is dropped when the decision no longer selects the channel. */
  lemma DecideExactly(cfg: Config, w: World)
    requires Enabled(w, Decide)
    ensures var t, r := Next(cfg, w, Decide), S.Update(cfg.safety, w.sup, w.local.inputs);
            && t.p == w.p && t.sup == r.state
            && t.local == w.local.(decision := r.decision, phase := t.local.phase)
            && t.local.phase == if cfg.safety.resumeOnCommandReturn && w.local.inputs.panda.longitudinalSelected &&
                                   !r.decision.longitudinalArmed then Dropping else Gap
  {
    hide S.Update;
  }

  lemma DropExactly(cfg: Config, w: World, ok: bool)
    requires Enabled(w, Drop(ok))
    ensures var t := Next(cfg, w, Drop(ok));
            && OnlyPhase(w, t, if ok then Gap else Head)
            && t.p.log == w.p.log + if ok then [] else [InternalDisarm(true)]
  {
  }

  /** Every decision is noted; one that waits for commands in vehicle mode of resume mode ends in a gap, qualified when
      the iteration before was recorded Active and a channel is still selected. */
  lemma GapExactly(cfg: Config, w: World)
    requires Enabled(w, NoteGap)
    ensures var d, t := w.local.decision, Next(cfg, w, NoteGap);
            var selected := d.lateralArmed || d.longitudinalArmed;
            var gap := cfg.safety.resumeOnCommandReturn && d.waiting && w.p.node.own.vehicleMode;
            && t.p.log == w.p.log
                 + [Noted(Summary(d.control, d.lateralArmed, d.longitudinalArmed, d.waiting,
                                  Enabling(cfg, w.local.inputs)))]
                 + (if gap then [GapEnded(w.local.previous == S.Active && selected)] else [])
            && OnlyPhase(w, t, if gap then GapRestore else Choosing)
            && t.p.node == w.p.node.(want := t.p.node.want)
            && t.p.node.want == w.p.node.want.(
                 preserveSession := gap || w.p.node.want.preserveSession,
                 gapQualified := if gap then w.local.previous == S.Active && selected
                                 else w.p.node.want.gapQualified && (cfg.safety.resumeOnCommandReturn ==> selected))
  {
    CommandIsEnabling(cfg, w.local.inputs);
  }

  /** A takeover is chosen exactly in resume mode, for an applied request, out of vehicle mode with nothing pending,
      when the decision stands armed with a channel selected, an enabling command and a ready session in standby, and
      the car stands still or may resume. A disarmed supervisor under an applied request is cleaned up after. */
  lemma ChooseExactly(cfg: Config, w: World)
    requires Enabled(w, Choose)
    ensures var n, d, p, t := w.p.node, w.local.decision, w.local.inputs.panda, Next(cfg, w, Choose);
            var mayMove := (n.want.gapQualified || n.want.buttonTakeover) && p.sessionActive && p.sessionReady &&
                           !p.sessionBlocked;
            var take := && cfg.safety.resumeOnCommandReturn && n.want.appliedArm && n.want.requestedArm
                        && p.safetyMode == 19 && p.safetyParam == cfg.safety.requiredSafetyParam && p.sessionReady
                        && !n.own.vehicleMode && !n.own.recoveryPending
                        && d.control == S.Armed && (d.lateralArmed || d.longitudinalArmed)
                        && Enabling(cfg, w.local.inputs) && (w.local.inputs.vehicle.standstill || mayMove);
            && t.p == w.p && t.sup == w.sup
            && t.local == (if take then w.local.(phase := TakingOver, moving := mayMove)
                           else w.local.(phase := if !w.sup.armRequested && n.want.appliedArm then Cleaning
                                                  else Output))
  {
    hide Commanded;
    CommandIsEnabling(cfg, w.local.inputs);
  }

  /** The clean-up disarms; it owes a rearm unless the decision was only waiting for a command that is missing. */
  lemma CleanExactly(cfg: Config, w: World)
    requires Enabled(w, CleanUp)
    ensures var i, t := w.local.inputs, Next(cfg, w, CleanUp);
            var young := i.command.receivedAt != 0 && 0 <= i.now - i.command.receivedAt <= cfg.safety.commandTimeout;
            var idle := w.local.decision.control == S.Passive && !young;
            && t.p.log == w.p.log + [InternalDisarm(!idle), Applied(false)] && t.sup == w.sup
            && t.local == w.local.(phase := CleanRestore, appliedGeneration := w.p.node.want.generation + 1)
  {
  }

  /** The permissions of the decision are published; an output that cannot be represented withdraws them first. */
  lemma AdaptExactly(cfg: Config, w: World, ok: bool)
    requires Enabled(w, Adapt(ok))
    ensures var d, t := w.local.decision, Next(cfg, w, Adapt(ok));
            && t.sup == w.sup
            && t.p.log == w.p.log + (if ok then [Published(d.lateralAllowed, d.longitudinalAllowed)]
                                     else [InternalDisarm(true), Published(false, false)])
            && t.local == w.local.(phase := Sending,
                                   decision := if ok then d
                                               else d.(lateralAllowed := false, longitudinalAllowed := false,
                                                       heartbeatEngaged := false))
  {
  }

  /** The other threads leave the control thread and the supervisor alone. A reconnection disarms with an ECU flagged, a
      receive error always, a link that is only seen down not. */
  lemma LinkExactly(cfg: Config, w: World, step: Step)
    requires step.LinkUp? || step.LinkError? || step.LinkLost?
    ensures var n, t := w.p.node, Next(cfg, w, step);
            && t.sup == w.sup && t.local == w.local && t.p.node.connected == step.LinkUp?
            && (step.LinkUp? ==>
                  t.p.log == w.p.log + [LinkChanged(true)] +
                             (if n.own.cameraDisabled || n.own.radarDisabled then [InternalDisarm(true)] else []))
            && (step.LinkError? ==> t.p.log == w.p.log + [LinkChanged(false), InternalDisarm(true), Applied(false)])
            && (step.LinkLost? ==> t.p == w.p.(node := n.(connected := false)))
  {
  }
}
