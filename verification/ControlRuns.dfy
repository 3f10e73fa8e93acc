/** Whole-run theorems about the machine of ControlLoop.dfy. */
module ControlRuns {
  import opened EcuLedger
  import opened EcuSchedule
  import opened EcuSections
  import opened ControlLoop
  import opened ControlInvariant
  import S = Supervisor

  // ----- Single owner -----

  /** In every run and every interleaving, raw transmission and the probe frame of a takeover included, a
      host LFA frame is sent only while the camera is silenced and a host SCC frame only while the radar
      is; and the lost-template exception is never thrown. */
  lemma SingleOwner(cfg: Config, w: World, k: nat)
    requires Reachable(cfg, w) && k < |w.p.log|
    ensures var log := w.p.log;
            && (log[k].Sent? && log[k].address == 0x12A ==> exists j :: 0 <= j < k && SilencedAt(log[..k], Camera, j))
            && (log[k].Sent? && log[k].address == 0x1A0 ==> exists j :: 0 <= j < k && SilencedAt(log[..k], Radar, j))
            && log[k] != TemplateLost
  {
    hide Reachable, Read;
    var log := w.p.log;
    ReachableKeeps(cfg, w);
    LawfulAt(log, k);
    if log[k].Sent? && log[k].address == 0x12A { FlaggedMeans(log[..k], Camera); }
    if log[k].Sent? && log[k].address == 0x1A0 { FlaggedMeans(log[..k], Radar); }
  }

  // ----- No ECU forgotten -----

  /** In every reachable state the flag of an ECU says exactly whether a silencing that returned is still
      unpaid, silencings that returned and observed resumptions balance up to that debt, a flagged ECU is
      owed, and a flag is never without an owner: the node is in vehicle mode or a recovery is pending. */
  lemma NoEcuForgotten(cfg: Config, w: World, ecu: Ecu)
    requires Reachable(cfg, w)
    ensures Disabled(w.p.node, ecu) <==> Flagged(w.p.log, ecu)
    ensures Silences(w.p.log, ecu) == Resumptions(w.p.log, ecu) + (if Disabled(w.p.node, ecu) then 1 else 0)
    ensures Disabled(w.p.node, ecu) ==> Owed(w.p.log, ecu)
    ensures Disabled(w.p.node, ecu) ==> w.p.node.own.vehicleMode || w.p.node.own.recoveryPending
  {
    hide Reachable, Read, Silences, Resumptions, Unnoticed;
    ReachableKeeps(cfg, w);
    DebtConservation(w.p.log, ecu);
    KnownDebts(w.p.log, ecu);
  }

  /** Exactly when the flag tells the whole truth: it agrees with the debt unless some silencing request
      went out and threw, and no later one of that ECU returned. */
  lemma FlagTellsDebtExactly(cfg: Config, w: World, ecu: Ecu)
    requires Reachable(cfg, w)
    ensures (Disabled(w.p.node, ecu) <==> Owed(w.p.log, ecu)) <==> !Unnoticed(w.p.log, ecu)
  {
    hide Reachable, Read, Unnoticed;
    ReachableKeeps(cfg, w);
    KnownDebts(w.p.log, ecu);
  }

  /** Right before k, NO_OUTPUT (mode 19) was commanded and read back with this profile; a profile other than 0
      was reached through profile 0 unless a command gap preserves the session. */
  predicate ReadBackAt(log: Log, k: nat, param: nat)
    requires k < |log|
  {
    && k > 1 && log[k - 1] == NoOutputConfirmed(param) && log[k - 2] == Mode(19, param)
    && (param != 0 && !Preserved(log[..k]) ==> k > 2 && log[k - 3] == Mode(19, 0))
  }

  /** The profile that a restoration leaves: the configured one while a command gap preserves the session, or in
      resume mode unless the operator has switched off; otherwise none. */
  function ProfileAt(cfg: Config, log: Log): nat {
    if Preserved(log) || (cfg.safety.resumeOnCommandReturn && !SwitchedOff(log)) then cfg.safety.requiredSafetyParam
    else 0
  }

  /** A recovery is reported only when neither ECU is flagged, right after NO_OUTPUT was commanded and read back
      with the profile that the session calls for; what is then still owed went unnoticed. Each settled debt was
      settled by newly observed stock frames. */
  lemma RecoveryIsComplete(cfg: Config, w: World, k: nat)
    requires Reachable(cfg, w) && k < |w.p.log|
    ensures var log := w.p.log;
            && (log[k] == Recovered ==>
                  && !Flagged(log[..k], Camera) && !Flagged(log[..k], Radar)
                  && ReadBackAt(log, k, ProfileAt(cfg, log[..k]))
                  && (Owed(log[..k], Camera) <==> Unnoticed(log[..k], Camera))
                  && (Owed(log[..k], Radar) <==> Unnoticed(log[..k], Radar)))
            && (log[k].Resumed? ==> Flagged(log[..k], log[k].ecu) && log[k].frames > 0)
  {
    hide Reachable, Read, Unnoticed, ReadBackAt, ProfileAt;
    ReachableKeeps(cfg, w);
    LawfulAt(w.p.log, k);
    KnownDebts(w.p.log[..k], Camera);
    KnownDebts(w.p.log[..k], Radar);
    if w.p.log[k] == Recovered { ConfirmedProfile(cfg, w, k); }
  }

  /** The rules of a log are those it starts with. */
  lemma {:induction false} RulesOfPrefix(log: Log, k: nat)
    requires Lawful(log) && 0 < k <= |log|
    ensures Read(log[..k]).rules == Read(log).rules
    decreases |log|
  {
    hide Absorb, LawfulAction;
    if k < |log| {
      var init, last := log[..|log| - 1], log[|log| - 1];
      RulesOfPrefix(init, k);
      assert init[..k] == log[..k];
      StartedFirst(Read(init), init, last);
    } else {
      assert log[..k] == log;
    }
  }

  lemma StartedFirst(f: Facts, before: Log, a: Action)
    requires LawfulAction(f, before, a) && before != []
    ensures Absorb(f, a).rules == f.rules
  {
    hide Absorb;
    RulesStay(f, a);
  }

  lemma ConfirmedProfile(cfg: Config, w: World, k: nat)
    requires Reachable(cfg, w) && k < |w.p.log| && w.p.log[k] == Recovered
    ensures ReadBackAt(w.p.log, k, ProfileAt(cfg, w.p.log[..k]))
  {
    hide Reachable, Read, Lawful, SwitchedOff, Preserved, Kept, InOrder, WindsUp;
    ReachableKeeps(cfg, w);
    FirstIsStart(cfg, w);
    LawfulAt(w.p.log, k);
    assert k > 1 && w.p.log[k - 1].NoOutputConfirmed?;
    RulesOfPrefix(w.p.log, k - 1);
    ConfirmedStands(w.p.log, k);
    ConfirmedMeans(cfg, w.p.log, k);
  }

  lemma ConfirmedMeans(cfg: Config, log: Log, k: nat)
    requires Lawful(log) && 1 < k < |log| && log[k - 1].NoOutputConfirmed?
    requires var f := Read(log[..k - 1]);
             && f.rules == RulesOf(cfg)
             && f.standing.preserved == Preserved(log[..k]) && f.standing.off == SwitchedOff(log[..k])
    ensures ReadBackAt(log, k, ProfileAt(cfg, log[..k]))
  {
    hide Read, Lawful, SwitchedOff, Preserved;
    LawfulAt(log, k - 1);
  }

  /** The confirmation changes nothing that the profile depends on. */
  lemma ConfirmedStands(log: Log, k: nat)
    requires Lawful(log) && 0 < k < |log| && log[k - 1].NoOutputConfirmed?
    ensures Read(log[..k - 1]).standing.preserved == Preserved(log[..k])
    ensures Read(log[..k - 1]).standing.off == SwitchedOff(log[..k])
  {
    hide SwitchedOff, Preserved;
    LawfulAt(log, k);
    FlagsMean(log[..k]);
    StandingMeans(log[..k]);
    assert log[..k][..k - 1] == log[..k - 1];
  }

  /** Only a successful `enter_no_output_mode` clears a pending recovery. */
  lemma OnlyRestorationClears(cfg: Config, w: World, step: Step)
    requires Invariant(cfg, w) && w.p.node.own.recoveryPending
    requires Enabled(w, step) && !Next(cfg, w, step).p.node.own.recoveryPending
    ensures step.Restore? && EnterNoOutput(cfg, w.p, step.noOutput).Done?
    ensures var n := EnterNoOutput(cfg, w.p, step.noOutput).p.node;
            !n.own.cameraDisabled && !n.own.radarDisabled && !n.own.vehicleMode
  {
    hide CheckStep, RestoreStep, SampleStep, RequestStep, ListenStep, TakeOverStep, DecideStep, DropStep, GapStep,
         ChooseStep, CleanStep, AdaptStep, SendStep, EnterNoOutput, Connect, Disconnect, RawTransmit, ArmService,
         Invariant, Enabled;
    match step
    case Restore(env) => ClearedByRestore(cfg, w, env);
    case TakeOver(env, healthRead) => TakeOverKeepsPending(cfg, w, env, healthRead);
    case Send(ok) => SendFramesKeepPending(cfg, w, ok);
    case Request => RequestKeepsPending(cfg, w);
    case Sample(_, _) => LoopKeepsPending(cfg, w, step);
    case Check(_) => LoopKeepsPending(cfg, w, step);
    case Listen(_, _) => LoopKeepsPending(cfg, w, step);
    case Decide => LoopKeepsPending(cfg, w, step);
    case NoteGap => LoopKeepsPending(cfg, w, step);
    case Choose => LoopKeepsPending(cfg, w, step);
    case Drop(_) => DropsKeepPending(cfg, w, step);
    case CleanUp => DropsKeepPending(cfg, w, step);
    case Adapt(_) => DropsKeepPending(cfg, w, step);
    case _ => ThreadKeepsPending(cfg, w, step);
  }

  lemma LoopKeepsPending(cfg: Config, w: World, step: Step)
    requires w.p.node.own.recoveryPending
    requires step.Sample? || step.Check? || step.Listen? || step.Decide? || step.NoteGap? || step.Choose?
    ensures Next(cfg, w, step).p.node.own.recoveryPending
  {
    hide S.Update, S.RequestArm, AutoArmReady, PressSeen, TakeoverReady, NoteOf, RetryWanted,
         RecoveryRetryModel.Request;
  }

  lemma DropsKeepPending(cfg: Config, w: World, step: Step)
    requires w.p.node.own.recoveryPending && (step.Drop? || step.CleanUp? || step.Adapt?)
    ensures Next(cfg, w, step).p.node.own.recoveryPending
  {
    hide S.CommandFresh;
  }

  lemma ThreadKeepsPending(cfg: Config, w: World, step: Step)
    requires w.p.node.own.recoveryPending
    requires step.LinkUp? || step.LinkError? || step.LinkLost? || step.RawTx? || step.SetArmed?
    ensures Next(cfg, w, step).p.node.own.recoveryPending
  {
  }

  lemma ClearedByRestore(cfg: Config, w: World, env: NoOutputEnv)
    requires Invariant(cfg, w) && w.p.node.own.recoveryPending && Enabled(w, Restore(env))
    requires !RestoreStep(cfg, w, env).p.node.own.recoveryPending
    ensures var r := EnterNoOutput(cfg, w.p, env);
            r.Done? && !r.p.node.own.cameraDisabled && !r.p.node.own.radarDisabled && !r.p.node.own.vehicleMode
  {
    hide EnterNoOutput, S.RequestArm, Accounts, InOrder, WindsUp, Read, Sound, Ruled;
    MayRestore(cfg, w, env);
    EnterNoOutputKeeps(cfg, w.p, env);
  }

  lemma TakeOverKeepsPending(cfg: Config, w: World, env: TakeoverEnv, healthRead: bool)
    requires Invariant(cfg, w) && w.p.node.own.recoveryPending && Enabled(w, TakeOver(env, healthRead))
    ensures TakeOverStep(cfg, w, env, healthRead).p.node.own.recoveryPending
  {
    hide EnterVehicleMode, S.RequestArm, Accounts, InOrder, WindsUp;
    var resume := w.local.phase != ArmTakeover && w.local.moving;
    TakeOverTries(cfg, w, resume, env);
  }

  lemma RequestKeepsPending(cfg: Config, w: World)
    requires w.p.node.own.recoveryPending
    ensures RequestStep(cfg, w).p.node.own.recoveryPending
  {
    hide S.RequestArm, AfterRequest;
  }

  lemma SendFramesKeepPending(cfg: Config, w: World, ok: bool)
    requires w.p.node.own.recoveryPending
    ensures SendStep(cfg, w, ok).p.node.own.recoveryPending
  {
    hide Transmit, MaySend, Frames;
    TransmitKeepsNode(w.p, Frames(cfg, w.local.frameIndex));
  }

  // ----- Takeover handshake and license -----

  /** No takeover skips the disable handshake: every one that completes has, for each ECU that the mode
      needs, a handshake of its own behind it: session, silencing, tester present and quiet watch in a row,
      with no takeover and no resumption since. Nothing was outstanding when it completed, and Panda had just
      been switched to the vehicle profile (mode 28), with the probe frame in longitudinal mode. */
  lemma TakeoverHandshake(cfg: Config, w: World, k: nat)
    requires Reachable(cfg, w) && k < |w.p.log| && w.p.log[k].TakenOver?
    ensures var log, before, longitudinal := w.p.log, w.p.log[..k], cfg.safety.allowLongitudinal;
            && log[k] == TakenOver(longitudinal) && !Outstanding(before)
            && (exists j :: 0 <= j < k - 3 && FreshHandshakeAt(before, Camera, j))
            && (longitudinal ==> exists j :: 0 <= j < k - 3 && FreshHandshakeAt(before, Radar, j))
            && (if longitudinal then k > 1 && log[k - 1] == Sent(0x1A0, Probe) &&
                                     log[k - 2] == Mode(28, cfg.safety.requiredSafetyParam)
                else k > 0 && log[k - 1] == Mode(28, cfg.safety.requiredSafetyParam))
  {
    hide Reachable, Read, Lawful, LawfulAction, FreshHandshakeAt, Outstanding, Kept, InOrder, WindsUp;
    ReachableKeeps(cfg, w);
    var log, before := w.p.log, w.p.log[..k];
    LawfulAt(log, k);
    FirstIsStart(cfg, w);
    TakenOverMeans(Read(before), before, log[k]);
    RulesOfPrefix(log, k);
    FlagsMean(before);
    SilentMeans(before, Camera);
    if log[k].longitudinal {
      SilentMeans(before, Radar);
      LawfulAt(log, k - 1);
      RulesOfPrefix(log, k - 1);
      ProbeMeans(Read(log[..k - 1]), log[..k - 1]);
    }
  }

  lemma TakenOverMeans(f: Facts, before: Log, a: Action)
    requires LawfulAction(f, before, a) && a.TakenOver?
    ensures before != [] && f.camera == SILENT && (a.longitudinal ==> f.radar == SILENT) && !f.outstanding
    ensures a.longitudinal == f.rules.longitudinal
    ensures before[|before| - 1] == if a.longitudinal then Sent(0x1A0, Probe) else Mode(28, f.rules.param)
  {
  }

  lemma ProbeMeans(f: Facts, before: Log)
    requires LawfulAction(f, before, Sent(0x1A0, Probe))
    ensures EndsWith(before, Mode(28, f.rules.param))
  {
  }

  /** Panda is switched to the vehicle profile only over silenced ECUs, to ELM327 only for a takeover or a
      restoration, and to NO_OUTPUT only with profile 0 or the configured one; to nothing else. */
  lemma ModesAreOrdered(cfg: Config, w: World, k: nat)
    requires Reachable(cfg, w) && k < |w.p.log| && w.p.log[k].Mode?
    ensures var a, before, param := w.p.log[k], w.p.log[..k], cfg.safety.requiredSafetyParam;
            || (a == Mode(28, param) && Flagged(before, Camera) &&
                (cfg.safety.allowLongitudinal ==> Flagged(before, Radar)) &&
                !Outstanding(before))
            || ((a == Mode(3, 1) || a == Mode(3, param)) &&
                (Flagged(before, Camera) || Flagged(before, Radar) || !Outstanding(before)))
            || a == Mode(19, 0) || a == Mode(19, param)
  {
    hide Reachable, Read, Outstanding, Kept, InOrder, WindsUp;
    ReachableKeeps(cfg, w);
    LawfulAt(w.p.log, k);
    if k > 0 {
      RulesOfPrefix(w.p.log, k);
      FlagsMean(w.p.log[..k]);
    } else {
      FirstIsStart(cfg, w);
    }
  }

  /** An ECU is silenced only out of a session just opened for it, with nothing outstanding, and not while
      the node knows that it is silent. In resume mode the supervisor had been armed by the decision before,
      with a channel selected and a fresh, valid and enabled command. */
  lemma SilencingNeedsSession(cfg: Config, w: World, k: nat)
    requires Reachable(cfg, w) && k < |w.p.log| && w.p.log[k].Silence?
    ensures var log, note := w.p.log, Read(w.p.log[..k]).loop.note;
            && !Flagged(log[..k], log[k].ecu) && !Outstanding(log[..k])
            && k > 0 && log[k - 1] == Uds(log[k].ecu, ExtendedSession)
            && (cfg.safety.resumeOnCommandReturn ==>
                  note.control == S.Armed && (note.lateral || note.longitudinal) && note.commanded)
  {
    hide Reachable, Read, Outstanding, Kept, InOrder, WindsUp;
    ReachableKeeps(cfg, w);
    LawfulAt(w.p.log, k);
    RulesOfPrefix(w.p.log, k);
    FlagsMean(w.p.log[..k]);
  }

  /** Moving-takeover history: an ECU is silenced on a snapshot that does not stand still, or is faster than
      0.5 km/h, only by one of the two licenses, a qualified gap or a press that re-engaged a node inhibited by
      a fault. */
  lemma MovingTakeoverIsLicensed(cfg: Config, w: World, k: nat)
    requires Reachable(cfg, w) && k < |w.p.log| && w.p.log[k].Silence?
    requires !w.p.log[k].standstill || w.p.log[k].speed > 0.5 / 3.6
    ensures exists j :: 0 <= j < k && (GapLicensedAt(w.p.log[..k], j) || PressLicensedAt(w.p.log[..k], j))
  {
    hide Reachable, Read, GapLicensedAt, PressLicensedAt;
    ReachableKeeps(cfg, w);
    var before := w.p.log[..k];
    LawfulAt(w.p.log, k);
    if Read(before).gapLicense { GapLicenseMeans(before); } else { PressLicenseMeans(before); }
  }

  // ----- Host frames -----

  /** A control frame is sent only in vehicle mode, and only the four addresses, two of them in longitudinal mode
      only. After an operator's off the iteration that was going on may still send; no later one does. */
  lemma ControlFramesNeedOwnership(cfg: Config, w: World, k: nat)
    requires Reachable(cfg, w) && k < |w.p.log| && w.p.log[k].Sent? && w.p.log[k].origin == Control
    ensures var before, address := w.p.log[..k], w.p.log[k].address;
            && InVehicleMode(before)
            && (address == 0x12A || address == 0x1E0 ||
                (cfg.safety.allowLongitudinal && (address == 0x1A0 || address == 0x160)))
            && (forall j :: 0 <= j < k && SwitchedOffAt(before, j) ==> CompletedSince(before, j) == 0)
  {
    hide Reachable, Read, InVehicleMode, Kept, InOrder, WindsUp;
    FrameFacts(cfg, w, k);
    var before := w.p.log[..k];
    FlagsMean(before);
    OffMeans(before);
  }

  lemma FrameFacts(cfg: Config, w: World, k: nat)
    requires Reachable(cfg, w) && k < |w.p.log| && w.p.log[k].Sent?
    ensures var f := Read(w.p.log[..k]);
            && Lawful(w.p.log[..k]) && f.rules == RulesOf(cfg)
            && LawfulFrame(f, w.p.log[..k], w.p.log[k].address, w.p.log[k].origin)
  {
    hide Reachable, Read, Kept, InOrder, WindsUp;
    ReachableKeeps(cfg, w);
    LawfulAt(w.p.log, k);
    FirstIsStart(cfg, w);
    RulesOfPrefix(w.p.log, k);
  }

  /** While the last service call is an off, the count of iterations is the one since that call. */
  lemma OffMeans(log: Log)
    requires Lawful(log)
    ensures forall j :: 0 <= j < |log| && SwitchedOffAt(log, j) ==>
              Read(log).standing.off && Read(log).loop.iterations == CompletedSince(log, j)
  {
    hide Read, Faulted;
    StandingMeans(log);
    forall j | 0 <= j < |log| && SwitchedOffAt(log, j)
      ensures Read(log).standing.off && Read(log).loop.iterations == CompletedSince(log, j)
    {
      IterationsMean(log, j);
    }
  }

  /** A raw frame is sent only where raw transmission is configured, in vehicle mode, with the longitudinal
      permission published last and for the steering frame the lateral one too; after an operator's off at most
      one iteration has been completed. */
  lemma RawFramesNeedPermission(cfg: Config, w: World, k: nat)
    requires Reachable(cfg, w) && k < |w.p.log| && w.p.log[k].Sent? && w.p.log[k].origin == Raw
    ensures var before := w.p.log[..k];
            && cfg.allowRawTx && InVehicleMode(before)
            && (exists j :: 0 <= j < k && PublishedAt(before, j) && before[j].longitudinal &&
                            (w.p.log[k].address == 0x12A ==> before[j].lateral))
            && (forall j :: 0 <= j < k && SwitchedOffAt(before, j) ==> CompletedSince(before, j) <= 1)
  {
    hide Reachable, Read, InVehicleMode, Kept, InOrder, WindsUp, PublishedAt;
    FrameFacts(cfg, w, k);
    var before := w.p.log[..k];
    FlagsMean(before);
    OffMeans(before);
    var j := PermissionsMean(before);
  }

  /** The permissions published last. */
  predicate PublishedAt(log: Log, j: nat)
    requires j < |log|
  {
    log[j].Published? && forall i :: j < i < |log| ==> !log[i].Published?
  }

  lemma PermissionStep(f: Facts, a: Action)
    ensures var l, m := f.loop, Absorb(f, a).loop;
            if a.Published? then m.lateralOut == a.lateral && m.longitudinalOut == a.longitudinal
            else m.lateralOut == l.lateralOut && m.longitudinalOut == l.longitudinalOut
  {
    hide StandingAfter, LineAfter, RevokesGap;
  }

  lemma {:induction false} PermissionsMean(log: Log) returns (j: nat)
    requires Read(log).loop.lateralOut || Read(log).loop.longitudinalOut
    ensures j < |log| && PublishedAt(log, j)
    ensures Read(log).loop.lateralOut == log[j].lateral && Read(log).loop.longitudinalOut == log[j].longitudinal
  {
    hide Absorb;
    var init, last := log[..|log| - 1], log[|log| - 1];
    PermissionStep(Read(init), last);
    if last.Published? {
      j := |log| - 1;
    } else {
      j := PermissionsMean(init);
      assert forall i :: j <= i < |init| ==> log[i] == init[i];
    }
  }

  /** A raw frame leaves exactly when the configuration and the message allow it, in vehicle mode over a live
      link, with the longitudinal permission and, for the steering frame, the lateral one. */
  lemma RawFrameExactly(cfg: Config, w: World, address: nat, wellFormed: bool)
    ensures var n, t := w.p.node, Next(cfg, w, RawTx(address, wellFormed));
            && t.p.log == (if cfg.allowRawTx && wellFormed && n.own.vehicleMode && n.connected &&
                              n.permitsLongitudinal &&
                              (address != 0x12A || n.permitsLateral)
                           then w.p.log + [Sent(address, Raw)] else w.p.log)
            && t.p.node == n && t.local == w.local && t.sup == w.sup
  {
  }

  /** The frames of one iteration, complete or cut short by a send that throws: with the link up and, in resume
      mode, the session ready, vehicle mode sends the steering frame in every iteration, the cluster frame in
      every fifth, and in longitudinal mode the cruise and warning frames in every second; otherwise none. */
  lemma IterationSends(cfg: Config, w: World, ok: bool)
    requires Reachable(cfg, w) && Enabled(w, Send(ok))
    ensures var i, t := w.local.frameIndex, Next(cfg, w, Send(ok));
            var sends := w.p.node.own.vehicleMode && w.p.node.connected &&
                         (cfg.safety.resumeOnCommandReturn ==> w.local.inputs.panda.sessionReady);
            var frames := if !sends then []
                          else [Sent(0x12A, Control)]
                               + (if i % 5 == 0 then [Sent(0x1E0, Control)] else [])
                               + (if cfg.safety.allowLongitudinal && i % 2 == 0
                                  then [Sent(0x1A0, Control), Sent(0x160, Control)] else []);
            && t.p.log == w.p.log + frames + (if sends && !ok then [InternalDisarm(true)] else [])
                          + [Recorded(w.local.decision.control)]
            && t.local.frameIndex == i + 1 && t.local.phase == Head
  {
    hide Reachable, Accounts, InOrder, WindsUp, RequestInternalDisarm, Transmit, Frames;
    ReachableKeeps(cfg, w);
    if w.p.node.own.vehicleMode && cfg.safety.allowLongitudinal { HasTemplate(cfg, w); }
    var frames := Frames(cfg, w.local.frameIndex);
    FramesInLiterals(cfg, w.local.frameIndex);
    TransmitLogs(w.p, frames);
    DisarmLogs(Transmit(w.p, frames), true);
  }

  lemma FramesInLiterals(cfg: Config, i: nat)
    ensures AsSent(Frames(cfg, i)) ==
              [Sent(0x12A, Control)] + (if i % 5 == 0 then [Sent(0x1E0, Control)] else [])
              + (if cfg.safety.allowLongitudinal && i % 2 == 0
                 then [Sent(0x1A0, Control), Sent(0x160, Control)] else [])
  {
  }

  lemma DisarmLogs(p: Progress, requireRearm: bool)
    ensures RequestInternalDisarm(p, requireRearm).log == p.log + [InternalDisarm(requireRearm)]
  {
  }

  lemma HasTemplate(cfg: Config, w: World)
    requires Invariant(cfg, w) && w.p.node.own.vehicleMode && cfg.safety.allowLongitudinal
    ensures w.p.node.own.hasTemplate
  {
  }

  function AsSent(addresses: seq<nat>): Log {
    seq(|addresses|, k requires 0 <= k < |addresses| => Sent(addresses[k], Control))
  }

  lemma {:induction false} TransmitLogs(p: Progress, addresses: seq<nat>)
    ensures Transmit(p, addresses).log == p.log + AsSent(addresses)
    decreases |addresses|
  {
    if addresses != [] {
      TransmitLogs(Note(p, Sent(addresses[0], Control)), addresses[1..]);
      assert AsSent(addresses) == [Sent(addresses[0], Control)] + AsSent(addresses[1..]);
    }
  }

  // ----- What inhibits the node -----

  /** In every reachable state automatic arming is inhibited exactly when the last service call switched off
      or a fault stands: a failed recovery, or an internal disarm that took a session away against its will, with
      no service call and no accepted press since. The flags of an operator's off and of an owed rearm say the
      same of their part, and the arm request stands exactly when the service or automatic arming asked for it
      and nothing has withdrawn it. */
  lemma InhibitedExactly(cfg: Config, w: World)
    requires Reachable(cfg, w)
    ensures var want, log := w.p.node.want, w.p.log;
            && (want.autoArmInhibited <==> SwitchedOff(log) || Faulted(log))
            && (want.operatorDisarmed <==> SwitchedOff(log))
            && (!SwitchedOff(log) ==> (want.rearmRequired <==> Faulted(log)))
            && (want.requestedArm <==> ArmRequested(log))
  {
    hide Reachable, Read, Faulted, SwitchedOff, ArmRequested, Kept, InOrder, WindsUp;
    ReachableKeeps(cfg, w);
    StandingMeans(w.p.log);
    FaultOrOff(w.p.log);
    FlagsMean(w.p.log);
  }

  /** An operator's off hides no fault from the flag. */
  lemma FaultOrOff(log: Log)
    requires Lawful(log)
    ensures Read(log).standing.inhibited <==> SwitchedOff(log) || Faulted(log)
  {
    hide Read, Lawful, Faulted, SwitchedOff;
    StandingMeans(log);
  }

  /** A press is accepted exactly in resume mode, when a button has been pressed since the last sample, by a
      node that a fault inhibits, that no operator has switched off and that has no arm request. */
  lemma PressNeedsInhibition(cfg: Config, w: World, i: S.Inputs, preflight: bool)
    requires Reachable(cfg, w) && Enabled(w, Sample(i, preflight))
    ensures EngagePress in Next(cfg, w, Sample(i, preflight)).p.log[|w.p.log|..] <==>
              && (i.vehicle.laneKeepEvents > w.local.laneKeepEvents || i.vehicle.setEvents > w.local.setEvents)
              && cfg.safety.resumeOnCommandReturn && !ArmRequested(w.p.log)
              && Faulted(w.p.log) && !SwitchedOff(w.p.log)
  {
    hide Reachable, AutoArmReady, Faulted, SwitchedOff, ArmRequested;
    InhibitedExactly(cfg, w);
    var log, more := w.p.log, Next(cfg, w, Sample(i, preflight)).p.log;
    assert log + [EngagePress] + [AutoArmed] == log + [EngagePress, AutoArmed];
    assert more[|log|..] == [] || more[|log|..] == [EngagePress] || more[|log|..] == [AutoArmed] ||
           more[|log|..] == [EngagePress, AutoArmed];
  }

  /** Automatic arming asks exactly when it is configured, nothing inhibits it or is being recovered, the vehicle
      is fit, Panda is connected, no request stands yet, and either the listener is ready or, without resume mode,
      a fresh enabled command meets the preflight conditions. */
  lemma AutoArmExactly(cfg: Config, w: World, i: S.Inputs, preflight: bool)
    requires Reachable(cfg, w) && Enabled(w, Sample(i, preflight))
    ensures var c, n, p, pressed := i.command, w.p.node, i.panda, PressSeen(w.local, i.vehicle);
            var t := Next(cfg, w, Sample(i, preflight));
            var lifted := EngagePress in t.p.log[|w.p.log|..];
            AutoArmed in t.p.log[|w.p.log|..] <==>
              && cfg.autoArmOnCommand && cfg.safety.allowActuation
              && !ArmRequested(w.p.log) && !n.own.recoveryPending && (lifted || !n.want.autoArmInhibited)
              && i.vehicle.valid && !i.vehicle.epsFault && p.connected
              && (if cfg.safety.resumeOnCommandReturn then
                    && p.ignitionOn && p.safetyMode == 19 && p.safetyParam == cfg.safety.requiredSafetyParam
                    && p.sessionActive && p.sessionReady && !p.sessionBlocked
                  else
                    && c.receivedAt != 0 && 0 <= i.now - c.receivedAt <= cfg.safety.commandTimeout
                    && c.valid && c.enable && preflight)
  {
    hide Reachable, PressSeen, Faulted, SwitchedOff, ArmRequested;
    InhibitedExactly(cfg, w);
    var log, more := w.p.log, Next(cfg, w, Sample(i, preflight)).p.log;
    assert log + [EngagePress] + [AutoArmed] == log + [EngagePress, AutoArmed];
    assert more[|log|..] == [] || more[|log|..] == [EngagePress] || more[|log|..] == [AutoArmed] ||
           more[|log|..] == [EngagePress, AutoArmed];
  }

  /** The service accepts every call but an arming one against the configuration or during a recovery. */
  lemma ServiceAcceptsExactly(cfg: Config, w: World, arm: bool)
    requires Reachable(cfg, w)
    ensures var t := Next(cfg, w, SetArmed(arm));
            && t.p.log == (if arm && (!cfg.safety.allowActuation || Outstanding(w.p.log)) then w.p.log
                           else w.p.log + [ServiceCall(arm)])
            && t.p.node.own == w.p.node.own && t.local == w.local && t.sup == w.sup
  {
    hide Reachable, Outstanding, Kept, InOrder, WindsUp;
    ReachableKeeps(cfg, w);
    FlagsMean(w.p.log);
  }

  // ----- Rearm gating -----

  /** Disarmed, and automatic arming inhibited. */
  predicate Inhibited(w: World) {
    !w.p.node.want.requestedArm && w.p.node.want.autoArmInhibited
  }

  predicate OperatorOff(w: World) {
    Inhibited(w) && w.p.node.want.operatorDisarmed
  }

  /** The only steps that may lift an inhibition: a service call, or a sample with a new press. */
  predicate Invites(w: World, step: Step) {
    step == SetArmed(true) || (step.Sample? && PressSeen(w.local, step.inputs.vehicle))
  }

  /** Inhibition, and an operator's OFF, carry over. */
  predicate StaysOff(w: World, t: World) {
    Inhibited(t) && (OperatorOff(w) ==> OperatorOff(t))
  }

  predicate SameArming(a: Intent, b: Intent) {
    && a.requestedArm == b.requestedArm && a.autoArmInhibited == b.autoArmInhibited
    && a.operatorDisarmed == b.operatorDisarmed
  }
  lemma DisarmStaysOff(p: Progress, requireRearm: bool)
    ensures var q := RequestInternalDisarm(p, requireRearm);
            && !q.node.want.requestedArm && q.node.want.operatorDisarmed == p.node.want.operatorDisarmed
            && (p.node.want.autoArmInhibited ==> q.node.want.autoArmInhibited)
            && SameArming(Release(q).node.want, q.node.want)
  {
  }

  lemma RestoreStaysOff(cfg: Config, w: World, env: NoOutputEnv)
    requires Invariant(cfg, w) && Inhibited(w) && Enabled(w, Restore(env))
    ensures StaysOff(w, RestoreStep(cfg, w, env))
  {
    hide EnterNoOutput, RequestInternalDisarm, S.RequestArm, Accounts, InOrder, WindsUp, Release;
    RestoreLeaves(cfg, w, env);
    DisarmStaysOff(EnterNoOutput(cfg, w.p, env).p, true);
  }

  lemma TakeOverStaysOff(cfg: Config, w: World, env: TakeoverEnv, healthRead: bool)
    requires Invariant(cfg, w) && Inhibited(w) && Enabled(w, TakeOver(env, healthRead))
    ensures StaysOff(w, TakeOverStep(cfg, w, env, healthRead))
  {
    hide EnterVehicleMode, RequestInternalDisarm, S.RequestArm, Accounts, InOrder, WindsUp, Release;
    var resume := w.local.phase != ArmTakeover && w.local.moving;
    TakeOverTries(cfg, w, resume, env);
    DisarmStaysOff(EnterVehicleMode(cfg, w.p, w.local.inputs.vehicle, resume, env).p, true);
  }

  lemma SampleStaysOff(cfg: Config, w: World, i: S.Inputs, preflight: bool)
    requires Inhibited(w) && !PressSeen(w.local, i.vehicle)
    ensures StaysOff(w, SampleStep(cfg, w, i, preflight))
  {
    hide ListenerReady;
  }

  lemma SendStaysOff(cfg: Config, w: World, ok: bool)
    requires Inhibited(w)
    ensures StaysOff(w, SendStep(cfg, w, ok))
  {
    hide Transmit, MaySend, Frames;
    TransmitKeepsNode(w.p, Frames(cfg, w.local.frameIndex));
  }

  lemma RequestStaysOff(cfg: Config, w: World)
    requires Inhibited(w)
    ensures StaysOff(w, RequestStep(cfg, w))
  {
    hide S.RequestArm, AfterRequest;
  }

  lemma ListenStaysOff(cfg: Config, w: World, switched: bool, read: bool)
    requires Inhibited(w)
    ensures StaysOff(w, ListenStep(cfg, w, switched, read))
  {
    hide RequestInternalDisarm, S.RequestArm;
    DisarmStaysOff(Try(w.p, switched, Mode(NO_OUTPUT, cfg.safety.requiredSafetyParam)).p, true);
  }

  lemma CleanStaysOff(cfg: Config, w: World)
    requires Inhibited(w)
    ensures StaysOff(w, CleanStep(cfg, w))
  {
    hide RequestInternalDisarm, S.CommandFresh;
    DisarmStaysOff(w.p, true);
    DisarmStaysOff(w.p, false);
  }

  lemma AdaptStaysOff(w: World, ok: bool)
    requires Inhibited(w)
    ensures StaysOff(w, AdaptStep(w, ok))
  {
    hide RequestInternalDisarm;
    DisarmStaysOff(w.p, true);
  }


  lemma GapKeepsArming(cfg: Config, p: Progress, note: Summary, qualified: bool)
    ensures SameArming(NoteDecision(cfg, p, note).node.want, p.node.want)
    ensures SameArming(MarkGap(NoteDecision(cfg, p, note), qualified).node.want, p.node.want)
  {
  }

  lemma GapStaysOff(cfg: Config, w: World)
    requires Inhibited(w)
    ensures StaysOff(w, GapStep(cfg, w))
  {
    hide NoteDecision, MarkGap, NoteOf;
    var d := w.local.decision;
    GapKeepsArming(cfg, w.p, NoteOf(cfg, w.local.inputs, d),
                   w.local.previous == S.Active && (d.lateralArmed || d.longitudinalArmed));
  }

  lemma ControlStaysOff(cfg: Config, w: World, step: Step)
    requires Inhibited(w) && (step.Check? || step.Decide? || step.Drop? || step.Choose?)
    ensures StaysOff(w, Next(cfg, w, step))
  {
    hide RequestInternalDisarm, S.Update, TakeoverReady, MovingResume, RetryWanted;
    DisarmStaysOff(w.p, true);
  }

  lemma LinkStaysOff(cfg: Config, w: World, up: bool)
    requires Inhibited(w)
    ensures StaysOff(w, w.(p := if up then Connect(w.p) else Disconnect(w.p)))
  {
    hide RequestInternalDisarm, Release, Link;
    LinkFlags(w.p, up);
    DisarmStaysOff(Link(w.p, up), true);
  }

  lemma ThreadStaysOff(cfg: Config, w: World, step: Step)
    requires Inhibited(w)
    requires step.LinkUp? || step.LinkError? || step.LinkLost? || step.RawTx? || step == SetArmed(false)
    ensures StaysOff(w, Next(cfg, w, step))
  {
    hide Connect, Disconnect, RawTransmit;
    match step
    case LinkUp => LinkStaysOff(cfg, w, true);
    case LinkError => LinkStaysOff(cfg, w, false);
    case RawTx(address, wellFormed) => RawTransmitKeepsNode(cfg, w.p, address, wellFormed);
    case _ =>
  }

  lemma InhibitedStep(cfg: Config, w: World, step: Step)
    requires Invariant(cfg, w) && Inhibited(w) && Enabled(w, step) && !Invites(w, step)
    ensures StaysOff(w, Next(cfg, w, step))
  {
    hide RestoreStep, SampleStep, RequestStep, ListenStep, TakeOverStep, GapStep, CleanStep, AdaptStep, SendStep,
         CheckStep, DecideStep, DropStep, ChooseStep, Connect, Disconnect, RawTransmit, ArmService,
         Invariant, Enabled, Inhibited, StaysOff;
    match step
    case Restore(env) => RestoreStaysOff(cfg, w, env);
    case Sample(inputs, preflight) => SampleStaysOff(cfg, w, inputs, preflight);
    case Request => RequestStaysOff(cfg, w);
    case Listen(switched, read) => ListenStaysOff(cfg, w, switched, read);
    case TakeOver(env, healthRead) => TakeOverStaysOff(cfg, w, env, healthRead);
    case NoteGap => GapStaysOff(cfg, w);
    case CleanUp => CleanStaysOff(cfg, w);
    case Adapt(ok) => AdaptStaysOff(w, ok);
    case Send(ok) => SendStaysOff(cfg, w, ok);
    case LinkUp => ThreadStaysOff(cfg, w, step);
    case LinkError => ThreadStaysOff(cfg, w, step);
    case LinkLost => ThreadStaysOff(cfg, w, step);
    case RawTx(_, _) => ThreadStaysOff(cfg, w, step);
    case SetArmed(_) => ThreadStaysOff(cfg, w, step);
    case _ => ControlStaysOff(cfg, w, step);
  }

  /** An operator's OFF survives presses too. */
  lemma OperatorOffStep(cfg: Config, w: World, step: Step)
    requires Invariant(cfg, w) && OperatorOff(w) && Enabled(w, step) && step != SetArmed(true)
    ensures OperatorOff(Next(cfg, w, step))
  {
    if step.Sample? {
      hide AutoArmReady;
    } else {
      InhibitedStep(cfg, w, step);
    }
  }

  /** `t` follows `w` by some run none of whose steps invites a rearm. */
  ghost predicate FollowsUninvited(cfg: Config, w: World, t: World) {
    exists steps: seq<Step> ::
      t == Run(cfg, w, steps) && forall k :: 0 <= k < |steps| ==> !Invites(Run(cfg, w, steps[..k]), steps[k])
  }

  /** Rearm gating: an inhibited node stays disarmed through every continuation, until a new physical
      press is sampled or the service arms it. */
  lemma RearmNeedsInvitation(cfg: Config, w: World, t: World)
    requires Reachable(cfg, w) && Inhibited(w) && FollowsUninvited(cfg, w, t)
    ensures Inhibited(t)
  {
    hide Reachable, Run, Inhibited, Invites, Invariant;
    ReachableKeeps(cfg, w);
    var steps: seq<Step> :|
      t == Run(cfg, w, steps) && forall k :: 0 <= k < |steps| ==> !Invites(Run(cfg, w, steps[..k]), steps[k]);
    InhibitedRun(cfg, w, steps);
  }

  lemma {:induction false} InhibitedRun(cfg: Config, w: World, steps: seq<Step>)
    requires Invariant(cfg, w) && Inhibited(w)
    requires forall k :: 0 <= k < |steps| ==> !Invites(Run(cfg, w, steps[..k]), steps[k])
    ensures Invariant(cfg, Run(cfg, w, steps)) && Inhibited(Run(cfg, w, steps))
    decreases |steps|
  {
    hide Next, Enabled, Inhibited, Invites, Invariant;
    if steps != [] {
      var init, last := steps[..|steps| - 1], steps[|steps| - 1];
      forall k | 0 <= k < |init| ensures !Invites(Run(cfg, w, init[..k]), init[k]) {
        assert init[..k] == steps[..k];
      }
      InhibitedRun(cfg, w, init);
      if Enabled(Run(cfg, w, init), last) {
        NextKeeps(cfg, Run(cfg, w, init), last);
        InhibitedStep(cfg, Run(cfg, w, init), last);
      }
    }
  }

  /** `t` follows `w` by some run without a service call that arms. */
  ghost predicate FollowsUnarmed(cfg: Config, w: World, t: World) {
    exists steps: seq<Step> ::
      t == Run(cfg, w, steps) && forall k :: 0 <= k < |steps| ==> steps[k] != SetArmed(true)
  }

  /** After `set_armed(false)` nothing but `set_armed(true)` arms again: no press, no automatic arming. */
  lemma OperatorOffLasts(cfg: Config, w: World, t: World)
    requires Reachable(cfg, w) && FollowsUnarmed(cfg, Next(cfg, w, SetArmed(false)), t)
    ensures OperatorOff(t)
  {
    hide Reachable, Run, Next, OperatorOff, Invariant;
    ReachableKeeps(cfg, w);
    var off := Next(cfg, w, SetArmed(false));
    SetArmedSwitchesOff(cfg, w);
    NextKeeps(cfg, w, SetArmed(false));
    var steps: seq<Step> :|
      t == Run(cfg, off, steps) && forall k :: 0 <= k < |steps| ==> steps[k] != SetArmed(true);
    OperatorOffRun(cfg, off, steps);
  }

  lemma {:induction false} OperatorOffRun(cfg: Config, w: World, steps: seq<Step>)
    requires Invariant(cfg, w) && OperatorOff(w)
    requires forall k :: 0 <= k < |steps| ==> steps[k] != SetArmed(true)
    ensures Invariant(cfg, Run(cfg, w, steps)) && OperatorOff(Run(cfg, w, steps))
    decreases |steps|
  {
    hide Next, Enabled, OperatorOff, Invariant;
    if steps != [] {
      var init, last := steps[..|steps| - 1], steps[|steps| - 1];
      OperatorOffRun(cfg, w, init);
      if Enabled(Run(cfg, w, init), last) {
        NextKeeps(cfg, Run(cfg, w, init), last);
        OperatorOffStep(cfg, Run(cfg, w, init), last);
      }
    }
  }

  lemma SetArmedSwitchesOff(cfg: Config, w: World)
    ensures Enabled(w, SetArmed(false)) && OperatorOff(Next(cfg, w, SetArmed(false)))
  {
  }

  // ----- How a session ends -----

  /** The clean-up after an idle wait for commands, which asks nobody to rearm. */
  predicate IdleCleanUp(cfg: Config, w: World, step: Step) {
    && step.CleanUp? && w.local.decision.control == S.Passive
    && !S.CommandFresh(cfg.safety, w.local.inputs.now, w.local.inputs.command)
  }

  predicate ArmedOrInhibited(w: World) { w.p.node.want.requestedArm || w.p.node.want.autoArmInhibited }

  lemma DisarmInhibits(p: Progress)
    ensures var want := RequestInternalDisarm(p, true).node.want;
            p.node.want.requestedArm || p.node.want.autoArmInhibited ==> want.autoArmInhibited
  {
  }

  lemma RestoreEndsSession(cfg: Config, w: World, env: NoOutputEnv)
    requires Invariant(cfg, w) && w.p.node.want.requestedArm && Enabled(w, Restore(env))
    ensures ArmedOrInhibited(RestoreStep(cfg, w, env))
  {
    hide EnterNoOutput, RequestInternalDisarm, S.RequestArm, Accounts, InOrder, WindsUp;
    RestoreLeaves(cfg, w, env);
    DisarmInhibits(EnterNoOutput(cfg, w.p, env).p);
  }

  lemma TakeOverEndsSession(cfg: Config, w: World, env: TakeoverEnv, healthRead: bool)
    requires Invariant(cfg, w) && w.p.node.want.requestedArm && Enabled(w, TakeOver(env, healthRead))
    ensures ArmedOrInhibited(TakeOverStep(cfg, w, env, healthRead))
  {
    hide EnterVehicleMode, RequestInternalDisarm, S.RequestArm, Accounts, InOrder, WindsUp;
    var resume := w.local.phase != ArmTakeover && w.local.moving;
    TakeOverTries(cfg, w, resume, env);
    DisarmInhibits(EnterVehicleMode(cfg, w.p, w.local.inputs.vehicle, resume, env).p);
  }

  lemma SendEndsSession(cfg: Config, w: World, ok: bool)
    requires w.p.node.want.requestedArm
    ensures ArmedOrInhibited(SendStep(cfg, w, ok))
  {
    hide Transmit, MaySend, Frames;
    TransmitKeepsNode(w.p, Frames(cfg, w.local.frameIndex));
  }

  lemma GapKeepsSession(cfg: Config, w: World)
    requires w.p.node.want.requestedArm
    ensures GapStep(cfg, w).p.node.want.requestedArm
  {
    hide NoteDecision, MarkGap, NoteOf;
    var d := w.local.decision;
    GapKeepsArming(cfg, w.p, NoteOf(cfg, w.local.inputs, d),
                   w.local.previous == S.Active && (d.lateralArmed || d.longitudinalArmed));
  }

  lemma ControlEndsSession(cfg: Config, w: World, step: Step)
    requires w.p.node.want.requestedArm && !IdleCleanUp(cfg, w, step)
    requires step.Check? || step.Decide? || step.Drop? || step.Choose? || step.Listen? || step.CleanUp? || step.Adapt?
    ensures ArmedOrInhibited(Next(cfg, w, step))
  {
    hide RequestInternalDisarm, S.Update, S.RequestArm, S.CommandFresh, TakeoverReady, MovingResume, RetryWanted;
    DisarmInhibits(w.p);
    if step.Listen? {
      DisarmInhibits(Try(w.p, step.switched, Mode(NO_OUTPUT, cfg.safety.requiredSafetyParam)).p);
    }
  }

  lemma SampleKeepsSession(cfg: Config, w: World, i: S.Inputs, preflight: bool)
    requires w.p.node.want.requestedArm
    ensures SampleStep(cfg, w, i, preflight).p.node.want.requestedArm
  {
    hide AutoArmReady;
  }

  lemma RequestEndsSession(cfg: Config, w: World)
    requires w.p.node.want.requestedArm
    ensures ArmedOrInhibited(RequestStep(cfg, w))
  {
    hide RequestInternalDisarm, S.RequestArm, AfterRequest;
    DisarmInhibits(w.p);
  }

  lemma ThreadEndsSession(cfg: Config, w: World, step: Step)
    requires w.p.node.want.requestedArm
    requires step.LinkUp? || step.LinkError? || step.LinkLost? || step.RawTx? || step == SetArmed(true)
    ensures ArmedOrInhibited(Next(cfg, w, step))
  {
    hide RequestInternalDisarm, RawTransmit;
    DisarmInhibits(Link(w.p, true));
    DisarmInhibits(Link(w.p, false));
    if step.RawTx? {
      RawTransmitKeepsNode(cfg, w.p, step.address, step.wellFormed);
    }
  }

  /** An arm request is only ever withdrawn by the operator, by the clean-up after an idle wait, or together
      with an inhibition. */
  lemma SessionsEndInhibited(cfg: Config, w: World, step: Step)
    requires Invariant(cfg, w) && w.p.node.want.requestedArm && Enabled(w, step)
    requires step != SetArmed(false) && !IdleCleanUp(cfg, w, step)
    ensures ArmedOrInhibited(Next(cfg, w, step))
  {
    hide RestoreStep, SampleStep, RequestStep, ListenStep, TakeOverStep, GapStep, CleanStep, AdaptStep, SendStep,
         CheckStep, DecideStep, DropStep, ChooseStep, Connect, Disconnect, RawTransmit, ArmService,
         Invariant, Enabled, IdleCleanUp;
    match step
    case Restore(env) => RestoreEndsSession(cfg, w, env);
    case Sample(inputs, preflight) => SampleKeepsSession(cfg, w, inputs, preflight);
    case Request => RequestEndsSession(cfg, w);
    case TakeOver(env, healthRead) => TakeOverEndsSession(cfg, w, env, healthRead);
    case NoteGap => GapKeepsSession(cfg, w);
    case Send(ok) => SendEndsSession(cfg, w, ok);
    case LinkUp => ThreadEndsSession(cfg, w, step);
    case LinkError => ThreadEndsSession(cfg, w, step);
    case LinkLost => ThreadEndsSession(cfg, w, step);
    case RawTx(_, _) => ThreadEndsSession(cfg, w, step);
    case SetArmed(_) => ThreadEndsSession(cfg, w, step);
    case _ => ControlEndsSession(cfg, w, step);
  }

  /** Rearm gating over whole runs: once any step other than the operator's own or the idle clean-up takes
      the arm request of a reachable session away, the node stays disarmed in every continuation, until a new
      physical press is sampled or the service arms it. */
  lemma DroppedSessionStaysDisarmed(cfg: Config, w: World, step: Step, t: World)
    requires Reachable(cfg, w) && Enabled(w, step) && w.p.node.want.requestedArm
    requires step != SetArmed(false) && !IdleCleanUp(cfg, w, step)
    requires !Next(cfg, w, step).p.node.want.requestedArm && FollowsUninvited(cfg, Next(cfg, w, step), t)
    ensures !t.p.node.want.requestedArm
  {
    hide Run, Next, Enabled, Invites, Invariant, IdleCleanUp;
    var steps :| w == Run(cfg, Initial(cfg), steps);
    AlwaysInvariant(cfg, steps);
    SessionsEndInhibited(cfg, w, step);
    NextIsReachable(cfg, steps, step);
    RearmNeedsInvitation(cfg, Next(cfg, w, step), t);
  }

  lemma NextIsReachable(cfg: Config, steps: seq<Step>, step: Step)
    requires Enabled(Run(cfg, Initial(cfg), steps), step)
    ensures Reachable(cfg, Next(cfg, Run(cfg, Initial(cfg), steps), step))
  {
    hide Next, Enabled;
    var all := steps + [step];
    assert all[..|all| - 1] == steps;
    assert Next(cfg, Run(cfg, Initial(cfg), steps), step) == Run(cfg, Initial(cfg), all);
  }

  // ----- The schedule of the restoration attempts -----

  /** An outage that has seen a failure restores only by the retry path, whatever else the node is asked to
      do meanwhile. */
  lemma FailedOutageOnlyRetries(cfg: Config, w: World, env: NoOutputEnv)
    requires Reachable(cfg, w) && FailuresSince(w.p.log) > 0 && Enabled(w, Restore(env))
    ensures Retrying(w.local.phase) && w.p.node.own.recoveryPending
    ensures !w.p.node.own.vehicleMode && !w.p.node.want.requestedArm && !w.p.node.want.appliedArm
  {
    hide Reachable, Read, Lawful;
    ReachableKeeps(cfg, w);
    FailureCount(w.p.log);
  }

  /** All attempts of an outage but the first are spaced by the backoff: with n failures behind it, every
      attempt was found due for itself, not before min(2^(n-1), 30) s after the last failure. */
  lemma AttemptsAreSpaced(cfg: Config, w: World, k: nat)
    requires Reachable(cfg, w) && k < |w.p.log|
    requires w.p.log[k].RecoveryStarted? && FailuresSince(w.p.log[..k]) > 0
    ensures exists j :: 0 <= j < k && DueAt(w.p.log[..k], j) && WaitedAt(w.p.log[..k], j)
  {
    hide Reachable, Read, Lawful, DueAt, WaitedAt;
    ReachableKeeps(cfg, w);
    LedgerOf(cfg, w);
    AttemptWaited(w.p.log, k);
  }

  /** When the clock is monotone, n failures of one outage span at least the sum of the first n - 1 delays. */
  lemma OutageIsSpaced(cfg: Config, w: World)
    requires Reachable(cfg, w) && Chronological(w.p.log) && FailuresSince(w.p.log) > 0
    ensures exists j, k :: 0 <= j < |w.p.log| && 0 <= k < |w.p.log| && OutageFrom(w.p.log, j, k)
  {
    hide Reachable, Read, Lawful, Chronological, RecoveryRetryModel.Backoff,
         RecoveryRetryModel.TotalBackoff, FirstFailureAt, LastFailureAt;
    ReachableKeeps(cfg, w);
    LedgerOf(cfg, w);
    var log := w.p.log;
    FailureCount(log);
    var j := OutageSpans(log);
    var k := ScheduledByLastFailure(log);
    SumGrows(FailuresSince(log) - 1);
    assert OutageFrom(log, j, k);
  }

  /** The outage's first failure at j and its last one at k are apart by the delays between them. */
  predicate OutageFrom(log: Log, j: nat, k: nat)
    requires j < |log| && k < |log| && FailuresSince(log) > 0
  {
    && FirstFailureAt(log, j) && LastFailureAt(log, k)
    && log[k].at - log[j].at >= RecoveryRetryModel.TotalBackoff(FailuresSince(log) - 1) * RecoveryRetryModel.SECOND
  }

  lemma LedgerOf(cfg: Config, w: World)
    requires Invariant(cfg, w)
    ensures Lawful(w.p.log)
  {
  }

  // ----- The first restoration of an outage -----

  /** In every reachable state, whichever phase restores: if this outage has seen no failure yet, every
      flagged ECU is asked, or the attempt fails, and no ECU is declared restored before both were asked. */
  lemma RestorationAsksInRuns(cfg: Config, w: World, env: NoOutputEnv) returns (asked: Log)
    requires Reachable(cfg, w) && Enabled(w, Restore(env)) && !(w.local.phase == CleanRestore && !w.p.node.connected)
    requires FailuresSince(w.p.log) == 0 || !w.p.node.own.retry.pending
    ensures var t := Next(cfg, w, Restore(env)).p;
            && AddsNoResumption(w.p.log, asked) && AddsNoRequest(asked, t.log)
            && (env.elm ==> FlaggedAsked(w.p, asked, Radar, env.radar, EnterNoOutput(cfg, w.p, env).Failed?) &&
                            FlaggedAsked(w.p, asked, Camera, env.camera, EnterNoOutput(cfg, w.p, env).Failed?))
            && (!t.node.own.recoveryPending ==> env.elm || !(w.p.node.own.cameraDisabled || w.p.node.own.radarDisabled))
  {
    hide Reachable, EnterNoOutput, FlaggedAsked, S.RequestArm, InOrder, Read, Lawful;
    ReachableKeeps(cfg, w);
    FailureCount(w.p.log);
    MayRestore(cfg, w, env);
    EnterNoOutputKeeps(cfg, w.p, env);
    asked := BothAskedBeforeEitherConfirmed(cfg, w.p, env);
    RestoreStepAdds(cfg, w, env);
    AddsInTurn(asked, EnterNoOutput(cfg, w.p, env).p.log, Next(cfg, w, Restore(env)).p.log);
  }

  lemma AddsInTurn(a: Log, b: Log, c: Log)
    requires AddsNoRequest(a, b) && AddsNoRequest(b, c)
    ensures AddsNoRequest(a, c)
  {
  }

  /** What the step adds to the section's own log. */
  lemma RestoreStepAdds(cfg: Config, w: World, env: NoOutputEnv)
    requires Enabled(w, Restore(env)) && !(w.local.phase == CleanRestore && !w.p.node.connected)
    ensures var r, t := EnterNoOutput(cfg, w.p, env), Next(cfg, w, Restore(env)).p;
            AddsNoRequest(r.p.log, t.log) && (r.p.node.own.recoveryPending ==> t.node.own.recoveryPending)
  {
    hide EnterNoOutput, S.RequestArm;
  }
}
