/** No reachable state keeps the ECUs for good: a pending recovery, and a vehicle mode that nobody asks for any
    more, is ended by the control thread, left alone with a Panda and ECUs that answer. */
module RecoveryCompletes {
  import opened EcuLedger
  import opened EcuSections
  import opened ControlLoop
  import opened ControlInvariant
  import S = Supervisor

  // ----- Answers under which a restoration succeeds -----

  const ANSWERING := RestoreEnv(0, true, true, true)

  function Working(now: int): NoOutputEnv {
    NoOutputEnv(now, now, true, true, ANSWERING, true, ANSWERING, true, 1, 1, true, true, true)
  }

  lemma ResumesQuietly(e: Effort, ecu: Ecu)
    ensures RestoreAndBeat(e, ecu, ANSWERING, true).errors == e.errors
    ensures Confirm(e, ecu, 1).errors == e.errors
  {
  }

  lemma BothResume(e: Effort, now: int)
    ensures RestoreEcus(e, Working(now)).errors == e.errors
  {
    hide RestoreAndBeat, Confirm;
    var e1 := RestoreAndBeat(e, Radar, ANSWERING, true);
    var e2 := RestoreAndBeat(e1, Camera, ANSWERING, true);
    ResumesQuietly(e, Radar);
    ResumesQuietly(e1, Camera);
    ResumesQuietly(e2, Radar);
    ResumesQuietly(Confirm(e2, Radar, 1), Camera);
  }

  lemma StandbyConfirmed(cfg: Config, p: Progress, now: int)
    ensures ConfirmNoOutput(cfg, p, Working(now)).Done?
  {
  }

  lemma WorkingRestores(cfg: Config, p: Progress, now: int)
    ensures EnterNoOutput(cfg, p, Working(now)).Done?
  {
    hide RestoreEcus, ConfirmNoOutput;
    var beat := Continue(Try(BeginRecovery(p, now), true, Heartbeat), false);
    var mode := Mode(ELM327, if p.node.want.preserveSession then cfg.safety.requiredSafetyParam else ELM327_ECAN_PARAM);
    BothResume(Continue(Try(beat.p, true, mode), beat.errors), now);
    StandbyConfirmed(cfg, RestoreFlagged(cfg, beat, p.node.want.preserveSession, Working(now)).p, now);
  }

  // ----- The way to a completed recovery -----

  /** A step of the control thread, or a reconnection; the clock reads `now`. */
  predicate Cooperative(step: Step, now: int) {
    && (step.Check? ==> step.now == now)
    && (step.Restore? ==> step.noOutput.now == now && step.noOutput.failedAt == now)
    && !step.LinkError? && !step.LinkLost? && !step.RawTx? && !step.SetArmed?
  }

  const ANY_DISABLE := DisableEnv(true, Returned, true, true, 0)

  const ANY_TAKEOVER := TakeoverEnv(true, true, true, ANY_DISABLE, true, ANY_DISABLE, true,
                                    true, true, true, true, true, true, true)

  /** The next step on the way. */
  function Forward(w: World, now: int): Step {
    if !w.p.node.connected then LinkUp
    else
      match w.local.phase
      case Head => Check(now)
      case MidCheck => Check(now)
      case Sampling => Sample(NO_INPUTS, false)
      case Requesting => Request
      case Listening => Listen(true, true)
      case ArmTakeover => TakeOver(ANY_TAKEOVER, true)
      case TakingOver => TakeOver(ANY_TAKEOVER, true)
      case Deciding => Decide
      case Dropping => Drop(true)
      case Gap => NoteGap
      case Choosing => Choose
      case Cleaning => CleanUp
      case Output => Adapt(true)
      case Sending => Send(true)
      case _ => Restore(Working(now))
  }

  predicate Restores(phase: Phase) {
    Retrying(phase) || phase == ArmRestore || phase == GapRestore || phase == CleanRestore
  }

  /** What the retry path waits for. */
  predicate Obstructed(n: Node) { n.want.appliedArm || n.own.vehicleMode }

  /** How far this phase is from the end of the iteration. */
  function Remaining(phase: Phase): nat {
    match phase
    case Head => 1
    case Cleaning => 1
    case Sending => 2
    case TakingOver => 2
    case Output => 3
    case Choosing => 4
    case Gap => 5
    case Dropping => 6
    case Deciding => 7
    case MidCheck => 8
    case Listening => 9
    case ArmTakeover => 9
    case Requesting => 10
    case Sampling => 11
    case _ => 0
  }

  const FARTHEST := 23

  function Rank(n: Node, phase: Phase): (r: nat)
    ensures r <= FARTHEST
  {
    if !n.connected then FARTHEST
    else if !Obstructed(n) || Restores(phase) then Remaining(phase)
    else if phase == Requesting then 12
    else if phase == Sampling then 13
    else 13 + Remaining(phase)
  }

  function Distance(w: World): nat { Rank(w.p.node, w.local.phase) }

  /** The stock ECUs are to be given back. */
  predicate Unsettled(n: Node) { n.own.recoveryPending || (n.own.vehicleMode && !n.want.requestedArm) }

  /** The next attempt is not scheduled for later. */
  predicate Scheduled(w: World, now: int) {
    w.p.node.own.retry.pending ==> w.p.node.own.retry.nextAttempt <= now
  }

  /** The step gives the ECUs back, or that is still to be done, as due as before and closer to its end. */
  predicate Advances(w: World, t: World, now: int) {
    if Unsettled(t.p.node) then Distance(t) < Distance(w) && Scheduled(t, now) else Settles(w.p.log, t)
  }

  /** Out of vehicle mode with nothing pending and a recovery reported since, connected, nobody asking for the ECUs,
      and the control thread past its restoration. */
  predicate Settles(a: Log, t: World) {
    var n := t.p.node;
    && !n.own.vehicleMode && !n.own.recoveryPending && RecoveredSince(a, t.p.log)
    && n.connected && !n.want.requestedArm
    && (t.local.phase == Head || t.local.phase == Sampling || t.local.phase == Deciding)
  }

  predicate RecoveredSince(a: Log, b: Log) {
    exists k :: |a| <= k < |b| && b[k] == Recovered
  }

  lemma UnsettledUnasked(n: Node, phase: Phase, applied: nat)
    requires Orderly(n, phase, applied) && Unsettled(n)
    ensures !n.want.requestedArm
  {
  }

  lemma RestoreAdvances(cfg: Config, w: World, now: int)
    requires Scheduled(w, now) && Invariant(cfg, w) && w.p.node.connected && Unsettled(w.p.node)
    requires Restores(w.local.phase)
    ensures Advances(w, RestoreStep(cfg, w, Working(now)), now)
  {
    hide EnterNoOutput, AbortRequest, Accounts, Orderly, WindsUp, Read, Sound, Ruled, Distance;
    UnsettledUnasked(w.p.node, w.local.phase, w.local.appliedGeneration);
    var r, t := EnterNoOutput(cfg, w.p, Working(now)), RestoreStep(cfg, w, Working(now));
    MayRestore(cfg, w, Working(now));
    EnterNoOutputKeeps(cfg, w.p, Working(now));
    EnterNoOutputGrows(cfg, w.p, Working(now));
    WorkingRestores(cfg, w.p, now);
    assert t.p.log[|r.p.log| - 1] == Recovered;
  }

  lemma CheckAdvances(cfg: Config, w: World, now: int)
    requires Scheduled(w, now) && Invariant(cfg, w) && w.p.node.connected && Unsettled(w.p.node)
    requires w.local.phase == Head || w.local.phase == MidCheck
    ensures Advances(w, CheckStep(w, now), now)
  {
    hide Accounts;
  }

  lemma SampleAdvances(cfg: Config, w: World, now: int)
    requires Scheduled(w, now) && w.p.node.connected && Unsettled(w.p.node) && w.local.phase == Sampling
    ensures Advances(w, SampleStep(cfg, w, NO_INPUTS, false), now)
  {
  }

  lemma RequestAdvances(cfg: Config, w: World, now: int)
    requires Scheduled(w, now) && Invariant(cfg, w) && w.local.phase == Requesting
    requires w.p.node.connected && Unsettled(w.p.node)
    ensures Advances(w, RequestStep(cfg, w), now)
  {
    hide Accounts, S.RequestArm, RequestInternalDisarm;
  }

  lemma TakeOverAdvances(cfg: Config, w: World, now: int)
    requires Scheduled(w, now) && Invariant(cfg, w) && w.p.node.connected && Unsettled(w.p.node)
    requires w.local.phase == ArmTakeover || w.local.phase == TakingOver
    ensures Advances(w, TakeOverStep(cfg, w, ANY_TAKEOVER, true), now)
  {
    hide EnterVehicleMode, RequestInternalDisarm, S.RequestArm, Accounts, Orderly;
    var resume := w.local.phase != ArmTakeover && w.local.moving;
    TakeOverTries(cfg, w, resume, ANY_TAKEOVER);
    DisarmMeans(EnterVehicleMode(cfg, w.p, w.local.inputs.vehicle, resume, ANY_TAKEOVER).p, true);
  }

  /** A later phase of the same iteration, or its end, without a new obstacle. */
  lemma Closer(w: World, t: World, now: int)
    requires Scheduled(w, now) && t.p.node.own.retry == w.p.node.own.retry
    requires w.p.node.connected && t.p.node.connected && Unsettled(t.p.node)
    requires Obstructed(t.p.node) ==> Obstructed(w.p.node)
    requires Remaining(t.local.phase) < Remaining(w.local.phase) < Remaining(Requesting)
    ensures Advances(w, t, now)
  {
  }

  lemma SendAdvances(cfg: Config, w: World, now: int)
    requires Scheduled(w, now) && w.p.node.connected && Unsettled(w.p.node) && w.local.phase == Sending
    ensures Advances(w, SendStep(cfg, w, true), now)
  {
    hide Transmit, MaySend, Frames, RequestInternalDisarm, Advances;
    TransmitKeepsNode(w.p, Frames(cfg, w.local.frameIndex));
    DisarmMeans(Note(w.p, TemplateLost), true);
    Closer(w, SendStep(cfg, w, true), now);
  }

  lemma GapAdvances(cfg: Config, w: World, now: int)
    requires Scheduled(w, now) && w.p.node.connected && Unsettled(w.p.node) && w.local.phase == Gap
    ensures Advances(w, GapStep(cfg, w), now)
  {
    hide NoteDecision, MarkGap, NoteOf, Advances;
    var d := w.local.decision;
    GapBookkeeping(cfg, w.p, NoteOf(cfg, w.local.inputs, d),
                   w.local.previous == S.Active && (d.lateralArmed || d.longitudinalArmed));
    Closer(w, GapStep(cfg, w), now);
  }

  lemma CleanAdvances(cfg: Config, w: World, now: int)
    requires Scheduled(w, now) && w.p.node.connected && Unsettled(w.p.node) && w.local.phase == Cleaning
    ensures Advances(w, CleanStep(cfg, w), now)
  {
    hide RequestInternalDisarm, S.CommandFresh, Advances;
    DisarmMeans(w.p, true);
    DisarmMeans(w.p, false);
    Closer(w, CleanStep(cfg, w), now);
  }

  lemma DecideAdvances(cfg: Config, w: World, now: int)
    requires Scheduled(w, now) && w.p.node.connected && Unsettled(w.p.node) && w.local.phase == Deciding
    ensures Advances(w, DecideStep(cfg, w), now)
  {
    hide S.Update, Advances;
    Closer(w, DecideStep(cfg, w), now);
  }

  lemma ChooseAdvances(cfg: Config, w: World, now: int)
    requires Scheduled(w, now) && w.p.node.connected && Unsettled(w.p.node) && w.local.phase == Choosing
    ensures Advances(w, ChooseStep(cfg, w), now)
  {
    hide TakeoverReady, MovingResume, Advances;
    Closer(w, ChooseStep(cfg, w), now);
  }

  lemma PlainAdvances(cfg: Config, w: World, now: int)
    requires Scheduled(w, now) && w.p.node.connected && Unsettled(w.p.node)
    requires w.local.phase == Listening || w.local.phase == Dropping || w.local.phase == Output
    ensures Advances(w, Next(cfg, w, Forward(w, now)), now)
  {
    hide RequestInternalDisarm, Advances;
    Closer(w, Next(cfg, w, Forward(w, now)), now);
  }

  lemma LinkAdvances(cfg: Config, w: World, now: int)
    requires Invariant(cfg, w) && Scheduled(w, now) && !w.p.node.connected && Unsettled(w.p.node)
    ensures Advances(w, w.(p := Connect(w.p)), now)
  {
    hide Sound, Read, Kept, Orderly, WindsUp, RequestInternalDisarm, Release;
    SoundUnfolds(cfg, w.p);
    UnsettledUnasked(w.p.node, w.local.phase, w.local.appliedGeneration);
    DisarmMeans(Link(w.p, true), true);
    DisarmOwn(Link(w.p, true), true);
  }

  lemma ForwardAdvances(cfg: Config, w: World, now: int)
    requires Scheduled(w, now) && Invariant(cfg, w) && Unsettled(w.p.node)
    ensures Enabled(w, Forward(w, now)) && Cooperative(Forward(w, now), now)
    ensures Advances(w, Next(cfg, w, Forward(w, now)), now)
  {
    hide CheckStep, RestoreStep, SampleStep, RequestStep, ListenStep, TakeOverStep, DecideStep, DropStep, GapStep,
         ChooseStep, CleanStep, AdaptStep, SendStep, Connect, Invariant, Unsettled, Scheduled, Advances;
    if !w.p.node.connected {
      LinkAdvances(cfg, w, now);
    } else {
      match w.local.phase
      case Head => CheckAdvances(cfg, w, now);
      case MidCheck => CheckAdvances(cfg, w, now);
      case Sampling => SampleAdvances(cfg, w, now);
      case Requesting => RequestAdvances(cfg, w, now);
      case ArmTakeover => TakeOverAdvances(cfg, w, now);
      case TakingOver => TakeOverAdvances(cfg, w, now);
      case Gap => GapAdvances(cfg, w, now);
      case Sending => SendAdvances(cfg, w, now);
      case Listening => PlainAdvances(cfg, w, now);
      case Deciding => DecideAdvances(cfg, w, now);
      case Dropping => PlainAdvances(cfg, w, now);
      case Choosing => ChooseAdvances(cfg, w, now);
      case Cleaning => CleanAdvances(cfg, w, now);
      case Output => PlainAdvances(cfg, w, now);
      case _ => RestoreAdvances(cfg, w, now);
    }
  }

  lemma {:induction false} RunAfter(cfg: Config, w: World, first: Step, rest: seq<Step>)
    requires Enabled(w, first)
    ensures Run(cfg, w, [first] + rest) == Run(cfg, Next(cfg, w, first), rest)
    decreases |rest|
  {
    hide Next, Enabled;
    var all := [first] + rest;
    if rest == [] {
      assert all[..0] == [];
      assert Run(cfg, w, []) == w;
    } else {
      RunAfter(cfg, w, first, rest[..|rest| - 1]);
      assert all[..|all| - 1] == [first] + rest[..|rest| - 1];
    }
  }

  /** These steps give the ECUs back, at this time. */
  ghost predicate Completes(cfg: Config, w: World, now: int, steps: seq<Step>) {
    && (forall k :: 0 <= k < |steps| ==> Cooperative(steps[k], now))
    && Settles(w.p.log, Run(cfg, w, steps))
  }

  lemma OneStepCompletes(cfg: Config, w: World, now: int, step: Step)
    requires Enabled(w, step) && Cooperative(step, now)
    requires Settles(w.p.log, Next(cfg, w, step))
    ensures Completes(cfg, w, now, [step])
  {
    hide Next, Enabled, Settles;
    RunAfter(cfg, w, step, []);
    assert [step] + [] == [step];
  }

  lemma ThenCompletes(cfg: Config, w: World, now: int, step: Step, rest: seq<Step>)
    requires Enabled(w, step) && Cooperative(step, now) && Completes(cfg, Next(cfg, w, step), now, rest)
    ensures Completes(cfg, w, now, [step] + rest)
  {
    hide Next, Enabled, Run;
    RunAfter(cfg, w, step, rest);
    NextGrows(cfg, w, step);
  }

  lemma {:induction false} CompletesFrom(cfg: Config, w: World, now: int) returns (steps: seq<Step>)
    requires Scheduled(w, now) && Invariant(cfg, w) && Unsettled(w.p.node)
    ensures Completes(cfg, w, now, steps) && |steps| <= Distance(w) + 1
    decreases Distance(w)
  {
    hide Next, Enabled, Invariant, Completes, Forward, Distance, Scheduled, Unsettled, Settles;
    ForwardAdvances(cfg, w, now);
    var t := Next(cfg, w, Forward(w, now));
    if Unsettled(t.p.node) {
      NextKeeps(cfg, w, Forward(w, now));
      var rest := CompletesFrom(cfg, t, now);
      ThenCompletes(cfg, w, now, Forward(w, now), rest);
      steps := [Forward(w, now)] + rest;
    } else {
      OneStepCompletes(cfg, w, now, Forward(w, now));
      steps := [Forward(w, now)];
    }
  }

  /** Whatever has happened before, the ECUs can be given back: from every reachable state with a pending
      recovery, or in vehicle mode without an arm request, at most 24 steps of the control thread, after a
      reconnection where the link is down, lead out of vehicle mode to a reported recovery when Panda and the
      ECUs answer, at any time that is not before the scheduled one. No combination of flags and phase blocks
      that for good. */
  lemma RecoveryCanComplete(cfg: Config, w: World, now: int) returns (steps: seq<Step>)
    requires Reachable(cfg, w) && Scheduled(w, now) && Unsettled(w.p.node)
    ensures Completes(cfg, w, now, steps) && |steps| <= FARTHEST + 1
  {
    hide Reachable, Completes, Invariant;
    ReachableKeeps(cfg, w);
    steps := CompletesFrom(cfg, w, now);
  }

  /** An operator's off in vehicle mode is followed by a restoration, whatever phase it finds the loop in. */
  lemma OffCanComplete(cfg: Config, w: World, now: int) returns (steps: seq<Step>)
    requires Reachable(cfg, w) && Scheduled(w, now) && w.p.node.own.vehicleMode
    ensures Completes(cfg, Next(cfg, w, SetArmed(false)), now, steps) && |steps| <= FARTHEST + 1
  {
    hide Reachable, Completes, Invariant, Enabled;
    ReachableKeeps(cfg, w);
    OffUnsettles(cfg, w, now);
    NextKeeps(cfg, w, SetArmed(false));
    steps := CompletesFrom(cfg, Next(cfg, w, SetArmed(false)), now);
  }

  lemma OffUnsettles(cfg: Config, w: World, now: int)
    requires Scheduled(w, now) && w.p.node.own.vehicleMode
    ensures var t := Next(cfg, w, SetArmed(false));
            Enabled(w, SetArmed(false)) && Scheduled(t, now) && Unsettled(t.p.node)
  {
  }
}
