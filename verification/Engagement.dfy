/** No reachable state keeps the car out of control for good: with a driver who asks for it, a Panda and ECUs that
    answer and a command stream, the control thread takes the ECUs over and steers. */
module Engagement {
  import opened EcuLedger
  import opened EcuSections
  import opened ControlLoop
  import opened ControlInvariant
  import A = EcuAnswers
  import C = RecoveryCompletes
  import R = SupervisorRuns
  import S = Supervisor

  // ----- Coming to rest -----

  /** Connected, out of vehicle mode, nobody asking for the ECUs; a recovery is owed only while the clean-up that
      asked for it is under way. */
  predicate Calm(w: World) {
    var n := w.p.node;
    && n.connected && !n.own.vehicleMode && !n.want.requestedArm
    && (n.own.recoveryPending ==> w.local.phase == CleanRestore)
  }

  /** The decision of this iteration has been made. */
  predicate Decided(phase: Phase) {
    phase == Gap || phase == GapRestore || phase == Choosing || phase == Cleaning || phase == CleanRestore ||
    phase == Output || phase == Sending || phase == Head
  }

  /** How far it is to the head of the loop. */
  function ToGo(phase: Phase): nat {
    match phase
    case Head => 0
    case Sending => 1
    case Output => 2
    case CleanRestore => 1
    case Cleaning => 2
    case Choosing => 3
    case GapRestore => 1
    case Gap => 4
    case Dropping => 5
    case Deciding => 6
    case MidCheck => 7
    case ArmRestore => 7
    case Requesting => 8
    case Sampling => 9
    case _ => 10
  }

  /** The next step there. A takeover that nobody asks for any more is refused. */
  function Onward(w: World): Step {
    match w.local.phase
    case MidCheck => Check(0)
    case Sampling => Sample(NO_INPUTS, false)
    case Requesting => Request
    case Listening => Listen(true, true)
    case ArmTakeover => TakeOver(REFUSED, true)
    case TakingOver => TakeOver(REFUSED, true)
    case Deciding => Decide
    case Dropping => Drop(true)
    case Gap => NoteGap
    case Choosing => Choose
    case Cleaning => CleanUp
    case Output => Adapt(true)
    case Sending => Send(true)
    case Head => Check(0)
    case _ => Restore(C.Working(0))
  }

  const REFUSED := C.ANY_TAKEOVER.(heartbeat := false)

  /** One such step. */
  predicate Closer(w: World, t: World) {
    Calm(t) && ToGo(t.local.phase) < ToGo(w.local.phase) && (Decided(w.local.phase) ==> t.sup == w.sup)
  }

  lemma RestoreCloser(cfg: Config, w: World)
    requires Invariant(cfg, w) && Calm(w)
    requires w.local.phase == ArmRestore || w.local.phase == GapRestore || w.local.phase == CleanRestore
    ensures Closer(w, RestoreStep(cfg, w, C.Working(0)))
  {
    hide EnterNoOutput, AbortRequest, Accounts, Orderly, WindsUp, Read, Sound, Ruled;
    MayRestore(cfg, w, C.Working(0));
    EnterNoOutputKeeps(cfg, w.p, C.Working(0));
    C.WorkingRestores(cfg, w.p, 0);
  }

  lemma RequestCloser(cfg: Config, w: World)
    requires Calm(w) && w.local.phase == Requesting
    ensures Closer(w, RequestStep(cfg, w))
  {
    hide S.RequestArm, RequestInternalDisarm;
  }

  lemma GapCloser(cfg: Config, w: World)
    requires Calm(w) && w.local.phase == Gap
    ensures Closer(w, GapStep(cfg, w))
  {
    hide NoteDecision, MarkGap, NoteOf;
    var d := w.local.decision;
    GapBookkeeping(cfg, w.p, NoteOf(cfg, w.local.inputs, d),
                   w.local.previous == S.Active && (d.lateralArmed || d.longitudinalArmed));
  }

  lemma CleanCloser(cfg: Config, w: World)
    requires Calm(w) && w.local.phase == Cleaning
    ensures Closer(w, CleanStep(cfg, w))
  {
    hide RequestInternalDisarm, S.CommandFresh;
    DisarmMeans(w.p, true);
    DisarmMeans(w.p, false);
    DisarmOwn(w.p, true);
    DisarmOwn(w.p, false);
  }

  lemma ChooseCloser(cfg: Config, w: World)
    requires Calm(w) && w.local.phase == Choosing
    ensures Closer(w, ChooseStep(cfg, w))
  {
    hide MovingResume, Commanded;
  }

  lemma SendCloser(cfg: Config, w: World)
    requires Calm(w) && w.local.phase == Sending
    ensures Closer(w, SendStep(cfg, w, true))
  {
    hide RequestInternalDisarm, Frames, Transmit;
  }

  lemma PlainCloser(cfg: Config, w: World)
    requires Calm(w)
    requires w.local.phase == MidCheck || w.local.phase == Sampling || w.local.phase == Listening ||
             w.local.phase == Dropping || w.local.phase == Output
    ensures Enabled(w, Onward(w)) && Closer(w, Next(cfg, w, Onward(w)))
  {
    hide RequestInternalDisarm, Frames, SendStep, RestoreStep, TakeOverStep, DecideStep, GapStep, ChooseStep, CleanStep;
  }

  lemma DecideCloser(cfg: Config, w: World)
    requires Calm(w) && w.local.phase == Deciding
    ensures Closer(w, DecideStep(cfg, w))
  {
    hide S.Update;
  }

  predicate TakesOver(phase: Phase) { phase == ArmTakeover || phase == TakingOver }

  lemma OnwardCloser(cfg: Config, w: World)
    requires Invariant(cfg, w) && Calm(w) && w.local.phase != Head && !TakesOver(w.local.phase)
    ensures Enabled(w, Onward(w)) && Closer(w, Next(cfg, w, Onward(w)))
  {
    hide CheckStep, RestoreStep, SampleStep, RequestStep, ListenStep, TakeOverStep, DecideStep, DropStep, GapStep,
         ChooseStep, CleanStep, AdaptStep, SendStep, Closer, Accounts, WindsUp;
    match w.local.phase
    case ArmRestore => RestoreCloser(cfg, w);
    case GapRestore => RestoreCloser(cfg, w);
    case CleanRestore => RestoreCloser(cfg, w);
    case Requesting => RequestCloser(cfg, w);
    case Gap => GapCloser(cfg, w);
    case Cleaning => CleanCloser(cfg, w);
    case Choosing => ChooseCloser(cfg, w);
    case Deciding => DecideCloser(cfg, w);
    case Sending => SendCloser(cfg, w);
    case Retry => assert false;
    case MidRetry => assert false;
    case _ => PlainCloser(cfg, w);
  }

  /** A refused takeover owes a recovery. */
  lemma RefusalUnsettles(cfg: Config, w: World, now: int)
    requires Calm(w) && TakesOver(w.local.phase) && C.Scheduled(w, now)
    ensures Enabled(w, TakeOver(REFUSED, true))
    ensures var t := TakeOverStep(cfg, w, REFUSED, true); C.Unsettled(t.p.node) && C.Scheduled(t, now)
  {
    hide RequestInternalDisarm, S.RequestArm, MayTakeOver, SilenceBoth, SwitchToVehicleMode;
    var gapResume := w.local.phase == TakingOver && w.local.moving;
    RefusedLeaves(cfg, w.p, w.local.inputs.vehicle, gapResume);
    DisarmOwn(w.p, true);
  }

  lemma RefusedLeaves(cfg: Config, p: Progress, v: S.Vehicle, gapResume: bool)
    requires !p.node.own.vehicleMode
    ensures EnterVehicleMode(cfg, p, v, gapResume, REFUSED) == Failed(p)
  {
    hide EnterVehicleMode;
    A.TakeoverRefusedExactly(cfg, p, v, gapResume, REFUSED);
  }

  // ----- Runs -----

  /** Nothing but the control thread, the arm service and a reconnection acts. */
  predicate Willing(steps: seq<Step>) {
    forall k :: 0 <= k < |steps| ==> !steps[k].LinkError? && !steps[k].LinkLost? && !steps[k].RawTx?
  }

  lemma {:induction false} RunKeeps(cfg: Config, w: World, steps: seq<Step>)
    requires Invariant(cfg, w)
    ensures Invariant(cfg, Run(cfg, w, steps))
    decreases |steps|
  {
    hide Invariant, Next, Enabled;
    if steps != [] {
      var init, last := steps[..|steps| - 1], steps[|steps| - 1];
      RunKeeps(cfg, w, init);
      if Enabled(Run(cfg, w, init), last) { NextKeeps(cfg, Run(cfg, w, init), last); }
    }
  }

  lemma {:induction false} RunJoins(cfg: Config, w: World, steps: seq<Step>, more: seq<Step>)
    ensures Run(cfg, w, steps + more) == Run(cfg, Run(cfg, w, steps), more)
    decreases |more|
  {
    hide Next, Enabled;
    if more == [] {
      assert steps + more == steps;
    } else {
      RunJoins(cfg, w, steps, more[..|more| - 1]);
      assert (steps + more)[..|steps + more| - 1] == steps + more[..|more| - 1];
    }
  }

  /** One more step. */
  lemma RunStep(cfg: Config, w: World, steps: seq<Step>, step: Step)
    requires Enabled(Run(cfg, w, steps), step)
    ensures Run(cfg, w, steps + [step]) == Next(cfg, Run(cfg, w, steps), step)
  {
    hide Next, Enabled;
    assert (steps + [step])[..|steps|] == steps;
  }

  lemma RunNothing(cfg: Config, w: World)
    ensures Run(cfg, w, []) == w
  {
  }

  /** What a completed recovery leaves. */
  lemma RecoveredCalm(cfg: Config, w: World, now: int) returns (steps: seq<Step>)
    requires Invariant(cfg, w) && C.Unsettled(w.p.node) && C.Scheduled(w, now)
    ensures Willing(steps) && |steps| <= 24
    ensures var u := Run(cfg, w, steps); Calm(u) && ToGo(u.local.phase) < 10
  {
    hide Invariant, Run;
    steps := C.CompletesFrom(cfg, w, now);
  }

  // ----- To the head of the loop -----

  /** A step closer, or from a takeover that is refused to the end of the recovery. */
  predicate Approaches(cfg: Config, w: World, steps: seq<Step>) {
    var u := Run(cfg, w, steps);
    && Willing(steps) && |steps| <= (if TakesOver(w.local.phase) then 25 else 1)
    && Invariant(cfg, u) && Closer(w, u)
  }

  lemma Refuse(cfg: Config, w: World) returns (steps: seq<Step>)
    requires Invariant(cfg, w) && Calm(w) && TakesOver(w.local.phase)
    ensures Approaches(cfg, w, steps)
  {
    hide Invariant, Next, Enabled, Run, TakeOverStep;
    CalmScheduled(cfg, w);
    RefusalUnsettles(cfg, w, 0);
    RefusalIsNext(cfg, w);
    RunNothing(cfg, w);
    RunStep(cfg, w, [], TakeOver(REFUSED, true));
    var first := [] + [TakeOver(REFUSED, true)];
    NextKeeps(cfg, w, TakeOver(REFUSED, true));
    var recovery := RecoveredCalm(cfg, Run(cfg, w, first), 0);
    RunJoins(cfg, w, first, recovery);
    RunKeeps(cfg, Run(cfg, w, first), recovery);
    steps := first + recovery;
  }

  lemma Proceed(cfg: Config, w: World) returns (steps: seq<Step>)
    requires Invariant(cfg, w) && Calm(w) && w.local.phase != Head && !TakesOver(w.local.phase)
    ensures Approaches(cfg, w, steps)
  {
    hide Invariant, Next, Enabled, Run, Closer;
    OnwardCloser(cfg, w);
    NextKeeps(cfg, w, Onward(w));
    RunNothing(cfg, w);
    RunStep(cfg, w, [], Onward(w));
    steps := [] + [Onward(w)];
  }

  /** At the head of the loop, with the supervisor of a decision that had been made. */
  predicate Arrives(cfg: Config, w: World, steps: seq<Step>) {
    var u := Run(cfg, w, steps);
    && Willing(steps) && |steps| <= ToGo(w.local.phase) + (if TakesOver(w.local.phase) then 24 else 0)
    && Invariant(cfg, u) && Calm(u) && u.local.phase == Head && (Decided(w.local.phase) ==> u.sup == w.sup)
  }

  lemma Joined(cfg: Config, w: World, first: seq<Step>, rest: seq<Step>)
    requires Approaches(cfg, w, first) && Arrives(cfg, Run(cfg, w, first), rest)
    ensures Arrives(cfg, w, first + rest)
  {
    hide Invariant, Run, Willing, Calm;
    RunJoins(cfg, w, first, rest);
    WillingBoth(first, rest);
  }

  lemma WillingBoth(a: seq<Step>, b: seq<Step>)
    requires Willing(a) && Willing(b)
    ensures Willing(a + b)
  {
  }

  lemma {:induction false} ToHead(cfg: Config, w: World) returns (steps: seq<Step>)
    requires Invariant(cfg, w) && Calm(w)
    ensures Arrives(cfg, w, steps)
    decreases ToGo(w.local.phase)
  {
    hide Invariant, Run;
    RunNothing(cfg, w);
    if w.local.phase == Head {
      steps := [];
    } else {
      var first;
      if TakesOver(w.local.phase) { first := Refuse(cfg, w); } else { first := Proceed(cfg, w); }
      var rest := ToHead(cfg, Run(cfg, w, first));
      Joined(cfg, w, first, rest);
      steps := first + rest;
    }
  }

  lemma RefusalIsNext(cfg: Config, w: World)
    ensures Next(cfg, w, TakeOver(REFUSED, true)) == TakeOverStep(cfg, w, REFUSED, true)
  {
  }

  lemma CalmScheduled(cfg: Config, w: World)
    requires Invariant(cfg, w) && Calm(w) && TakesOver(w.local.phase)
    ensures C.Scheduled(w, 0)
  {
    hide Accounts, WindsUp;
  }

  // ----- A supervisor at rest -----

  predicate Dormant(s: S.State) { S.Consistent(s) && !s.armRequested && s.control == S.Disconnected }

  /** A sample without Panda puts the supervisor to rest. */
  lemma NothingSampled(cfg: S.Config, s: S.State)
    requires S.Consistent(s)
    ensures var r := S.Update(cfg, s, NO_INPUTS); Dormant(r.state)
  {
    S.UpdateKeepsConsistent(cfg, s, NO_INPUTS);
  }

  /** On the way from the head of the loop to a decision over no inputs. */
  predicate Resting(w: World, phase: Phase) {
    Calm(w) && w.local.phase == phase && (phase != Head && phase != Sampling ==> w.local.inputs == NO_INPUTS)
  }

  lemma LapStarts(cfg: Config, w: World)
    requires Resting(w, Head)
    ensures Resting(CheckStep(w, 0), Sampling)
    ensures Resting(SampleStep(cfg, CheckStep(w, 0), NO_INPUTS, false), Requesting)
  {
  }

  lemma LapRequests(cfg: Config, w: World)
    requires Resting(w, Requesting)
    ensures var t := RequestStep(cfg, w); Resting(t, Deciding) || Resting(t, ArmRestore)
  {
    hide S.RequestArm, RequestInternalDisarm;
  }

  lemma LapRestores(cfg: Config, w: World)
    requires Invariant(cfg, w) && Resting(w, ArmRestore)
    ensures Resting(RestoreStep(cfg, w, C.Working(0)), Deciding)
  {
    hide EnterNoOutput, AbortRequest, Invariant;
    RestoreCloser(cfg, w);
    C.WorkingRestores(cfg, w.p, 0);
  }

  lemma LapDecides(cfg: Config, w: World)
    requires Resting(w, Deciding) && S.Consistent(w.sup)
    ensures Enabled(w, Decide)
    ensures var t := Next(cfg, w, Decide); Calm(t) && t.local.phase == Gap && Dormant(t.sup)
  {
    hide S.Update;
    NothingSampled(cfg.safety, w.sup);
  }

  lemma Consistent(cfg: Config, w: World)
    requires Invariant(cfg, w)
    ensures S.Consistent(w.sup) && Ruled(cfg, w.p) && Owns(cfg, w.p.node) && Remembered(w.p.node)
    ensures w.local.appliedGeneration <= w.p.node.want.generation
  {
    hide Read, Lawful, WindsUp;
  }

  /** To the decision. */
  lemma LapToDecision(cfg: Config, w: World) returns (steps: seq<Step>)
    requires Invariant(cfg, w) && Resting(w, Head)
    ensures Willing(steps) && |steps| <= 4 && Resting(Run(cfg, w, steps), Deciding)
  {
    hide Invariant, Run, RequestStep, CheckStep, SampleStep, RestoreStep, Calm;
    RunNothing(cfg, w);
    LapStarts(cfg, w);
    RunStep(cfg, w, [], Check(0));
    var s1 := [] + [Check(0)];
    RunStep(cfg, w, s1, Sample(NO_INPUTS, false));
    var s2 := s1 + [Sample(NO_INPUTS, false)];
    RunStep(cfg, w, s2, Request);
    LapRequests(cfg, Run(cfg, w, s2));
    steps := s2 + [Request];
    if Run(cfg, w, steps).local.phase == ArmRestore {
      RunKeeps(cfg, w, steps);
      LapRestores(cfg, Run(cfg, w, steps));
      RunStep(cfg, w, steps, Restore(C.Working(0)));
      steps := steps + [Restore(C.Working(0))];
    }
  }

  /** Round the loop once. */
  lemma Lap(cfg: Config, w: World) returns (steps: seq<Step>)
    requires Invariant(cfg, w) && Resting(w, Head)
    ensures Willing(steps) && |steps| <= 9
    ensures var u := Run(cfg, w, steps); Calm(u) && u.local.phase == Head && Dormant(u.sup)
  {
    hide Invariant, Run, Next, Enabled, Calm, Dormant, Resting;
    var there := LapToDecision(cfg, w);
    RunKeeps(cfg, w, there);
    var u := Run(cfg, w, there);
    Consistent(cfg, u);
    LapDecides(cfg, u);
    RunStep(cfg, w, there, Decide);
    var decided := there + [Decide];
    RunKeeps(cfg, w, decided);
    var rest := ToHead(cfg, Run(cfg, w, decided));
    RunJoins(cfg, w, decided, rest);
    steps := decided + rest;
  }

  /** After an operator's off: calm, or a recovery away from it. */
  lemma Quiets(cfg: Config, w: World) returns (steps: seq<Step>)
    requires Invariant(cfg, w)
    ensures Willing(steps) && |steps| <= 26 && Calm(Run(cfg, w, steps))
  {
    hide Invariant, Run, C.Unsettled, Calm;
    RunNothing(cfg, w);
    RunStep(cfg, w, [], SetArmed(false));
    steps := [] + [SetArmed(false)];
    RunKeeps(cfg, w, steps);
    var off := Run(cfg, w, steps);
    var now := off.p.node.own.retry.nextAttempt;
    if C.Unsettled(off.p.node) {
      var recovery := RecoveredCalm(cfg, off, now);
      RunJoins(cfg, w, steps, recovery);
      steps := steps + recovery;
    } else if off.p.node.connected {
      OffIsCalm(cfg, w);
    } else {
      OffIsCalm(cfg, w);
      LinkIsCalm(cfg, off);
      RunStep(cfg, w, steps, LinkUp);
      steps := steps + [LinkUp];
    }
  }

  lemma OffIsCalm(cfg: Config, w: World)
    ensures var n := Next(cfg, w, SetArmed(false)).p.node;
            && !n.want.requestedArm
            && (!C.Unsettled(n) ==> !n.own.vehicleMode && !n.own.recoveryPending)
            && (!C.Unsettled(n) && n.connected ==> Calm(Next(cfg, w, SetArmed(false))))
  {
  }

  lemma LinkIsCalm(cfg: Config, w: World)
    requires Invariant(cfg, w) && !w.p.node.connected && !w.p.node.want.requestedArm
    requires !w.p.node.own.vehicleMode && !w.p.node.own.recoveryPending
    ensures Enabled(w, LinkUp) && Calm(Next(cfg, w, LinkUp))
  {
    hide Invariant;
    Consistent(cfg, w);
  }

  /** From everywhere to the head of the loop, calm and with a supervisor at rest. */
  lemma Settle(cfg: Config, w: World) returns (steps: seq<Step>)
    requires Invariant(cfg, w)
    ensures Willing(steps) && |steps| <= 69
    ensures var u := Run(cfg, w, steps); Calm(u) && u.local.phase == Head && Dormant(u.sup)
  {
    hide Invariant, Run, Calm, Dormant;
    var quiet := Quiets(cfg, w);
    RunKeeps(cfg, w, quiet);
    var onward := ToHead(cfg, Run(cfg, w, quiet));
    RunJoins(cfg, w, quiet, onward);
    var head := quiet + onward;
    RunKeeps(cfg, w, head);
    var lap := Lap(cfg, Run(cfg, w, head));
    RunJoins(cfg, w, head, lap);
    steps := head + lap;
  }

  // ----- Engaging -----

  /** A configuration under which control is possible at all. */
  predicate Controllable(cfg: S.Config) { cfg.allowActuation && cfg.pandaTimeout >= 0 && cfg.commandTimeout >= 0 }

  /** A healthy Panda in some safety mode; its command session is active, and ready, or not. */
  function Healthy(cfg: S.Config, s: S.State, active: bool, ready: bool, mode: nat): S.Panda {
    S.Panda(true, active, ready, false, true, ready, false, true, false, false, false, 0, 0, 0,
            cfg.requiredHarnessStatus, mode, cfg.requiredSafetyParam, s.lastTxBlocked, 0, 1)
  }

  /** A car at rest in D, its driver pressing the lane button. */
  function Waiting(s: S.State): S.Vehicle {
    S.Vehicle(0.0, 0.0, false, false, false, false, true, 5, s.lastLaneKeep + 1, s.lastSet, s.lastCancel, true)
  }

  /** It, that Panda, and a command that enables. */
  function Moment(cfg: S.Config, s: S.State, active: bool, ready: bool, mode: nat): S.Inputs {
    S.Inputs(1, Waiting(s), Healthy(cfg, s, active, ready, mode), S.Command(true, true, 1))
  }

  /** The same in the vehicle profile. A session in mode 19 would be standby, also where that mode is required. */
  function InProfile(cfg: S.Config, s: S.State): S.Inputs {
    Moment(cfg, s, cfg.requiredSafetyMode != 19, true, cfg.requiredSafetyMode)
  }

  /** In standby the supervisor stands ready with lateral control selected. */
  lemma StandbyDecides(cfg: S.Config, s: S.State)
    requires Controllable(cfg) && cfg.resumeOnCommandReturn
    requires S.Consistent(s) && s.armRequested && !S.Engaged(s.control)
    ensures var r := S.Update(cfg, s, Moment(cfg, s, true, true, 19));
            && r.decision.control == S.Armed && r.decision.lateralArmed && !r.decision.waiting
            && !S.Engaged(r.state.control) && r.state.armRequested && S.Consistent(r.state)
  {
    S.UpdateKeepsConsistent(cfg, s, Moment(cfg, s, true, true, 19));
  }

  /** In the vehicle profile it permits lateral control. */
  lemma ProfileDecides(cfg: S.Config, s: S.State)
    requires Controllable(cfg) && S.Consistent(s) && s.armRequested && !S.Engaged(s.control)
    requires !cfg.resumeOnCommandReturn ==> !s.lateral
    ensures var r := S.Update(cfg, s, InProfile(cfg, s));
            && r.decision.control == S.Active && r.decision.lateralAllowed && !r.decision.waiting
            && r.state.armRequested && S.Consistent(r.state)
  {
    S.UpdateKeepsConsistent(cfg, s, InProfile(cfg, s));
  }

  /** The driver's request is on its way to the supervisor. */
  predicate Asked(w: World, phase: Phase) {
    var n := w.p.node;
    && w.local.phase == phase && n.connected && !n.own.vehicleMode && !n.own.recoveryPending && n.want.requestedArm
    && w.local.appliedGeneration < n.want.generation && Dormant(w.sup)
  }

  /** It has been applied; the ECUs are taken over or not yet. */
  predicate Granted(cfg: Config, w: World, phase: Phase, taken: bool) {
    var n := w.p.node;
    && w.local.phase == phase && n.connected && n.own.vehicleMode == taken && !n.own.recoveryPending
    && n.want.requestedArm && n.want.appliedArm && w.local.appliedGeneration == n.want.generation
    && S.Consistent(w.sup) && w.sup.armRequested && !S.Engaged(w.sup.control)
    && (!cfg.safety.resumeOnCommandReturn ==> !w.sup.lateral)
  }

  lemma DriverAsks(cfg: Config, w: World)
    requires Controllable(cfg.safety) && Calm(w) && w.local.phase == Head && Dormant(w.sup)
    requires w.local.appliedGeneration <= w.p.node.want.generation
    ensures Enabled(w, SetArmed(true)) && Asked(Next(cfg, w, SetArmed(true)), Head)
  {
  }

  /** To the request, with a sample that shows no command session. */
  lemma AskedSamples(cfg: Config, w: World)
    requires Asked(w, Head)
    ensures var i := Moment(cfg.safety, w.sup, false, false, 19);
            var s := Next(cfg, w, Check(0));
            var t := Next(cfg, s, Sample(i, true));
            && Enabled(w, Check(0)) && Enabled(s, Sample(i, true))
            && Asked(t, Requesting) && !t.local.inputs.panda.sessionActive && Parked(t.local.inputs.vehicle)
  {
  }

  lemma AskedRequests(cfg: Config, w: World)
    requires Controllable(cfg.safety) && Asked(w, Requesting) && !w.local.inputs.panda.sessionActive
    ensures var t := Next(cfg, w, Request);
            && Enabled(w, Request)
            && Granted(cfg, t, if cfg.safety.resumeOnCommandReturn then Listening else ArmTakeover, false)
            && t.local.inputs == w.local.inputs
  {
  }

  lemma GrantedListens(cfg: Config, w: World)
    requires Granted(cfg, w, Listening, false)
    ensures Enabled(w, Listen(true, true)) && Granted(cfg, Next(cfg, w, Listen(true, true)), Head, false)
  {
  }

  /** From the head of the loop to its decision. */
  lemma GrantedSamples(cfg: Config, w: World, i: S.Inputs, taken: bool)
    requires Granted(cfg, w, Head, taken)
    ensures var s := Next(cfg, w, Check(0));
            var t := Next(cfg, s, Sample(i, true));
            var u := Next(cfg, t, Request);
            && Enabled(w, Check(0)) && Enabled(s, Sample(i, true)) && Enabled(t, Request)
            && Granted(cfg, u, Deciding, taken) && u.local.inputs == i && u.sup == w.sup
  {
  }

  lemma GrantedDecides(cfg: Config, w: World)
    requires Controllable(cfg.safety) && cfg.safety.resumeOnCommandReturn && Granted(cfg, w, Deciding, false)
    requires w.local.inputs == Moment(cfg.safety, w.sup, true, true, 19)
    ensures var t := Next(cfg, w, Decide);
            && Enabled(w, Decide) && Granted(cfg, t, Gap, false) && t.local.inputs == w.local.inputs
            && t.local.decision.control == S.Armed && t.local.decision.lateralArmed && !t.local.decision.waiting
  {
    hide S.Update;
    StandbyDecides(cfg.safety, w.sup);
  }

  lemma GrantedChooses(cfg: Config, w: World)
    requires Controllable(cfg.safety) && cfg.safety.resumeOnCommandReturn && Granted(cfg, w, Gap, false)
    requires w.local.decision.control == S.Armed && w.local.decision.lateralArmed && !w.local.decision.waiting
    requires w.local.inputs.now == 1 && w.local.inputs.vehicle.standstill
    requires w.local.inputs.command == S.Command(true, true, 1)
    requires var p := w.local.inputs.panda;
             p.safetyMode == 19 && p.safetyParam == cfg.safety.requiredSafetyParam && p.sessionReady
    ensures var t := Next(cfg, w, NoteGap);
            var u := Next(cfg, t, Choose);
            && Enabled(w, NoteGap) && Enabled(t, Choose)
            && Granted(cfg, u, TakingOver, false) && u.local.inputs == w.local.inputs
  {
    hide S.Update, MarkGap, MovingResume;
  }

  /** A car at rest in D. */
  predicate Parked(v: S.Vehicle) { v.valid && !v.epsFault && v.standstill && v.speed == 0.0 && v.gear == 5 }

  lemma GrantedTakesOver(cfg: Config, w: World)
    requires Granted(cfg, w, ArmTakeover, false) || Granted(cfg, w, TakingOver, false)
    requires !w.p.node.own.cameraDisabled && !w.p.node.own.radarDisabled && Parked(w.local.inputs.vehicle)
    ensures Enabled(w, TakeOver(C.ANY_TAKEOVER, true))
    ensures Granted(cfg, Next(cfg, w, TakeOver(C.ANY_TAKEOVER, true)), Head, true)
  {
    hide EnterVehicleMode, A.TakeoverLog;
    var gapResume := w.local.phase == TakingOver && w.local.moving;
    A.TakeoverExactly(cfg, w.p, w.local.inputs.vehicle, gapResume, C.ANY_TAKEOVER);
  }

  // ----- Steering -----

  /** The decision permits lateral control in vehicle mode. */
  predicate Steering(w: World, phase: Phase) {
    var n := w.p.node;
    && w.local.phase == phase && n.connected && n.own.vehicleMode && w.sup.armRequested
    && w.local.decision.lateralAllowed && !w.local.decision.waiting && w.local.inputs.panda.sessionReady
  }

  lemma ProfileSteers(cfg: Config, w: World)
    requires Controllable(cfg.safety) && Granted(cfg, w, Deciding, true)
    requires w.local.inputs == InProfile(cfg.safety, w.sup)
    ensures Enabled(w, Decide) && Steering(Next(cfg, w, Decide), Gap)
  {
    hide S.Update;
    ProfileDecides(cfg.safety, w.sup);
  }

  lemma SteeringGoesOn(cfg: Config, w: World)
    requires Steering(w, Gap)
    ensures var s := Next(cfg, w, NoteGap);
            var t := Next(cfg, s, Choose);
            var u := Next(cfg, t, Adapt(true));
            && Enabled(w, NoteGap) && Enabled(s, Choose) && Enabled(t, Adapt(true))
            && Steering(u, Sending) && u.p.node.permitsLateral
  {
    hide MarkGap, MovingResume, Commanded;
  }

  lemma SteeringSends(cfg: Config, w: World)
    requires Steering(w, Sending) && Owns(cfg, w.p.node) && w.p.node.permitsLateral
    ensures var t := Next(cfg, w, Send(true));
            && Enabled(w, Send(true)) && |w.p.log| < |t.p.log| && t.p.log[|w.p.log|] == Sent(0x12A, Control)
            && t.p.node == w.p.node && w.p.node.own.vehicleMode
  {
    hide Frames, RequestInternalDisarm, Transmit;
    LfaFirst(cfg, w.p, w.local.frameIndex);
    TransmitKeepsNode(w.p, Frames(cfg, w.local.frameIndex));
  }

  lemma LfaFirst(cfg: Config, p: Progress, frameIndex: nat)
    ensures var q := Transmit(p, Frames(cfg, frameIndex)); |p.log| < |q.log| && q.log[|p.log|] == Sent(0x12A, Control)
  {
    var frames := Frames(cfg, frameIndex);
    TransmitGrows(Note(p, Sent(frames[0], Control)), frames[1..]);
  }

  lemma {:induction false} TransmitGrows(p: Progress, addresses: seq<nat>)
    ensures p.log <= Transmit(p, addresses).log
    decreases |addresses|
  {
    if addresses != [] { TransmitGrows(Note(p, Sent(addresses[0], Control)), addresses[1..]); }
  }

  // ----- The whole way -----

  /** From a request to a granted one: over the listener in resume mode, to the takeover without it. */
  lemma Ask(cfg: Config, w: World) returns (steps: seq<Step>)
    requires Controllable(cfg.safety) && Invariant(cfg, w) && Calm(w) && w.local.phase == Head && Dormant(w.sup)
    ensures Willing(steps) && |steps| == 4
    ensures var u := Run(cfg, w, steps);
            && Granted(cfg, u, if cfg.safety.resumeOnCommandReturn then Listening else ArmTakeover, false)
            && Parked(u.local.inputs.vehicle)
  {
    hide Invariant, Run, Next, Enabled, Calm, Dormant, Asked, Granted, Moment;
    hide Parked;
    RunNothing(cfg, w);
    Consistent(cfg, w);
    DriverAsks(cfg, w);
    RunStep(cfg, w, [], SetArmed(true));
    var s1 := [] + [SetArmed(true)];
    var asked := Run(cfg, w, s1);
    AskedSamples(cfg, asked);
    RunStep(cfg, w, s1, Check(0));
    var s2 := s1 + [Check(0)];
    var first := Sample(Moment(cfg.safety, asked.sup, false, false, 19), true);
    RunStep(cfg, w, s2, first);
    var s3 := s2 + [first];
    AskedRequests(cfg, Run(cfg, w, s3));
    RunStep(cfg, w, s3, Request);
    steps := s3 + [Request];
  }

  /** One iteration of a granted request up to its decision, with this sample. */
  lemma Look(cfg: Config, w: World, i: S.Inputs, taken: bool) returns (steps: seq<Step>)
    requires Granted(cfg, w, Head, taken)
    ensures Willing(steps) && |steps| == 3
    ensures var u := Run(cfg, w, steps);
            Granted(cfg, u, Deciding, taken) && u.sup == w.sup && u.local.inputs == i
  {
    hide Run, Next, Enabled, Granted, Moment;
    RunNothing(cfg, w);
    GrantedSamples(cfg, w, i, taken);
    RunStep(cfg, w, [], Check(0));
    var s1 := [] + [Check(0)];
    var sample := Sample(i, true);
    RunStep(cfg, w, s1, sample);
    var s2 := s1 + [sample];
    RunStep(cfg, w, s2, Request);
    steps := s2 + [Request];
  }

  /** In resume mode the next iteration finds the listener's session and chooses the takeover. */
  lemma Invite(cfg: Config, w: World) returns (steps: seq<Step>)
    requires Controllable(cfg.safety) && cfg.safety.resumeOnCommandReturn && Granted(cfg, w, Listening, false)
    ensures Willing(steps) && |steps| == 7
    ensures var u := Run(cfg, w, steps); Granted(cfg, u, TakingOver, false) && Parked(u.local.inputs.vehicle)
  {
    hide Run, Next, Enabled, Granted;
    RunNothing(cfg, w);
    GrantedListens(cfg, w);
    RunStep(cfg, w, [], Listen(true, true));
    var s1 := [] + [Listen(true, true)];
    var look := Look(cfg, Run(cfg, w, s1), Moment(cfg.safety, Run(cfg, w, s1).sup, true, true, 19), false);
    RunJoins(cfg, w, s1, look);
    var s2 := s1 + look;
    GrantedDecides(cfg, Run(cfg, w, s2));
    RunStep(cfg, w, s2, Decide);
    var s3 := s2 + [Decide];
    GrantedChooses(cfg, Run(cfg, w, s3));
    RunStep(cfg, w, s3, NoteGap);
    var s4 := s3 + [NoteGap];
    RunStep(cfg, w, s4, Choose);
    steps := s4 + [Choose];
  }

  /** The takeover itself. */
  lemma Take(cfg: Config, w: World) returns (steps: seq<Step>)
    requires Invariant(cfg, w) && Parked(w.local.inputs.vehicle)
    requires Granted(cfg, w, ArmTakeover, false) || Granted(cfg, w, TakingOver, false)
    ensures Willing(steps) && |steps| == 1 && Granted(cfg, Run(cfg, w, steps), Head, true)
  {
    hide Invariant, Run, Next, Enabled;
    RunNothing(cfg, w);
    Consistent(cfg, w);
    GrantedTakesOver(cfg, w);
    RunStep(cfg, w, [], TakeOver(C.ANY_TAKEOVER, true));
    steps := [] + [TakeOver(C.ANY_TAKEOVER, true)];
  }

  /** The iteration after it steers. */
  lemma Steer(cfg: Config, w: World) returns (steps: seq<Step>)
    requires Controllable(cfg.safety) && Invariant(cfg, w) && Granted(cfg, w, Head, true)
    ensures Willing(steps) && |steps| == 8
    ensures var u := Run(cfg, w, steps);
            && u.p.node.permitsLateral && u.p.node.own.vehicleMode
            && exists k :: |w.p.log| <= k < |u.p.log| && u.p.log[k] == Sent(0x12A, Control)
  {
    hide Invariant, Run, Next, Enabled, Granted, InProfile, Steering;
    var look := Look(cfg, w, InProfile(cfg.safety, w.sup), true);
    ProfileSteers(cfg, Run(cfg, w, look));
    RunStep(cfg, w, look, Decide);
    var s1 := look + [Decide];
    SteeringGoesOn(cfg, Run(cfg, w, s1));
    RunStep(cfg, w, s1, NoteGap);
    var s2 := s1 + [NoteGap];
    RunStep(cfg, w, s2, Choose);
    var s3 := s2 + [Choose];
    RunStep(cfg, w, s3, Adapt(true));
    var s4 := s3 + [Adapt(true)];
    RunKeeps(cfg, w, s4);
    Consistent(cfg, Run(cfg, w, s4));
    SteeringSends(cfg, Run(cfg, w, s4));
    RunStep(cfg, w, s4, Send(true));
    steps := s4 + [Send(true)];
    RunGrows(cfg, w, s4);
    assert Run(cfg, w, steps).p.log[|Run(cfg, w, s4).p.log|] == Sent(0x12A, Control);
  }

  /** Whatever has happened before: with a configuration under which control is possible, at most 89 steps of the
      control thread, the arm service and a reconnection lead from any reachable state to a steering frame, sent with
      permission in vehicle mode. No combination of flags, phase and supervisor state locks the driver out for good. */
  lemma CanAlwaysEngage(cfg: Config, w: World) returns (steps: seq<Step>)
    requires Reachable(cfg, w) && Controllable(cfg.safety)
    ensures Willing(steps) && |steps| <= 89
    ensures var u := Run(cfg, w, steps);
            && u.p.node.permitsLateral && u.p.node.own.vehicleMode
            && exists k :: |w.p.log| <= k < |u.p.log| && u.p.log[k] == Sent(0x12A, Control)
  {
    hide Reachable, Invariant, Run, Calm, Dormant, Granted;
    ReachableKeeps(cfg, w);
    steps := Settle(cfg, w);
    RunKeeps(cfg, w, steps);
    var ask := Ask(cfg, Run(cfg, w, steps));
    RunJoins(cfg, w, steps, ask);
    steps := steps + ask;
    if cfg.safety.resumeOnCommandReturn {
      var listen := Invite(cfg, Run(cfg, w, steps));
      RunJoins(cfg, w, steps, listen);
      steps := steps + listen;
    }
    RunKeeps(cfg, w, steps);
    var take := Take(cfg, Run(cfg, w, steps));
    RunJoins(cfg, w, steps, take);
    steps := steps + take;
    RunKeeps(cfg, w, steps);
    var steer := Steer(cfg, Run(cfg, w, steps));
    RunGrows(cfg, w, steps);
    RunJoins(cfg, w, steps, steer);
    steps := steps + steer;
  }

  // ----- And nowhere else -----

  /** A permission has been published or decided. */
  predicate Permitting(w: World) {
    || w.p.node.permitsLateral || w.p.node.permitsLongitudinal
    || w.local.decision.lateralAllowed || w.local.decision.longitudinalAllowed
  }

  lemma DecidesGrounded(cfg: Config, w: World)
    requires S.Consistent(w.sup) && Permitting(DecideStep(cfg, w)) && !Permitting(w)
    ensures Controllable(cfg.safety)
  {
    hide S.Update, S.SurvivingChannels;
    R.PermissionExactly(cfg.safety, w.sup, w.local.inputs);
  }

  predicate SamePermissions(n: Node, m: Node) {
    n.permitsLateral == m.permitsLateral && n.permitsLongitudinal == m.permitsLongitudinal
  }

  lemma RestorationPermits(cfg: Config, w: World, env: NoOutputEnv)
    requires Invariant(cfg, w) && Enabled(w, Restore(env))
    ensures SamePermissions(w.p.node, EnterNoOutput(cfg, w.p, env).p.node)
  {
    hide EnterNoOutput, Invariant, Read, Sound;
    MayRestore(cfg, w, env);
    EnterNoOutputKeeps(cfg, w.p, env);
  }

  lemma RestoresGrounded(cfg: Config, w: World, env: NoOutputEnv)
    requires Invariant(cfg, w) && Enabled(w, Restore(env)) && Permitting(RestoreStep(cfg, w, env))
    ensures Permitting(w)
  {
    hide EnterNoOutput, Invariant, S.RequestArm;
    RestorationPermits(cfg, w, env);
  }

  lemma TakeoverPermits(cfg: Config, w: World, resume: bool, env: TakeoverEnv)
    requires Accounts(cfg, w) && (w.local.phase == ArmTakeover || w.local.phase == TakingOver)
    ensures SamePermissions(w.p.node, EnterVehicleMode(cfg, w.p, w.local.inputs.vehicle, resume, env).p.node)
  {
    hide EnterVehicleMode, Read, Sound, Kept, Invited;
    MayTryTakeover(cfg, w);
    EnterVehicleModeKeeps(cfg, w.p, w.local.inputs.vehicle, resume, env);
  }

  lemma TakesOverGrounded(cfg: Config, w: World, env: TakeoverEnv, healthRead: bool)
    requires Accounts(cfg, w) && Enabled(w, TakeOver(env, healthRead))
    requires Permitting(TakeOverStep(cfg, w, env, healthRead))
    ensures Permitting(w)
  {
    hide EnterVehicleMode, Accounts, S.RequestArm;
    TakeoverPermits(cfg, w, w.local.phase != ArmTakeover && w.local.moving, env);
  }

  lemma SendsGrounded(cfg: Config, w: World, ok: bool)
    requires Permitting(SendStep(cfg, w, ok))
    ensures Permitting(w)
  {
    hide Transmit, Frames, MaySend;
    TransmitKeepsNode(w.p, Frames(cfg, w.local.frameIndex));
  }

  lemma OthersGrounded(cfg: Config, w: World, step: Step)
    requires !step.Decide? && !step.Restore? && !step.TakeOver? && !step.Send? && Permitting(Next(cfg, w, step))
    ensures Permitting(w)
  {
    hide S.RequestArm, S.CommandFresh, TakeoverReady, MovingResume, NoteOf, AutoArmReady, PressSeen;
  }

  lemma NextGrounded(cfg: Config, w: World, step: Step)
    requires Invariant(cfg, w) && Enabled(w, step)
    ensures Permitting(Next(cfg, w, step)) ==> Permitting(w) || Controllable(cfg.safety)
  {
    hide Accounts, InOrder, WindsUp, Permitting, RestoreStep, TakeOverStep, DecideStep, SendStep;
    if Permitting(Next(cfg, w, step)) && !Permitting(w) {
      Consistent(cfg, w);
      match step
      case Decide => DecidesGrounded(cfg, w);
      case Restore(env) => RestoresGrounded(cfg, w, env);
      case TakeOver(env, healthRead) => TakesOverGrounded(cfg, w, env, healthRead);
      case Send(ok) => SendsGrounded(cfg, w, ok);
      case _ => OthersGrounded(cfg, w, step);
    }
  }

  lemma {:induction false} RunGrounded(cfg: Config, steps: seq<Step>)
    ensures Permitting(Run(cfg, Initial(cfg), steps)) ==> Controllable(cfg.safety)
    decreases |steps|
  {
    hide Invariant, Next, Enabled;
    if steps != [] {
      var init, last := steps[..|steps| - 1], steps[|steps| - 1];
      RunGrounded(cfg, init);
      AlwaysInvariant(cfg, init);
      if Enabled(Run(cfg, Initial(cfg), init), last) { NextGrounded(cfg, Run(cfg, Initial(cfg), init), last); }
    }
  }

  /** The condition is exact: from a reachable state a permission can be reached if and only if the configuration
      allows actuation and gives Panda and the command any time at all. */
  lemma EngagementExactly(cfg: Config, w: World)
    requires Reachable(cfg, w)
    ensures (exists steps :: Run(cfg, w, steps).p.node.permitsLateral) <==> Controllable(cfg.safety)
  {
    hide Run, Controllable;
    if Controllable(cfg.safety) {
      var steps := CanAlwaysEngage(cfg, w);
      assert Run(cfg, w, steps).p.node.permitsLateral;
    }
    if steps :| Run(cfg, w, steps).p.node.permitsLateral {
      var before :| w == Run(cfg, Initial(cfg), before);
      RunJoins(cfg, Initial(cfg), before, steps);
      RunGrounded(cfg, before + steps);
    }
  }
}
