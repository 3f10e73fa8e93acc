/** The one way in which the node of src/node.cpp can lose sight of an ECU: `disabled` is set after the
    silencing request has been sent (src/node.cpp:1078-1080), and a send throws on every nonzero libusb
    status, also when the frame went out (src/panda_usb.cpp:335-354). The run below ends in a reported
    recovery with the camera still owed. ControlRuns.FlagTellsDebtExactly says exactly when this happens. */
module UnnoticedDebt {
  import opened EcuLedger
  import opened EcuSections
  import opened ControlLoop
  import I = ControlInvariant
  import Q = ControlRuns
  import S = Supervisor

  const VEHICLE := S.Vehicle(0.0, 0.0, false, false, false, false, true, DRIVE_GEAR, 0, 0, 0, true)

  const INPUTS := NO_INPUTS.(vehicle := VEHICLE)

  /** Lateral control without resume mode, armed by the operator. */
  const CONFIG := Config(
    S.Config(true, false, false, false, false, false, true, true, true, 0.0, 0.0, HYUNDAI_CANFD, 0, 0, 1, 1),
    false, false)

  const THROWS := DisableEnv(true, SentThenThrew, true, true, 0)

  const TAKEOVER := TakeoverEnv(true, true, true, THROWS, true, THROWS, true, true, true, true, true, true, true, true)

  const NO_REQUEST := RestoreEnv(0, true, true, true)

  const RESTORATION := NoOutputEnv(1, 1, true, true, NO_REQUEST, true, NO_REQUEST, true, 0, 0, true, true, true)

  /** The silencing went out at k; no request of any kind followed it. */
  predicate LostAt(log: Log, k: nat)
    requires k < |log|
  {
    UnnoticedAt(log, Camera, k) && forall j :: k < j < |log| ==> !log[j].Uds? && !log[j].Silence? && !log[j].Resumed?
  }

  predicate NothingFlagged(n: Node) { !n.own.cameraDisabled && !n.own.radarDisabled && !n.own.vehicleMode }

  lemma LostStaysLost(log: Log, a: Action, k: nat)
    requires k < |log| && LostAt(log, k) && !a.Uds? && !a.Silence? && !a.Resumed?
    ensures LostAt(log + [a], k)
  {
  }

  /** The takeover: the camera's request goes out and throws, and the node disarms itself. */
  lemma TakeoverThrows(w: World) returns (k: nat)
    requires w.local.phase == ArmTakeover && w.local.inputs == INPUTS
    requires NothingFlagged(w.p.node) && !w.p.node.own.recoveryPending && w.p.node.connected
    requires !w.p.node.own.retry.pending
    ensures var t := TakeOverStep(CONFIG, w, TAKEOVER, true);
            && t.local.phase == MidCheck && NothingFlagged(t.p.node) && t.p.node.own.recoveryPending
            && t.p.node.connected && !t.p.node.want.requestedArm && !t.p.node.want.appliedArm
            && !t.p.node.own.retry.pending
            && k < |t.p.log| && LostAt(t.p.log, k)
  {
    hide S.RequestArm;
    var r := EnterVehicleMode(CONFIG, w.p, VEHICLE, false, TAKEOVER);
    var elm := w.p.log + [Heartbeat, Mode(ELM327, ELM327_ECAN_PARAM)];
    assert r.Failed? && r.p.log == elm + [Uds(Camera, ExtendedSession), Silence(Camera, true, 0.0, false)];
    k := |elm| + 1;
    assert LostAt(r.p.log, k);
    LostStaysLost(r.p.log, InternalDisarm(true), k);
    LostStaysLost(r.p.log + [InternalDisarm(true)], Applied(false), k);
  }

  /** The retry: nothing is flagged, so no ECU is asked, and the recovery is reported. */
  lemma RetryReports(w: World, k: nat)
    requires w.local.phase == MidCheck && NothingFlagged(w.p.node) && w.p.node.own.recoveryPending
    requires w.p.node.connected && !w.p.node.want.requestedArm && !w.p.node.want.appliedArm
    requires !w.p.node.own.retry.pending && k < |w.p.log| && LostAt(w.p.log, k)
    ensures var c := CheckStep(w, 1);
            && c.local.phase == MidRetry && NothingFlagged(c.p.node)
            && var t := RestoreStep(CONFIG, c, RESTORATION);
            && NothingFlagged(t.p.node) && !t.p.node.own.recoveryPending
            && k < |t.p.log| - 1 && LostAt(t.p.log, k) && t.p.log[|t.p.log| - 1] == Recovered
  {
    var c := CheckStep(w, 1);
    assert c.p.log == w.p.log + [RetryDue(1)];
    var p := c.p;
    var param := StandbyParam(CONFIG, p.node);
    var r := EnterNoOutput(CONFIG, p, RESTORATION);
    assert param == 0;
    assert r.p.log == p.log + [RecoveryStarted(1), Heartbeat, Mode(NO_OUTPUT, 0), NoOutputConfirmed(0), Recovered];
  }

  /** The steps that lead to the takeover. */
  const START: seq<Step> := [LinkUp] + [SetArmed(true)] + [Check(0)] + [Sample(INPUTS, true)] + [Request]

  /** Connected, armed by the operator, sampled; the request is not yet applied. */
  predicate Sampled(w: World) {
    && w.local.phase == Requesting && w.local.inputs == INPUTS && w.local.appliedGeneration == 0
    && w.p.node.connected && w.p.node.want.requestedArm && w.p.node.want.generation == 1
    && NothingFlagged(w.p.node) && !w.p.node.own.recoveryPending && !w.p.node.own.retry.pending
  }

  lemma FirstSteps()
    ensures var s1 := Next(CONFIG, Initial(CONFIG), LinkUp);
            var s2 := Next(CONFIG, s1, SetArmed(true));
            var s3 := Next(CONFIG, s2, Check(0));
            && Enabled(Initial(CONFIG), LinkUp) && Enabled(s1, SetArmed(true)) && Enabled(s2, Check(0))
            && Enabled(s3, Sample(INPUTS, true))
            && Sampled(Next(CONFIG, s3, Sample(INPUTS, true)))
  {
    var s2 := Next(CONFIG, Next(CONFIG, Initial(CONFIG), LinkUp), SetArmed(true));
    assert s2.p.node.want.requestedArm && s2.p.node.want.generation == 1;
    assert s2.p.node.connected && NothingFlagged(s2.p.node);
    assert Next(CONFIG, s2, Check(0)) == Goto(s2, Sampling);
  }

  lemma RequestLeadsToTakeover(w: World)
    requires Sampled(w)
    ensures var t := Next(CONFIG, w, Request);
            && t.local.phase == ArmTakeover && t.local.inputs == INPUTS
            && NothingFlagged(t.p.node) && !t.p.node.own.recoveryPending && t.p.node.connected
            && !t.p.node.own.retry.pending
  {
    hide S.RequestArm;
  }

  /** The five steps in a row. */
  lemma ReachesTakeover() returns (w: World)
    ensures w == Run(CONFIG, Initial(CONFIG), START)
    ensures w.local.phase == ArmTakeover && w.local.inputs == INPUTS
    ensures NothingFlagged(w.p.node) && !w.p.node.own.recoveryPending && w.p.node.connected
    ensures !w.p.node.own.retry.pending
  {
    hide Run, Next, Enabled, Sampled;
    FirstSteps();
    RunNothing(CONFIG, Initial(CONFIG));
    RunStep(CONFIG, Initial(CONFIG), [], LinkUp);
    assert [] + [LinkUp] == [LinkUp];
    var s1 := Next(CONFIG, Initial(CONFIG), LinkUp);
    RunStep(CONFIG, Initial(CONFIG), [LinkUp], SetArmed(true));
    var s2 := Next(CONFIG, s1, SetArmed(true));
    RunStep(CONFIG, Initial(CONFIG), [LinkUp] + [SetArmed(true)], Check(0));
    var s3 := Next(CONFIG, s2, Check(0));
    RunStep(CONFIG, Initial(CONFIG), [LinkUp] + [SetArmed(true)] + [Check(0)], Sample(INPUTS, true));
    var s4 := Next(CONFIG, s3, Sample(INPUTS, true));
    RunStep(CONFIG, Initial(CONFIG), [LinkUp] + [SetArmed(true)] + [Check(0)] + [Sample(INPUTS, true)], Request);
    RequestLeadsToTakeover(s4);
    SampledRequests(s4);
    RequestLeadsToTakeover(s4);
    w := Next(CONFIG, s4, Request);
  }

  lemma SampledRequests(w: World)
    requires Sampled(w)
    ensures Enabled(w, Request)
  {
  }

  lemma RunNothing(cfg: Config, w: World)
    ensures Run(cfg, w, []) == w
  {
  }

  lemma RunStep(cfg: Config, w: World, steps: seq<Step>, step: Step)
    ensures var before := Run(cfg, w, steps);
            Run(cfg, w, steps + [step]) == if Enabled(before, step) then Next(cfg, before, step) else before
  {
    hide Next, Enabled;
    assert (steps + [step])[..|steps|] == steps;
  }

  /** A reachable run that ends in a reported recovery although the camera was silenced and never asked to
      resume. */
  lemma DebtCanGoUnnoticed() returns (steps: seq<Step>, k: nat)
    ensures var w := Run(CONFIG, Initial(CONFIG), steps);
            && !Disabled(w.p.node, Camera) && Owed(w.p.log, Camera) && !w.p.node.own.recoveryPending
            && k < |w.p.log| - 1 && w.p.log[|w.p.log| - 1] == Recovered && LostAt(w.p.log, k)
  {
    hide Run, LostAt, CheckStep, RestoreStep, TakeOverStep, Owed, I.Reachable;
    var w := ReachesTakeover();
    k := TakeoverThrows(w);
    var taken := TakeOverStep(CONFIG, w, TAKEOVER, true);
    RetryReports(taken, k);
    RunStep(CONFIG, Initial(CONFIG), START, TakeOver(TAKEOVER, true));
    RunStep(CONFIG, Initial(CONFIG), START + [TakeOver(TAKEOVER, true)], Check(1));
    RunStep(CONFIG, Initial(CONFIG), START + [TakeOver(TAKEOVER, true)] + [Check(1)], Restore(RESTORATION));
    steps := START + [TakeOver(TAKEOVER, true)] + [Check(1)] + [Restore(RESTORATION)];
    LostIsOwed(steps, k);
  }

  lemma LostIsOwed(steps: seq<Step>, k: nat)
    requires var w := Run(CONFIG, Initial(CONFIG), steps);
             !Disabled(w.p.node, Camera) && k < |w.p.log| && LostAt(w.p.log, k)
    ensures Owed(Run(CONFIG, Initial(CONFIG), steps).p.log, Camera)
  {
    hide Run, Owed, Disabled;
    var w := Run(CONFIG, Initial(CONFIG), steps);
    assert I.Reachable(CONFIG, w);
    Q.FlagTellsDebtExactly(CONFIG, w, Camera);
  }
}
