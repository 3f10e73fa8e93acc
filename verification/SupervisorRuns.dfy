/** What the supervisor guarantees: exactly when a decision permits a channel, and what holds over
    arbitrary interleavings of `update` and `request_arm`. */
module SupervisorRuns {
  import opened Supervisor
  import Table = SupervisorTable

  // ----- One decision -----

  /** The longitudinal channel is both configured and not overridden by the gas pedal. */
  predicate LongitudinalUsable(cfg: Config, v: Vehicle) {
    cfg.allowLongitudinal && !(cfg.longitudinalOverrideOnGas && v.gasPressed)
  }

  /** Everything the second half of an update checks before it reaches the EPS pause. */
  predicate Admissible(cfg: Config, s: State, cancel: bool, i: Inputs) {
    var v, p, c := i.vehicle, i.panda, i.command;
    && p.harnessStatus == cfg.requiredHarnessStatus && ConfiguredMode(cfg, p) && !StandbyMode(cfg, p)
    && (cfg.resumeOnCommandReturn ==> p.ignitionOn && p.sessionReady)
    && v.valid && !TooFast(cfg, v) && !TooSteep(cfg, v)
    && !(cfg.disengageOnCancel && cancel)
    && CommandFresh(cfg, i.now, c) && c.valid && c.enable
    && p.controlsAllowed
    && (s.control == SoftDisabling ==> i.now < s.deadline)
  }

  lemma AdmitRunsExactly(cfg: Config, s: State, cancel: bool, i: Inputs)
    requires s.armRequested && s.control != Fault
    ensures var usable := s.longitudinal && LongitudinalUsable(cfg, i.vehicle);
            var verdict := Admit(cfg, s, cancel, i);
            && (verdict.Run? <==>
                  Admissible(cfg, s, cancel, i) && !i.vehicle.epsFault && (s.lateral || usable))
            && (verdict.Run? ==> verdict.longitudinal == usable)
            && (verdict.Pause? && verdict.longitudinal <==>
                  Admissible(cfg, s, cancel, i) && i.vehicle.epsFault && Engaged(s.control) && usable)
  {
  }

  lemma ObserveKeepsSurvivors(cfg: Config, s: State, v: Vehicle, p: Panda)
    requires Consistent(s)
    ensures var o := Observe(cfg, s, v, p);
            var (lateral, longitudinal) := SurvivingChannels(cfg, s, v, p);
            && (o.armRequested ==>
                  && s.armRequested && !PandaFaulted(p) && o.control == s.control && o.deadline == s.deadline
                  && o.lateral == lateral && o.longitudinal == longitudinal)
            && (s.armRequested && !PandaFaulted(p) && (lateral || longitudinal) ==> o.armRequested)
            && (!o.armRequested ==> !o.lateral && !o.longitudinal)
  {
  }

  /** The same, once the inputs have been observed: what the published decision permits. */
  lemma ReportPermits(cfg: Config, o: State, cancel: bool, i: Inputs)
    requires Consistent(o)
    ensures var verdict := Admit(cfg, o, cancel, i);
            var d := Report(cfg, Perform(o, verdict), verdict, i.now);
            && (d.lateralAllowed <==>
                  o.armRequested && o.lateral && Admissible(cfg, o, cancel, i) && !i.vehicle.epsFault)
            && (d.longitudinalAllowed <==>
                  && o.armRequested && o.longitudinal && LongitudinalUsable(cfg, i.vehicle)
                  && Admissible(cfg, o, cancel, i) && (i.vehicle.epsFault ==> Engaged(o.control)))
  {
    if o.armRequested {
      AdmitRunsExactly(cfg, o, cancel, i);
    }
  }

  /** ReadyToActuate is the arm request, a healthy Panda and the admission conditions. */
  lemma ReadySplits(cfg: Config, s: State, i: Inputs)
    ensures ReadyToActuate(cfg, s, i) <==>
            && Processes(cfg, i) && s.armRequested && !PandaFaulted(i.panda)
            && Admissible(cfg, s, i.vehicle.cancelEvents != s.lastCancel, i)
  {
  }

  /** Permission soundness and completeness: a decision permits a channel exactly when the written
      requirements hold of the same inputs. */
  lemma PermissionExactly(cfg: Config, s: State, i: Inputs)
    requires Consistent(s)
    ensures var d := Update(cfg, s, i).decision;
            var (lateral, longitudinal) := SurvivingChannels(cfg, s, i.vehicle, i.panda);
            && (d.lateralAllowed <==> ReadyToActuate(cfg, s, i) && lateral && !i.vehicle.epsFault)
            && (d.longitudinalAllowed <==>
                  && ReadyToActuate(cfg, s, i) && longitudinal && LongitudinalUsable(cfg, i.vehicle)
                  && (i.vehicle.epsFault ==> Engaged(s.control)))
  {
    hide Observe, Admit, ReadyToActuate, Admissible;
    ReadySplits(cfg, s, i);
    if Processes(cfg, i) {
      var cleared := s.(waiting := false);
      var cancel := i.vehicle.cancelEvents != s.lastCancel;
      var o := Observe(cfg, cleared, i.vehicle, i.panda);
      ObserveKeepsConsistent(cfg, cleared, i.vehicle, i.panda);
      ReportPermits(cfg, o, cancel, i);
      ObservedPermission(cfg, s, cancel, i);
    }
  }

  /** The observed state enters the permission only through what survives observation. */
  lemma ObservedPermission(cfg: Config, s: State, cancel: bool, i: Inputs)
    requires Consistent(s)
    ensures var o := Observe(cfg, s.(waiting := false), i.vehicle, i.panda);
            var (lateral, longitudinal) := SurvivingChannels(cfg, s, i.vehicle, i.panda);
            var ready := s.armRequested && !PandaFaulted(i.panda);
            && (o.armRequested && o.lateral && Admissible(cfg, o, cancel, i) <==>
                  ready && lateral && Admissible(cfg, s, cancel, i))
            && (o.armRequested && o.longitudinal && Admissible(cfg, o, cancel, i) <==>
                  ready && longitudinal && Admissible(cfg, s, cancel, i))
            && (o.armRequested ==> o.control == s.control)
  {
    hide Observe, SurvivingChannels, PandaFaulted;
    ObserveKeepsSurvivors(cfg, s.(waiting := false), i.vehicle, i.panda);
    SurvivorsIgnoreWaiting(cfg, s, i.vehicle, i.panda);
  }

  lemma SurvivorsIgnoreWaiting(cfg: Config, s: State, v: Vehicle, p: Panda)
    ensures SurvivingChannels(cfg, s.(waiting := false), v, p) == SurvivingChannels(cfg, s, v, p)
  {
  }

  /** In resume mode Panda selected the channel, in the same sample. */
  lemma PermissionNeedsSelection(cfg: Config, s: State, i: Inputs)
    requires Consistent(s) && cfg.resumeOnCommandReturn
    ensures var d := Update(cfg, s, i).decision;
            && (d.lateralAllowed ==> i.panda.lateralSelected)
            && (d.longitudinalAllowed ==> i.panda.longitudinalSelected)
  {
    hide Update, ReadyToActuate;
    PermissionExactly(cfg, s, i);
  }

  lemma PermissionImpliesArmed(cfg: Config, s: State, i: Inputs)
    requires Consistent(s)
    ensures var d := Update(cfg, s, i).decision;
            && (d.lateralAllowed ==> s.armRequested && d.lateralArmed)
            && (d.longitudinalAllowed ==> s.armRequested && d.longitudinalArmed && cfg.allowLongitudinal)
            && (d.lateralAllowed || d.longitudinalAllowed ==> d.useVehicleMode)
  {
    PermissionExactly(cfg, s, i);
  }

  /** The heartbeat is engaged exactly in the two engaged states, which are the only ones that permit
      anything. */
  lemma HeartbeatExactly(cfg: Config, s: State, i: Inputs)
    requires Consistent(s)
    ensures var d := Update(cfg, s, i).decision;
            && (d.heartbeatEngaged <==> Engaged(d.control))
            && (d.lateralAllowed ==> d.control == Active)
            && (d.longitudinalAllowed ==> Engaged(d.control))
            && d.control == Update(cfg, s, i).state.control
  {
    hide Observe, Admit;
    if Processes(cfg, i) {
      var cleared := s.(waiting := false);
      ObserveKeepsConsistent(cfg, cleared, i.vehicle, i.panda);
      VerdictNeedsArm(cfg, Observe(cfg, cleared, i.vehicle, i.panda), i.vehicle.cancelEvents != s.lastCancel, i);
      VerdictsNameTheirState(cfg, Observe(cfg, cleared, i.vehicle, i.panda), i.vehicle.cancelEvents != s.lastCancel, i);
    }
  }

  lemma VerdictsNameTheirState(cfg: Config, s: State, cancel: bool, i: Inputs)
    requires Consistent(s)
    ensures var verdict := Admit(cfg, s, cancel, i);
            && (verdict.To? || verdict.Off? ==> !Engaged(verdict.next))
            && (verdict.Stay? ==> s.control == Fault)
  {
  }

  // ----- Runs -----

  datatype Event = Arm(arm: bool) | Sample(inputs: Inputs)

  function Advance(cfg: Config, s: State, e: Event): State {
    match e
    case Arm(arm) => RequestArm(cfg, s, arm)
    case Sample(inputs) => Update(cfg, s, inputs).state
  }

  function Run(cfg: Config, s: State, events: seq<Event>): State
    decreases |events|
  {
    if events == [] then s
    else Advance(cfg, Run(cfg, s, events[..|events| - 1]), events[|events| - 1])
  }

  /** The decision that the k-th event, an update, publishes. */
  function DecisionAt(cfg: Config, s: State, events: seq<Event>, k: nat): Decision
    requires k < |events| && events[k].Sample?
  {
    Update(cfg, Run(cfg, s, events[..k]), events[k].inputs).decision
  }

  lemma {:induction false} RunKeepsConsistent(cfg: Config, s: State, events: seq<Event>)
    requires Consistent(s)
    ensures Consistent(Run(cfg, s, events))
    decreases |events|
  {
    if events != [] {
      var before := Run(cfg, s, events[..|events| - 1]);
      RunKeepsConsistent(cfg, s, events[..|events| - 1]);
      match events[|events| - 1]
      case Arm(arm) => RequestArmKeepsConsistent(cfg, before, arm);
      case Sample(inputs) => UpdateKeepsConsistent(cfg, before, inputs);
    }
  }

  lemma RunStep(cfg: Config, s: State, events: seq<Event>, k: nat)
    requires k < |events|
    ensures Run(cfg, s, events[..k + 1]) == Advance(cfg, Run(cfg, s, events[..k]), events[k])
  {
    assert events[..k + 1][..k] == events[..k];
  }

  // ----- The arm latch -----

  /** Without an arm request, a disarmed supervisor stays disarmed through any number of updates. */
  lemma {:induction false} DisarmedStaysDisarmed(cfg: Config, s: State, events: seq<Event>, j: nat, k: nat)
    requires Consistent(s) && j <= k <= |events|
    requires !Run(cfg, s, events[..j]).armRequested
    requires forall m :: j <= m < k ==> events[m] != Arm(true)
    ensures !Run(cfg, s, events[..k]).armRequested
  {
    if j < k {
      DisarmedStaysDisarmed(cfg, s, events, j, k - 1);
      RunStep(cfg, s, events, k - 1);
      RunKeepsConsistent(cfg, s, events[..k - 1]);
      DisarmedStep(cfg, Run(cfg, s, events[..k - 1]), events[k - 1]);
    }
  }

  lemma DisarmedStep(cfg: Config, s: State, e: Event)
    requires Consistent(s) && !s.armRequested && e != Arm(true)
    ensures !Advance(cfg, s, e).armRequested
  {
    if e.Sample? {
      UpdateKeepsConsistent(cfg, s, e.inputs);
    }
  }

  /** A decision that found Panda stale or a fault leaves the supervisor disarmed. */
  lemma FaultDisarms(cfg: Config, s: State, i: Inputs)
    requires Consistent(s)
    ensures var r := Update(cfg, s, i);
            (r.decision.control == Fault || !PandaFresh(cfg, i.now, i.panda) ==> !r.state.armRequested)
  {
    UpdateKeepsConsistent(cfg, s, i);
  }

  lemma RunNothing(cfg: Config, s: State)
    ensures Run(cfg, s, []) == s
  {
  }

  /** Arm latch over whole runs: between an update with any of the causes that disarm and any later
      decision that permits a channel there is an explicit arm request. */
  lemma PermissionNeedsRearm(cfg: Config, events: seq<Event>, j: nat, k: nat)
    requires j < k < |events| && events[j].Sample? && events[k].Sample?
    requires DecisionAt(cfg, INITIAL, events, j).control == Fault ||
             Table.Disarms(cfg, Run(cfg, INITIAL, events[..j]), events[j].inputs) ||
             !Run(cfg, INITIAL, events[..j + 1]).armRequested
    requires DecisionAt(cfg, INITIAL, events, k).lateralAllowed ||
             DecisionAt(cfg, INITIAL, events, k).longitudinalAllowed
    ensures exists m :: j < m < k && events[m] == Arm(true)
  {
    hide Update, Table.Disarms;
    DisarmedAfter(cfg, events, j);
    RunKeepsConsistent(cfg, INITIAL, events[..k]);
    PermissionImpliesArmed(cfg, Run(cfg, INITIAL, events[..k]), events[k].inputs);
    if forall m :: j + 1 <= m < k ==> events[m] != Arm(true) {
      DisarmedStaysDisarmed(cfg, INITIAL, events, j + 1, k);
      assert false;
    }
  }

  lemma DisarmedAfter(cfg: Config, events: seq<Event>, j: nat)
    requires j < |events| && events[j].Sample?
    requires DecisionAt(cfg, INITIAL, events, j).control == Fault ||
             Table.Disarms(cfg, Run(cfg, INITIAL, events[..j]), events[j].inputs) ||
             !Run(cfg, INITIAL, events[..j + 1]).armRequested
    ensures !Run(cfg, INITIAL, events[..j + 1]).armRequested
  {
    hide Update, Table.Disarms;
    RunStep(cfg, INITIAL, events, j);
    RunKeepsConsistent(cfg, INITIAL, events[..j]);
    FaultDisarms(cfg, Run(cfg, INITIAL, events[..j]), events[j].inputs);
    Table.ArmSurvivesExactly(cfg, Run(cfg, INITIAL, events[..j]), events[j].inputs);
  }

  /** The events that end a session. */
  predicate Ends(cfg: Config, s: State, e: Event) {
    match e
    case Arm(arm) => !arm
    case Sample(i) => Table.Disarms(cfg, s, i)
  }

  /** An arm request that nothing has ended before event k. */
  predicate ArmedAt(cfg: Config, events: seq<Event>, m: nat, k: nat)
    requires k <= |events|
  {
    && m < k && events[m] == Arm(true)
    && forall j :: m < j < k ==> !Ends(cfg, Run(cfg, INITIAL, events[..j]), events[j])
  }

  /** The arm request over whole runs: it stands exactly when actuation is configured, someone has asked for it,
      and none of the causes that disarm has held since. */
  lemma {:induction false} ArmedExactly(cfg: Config, events: seq<Event>, k: nat)
    requires k <= |events|
    ensures Run(cfg, INITIAL, events[..k]).armRequested <==>
              cfg.allowActuation && exists m :: ArmedAt(cfg, events, m, k)
  {
    hide Run, Ends, Advance;
    if k == 0 {
      RunNothing(cfg, INITIAL);
    } else {
      var p := k - 1;
      ArmedExactly(cfg, events, p);
      RunStep(cfg, INITIAL, events, p);
      RunKeepsConsistent(cfg, INITIAL, events[..p]);
      ArmedStep(cfg, Run(cfg, INITIAL, events[..p]), events[p]);
      if events[p] == Arm(true) {
        assert ArmedAt(cfg, events, p, k);
      } else if Ends(cfg, Run(cfg, INITIAL, events[..p]), events[p]) {
        assert forall m :: ArmedAt(cfg, events, m, k) ==> m == p;
      } else {
        if m :| ArmedAt(cfg, events, m, k) { assert ArmedAt(cfg, events, m, p); }
        if m :| ArmedAt(cfg, events, m, p) { assert ArmedAt(cfg, events, m, k); }
      }
    }
  }

  lemma ArmedStep(cfg: Config, s: State, e: Event)
    requires Consistent(s) && (s.armRequested ==> cfg.allowActuation)
    ensures Advance(cfg, s, e).armRequested <==>
              cfg.allowActuation && (e == Arm(true) || (s.armRequested && !Ends(cfg, s, e)))
  {
    hide Update, Table.Disarms;
    if e.Sample? { Table.ArmSurvivesExactly(cfg, s, e.inputs); }
  }

  // ----- The brake latch -----

  predicate BrakeHeld(s: State) {
    s.longitudinalLatchedOff && !s.longitudinal
  }

  /** An ACC fault keeps the longitudinal channel latched off where the channel is used or mirrored. */
  predicate FaultLatches(cfg: Config, v: Vehicle) {
    v.accFault && (cfg.resumeOnCommandReturn || cfg.allowLongitudinal)
  }

  /** An update that consumes a new SET press with the brake released and no ACC fault. */
  predicate Releases(cfg: Config, s: State, e: Event) {
    && e.Sample? && Processes(cfg, e.inputs) && e.inputs.vehicle.setEvents != s.lastSet
    && !e.inputs.vehicle.brakePressed && !FaultLatches(cfg, e.inputs.vehicle)
  }

  /** An arm request that starts a session from the disarmed state. */
  predicate StartsSession(s: State, e: Event) {
    e == Arm(true) && !s.armRequested
  }

  lemma ObserveHoldsBrake(cfg: Config, s: State, v: Vehicle, p: Panda)
    requires Consistent(s) && cfg.longitudinalDisengageOnBrake
    requires v.brakePressed || (BrakeHeld(s) && (v.setEvents == s.lastSet || FaultLatches(cfg, v)))
    ensures BrakeHeld(Observe(cfg, s, v, p))
  {
  }

  lemma BrakeHeldStep(cfg: Config, s: State, e: Event)
    requires Consistent(s) && cfg.longitudinalDisengageOnBrake && BrakeHeld(s)
    requires !Releases(cfg, s, e) && !StartsSession(s, e)
    ensures BrakeHeld(Advance(cfg, s, e))
    ensures e.Sample? ==> !Update(cfg, s, e.inputs).decision.longitudinalAllowed
  {
    hide Observe, Admit;
    if e.Sample? && Processes(cfg, e.inputs) {
      ObserveHoldsBrake(cfg, s.(waiting := false), e.inputs.vehicle, e.inputs.panda);
      BrakeHeldVerdict(cfg, Observe(cfg, s.(waiting := false), e.inputs.vehicle, e.inputs.panda),
                       e.inputs.vehicle.cancelEvents != s.lastCancel, e.inputs);
    }
  }

  lemma BrakeHeldVerdict(cfg: Config, s: State, cancel: bool, i: Inputs)
    requires BrakeHeld(s)
    ensures var verdict := Admit(cfg, s, cancel, i);
            && BrakeHeld(Perform(s, verdict))
            && (verdict.Run? || verdict.Pause? ==> !verdict.longitudinal)
  {
  }

  /** Brake latch over whole runs, in both modes and whatever Panda keeps reporting: once an update has
      processed a pressed brake, no decision permits the longitudinal channel before an update consumes
      a new SET press with the brake released and without an ACC fault that matters, or a new session is
      armed. */
  lemma {:induction false} BrakeLatch(cfg: Config, s: State, pressed: Inputs, events: seq<Event>, k: nat)
    requires Consistent(s) && cfg.longitudinalDisengageOnBrake
    requires Processes(cfg, pressed) && pressed.vehicle.brakePressed
    requires k < |events|
    requires var s1 := Update(cfg, s, pressed).state;
             forall j :: 0 <= j <= k ==>
               !Releases(cfg, Run(cfg, s1, events[..j]), events[j]) &&
               !StartsSession(Run(cfg, s1, events[..j]), events[j])
    ensures var s1 := Update(cfg, s, pressed).state;
            && !Update(cfg, s, pressed).decision.longitudinalAllowed
            && BrakeHeld(Run(cfg, s1, events[..k + 1]))
            && (events[k].Sample? ==> !DecisionAt(cfg, s1, events, k).longitudinalAllowed)
  {
    var s1 := Update(cfg, s, pressed).state;
    BrakeTakesLongitudinal(cfg, s, pressed);
    UpdateKeepsConsistent(cfg, s, pressed);
    RunKeepsConsistent(cfg, s1, events[..k]);
    if k > 0 {
      BrakeLatch(cfg, s, pressed, events, k - 1);
    } else {
      assert events[..0] == [];
    }
    RunStep(cfg, s1, events, k);
    BrakeHeldStep(cfg, Run(cfg, s1, events[..k]), events[k]);
  }

  lemma BrakeTakesLongitudinal(cfg: Config, s: State, i: Inputs)
    requires Consistent(s) && cfg.longitudinalDisengageOnBrake && Processes(cfg, i) && i.vehicle.brakePressed
    ensures BrakeHeld(Update(cfg, s, i).state) && !Update(cfg, s, i).decision.longitudinalAllowed
  {
    ObserveHoldsBrake(cfg, s.(waiting := false), i.vehicle, i.panda);
    BrakeHeldVerdict(cfg, Observe(cfg, s.(waiting := false), i.vehicle, i.panda),
                     i.vehicle.cancelEvents != s.lastCancel, i);
  }

  // ----- The EPS pause -----

  /** A pause running at time t ends at most the fixed window later. */
  predicate PauseBounded(s: State, t: int) {
    s.control == SoftDisabling ==> s.deadline <= t + SOFT_DISABLE_TIME
  }

  /** Sample times never decrease and none is before t. */
  predicate Chronological(events: seq<Event>, t: int) {
    && (forall k :: 0 <= k < |events| && events[k].Sample? ==> t <= events[k].inputs.now)
    && (forall j, k :: 0 <= j < k < |events| && events[j].Sample? && events[k].Sample? ==>
          events[j].inputs.now <= events[k].inputs.now)
  }

  lemma PauseBoundedStep(cfg: Config, s: State, i: Inputs, t: int)
    requires Consistent(s) && PauseBounded(s, t) && t <= i.now
    ensures PauseBounded(Update(cfg, s, i).state, i.now)
  {
    hide Observe, Admit;
    if Processes(cfg, i) {
      var cleared := s.(waiting := false);
      var o := Observe(cfg, cleared, i.vehicle, i.panda);
      ObserveKeepsConsistent(cfg, cleared, i.vehicle, i.panda);
      PauseVerdict(cfg, o, i.vehicle.cancelEvents != s.lastCancel, i);
    }
  }

  /** Where the pause comes from: it starts only in Active on an EPS fault, and continues unchanged. */
  lemma PauseVerdict(cfg: Config, s: State, cancel: bool, i: Inputs)
    requires Consistent(s)
    ensures var verdict := Admit(cfg, s, cancel, i);
            && !(verdict.To? && Engaged(verdict.next)) && !(verdict.Off? && Engaged(verdict.next))
            && (verdict.Pause? ==>
                  && i.now < verdict.deadline
                  && (if s.control == SoftDisabling then verdict.deadline == s.deadline
                      else s.control == Active && i.vehicle.epsFault && verdict.deadline == i.now + SOFT_DISABLE_TIME))
            && (verdict.Run? ==> !i.vehicle.epsFault && (s.control == SoftDisabling ==> i.now < s.deadline))
            && (verdict.Stay? ==> s.control == Fault)
  {
  }

  /** One update under an EPS fault. */
  lemma FaultedUpdate(cfg: Config, s: State, i: Inputs)
    requires Consistent(s) && i.vehicle.epsFault
    ensures var r := Update(cfg, s, i);
            && !r.decision.lateralAllowed && r.state.control != Active
            && (r.decision.longitudinalAllowed ==> r.state.control == SoftDisabling && i.now < r.state.deadline)
            && (r.state.control == SoftDisabling ==>
                  if s.control == SoftDisabling then r.state.deadline == s.deadline
                  else s.control == Active && r.state.deadline == i.now + SOFT_DISABLE_TIME)
  {
    hide Observe, Admit;
    if Processes(cfg, i) {
      var cleared := s.(waiting := false);
      ObserveKeepsConsistent(cfg, cleared, i.vehicle, i.panda);
      PauseVerdict(cfg, Observe(cfg, cleared, i.vehicle, i.panda), i.vehicle.cancelEvents != s.lastCancel, i);
    }
  }

  predicate AllFaulted(events: seq<Event>) {
    forall k :: 0 <= k < |events| && events[k].Sample? ==> events[k].inputs.vehicle.epsFault
  }

  /** After the first faulted update the state is not Active, and a pause ends where it already did. */
  lemma {:induction false} StreakState(cfg: Config, s: State, events: seq<Event>, limit: int)
    requires Consistent(s) && AllFaulted(events)
    requires s.control != Active && (s.control == SoftDisabling ==> s.deadline <= limit)
    ensures var t := Run(cfg, s, events);
            t.control != Active && (t.control == SoftDisabling ==> s.control == SoftDisabling && t.deadline <= limit)
    decreases |events|
  {
    if events != [] {
      var init, last := events[..|events| - 1], events[|events| - 1];
      StreakState(cfg, s, init, limit);
      RunKeepsConsistent(cfg, s, init);
      if last.Sample? {
        FaultedUpdate(cfg, Run(cfg, s, init), last.inputs);
      }
    }
  }

  lemma {:induction false} RunPauseBounded(cfg: Config, events: seq<Event>, t: int)
    requires Chronological(events, 0)
    requires forall k :: 0 <= k < |events| && events[k].Sample? ==> events[k].inputs.now <= t
    ensures PauseBounded(Run(cfg, INITIAL, events), t)
    decreases |events|
  {
    if events != [] {
      var init, last := events[..|events| - 1], events[|events| - 1];
      RunKeepsConsistent(cfg, INITIAL, init);
      if last.Sample? {
        RunPauseBounded(cfg, init, last.inputs.now);
        PauseBoundedStep(cfg, Run(cfg, INITIAL, init), last.inputs, last.inputs.now);
      } else {
        RunPauseBounded(cfg, init, t);
      }
    }
  }

  /** Bounded EPS pause over whole runs with nondecreasing time. After any history, while every update
      from the one at t0 on sees the EPS fault, lateral output is never permitted, longitudinal output
      only before t0 + 3 s, and the pause is not entered again after that first update. */
  lemma BoundedPause(cfg: Config, history: seq<Event>, first: Inputs, streak: seq<Event>, k: nat)
    requires Chronological(history + [Sample(first)] + streak, 0)
    requires first.vehicle.epsFault && AllFaulted(streak)
    requires k < |streak|
    ensures var s := Run(cfg, INITIAL, history);
            var s1 := Update(cfg, s, first).state;
            var d := Update(cfg, s, first).decision;
            && !d.lateralAllowed
            && (streak[k].Sample? ==>
                  var dk := DecisionAt(cfg, s1, streak, k);
                  && !dk.lateralAllowed
                  && (dk.longitudinalAllowed ==> streak[k].inputs.now < first.now + SOFT_DISABLE_TIME))
            && (Run(cfg, s1, streak[..k]).control != SoftDisabling ==>
                  Run(cfg, s1, streak[..k + 1]).control != SoftDisabling)
  {
    hide Update, Run;
    var all := history + [Sample(first)] + streak;
    assert forall j :: 0 <= j < |history| ==> all[j] == history[j];
    assert all[|history|] == Sample(first);
    var s := Run(cfg, INITIAL, history);
    RunKeepsConsistent(cfg, INITIAL, history);
    RunPauseBounded(cfg, history, first.now);
    FaultedUpdate(cfg, s, first);
    UpdateKeepsConsistent(cfg, s, first);
    var s1 := Update(cfg, s, first).state;
    assert s1.control == SoftDisabling ==> s1.deadline <= first.now + SOFT_DISABLE_TIME;
    RunKeepsConsistent(cfg, s1, streak[..k]);
    StreakState(cfg, s1, streak[..k], first.now + SOFT_DISABLE_TIME);
    RunStep(cfg, s1, streak, k);
    if streak[k].Sample? {
      FaultedUpdate(cfg, Run(cfg, s1, streak[..k]), streak[k].inputs);
    }
  }

  /** A sample that arrives at or after the deadline resumes nothing, even with the fault cleared. */
  lemma LateClearGivesNothing(cfg: Config, s: State, i: Inputs)
    requires Consistent(s) && s.control == SoftDisabling && i.now >= s.deadline
    ensures var r := Update(cfg, s, i);
            && !r.decision.lateralAllowed && !r.decision.longitudinalAllowed && !r.decision.heartbeatEngaged
            && !Engaged(r.state.control)
  {
    hide Observe, Admit;
    HeartbeatExactly(cfg, s, i);
    if Processes(cfg, i) {
      var cleared := s.(waiting := false);
      ObserveKeepsConsistent(cfg, cleared, i.vehicle, i.panda);
      VerdictNeedsArm(cfg, Observe(cfg, cleared, i.vehicle, i.panda), i.vehicle.cancelEvents != s.lastCancel, i);
      PauseVerdict(cfg, Observe(cfg, cleared, i.vehicle, i.panda), i.vehicle.cancelEvents != s.lastCancel, i);
    }
  }

  // ----- The combined mode -----

  predicate Combined(s: State) {
    s.longitudinal ==> s.lateral
  }

  /** A brake that takes the lateral channel takes the longitudinal one too. */
  predicate BrakeTakesBoth(cfg: Config) {
    cfg.lateralDisengageOnBrake ==> cfg.longitudinalDisengageOnBrake
  }

  lemma ObserveKeepsCombined(cfg: Config, s: State, v: Vehicle, p: Panda)
    requires Combined(s) && !cfg.resumeOnCommandReturn && BrakeTakesBoth(cfg)
    ensures Combined(Observe(cfg, s, v, p))
  {
  }

  /** Buttons alone never select longitudinal without lateral: LDA leaves lateral at most, SET takes or
      drops both, and ACC fault and rejections only remove the longitudinal channel. A brake keeps it that
      way when it does not take the lateral channel alone; and without actuation nothing is ever selected. */
  lemma {:induction false} LongitudinalOnlyWithLateral(cfg: Config, events: seq<Event>)
    requires !cfg.resumeOnCommandReturn && (BrakeTakesBoth(cfg) || !cfg.allowActuation)
    ensures Combined(Run(cfg, INITIAL, events))
    decreases |events|
  {
    if !cfg.allowActuation {
      NothingSelected(cfg, events);
    } else if events != [] {
      LongitudinalOnlyWithLateral(cfg, events[..|events| - 1]);
      CombinedStep(cfg, Run(cfg, INITIAL, events[..|events| - 1]), events[|events| - 1]);
    }
  }

  lemma {:induction false} NothingSelected(cfg: Config, events: seq<Event>)
    requires !cfg.allowActuation
    ensures var s := Run(cfg, INITIAL, events); !s.armRequested && !s.lateral && !s.longitudinal
    decreases |events|
  {
    hide Observe, Admit;
    RunKeepsConsistent(cfg, INITIAL, events);
    if events != [] {
      NothingSelected(cfg, events[..|events| - 1]);
    }
  }

  lemma CombinedStep(cfg: Config, s: State, e: Event)
    requires Combined(s) && !cfg.resumeOnCommandReturn && BrakeTakesBoth(cfg)
    ensures Combined(Advance(cfg, s, e))
  {
    if e.Sample? && Processes(cfg, e.inputs) {
      var cleared := s.(waiting := false);
      ObserveKeepsCombined(cfg, cleared, e.inputs.vehicle, e.inputs.panda);
      PerformKeepsCombined(Assess(cfg, s, e.inputs).0, Assess(cfg, s, e.inputs).1);
    }
  }

  lemma PerformKeepsCombined(s: State, verdict: Verdict)
    requires Combined(s)
    ensures Combined(Perform(s, verdict))
  {
  }

  /** A healthy sample of an armed car at rest, with the command's deadman released. */
  function HealthySample(cfg: Config, brake: bool): Inputs {
    Inputs(1, Vehicle(0.0, 0.0, brake, false, false, false, true, 5, 0, 1, 0, true),
           Panda(true, false, false, false, true, false, false, true, false, false, false, 0, 0, 0,
                 cfg.requiredHarnessStatus, cfg.requiredSafetyMode, cfg.requiredSafetyParam, 0, 0, 1),
           Command(false, true, 1))
  }

  lemma HealthySampleHolds(cfg: Config, s: State, brake: bool)
    requires !cfg.resumeOnCommandReturn && cfg.allowActuation && cfg.pandaTimeout > 0 && cfg.commandTimeout > 0
    requires s.armRequested && s.lastCancel == 0 && !Engaged(s.control) && s.control != Fault
    ensures var i := HealthySample(cfg, brake);
            var t := Update(cfg, s, i).state;
            var c := ApplyPedals(cfg, i.vehicle, Selected(cfg, s, i.vehicle, i.panda)).0;
            && t.lateral == c.lateral && t.longitudinal == c.longitudinal && t.armRequested && t.control == Armed
            && t.lastSet == 1 && t.lastCancel == 0 && t.lastLaneKeep == 0
  {
    hide SelectChannels, ApplyPedals;
  }

  /** In every other configuration that the constructor accepts it does happen: SET
      selects both channels, and the brake then takes the lateral one alone. */
  lemma CombinedBreaks(cfg: Config) returns (events: seq<Event>)
    requires !cfg.resumeOnCommandReturn && !BrakeTakesBoth(cfg)
    requires cfg.allowActuation && cfg.pandaTimeout > 0 && cfg.commandTimeout > 0
    ensures !Combined(Run(cfg, INITIAL, events))
  {
    hide Update, Run;
    var press, brake := HealthySample(cfg, false), HealthySample(cfg, true);
    events := [Arm(true), Sample(press), Sample(brake)];
    RunStep(cfg, INITIAL, events, 0);
    RunStep(cfg, INITIAL, events, 1);
    RunStep(cfg, INITIAL, events, 2);
    RunNothing(cfg, INITIAL);
    assert events[..0] == [] && events[..3] == events;
    var s1 := RequestArm(cfg, INITIAL, true);
    HealthySampleHolds(cfg, s1, false);
    var s2 := Update(cfg, s1, press).state;
    assert s2.lateral && s2.longitudinal;
    HealthySampleHolds(cfg, s2, true);
    assert Run(cfg, INITIAL, events[..1]) == s1;
    assert Run(cfg, INITIAL, events[..2]) == s2;
    var s3 := Update(cfg, s2, brake).state;
    assert s3.longitudinal && !s3.lateral;
    assert Run(cfg, INITIAL, events[..3]) == s3;
  }

  /** Without resume mode, for every configuration that the constructor accepts: longitudinal is selected
      only with lateral in every run exactly when the brake does not take the lateral channel alone, or
      nothing may actuate at all. */
  lemma CombinedExactly(cfg: Config)
    requires !cfg.resumeOnCommandReturn && cfg.pandaTimeout > 0 && cfg.commandTimeout > 0
    ensures (forall events :: Combined(Run(cfg, INITIAL, events))) <==> BrakeTakesBoth(cfg) || !cfg.allowActuation
  {
    hide Run, Combined;
    if BrakeTakesBoth(cfg) || !cfg.allowActuation {
      forall events ensures Combined(Run(cfg, INITIAL, events)) {
        LongitudinalOnlyWithLateral(cfg, events);
      }
    } else {
      var events := CombinedBreaks(cfg);
    }
  }
}
