/** What every reachable world of the machine of ControlLoop.dfy satisfies. */
module ControlInvariant {
  import opened EcuLedger
  import opened EcuSections
  import opened ControlLoop
  import S = Supervisor
  import R = SupervisorRuns

  predicate Retrying(phase: Phase) { phase == ControlLoop.Retry || phase == MidRetry }

  /** The restorations that do not ask whether an attempt is due, and what leads to one of them. */
  predicate RestoresAtOnce(phase: Phase) {
    phase == ArmRestore || phase == GapRestore || phase == Cleaning || phase == CleanRestore
  }

  predicate BeforeRequest(phase: Phase) { phase == Head || phase == Sampling || phase == Requesting }

  /** The phases that follow the note of a decision within one iteration. */
  predicate AfterNote(phase: Phase) {
    phase == GapRestore || phase == Choosing || phase == TakingOver || phase == Cleaning || phase == CleanRestore ||
    phase == Output || phase == Sending
  }

  /** A permission was decided in an engaged state, for a channel that is selected. */
  predicate Permitted(cfg: Config, d: S.Decision) {
    && (d.lateralAllowed ==> d.control == S.Active && d.lateralArmed)
    && (d.longitudinalAllowed ==>
          cfg.safety.allowLongitudinal && d.longitudinalArmed &&
          (d.control == S.Active || d.control == S.SoftDisabling))
  }

  /** The control thread's own variables against what the log says of the loop: the recorded state, the noted
      decision, an attempt found due in the phases of a retry only, a takeover only by invitation, and a
      supervisor that is disarmed where a request was aborted or a session is cleaned up. */
  predicate Kept(cfg: Config, loop: Loop, stage: Stage, sup: S.State, l: Local) {
    && S.Consistent(sup) && Permitted(cfg, l.decision) && l.previous == loop.recorded
    && stage == (if Retrying(l.phase) then FoundDue else AtRest)
    && (AfterNote(l.phase) ==> loop.note == NoteOf(cfg, l.inputs, l.decision))
    && (l.phase == TakingOver ==> Invited(RulesOf(cfg), loop.note))
    && (l.phase == ArmTakeover ==> !cfg.safety.resumeOnCommandReturn)
    && (l.phase == Listening ==> cfg.safety.resumeOnCommandReturn)
    && (l.phase == MidCheck || l.phase == Cleaning ==> !sup.armRequested)
  }

  /** After an operator's off, vehicle mode lasts at most until the next iteration has applied the request, and
      no takeover is under way that another iteration began. */
  predicate Winding(n: Node, iterations: nat, phase: Phase) {
    && (n.want.operatorDisarmed && iterations > 0 && n.own.vehicleMode && n.connected ==>
          iterations == 1 && (BeforeRequest(phase) || phase == ArmRestore))
    && (n.want.operatorDisarmed && (phase == ArmTakeover || phase == TakingOver) ==> iterations == 0)
  }

  predicate SameCount(w: World, t: World) { Read(t.p.log).loop.iterations == Read(w.p.log).loop.iterations }

  predicate Accounts(cfg: Config, w: World) {
    Sound(cfg, w.p) && Kept(cfg, Read(w.p.log).loop, Read(w.p.log).stage, w.sup, w.local)
  }

  /** The flags and the phase of the control thread, which has applied the arm request of generation
      `applied`. A pending recovery excludes an arm request, and so does an operator's off; what is then
      still armed, taken over or being taken over has a newer generation to be applied. An outage with a
      failure is out of vehicle mode, in no phase that restores at once, and disarmed once the request has been
      applied. */
  predicate Orderly(n: Node, phase: Phase, applied: nat) {
    && applied <= n.want.generation
    && (n.own.retry.pending || phase == CleanRestore || Retrying(phase) ==> n.own.recoveryPending)
    && (n.own.recoveryPending ==> !n.want.requestedArm)
    && (n.own.recoveryPending && n.want.appliedArm ==> applied < n.want.generation)
    && (n.want.operatorDisarmed ==> !n.want.requestedArm && n.want.autoArmInhibited)
    && (!n.want.requestedArm && n.own.vehicleMode && n.connected ==>
          applied < n.want.generation || phase == ArmRestore || phase == CleanRestore)
    && (!n.want.requestedArm && (phase == ArmTakeover || phase == TakingOver) ==> applied < n.want.generation)
    && (Failing(n.own.retry) ==>
          && !n.own.vehicleMode && !RestoresAtOnce(phase)
          && (n.want.appliedArm ==> BeforeRequest(phase)))
    && (Retrying(phase) ==> !n.want.appliedArm && !n.own.vehicleMode)
  }

  predicate InOrder(w: World) { Orderly(w.p.node, w.local.phase, w.local.appliedGeneration) }

  predicate WindsUp(w: World) { Winding(w.p.node, Read(w.p.log).loop.iterations, w.local.phase) }

  predicate Invariant(cfg: Config, w: World) { Accounts(cfg, w) && InOrder(w) && WindsUp(w) }

  // ----- Each step keeps the accounts -----

  lemma SoundUnfolds(cfg: Config, p: Progress)
    requires Sound(cfg, p)
    ensures Ruled(cfg, p) && Ledger(p) && Owns(cfg, p.node) && Permits(cfg, p.node)
  {
  }

  /** A note that leaves custody and permissions alone. */
  lemma NotedSound(cfg: Config, p: Progress, want: Intent, a: Action)
    requires Sound(cfg, p) && LawfulAction(Read(p.log), p.log, a) && !a.Started?
    requires Agrees(p.node.(want := want), Absorb(Read(p.log), a))
    ensures Sound(cfg, Note(WithWant(p, want), a))
    ensures Read(p.log + [a]) == Absorb(Read(p.log), a)
  {
    hide Read, Lawful, Agrees, LawfulAction;
    NoteKeeps(p, p.node.(want := want), a);
    RulesStay(Read(p.log), a);
  }

  lemma RulesStay(f: Facts, a: Action)
    requires !a.Started?
    ensures Absorb(f, a).rules == f.rules
  {
    hide StandingAfter, LoopAfter, LineAfter, RevokesGap;
  }

  lemma CheckKeeps(cfg: Config, w: World, now: int)
    requires Accounts(cfg, w) && Enabled(w, Check(now))
    ensures Accounts(cfg, CheckStep(w, now)) && SameCount(w, CheckStep(w, now))
  {
    hide CheckRetry, Read, Sound, S.Consistent, Permitted, NoteOf;
    CheckRetryKeeps(cfg, w.p, now);
  }

  lemma PublishKeeps(cfg: Config, p: Progress, lateral: bool, longitudinal: bool)
    requires Sound(cfg, p) && LawfulAction(Read(p.log), p.log, Published(lateral, longitudinal))
    ensures var q := Publish(p, lateral, longitudinal);
            && Sound(cfg, q) && Read(q.log).stage == Read(p.log).stage && Read(q.log).rules == Read(p.log).rules
            && Read(q.log).loop == Read(p.log).loop.(lateralOut := lateral, longitudinalOut := longitudinal)
  {
    hide Read, Lawful;
    NoteKeeps(p, Publish(p, lateral, longitudinal).node, Published(lateral, longitudinal));
  }

  /** What may be published of a decision that has been noted. */
  lemma MayPublish(cfg: Config, p: Progress, i: S.Inputs, d: S.Decision)
    requires Ruled(cfg, p) && Permitted(cfg, d) && Read(p.log).loop.note == NoteOf(cfg, i, d)
    ensures LawfulAction(Read(p.log), p.log, Published(d.lateralAllowed, d.longitudinalAllowed))
    ensures LawfulAction(Read(p.log), p.log, Published(false, false))
  {
    hide Read, Lawful;
  }

  lemma RecordedKeeps(cfg: Config, p: Progress, control: S.ControlState)
    requires Sound(cfg, p) && Read(p.log).loop.note.control == control
    ensures var q := Note(p, Recorded(control));
            && Sound(cfg, q) && Read(q.log).stage == Read(p.log).stage
            && var l := Read(p.log).loop;
               Read(q.log).loop == l.(recorded := control, iterations := l.iterations + 1)
  {
    hide Read, Lawful;
    NoteKeeps(p, p.node, Recorded(control));
  }

  lemma RecordKeeps(cfg: Config, w: World, phase: Phase)
    requires Sound(cfg, w.p) && S.Consistent(w.sup) && Permitted(cfg, w.local.decision)
    requires Read(w.p.log).stage == AtRest && Read(w.p.log).loop.note == NoteOf(cfg, w.local.inputs, w.local.decision)
    requires phase == Head
    ensures Accounts(cfg, Record(w, phase))
    ensures Read(Record(w, phase).p.log).loop.iterations == Read(w.p.log).loop.iterations + 1
  {
    hide Read, Sound, Publish, S.Consistent;
    var d := w.local.decision;
    SoundUnfolds(cfg, w.p);
    MayPublish(cfg, w.p, w.local.inputs, d);
    PublishKeeps(cfg, w.p, d.lateralAllowed, d.longitudinalAllowed);
    RecordedKeeps(cfg, Publish(w.p, d.lateralAllowed, d.longitudinalAllowed), d.control);
  }

  /** An internal disarm after which the arm request is no longer applied. */
  lemma DroppedKeeps(cfg: Config, p: Progress, requireRearm: bool)
    requires Ruled(cfg, p) && Owns(cfg, p.node) && Permits(cfg, p.node)
    ensures var q := Release(RequestInternalDisarm(p, requireRearm)); Sound(cfg, q) && Carries(p.log, q.log)
  {
    hide Read, Lawful, Release;
    DisarmKeeps(cfg, p, requireRearm);
    DropsRequest(p, requireRearm);
    ReleaseKeeps(cfg, RequestInternalDisarm(p, requireRearm));
  }

  lemma DropsRequest(p: Progress, requireRearm: bool)
    ensures !RequestInternalDisarm(p, requireRearm).node.want.requestedArm
  {
  }

  lemma AbortKeeps(cfg: Config, w: World)
    requires Ruled(cfg, w.p) && Owns(cfg, w.p.node) && Permits(cfg, w.p.node) && S.Consistent(w.sup)
    requires Permitted(cfg, w.local.decision)
    requires w.local.previous == Read(w.p.log).loop.recorded && Read(w.p.log).stage == AtRest
    ensures Accounts(cfg, AbortRequest(cfg, w)) && SameCount(w, AbortRequest(cfg, w))
  {
    hide Read, Sound, Ruled, Owns, Permits, RequestInternalDisarm, Release, S.RequestArm, S.Consistent, Permitted,
         NoteOf;
    DroppedKeeps(cfg, w.p, true);
    S.RequestArmKeepsConsistent(cfg.safety, w.sup, false);
    OffDisarms(cfg, w.sup);
  }

  lemma OffDisarms(cfg: Config, s: S.State)
    ensures !S.RequestArm(cfg.safety, s, false).armRequested
  {
  }

  /** A restoration that follows a failure was found due. */
  lemma MayRestore(cfg: Config, w: World, env: NoOutputEnv)
    requires Invariant(cfg, w) && Enabled(w, Restore(env))
    ensures MayStart(w.p) && Ruled(cfg, w.p) && Owns(cfg, w.p.node) && Permits(cfg, w.p.node)
  {
    hide Read, Lawful, Winding;
  }

  lemma SectionRestores(cfg: Config, w: World, env: NoOutputEnv)
    requires Invariant(cfg, w) && Enabled(w, Restore(env))
    ensures var p := EnterNoOutput(cfg, w.p, env).p;
            && Sound(cfg, p) && Ruled(cfg, p) && Owns(cfg, p.node) && Permits(cfg, p.node)
            && Read(p.log).loop == Read(w.p.log).loop && Read(p.log).stage == AtRest
  {
    hide EnterNoOutput, Read, Sound, Ruled, Owns, Permits, OnlyRestore, GivenBack, Kept, InOrder, WindsUp;
    MayRestore(cfg, w, env);
    EnterNoOutputKeeps(cfg, w.p, env);
    SoundUnfolds(cfg, EnterNoOutput(cfg, w.p, env).p);
  }

  lemma GapRestoreKeeps(cfg: Config, w: World, r: Attempt)
    requires Accounts(cfg, w) && w.local.phase == GapRestore && Sound(cfg, r.p)
    requires Read(r.p.log).loop == Read(w.p.log).loop && Read(r.p.log).stage == AtRest
    ensures Accounts(cfg, Record(w.(p := if r.Done? then r.p else RequestInternalDisarm(r.p, true)), Head))
  {
    hide Read, Sound, Record, RequestInternalDisarm, S.Consistent, Permitted, NoteOf, Invited;
    SoundUnfolds(cfg, r.p);
    DisarmKeeps(cfg, r.p, true);
    RecordKeeps(cfg, w.(p := if r.Done? then r.p else RequestInternalDisarm(r.p, true)), Head);
  }

  lemma RestoreKeeps(cfg: Config, w: World, env: NoOutputEnv)
    requires Invariant(cfg, w) && Enabled(w, Restore(env))
    ensures Accounts(cfg, RestoreStep(cfg, w, env))
  {
    hide EnterNoOutput, Read, Sound, Ruled, Owns, Permits, Record, AbortRequest, RequestInternalDisarm,
         S.Consistent, Permitted, NoteOf, Invited, InOrder, WindsUp;
    SectionRestores(cfg, w, env);
    var r := if w.local.phase == CleanRestore && !w.p.node.connected then Done(w.p) else EnterNoOutput(cfg, w.p, env);
    match w.local.phase
    case Retry =>
    case MidRetry =>
    case ArmRestore =>
      if r.Failed? { AbortKeeps(cfg, w.(p := r.p)); }
    case GapRestore =>
      GapRestoreKeeps(cfg, w, r);
    case _ =>
      RecordKeeps(cfg, w.(p := r.p), Head);
  }

  lemma PressKeeps(cfg: Config, l: Local, p: Progress, v: S.Vehicle)
    requires Sound(cfg, p)
    ensures var q := PressBlock(cfg, l, p, v); Sound(cfg, q) && Carries(p.log, q.log)
  {
    hide Read, Lawful, PressSeen;
    if PressBlock(cfg, l, p, v) != p {
      NotedSound(cfg, p, PressBlock(cfg, l, p, v).node.want, EngagePress);
    }
  }

  lemma AutoArmKeeps(cfg: Config, p: Progress, i: S.Inputs, preflight: bool)
    requires Sound(cfg, p) && AutoArmReady(cfg, p.node, i, preflight) && !p.node.want.requestedArm
    ensures var want := p.node.want;
            var q := Note(WithWant(p, want.(requestedArm := true, generation := want.generation + 1)), AutoArmed);
            Sound(cfg, q) && Carries(p.log, q.log)
  {
    hide Read, Lawful, ListenerReady;
    NotedSound(cfg, p, p.node.want.(requestedArm := true, generation := p.node.want.generation + 1), AutoArmed);
  }

  lemma SampleKeeps(cfg: Config, w: World, i: S.Inputs, preflight: bool)
    requires Accounts(cfg, w) && Enabled(w, Sample(i, preflight))
    ensures Accounts(cfg, SampleStep(cfg, w, i, preflight)) && SameCount(w, SampleStep(cfg, w, i, preflight))
  {
    hide Read, Sound, PressBlock, AutoArmReady, S.Consistent, Permitted, NoteOf, Invited;
    PressKeeps(cfg, w.local, w.p, i.vehicle);
    var q := PressBlock(cfg, w.local, w.p, i.vehicle);
    if AutoArmReady(cfg, q.node, i, preflight) && !q.node.want.requestedArm {
      AutoArmKeeps(cfg, q, i, preflight);
    }
  }

  lemma ApplyKeeps(cfg: Config, p: Progress)
    requires Sound(cfg, p) && S.ArmAccepted(cfg.safety, p.node.want.requestedArm)
    ensures var arm := p.node.want.requestedArm;
            var q := Note(WithWant(p, p.node.want.(appliedArm := arm)), Applied(arm));
            Sound(cfg, q) && Carries(p.log, q.log)
  {
    hide Read, Lawful;
    NotedSound(cfg, p, p.node.want.(appliedArm := p.node.want.requestedArm), Applied(p.node.want.requestedArm));
  }

  lemma AfterRequestPhases(cfg: Config, n: Node, panda: S.Panda)
    ensures var to := AfterRequest(cfg, n, panda);
            && !Retrying(to) && !AfterNote(to) && to != Cleaning && (to == MidCheck ==> !n.want.requestedArm)
            && (to == ArmTakeover ==> !cfg.safety.resumeOnCommandReturn)
            && (to == Listening ==> cfg.safety.resumeOnCommandReturn)
  {
  }

  lemma RequestKeeps(cfg: Config, w: World)
    requires Accounts(cfg, w) && Enabled(w, Request)
    ensures Accounts(cfg, RequestStep(cfg, w)) && SameCount(w, RequestStep(cfg, w))
  {
    hide Read, Sound, Ledger, RequestInternalDisarm, Release, AfterRequest, S.RequestArm, S.Consistent, S.ArmAccepted,
         Permitted, NoteOf, Invited, Carries;
    SoundUnfolds(cfg, w.p);
    DroppedKeeps(cfg, w.p, true);
    CarriesMeans(w.p.log, Release(RequestInternalDisarm(w.p, true)).log);
    AfterRequestPhases(cfg, w.p.node, w.local.inputs.panda);
    if S.ArmAccepted(cfg.safety, w.p.node.want.requestedArm) {
      ApplyKeeps(cfg, w.p);
      var arm := w.p.node.want.requestedArm;
      CarriesMeans(w.p.log, Note(WithWant(w.p, w.p.node.want.(appliedArm := arm)), Applied(arm)).log);
    }
    S.RequestArmKeepsConsistent(cfg.safety, w.sup, w.p.node.want.requestedArm);
    OffDisarms(cfg, w.sup);
  }

  lemma CarriesMeans(a: Log, b: Log)
    requires Carries(a, b)
    ensures Read(b).loop == Read(a).loop && Read(b).stage == Read(a).stage && Read(b).rules == Read(a).rules
  {
    hide Read;
  }

  lemma ListenModeKeeps(cfg: Config, p: Progress, switched: bool)
    requires Sound(cfg, p) && cfg.safety.resumeOnCommandReturn && Read(p.log).stage == AtRest
    ensures var q := Try(p, switched, Mode(NO_OUTPUT, cfg.safety.requiredSafetyParam)).p;
            Sound(cfg, q) && Carries(p.log, q.log)
  {
    hide Read, Lawful;
    ModeKeeps(p, switched, NO_OUTPUT, cfg.safety.requiredSafetyParam);
  }

  lemma ListenKeeps(cfg: Config, w: World, switched: bool, read: bool)
    requires Accounts(cfg, w) && Enabled(w, Listen(switched, read))
    ensures Accounts(cfg, ListenStep(cfg, w, switched, read)) && SameCount(w, ListenStep(cfg, w, switched, read))
  {
    hide Read, Sound, AbortRequest, Try, S.Consistent, Permitted, NoteOf, Invited;
    ListenModeKeeps(cfg, w.p, switched);
    var q := Try(w.p, switched, Mode(NO_OUTPUT, cfg.safety.requiredSafetyParam)).p;
    SoundUnfolds(cfg, q);
    AbortKeeps(cfg, w.(p := q));
  }

  lemma TakeOverKeeps(cfg: Config, w: World, env: TakeoverEnv, healthRead: bool)
    requires Accounts(cfg, w) && Enabled(w, TakeOver(env, healthRead))
    ensures Accounts(cfg, TakeOverStep(cfg, w, env, healthRead)) && SameCount(w, TakeOverStep(cfg, w, env, healthRead))
  {
    hide EnterVehicleMode, Read, Sound, Ruled, Owns, Permits, OnlyTakeover, AbortRequest, RequestInternalDisarm,
         S.Consistent, Permitted, NoteOf, Invited;
    MayTryTakeover(cfg, w);
    var resume := w.local.phase != ArmTakeover && w.local.moving;
    EnterVehicleModeKeeps(cfg, w.p, w.local.inputs.vehicle, resume, env);
    var r := EnterVehicleMode(cfg, w.p, w.local.inputs.vehicle, resume, env);
    if w.local.phase == ArmTakeover {
      AbortKeeps(cfg, w.(p := r.p));
    } else {
      DisarmKeeps(cfg, r.p, true);
    }
  }

  lemma MayTryTakeover(cfg: Config, w: World)
    requires Accounts(cfg, w) && (w.local.phase == ArmTakeover || w.local.phase == TakingOver)
    ensures Read(w.p.log).stage == AtRest && Invited(Read(w.p.log).rules, Read(w.p.log).loop.note)
  {
    hide Read, Ledger, S.Consistent, NoteOf;
  }

  lemma DecideKeeps(cfg: Config, w: World)
    requires Accounts(cfg, w) && Enabled(w, Decide)
    ensures Accounts(cfg, DecideStep(cfg, w)) && SameCount(w, DecideStep(cfg, w))
  {
    hide S.Update, Read, Sound, NoteOf, Invited;
    S.UpdateKeepsConsistent(cfg.safety, w.sup, w.local.inputs);
    R.PermissionImpliesArmed(cfg.safety, w.sup, w.local.inputs);
    R.HeartbeatExactly(cfg.safety, w.sup, w.local.inputs);
  }

  lemma DropKeeps(cfg: Config, w: World, ok: bool)
    requires Accounts(cfg, w) && Enabled(w, Drop(ok))
    ensures Accounts(cfg, DropStep(w, ok)) && SameCount(w, DropStep(w, ok))
  {
    hide Read, Sound, RequestInternalDisarm, S.Consistent, Permitted, NoteOf, Invited;
    SoundUnfolds(cfg, w.p);
    DisarmKeeps(cfg, w.p, true);
  }

  lemma NotedKeeps(cfg: Config, p: Progress, n: Summary)
    requires Sound(cfg, p)
    ensures var q := NoteDecision(cfg, p, n);
            && Sound(cfg, q) && Read(q.log).stage == Read(p.log).stage
            && Read(q.log).loop == Read(p.log).loop.(note := n)
  {
    hide Read, Lawful;
    NotedSound(cfg, p, NoteDecision(cfg, p, n).node.want, Noted(n));
  }

  lemma MarkAgrees(p: Progress, qualified: bool)
    requires Ledger(p)
    ensures Agrees(p.node.(want := MarkGap(p, qualified).node.want), Absorb(Read(p.log), GapEnded(qualified)))
  {
    hide Read, Lawful;
  }

  lemma MarkIsLawful(cfg: Config, p: Progress, qualified: bool)
    requires Ruled(cfg, p) && cfg.safety.resumeOnCommandReturn
    requires p.node.own.vehicleMode && Read(p.log).loop.note.waiting
    requires var l := Read(p.log).loop; qualified == (l.recorded == S.Active && (l.note.lateral || l.note.longitudinal))
    ensures LawfulAction(Read(p.log), p.log, GapEnded(qualified))
  {
    hide Read, Lawful;
  }

  lemma MarkFacts(f: Facts, qualified: bool)
    ensures var g := Absorb(f, GapEnded(qualified)); g.rules == f.rules && g.loop == f.loop && g.stage == f.stage
  {
  }

  lemma MarkGapKeeps(cfg: Config, p: Progress)
    requires Sound(cfg, p) && cfg.safety.resumeOnCommandReturn
    requires p.node.own.vehicleMode && Read(p.log).loop.note.waiting
    ensures var l := Read(p.log).loop;
            var q := MarkGap(p, l.recorded == S.Active && (l.note.lateral || l.note.longitudinal));
            Sound(cfg, q) && Carries(p.log, q.log)
  {
    hide Read, Sound, Ledger, Agrees, Absorb, LawfulAction;
    SoundUnfolds(cfg, p);
    var l := Read(p.log).loop;
    var qualified := l.recorded == S.Active && (l.note.lateral || l.note.longitudinal);
    MarkIsLawful(cfg, p, qualified);
    MarkAgrees(p, qualified);
    MarkFacts(Read(p.log), qualified);
    NotedSound(cfg, p, MarkGap(p, qualified).node.want, GapEnded(qualified));
  }

  lemma GapKeeps(cfg: Config, w: World)
    requires Accounts(cfg, w) && Enabled(w, NoteGap)
    ensures Accounts(cfg, GapStep(cfg, w)) && SameCount(w, GapStep(cfg, w))
  {
    hide Read, Sound, NoteDecision, MarkGap, S.Consistent, Permitted, Commanded;
    var d, n := w.local.decision, NoteOf(cfg, w.local.inputs, w.local.decision);
    NotedKeeps(cfg, w.p, n);
    var p := NoteDecision(cfg, w.p, n);
    if cfg.safety.resumeOnCommandReturn && d.waiting && p.node.own.vehicleMode {
      MarkGapKeeps(cfg, p);
    }
  }

  lemma ChooseKeeps(cfg: Config, w: World)
    requires Accounts(cfg, w) && Enabled(w, Choose)
    ensures Accounts(cfg, ChooseStep(cfg, w)) && SameCount(w, ChooseStep(cfg, w))
  {
    hide Read, Sound, MovingResume, S.Consistent, Permitted, Commanded;
  }

  lemma CleanKeeps(cfg: Config, w: World)
    requires Accounts(cfg, w) && Enabled(w, CleanUp)
    ensures Accounts(cfg, CleanStep(cfg, w)) && SameCount(w, CleanStep(cfg, w))
  {
    hide Read, Sound, Ledger, RequestInternalDisarm, Release, S.CommandFresh, S.Consistent, Permitted, NoteOf, Invited;
    SoundUnfolds(cfg, w.p);
    DroppedKeeps(cfg, w.p, true);
    DroppedKeeps(cfg, w.p, false);
  }

  lemma AdaptedKeeps(cfg: Config, w: World, ok: bool)
    requires Accounts(cfg, w) && w.local.phase == Output
    ensures var q := AdaptStep(w, ok).p; Sound(cfg, q) && Read(q.log).stage == Read(w.p.log).stage
    ensures var l, m := Read(w.p.log).loop, Read(AdaptStep(w, ok).p.log).loop;
            m == l.(lateralOut := m.lateralOut, longitudinalOut := m.longitudinalOut)
  {
    hide Read, Sound, Ledger, RequestInternalDisarm, Publish, S.Consistent, Permitted, Commanded;
    SoundUnfolds(cfg, w.p);
    var d, q := w.local.decision, RequestInternalDisarm(w.p, true);
    if ok {
      MayPublish(cfg, w.p, w.local.inputs, d);
      PublishKeeps(cfg, w.p, d.lateralAllowed, d.longitudinalAllowed);
    } else {
      DisarmKeeps(cfg, w.p, true);
      SoundUnfolds(cfg, q);
      MayPublish(cfg, q, w.local.inputs, d);
      PublishKeeps(cfg, q, false, false);
    }
  }

  lemma AdaptKeeps(cfg: Config, w: World, ok: bool)
    requires Accounts(cfg, w) && Enabled(w, Adapt(ok))
    ensures Accounts(cfg, AdaptStep(w, ok)) && SameCount(w, AdaptStep(w, ok))
  {
    hide Read, Sound, RequestInternalDisarm, Publish, S.Consistent, Commanded;
    AdaptedKeeps(cfg, w, ok);
  }

  /** Nothing forbids these control frames. */
  predicate MaySendAll(f: Facts, addresses: seq<nat>) {
    forall k :: 0 <= k < |addresses| ==> LawfulFrame(f, [], addresses[k], Control)
  }

  lemma FrameLawful(f: Facts, before: Log, address: nat)
    requires LawfulFrame(f, [], address, Control)
    ensures LawfulAction(f, before, Sent(address, Control)) && Absorb(f, Sent(address, Control)) == f
  {
  }

  lemma {:induction false} TransmitKeeps(p: Progress, addresses: seq<nat>)
    requires Ledger(p) && MaySendAll(Read(p.log), addresses)
    ensures var q := Transmit(p, addresses); Ledger(q) && q.node == p.node && Read(q.log) == Read(p.log)
    decreases |addresses|
  {
    hide Read, Lawful, LawfulFrame;
    if addresses != [] {
      FrameLawful(Read(p.log), p.log, addresses[0]);
      TryKeeps(p, true, Sent(addresses[0], Control));
      TransmitKeeps(Note(p, Sent(addresses[0], Control)), addresses[1..]);
    }
  }

  lemma FramesLawful(cfg: Config, p: Progress, frameIndex: nat)
    requires Sound(cfg, p) && p.node.own.vehicleMode
    requires p.node.want.operatorDisarmed ==> Read(p.log).loop.iterations == 0
    ensures MaySendAll(Read(p.log), Frames(cfg, frameIndex))
  {
    hide Read, Lawful;
  }

  lemma SendFramesKeeps(cfg: Config, w: World, ok: bool)
    requires Invariant(cfg, w) && w.local.phase == Sending
    ensures var q := SendFrames(cfg, w, ok); Sound(cfg, q) && Carries(w.p.log, q.log)
  {
    hide Read, Lawful, RequestInternalDisarm, Transmit, Frames, MaySendAll, Kept, InOrder;
    if MaySend(cfg, w) {
      FramesLawful(cfg, w.p, w.local.frameIndex);
      TransmitKeeps(w.p, Frames(cfg, w.local.frameIndex));
      DisarmKeeps(cfg, Transmit(w.p, Frames(cfg, w.local.frameIndex)), true);
    }
  }

  lemma SendKeeps(cfg: Config, w: World, ok: bool)
    requires Invariant(cfg, w) && Enabled(w, Send(ok))
    ensures Accounts(cfg, SendStep(cfg, w, ok))
    ensures Read(SendStep(cfg, w, ok).p.log).loop.iterations == Read(w.p.log).loop.iterations + 1
  {
    hide SendFrames, Sound, Read, S.Consistent, Permitted, Commanded, InOrder, WindsUp;
    SendFramesKeeps(cfg, w, ok);
    RecordedKeeps(cfg, SendFrames(cfg, w, ok), w.local.decision.control);
  }

  lemma LostKeepsSound(cfg: Config, p: Progress)
    requires Sound(cfg, p)
    ensures Sound(cfg, p.(node := p.node.(connected := false)))
  {
    hide Read, Lawful;
  }

  lemma ThreadKeeps(cfg: Config, w: World, step: Step)
    requires Invariant(cfg, w)
    requires step.LinkUp? || step.LinkError? || step.LinkLost? || step.RawTx? || step.SetArmed?
    ensures Accounts(cfg, Next(cfg, w, step))
    ensures var t := Next(cfg, w, step);
            if step.SetArmed? && t.p != w.p then Read(t.p.log).loop.iterations == 0 else SameCount(w, t)
  {
    hide Read, Sound, Connect, Disconnect, RawTransmit, ArmService, S.Consistent, Permitted, NoteOf, Invited, InOrder;
    match step
    case LinkUp => ConnectKeeps(cfg, w.p);
    case LinkError => DisconnectKeeps(cfg, w.p);
    case LinkLost => LostKeepsSound(cfg, w.p);
    case RawTx(address, wellFormed) => RawTransmitKeeps(cfg, w.p, address, wellFormed);
    case SetArmed(arm) => ServiceKeeps(cfg, w.p, arm);
  }

  lemma NextAccounts(cfg: Config, w: World, step: Step)
    requires Invariant(cfg, w) && Enabled(w, step)
    ensures Accounts(cfg, Next(cfg, w, step))
  {
    hide CheckStep, RestoreStep, SampleStep, RequestStep, ListenStep, TakeOverStep, DecideStep, DropStep, GapStep,
         ChooseStep, CleanStep, AdaptStep, SendStep, Accounts, InOrder, WindsUp, Enabled;
    match step
    case Check(now) => CheckKeeps(cfg, w, now);
    case Restore(env) => RestoreKeeps(cfg, w, env);
    case Sample(inputs, preflight) => SampleKeeps(cfg, w, inputs, preflight);
    case Request => RequestKeeps(cfg, w);
    case Listen(switched, read) => ListenKeeps(cfg, w, switched, read);
    case TakeOver(env, healthRead) => TakeOverKeeps(cfg, w, env, healthRead);
    case Decide => DecideKeeps(cfg, w);
    case Drop(ok) => DropKeeps(cfg, w, ok);
    case NoteGap => GapKeeps(cfg, w);
    case Choose => ChooseKeeps(cfg, w);
    case CleanUp => CleanKeeps(cfg, w);
    case Adapt(ok) => AdaptKeeps(cfg, w, ok);
    case Send(ok) => SendKeeps(cfg, w, ok);
    case LinkUp => ThreadKeeps(cfg, w, step);
    case LinkError => ThreadKeeps(cfg, w, step);
    case LinkLost => ThreadKeeps(cfg, w, step);
    case RawTx(_, _) => ThreadKeeps(cfg, w, step);
    case SetArmed(_) => ThreadKeeps(cfg, w, step);
  }

  // ----- Each step keeps the order -----

  /** What a disarm does to the flags that the order is about; its caller may withdraw the applied request. */
  predicate Disarmed(n: Node, m: Node) {
    && m.own == n.own.(recoveryPending := true) && m.connected == n.connected
    && !m.want.requestedArm && (m.want.appliedArm ==> n.want.appliedArm)
    && m.want.generation == n.want.generation + 1
    && m.want.operatorDisarmed == n.want.operatorDisarmed && (n.want.autoArmInhibited ==> m.want.autoArmInhibited)
  }

  lemma DisarmMeans(p: Progress, requireRearm: bool)
    ensures var q := RequestInternalDisarm(p, requireRearm);
            Disarmed(p.node, q.node) && Disarmed(p.node, Release(q).node) && !Release(q).node.want.appliedArm
  {
  }

  lemma DisarmInOrder(n: Node, m: Node, phase: Phase, applied: nat)
    requires Disarmed(n, m) && applied <= n.want.generation && !Retrying(phase)
    requires n.want.operatorDisarmed ==> n.want.autoArmInhibited
    requires Failing(n.own.retry) ==>
               !n.own.vehicleMode && !RestoresAtOnce(phase) && (m.want.appliedArm ==> BeforeRequest(phase))
    ensures Orderly(m, phase, applied)
  {
  }

  /** What leaving vehicle mode does to them. */
  predicate Left(n: Node, m: Node, failed: bool) {
    && m.connected == n.connected && !m.own.vehicleMode
    && m.own.recoveryPending == m.own.retry.pending == failed
    && m.want.requestedArm == n.want.requestedArm && m.want.appliedArm == n.want.appliedArm
    && m.want.generation == n.want.generation
    && m.want.operatorDisarmed == n.want.operatorDisarmed && (n.want.autoArmInhibited ==> m.want.autoArmInhibited)
  }

  lemma RestoreLeaves(cfg: Config, w: World, env: NoOutputEnv)
    requires Invariant(cfg, w) && Enabled(w, Restore(env))
    ensures var r := EnterNoOutput(cfg, w.p, env); Left(w.p.node, r.p.node, r.Failed?)
  {
    hide EnterNoOutput, Read, Lawful, Ledger;
    MayRestore(cfg, w, env);
    EnterNoOutputKeeps(cfg, w.p, env);
  }

  lemma LeftInOrder(n: Node, m: Node, failed: bool, from: Phase, to: Phase, applied: nat)
    requires Orderly(n, from, applied) && Left(n, m, failed)
    requires from == CleanRestore || Retrying(from) || !failed
    requires to == Head || ((to == Sampling || to == Deciding) && (failed ==> Retrying(from)))
    ensures Orderly(m, to, applied)
  {
  }

  lemma CheckInOrder(cfg: Config, w: World, now: int)
    requires Invariant(cfg, w) && Enabled(w, Check(now))
    ensures InOrder(CheckStep(w, now))
  {
    hide Accounts, WindsUp;
  }

  /** None of these flags differs. */
  predicate SameOrder(n: Node, m: Node) {
    && m.own == n.own && m.connected == n.connected && m.want.requestedArm == n.want.requestedArm
    && m.want.appliedArm == n.want.appliedArm && m.want.generation == n.want.generation
    && m.want.operatorDisarmed == n.want.operatorDisarmed && m.want.autoArmInhibited == n.want.autoArmInhibited
  }

  lemma SameInOrder(n: Node, m: Node, phase: Phase, applied: nat)
    requires Orderly(n, phase, applied) && SameOrder(n, m)
    ensures Orderly(m, phase, applied)
  {
  }

  lemma RestoreInOrder(cfg: Config, w: World, env: NoOutputEnv)
    requires Invariant(cfg, w) && Enabled(w, Restore(env))
    ensures InOrder(RestoreStep(cfg, w, env))
  {
    hide EnterNoOutput, RequestInternalDisarm, S.RequestArm, Accounts, Orderly, Left, Disarmed, WindsUp;
    RestoreLeaves(cfg, w, env);
    var n, phase, applied := w.p.node, w.local.phase, w.local.appliedGeneration;
    var r, t := EnterNoOutput(cfg, w.p, env), RestoreStep(cfg, w, env);
    if phase == CleanRestore && !n.connected {
      SkippedInOrder(n, applied);
      SameInOrder(n, t.p.node, Head, applied);
    } else if r.Done? || phase == CleanRestore || Retrying(phase) {
      LeftInOrder(n, r.p.node, r.Failed?, phase, t.local.phase, applied);
      SameInOrder(r.p.node, t.p.node, t.local.phase, applied);
    } else {
      var q := RequestInternalDisarm(r.p, true);
      DisarmMeans(r.p, true);
      FailedInOrder(n, r.p.node, q.node, phase, Head, applied);
      if phase == GapRestore { SameInOrder(q.node, t.p.node, Head, applied); }
      FailedInOrder(n, r.p.node, Release(q).node, phase,
                    if q.node.connected then MidCheck else Deciding, applied);
    }
  }

  lemma SkippedInOrder(n: Node, applied: nat)
    requires Orderly(n, CleanRestore, applied) && !n.connected
    ensures Orderly(n, Head, applied)
  {
  }

  /** A failure that is answered with a disarm. */
  lemma FailedInOrder(n: Node, left: Node, m: Node, from: Phase, to: Phase, applied: nat)
    requires Orderly(n, from, applied) && Left(n, left, true) && Disarmed(left, m)
    requires to == Head || (!m.want.appliedArm && (to == MidCheck || to == Deciding))
    ensures Orderly(m, to, applied)
  {
  }

  lemma SampleInOrder(cfg: Config, w: World, i: S.Inputs, preflight: bool)
    requires Invariant(cfg, w) && Enabled(w, Sample(i, preflight))
    ensures InOrder(SampleStep(cfg, w, i, preflight))
  {
    hide Accounts, ListenerReady, PressSeen, WindsUp;
  }

  lemma RequestInOrder(cfg: Config, w: World)
    requires Invariant(cfg, w) && Enabled(w, Request)
    ensures InOrder(RequestStep(cfg, w))
  {
    hide RequestInternalDisarm, S.RequestArm, Accounts, Orderly, AfterRequest, Disarmed, WindsUp;
    var n, q := w.p.node, RequestInternalDisarm(w.p, true);
    if n.want.generation == w.local.appliedGeneration || (n.want.requestedArm && !n.connected) {
      NothingNewInOrder(n, w.local.appliedGeneration);
    } else if S.ArmAccepted(cfg.safety, n.want.requestedArm) {
      AppliedInOrder(cfg, n, w.local.inputs.panda, w.local.appliedGeneration);
    } else {
      DisarmMeans(w.p, true);
      RefusedInOrder(n, Release(q).node, w.local.appliedGeneration);
    }
  }

  lemma NothingNewInOrder(n: Node, applied: nat)
    requires Orderly(n, Requesting, applied)
    requires n.want.generation == applied || (n.want.requestedArm && !n.connected)
    ensures Orderly(n, Deciding, applied)
  {
  }

  lemma AppliedInOrder(cfg: Config, n: Node, panda: S.Panda, applied: nat)
    requires Orderly(n, Requesting, applied)
    ensures var m := n.(want := n.want.(appliedArm := n.want.requestedArm));
            Orderly(m, AfterRequest(cfg, n, panda), n.want.generation)
  {
  }

  lemma RefusedInOrder(n: Node, m: Node, applied: nat)
    requires Orderly(n, Requesting, applied) && Disarmed(n, m) && !m.want.appliedArm
    ensures Orderly(m, Deciding, n.want.generation)
  {
  }

  lemma ListenInOrder(cfg: Config, w: World, switched: bool, read: bool)
    requires Invariant(cfg, w) && Enabled(w, Listen(switched, read))
    ensures InOrder(ListenStep(cfg, w, switched, read))
  {
    hide RequestInternalDisarm, S.RequestArm, Accounts, Disarmed, WindsUp;
    var p := Try(w.p, switched, Mode(NO_OUTPUT, cfg.safety.requiredSafetyParam)).p;
    AbortInOrder(cfg, w.(p := p));
  }

  /** The catch block around a request. */
  lemma AbortInOrder(cfg: Config, w: World)
    requires w.local.appliedGeneration <= w.p.node.want.generation
    requires w.p.node.want.operatorDisarmed ==> w.p.node.want.autoArmInhibited
    requires Failing(w.p.node.own.retry) ==> !w.p.node.own.vehicleMode
    ensures InOrder(AbortRequest(cfg, w))
  {
    hide RequestInternalDisarm, Release, S.RequestArm, Orderly, Disarmed, WindsUp;
    var q := Release(RequestInternalDisarm(w.p, true));
    DisarmMeans(w.p, true);
    DisarmInOrder(w.p.node, q.node, MidCheck, w.local.appliedGeneration);
    DisarmInOrder(w.p.node, q.node, Deciding, w.local.appliedGeneration);
  }

  /** A takeover succeeds only where it had succeeded before or nothing is pending. */
  lemma TakeoverNeedsSettled(cfg: Config, p: Progress, v: S.Vehicle, gapResume: bool, env: TakeoverEnv)
    requires EnterVehicleMode(cfg, p, v, gapResume, env).Done? && p.node.own.recoveryPending
    ensures p.node.own.vehicleMode
  {
    hide SilenceEcus, SwitchToVehicleMode;
  }

  /** What a takeover that ends with `done` leaves of them. */
  predicate Tried(n: Node, m: Node, done: bool) {
    && m.connected == n.connected && m.want == n.want.(buttonTakeover := m.want.buttonTakeover)
    && m.own.recoveryPending == n.own.recoveryPending && m.own.retry == n.own.retry
    && m.own.vehicleMode == done && (done && n.own.recoveryPending ==> n.own.vehicleMode)
  }

  lemma TakeOverTries(cfg: Config, w: World, resume: bool, env: TakeoverEnv)
    requires Invariant(cfg, w) && (w.local.phase == ArmTakeover || w.local.phase == TakingOver)
    ensures var r := EnterVehicleMode(cfg, w.p, w.local.inputs.vehicle, resume, env); Tried(w.p.node, r.p.node, r.Done?)
  {
    hide EnterVehicleMode, Read, Ledger, Ruled, Owns, Permits, Sound, Kept, Orderly, Winding;
    var r := EnterVehicleMode(cfg, w.p, w.local.inputs.vehicle, resume, env);
    MayTryTakeover(cfg, w);
    EnterVehicleModeKeeps(cfg, w.p, w.local.inputs.vehicle, resume, env);
    if r.Done? && w.p.node.own.recoveryPending {
      TakeoverNeedsSettled(cfg, w.p, w.local.inputs.vehicle, resume, env);
    }
  }

  lemma TriedInOrder(n: Node, m: Node, from: Phase, applied: nat)
    requires Orderly(n, from, applied) && Tried(n, m, true) && (from == ArmTakeover || from == TakingOver)
    ensures Orderly(m, Head, applied)
  {
  }

  lemma TriedInVain(n: Node, m: Node, done: bool, from: Phase, applied: nat)
    requires Orderly(n, from, applied) && Tried(n, m, done)
    ensures applied <= m.want.generation && (Failing(m.own.retry) ==> !m.own.vehicleMode)
    ensures m.want.operatorDisarmed ==> m.want.autoArmInhibited
  {
  }

  lemma TakeOverInOrder(cfg: Config, w: World, env: TakeoverEnv, healthRead: bool)
    requires Invariant(cfg, w) && Enabled(w, TakeOver(env, healthRead))
    ensures InOrder(TakeOverStep(cfg, w, env, healthRead))
  {
    hide EnterVehicleMode, RequestInternalDisarm, AbortRequest, Accounts, Orderly, Tried, Disarmed, WindsUp;
    var resume := w.local.phase != ArmTakeover && w.local.moving;
    var r := EnterVehicleMode(cfg, w.p, w.local.inputs.vehicle, resume, env);
    TakeOverTries(cfg, w, resume, env);
    TriedInVain(w.p.node, r.p.node, r.Done?, w.local.phase, w.local.appliedGeneration);
    if r.Done? { TriedInOrder(w.p.node, r.p.node, w.local.phase, w.local.appliedGeneration); }
    if w.local.phase == ArmTakeover {
      AbortInOrder(cfg, w.(p := r.p));
    } else {
      DisarmMeans(r.p, true);
      DisarmInOrder(r.p.node, RequestInternalDisarm(r.p, true).node, Head, w.local.appliedGeneration);
    }
  }

  /** Phases that only read the flags. */
  lemma PassedInOrder(n: Node, from: Phase, to: Phase, applied: nat)
    requires Orderly(n, from, applied) && !BeforeRequest(from) && !RestoresAtOnce(from) && !Retrying(to)
    requires RestoresAtOnce(to) ==> (to == GapRestore && n.own.vehicleMode) || (to == Cleaning && n.want.appliedArm)
    requires to == ArmTakeover || to == TakingOver ==> n.want.requestedArm
    requires from != ArmRestore && from != CleanRestore
    ensures Orderly(n, to, applied)
  {
  }

  lemma DroppedInOrder(n: Node, m: Node, from: Phase, to: Phase, applied: nat)
    requires Orderly(n, from, applied) && !BeforeRequest(from) && Disarmed(n, m)
    requires !Retrying(to) && !RestoresAtOnce(to)
    ensures Orderly(m, to, applied)
  {
  }

  lemma DecideInOrder(cfg: Config, w: World)
    requires Invariant(cfg, w) && Enabled(w, Decide)
    ensures InOrder(DecideStep(cfg, w))
  {
    hide S.Update, Accounts, Orderly, WindsUp;
    PassedInOrder(w.p.node, Deciding, DecideStep(cfg, w).local.phase, w.local.appliedGeneration);
  }

  lemma DropInOrder(cfg: Config, w: World, ok: bool)
    requires Invariant(cfg, w) && Enabled(w, Drop(ok))
    ensures InOrder(DropStep(w, ok))
  {
    hide RequestInternalDisarm, Accounts, WindsUp, Orderly, Disarmed;
    DisarmMeans(w.p, true);
    PassedInOrder(w.p.node, Dropping, Gap, w.local.appliedGeneration);
    DroppedInOrder(w.p.node, RequestInternalDisarm(w.p, true).node, Dropping, Head, w.local.appliedGeneration);
  }

  lemma GapBookkeeping(cfg: Config, p: Progress, note: Summary, qualified: bool)
    ensures SameOrder(p.node, NoteDecision(cfg, p, note).node)
    ensures SameOrder(p.node, MarkGap(NoteDecision(cfg, p, note), qualified).node)
  {
  }

  lemma GapInOrder(cfg: Config, w: World)
    requires Invariant(cfg, w) && Enabled(w, NoteGap)
    ensures InOrder(GapStep(cfg, w))
  {
    hide NoteDecision, MarkGap, NoteOf, Accounts, Orderly, WindsUp;
    var n, d, t := w.p.node, w.local.decision, GapStep(cfg, w);
    GapBookkeeping(cfg, w.p, NoteOf(cfg, w.local.inputs, d),
                   w.local.previous == S.Active && (d.lateralArmed || d.longitudinalArmed));
    PassedInOrder(n, Gap, t.local.phase, w.local.appliedGeneration);
    SameInOrder(n, t.p.node, t.local.phase, w.local.appliedGeneration);
  }

  lemma ChooseInOrder(cfg: Config, w: World)
    requires Invariant(cfg, w) && Enabled(w, Choose)
    ensures InOrder(ChooseStep(cfg, w))
  {
    hide MovingResume, Commanded, Accounts, Orderly, WindsUp;
    PassedInOrder(w.p.node, Choosing, ChooseStep(cfg, w).local.phase, w.local.appliedGeneration);
  }

  lemma CleanedInOrder(n: Node, m: Node, applied: nat)
    requires Orderly(n, Cleaning, applied) && Disarmed(n, m) && !m.want.appliedArm
    ensures Orderly(m, CleanRestore, m.want.generation)
  {
  }

  lemma CleanInOrder(cfg: Config, w: World)
    requires Invariant(cfg, w) && Enabled(w, CleanUp)
    ensures InOrder(CleanStep(cfg, w))
  {
    hide RequestInternalDisarm, S.CommandFresh, Accounts, Orderly, Disarmed, WindsUp;
    DisarmMeans(w.p, true);
    DisarmMeans(w.p, false);
    CleanedInOrder(w.p.node, CleanStep(cfg, w).p.node, w.local.appliedGeneration);
  }

  lemma AdaptInOrder(cfg: Config, w: World, ok: bool)
    requires Invariant(cfg, w) && Enabled(w, Adapt(ok))
    ensures InOrder(AdaptStep(w, ok))
  {
    hide RequestInternalDisarm, Accounts, WindsUp, Orderly, Disarmed;
    var q := RequestInternalDisarm(w.p, true);
    DisarmMeans(w.p, true);
    PassedInOrder(w.p.node, Output, Sending, w.local.appliedGeneration);
    DroppedInOrder(w.p.node, q.node, Output, Sending, w.local.appliedGeneration);
    SameInOrder(if ok then w.p.node else q.node, AdaptStep(w, ok).p.node, Sending, w.local.appliedGeneration);
  }

  lemma {:induction false} TransmitKeepsNode(p: Progress, addresses: seq<nat>)
    ensures Transmit(p, addresses).node == p.node
    decreases |addresses|
  {
    if addresses != [] {
      TransmitKeepsNode(Note(p, Sent(addresses[0], Control)), addresses[1..]);
    }
  }

  lemma SendingLeaves(cfg: Config, w: World, ok: bool)
    ensures var m := SendFrames(cfg, w, ok).node; m == w.p.node || Disarmed(w.p.node, m)
  {
    hide Transmit, MaySend, Frames, RequestInternalDisarm, Disarmed;
    var sent := Transmit(w.p, Frames(cfg, w.local.frameIndex));
    TransmitKeepsNode(w.p, Frames(cfg, w.local.frameIndex));
    DisarmMeans(sent, true);
    DisarmMeans(Note(w.p, TemplateLost), true);
  }

  lemma SendInOrder(cfg: Config, w: World, ok: bool)
    requires Invariant(cfg, w) && Enabled(w, Send(ok))
    ensures InOrder(SendStep(cfg, w, ok))
  {
    hide SendFrames, Accounts, WindsUp, Orderly, Disarmed;
    SendingLeaves(cfg, w, ok);
    PassedInOrder(w.p.node, Sending, Head, w.local.appliedGeneration);
    if Disarmed(w.p.node, SendFrames(cfg, w, ok).node) {
      DroppedInOrder(w.p.node, SendFrames(cfg, w, ok).node, Sending, Head, w.local.appliedGeneration);
    }
  }

  lemma RawTransmitKeepsNode(cfg: Config, p: Progress, address: nat, wellFormed: bool)
    ensures RawTransmit(cfg, p, address, wellFormed).node == p.node
  {
  }

  lemma LinkedInOrder(n: Node, phase: Phase, applied: nat, connected: bool)
    requires Orderly(n, phase, applied)
    ensures Orderly(n.(connected := connected, own := n.own.(vehicleMode := false)), phase, applied)
  {
  }

  /** A disarm from outside the control thread comes in any phase. */
  lemma DisarmedAnywhere(n: Node, m: Node, phase: Phase, applied: nat)
    requires Orderly(n, phase, applied) && Disarmed(n, m)
    ensures Orderly(m, phase, applied)
  {
  }

  lemma LinkInOrder(cfg: Config, w: World, connected: bool)
    requires Invariant(cfg, w)
    ensures InOrder(w.(p := if connected then Connect(w.p) else Disconnect(w.p)))
  {
    hide RequestInternalDisarm, Accounts, WindsUp, Orderly, Disarmed;
    var n, phase, applied, linked := w.p.node, w.local.phase, w.local.appliedGeneration, Link(w.p, connected);
    var q := RequestInternalDisarm(linked, true);
    LinkedInOrder(n, phase, applied, connected);
    DisarmMeans(linked, true);
    DisarmedAnywhere(linked.node, q.node, phase, applied);
    DisarmedAnywhere(linked.node, Release(q).node, phase, applied);
  }

  lemma ThreadInOrder(cfg: Config, w: World, step: Step)
    requires Invariant(cfg, w)
    requires step.LinkUp? || step.LinkError? || step.LinkLost? || step.RawTx? || step.SetArmed?
    ensures InOrder(Next(cfg, w, step))
  {
    hide Connect, Disconnect, RawTransmit, Accounts, WindsUp;
    match step
    case LinkUp => LinkInOrder(cfg, w, true);
    case LinkError => LinkInOrder(cfg, w, false);
    case RawTx(address, wellFormed) => RawTransmitKeepsNode(cfg, w.p, address, wellFormed);
    case _ =>
  }

  lemma NextInOrder(cfg: Config, w: World, step: Step)
    requires Invariant(cfg, w) && Enabled(w, step)
    ensures InOrder(Next(cfg, w, step))
  {
    hide CheckStep, RestoreStep, SampleStep, RequestStep, ListenStep, TakeOverStep, DecideStep, DropStep, GapStep,
         ChooseStep, CleanStep, AdaptStep, SendStep, Accounts, InOrder, WindsUp, Enabled;
    match step
    case Check(now) => CheckInOrder(cfg, w, now);
    case Restore(env) => RestoreInOrder(cfg, w, env);
    case Sample(inputs, preflight) => SampleInOrder(cfg, w, inputs, preflight);
    case Request => RequestInOrder(cfg, w);
    case Listen(switched, read) => ListenInOrder(cfg, w, switched, read);
    case TakeOver(env, healthRead) => TakeOverInOrder(cfg, w, env, healthRead);
    case Decide => DecideInOrder(cfg, w);
    case Drop(ok) => DropInOrder(cfg, w, ok);
    case NoteGap => GapInOrder(cfg, w);
    case Choose => ChooseInOrder(cfg, w);
    case CleanUp => CleanInOrder(cfg, w);
    case Adapt(ok) => AdaptInOrder(cfg, w, ok);
    case Send(ok) => SendInOrder(cfg, w, ok);
    case LinkUp => ThreadInOrder(cfg, w, step);
    case LinkError => ThreadInOrder(cfg, w, step);
    case LinkLost => ThreadInOrder(cfg, w, step);
    case RawTx(_, _) => ThreadInOrder(cfg, w, step);
    case SetArmed(_) => ThreadInOrder(cfg, w, step);
  }

  // ----- Each step winds a session up -----

  /** Nothing that the winding up is about has come back, and the phase has not left the way to the request. */
  lemma StillWinds(n: Node, m: Node, iterations: nat, from: Phase, to: Phase)
    requires Winding(n, iterations, from) && m.want.operatorDisarmed == n.want.operatorDisarmed
    requires m.own.vehicleMode && m.connected ==> n.own.vehicleMode && n.connected
    requires (BeforeRequest(from) || from == ArmRestore) &&
             n.want.operatorDisarmed && m.own.vehicleMode && m.connected ==>
               BeforeRequest(to) || to == ArmRestore
    requires (to == ArmTakeover || to == TakingOver) && n.want.operatorDisarmed ==> from == to
    ensures Winding(m, iterations, to)
  {
  }

  /** Out of vehicle mode, or without a link, there is nothing to wind up. */
  lemma WoundUp(m: Node, iterations: nat, to: Phase)
    requires !m.own.vehicleMode || !m.connected || !m.want.operatorDisarmed
    requires to != ArmTakeover && to != TakingOver
    ensures Winding(m, iterations, to)
  {
  }

  lemma CheckWinds(cfg: Config, w: World, now: int)
    requires Invariant(cfg, w) && Enabled(w, Check(now))
    ensures WindsUp(CheckStep(w, now))
  {
    hide Accounts, Orderly, Winding, Read;
    var t := CheckStep(w, now);
    CheckKeeps(cfg, w, now);
    if t.local.phase == ControlLoop.Retry {
      WoundUp(t.p.node, Read(t.p.log).loop.iterations, t.local.phase);
    } else {
      StillWinds(w.p.node, t.p.node, Read(w.p.log).loop.iterations, w.local.phase, t.local.phase);
    }
  }

  lemma RestoreEndsSection(cfg: Config, w: World, env: NoOutputEnv)
    requires Invariant(cfg, w) && Enabled(w, Restore(env))
    ensures var t := RestoreStep(cfg, w, env);
            && (!t.p.node.own.vehicleMode || !t.p.node.connected)
            && t.local.phase != ArmTakeover && t.local.phase != TakingOver
  {
    hide EnterNoOutput, RequestInternalDisarm, Release, S.RequestArm, Accounts, InOrder, WindsUp, Disarmed;
    RestoreLeaves(cfg, w, env);
    DisarmMeans(EnterNoOutput(cfg, w.p, env).p, true);
    DisarmOwn(EnterNoOutput(cfg, w.p, env).p, true);
  }

  lemma DisarmOwn(p: Progress, requireRearm: bool)
    ensures var q := RequestInternalDisarm(p, requireRearm);
            && q.node.own == p.node.own.(recoveryPending := true) && q.node.connected == p.node.connected
            && Release(q).node.own == q.node.own && Release(q).node.connected == p.node.connected
  {
  }

  lemma RestoreWinds(cfg: Config, w: World, env: NoOutputEnv)
    requires Invariant(cfg, w) && Enabled(w, Restore(env))
    ensures WindsUp(RestoreStep(cfg, w, env))
  {
    hide RestoreStep, Invariant, Winding, Read;
    var t := RestoreStep(cfg, w, env);
    RestoreEndsSection(cfg, w, env);
    WoundUp(t.p.node, Read(t.p.log).loop.iterations, t.local.phase);
  }

  /** None of these flags differs, nor does the off. */
  predicate SameOff(n: Node, m: Node) {
    && m.want.operatorDisarmed == n.want.operatorDisarmed
    && m.own.vehicleMode == n.own.vehicleMode && m.connected == n.connected
  }

  lemma SampleWinds(cfg: Config, w: World, i: S.Inputs, preflight: bool)
    requires Invariant(cfg, w) && Enabled(w, Sample(i, preflight))
    ensures WindsUp(SampleStep(cfg, w, i, preflight))
  {
    hide Accounts, InOrder, Winding, Read, PressSeen, AutoArmReady;
    var t := SampleStep(cfg, w, i, preflight);
    SampleKeeps(cfg, w, i, preflight);
    assert SameOff(w.p.node, t.p.node);
    StillWinds(w.p.node, t.p.node, Read(w.p.log).loop.iterations, Sampling, Requesting);
  }

  lemma RequestLeads(cfg: Config, w: World)
    requires Invariant(cfg, w) && Enabled(w, Request)
    ensures var t := RequestStep(cfg, w);
            && SameOff(w.p.node, t.p.node)
            && (w.p.node.want.operatorDisarmed && t.p.node.own.vehicleMode && t.p.node.connected ==>
                  t.local.phase == ArmRestore)
            && (t.local.phase == ArmTakeover ==> !w.p.node.want.operatorDisarmed) && t.local.phase != TakingOver
  {
    hide Accounts, WindsUp, Kept, S.RequestArm, RequestInternalDisarm, Release;
    DisarmOff(w.p, true);
    DisarmOwn(w.p, true);
  }

  lemma RequestWinds(cfg: Config, w: World)
    requires Invariant(cfg, w) && Enabled(w, Request)
    ensures WindsUp(RequestStep(cfg, w))
  {
    hide RequestStep, Accounts, InOrder, Winding, Read;
    var t := RequestStep(cfg, w);
    RequestKeeps(cfg, w);
    RequestLeads(cfg, w);
    StillWinds(w.p.node, t.p.node, Read(w.p.log).loop.iterations, Requesting, t.local.phase);
  }

  lemma ListenLeads(cfg: Config, w: World, switched: bool, read: bool)
    ensures var t := ListenStep(cfg, w, switched, read);
            SameOff(w.p.node, t.p.node) && t.local.phase != ArmTakeover && t.local.phase != TakingOver
  {
    hide S.RequestArm;
  }

  lemma ListenWinds(cfg: Config, w: World, switched: bool, read: bool)
    requires Invariant(cfg, w) && Enabled(w, Listen(switched, read))
    ensures WindsUp(ListenStep(cfg, w, switched, read))
  {
    hide ListenStep, Accounts, InOrder, Winding, Read;
    var t := ListenStep(cfg, w, switched, read);
    ListenKeeps(cfg, w, switched, read);
    ListenLeads(cfg, w, switched, read);
    StillWinds(w.p.node, t.p.node, Read(w.p.log).loop.iterations, Listening, t.local.phase);
  }

  lemma TakeOverLeads(cfg: Config, w: World, env: TakeoverEnv, healthRead: bool)
    requires Invariant(cfg, w) && Enabled(w, TakeOver(env, healthRead))
    ensures var t := TakeOverStep(cfg, w, env, healthRead);
            && t.p.node.want.operatorDisarmed == w.p.node.want.operatorDisarmed
            && t.local.phase != ArmTakeover && t.local.phase != TakingOver
  {
    hide EnterVehicleMode, RequestInternalDisarm, Release, S.RequestArm, Accounts, InOrder, WindsUp, Disarmed;
    var resume := w.local.phase != ArmTakeover && w.local.moving;
    TakeOverTries(cfg, w, resume, env);
    DisarmOff(EnterVehicleMode(cfg, w.p, w.local.inputs.vehicle, resume, env).p, true);
  }

  lemma DisarmOff(p: Progress, requireRearm: bool)
    ensures var q := RequestInternalDisarm(p, requireRearm);
            q.node.want.operatorDisarmed == Release(q).node.want.operatorDisarmed == p.node.want.operatorDisarmed
  {
  }

  lemma TakeOverWinds(cfg: Config, w: World, env: TakeoverEnv, healthRead: bool)
    requires Invariant(cfg, w) && Enabled(w, TakeOver(env, healthRead))
    ensures WindsUp(TakeOverStep(cfg, w, env, healthRead))
  {
    hide TakeOverStep, Accounts, InOrder, Read;
    TakeOverKeeps(cfg, w, env, healthRead);
    TakeOverLeads(cfg, w, env, healthRead);
  }

  /** The steps from the decision to the output go on from phases in which nothing is left to wind up. */
  lemma PassWinds(cfg: Config, w: World, t: World)
    requires Invariant(cfg, w) && SameOff(w.p.node, t.p.node) && SameCount(w, t)
    requires !BeforeRequest(w.local.phase) && w.local.phase != ArmRestore
    requires t.local.phase != ArmTakeover && (t.local.phase == TakingOver ==> w.p.node.want.requestedArm)
    ensures WindsUp(t)
  {
    hide Accounts, Read;
  }

  lemma ControlWinds(cfg: Config, w: World, step: Step)
    requires Invariant(cfg, w) && Enabled(w, step)
    requires step.Decide? || step.Drop? || step.NoteGap? || step.Choose? || step.CleanUp? || step.Adapt?
    ensures WindsUp(Next(cfg, w, step))
  {
    hide DecideStep, DropStep, GapStep, ChooseStep, CleanStep, AdaptStep, Accounts, InOrder, WindsUp, Read;
    match step
    case Decide => DecideKeeps(cfg, w); LoopLeads(cfg, w, step); PassWinds(cfg, w, Next(cfg, w, step));
    case Drop(ok) => DropKeeps(cfg, w, ok); DropsLead(cfg, w, step); PassWinds(cfg, w, Next(cfg, w, step));
    case NoteGap => GapKeeps(cfg, w); GapLeads(cfg, w); PassWinds(cfg, w, Next(cfg, w, step));
    case Choose => ChooseKeeps(cfg, w); LoopLeads(cfg, w, step); PassWinds(cfg, w, Next(cfg, w, step));
    case CleanUp => CleanKeeps(cfg, w); DropsLead(cfg, w, step); PassWinds(cfg, w, Next(cfg, w, step));
    case Adapt(ok) => AdaptKeeps(cfg, w, ok); DropsLead(cfg, w, step); PassWinds(cfg, w, Next(cfg, w, step));
  }

  /** Where these steps lead, and what they leave. */
  predicate Leads(w: World, t: World) {
    && SameOff(w.p.node, t.p.node)
    && t.local.phase != ArmTakeover && (t.local.phase == TakingOver ==> w.p.node.want.requestedArm)
  }

  lemma LoopLeads(cfg: Config, w: World, step: Step)
    requires step.Decide? || step.Choose?
    ensures Leads(w, Next(cfg, w, step))
  {
    hide S.Update, Commanded, MovingResume;
  }

  lemma GapLeads(cfg: Config, w: World)
    ensures Leads(w, GapStep(cfg, w))
  {
    hide NoteOf;
  }

  lemma DropsLead(cfg: Config, w: World, step: Step)
    requires step.Drop? || step.CleanUp? || step.Adapt?
    ensures Leads(w, Next(cfg, w, step))
  {
    hide S.CommandFresh, RequestInternalDisarm, Release;
    DisarmOff(w.p, true);
    DisarmOff(w.p, false);
    DisarmOwn(w.p, true);
    DisarmOwn(w.p, false);
  }

  lemma SendLeads(cfg: Config, w: World, ok: bool)
    ensures SameOff(w.p.node, SendStep(cfg, w, ok).p.node)
  {
    hide Transmit, MaySend, Frames;
    TransmitKeepsNode(w.p, Frames(cfg, w.local.frameIndex));
  }

  lemma SendWinds(cfg: Config, w: World, ok: bool)
    requires Invariant(cfg, w) && Enabled(w, Send(ok))
    ensures WindsUp(SendStep(cfg, w, ok))
  {
    hide SendFrames, Accounts, InOrder, Read;
    SendKeeps(cfg, w, ok);
    SendLeads(cfg, w, ok);
  }

  lemma ThreadLeads(cfg: Config, w: World, step: Step)
    requires step.LinkUp? || step.LinkError? || step.LinkLost? || step.RawTx? || step.SetArmed?
    ensures var t := Next(cfg, w, step);
            && t.local == w.local
            && (t.p.node.own.vehicleMode && t.p.node.connected ==> w.p.node.own.vehicleMode && w.p.node.connected)
            && (!step.SetArmed? ==> t.p.node.want.operatorDisarmed == w.p.node.want.operatorDisarmed)
            && (step.SetArmed? ==>
                  t.p == w.p || t.p.node.want.operatorDisarmed == !step.arm)
  {
  }

  lemma ThreadWinds(cfg: Config, w: World, step: Step)
    requires Invariant(cfg, w)
    requires step.LinkUp? || step.LinkError? || step.LinkLost? || step.RawTx? || step.SetArmed?
    ensures WindsUp(Next(cfg, w, step))
  {
    hide Next, Accounts, InOrder, Read;
    ThreadKeeps(cfg, w, step);
    ThreadLeads(cfg, w, step);
  }

  lemma NextWinds(cfg: Config, w: World, step: Step)
    requires Invariant(cfg, w) && Enabled(w, step)
    ensures WindsUp(Next(cfg, w, step))
  {
    hide CheckStep, RestoreStep, SampleStep, RequestStep, ListenStep, TakeOverStep, DecideStep, DropStep, GapStep,
         ChooseStep, CleanStep, AdaptStep, SendStep, Accounts, InOrder, WindsUp, Enabled;
    match step
    case Check(now) => CheckWinds(cfg, w, now);
    case Restore(env) => RestoreWinds(cfg, w, env);
    case Sample(inputs, preflight) => SampleWinds(cfg, w, inputs, preflight);
    case Request => RequestWinds(cfg, w);
    case Listen(switched, read) => ListenWinds(cfg, w, switched, read);
    case TakeOver(env, healthRead) => TakeOverWinds(cfg, w, env, healthRead);
    case Decide => ControlWinds(cfg, w, step);
    case Drop(_) => ControlWinds(cfg, w, step);
    case NoteGap => ControlWinds(cfg, w, step);
    case Choose => ControlWinds(cfg, w, step);
    case CleanUp => ControlWinds(cfg, w, step);
    case Adapt(_) => ControlWinds(cfg, w, step);
    case Send(ok) => SendWinds(cfg, w, ok);
    case LinkUp => ThreadWinds(cfg, w, step);
    case LinkError => ThreadWinds(cfg, w, step);
    case LinkLost => ThreadWinds(cfg, w, step);
    case RawTx(_, _) => ThreadWinds(cfg, w, step);
    case SetArmed(_) => ThreadWinds(cfg, w, step);
  }

  // ----- Runs -----

  /** Every step of every thread keeps the invariant. */
  lemma NextKeeps(cfg: Config, w: World, step: Step)
    requires Invariant(cfg, w) && Enabled(w, step)
    ensures Invariant(cfg, Next(cfg, w, step))
  {
    hide Next, Enabled, Accounts, InOrder, WindsUp;
    NextAccounts(cfg, w, step);
    NextInOrder(cfg, w, step);
    NextWinds(cfg, w, step);
  }

  lemma {:induction false} AlwaysInvariant(cfg: Config, steps: seq<Step>)
    ensures Invariant(cfg, Run(cfg, Initial(cfg), steps))
    decreases |steps|
  {
    hide Next, Enabled, Invariant;
    if steps == [] {
      StartsSound(cfg);
    } else {
      var before, last := Run(cfg, Initial(cfg), steps[..|steps| - 1]), steps[|steps| - 1];
      AlwaysInvariant(cfg, steps[..|steps| - 1]);
      if Enabled(before, last) { NextKeeps(cfg, before, last); }
    }
  }

  lemma StartsSound(cfg: Config)
    ensures Invariant(cfg, Initial(cfg))
  {
    Append([], Started(RulesOf(cfg)));
    assert [] + [Started(RulesOf(cfg))] == Beginning(cfg).log;
  }

  /** What some run of some length, with some answers from the outside, leads to. */
  ghost predicate Reachable(cfg: Config, w: World) {
    exists steps :: w == Run(cfg, Initial(cfg), steps)
  }

  lemma ReachableKeeps(cfg: Config, w: World)
    requires Reachable(cfg, w)
    ensures Invariant(cfg, w)
  {
    hide Run, Invariant;
    var steps :| w == Run(cfg, Initial(cfg), steps);
    AlwaysInvariant(cfg, steps);
  }

  // ----- The log only grows -----

  lemma PassGrows(e: Effort, ecu: Ecu, env: RestoreEnv, beat: bool, frames: nat)
    ensures e.p.log <= RestoreAndBeat(e, ecu, env, beat).p.log
    ensures e.p.log <= Confirm(e, ecu, frames).p.log
  {
  }

  lemma RestoreEcusGrows(e: Effort, env: NoOutputEnv)
    ensures e.p.log <= RestoreEcus(e, env).p.log
  {
    hide RestoreAndBeat, Confirm;
    var e1 := RestoreAndBeat(e, Radar, env.radar, env.radarHeartbeat);
    var e2 := RestoreAndBeat(e1, Camera, env.camera, env.cameraHeartbeat);
    PassGrows(e, Radar, env.radar, env.radarHeartbeat, 0);
    PassGrows(e1, Camera, env.camera, env.cameraHeartbeat, 0);
    PassGrows(e2, Radar, env.radar, true, env.radarFrames);
    PassGrows(Confirm(e2, Radar, env.radarFrames), Camera, env.camera, true, env.cameraFrames);
  }

  lemma ConfirmNoOutputGrows(cfg: Config, p: Progress, env: NoOutputEnv)
    ensures p.log <= ConfirmNoOutput(cfg, p, env).p.log
  {
  }

  lemma RestoreFlaggedGrows(cfg: Config, e: Effort, preserve: bool, env: NoOutputEnv)
    ensures e.p.log <= RestoreFlagged(cfg, e, preserve, env).p.log
  {
    hide RestoreEcus;
    var mode := Mode(ELM327, if preserve then cfg.safety.requiredSafetyParam else ELM327_ECAN_PARAM);
    RestoreEcusGrows(Continue(Try(e.p, env.elm, mode), e.errors), env);
  }

  lemma EnterNoOutputGrows(cfg: Config, p: Progress, env: NoOutputEnv)
    ensures p.log < EnterNoOutput(cfg, p, env).p.log
  {
    hide RestoreFlagged, ConfirmNoOutput;
    var beat := Continue(Try(BeginRecovery(p, env.now), env.heartbeat, Heartbeat), false);
    RestoreFlaggedGrows(cfg, beat, p.node.want.preserveSession, env);
    ConfirmNoOutputGrows(cfg, RestoreFlagged(cfg, beat, p.node.want.preserveSession, env).p, env);
  }

  lemma DisableGrows(p: Progress, ecu: Ecu, v: S.Vehicle, env: DisableEnv, beat: bool)
    ensures p.log <= DisableAndBeat(p, ecu, v, env, beat).p.log
  {
  }

  lemma SilenceEcusGrows(cfg: Config, p: Progress, v: S.Vehicle, env: TakeoverEnv)
    ensures p.log <= SilenceEcus(cfg, p, v, env).p.log
  {
    hide DisableAndBeat;
    var mode := Mode(ELM327, if cfg.safety.resumeOnCommandReturn then cfg.safety.requiredSafetyParam
                             else ELM327_ECAN_PARAM);
    var elm := Note(Note(p, Heartbeat), mode);
    DisableGrows(elm, Camera, v, env.camera, env.cameraHeartbeat);
    DisableGrows(DisableAndBeat(elm, Camera, v, env.camera, env.cameraHeartbeat).p, Radar, v, env.radar,
                 env.radarHeartbeat);
  }

  lemma SwitchGrows(cfg: Config, p: Progress, env: TakeoverEnv)
    ensures p.log <= SwitchToVehicleMode(cfg, p, env).p.log
  {
  }

  lemma EnterVehicleModeGrows(cfg: Config, p: Progress, v: S.Vehicle, gapResume: bool, env: TakeoverEnv)
    ensures p.log <= EnterVehicleMode(cfg, p, v, gapResume, env).p.log
  {
    hide SilenceEcus, SwitchToVehicleMode, Moving;
    SilenceEcusGrows(cfg, p, v, env);
    SwitchGrows(cfg, SilenceEcus(cfg, p, v, env).p, env);
  }

  lemma {:induction false} TransmitGrows(p: Progress, addresses: seq<nat>)
    ensures p.log <= Transmit(p, addresses).log
    decreases |addresses|
  {
    if addresses != [] {
      TransmitGrows(Note(p, Sent(addresses[0], Control)), addresses[1..]);
    }
  }

  lemma RestoreGrows(cfg: Config, w: World, env: NoOutputEnv)
    ensures w.p.log <= RestoreStep(cfg, w, env).p.log
  {
    hide EnterNoOutput, S.RequestArm;
    EnterNoOutputGrows(cfg, w.p, env);
  }

  lemma TakeOverGrows(cfg: Config, w: World, env: TakeoverEnv, healthRead: bool)
    ensures w.p.log <= TakeOverStep(cfg, w, env, healthRead).p.log
  {
    hide EnterVehicleMode, S.RequestArm;
    var v := w.local.inputs.vehicle;
    EnterVehicleModeGrows(cfg, w.p, v, false, env);
    EnterVehicleModeGrows(cfg, w.p, v, w.local.moving, env);
  }

  lemma SendGrows(cfg: Config, w: World, ok: bool)
    ensures w.p.log <= SendStep(cfg, w, ok).p.log
  {
    hide Transmit, MaySend, Frames;
    TransmitGrows(w.p, Frames(cfg, w.local.frameIndex));
  }

  lemma RequestGrows(cfg: Config, w: World)
    ensures w.p.log <= RequestStep(cfg, w).p.log
  {
    hide S.RequestArm, AfterRequest;
  }

  lemma SampleGrows(cfg: Config, w: World, i: S.Inputs, preflight: bool)
    ensures w.p.log <= SampleStep(cfg, w, i, preflight).p.log
  {
    hide AutoArmReady, PressSeen;
  }

  lemma NextGrows(cfg: Config, w: World, step: Step)
    ensures w.p.log <= Next(cfg, w, step).p.log
  {
    hide RestoreStep, SampleStep, TakeOverStep, SendStep, RequestStep, S.Update, S.RequestArm, TakeoverReady,
         MovingResume, RetryWanted;
    match step
    case Restore(env) => RestoreGrows(cfg, w, env);
    case Sample(inputs, preflight) => SampleGrows(cfg, w, inputs, preflight);
    case Request => RequestGrows(cfg, w);
    case TakeOver(env, healthRead) => TakeOverGrows(cfg, w, env, healthRead);
    case Send(ok) => SendGrows(cfg, w, ok);
    case _ =>
  }

  lemma {:induction false} RunGrows(cfg: Config, w: World, steps: seq<Step>)
    ensures w.p.log <= Run(cfg, w, steps).p.log
    decreases |steps|
  {
    hide Next, Enabled;
    if steps != [] {
      RunGrows(cfg, w, steps[..|steps| - 1]);
      NextGrows(cfg, Run(cfg, w, steps[..|steps| - 1]), steps[|steps| - 1]);
    }
  }

  /** Every log begins with the configuration it is judged by. */
  lemma FirstIsStart(cfg: Config, w: World)
    requires Reachable(cfg, w)
    ensures w.p.log != [] && w.p.log[0] == Started(RulesOf(cfg))
  {
    hide Run;
    var steps :| w == Run(cfg, Initial(cfg), steps);
    RunGrows(cfg, Initial(cfg), steps);
  }
}
