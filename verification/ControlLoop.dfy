/** The threads of src/node.cpp as one state machine.

    The control thread advances through the phases of one loop iteration; between any two of its steps
    the receive thread, the raw-transmit callback and the arm service may act. One step is one
    `actuation_mutex_` section together with the internal disarm that follows it, or one block that reads
    and writes the shared flags without the mutex. What Panda, the ECUs, the clock and the samples answer
    is part of the step's label, so a run over arbitrary labels covers every behaviour of the outside. */
module ControlLoop {
  import opened EcuLedger
  import opened EcuSections
  import S = Supervisor

  datatype Phase =
    | Head                 // retry_no_output_recovery, guarded section
    | Retry                // its restoration
    | Sampling             // samples, button block, automatic arming
    | Requesting           // apply a new arm request generation
    | Listening            // install the NO_OUTPUT listener
    | ArmTakeover          // takeover right after an arm request, without resume mode
    | ArmRestore           // restoration right after a disarm request
    | MidCheck             // retry_no_output_recovery inside the iteration, guarded section
    | MidRetry             // its restoration
    | Deciding             // supervisor update
    | Dropping             // take Panda's longitudinal permission away
    | Gap                  // command-gap bookkeeping
    | GapRestore           // restoration of a command gap
    | Choosing             // takeover conditions
    | TakingOver           // the verified takeover
    | Cleaning             // internal disarm after the supervisor disarmed itself
    | CleanRestore         // its restoration
    | Output               // command adapter, published decision
    | Sending              // control frames

  /** The control thread's own variables. */
  datatype Local = Local(
    phase: Phase,
    appliedGeneration: nat,
    previous: S.ControlState,
    frameIndex: nat,
    laneKeepEvents: nat,
    setEvents: nat,
    inputs: S.Inputs,
    decision: S.Decision,
    moving: bool)

  datatype World = World(p: Progress, sup: S.State, local: Local)

  datatype Step =
    // control thread
    | Check(now: int)                                        // Head, MidCheck
    | Restore(noOutput: NoOutputEnv)                         // Retry, MidRetry, ArmRestore, GapRestore, CleanRestore
    | Sample(inputs: S.Inputs, preflight: bool)              // Sampling
    | Request                                                // Requesting
    | Listen(switched: bool, read: bool)                     // Listening
    | TakeOver(env: TakeoverEnv, healthRead: bool)           // ArmTakeover, TakingOver
    | Decide                                                 // Deciding
    | Drop(ok: bool)                                         // Dropping
    | NoteGap                                                // Gap
    | Choose                                                 // Choosing
    | CleanUp                                                // Cleaning
    | Adapt(ok: bool)                                        // Output
    | Send(ok: bool)                                         // Sending
    // other threads
    | LinkUp
    | LinkError
    | LinkLost
    | RawTx(address: nat, wellFormed: bool)
    | SetArmed(arm: bool)

  const NO_DECISION := S.Decision(S.Disconnected, false, false, false, false, false, false, 0, false)

  const NO_INPUTS := S.Inputs(0,
    S.Vehicle(0.0, 0.0, false, false, false, false, true, 0, 0, 0, 0, false),
    S.Panda(false, false, false, false, false, false, false, false, false, false, false, 0, 0, 0, 0, 0, 0, 0, 0, 0),
    S.Command(false, false, 0))

  function Initial(cfg: Config): World {
    World(Beginning(cfg), S.INITIAL, Local(Head, 0, S.Disconnected, 0, 0, 0, NO_INPUTS, NO_DECISION, false))
  }

  function Goto(w: World, phase: Phase): World {
    w.(local := w.local.(phase := phase))
  }

  // ----- The steps of the control thread -----

  function CheckStep(w: World, now: int): World {
    var (q, due) := CheckRetry(w.p, now);
    var next := if w.local.phase == Head then (if due then Retry else Sampling)
                else if due then MidRetry else Deciding;
    Goto(w.(p := q), next)
  }

  /** A restoration failure is only logged after a retry and after a cleanup; a gap and a disarm request
      answer it with an internal disarm, the latter also withdrawing the arm request. */
  function RestoreStep(cfg: Config, w: World, env: NoOutputEnv): World {
    var phase := w.local.phase;
    var skip := phase == CleanRestore && !w.p.node.connected;
    var r := if skip then Done(w.p) else EnterNoOutput(cfg, w.p, env);
    match phase
    case Retry => Goto(w.(p := r.p), Sampling)
    case MidRetry => Goto(w.(p := r.p), Deciding)
    case ArmRestore => if r.Done? then Goto(w.(p := r.p), Deciding) else AbortRequest(cfg, w.(p := r.p))
    case GapRestore => Record(w.(p := if r.Done? then r.p else RequestInternalDisarm(r.p, true)), Head)
    case _ => Record(w.(p := r.p), Head)
  }

  /** `latest_decision_` takes these permissions. */
  function Publish(p: Progress, lateral: bool, longitudinal: bool): Progress {
    Note(p.(node := p.node.(permitsLateral := lateral, permitsLongitudinal := longitudinal)),
         Published(lateral, longitudinal))
  }

  /** `latest_decision_` and `previous_state` take this iteration's decision. */
  function Record(w: World, phase: Phase): World {
    var d := w.local.decision;
    Goto(w.(p := Note(Publish(w.p, d.lateralAllowed, d.longitudinalAllowed), Recorded(d.control)),
            local := w.local.(previous := d.control)), phase)
  }

  /** The catch block around the request: internal disarm, disarmed supervisor, one more retry. */
  function AbortRequest(cfg: Config, w: World): World {
    var q := Release(RequestInternalDisarm(w.p, true));
    Goto(World(q, S.RequestArm(cfg.safety, w.sup, false), w.local), if q.node.connected then MidCheck else Deciding)
  }

  predicate ListenerReady(cfg: Config, p: S.Panda) {
    && cfg.safety.resumeOnCommandReturn && p.ignitionOn
    && p.safetyMode == NO_OUTPUT && p.safetyParam == cfg.safety.requiredSafetyParam
    && p.sessionActive && p.sessionReady && !p.sessionBlocked
  }

  predicate PressSeen(l: Local, v: S.Vehicle) {
    v.laneKeepEvents > l.laneKeepEvents || v.setEvents > l.setEvents
  }

  /** A physical press re-engages a node that a fault inhibited; an operator's OFF is not overridden. */
  function PressBlock(cfg: Config, l: Local, p: Progress, v: S.Vehicle): Progress {
    var want := p.node.want;
    if PressSeen(l, v) && cfg.safety.resumeOnCommandReturn && !want.operatorDisarmed && !want.requestedArm &&
       (want.autoArmInhibited || want.rearmRequired) then
      Note(WithWant(p, want.(autoArmInhibited := false, rearmRequired := false, buttonTakeover := true)), EngagePress)
    else p
  }

  predicate AutoArmReady(cfg: Config, n: Node, i: S.Inputs, preflight: bool) {
    && cfg.autoArmOnCommand && !n.want.autoArmInhibited && !n.own.recoveryPending && cfg.safety.allowActuation
    && i.vehicle.valid && !i.vehicle.epsFault && i.panda.connected
    && (ListenerReady(cfg, i.panda) ||
        (S.CommandFresh(cfg.safety, i.now, i.command) && i.command.valid && i.command.enable && preflight &&
         !cfg.safety.resumeOnCommandReturn))
  }

  /** `preflight` stands for standstill, gear and a recent template in longitudinal mode. */
  function SampleStep(cfg: Config, w: World, i: S.Inputs, preflight: bool): World {
    var q := PressBlock(cfg, w.local, w.p, i.vehicle);
    var want := q.node.want;
    var armed :=
      if AutoArmReady(cfg, q.node, i, preflight) && !want.requestedArm then
        Note(WithWant(q, want.(requestedArm := true, generation := want.generation + 1)), AutoArmed)
      else q;
    World(armed, w.sup, w.local.(phase := Requesting, inputs := i,
                                 laneKeepEvents := i.vehicle.laneKeepEvents, setEvents := i.vehicle.setEvents))
  }

  function RequestStep(cfg: Config, w: World): World {
    var n := w.p.node;
    var requested := n.want.requestedArm;
    if n.want.generation == w.local.appliedGeneration || (requested && !n.connected) then Goto(w, Deciding)
    else
      var t := w.(sup := S.RequestArm(cfg.safety, w.sup, requested),
                  local := w.local.(appliedGeneration := n.want.generation));
      if !S.ArmAccepted(cfg.safety, requested) then
        Goto(t.(p := Release(RequestInternalDisarm(t.p, true))), Deciding)
      else
        Goto(t.(p := Note(WithWant(t.p, n.want.(appliedArm := requested)), Applied(requested))),
             AfterRequest(cfg, n, w.local.inputs.panda))
  }

  function AfterRequest(cfg: Config, n: Node, panda: S.Panda): Phase {
    if n.want.requestedArm then
      if cfg.safety.resumeOnCommandReturn then (if panda.sessionActive then Deciding else Listening)
      else if n.connected then ArmTakeover else Deciding
    else if !n.connected then Deciding
    else if n.own.recoveryPending && !n.own.vehicleMode then MidCheck
    else ArmRestore
  }

  /** The mode switch, then the health read; either may throw. */
  function ListenStep(cfg: Config, w: World, switched: bool, read: bool): World {
    var r := Try(w.p, switched, Mode(NO_OUTPUT, cfg.safety.requiredSafetyParam));
    if r.Done? && read then Goto(w.(p := r.p), Head) else AbortRequest(cfg, w.(p := r.p))
  }

  /** After an arm request without resume mode, or the verified takeover that may resume while moving;
      the latter also rereads health. Both are followed by a new iteration. */
  function TakeOverStep(cfg: Config, w: World, env: TakeoverEnv, healthRead: bool): World {
    var v := w.local.inputs.vehicle;
    if w.local.phase == ArmTakeover then
      var r := EnterVehicleMode(cfg, w.p, v, false, env);
      if r.Done? then Goto(w.(p := r.p), Head) else AbortRequest(cfg, w.(p := r.p))
    else
      var r := EnterVehicleMode(cfg, w.p, v, w.local.moving, env);
      Goto(w.(p := if r.Done? && healthRead then r.p else RequestInternalDisarm(r.p, true)), Head)
  }

  function DecideStep(cfg: Config, w: World): World {
    var r := S.Update(cfg.safety, w.sup, w.local.inputs);
    var drop := cfg.safety.resumeOnCommandReturn && !r.decision.longitudinalArmed &&
                w.local.inputs.panda.longitudinalSelected;
    World(w.p, r.state, w.local.(decision := r.decision, phase := if drop then Dropping else Gap))
  }

  function DropStep(w: World, ok: bool): World {
    if ok then Goto(w, Gap) else Goto(w.(p := RequestInternalDisarm(w.p, true)), Head)
  }

  /** The command sample is fresh, valid and enabled. */
  predicate Commanded(cfg: Config, i: S.Inputs) {
    S.CommandFresh(cfg.safety, i.now, i.command) && i.command.valid && i.command.enable
  }

  function NoteOf(cfg: Config, i: S.Inputs, d: S.Decision): Summary {
    Summary(d.control, d.lateralArmed, d.longitudinalArmed, d.waiting, Commanded(cfg, i))
  }

  /** In resume mode a decision with both channels off revokes the moving resume. */
  function NoteDecision(cfg: Config, p: Progress, n: Summary): Progress {
    var revoked := cfg.safety.resumeOnCommandReturn && !n.lateral && !n.longitudinal;
    Note(WithWant(p, p.node.want.(gapQualified := p.node.want.gapQualified && !revoked)), Noted(n))
  }

  function MarkGap(p: Progress, qualified: bool): Progress {
    Note(WithWant(p, p.node.want.(gapQualified := qualified, preserveSession := true)), GapEnded(qualified))
  }

  /** A command gap in vehicle mode grants the moving resume to an Active session and keeps its profile. */
  function GapStep(cfg: Config, w: World): World {
    var d := w.local.decision;
    var p := NoteDecision(cfg, w.p, NoteOf(cfg, w.local.inputs, d));
    if cfg.safety.resumeOnCommandReturn && d.waiting && p.node.own.vehicleMode then
      Goto(w.(p := MarkGap(p, w.local.previous == S.Active && (d.lateralArmed || d.longitudinalArmed))), GapRestore)
    else Goto(w.(p := p), Choosing)
  }

  predicate MovingResume(n: Node, p: S.Panda) {
    (n.want.gapQualified || n.want.buttonTakeover) && p.sessionActive && p.sessionReady && !p.sessionBlocked
  }

  predicate TakeoverReady(cfg: Config, w: World) {
    var n, d, i := w.p.node, w.local.decision, w.local.inputs;
    && n.want.appliedArm && n.want.requestedArm
    && i.panda.safetyMode == NO_OUTPUT && i.panda.safetyParam == cfg.safety.requiredSafetyParam
    && !n.own.vehicleMode && !n.own.recoveryPending
    && d.control == S.Armed && (d.lateralArmed || d.longitudinalArmed)
    && Commanded(cfg, i) && i.panda.sessionReady
    && (i.vehicle.standstill || MovingResume(n, i.panda))
  }

  function ChooseStep(cfg: Config, w: World): World {
    if cfg.safety.resumeOnCommandReturn && TakeoverReady(cfg, w) then
      w.(local := w.local.(phase := TakingOver, moving := MovingResume(w.p.node, w.local.inputs.panda)))
    else if !w.sup.armRequested && w.p.node.want.appliedArm then Goto(w, Cleaning)
    else Goto(w, Output)
  }

  /** An idle wait for commands does not ask the operator to rearm. */
  function CleanStep(cfg: Config, w: World): World {
    var i := w.local.inputs;
    var idle := w.local.decision.control == S.Passive && !S.CommandFresh(cfg.safety, i.now, i.command);
    var q := Release(RequestInternalDisarm(w.p, !idle));
    w.(p := q,
       local := w.local.(appliedGeneration := q.node.want.generation, phase := CleanRestore))
  }

  /** An adapter that cannot represent the command disarms and withdraws this decision's permissions. */
  function AdaptStep(w: World, ok: bool): World {
    var d := w.local.decision;
    var kept := if ok then d else d.(lateralAllowed := false, longitudinalAllowed := false, heartbeatEngaged := false);
    var q := if ok then w.p else RequestInternalDisarm(w.p, true);
    World(Publish(q, kept.lateralAllowed, kept.longitudinalAllowed), w.sup,
          w.local.(phase := Sending, decision := kept))
  }

  predicate MaySend(cfg: Config, w: World) {
    var n := w.p.node;
    n.own.vehicleMode && n.connected &&
    (!cfg.safety.resumeOnCommandReturn || w.local.inputs.panda.sessionReady)
  }

  /** The frames of one iteration, in order. */
  function Frames(cfg: Config, frameIndex: nat): seq<nat> {
    [LFA] + (if frameIndex % 5 == 0 then [CLUSTER] else []) +
    (if cfg.safety.allowLongitudinal && frameIndex % 2 == 0 then [SCC, S.FCA_ADDRESS] else [])
  }

  function Transmit(p: Progress, addresses: seq<nat>): Progress
    decreases |addresses|
  {
    if addresses == [] then p else Transmit(Note(p, Sent(addresses[0], Control)), addresses[1..])
  }

  /** A send that throws may already have put frames on the wire; a lost template stops the frames. */
  function SendFrames(cfg: Config, w: World, ok: bool): Progress {
    var needsTemplate := cfg.safety.allowLongitudinal && w.local.frameIndex % 2 == 0;
    if !MaySend(cfg, w) then w.p
    else if needsTemplate && !w.p.node.own.hasTemplate then RequestInternalDisarm(Note(w.p, TemplateLost), true)
    else
      var sent := Transmit(w.p, Frames(cfg, w.local.frameIndex));
      if ok then sent else RequestInternalDisarm(sent, true)
  }

  function SendStep(cfg: Config, w: World, ok: bool): World {
    var d := w.local.decision;
    var q := Note(SendFrames(cfg, w, ok), Recorded(d.control));
    World(q, w.sup, w.local.(phase := Head, previous := d.control, frameIndex := w.local.frameIndex + 1))
  }

  // ----- The machine -----

  predicate Enabled(w: World, step: Step) {
    var phase := w.local.phase;
    match step
    case Check(_) => phase == Head || phase == MidCheck
    case Restore(_) =>
      phase == Retry || phase == MidRetry || phase == ArmRestore || phase == GapRestore || phase == CleanRestore
    case Sample(_, _) => phase == Sampling
    case Request => phase == Requesting
    case Listen(_, _) => phase == Listening
    case TakeOver(_, _) => phase == ArmTakeover || phase == TakingOver
    case Decide => phase == Deciding
    case Drop(_) => phase == Dropping
    case NoteGap => phase == Gap
    case Choose => phase == Choosing
    case CleanUp => phase == Cleaning
    case Adapt(_) => phase == Output
    case Send(_) => phase == Sending
    case LinkUp => !w.p.node.connected
    case LinkError => true
    case LinkLost => true
    case RawTx(_, _) => true
    case SetArmed(_) => true
  }

  function Next(cfg: Config, w: World, step: Step): World {
    match step
    case Check(now) => CheckStep(w, now)
    case Restore(env) => RestoreStep(cfg, w, env)
    case Sample(inputs, preflight) => SampleStep(cfg, w, inputs, preflight)
    case Request => RequestStep(cfg, w)
    case Listen(switched, read) => ListenStep(cfg, w, switched, read)
    case TakeOver(env, healthRead) => TakeOverStep(cfg, w, env, healthRead)
    case Decide => DecideStep(cfg, w)
    case Drop(ok) => DropStep(w, ok)
    case NoteGap => GapStep(cfg, w)
    case Choose => ChooseStep(cfg, w)
    case CleanUp => CleanStep(cfg, w)
    case Adapt(ok) => AdaptStep(w, ok)
    case Send(ok) => SendStep(cfg, w, ok)
    case LinkUp => w.(p := Connect(w.p))
    case LinkError => w.(p := Disconnect(w.p))
    case LinkLost => w.(p := w.p.(node := w.p.node.(connected := false)))
    case RawTx(address, wellFormed) => w.(p := RawTransmit(cfg, w.p, address, wellFormed))
    case SetArmed(arm) => w.(p := ArmService(cfg, w.p, arm))
  }

  /** The world after the steps; a step that is not enabled does not happen. */
  function Run(cfg: Config, w: World, steps: seq<Step>): World
    decreases |steps|
  {
    if steps == [] then w
    else
      var before := Run(cfg, w, steps[..|steps| - 1]);
      var last := steps[|steps| - 1];
      if Enabled(before, last) then Next(cfg, before, last) else before
  }
}
