/** The record of what the node of src/node.cpp does to the car, and what that record means.

    A log is the sequence of externally visible or license-relevant actions of one process, oldest first.
    The functions below read facts off a log alone: which ECU the node has silenced and still owes to the
    car, which of these debts the node knows of, whether a recovery is outstanding and when the next
    attempt is due, and what licenses a takeover of a moving vehicle. Lawful says what a log may contain;
    EcuSections.dfy and ControlLoop.dfy prove that every run writes only lawful logs and that the node's
    flags always agree with its log. */
module EcuLedger {
  import R = RecoveryRetryModel
  import S = Supervisor

  datatype Ecu = Camera | Radar

  /** Diagnostic services of ISO 14229-1:2013, sections 9.2 and 9.5, as the node uses them. */
  datatype Service = ExtendedSession | EnableCommunication | DefaultSession

  /** The part of the configuration that a log is judged by. */
  datatype Rules = Rules(actuation: bool, longitudinal: bool, resume: bool, automatic: bool, raw: bool, param: nat)

  /** What sends a host frame: the control thread, the firmware check of a takeover, the raw-transmit callback. */
  datatype Origin = Control | Probe | Raw

  /** What one iteration decided, and whether its command sample was fresh, valid and enabled. */
  datatype Summary = Summary(control: S.ControlState, lateral: bool, longitudinal: bool, waiting: bool, commanded: bool)

  datatype Action =
    | Started(rules: Rules)
    // Panda
    | Heartbeat
    | Mode(mode: nat, param: nat)
    | NoOutputConfirmed(param: nat)
    | Sent(address: nat, origin: Origin)
    | TemplateLost
    | LinkChanged(up: bool)
    // ECUs: an acknowledged request; the request that stops normal transmission with the vehicle snapshot it
    // was decided on, which may go out and still throw; what was observed
    | Uds(ecu: Ecu, service: Service)
    | Silence(ecu: Ecu, standstill: bool, speed: real, returned: bool)
    | TesterPresent(ecu: Ecu)
    | Quiet(ecu: Ecu)
    | Resumed(ecu: Ecu, frames: nat)
    // milestones of the node itself
    | TakenOver(longitudinal: bool)
    | RecoveryStarted(at: int)
    | RecoveryFailed(at: int)
    | RetryDue(at: int)
    | Recovered
    // arming: the operator's service, a physical press, automatic arming, the supervisor told, a session
    // withdrawn by the node itself
    | ServiceCall(arm: bool)
    | EngagePress
    | AutoArmed
    | Applied(arm: bool)
    | InternalDisarm(required: bool)
    // the control loop: a decision noted, a command gap, permissions published, an iteration completed
    | Noted(note: Summary)
    | GapEnded(qualified: bool)
    | Published(lateral: bool, longitudinal: bool)
    | Recorded(control: S.ControlState)

  type Log = seq<Action>

  // ----- Facts read off a log -----

  /** Per ECU: silenced by the node and not seen to resume since; the same, by a request that returned; seen
      to stay away since it was silenced; used by a takeover since it was silenced. */
  datatype Line = Line(owed: bool, flagged: bool, quiet: bool, taken: bool)

  const TALKING := Line(false, false, false, false)
  const SILENT := Line(true, true, true, false)

  /** Of a restoration attempt: none is going on; one was found due; one is being made. */
  datatype Stage = AtRest | FoundDue | UnderWay

  /** Automatic arming is inhibited; a rearm by the operator is asked for; the operator has switched off; the
      node is asked to arm; the supervisor was; a command gap preserves the session. */
  datatype Standing = Standing(
    inhibited: bool, rearm: bool, off: bool, requested: bool, applied: bool, preserved: bool)

  /** The last decision noted; the state of the last iteration that ran to its end; how many did since the last
      service call; the published permissions. */
  datatype Loop = Loop(
    note: Summary, recorded: S.ControlState, iterations: nat, lateralOut: bool, longitudinalOut: bool)

  datatype Facts = Facts(
    rules: Rules,
    camera: Line,
    radar: Line,
    outstanding: bool,             // a recovery has been called for and not completed
    retry: R.Retry,                // its schedule
    stage: Stage,                  // of its attempts
    vehicle: bool,                 // a takeover is completed and not given back
    mode: nat,                     // the Panda mode commanded last
    standing: Standing,            // what arms the node and keeps it from arming
    loop: Loop,
    gapLicense: bool,              // an Active session ended in a command gap, nothing withdrew that
    pressLicense: bool)            // a physical press re-engaged an inhibited node, unused and not withdrawn

  const NO_RULES := Rules(false, false, false, false, false, 0)

  const FREE := Standing(false, false, false, false, false, false)

  const BLANK := Summary(S.Disconnected, false, false, false, false)

  const NOTHING := Facts(NO_RULES, TALKING, TALKING, false, R.IDLE, AtRest, false, 0, FREE,
                         Loop(BLANK, S.Disconnected, 0, false, false), false, false)

  function LineAfter(l: Line, a: Action): Line {
    match a
    case Silence(_, _, _, returned) => Line(true, returned, false, false)
    case Quiet(_) => l.(quiet := true)
    case Resumed(_, _) => TALKING
    case _ => l
  }

  /** There is a session to lose. */
  predicate InSession(f: Facts) { f.standing.requested || f.standing.applied || f.vehicle }

  function StandingAfter(f: Facts, a: Action): Standing {
    var st := f.standing;
    match a
    case InternalDisarm(required) =>
      var lost := required && InSession(f);
      st.(inhibited := st.inhibited || lost, rearm := st.rearm || lost, requested := false, preserved := false)
    case RecoveryFailed(_) => st.(inhibited := true, rearm := true)
    case ServiceCall(arm) =>
      Standing(!arm, st.rearm && !arm, !arm, arm, st.applied, false)
    case EngagePress => st.(inhibited := false, rearm := false)
    case AutoArmed => st.(requested := true)
    case Applied(arm) => st.(applied := arm)
    case GapEnded(_) => st.(preserved := true)
    case _ => st
  }

  function LoopAfter(l: Loop, a: Action): Loop {
    match a
    case ServiceCall(_) => l.(iterations := 0)
    case Noted(note) => l.(note := note)
    case Published(lateral, longitudinal) => l.(lateralOut := lateral, longitudinalOut := longitudinal)
    case Recorded(control) => l.(recorded := control, iterations := l.iterations + 1)
    case _ => l
  }

  function LineOf(f: Facts, ecu: Ecu): Line {
    if ecu == Camera then f.camera else f.radar
  }

  function SetLine(f: Facts, ecu: Ecu, l: Line): Facts {
    if ecu == Camera then f.(camera := l) else f.(radar := l)
  }

  /** The facts after one more action. */
  function Absorb(f: Facts, a: Action): Facts {
    match a
    case Started(rules) => f.(rules := rules)
    case Mode(mode, _) => f.(mode := mode)
    case LinkChanged(_) => f.(vehicle := false)
    case Silence(ecu, _, _, _) => SetLine(f, ecu, LineAfter(LineOf(f, ecu), a))
    case Quiet(ecu) => SetLine(f, ecu, LineAfter(LineOf(f, ecu), a))
    case Resumed(ecu, _) => SetLine(f, ecu, LineAfter(LineOf(f, ecu), a))
    case TakenOver(_) =>
      f.(camera := f.camera.(taken := true), radar := f.radar.(taken := true), vehicle := true, pressLicense := false)
    case RecoveryStarted(at) =>
      f.(outstanding := true, vehicle := false, retry := R.Request(f.retry, at), stage := UnderWay)
    case RecoveryFailed(at) =>
      f.(retry := R.Failed(f.retry, at), stage := AtRest, standing := StandingAfter(f, a))
    case RetryDue(at) => f.(retry := R.Request(f.retry, at), stage := FoundDue)
    case Recovered => f.(outstanding := false, retry := R.Restored(f.retry), stage := AtRest)
    case InternalDisarm(_) =>
      f.(outstanding := true, gapLicense := false, pressLicense := false, standing := StandingAfter(f, a))
    case ServiceCall(_) =>
      f.(gapLicense := false, pressLicense := false, standing := StandingAfter(f, a), loop := LoopAfter(f.loop, a))
    case EngagePress => f.(pressLicense := true, standing := StandingAfter(f, a))
    case AutoArmed => f.(standing := StandingAfter(f, a))
    case Applied(_) => f.(standing := StandingAfter(f, a))
    case GapEnded(qualified) => f.(gapLicense := qualified, standing := StandingAfter(f, a))
    case Noted(note) => f.(loop := LoopAfter(f.loop, a), gapLicense := f.gapLicense && !RevokesGap(f.rules, note))
    case Published(_, _) => f.(loop := LoopAfter(f.loop, a))
    case Recorded(_) => f.(loop := LoopAfter(f.loop, a))
    case _ => f
  }

  /** In resume mode a decision with both channels off ends what a command gap had granted. */
  predicate RevokesGap(rules: Rules, note: Summary) { rules.resume && !note.lateral && !note.longitudinal }

  function Read(log: Log): Facts {
    if log == [] then NOTHING else Absorb(Read(log[..|log| - 1]), log[|log| - 1])
  }

  predicate Owed(log: Log, ecu: Ecu) { LineOf(Read(log), ecu).owed }

  predicate Flagged(log: Log, ecu: Ecu) { LineOf(Read(log), ecu).flagged }

  /** Events that withdraw both licenses for a moving takeover. */
  predicate WithdrawsLicense(a: Action) {
    a.InternalDisarm? || a.ServiceCall?
  }

  predicate SilencesEcu(a: Action, ecu: Ecu) { a.Silence? && a.ecu == ecu && a.returned }

  predicate ResumesEcu(a: Action, ecu: Ecu) { a.Resumed? && a.ecu == ecu }

  // ----- What a log may contain -----

  /** An outage goes on and has seen a failed attempt. */
  predicate Failing(r: R.Retry) { r.pending && r.failures > 0 }

  predicate EndsWith(log: Log, a: Action) { log != [] && log[|log| - 1] == a }

  /** The profile of NO_OUTPUT after a restoration: the configured one while a command gap preserves the session
      or a listener may re-engage, otherwise none. */
  function StandbyProfile(f: Facts): nat {
    if f.standing.preserved || (f.rules.resume && !f.standing.off) then f.rules.param else 0
  }

  /** Every ECU that vehicle mode needs has been through a handshake that no takeover has used. */
  predicate AllSilent(f: Facts) { f.camera == SILENT && (f.rules.longitudinal ==> f.radar == SILENT) }

  /** A car that moves, or is not known to stand still, is taken over only by license. */
  predicate MayBeSilenced(f: Facts, standstill: bool, speed: real) {
    !standstill || speed > 0.5 / 3.6 ==> f.gapLicense || f.pressLicense
  }

  /** In resume mode a takeover needs an armed supervisor with a channel selected and an enabled command. */
  predicate Invited(rules: Rules, n: Summary) {
    rules.resume ==> n.control == S.Armed && (n.lateral || n.longitudinal) && n.commanded
  }

  /** NO_OUTPUT is 19, ELM327 is 3, the vehicle profile is 28. */
  predicate LawfulMode(f: Facts, mode: nat, param: nat) {
    if mode == 3 then
      if f.stage == UnderWay then
        (f.camera.flagged || f.radar.flagged) && param == (if f.standing.preserved then f.rules.param else 1)
      else !f.outstanding && Invited(f.rules, f.loop.note) && param == (if f.rules.resume then f.rules.param else 1)
    else if mode == 19 then
      if f.stage == UnderWay then param == 0 || param == StandbyProfile(f)
      else f.rules.resume && param == f.rules.param
    else
      mode == 28 && param == f.rules.param && f.stage != UnderWay && !f.outstanding && AllSilent(f)
  }

  /** A control frame needs vehicle mode, and after an operator's off the iteration it belongs to was already
      going on. A raw frame needs vehicle mode and the published permissions. */
  predicate LawfulFrame(f: Facts, before: Log, address: nat, origin: Origin) {
    && (address == 0x12A ==> f.camera.flagged) && (address == 0x1A0 ==> f.radar.flagged)
    && match origin
       case Control =>
         && f.vehicle && (f.standing.off ==> f.loop.iterations == 0)
         && (address == 0x12A || address == 0x1E0 || (f.rules.longitudinal && (address == 0x1A0 || address == 0x160)))
       case Probe => address == 0x1A0 && f.rules.longitudinal && EndsWith(before, Mode(28, f.rules.param))
       case Raw =>
         && f.rules.raw && f.vehicle && f.loop.longitudinalOut && (address == 0x12A ==> f.loop.lateralOut)
         && (f.standing.off ==> f.loop.iterations <= 1)
  }

  predicate LawfulAction(f: Facts, before: Log, a: Action) {
    match a
    case Started(_) => before == []
    case Mode(mode, param) => LawfulMode(f, mode, param)
    // NO_OUTPUT is confirmed right after it was commanded, through profile 0 unless the session is preserved
    case NoOutputConfirmed(param) =>
      && f.stage == UnderWay && param == StandbyProfile(f) && EndsWith(before, Mode(19, param))
      && (param != 0 && !f.standing.preserved ==> EndsWith(before[..|before| - 1], Mode(19, 0)))
    // single owner: a host frame only while the stock sender of that frame is silenced
    case Sent(address, origin) => LawfulFrame(f, before, address, origin)
    case TemplateLost => false
    // an ECU is silenced only from a diagnostic session just opened, not again while the node knows that it
    // is silent, and moving only by license
    case Silence(ecu, standstill, speed, _) =>
      && !LineOf(f, ecu).flagged && !f.outstanding && f.mode == 3 && EndsWith(before, Uds(ecu, ExtendedSession))
      && (ecu == Radar ==> f.rules.longitudinal) && Invited(f.rules, f.loop.note) && MayBeSilenced(f, standstill, speed)
    // an ECU counts as quiet when the watch after its silencing and the first tester present saw nothing
    case Quiet(ecu) =>
      && LineOf(f, ecu).flagged && |before| > 1
      && before[|before| - 1] == TesterPresent(ecu) && SilencesEcu(before[|before| - 2], ecu)
    // communication is re-enabled only in a session just opened, which is left only after that
    case Uds(ecu, service) =>
      && f.mode == 3
      && match service {
           case ExtendedSession => true
           case EnableCommunication => EndsWith(before, Uds(ecu, ExtendedSession))
           case DefaultSession => EndsWith(before, Uds(ecu, EnableCommunication))
         }
    case Resumed(ecu, frames) => LineOf(f, ecu).flagged && frames > 0
    // a takeover completes only after every handshake it needs, none of them used before, and after the switch
    // to the vehicle profile, with its probe frame in longitudinal mode
    case TakenOver(longitudinal) =>
      && !f.outstanding && AllSilent(f) && longitudinal == f.rules.longitudinal
      && EndsWith(before, if longitudinal then Sent(0x1A0, Probe) else Mode(28, f.rules.param))
    // a recovery completes only when no debt is known
    case Recovered =>
      && !f.camera.flagged && !f.radar.flagged && f.stage == UnderWay
      && before != [] && before[|before| - 1].NoOutputConfirmed?
    // an attempt is found due only when it is; in an outage that has seen a failure it starts only then
    case RetryDue(at) => R.Due(R.Request(f.retry, at), at) && f.stage == AtRest
    case RecoveryStarted(_) => Failing(f.retry) ==> f.stage == FoundDue
    case RecoveryFailed(_) => f.retry.pending && f.stage == UnderWay
    // nothing arms while a recovery is outstanding or against the configuration
    case ServiceCall(arm) => arm ==> f.rules.actuation && !f.outstanding
    case AutoArmed =>
      && f.rules.automatic && f.rules.actuation && !f.standing.inhibited && !f.standing.requested && !f.outstanding
    case Applied(arm) => arm == f.standing.requested && (arm ==> f.rules.actuation)
    // a press re-engages only an inhibited node that no operator has switched off
    case EngagePress =>
      && f.rules.resume && (f.standing.inhibited || f.standing.rearm) && !f.standing.off && !f.standing.requested
    // a gap is a decision that waits for a command in vehicle mode; it qualifies when the last complete
    // iteration was Active and a channel is still selected
    case GapEnded(qualified) =>
      && f.rules.resume && f.vehicle && f.loop.note.waiting
      && qualified == (f.loop.recorded == S.Active && (f.loop.note.lateral || f.loop.note.longitudinal))
    // what is published was decided
    case Published(lateral, longitudinal) =>
      && (lateral ==> f.loop.note.control == S.Active && f.loop.note.lateral)
      && (longitudinal ==> f.rules.longitudinal && f.loop.note.longitudinal &&
                           (f.loop.note.control == S.Active || f.loop.note.control == S.SoftDisabling))
    case Recorded(control) => control == f.loop.note.control
    case _ => true
  }

  predicate Lawful(log: Log) {
    log == [] || (Lawful(log[..|log| - 1]) && LawfulAction(Read(log[..|log| - 1]), log[..|log| - 1], log[|log| - 1]))
  }

  // ----- Appending one action -----

  lemma Append(log: Log, a: Action)
    ensures var all := log + [a];
            && all[..|all| - 1] == log && all[|all| - 1] == a
            && Read(all) == Absorb(Read(log), a)
            && (Lawful(all) <==> Lawful(log) && LawfulAction(Read(log), log, a))
  {
    assert (log + [a])[..|log|] == log;
  }

  // ----- What lawfulness means for whole histories -----

  lemma {:induction false} LawfulAt(log: Log, k: nat)
    requires Lawful(log) && k < |log|
    ensures Lawful(log[..k]) && LawfulAction(Read(log[..k]), log[..k], log[k])
  {
    if k < |log| - 1 {
      var init := log[..|log| - 1];
      LawfulAt(init, k);
      assert init[..k] == log[..k];
    }
  }

  lemma LineStep(f: Facts, a: Action, ecu: Ecu)
    ensures var l, m := LineOf(f, ecu), LineOf(Absorb(f, a), ecu);
            if a.Silence? && a.ecu == ecu then m.owed && m.flagged == a.returned
            else if a.Resumed? && a.ecu == ecu then !m.owed && !m.flagged
            else m.owed == l.owed && m.flagged == l.flagged
  {
    hide StandingAfter, LoopAfter, RevokesGap, R.Request, R.Failed;
  }

  /** Silencing requests for this ECU that returned. */
  function Silences(log: Log, ecu: Ecu): nat {
    if log == [] then 0
    else Silences(log[..|log| - 1], ecu) + if SilencesEcu(log[|log| - 1], ecu) then 1 else 0
  }

  function Resumptions(log: Log, ecu: Ecu): nat {
    if log == [] then 0
    else Resumptions(log[..|log| - 1], ecu) + if ResumesEcu(log[|log| - 1], ecu) then 1 else 0
  }

  /** Conservation: every silencing that returned is paid back by exactly one observed resumption, except
      the one that is still flagged. */
  lemma {:induction false} DebtConservation(log: Log, ecu: Ecu)
    requires Lawful(log)
    ensures Silences(log, ecu) == Resumptions(log, ecu) + if Flagged(log, ecu) then 1 else 0
  {
    hide Absorb;
    if log != [] {
      DebtConservation(log[..|log| - 1], ecu);
      LineStep(Read(log[..|log| - 1]), log[|log| - 1], ecu);
    }
  }

  /** The k-th action silenced the ECU although its call threw, and no later silencing of it returned. */
  predicate UnnoticedAt(log: Log, ecu: Ecu, k: nat)
    requires k < |log|
  {
    log[k].Silence? && log[k].ecu == ecu && !log[k].returned && forall j :: k < j < |log| ==> !SilencesEcu(log[j], ecu)
  }

  predicate Unnoticed(log: Log, ecu: Ecu) {
    exists k :: 0 <= k < |log| && UnnoticedAt(log, ecu, k)
  }

  lemma UnnoticedStep(log: Log, a: Action, ecu: Ecu)
    ensures Unnoticed(log + [a], ecu) <==> if a.Silence? && a.ecu == ecu then !a.returned else Unnoticed(log, ecu)
  {
    var all := log + [a];
    if a.Silence? && a.ecu == ecu {
      if a.returned {
        assert SilencesEcu(all[|log|], ecu);
      } else {
        assert UnnoticedAt(all, ecu, |log|);
      }
    } else {
      if k :| 0 <= k < |log| && UnnoticedAt(log, ecu, k) {
        assert UnnoticedAt(all, ecu, k);
      }
      if k :| 0 <= k < |all| && UnnoticedAt(all, ecu, k) {
        assert forall j :: k < j < |log| ==> all[j] == log[j];
        assert UnnoticedAt(log, ecu, k);
      }
    }
  }

  /** Exactly when the node knows of its debt: a flagged ECU is owed, and an owed ECU is flagged unless a
      silencing request went out, threw, and no later one returned. */
  lemma {:induction false} KnownDebts(log: Log, ecu: Ecu)
    requires Lawful(log)
    ensures Flagged(log, ecu) ==> Owed(log, ecu)
    ensures Owed(log, ecu) && !Flagged(log, ecu) <==> Unnoticed(log, ecu)
  {
    hide Absorb, Unnoticed;
    if log == [] {
      assert !Unnoticed(log, ecu) by { NothingUnnoticed(ecu); }
    } else {
      var init, last := log[..|log| - 1], log[|log| - 1];
      KnownDebts(init, ecu);
      LineStep(Read(init), last, ecu);
      UnnoticedStep(init, last, ecu);
      assert init + [last] == log;
    }
  }

  lemma NothingUnnoticed(ecu: Ecu)
    ensures !Unnoticed([], ecu)
  {
  }

  // ----- Licenses, inhibitions and handshakes spelled out -----

  /** A command gap ended an Active session with a channel still selected, and neither a decision with both
      channels off nor a service call nor an internal disarm came after it. */
  predicate GapLicensedAt(log: Log, j: nat)
    requires j < |log|
  {
    && log[j] == GapEnded(true) && Read(log[..j]).loop.recorded == S.Active
    && (Read(log[..j]).loop.note.lateral || Read(log[..j]).loop.note.longitudinal)
    && forall i :: j < i < |log| ==> !WithdrawsLicense(log[i]) && !BothOff(log[i])
  }

  predicate BothOff(a: Action) { a.Noted? && !a.note.lateral && !a.note.longitudinal }

  /** Nothing but its first entry changes the rules of a log, so a gap license is one of resume mode. */
  lemma GapLicenseStep(f: Facts, before: Log, a: Action)
    requires LawfulAction(f, before, a) && (f.gapLicense ==> f.rules.resume) && before != []
    ensures var g := Absorb(f, a);
            && (g.gapLicense ==> g.rules.resume)
            && (a.GapEnded? ==> g.gapLicense == a.qualified)
            && (!a.GapEnded? ==> (g.gapLicense <==> f.gapLicense && !WithdrawsLicense(a) && !BothOff(a)))
  {
    hide StandingAfter, LineAfter, R.Request, R.Failed;
  }

  lemma {:induction false} GapLicenseMeans(log: Log)
    requires Lawful(log)
    ensures Read(log).gapLicense ==> Read(log).rules.resume && exists j :: 0 <= j < |log| && GapLicensedAt(log, j)
  {
    hide Absorb, LawfulAction;
    if |log| > 1 {
      var init, last := log[..|log| - 1], log[|log| - 1];
      GapLicenseMeans(init);
      GapLicenseStep(Read(init), init, last);
      if Read(log).gapLicense {
        if last.GapEnded? {
          QualifiedMeans(Read(init), init, last);
          assert GapLicensedAt(log, |log| - 1);
        } else {
          var j :| 0 <= j < |init| && GapLicensedAt(init, j);
          assert init[..j] == log[..j];
          assert forall i :: j < i < |init| ==> log[i] == init[i];
          assert GapLicensedAt(log, j);
        }
      }
    } else if |log| == 1 {
      FirstGrantsNothing(log[0]);
      assert log[..0] == [];
    }
  }

  lemma QualifiedMeans(f: Facts, before: Log, a: Action)
    requires LawfulAction(f, before, a) && a == GapEnded(true)
    ensures f.loop.recorded == S.Active && (f.loop.note.lateral || f.loop.note.longitudinal)
  {
  }

  lemma FirstGrantsNothing(a: Action)
    requires LawfulAction(NOTHING, [], a)
    ensures !Absorb(NOTHING, a).gapLicense
  {
  }

  /** A failed recovery, or an internal disarm that took a session away against its will. */
  predicate FaultInhibits(f: Facts, a: Action) { a.RecoveryFailed? || (a == InternalDisarm(true) && InSession(f)) }

  /** A fault inhibited the node, and nobody has used the service or re-engaged by a press since. */
  predicate FaultedAt(log: Log, j: nat)
    requires j < |log|
  {
    FaultInhibits(Read(log[..j]), log[j]) && forall i :: j < i < |log| ==> !log[i].ServiceCall? && !log[i].EngagePress?
  }

  predicate Faulted(log: Log) {
    exists j :: 0 <= j < |log| && FaultedAt(log, j)
  }

  lemma FaultedStep(log: Log, a: Action)
    ensures Faulted(log + [a]) <==> FaultInhibits(Read(log), a) || (Faulted(log) && !a.ServiceCall? && !a.EngagePress?)
  {
    hide Absorb, InSession;
    var all := log + [a];
    assert all[..|log|] == log;
    if FaultInhibits(Read(log), a) {
      assert FaultedAt(all, |log|);
    } else {
      if j :| 0 <= j < |log| && FaultedAt(log, j) {
        assert all[..j] == log[..j];
        assert !a.ServiceCall? && !a.EngagePress? ==> FaultedAt(all, j);
      }
      if j :| 0 <= j < |all| && FaultedAt(all, j) {
        assert all[|log|] == a;
        assert all[..j] == log[..j];
        assert forall i :: j < i < |log| ==> all[i] == log[i];
        assert FaultedAt(log, j);
      }
    }
  }

  /** The last service call switched off. */
  predicate SwitchedOff(log: Log) {
    exists j :: 0 <= j < |log| && SwitchedOffAt(log, j)
  }

  predicate SwitchedOffAt(log: Log, j: nat)
    requires j < |log|
  {
    log[j] == ServiceCall(false) && forall i :: j < i < |log| ==> !log[i].ServiceCall?
  }

  lemma SwitchedOffStep(log: Log, a: Action)
    ensures SwitchedOff(log + [a]) <==> if a.ServiceCall? then !a.arm else SwitchedOff(log)
  {
    var all := log + [a];
    if a == ServiceCall(false) {
      assert SwitchedOffAt(all, |log|);
    } else {
      if j :| 0 <= j < |log| && SwitchedOffAt(log, j) {
        assert !a.ServiceCall? ==> SwitchedOffAt(all, j);
      }
      if j :| 0 <= j < |all| && SwitchedOffAt(all, j) {
        assert all[|log|] == a;
        assert forall i :: j < i < |log| ==> all[i] == log[i];
        assert SwitchedOffAt(log, j);
      }
    }
  }

  /** What a standing says of the history. */
  predicate Explains(st: Standing, faulted: bool, off: bool) {
    && st.off == off && (!off ==> st.inhibited == faulted && st.rearm == faulted) && (off ==> st.inhibited)
  }

  lemma NothingStands()
    ensures Explains(Read([]).standing, Faulted([]), SwitchedOff([]))
  {
  }

  lemma StandingOnly(f: Facts, a: Action)
    ensures Absorb(f, a).standing == StandingAfter(f, a)
  {
  }

  lemma StandingStep(f: Facts, before: Log, a: Action, faulted: bool, off: bool)
    requires LawfulAction(f, before, a) && Explains(f.standing, faulted, off)
    ensures Explains(Absorb(f, a).standing,
                     FaultInhibits(f, a) || (faulted && !a.ServiceCall? && !a.EngagePress?),
                     if a.ServiceCall? then !a.arm else off)
  {
    hide Absorb, InSession;
    StandingOnly(f, a);
  }

  /** What a press may lift: unless the operator has switched off, automatic arming is inhibited, and a rearm
      asked for, exactly when a fault stands; an operator's off inhibits too. */
  lemma {:induction false} StandingMeans(log: Log)
    requires Lawful(log)
    ensures Explains(Read(log).standing, Faulted(log), SwitchedOff(log))
  {
    hide Absorb, LawfulAction, Explains, Faulted, SwitchedOff;
    if log == [] {
      NothingStands();
    } else {
      var init, last := log[..|log| - 1], log[|log| - 1];
      StandingMeans(init);
      StandingStep(Read(init), init, last, Faulted(init), SwitchedOff(init));
      FaultedStep(init, last);
      SwitchedOffStep(init, last);
      assert init + [last] == log;
    }
  }

  /** A physical press re-engaged a node that a fault had inhibited, and neither a takeover nor a service
      call nor an internal disarm came after it. */
  predicate PressLicensedAt(log: Log, j: nat)
    requires j < |log|
  {
    && log[j] == EngagePress && Faulted(log[..j])
    && forall i :: j < i < |log| ==> !WithdrawsLicense(log[i]) && !log[i].TakenOver?
  }

  lemma PressStep(f: Facts, a: Action)
    ensures Absorb(f, a).pressLicense <==>
              a.EngagePress? || (f.pressLicense && !WithdrawsLicense(a) && !a.TakenOver?)
  {
  }

  lemma PressLawful(f: Facts, before: Log, a: Action)
    requires LawfulAction(f, before, a) && a.EngagePress?
    ensures (f.standing.inhibited || f.standing.rearm) && !f.standing.off
  {
  }

  lemma {:induction false} PressLicenseMeans(log: Log)
    requires Lawful(log) && Read(log).pressLicense
    ensures exists j :: 0 <= j < |log| && PressLicensedAt(log, j)
  {
    hide Absorb, LawfulAction, Faulted, SwitchedOff;
    var init, last := log[..|log| - 1], log[|log| - 1];
    PressStep(Read(init), last);
    if last.EngagePress? {
      StandingMeans(init);
      PressLawful(Read(init), init, last);
      assert PressLicensedAt(log, |log| - 1);
    } else {
      PressLicenseMeans(init);
      var j :| 0 <= j < |init| && PressLicensedAt(init, j);
      assert init[..j] == log[..j];
      assert forall i :: j < i < |init| ==> log[i] == init[i];
      assert PressLicensedAt(log, j);
    }
  }

  /** The disable handshake of one ECU: session, silencing, tester present, quiet watch, in a row. */
  predicate HandshakeAt(log: Log, ecu: Ecu, j: nat)
    requires j + 3 < |log|
  {
    && log[j] == Uds(ecu, ExtendedSession) && SilencesEcu(log[j + 1], ecu)
    && log[j + 2] == TesterPresent(ecu) && log[j + 3] == Quiet(ecu)
  }

  /** A handshake that no takeover has used yet. */
  predicate FreshHandshakeAt(log: Log, ecu: Ecu, j: nat)
    requires j + 3 < |log|
  {
    HandshakeAt(log, ecu, j) && forall i :: j < i < |log| ==> !log[i].TakenOver? && !ResumesEcu(log[i], ecu)
  }

  lemma SilentStep(f: Facts, a: Action, ecu: Ecu)
    requires LineOf(Absorb(f, a), ecu) == SILENT
    ensures !a.TakenOver? && !ResumesEcu(a, ecu) && (LineOf(f, ecu) == SILENT || a == Quiet(ecu))
  {
  }

  /** Silent spelled out: the ECU has been through a handshake of its own since the last takeover, and has
      not been seen since. */
  lemma {:induction false} SilentMeans(log: Log, ecu: Ecu)
    requires Lawful(log) && LineOf(Read(log), ecu) == SILENT
    ensures exists j :: 0 <= j < |log| - 3 && FreshHandshakeAt(log, ecu, j)
  {
    hide Absorb, HandshakeAt;
    var init, last := log[..|log| - 1], log[|log| - 1];
    SilentStep(Read(init), last, ecu);
    if last == Quiet(ecu) {
      WatchEndsHandshake(log, ecu);
      assert FreshHandshakeAt(log, ecu, |log| - 4);
    } else {
      SilentMeans(init, ecu);
      var j :| 0 <= j < |init| - 3 && FreshHandshakeAt(init, ecu, j);
      assert HandshakeAt(log, ecu, j) by { HandshakeStays(init, last, ecu, j); assert init + [last] == log; }
      assert forall i :: j < i < |init| ==> log[i] == init[i];
      assert FreshHandshakeAt(log, ecu, j);
    }
  }

  lemma HandshakeStays(log: Log, a: Action, ecu: Ecu, j: nat)
    requires j + 3 < |log| && HandshakeAt(log, ecu, j)
    ensures HandshakeAt(log + [a], ecu, j)
  {
  }

  lemma WatchEndsHandshake(log: Log, ecu: Ecu)
    requires Lawful(log) && log != [] && log[|log| - 1] == Quiet(ecu)
    ensures |log| > 3 && HandshakeAt(log, ecu, |log| - 4)
    ensures forall i :: |log| - 4 < i < |log| ==> !log[i].TakenOver? && !ResumesEcu(log[i], ecu)
  {
    hide Read, Lawful;
    LawfulAt(log, |log| - 1);
    LawfulAt(log, |log| - 3);
  }

  /** Flagged spelled out: a request that silenced the ECU returned at some point and the ECU has not been
      seen to resume since. */
  lemma {:induction false} FlaggedMeans(log: Log, ecu: Ecu)
    requires Lawful(log) && Flagged(log, ecu)
    ensures exists k :: 0 <= k < |log| && SilencedAt(log, ecu, k)
  {
    hide Absorb;
    var init, last := log[..|log| - 1], log[|log| - 1];
    LineStep(Read(init), last, ecu);
    if SilencesEcu(last, ecu) {
      assert SilencedAt(log, ecu, |log| - 1);
    } else {
      FlaggedMeans(init, ecu);
      var k :| 0 <= k < |init| && SilencedAt(init, ecu, k);
      assert log[k] == init[k];
      forall j | k < j < |log| ensures !ResumesEcu(log[j], ecu) {
        if j < |init| { assert log[j] == init[j]; }
      }
      assert SilencedAt(log, ecu, k);
    }
  }

  predicate SilencedAt(log: Log, ecu: Ecu, k: nat)
    requires k < |log|
  {
    SilencesEcu(log[k], ecu) && forall j :: k < j < |log| ==> !ResumesEcu(log[j], ecu)
  }

  // ----- The other facts spelled out -----

  /** Something raised this at j and nothing has lowered it since. */
  predicate SinceAt(log: Log, raises: Action -> bool, lowers: Action -> bool, j: nat)
    requires j < |log|
  {
    raises(log[j]) && forall i :: j < i < |log| ==> !lowers(log[i])
  }

  predicate Since(log: Log, raises: Action -> bool, lowers: Action -> bool) {
    exists j :: 0 <= j < |log| && SinceAt(log, raises, lowers, j)
  }

  lemma SinceStep(log: Log, a: Action, raises: Action -> bool, lowers: Action -> bool)
    ensures Since(log + [a], raises, lowers) <==> raises(a) || (Since(log, raises, lowers) && !lowers(a))
  {
    var all := log + [a];
    if raises(a) {
      assert SinceAt(all, raises, lowers, |log|);
    } else {
      if j :| 0 <= j < |log| && SinceAt(log, raises, lowers, j) {
        assert !lowers(a) ==> SinceAt(all, raises, lowers, j);
      }
      if j :| 0 <= j < |all| && SinceAt(all, raises, lowers, j) {
        assert all[|log|] == a;
        assert forall i :: j < i < |log| ==> all[i] == log[i];
        assert SinceAt(log, raises, lowers, j);
      }
    }
  }

  predicate CompletesTakeover(a: Action) { a.TakenOver? }
  predicate GivesBack(a: Action) { a.RecoveryStarted? || a.LinkChanged? }
  predicate AsksToArm(a: Action) { a == ServiceCall(true) || a.AutoArmed? }
  predicate Withdraws(a: Action) { a == ServiceCall(false) || a.InternalDisarm? }
  predicate EndsInGap(a: Action) { a.GapEnded? }
  predicate CallsForRecovery(a: Action) { a.RecoveryStarted? || a.InternalDisarm? }
  predicate ReportsRecovery(a: Action) { a.Recovered? }

  /** Taken over and not given back, nor the link changed. */
  predicate InVehicleMode(log: Log) { Since(log, CompletesTakeover, GivesBack) }

  /** Asked to arm, by the service or automatically, and not withdrawn. */
  predicate ArmRequested(log: Log) { Since(log, AsksToArm, Withdraws) }

  /** A command gap, and neither a service call nor an internal disarm since. */
  predicate Preserved(log: Log) { Since(log, EndsInGap, WithdrawsLicense) }

  /** A recovery has been called for and not reported. */
  predicate Outstanding(log: Log) { Since(log, CallsForRecovery, ReportsRecovery) }

  lemma FlagStep(f: Facts, a: Action)
    ensures var g := Absorb(f, a);
            && (g.vehicle <==> CompletesTakeover(a) || (f.vehicle && !GivesBack(a)))
            && (g.standing.requested <==> AsksToArm(a) || (f.standing.requested && !Withdraws(a)))
            && (g.standing.preserved <==> EndsInGap(a) || (f.standing.preserved && !WithdrawsLicense(a)))
            && (g.outstanding <==> CallsForRecovery(a) || (f.outstanding && !ReportsRecovery(a)))
  {
    hide LineAfter, LoopAfter, RevokesGap, R.Request, R.Failed;
  }

  /** What the flags of the facts say of the history. */
  lemma {:induction false} FlagsMean(log: Log)
    ensures var f := Read(log);
            && f.vehicle == InVehicleMode(log) && f.standing.requested == ArmRequested(log)
            && f.standing.preserved == Preserved(log) && f.outstanding == Outstanding(log)
  {
    hide Absorb, Since;
    if log == [] {
      NothingSince();
    } else {
      var init, last := log[..|log| - 1], log[|log| - 1];
      FlagsMean(init);
      FlagStep(Read(init), last);
      SinceStep(init, last, CompletesTakeover, GivesBack);
      SinceStep(init, last, AsksToArm, Withdraws);
      SinceStep(init, last, EndsInGap, WithdrawsLicense);
      SinceStep(init, last, CallsForRecovery, ReportsRecovery);
      assert init + [last] == log;
    }
  }

  lemma NothingSince()
    ensures !InVehicleMode([]) && !ArmRequested([]) && !Preserved([]) && !Outstanding([])
  {
  }

  /** Iterations completed after the j-th action. */
  function CompletedSince(log: Log, j: nat): nat {
    if |log| <= j + 1 then 0
    else CompletedSince(log[..|log| - 1], j) + if log[|log| - 1].Recorded? then 1 else 0
  }

  lemma IterationStep(f: Facts, a: Action)
    ensures Absorb(f, a).loop.iterations ==
            if a.ServiceCall? then 0 else f.loop.iterations + if a.Recorded? then 1 else 0
  {
    hide StandingAfter, LineAfter, RevokesGap, R.Request, R.Failed;
  }

  lemma {:induction false} IterationsMean(log: Log, j: nat)
    requires j < |log| && log[j].ServiceCall? && forall i :: j < i < |log| ==> !log[i].ServiceCall?
    ensures Read(log).loop.iterations == CompletedSince(log, j)
  {
    hide Absorb;
    var init, last := log[..|log| - 1], log[|log| - 1];
    IterationStep(Read(init), last);
    if j < |init| {
      assert init[j] == log[j] && forall i :: j < i < |init| ==> init[i] == log[i];
      IterationsMean(init, j);
    }
  }
}
