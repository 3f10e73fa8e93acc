/** The SafetySupervisor class: fields rewritten in place through a long sequence of early returns,
    proved to compute the functions of Supervisor.dfy. */
module SupervisorObject {
  import opened Arithmetic
  import S = Supervisor

  class SafetySupervisor {
    const cfg: S.Config
    var control: S.ControlState
    var armRequested: bool
    var lateral: bool
    var longitudinal: bool
    var longitudinalLatchedOff: bool
    var lastLaneKeep: nat
    var lastSet: nat
    var lastCancel: nat
    var lastTxBlocked: nat
    var deadline: int
    var waiting: bool

    ghost function Abs(): S.State
      reads this
    {
      S.State(control, armRequested, lateral, longitudinal, longitudinalLatchedOff,
              lastLaneKeep, lastSet, lastCancel, lastTxBlocked, deadline, waiting)
    }

    /** The valid states: nothing is selected while disarmed and a fault is disarmed. */
    ghost predicate Valid()
      reads this
    {
      S.Consistent(Abs())
    }

    constructor (cfg: S.Config)
      ensures Valid() && this.cfg == cfg && Abs() == S.INITIAL
    {
      this.cfg := cfg;
      control := S.Disconnected;
      armRequested, lateral, longitudinal, longitudinalLatchedOff := false, false, false, false;
      lastLaneKeep, lastSet, lastCancel, lastTxBlocked := 0, 0, 0, 0;
      deadline, waiting := 0, false;
    }

    method Transition(next: S.ControlState)
      modifies this`control, this`deadline
      ensures Abs() == S.Transition(old(Abs()), next)
    {
      if next != S.SoftDisabling { deadline := 0; }
      control := next;
    }

    /** `disarm` and `fault`: both drop the arm request and the channels, then change state. */
    method Disarm(next: S.ControlState)
      modifies this`control, this`deadline, this`armRequested, this`lateral, this`longitudinal
      ensures Abs() == S.DisarmTo(old(Abs()), next)
    {
      armRequested := false;
      lateral := false;
      longitudinal := false;
      Transition(next);
    }

    method RequestArm(arm: bool) returns (accepted: bool)
      requires Valid()
      modifies this
      ensures Valid()
      ensures accepted == S.ArmAccepted(cfg, arm)
      ensures Abs() == S.RequestArm(cfg, old(Abs()), arm)
    {
      S.RequestArmKeepsConsistent(cfg, Abs(), arm);
      if arm && !cfg.allowActuation {
        Transition(S.Passive);
        return false;
      }
      if arm && control == S.Fault {
        Transition(S.Passive);
      }
      if arm && !armRequested {
        lateral := false;
        longitudinal := false;
        longitudinalLatchedOff := false;
      }
      armRequested := arm;
      if !arm {
        lateral := false;
        longitudinal := false;
        if control != S.Disconnected {
          Transition(S.Passive);
        }
      }
      return true;
    }

    /** A press is a counter that differs from the one seen last. */
    method ReadEvents(v: S.Vehicle) returns (laneEvent: bool, setEvent: bool, cancel: bool)
      modifies this`lastLaneKeep, this`lastSet, this`lastCancel
      ensures laneEvent == (v.laneKeepEvents != old(lastLaneKeep))
      ensures setEvent == (v.setEvents != old(lastSet))
      ensures cancel == (v.cancelEvents != old(lastCancel))
      ensures lastLaneKeep == v.laneKeepEvents && lastSet == v.setEvents && lastCancel == v.cancelEvents
    {
      laneEvent := v.laneKeepEvents != lastLaneKeep;
      if laneEvent { lastLaneKeep := v.laneKeepEvents; }
      setEvent := v.setEvents != lastSet;
      if setEvent { lastSet := v.setEvents; }
      cancel := v.cancelEvents != lastCancel;
      lastCancel := v.cancelEvents;
    }

    /** Buttons: resume mode mirrors Panda's selection, otherwise presses toggle the channels. */
    method SelectChannels(laneEvent: bool, setEvent: bool, v: S.Vehicle, p: S.Panda) returns (turnedOff: bool)
      modifies this`lateral, this`longitudinal, this`longitudinalLatchedOff
      ensures S.Channels(lateral, longitudinal, longitudinalLatchedOff, turnedOff) ==
              S.SelectChannels(cfg, armRequested,
                               S.Channels(old(lateral), old(longitudinal), old(longitudinalLatchedOff), false),
                               laneEvent, setEvent, v, p)
    {
      turnedOff := false;
      if cfg.resumeOnCommandReturn && armRequested {
        turnedOff := MirrorSelection(setEvent && !v.brakePressed && !v.accFault, p.lateralSelected,
                                     p.longitudinalSelected);
      }
      if !cfg.resumeOnCommandReturn && armRequested {
        turnedOff := PressButtons(laneEvent, setEvent);
      }
    }

    method PressButtons(laneEvent: bool, setEvent: bool) returns (turnedOff: bool)
      modifies this`lateral, this`longitudinal
      ensures S.Channels(lateral, longitudinal, longitudinalLatchedOff, turnedOff) ==
              S.PressButtons(cfg, S.Channels(old(lateral), old(longitudinal), longitudinalLatchedOff, false),
                             laneEvent, setEvent)
    {
      turnedOff := false;
      if laneEvent {
        turnedOff := cfg.lateralButtonToggle && lateral && !longitudinal;
        lateral := !turnedOff;
        longitudinal := false;
      }
      if setEvent {
        turnedOff := cfg.longitudinalButtonToggle && lateral && longitudinal;
        lateral := !turnedOff;
        longitudinal := !turnedOff;
      }
    }

    method MirrorSelection(release: bool, selectedLateral: bool, selectedLongitudinal: bool) returns (turnedOff: bool)
      modifies this`lateral, this`longitudinal, this`longitudinalLatchedOff
      ensures S.Channels(lateral, longitudinal, longitudinalLatchedOff, turnedOff) ==
              S.MirrorSelection(S.Channels(old(lateral), old(longitudinal), old(longitudinalLatchedOff), false),
                                release, selectedLateral, selectedLongitudinal)
    {
      if release {
        longitudinalLatchedOff := false;
      }
      turnedOff := (lateral || longitudinal) && !selectedLateral && !selectedLongitudinal;
      lateral := selectedLateral;
      longitudinal := selectedLongitudinal && !longitudinalLatchedOff;
    }

    method ReadPedals(v: S.Vehicle, ghost turnedOff: bool) returns (brakeTookLongitudinal: bool)
      modifies this`lateral, this`longitudinal, this`longitudinalLatchedOff
      ensures var c := S.Channels(old(lateral), old(longitudinal), old(longitudinalLatchedOff), turnedOff);
              var r := S.ApplyPedals(cfg, v, c);
              && brakeTookLongitudinal == r.1
              && S.Channels(lateral, longitudinal, longitudinalLatchedOff, turnedOff) == r.0
    {
      brakeTookLongitudinal := false;
      if v.brakePressed {
        if cfg.longitudinalDisengageOnBrake { longitudinalLatchedOff := true; }
        if cfg.lateralDisengageOnBrake { lateral := false; }
        if cfg.longitudinalDisengageOnBrake && longitudinal {
          longitudinal := false;
          brakeTookLongitudinal := true;
        }
      }
      if v.accFault && cfg.allowLongitudinal && longitudinal {
        longitudinalLatchedOff := true;
        longitudinal := false;
      }
    }

    /** Everything before the arm check. */
    method Observe(v: S.Vehicle, p: S.Panda) returns (cancel: bool)
      modifies this
      ensures Abs() == S.Observe(cfg, old(Abs()), v, p)
      ensures cancel == (v.cancelEvents != old(lastCancel))
    {
      var turnedOff, brakeTookLongitudinal;
      cancel, turnedOff, brakeTookLongitudinal := ReadVehicle(v, p);
      JudgeHealth(p, turnedOff, brakeTookLongitudinal);
    }

    method ReadVehicle(v: S.Vehicle, p: S.Panda)
      returns (cancel: bool, turnedOff: bool, brakeTookLongitudinal: bool)
      modifies this`lateral, this`longitudinal, this`longitudinalLatchedOff
      modifies this`lastLaneKeep, this`lastSet, this`lastCancel
      ensures var selected := S.Selected(cfg, old(Abs()), v, p);
              var r := S.ApplyPedals(cfg, v, selected);
              && S.Channels(lateral, longitudinal, longitudinalLatchedOff, turnedOff) ==
                 r.0
              && brakeTookLongitudinal == r.1
      ensures lastLaneKeep == v.laneKeepEvents && lastSet == v.setEvents && lastCancel == v.cancelEvents
      ensures cancel == (v.cancelEvents != old(lastCancel))
    {
      var laneEvent, setEvent;
      laneEvent, setEvent, cancel := ReadEvents(v);
      turnedOff := SelectChannels(laneEvent, setEvent, v, p);
      brakeTookLongitudinal := ReadPedals(v, turnedOff);
    }

    /** Panda faults and frames that Panda rejected while control was engaged. */
    method JudgeHealth(p: S.Panda, turnedOff: bool, brakeTookLongitudinal: bool)
      modifies this
      ensures Abs() == S.JudgeHealth(old(Abs()), p, turnedOff, brakeTookLongitudinal)
    {
      var effective := p.faults & !p.ignoredFaults;
      assert effective == S.EffectiveFaults(p);
      hide S.EffectiveFaults;
      var onlyIgnored := p.faults != 0 && effective == 0 && p.ignoredFaults != 0;
      if p.sessionBlocked || p.heartbeatLost || p.rxChecksInvalid || p.busOff || effective != 0 ||
         (p.faultStatus != 0 && !onlyIgnored) {
        Disarm(S.Fault);
      } else if S.Engaged(control) && p.txBlocked > lastTxBlocked {
        var known := p.lastRejectedAddress == S.LFA_ADDRESS || p.lastRejectedAddress == S.SCC_ADDRESS ||
                     p.lastRejectedAddress == S.FCA_ADDRESS;
        var longitudinalAddress := p.lastRejectedAddress == S.SCC_ADDRESS || p.lastRejectedAddress == S.FCA_ADDRESS;
        if turnedOff && !lateral && !longitudinal && known {
        } else if (longitudinalAddress || brakeTookLongitudinal) && lateral {
          longitudinal := false;
          longitudinalLatchedOff := true;
        } else {
          Disarm(S.Fault);
        }
      }
      lastTxBlocked := p.txBlocked;
    }

    method Update(now: int, v: S.Vehicle, p: S.Panda, c: S.Command) returns (d: S.Decision)
      requires Valid()
      modifies this
      ensures Valid()
      ensures S.Outcome(Abs(), d) == S.Update(cfg, old(Abs()), S.Inputs(now, v, p, c))
    {
      S.UpdateKeepsConsistent(cfg, Abs(), S.Inputs(now, v, p, c));
      var verdict := Assess(now, v, p, c);
      d := S.Report(cfg, Snapshot(), verdict, now);
    }

    /** All state changes of one update, with the verdict that explains them. */
    method Assess(now: int, v: S.Vehicle, p: S.Panda, c: S.Command) returns (verdict: S.Verdict)
      modifies this
      ensures var r := S.Assess(cfg, old(Abs()), S.Inputs(now, v, p, c));
              verdict == r.1 && Abs() == S.Perform(r.0, verdict)
    {
      waiting := false;
      if !S.PandaFresh(cfg, now, p) {
        Disarm(S.Disconnected);
        return S.Off(S.Disconnected);
      }
      if !cfg.allowActuation {
        Disarm(S.Passive);
        return S.Off(S.Passive);
      }
      var cancel := Observe(v, p);
      verdict := Decide(cancel, now, v, p, c);
    }

    /** The fields as a value, for the decision's report. */
    function Snapshot(): (s: S.State)
      reads this
      ensures s == Abs()
    {
      S.State(control, armRequested, lateral, longitudinal, longitudinalLatchedOff,
              lastLaneKeep, lastSet, lastCancel, lastTxBlocked, deadline, waiting)
    }

    /** From the arm check to the last line: each early return of the source is one return here. */
    method Decide(cancel: bool, now: int, v: S.Vehicle, p: S.Panda, c: S.Command) returns (verdict: S.Verdict)
      modifies this
      ensures verdict == S.Admit(cfg, old(Abs()), cancel, S.Inputs(now, v, p, c))
      ensures Abs() == S.Perform(old(Abs()), verdict)
    {
      if !armRequested {
        if control != S.Fault {
          Transition(S.Passive);
          return S.To(S.Passive);
        }
        return S.Stay;
      }
      if p.harnessStatus != cfg.requiredHarnessStatus {
        Disarm(S.Fault);
        return S.Off(S.Fault);
      }
      if cfg.resumeOnCommandReturn && !p.ignitionOn {
        Disarm(S.Fault);
        return S.Off(S.Fault);
      }
      if control == S.Fault {
        return S.Stay;
      }
      if !v.valid {
        Disarm(S.Fault);
        return S.Off(S.Fault);
      }
      if cfg.maxActiveSpeed > 0.0 && v.speed > cfg.maxActiveSpeed {
        Disarm(S.Fault);
        return S.Off(S.Fault);
      }
      if cfg.maxAbsSteeringAngle > 0.0 && AbsReal(v.steeringAngle) >= cfg.maxAbsSteeringAngle {
        Disarm(S.Fault);
        return S.Off(S.Fault);
      }
      if cfg.disengageOnCancel && cancel {
        Disarm(S.Passive);
        return S.Off(S.Passive);
      }
      var configured := S.ConfiguredMode(cfg, p);
      var standby := S.StandbyMode(cfg, p);
      if !configured && (!standby || S.Engaged(control)) {
        if S.Engaged(control) || cfg.resumeOnCommandReturn {
          Disarm(S.Fault);
          return S.Off(S.Fault);
        }
        Transition(S.Armed);
        return S.To(S.Armed);
      }
      verdict := DecideCommand(standby, now, v, p, c);
    }

    method DecideCommand(standby: bool, now: int, v: S.Vehicle, p: S.Panda, c: S.Command)
      returns (verdict: S.Verdict)
      requires standby == S.StandbyMode(cfg, p)
      modifies this
      ensures verdict == S.AdmitCommand(cfg, old(Abs()), S.Inputs(now, v, p, c))
      ensures Abs() == S.Perform(old(Abs()), verdict)
    {
      if !S.CommandFresh(cfg, now, c) {
        if cfg.resumeOnCommandReturn && control != S.SoftDisabling && !v.epsFault {
          waiting := true;
          Transition(S.Passive);
          return S.Wait;
        } else if S.Engaged(control) {
          Disarm(S.Fault);
          return S.Off(S.Fault);
        } else {
          Disarm(S.Passive);
          return S.Off(S.Passive);
        }
      }
      if !c.valid {
        Disarm(S.Fault);
        return S.Off(S.Fault);
      }
      if !c.enable {
        Transition(S.Armed);
        return S.Hold;
      }
      if standby {
        Transition(S.Armed);
        return S.To(S.Armed);
      }
      if cfg.resumeOnCommandReturn && !p.sessionReady {
        if S.Engaged(control) {
          Disarm(S.Fault);
          return S.Off(S.Fault);
        }
        Transition(S.Armed);
        return S.Hold;
      }
      if !lateral && !(cfg.allowLongitudinal && longitudinal) {
        Transition(S.Armed);
        return S.Hold;
      }
      verdict := Engage(now, v, p);
    }

    method Engage(now: int, v: S.Vehicle, p: S.Panda) returns (verdict: S.Verdict)
      modifies this`control, this`deadline, this`armRequested, this`lateral, this`longitudinal
      ensures verdict == S.Engage(cfg, old(Abs()), now, v, p)
      ensures Abs() == S.Perform(old(Abs()), verdict)
    {
      var requested := cfg.allowLongitudinal && longitudinal;
      if v.epsFault && control != S.SoftDisabling {
        if control != S.Active {
          Transition(S.Armed);
          return S.Hold;
        }
        deadline := now + S.SOFT_DISABLE_TIME;
        Transition(S.SoftDisabling);
      }
      if control == S.SoftDisabling {
        if now >= deadline {
          Disarm(S.Fault);
          return S.Off(S.Fault);
        }
        if v.epsFault || !p.controlsAllowed {
          var permitted := requested && p.controlsAllowed && !(cfg.longitudinalOverrideOnGas && v.gasPressed);
          Transition(S.SoftDisabling);
          return S.Pause(deadline, permitted);
        }
      }
      if !p.controlsAllowed {
        Transition(S.Armed);
        return S.Hold;
      }
      var permitted := requested && !(cfg.longitudinalOverrideOnGas && v.gasPressed);
      if !lateral && !permitted {
        Transition(S.Armed);
        return S.Hold;
      }
      Transition(S.Active);
      return S.Run(permitted);
    }
  }
}
