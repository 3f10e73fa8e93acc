/** The health sample shared by the receive thread and the control thread of src/node.cpp.

    A safety transition raises `safety_transition_epoch_` when it begins and when it ends. The receive
    thread reads the epoch, reads Panda's health, then rechecks the epoch and stores the sample while it
    holds `health_mutex_`. The control thread stores its own sample, also under the mutex. Every one of
    these is a separate step here; `clock` orders them and stamps each sample with the moment it was
    read from Panda. */
module HealthEpoch {

  /** What `latest_health_` holds: a sample, or the default value written after a disconnection. */
  datatype Health = Default | Sample(readAt: nat)

  datatype Receiver =
    | Idle
    | SawEpoch(epoch: nat)
    | Read(epoch: nat, readAt: nat)
    | Locked(epoch: nat, readAt: nat)
    | Checked(readAt: nat, checkedAt: nat)

  datatype Controller =
    | Outside
    | Inside
    | HoldsSample(readAt: nat, inside: bool)
    | Left
    | Storing(readAt: nat, inside: bool)

  datatype State = State(
    clock: nat,
    epoch: nat,
    latest: Health,
    receiver: Receiver,
    controller: Controller,
    began: nat,
    storedFor: nat)

  const INITIAL := State(1, 0, Default, Idle, Outside, 0, 0)

  datatype Step =
    | ReadEpoch
    | ReadHealth
    | LockHealth
    | Recheck
    | Store
    | GiveUp
    | Disconnect
    | Begin
    | ReadOwn
    | LockOwn
    | StoreOwn
    | End
    | Finish

  predicate ReceiverLocks(s: State) { s.receiver.Locked? || s.receiver.Checked? }

  predicate ControllerLocks(s: State) { s.controller.Storing? }

  predicate InTransition(c: Controller) {
    c.Inside? || (c.HoldsSample? && c.inside) || (c.Storing? && c.inside)
  }

  predicate Enabled(s: State, step: Step) {
    match step
    case ReadEpoch => s.receiver.Idle?
    case ReadHealth => s.receiver.SawEpoch?
    case LockHealth => s.receiver.Read? && !ControllerLocks(s)
    case Recheck => s.receiver.Locked?
    case Store => s.receiver.Checked?
    // A failing read abandons the sample; so does the disconnection that follows, which stores the default.
    case GiveUp => s.receiver.SawEpoch? || s.receiver.Read?
    case Disconnect => s.receiver.Idle? && !ControllerLocks(s)
    case Begin => s.controller.Outside?
    case ReadOwn => s.controller.Inside? || s.controller.Left?
    case LockOwn => s.controller.HoldsSample? && !ReceiverLocks(s)
    case StoreOwn => s.controller.Storing?
    case End => s.controller.Inside?
    case Finish => s.controller.Left? || (s.controller.HoldsSample? && !s.controller.inside)
  }

  /** The recheck passes only in an even epoch that has not moved; StoreOwn serves the transition that
      began last. After its store the control thread is inside its transition again, or done with it. */
  function Next(s: State, step: Step): State
    requires Enabled(s, step)
  {
    var t := s.(clock := s.clock + 1);
    match step
    case ReadEpoch => t.(receiver := SawEpoch(s.epoch))
    case ReadHealth => t.(receiver := Read(s.receiver.epoch, s.clock))
    case LockHealth => t.(receiver := Locked(s.receiver.epoch, s.receiver.readAt))
    case Recheck =>
      t.(receiver := if s.receiver.epoch % 2 == 0 && s.receiver.epoch == s.epoch
                     then Checked(s.receiver.readAt, s.clock) else Idle)
    case Store => t.(latest := Sample(s.receiver.readAt), receiver := Idle)
    case GiveUp => t.(receiver := Idle)
    case Disconnect => t.(latest := Default)
    case Begin => t.(epoch := s.epoch + 1, began := s.clock, controller := Inside)
    case ReadOwn => t.(controller := HoldsSample(s.clock, s.controller.Inside?))
    case LockOwn => t.(controller := Storing(s.controller.readAt, s.controller.inside))
    case StoreOwn =>
      t.(latest := Sample(s.controller.readAt), storedFor := s.began,
         controller := if s.controller.inside then Inside else Outside)
    case End => t.(epoch := s.epoch + 1, controller := Left)
    case Finish => t.(controller := Outside)
  }

  /** The state after the steps; a step that is not enabled does not happen. */
  function Run(s: State, steps: seq<Step>): State
    decreases |steps|
  {
    if steps == [] then s
    else
      var before := Run(s, steps[..|steps| - 1]);
      if Enabled(before, steps[|steps| - 1]) then Next(before, steps[|steps| - 1]) else before
  }

  /** A sample whose epoch still stands was read after the last transition began, and a sample that has
      passed the recheck was read after the last transition that the control thread stored for. */
  predicate Invariant(s: State) {
    && s.storedFor <= s.began < s.clock
    && (s.epoch % 2 == 1 <==> InTransition(s.controller))
    && (s.latest.Sample? ==> s.latest.readAt < s.clock && s.storedFor <= s.latest.readAt)
    && (match s.receiver
        case Idle => true
        case SawEpoch(epoch) => epoch <= s.epoch
        case Read(epoch, readAt) => SampleOrdered(s, epoch, readAt)
        case Locked(epoch, readAt) => SampleOrdered(s, epoch, readAt)
        case Checked(readAt, checkedAt) =>
          s.storedFor <= readAt < checkedAt < s.clock && (s.began <= checkedAt ==> s.began <= readAt))
    && (match s.controller
        case HoldsSample(readAt, _) => s.began <= readAt < s.clock
        case Storing(readAt, _) => s.began <= readAt < s.clock && !ReceiverLocks(s)
        case _ => true)
  }

  predicate SampleOrdered(s: State, epoch: nat, readAt: nat) {
    && epoch <= s.epoch && readAt < s.clock
    && (epoch % 2 == 0 && epoch == s.epoch ==> s.began <= readAt)
  }

  lemma InvariantStep(s: State, step: Step)
    requires Invariant(s) && Enabled(s, step)
    ensures Invariant(Next(s, step))
  {
  }

  lemma {:induction false} InvariantAlways(steps: seq<Step>)
    ensures Invariant(Run(INITIAL, steps))
    decreases |steps|
  {
    if steps != [] {
      InvariantAlways(steps[..|steps| - 1]);
      var before := Run(INITIAL, steps[..|steps| - 1]);
      if Enabled(before, steps[|steps| - 1]) {
        InvariantStep(before, steps[|steps| - 1]);
      }
    }
  }

  /** Stale-health exclusion in every interleaving: once the control thread has stored its own sample
      for a transition, the shared health never again holds a sample read before that transition began.
      The default value that a disconnection writes is the only other content. */
  lemma StaleHealthExcluded(steps: seq<Step>, more: seq<Step>)
    requires var s := Run(INITIAL, steps); Enabled(s, StoreOwn)
    ensures var began := Run(INITIAL, steps).began;
            var later := Run(INITIAL, steps + [StoreOwn] + more);
            later.latest == Default || later.latest.readAt >= began
  {
    var s := Run(INITIAL, steps);
    var stored := steps + [StoreOwn];
    assert stored[..|stored| - 1] == steps;
    assert Run(INITIAL, stored) == Next(s, StoreOwn);
    StoredForGrows(stored, more);
    InvariantAlways(stored + more);
  }

  lemma {:induction false} StoredForGrows(steps: seq<Step>, more: seq<Step>)
    ensures Run(INITIAL, steps).storedFor <= Run(INITIAL, steps + more).storedFor
    decreases |more|
  {
    if more == [] {
      assert steps + more == steps;
    } else {
      var all := steps + more;
      assert all[..|all| - 1] == steps + more[..|more| - 1];
      StoredForGrows(steps, more[..|more| - 1]);
      InvariantAlways(all[..|all| - 1]);
    }
  }

  /** Exactly when the epoch check fails: what a receiver is about to store was read before the last
      transition began if and only if it passed its recheck before that transition began. */
  lemma StaleStoreExactly(s: State)
    requires Invariant(s) && Enabled(s, Store)
    ensures var t := Next(s, Store);
            t.latest.Sample? && (t.latest.readAt < t.began <==> s.receiver.checkedAt < t.began)
  {
  }

  /** So, in every run, of everything that is stored. */
  lemma StaleStoreExactlyInRuns(steps: seq<Step>)
    requires Enabled(Run(INITIAL, steps), Store)
    ensures var s := Run(INITIAL, steps);
            var t := Run(INITIAL, steps + [Store]);
            t.latest.Sample? && (t.latest.readAt < t.began <==> s.receiver.checkedAt < t.began)
  {
    hide Run, Invariant;
    InvariantAlways(steps);
    StaleStoreExactly(Run(INITIAL, steps));
    RunAppend(INITIAL, steps, Store);
  }

  // ----- A transition that stores no sample of its own -----

  function RunFrom(s: State, steps: seq<Step>): State
    decreases |steps|
  {
    if steps == [] then s else RunFrom(if Enabled(s, steps[0]) then Next(s, steps[0]) else s, steps[1..])
  }

  lemma RunAppend(s: State, steps: seq<Step>, step: Step)
    ensures var before := Run(s, steps);
            Run(s, steps + [step]) == if Enabled(before, step) then Next(before, step) else before
  {
    assert (steps + [step])[..|steps|] == steps;
  }

  /** Running on from the end of a run. */
  lemma {:induction false} RunOn(s: State, steps: seq<Step>, more: seq<Step>)
    ensures RunFrom(Run(s, steps), more) == Run(s, steps + more)
    decreases |more|
  {
    if more == [] {
      assert steps + more == steps;
    } else {
      RunAppend(s, steps, more[0]);
      RunOn(s, steps + [more[0]], more[1..]);
      assert steps + [more[0]] + more[1..] == steps + more;
    }
  }

  /** What the receive thread may still have to do before it is idle. */
  function Drain(r: Receiver): seq<Step> {
    match r
    case Idle => []
    case SawEpoch(_) => [GiveUp]
    case Read(_, _) => [GiveUp]
    case Locked(_, _) => [Recheck, Store]
    case Checked(_, _) => [Store]
  }

  lemma DrainIdles(s: State)
    requires s.controller == Outside
    ensures var t := RunFrom(s, Drain(s.receiver));
            t.receiver == Idle && t.controller == Outside && t.clock >= s.clock && t.epoch == s.epoch
  {
    var d := Drain(s.receiver);
    if s.receiver.Locked? {
      var t := Next(s, Recheck);
      assert d[1..] == [Store] && d[1..][1..] == [];
      assert RunFrom(s, d) == RunFrom(t, [Store]);
      assert [Store][1..] == [];
      assert RunFrom(t, [Store]) == if Enabled(t, Store) then Next(t, Store) else t;
    } else if s.receiver != Idle {
      assert d[1..] == [];
    }
  }

  /** A transition between the recheck and the store. */
  const STRADDLE: seq<Step> := [ReadEpoch, ReadHealth, LockHealth, Recheck, Begin, End, Finish, Store]

  lemma StraddleIsStale(s: State)
    requires s.receiver == Idle && s.controller == Outside && s.epoch % 2 == 0
    ensures var t := RunFrom(s, STRADDLE);
            t.latest == Sample(s.clock + 1) && t.began == s.clock + 4 && t.controller == Outside
  {
    hide RunFrom, Next, Enabled;
    ReceiverHalf(s);
    FromFour(s, ReadEpoch, ReadHealth, LockHealth, Recheck, [Begin, End, Finish, Store]);
    assert STRADDLE == [ReadEpoch, ReadHealth, LockHealth, Recheck] + [Begin, End, Finish, Store];
    var s4 := Next(Next(Next(Next(s, ReadEpoch), ReadHealth), LockHealth), Recheck);
    TransitionHalf(s4);
    FromFour(s4, Begin, End, Finish, Store, []);
    assert [Begin, End, Finish, Store] + [] == [Begin, End, Finish, Store];
    FromNothing(Next(Next(Next(Next(s4, Begin), End), Finish), Store));
  }

  lemma FromNothing(s: State)
    ensures RunFrom(s, []) == s
  {
  }

  lemma ReceiverHalf(s: State)
    requires s.receiver == Idle && s.controller == Outside && s.epoch % 2 == 0
    ensures Enabled(s, ReadEpoch) && Enabled(Next(s, ReadEpoch), ReadHealth)
    ensures Enabled(Next(Next(s, ReadEpoch), ReadHealth), LockHealth)
    ensures Enabled(Next(Next(Next(s, ReadEpoch), ReadHealth), LockHealth), Recheck)
    ensures Next(Next(Next(Next(s, ReadEpoch), ReadHealth), LockHealth), Recheck) ==
            s.(clock := s.clock + 4, receiver := Checked(s.clock + 1, s.clock + 3))
  {
    assert Next(s, ReadEpoch) == s.(clock := s.clock + 1, receiver := SawEpoch(s.epoch));
    assert Next(Next(s, ReadEpoch), ReadHealth) == s.(clock := s.clock + 2, receiver := Read(s.epoch, s.clock + 1));
  }

  lemma TransitionHalf(s: State)
    requires s.receiver.Checked? && s.controller == Outside
    ensures Enabled(s, Begin) && Enabled(Next(s, Begin), End) && Enabled(Next(Next(s, Begin), End), Finish)
    ensures Enabled(Next(Next(Next(s, Begin), End), Finish), Store)
    ensures Next(Next(Next(Next(s, Begin), End), Finish), Store) ==
            s.(clock := s.clock + 4, epoch := s.epoch + 2, began := s.clock, latest := Sample(s.receiver.readAt),
               receiver := Idle)
  {
    assert Next(s, Begin) == s.(clock := s.clock + 1, epoch := s.epoch + 1, began := s.clock, controller := Inside);
    assert Next(Next(s, Begin), End) ==
           s.(clock := s.clock + 2, epoch := s.epoch + 2, began := s.clock, controller := Left);
  }

  lemma FromFour(s: State, a: Step, b: Step, c: Step, d: Step, rest: seq<Step>)
    requires Enabled(s, a) && Enabled(Next(s, a), b) && Enabled(Next(Next(s, a), b), c)
    requires Enabled(Next(Next(Next(s, a), b), c), d)
    ensures RunFrom(s, [a, b, c, d] + rest) == RunFrom(Next(Next(Next(Next(s, a), b), c), d), rest)
  {
    hide Next, Enabled;
    var all := [a, b, c, d] + rest;
    assert all[1..] == [b, c, d] + rest && all[1..][1..] == [c, d] + rest && all[1..][1..][1..] == [d] + rest;
    assert all[1..][1..][1..][1..] == rest;
    assert RunFrom(s, all) == RunFrom(Next(s, a), all[1..]);
    assert RunFrom(Next(s, a), all[1..]) == RunFrom(Next(Next(s, a), b), all[1..][1..]);
    assert RunFrom(Next(Next(s, a), b), all[1..][1..]) == RunFrom(Next(Next(Next(s, a), b), c), all[1..][1..][1..]);
  }

  predicate StoresNothingOfItsOwn(steps: seq<Step>) { StoreOwn !in steps && ReadOwn !in steps }

  /** The store is needed at every transition: from whatever point a run has reached outside a transition,
      there is a continuation with one transition that stores nothing of its own, after which the shared
      health holds a sample read before that transition began. */
  lemma EpochCheckAloneIsNotEnough(steps: seq<Step>) returns (more: seq<Step>)
    requires Run(INITIAL, steps).controller == Outside
    ensures StoresNothingOfItsOwn(more)
    ensures var s, t := Run(INITIAL, steps), Run(INITIAL, steps + more);
            t.latest.Sample? && s.clock <= t.latest.readAt < t.began && t.controller == Outside
  {
    hide Run, RunFrom, Invariant;
    var s := Run(INITIAL, steps);
    InvariantAlways(steps);
    OutsideIsEven(s);
    var drain := Drain(s.receiver);
    DrainIdles(s);
    var idle := RunFrom(s, drain);
    StraddleIsStale(idle);
    more := drain + STRADDLE;
    RunOn(INITIAL, steps, drain);
    RunOn(INITIAL, steps + drain, STRADDLE);
    assert steps + drain + STRADDLE == steps + more;
  }

  lemma OutsideIsEven(s: State)
    requires Invariant(s) && s.controller == Outside
    ensures s.epoch % 2 == 0
  {
  }

  /** The control thread can store a sample of its own in every transition: from whatever point a run has reached
      outside a transition, the next one can do so before it ends or after, and the shared health then holds what was
      read since it began. */
  lemma OwnSampleCanBeStored(steps: seq<Step>) returns (within: seq<Step>, behind: seq<Step>)
    requires Run(INITIAL, steps).controller == Outside
    ensures var s, t := Run(INITIAL, steps), Run(INITIAL, steps + within);
            && t.controller == Inside && t.epoch == s.epoch + 1
            && s.clock <= t.began == t.storedFor && t.latest == Sample(t.began + 1)
    ensures var s, t := Run(INITIAL, steps), Run(INITIAL, steps + behind);
            && t.controller == Outside && t.epoch == s.epoch + 2
            && s.clock <= t.began == t.storedFor && t.latest == Sample(t.began + 2)
  {
    hide Run, RunFrom, Next, Enabled;
    var drain := Drain(Run(INITIAL, steps).receiver);
    DrainIdles(Run(INITIAL, steps));
    RunOn(INITIAL, steps, drain);
    var idle := RunFrom(Run(INITIAL, steps), drain);
    StoresWithin(idle);
    within := drain + [Begin, ReadOwn, LockOwn, StoreOwn];
    FromFour(idle, Begin, ReadOwn, LockOwn, StoreOwn, []);
    assert [Begin, ReadOwn, LockOwn, StoreOwn] + [] == [Begin, ReadOwn, LockOwn, StoreOwn];
    FromNothing(Next(Next(Next(Next(idle, Begin), ReadOwn), LockOwn), StoreOwn));
    RunOn(INITIAL, steps + drain, [Begin, ReadOwn, LockOwn, StoreOwn]);
    assert steps + drain + [Begin, ReadOwn, LockOwn, StoreOwn] == steps + within;
    StoresBehind(idle);
    behind := drain + ([Begin, End, ReadOwn, LockOwn] + [StoreOwn]);
    FromFour(idle, Begin, End, ReadOwn, LockOwn, [StoreOwn]);
    FromOne(Next(Next(Next(Next(idle, Begin), End), ReadOwn), LockOwn), StoreOwn);
    RunOn(INITIAL, steps + drain, [Begin, End, ReadOwn, LockOwn] + [StoreOwn]);
    assert steps + drain + ([Begin, End, ReadOwn, LockOwn] + [StoreOwn]) == steps + behind;
  }

  lemma FromOne(s: State, a: Step)
    requires Enabled(s, a)
    ensures RunFrom(s, [a]) == Next(s, a)
  {
    assert [a][1..] == [];
  }

  lemma StoresWithin(s: State)
    requires s.receiver == Idle && s.controller == Outside
    ensures Enabled(s, Begin) && Enabled(Next(s, Begin), ReadOwn) && Enabled(Next(Next(s, Begin), ReadOwn), LockOwn)
    ensures Enabled(Next(Next(Next(s, Begin), ReadOwn), LockOwn), StoreOwn)
    ensures Next(Next(Next(Next(s, Begin), ReadOwn), LockOwn), StoreOwn) ==
            s.(clock := s.clock + 4, epoch := s.epoch + 1, began := s.clock, storedFor := s.clock,
               latest := Sample(s.clock + 1), controller := Inside)
  {
    assert Next(s, Begin) == s.(clock := s.clock + 1, epoch := s.epoch + 1, began := s.clock, controller := Inside);
    assert Next(Next(s, Begin), ReadOwn).controller == HoldsSample(s.clock + 1, true);
  }

  lemma StoresBehind(s: State)
    requires s.receiver == Idle && s.controller == Outside
    ensures Enabled(s, Begin) && Enabled(Next(s, Begin), End) && Enabled(Next(Next(s, Begin), End), ReadOwn)
    ensures Enabled(Next(Next(Next(s, Begin), End), ReadOwn), LockOwn)
    ensures Enabled(Next(Next(Next(Next(s, Begin), End), ReadOwn), LockOwn), StoreOwn)
    ensures Next(Next(Next(Next(Next(s, Begin), End), ReadOwn), LockOwn), StoreOwn) ==
            s.(clock := s.clock + 5, epoch := s.epoch + 2, began := s.clock, storedFor := s.clock,
               latest := Sample(s.clock + 2), controller := Outside)
  {
    assert Next(s, Begin) == s.(clock := s.clock + 1, epoch := s.epoch + 1, began := s.clock, controller := Inside);
    assert Next(Next(s, Begin), End).controller == Left;
    assert Next(Next(Next(s, Begin), End), ReadOwn).controller == HoldsSample(s.clock + 2, false);
  }
}
