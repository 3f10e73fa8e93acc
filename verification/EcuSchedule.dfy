/** When the restoration attempts of the node happen, read off its log. */
module EcuSchedule {
  import opened EcuLedger
  import R = RecoveryRetryModel

  /** Failures since the last completed recovery. */
  function FailuresSince(log: Log): nat {
    if log == [] then 0
    else
      match log[|log| - 1]
      case RecoveryFailed(_) => FailuresSince(log[..|log| - 1]) + 1
      case Recovered => 0
      case _ => FailuresSince(log[..|log| - 1])
  }

  /** The last failure of the outage that is going on. */
  predicate LastFailureAt(log: Log, j: nat)
    requires j < |log|
  {
    log[j].RecoveryFailed? && forall i :: j < i < |log| ==> !log[i].RecoveryFailed? && !log[i].Recovered?
  }

  /** What one lawful action does to the schedule and to the stage of the attempts. */
  lemma ScheduleStep(f: Facts, before: Log, a: Action)
    requires LawfulAction(f, before, a)
    ensures var r, g := f.retry, Absorb(f, a);
            && (if a.RecoveryFailed? then
                  r.pending && f.stage.UnderWay? && g.stage.AtRest? && g.retry == R.Failed(r, a.at)
                else if a.Recovered? then !g.retry.pending
                else if r.pending then g.retry == r
                else g.retry.pending ==> g.retry.failures == 0 && g.retry.delay == 1)
            && (a.RetryDue? ==> R.Due(g.retry, a.at))
            && (Failing(g.retry) && !g.stage.AtRest? && !a.RetryDue? ==> !f.stage.AtRest?)
  {
  }

  lemma {:induction false} FailureCount(log: Log)
    requires Lawful(log)
    ensures var r := Read(log).retry;
            if r.pending then r.failures == FailuresSince(log) && r.delay == R.Backoff(r.failures)
            else FailuresSince(log) == 0
  {
    hide R.Backoff, Absorb, LawfulAction;
    assert R.Backoff(0) == 1 by { R.BackoffStarts(); }
    if log != [] {
      var init := log[..|log| - 1];
      FailureCount(init);
      ScheduleStep(Read(init), init, log[|log| - 1]);
      R.BackoffDoubles(Read(init).retry.failures);
    }
  }

  /** While an outage with failures goes on, the next attempt is fixed by the last failure. */
  lemma {:induction false} ScheduledByLastFailure(log: Log) returns (j: nat)
    requires Lawful(log) && Read(log).retry.pending && FailuresSince(log) > 0
    ensures j < |log| && LastFailureAt(log, j)
    ensures Read(log).retry.nextAttempt == log[j].at + R.Backoff(FailuresSince(log) - 1) * R.SECOND
  {
    hide R.Backoff, Absorb, LawfulAction;
    var init, last := log[..|log| - 1], log[|log| - 1];
    ScheduleStep(Read(init), init, last);
    FailureCount(init);
    if last.RecoveryFailed? {
      j := |log| - 1;
    } else {
      j := ScheduledByLastFailure(init);
      assert log[j] == init[j];
      forall i | j < i < |log| ensures !log[i].RecoveryFailed? && !log[i].Recovered? {
        if i < |init| { assert log[i] == init[i]; }
      }
    }
  }


  // ----- Attempts of an outage wait -----

  predicate EndsAttempt(a: Action) { a.RecoveryStarted? || a.RecoveryFailed? || a.Recovered? }

  /** An attempt was found due here, and none has been started or ended since. */
  predicate DueAt(log: Log, j: nat)
    requires j < |log|
  {
    log[j].RetryDue? && forall i :: j < i < |log| ==> !EndsAttempt(log[i])
  }

  lemma StageStep(f: Facts, a: Action)
    requires Absorb(f, a).stage == FoundDue
    ensures a.RetryDue? || (f.stage == FoundDue && !EndsAttempt(a))
  {
  }

  lemma {:induction false} FoundDueMeans(log: Log) returns (j: nat)
    requires Read(log).stage == FoundDue
    ensures j < |log| && DueAt(log, j)
  {
    hide Absorb;
    var init, last := log[..|log| - 1], log[|log| - 1];
    StageStep(Read(init), last);
    if last.RetryDue? {
      j := |log| - 1;
    } else {
      j := FoundDueMeans(init);
      assert forall i :: j <= i < |init| ==> log[i] == init[i];
    }
  }

  /** The k-th action found an attempt due; with failures in this outage, not before the whole backoff of the
      last one had passed. */
  predicate WaitedAt(log: Log, k: nat)
    requires k < |log|
  {
    var before := log[..k];
    log[k].RetryDue? &&
    (FailuresSince(before) > 0 ==>
       exists j :: 0 <= j < k && LastFailureAt(before, j) &&
                   log[k].at >= before[j].at + R.Backoff(FailuresSince(before) - 1) * R.SECOND)
  }

  lemma DueMeansWaited(log: Log, k: nat)
    requires Lawful(log) && k < |log| && log[k].RetryDue?
    ensures WaitedAt(log, k)
  {
    hide Read, R.Backoff, LastFailureAt;
    LawfulAt(log, k);
    var before := log[..k];
    if FailuresSince(before) > 0 {
      FailureCount(before);
      var j := ScheduledByLastFailure(before);
      assert 0 <= j < k && LastFailureAt(before, j);
    }
  }

  /** In an outage that has seen a failure no attempt starts before one has been found due for it, having
      waited for the backoff. */
  lemma AttemptWaited(log: Log, k: nat)
    requires Lawful(log) && k < |log| && log[k].RecoveryStarted? && FailuresSince(log[..k]) > 0
    ensures exists j :: 0 <= j < k && DueAt(log[..k], j) && WaitedAt(log[..k], j)
  {
    hide Read, Lawful, WaitedAt;
    LawfulAt(log, k);
    FailureCount(log[..k]);
    var j := FoundDueMeans(log[..k]);
    DueMeansWaited(log[..k], j);
  }

  // ----- The span of an outage -----

  predicate Timed(a: Action) { a.RecoveryStarted? || a.RecoveryFailed? || a.RetryDue? }

  /** The clock of the log does not run backwards. */
  predicate Chronological(log: Log) {
    forall i, j :: 0 <= i < j < |log| && Timed(log[i]) && Timed(log[j]) ==> log[i].at <= log[j].at
  }

  /** The first failure of the outage that is going on. */
  predicate FirstFailureAt(log: Log, j: nat)
    requires j < |log|
  {
    log[j].RecoveryFailed? && FailuresSince(log[..j]) == 0 && forall i :: j < i < |log| ==> !log[i].Recovered?
  }

  /** An attempt that was found due after a failure was found due at or after its scheduled time. */
  lemma {:induction false} AttemptAfterSchedule(log: Log) returns (j: nat)
    requires Lawful(log) && Failing(Read(log).retry) && !Read(log).stage.AtRest?
    ensures j < |log| && log[j].RetryDue? && log[j].at >= Read(log).retry.nextAttempt
  {
    hide Absorb, LawfulAction;
    var init, last := log[..|log| - 1], log[|log| - 1];
    ScheduleStep(Read(init), init, last);
    if last.RetryDue? {
      j := |log| - 1;
    } else {
      j := AttemptAfterSchedule(init);
      assert log[j] == init[j];
    }
  }

  lemma SumGrows(n: nat)
    ensures R.TotalBackoff(n + 1) * R.SECOND == R.TotalBackoff(n) * R.SECOND + R.Backoff(n) * R.SECOND
    ensures R.TotalBackoff(0) == 0
  {
  }

  /** When the clock is monotone, the next attempt of an outage with n failures lies at least the sum of the
      n delays behind the first of them. */
  lemma {:induction false} OutageSpans(log: Log) returns (j: nat)
    requires Lawful(log) && Chronological(log) && Failing(Read(log).retry)
    ensures j < |log| && FirstFailureAt(log, j)
    ensures Read(log).retry.nextAttempt - log[j].at >= R.TotalBackoff(Read(log).retry.failures) * R.SECOND
  {
    hide R.Backoff, R.TotalBackoff, Absorb, LawfulAction;
    var init, last := log[..|log| - 1], log[|log| - 1];
    ScheduleStep(Read(init), init, last);
    FailureCount(init);
    SumGrows(Read(init).retry.failures);
    if !Failing(Read(init).retry) {
      j := |log| - 1;
    } else {
      j := OutageSpans(init);
      assert init[..j] == log[..j];
      assert forall i :: j <= i < |init| ==> log[i] == init[i];
      if last.RecoveryFailed? {
        var k := AttemptAfterSchedule(init);
        assert log[k] == init[k];
      }
    }
  }
}
