/** The restoration backoff of include/ioniq5_ecan/recovery_retry.hpp.
    Times are nanoseconds of the steady clock; `delay` counts whole seconds as the source does. */
module RecoveryRetryModel {
  import opened Arithmetic

  const SECOND: nat := 1_000_000_000
  const MAXIMUM_DELAY: nat := 30

  datatype Retry = Retry(pending: bool, failures: nat, nextAttempt: int, delay: nat)

  const IDLE := Retry(false, 0, 0, 1)

  function Request(s: Retry, now: int): Retry {
    if s.pending then s else Retry(true, 0, now, 1)
  }

  predicate Due(s: Retry, now: int) {
    s.pending && now >= s.nextAttempt
  }

  function Failed(s: Retry, now: int): Retry {
    if !s.pending then s
    else Retry(true, s.failures + 1, now + s.delay * SECOND,
               if s.delay >= MAXIMUM_DELAY - s.delay then MAXIMUM_DELAY else s.delay + s.delay)
  }

  function Restored(s: Retry): Retry {
    s.(pending := false)
  }

  /** The update in place that the functions above specify. */
  class RecoveryRetry {
    var pending: bool
    var failures: nat
    var nextAttempt: int
    var delay: nat

    ghost function Abs(): Retry
      reads this
    {
      Retry(pending, failures, nextAttempt, delay)
    }

    constructor ()
      ensures Abs() == IDLE
    {
      pending, failures, nextAttempt, delay := false, 0, 0, 1;
    }

    method RequestAt(now: int)
      modifies this
      ensures Abs() == Request(old(Abs()), now)
    {
      if pending { return; }
      pending := true;
      failures := 0;
      delay := 1;
      nextAttempt := now;
    }

    method IsDue(now: int) returns (due: bool)
      ensures due == Due(Abs(), now)
    {
      due := pending && now >= nextAttempt;
    }

    method FailedAt(now: int)
      modifies this
      ensures Abs() == Failed(old(Abs()), now)
    {
      if !pending { return; }
      failures := failures + 1;
      nextAttempt := now + delay * SECOND;
      delay := if delay >= MAXIMUM_DELAY - delay then MAXIMUM_DELAY else delay + delay;
    }

    method MarkRestored()
      modifies this
      ensures Abs() == Restored(old(Abs()))
    {
      pending := false;
    }
  }

  // ----- Outages: what a sequence of calls between `request` and `restored` does -----

  datatype Call = Requested(at: int) | Failure(at: int)

  function Apply(s: Retry, call: Call): Retry {
    match call
    case Requested(at) => Request(s, at)
    case Failure(at) => Failed(s, at)
  }

  function Outage(s: Retry, calls: seq<Call>): Retry
    decreases |calls|
  {
    if calls == [] then s
    else Apply(Outage(s, calls[..|calls| - 1]), calls[|calls| - 1])
  }

  /** The times of the failures among the calls, in order. */
  function FailureTimes(calls: seq<Call>): (times: seq<int>)
    decreases |calls|
  {
    if calls == [] then []
    else
      var last := calls[|calls| - 1];
      FailureTimes(calls[..|calls| - 1]) + if last.Failure? then [last.at] else []
  }

  /** The delay, in seconds, that the (n+1)-st failure of one outage imposes. */
  function Backoff(n: nat): nat {
    if Pow2(n) < MAXIMUM_DELAY then Pow2(n) else MAXIMUM_DELAY
  }

  lemma {:induction false} BackoffDoubles(n: nat)
    ensures 1 <= Backoff(n) <= MAXIMUM_DELAY
    ensures Backoff(n + 1) ==
            if Backoff(n) >= MAXIMUM_DELAY - Backoff(n) then MAXIMUM_DELAY else 2 * Backoff(n)
  {
    PowersPassTheCap(n);
  }

  lemma BackoffStarts()
    ensures Backoff(0) == 1
  {
  }

  lemma {:induction false} PowersPassTheCap(n: nat)
    ensures Pow2(n) == 1 || Pow2(n) == 2 || Pow2(n) == 4 || Pow2(n) == 8 || Pow2(n) == 16 || Pow2(n) >= 32
  {
    if n > 0 {
      PowersPassTheCap(n - 1);
    }
  }

  /** Whatever calls an outage consists of, the state is a function of the failures alone: the n-th
      failure fixes the next due time exactly Backoff(n-1) seconds after itself, and repeated
      requests neither shorten nor lengthen it. */
  lemma {:induction false} OutageState(before: Retry, start: int, calls: seq<Call>)
    requires !before.pending
    ensures var s := Outage(Request(before, start), calls);
            var times := FailureTimes(calls);
            && s.pending && s.failures == |times| && s.delay == Backoff(|times|)
            && s.nextAttempt ==
               if times == [] then start
               else times[|times| - 1] + Backoff(|times| - 1) * SECOND
    decreases |calls|
  {
    if calls != [] {
      var n := |FailureTimes(calls[..|calls| - 1])|;
      OutageState(before, start, calls[..|calls| - 1]);
      BackoffDoubles(n);
    }
  }

  /** Every failure of the outage happened at a moment the retry was due. */
  predicate AttemptsWhenDue(s: Retry, calls: seq<Call>)
    decreases |calls|
  {
    calls == [] ||
    (AttemptsWhenDue(s, calls[..|calls| - 1]) &&
     (calls[|calls| - 1].Failure? ==> Due(Outage(s, calls[..|calls| - 1]), calls[|calls| - 1].at)))
  }

  /** The sum of the first n delays, in seconds. */
  function TotalBackoff(n: nat): nat {
    if n == 0 then 0 else TotalBackoff(n - 1) + Backoff(n - 1)
  }

  /** Attempts made only when due are rate limited: the failures of one outage span at least the sum
      of all the delays before the last one, and the next attempt waits for the whole sum. */
  lemma {:induction false} OutageIsRateLimited(before: Retry, start: int, calls: seq<Call>)
    requires !before.pending && AttemptsWhenDue(Request(before, start), calls)
    ensures var times := FailureTimes(calls);
            times != [] ==>
              && start <= times[0]
              && times[|times| - 1] - times[0] >= TotalBackoff(|times| - 1) * SECOND
              && Outage(Request(before, start), calls).nextAttempt - times[0] >= TotalBackoff(|times|) * SECOND
    decreases |calls|
  {
    if calls != [] {
      var prefix := calls[..|calls| - 1];
      OutageIsRateLimited(before, start, prefix);
      OutageState(before, start, prefix);
      OutageState(before, start, calls);
      var times, n := FailureTimes(prefix), |FailureTimes(prefix)|;
      if calls[|calls| - 1].Failure? {
        assert FailureTimes(calls) == times + [calls[|calls| - 1].at];
        assert TotalBackoff(n + 1) == TotalBackoff(n) + Backoff(n);
      }
    }
  }

  /** An outage that follows a restoration starts over, whatever the earlier one went through. */
  lemma FreshOutageRestarts(s: Retry, calls: seq<Call>, now: int, first: int)
    ensures var again := Request(Restored(Outage(s, calls)), now);
            && Due(again, now)
            && Failed(again, first).nextAttempt == first + 1 * SECOND
            && Failed(again, first).failures == 1
  {
  }
}
