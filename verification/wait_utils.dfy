/** The polling and retry engine of the framework's wait utilities.

    Each loop is modelled as a terminating recursive function over
    - `clock: nat -> real`, the readings successive clock reads return during
      the call (see module Clock for where each loop reads it), and
    - the outcomes of the caller's callables, `Ok(value)` or `Raised(error)`,
      indexed by the polling round (or, for the retry wrapper, the attempt)
      in which they are called.
    A result records the value returned or the exception raised, and how many
    rounds the loop entered. */
module WaitUtils {
  import opened Outcomes
  import opened Clock
  import Decimal

  /** Round k of a once-per-round polling loop is entered when its loop check,
      clock reading k + 1, finds less than `timeout` seconds gone since the
      start reading. */
  predicate RoundStarts(clock: nat -> real, timeout: int, k: nat) {
    clock(k + 1) - clock(0) < timeout as real
  }

  /** Once a round's check finds the deadline passed, so do all later ones. */
  lemma RoundsStopForGood(clock: nat -> real, timeout: int, j: nat, k: nat)
    requires Monotone(clock) && j <= k && RoundStarts(clock, timeout, k)
    ensures RoundStarts(clock, timeout, j)
  {
  }

  /** A polling loop enters round k only if k sleeps fit in the timeout, so a
      loop makes at most one call per `pollInterval` of its timeout, plus one. */
  lemma StartedRoundsFitTimeout(clock: nat -> real, timeout: int, pollInterval: real, k: nat)
    requires PollClock(clock, pollInterval) && RoundStarts(clock, timeout, k)
    ensures k as real * pollInterval < timeout as real
  {
    ChecksSpreadOut(clock, pollInterval, k);
    assert clock(0) <= clock(1);
  }

  // ---------------------------------------------------------------------
  // The polling loop that wait_for_condition, wait_for_any and wait_for_all
  // share: while the clock check finds time left, make one round of calls,
  // then sleep for the poll interval.

  /** What one round of a polling loop decides: the wait returns `value`, an
      exception the round's `except Exception` clause does not catch ends it,
      or the loop sleeps and polls again. */
  datatype Step<+T, +E> = Return(value: T) | Escape(error: Thrown<E>) | PollAgain

  /** The polling loop from round k on; `step(j)` is what round j decides.
      When a clock check finds the deadline passed, the loop raises
      TimeoutError with `message`. */
  function PollRounds<T, E>(step: nat -> Step<T, E>, clock: nat -> real, timeout: int, pollInterval: real,
                            message: string, k: nat): (r: Run<T, Thrown<E>>)
    requires pollInterval > 0.0 && PollClock(clock, pollInterval)
    ensures k <= r.rounds
    ensures forall j :: k <= j < r.rounds ==> RoundStarts(clock, timeout, j)
    ensures forall j :: k <= j < r.rounds - 1 ==> step(j).PollAgain?
    ensures r.result.Ok? ==> k < r.rounds && step(r.rounds - 1) == Return(r.result.value)
    ensures r.result.Raised? && r.result.error.Propagated? ==>
      k < r.rounds && step(r.rounds - 1) == Escape(r.result.error.error)
    ensures r.result.Raised? && r.result.error.TimeoutError? ==>
      && r.result.error.message == message
      && !RoundStarts(clock, timeout, r.rounds)
      && forall j :: k <= j < r.rounds ==> step(j).PollAgain?
    decreases Budget(clock(k + 1), clock(0) + timeout as real, pollInterval)
  {
    if !RoundStarts(clock, timeout, k) then
      Run(Raised(TimeoutError(message)), k)
    else
      match step(k)
      case Return(v) => Run(Ok(v), k + 1)
      case Escape(e) => Run(Raised(Propagated(e)), k + 1)
      case PollAgain =>
        BudgetShrinks(clock(k + 1), clock(k + 2), clock(0) + timeout as real, pollInterval);
        PollRounds(step, clock, timeout, pollInterval, message, k + 1)
  }

  /** A round begun before the deadline that does not poll again ends the
      loop, unless an earlier round has: the loop does not time out and
      enters no later round. */
  lemma PollRoundsDecideBy<T, E>(step: nat -> Step<T, E>, clock: nat -> real, timeout: int, pollInterval: real,
                                 message: string, k: nat, j: nat)
    requires pollInterval > 0.0 && PollClock(clock, pollInterval)
    requires k <= j && RoundStarts(clock, timeout, j) && !step(j).PollAgain?
    ensures var r := PollRounds(step, clock, timeout, pollInterval, message, k);
      r.rounds <= j + 1 && !(r.result.Raised? && r.result.error.TimeoutError?)
  {
    var r := PollRounds(step, clock, timeout, pollInterval, message, k);
    if r.result.Raised? && r.result.error.TimeoutError? && r.rounds <= j {
      RoundsStopForGood(clock, timeout, r.rounds, j);
    }
  }

  /** The loop depends on nothing but what each round decides. */
  lemma {:induction false} PollRoundsSeeOnlySteps<T, E>(s1: nat -> Step<T, E>, s2: nat -> Step<T, E>,
                                                        clock: nat -> real, timeout: int, pollInterval: real,
                                                        message: string, k: nat)
    requires pollInterval > 0.0 && PollClock(clock, pollInterval)
    requires forall j :: s1(j) == s2(j)
    ensures PollRounds(s1, clock, timeout, pollInterval, message, k)
         == PollRounds(s2, clock, timeout, pollInterval, message, k)
    decreases Budget(clock(k + 1), clock(0) + timeout as real, pollInterval)
  {
    if RoundStarts(clock, timeout, k) && s1(k).PollAgain? {
      BudgetShrinks(clock(k + 1), clock(k + 2), clock(0) + timeout as real, pollInterval);
      PollRoundsSeeOnlySteps(s1, s2, clock, timeout, pollInterval, message, k + 1);
    }
  }

  // ---------------------------------------------------------------------
  // wait_for_condition

  function ConditionTimeoutMessage(errorMessage: string, timeout: int): string {
    errorMessage + " (timeout: " + Decimal.IntToString(timeout) + "s)"
  }

  /** A round of wait_for_condition makes one call of the condition: True
      returns True, an exception its `except Exception` clause catches counts
      as False, and any other exception escapes. */
  function ConditionStep<E>(o: Outcome<bool, Thrown<E>>): (s: Step<bool, E>)
    ensures s.Return? <==> Holds(o)
    ensures s.Return? ==> s.value
    ensures s.Escape? <==> Escapes(o)
    ensures s.Escape? ==> o == Raised(s.error)
  {
    if Holds(o) then Return(true)
    else if Escapes(o) then Escape(o.error)
    else PollAgain
  }

  /** The rounds of wait_for_condition; `condition(j)` is what the call of
      the condition in round j does. */
  function ConditionSteps<E>(condition: nat -> Outcome<bool, Thrown<E>>): nat -> Step<bool, E> {
    (j: nat) => ConditionStep(condition(j))
  }

  /** wait_for_condition: poll until the condition returns True. It returns
      True in the first round, begun before the deadline, whose call returned
      True, and calls the condition no more after that. A call that raised an
      Exception counts as False; one that raised anything else ends the wait
      with that exception. When no round decides, it raises TimeoutError with
      the caller's message and the timeout; a timeout of zero or less raises
      before the condition is ever called. */
  function WaitForCondition<E>(condition: nat -> Outcome<bool, Thrown<E>>, clock: nat -> real, timeout: int,
                               pollInterval: real, errorMessage: string): (r: Run<bool, Thrown<E>>)
    requires pollInterval > 0.0 && PollClock(clock, pollInterval)
    ensures forall j :: 0 <= j < r.rounds ==> RoundStarts(clock, timeout, j)
    ensures forall j :: 0 <= j < r.rounds - 1 ==> KeepsPolling(condition(j))
    ensures r.result.Ok? ==> r.rounds >= 1 && r.result.value && Holds(condition(r.rounds - 1))
    ensures r.result.Raised? && r.result.error.Propagated? ==>
      && r.rounds >= 1
      && condition(r.rounds - 1) == Raised(r.result.error.error) && !r.result.error.error.isException
    ensures r.result.Raised? && r.result.error.TimeoutError? ==>
      && r.result.error.message == ConditionTimeoutMessage(errorMessage, timeout)
      && !RoundStarts(clock, timeout, r.rounds)
      && forall j :: 0 <= j < r.rounds ==> KeepsPolling(condition(j))
    ensures timeout <= 0 ==> r.rounds == 0 && r.result.Raised? && r.result.error.TimeoutError?
  {
    assert clock(0) <= clock(1);
    var r := PollRounds(ConditionSteps(condition), clock, timeout, pollInterval,
                        ConditionTimeoutMessage(errorMessage, timeout), 0);
    assert forall j :: 0 <= j < r.rounds && ConditionSteps(condition)(j).PollAgain? ==> KeepsPolling(condition(j));
    assert r.result.Ok? ==> ConditionStep(condition(r.rounds - 1)) == Return(r.result.value);
    r
  }

  /** If the condition returns True in some round begun before the deadline,
      and no call up to then lets an exception through, the wait succeeds, in
      that round or an earlier one. */
  lemma WaitForConditionSucceedsByFirstTrue<E>(condition: nat -> Outcome<bool, Thrown<E>>, clock: nat -> real,
                                               timeout: int, pollInterval: real, errorMessage: string, k: nat)
    requires pollInterval > 0.0 && PollClock(clock, pollInterval)
    requires RoundStarts(clock, timeout, k) && Holds(condition(k))
    requires forall j :: 0 <= j < k ==> !Escapes(condition(j))
    ensures WaitForCondition(condition, clock, timeout, pollInterval, errorMessage).result == Ok(true)
    ensures WaitForCondition(condition, clock, timeout, pollInterval, errorMessage).rounds <= k + 1
  {
    assert ConditionSteps(condition)(k).Return?;
    PollRoundsDecideBy(ConditionSteps(condition), clock, timeout, pollInterval,
                       ConditionTimeoutMessage(errorMessage, timeout), 0, k);
  }

  /** The condition with every exception the loop catches replaced by a
      False return; other exceptions are left in place. */
  function SwallowExceptions<E>(condition: nat -> Outcome<bool, Thrown<E>>): nat -> Outcome<bool, Thrown<E>> {
    (j: nat) => if condition(j).Raised? && condition(j).error.isException then Ok(false) else condition(j)
  }

  /** Exceptions the condition raises that are Exceptions never escape
      wait_for_condition: such a condition behaves exactly like one that
      returns False instead. */
  lemma WaitForConditionSwallowsExceptions<E>(condition: nat -> Outcome<bool, Thrown<E>>, clock: nat -> real,
                                              timeout: int, pollInterval: real, errorMessage: string)
    requires pollInterval > 0.0 && PollClock(clock, pollInterval)
    ensures WaitForCondition(condition, clock, timeout, pollInterval, errorMessage)
         == WaitForCondition(SwallowExceptions(condition), clock, timeout, pollInterval, errorMessage)
  {
    forall j: nat
      ensures ConditionSteps(condition)(j) == ConditionSteps(SwallowExceptions(condition))(j)
    {
      if condition(j).Raised? && condition(j).error.isException {
        assert SwallowExceptions(condition)(j) == Ok(false);
      } else {
        assert SwallowExceptions(condition)(j) == condition(j);
      }
    }
    PollRoundsSeeOnlySteps(ConditionSteps(condition), ConditionSteps(SwallowExceptions(condition)), clock, timeout,
                           pollInterval, ConditionTimeoutMessage(errorMessage, timeout), 0);
  }

  /** wait_for_condition calls the condition at most once per poll interval
      of its timeout, plus once. */
  lemma WaitForConditionCallsBounded<E>(condition: nat -> Outcome<bool, Thrown<E>>, clock: nat -> real,
                                        timeout: int, pollInterval: real, errorMessage: string)
    requires pollInterval > 0.0 && PollClock(clock, pollInterval)
    ensures var r := WaitForCondition(condition, clock, timeout, pollInterval, errorMessage);
      r.rounds >= 1 ==> (r.rounds - 1) as real * pollInterval < timeout as real
  {
    var r := WaitForCondition(condition, clock, timeout, pollInterval, errorMessage);
    if r.rounds >= 1 {
      StartedRoundsFitTimeout(clock, timeout, pollInterval, r.rounds - 1);
    }
  }

  // ---------------------------------------------------------------------
  // retry_on_exception

  function Power(base: real, n: nat): real {
    if n == 0 then 1.0 else base * Power(base, n - 1)
  }

  /** The delays a retry loop sleeps after its first n failed attempts: the
      initial delay, then each one the previous times the backoff factor. */
  function Backoff(delay: real, backoff: real, n: nat): seq<real>
    decreases n
  {
    if n == 0 then [] else [delay] + Backoff(delay * backoff, backoff, n - 1)
  }

  /** The k-th delay (from 0) of the schedule is `delay * backoff^k`. */
  lemma {:induction false} BackoffClosedForm(delay: real, backoff: real, n: nat, k: nat)
    requires k < n
    ensures |Backoff(delay, backoff, n)| == n
    ensures Backoff(delay, backoff, n)[k] == delay * Power(backoff, k)
    decreases n
  {
    BackoffLength(delay, backoff, n);
    if k > 0 {
      BackoffClosedForm(delay * backoff, backoff, n - 1, k - 1);
      assert delay * backoff * Power(backoff, k - 1) == delay * (backoff * Power(backoff, k - 1));
    }
  }

  lemma BackoffIndexed(delay: real, backoff: real, n: nat)
    ensures |Backoff(delay, backoff, n)| == n
    ensures forall i :: 0 <= i < n ==> Backoff(delay, backoff, n)[i] == delay * Power(backoff, i)
  {
    BackoffLength(delay, backoff, n);
    forall i | 0 <= i < n
      ensures Backoff(delay, backoff, n)[i] == delay * Power(backoff, i)
    {
      BackoffClosedForm(delay, backoff, n, i);
    }
  }

  lemma {:induction false} BackoffLength(delay: real, backoff: real, n: nat)
    ensures |Backoff(delay, backoff, n)| == n
    decreases n
  {
    if n > 0 {
      BackoffLength(delay * backoff, backoff, n - 1);
    }
  }

  /** The retry loop from attempt number `attempt` (counted from 1) on, with
      `delay` the delay it will sleep after that attempt fails; `func(j)` is
      what the call in attempt j + 1 does. */
  function RetryFrom<T, E>(func: nat -> Outcome<T, E>, maxAttempts: int, backoff: real, catches: E -> bool,
                           attempt: nat, delay: real): (r: RetryRun<T, E>)
    requires 1 <= attempt
    ensures r.result == Ok(None) <==> maxAttempts < attempt
    ensures maxAttempts < attempt ==> r.attempts == attempt - 1 && r.sleeps == []
    ensures maxAttempts >= attempt ==> attempt <= r.attempts <= maxAttempts
    ensures forall j :: attempt - 1 <= j < r.attempts - 1 ==> func(j).Raised? && catches(func(j).error)
    ensures r.result.Ok? && r.result.value.Some? ==> func(r.attempts - 1) == Ok(r.result.value.value)
    ensures r.result.Raised? ==>
      && func(r.attempts - 1) == Raised(r.result.error)
      && (r.attempts == maxAttempts || !catches(r.result.error))
    ensures maxAttempts >= attempt ==> r.sleeps == Backoff(delay, backoff, r.attempts - attempt)
    decreases if attempt <= maxAttempts then maxAttempts - attempt + 1 else 0
  {
    if attempt > maxAttempts then
      RetryRun(Ok(None), attempt - 1, [])
    else if func(attempt - 1).Ok? then
      RetryRun(Ok(Some(func(attempt - 1).value)), attempt, [])
    else if !catches(func(attempt - 1).error) || attempt == maxAttempts then
      RetryRun(Raised(func(attempt - 1).error), attempt, [])
    else
      var rest := RetryFrom(func, maxAttempts, backoff, catches, attempt + 1, delay * backoff);
      RetryRun(rest.result, rest.attempts, [delay] + rest.sleeps)
  }

  /** The wrapper retry_on_exception(max_attempts, delay, backoff, exceptions)
      puts around a function, applied to one call. It calls the function at
      most `maxAttempts` times and returns the first value it returns,
      unchanged. An exception the `exceptions` filter does not catch escapes
      at once; a caught one is re-raised when it comes from the last attempt,
      and otherwise the wrapper sleeps `delay * backoff^(k-1)` after failed
      attempt k and tries again. With fewer than one attempt allowed it
      returns None without calling the function. */
  function RetryOnException<T, E>(func: nat -> Outcome<T, E>, maxAttempts: int, delay: real, backoff: real,
                                  catches: E -> bool): (r: RetryRun<T, E>)
    requires delay >= 0.0 && backoff >= 0.0
    ensures r.result == Ok(None) <==> maxAttempts < 1
    ensures maxAttempts < 1 ==> r.attempts == 0 && r.sleeps == []
    ensures maxAttempts >= 1 ==> 1 <= r.attempts <= maxAttempts && |r.sleeps| == r.attempts - 1
    ensures forall j :: 0 <= j < r.attempts - 1 ==> func(j).Raised? && catches(func(j).error)
    ensures r.result.Ok? && r.result.value.Some? ==> func(r.attempts - 1) == Ok(r.result.value.value)
    ensures r.result.Raised? ==>
      && func(r.attempts - 1) == Raised(r.result.error)
      && (r.attempts == maxAttempts || !catches(r.result.error))
    ensures forall i :: 0 <= i < |r.sleeps| ==> r.sleeps[i] == delay * Power(backoff, i)
  {
    var r := RetryFrom(func, maxAttempts, backoff, catches, 1, delay);
    BackoffIndexed(delay, backoff, if maxAttempts >= 1 then r.attempts - 1 else 0);
    r
  }

  /** Each sleep is the previous one multiplied by the backoff factor, so with
      a positive delay and a factor above one the sleeps strictly grow. */
  lemma RetrySleepsGrowGeometrically<T, E>(func: nat -> Outcome<T, E>, maxAttempts: int, delay: real, backoff: real,
                                           catches: E -> bool, i: nat)
    requires delay >= 0.0 && backoff >= 0.0
    requires i + 1 < |RetryOnException(func, maxAttempts, delay, backoff, catches).sleeps|
    ensures var s := RetryOnException(func, maxAttempts, delay, backoff, catches).sleeps;
      && s[i + 1] == s[i] * backoff
      && (delay > 0.0 && backoff > 1.0 ==> s[i] < s[i + 1])
  {
    var s := RetryOnException(func, maxAttempts, delay, backoff, catches).sleeps;
    var p := Power(backoff, i);
    assert s[i] == delay * p;
    assert s[i + 1] == delay * (backoff * p);
    assert delay * (backoff * p) == (delay * p) * backoff;
    if delay > 0.0 && backoff > 1.0 {
      PowerPositive(backoff, i);
      var q := s[i];
      assert q > 0.0;
      var g := q * (backoff - 1.0);
      assert g > 0.0;
      assert q * backoff == q + g;
    }
  }

  lemma {:induction false} PowerPositive(base: real, n: nat)
    requires base > 0.0
    ensures Power(base, n) > 0.0
  {
    if n > 0 {
      PowerPositive(base, n - 1);
    }
  }

  /** When every attempt raises a caught exception, the wrapper makes all
      `maxAttempts` attempts and re-raises the exception of the last one,
      not an earlier one. */
  lemma RetryExhaustedRaisesLast<T, E>(func: nat -> Outcome<T, E>, maxAttempts: int, delay: real, backoff: real,
                                       catches: E -> bool)
    requires delay >= 0.0 && backoff >= 0.0 && maxAttempts >= 1
    requires forall j :: 0 <= j < maxAttempts ==> func(j).Raised? && catches(func(j).error)
    ensures var r := RetryOnException(func, maxAttempts, delay, backoff, catches);
      && r.attempts == maxAttempts
      && r.result == Raised(func(maxAttempts - 1).error)
  {
    var r := RetryOnException(func, maxAttempts, delay, backoff, catches);
    assert func(r.attempts - 1).Raised?;
  }

  /** Two caught failures followed by a return, with three attempts allowed:
      the value comes back from the third attempt after sleeps of `delay`
      and `delay * backoff`. */
  lemma RetryTwoFailuresThenSuccess<T, E>(func: nat -> Outcome<T, E>, delay: real, backoff: real, catches: E -> bool)
    requires delay >= 0.0 && backoff >= 0.0
    requires func(0).Raised? && catches(func(0).error)
    requires func(1).Raised? && catches(func(1).error)
    requires func(2).Ok?
    ensures RetryOnException(func, 3, delay, backoff, catches) == RetryRun(Ok(Some(func(2).value)), 3, [delay, delay * backoff])
  {
    var r := RetryOnException(func, 3, delay, backoff, catches);
    assert r.attempts == 3;
    assert |r.sleeps| == 2 && r.sleeps[0] == delay * Power(backoff, 0) && r.sleeps[1] == delay * Power(backoff, 1);
    assert r.sleeps == [delay, delay * backoff];
  }

  // ---------------------------------------------------------------------
  // wait_until_stable

  function StableTimeoutMessage(timeout: int): string {
    "Value did not stabilize within " + Decimal.IntToString(timeout) + "s"
  }

  /** Round k of the stabilisation loop is entered when its loop check, clock
      reading 2k + 2, finds less than `timeout` seconds gone since the start. */
  predicate StableRoundStarts(clock: nat -> real, timeout: int, k: nat) {
    CheckReading(clock, k) - clock(0) < timeout as real
  }

  /** Samples 0 through m all returned a value. */
  ghost predicate SampledOk<T, E>(sample: nat -> Outcome<T, E>, m: nat) {
    forall j :: 0 <= j <= m ==> sample(j).Ok?
  }

  /** The stability start the loop holds once samples 0..m are taken: the
      reading right after the latest sample that differed from the one before
      it, or reading 1 if all of them are equal to the first. */
  ghost function StableSince<T, E>(sample: nat -> Outcome<T, E>, clock: nat -> real, m: nat): real
    decreases m
  {
    if m == 0 then clock(1)
    else if sample(m) != sample(m - 1) then SampleReading(clock, m - 1)
    else StableSince(sample, clock, m - 1)
  }

  /** The sample that last changed `last_value` once samples 0..m are taken:
      the latest one that differs from the sample before it, or the first. */
  ghost function ChangePoint<T, E>(sample: nat -> Outcome<T, E>, m: nat): nat
    decreases m
  {
    if m == 0 || sample(m) != sample(m - 1) then m else ChangePoint(sample, m - 1)
  }

  /** The stability start is the reading taken right after the change point,
      which begins the run of equal samples ending at m. */
  lemma {:induction false} StableSinceIsLastChange<T, E>(sample: nat -> Outcome<T, E>, clock: nat -> real, m: nat)
    ensures ChangePoint(sample, m) <= m
    ensures forall j :: ChangePoint(sample, m) <= j <= m ==> sample(j) == sample(m)
    ensures ChangePoint(sample, m) > 0 ==> sample(ChangePoint(sample, m)) != sample(ChangePoint(sample, m) - 1)
    ensures StableSince(sample, clock, m)
         == if ChangePoint(sample, m) == 0 then clock(1) else SampleReading(clock, ChangePoint(sample, m) - 1)
    decreases m
  {
    if m > 0 && sample(m) == sample(m - 1) {
      StableSinceIsLastChange(sample, clock, m - 1);
    }
  }

  /** Round k finds the value settled: its sample returned the same value as
      the previous one and, at the reading after the sample, at least
      `stabilityTime` seconds have gone since the run of equal samples that
      both belong to began. */
  ghost predicate SettledAt<T, E>(sample: nat -> Outcome<T, E>, clock: nat -> real, stabilityTime: real, k: nat) {
    && sample(k + 1).Ok?
    && sample(k + 1) == sample(k)
    && SampleReading(clock, k) - StableSince(sample, clock, k) >= stabilityTime
  }

  /** One round of the stabilisation loop that neither raises nor returns
      leaves the loop's variables as the invariant of the next round wants. */
  lemma StableStep<T, E>(sample: nat -> Outcome<T, E>, clock: nat -> real, stabilityTime: real, k: nat, last: T, since: real)
    requires SampledOk(sample, k) && last == sample(k).value && since == StableSince(sample, clock, k)
    requires sample(k + 1).Ok?
    ensures SampledOk(sample, k + 1)
    ensures sample(k + 1).value == last ==> StableSince(sample, clock, k + 1) == since
    ensures sample(k + 1).value != last ==> StableSince(sample, clock, k + 1) == SampleReading(clock, k)
    ensures SettledAt(sample, clock, stabilityTime, k)
        <==> sample(k + 1).value == last && SampleReading(clock, k) - since >= stabilityTime
  {
    if sample(k + 1).value == last {
      assert sample(k + 1) == sample(k);
    }
  }

  /** The stabilisation loop from round k on, with `last` the value and `since`
      the stability start it carries in; `sample(0)` is the sample taken before
      the loop and `sample(j + 1)` the one taken in round j. */
  function StableRounds<T(==), E>(sample: nat -> Outcome<T, E>, clock: nat -> real, timeout: int, stabilityTime: real,
                                  pollInterval: real, k: nat, last: T, since: real): (r: Run<T, E>)
    requires pollInterval > 0.0 && StableClock(clock, pollInterval)
    requires SampledOk(sample, k) && last == sample(k).value && since == StableSince(sample, clock, k)
    ensures k <= r.rounds
    ensures forall j :: k <= j < r.rounds ==> StableRoundStarts(clock, timeout, j)
    ensures r.result.Raised? && r.result.error.Propagated? ==>
      k < r.rounds && SampledOk(sample, r.rounds - 1) && sample(r.rounds) == Raised(r.result.error.error)
    ensures !(r.result.Raised? && r.result.error.Propagated?) ==> SampledOk(sample, r.rounds)
    ensures r.result.Ok? ==> k < r.rounds && r.result.value == sample(r.rounds).value
    ensures r.result.Raised? && r.result.error.TimeoutError? ==>
      r.result.error.message == StableTimeoutMessage(timeout) && !StableRoundStarts(clock, timeout, r.rounds)
    decreases Budget(CheckReading(clock, k), clock(0) + timeout as real, pollInterval)
  {
    if !StableRoundStarts(clock, timeout, k) then
      Run(Raised(TimeoutError(StableTimeoutMessage(timeout))), k)
    else if sample(k + 1).Raised? then
      Run(Raised(Propagated(sample(k + 1).error)), k + 1)
    else
      var v := sample(k + 1).value;
      StableStep(sample, clock, stabilityTime, k, last, since);
      if v == last && SampleReading(clock, k) - since >= stabilityTime then
        Run(Ok(v), k + 1)
      else
        assert CheckReading(clock, k) + pollInterval <= SampleReading(clock, k) <= CheckReading(clock, k + 1);
        BudgetShrinks(CheckReading(clock, k), CheckReading(clock, k + 1), clock(0) + timeout as real, pollInterval);
        var since' := if v == last then since else SampleReading(clock, k);
        StableRounds(sample, clock, timeout, stabilityTime, pollInterval, k + 1, v, since')
  }

  /** Among the rounds the stabilisation loop enters, the one that finds the
      value settled is exactly the one it returns from: it stops at the first
      such round, and a timeout or an exception means none was found. */
  lemma {:induction false} StableRoundsStopAtFirstSettled<T, E>(sample: nat -> Outcome<T, E>, clock: nat -> real,
                                                               timeout: int, stabilityTime: real, pollInterval: real,
                                                               k: nat, last: T, since: real)
    requires pollInterval > 0.0 && StableClock(clock, pollInterval)
    requires SampledOk(sample, k) && last == sample(k).value && since == StableSince(sample, clock, k)
    ensures var r := StableRounds(sample, clock, timeout, stabilityTime, pollInterval, k, last, since);
      forall j :: k <= j < r.rounds ==> (SettledAt(sample, clock, stabilityTime, j) <==> r.result.Ok? && j == r.rounds - 1)
    decreases Budget(CheckReading(clock, k), clock(0) + timeout as real, pollInterval)
  {
    var r := StableRounds(sample, clock, timeout, stabilityTime, pollInterval, k, last, since);
    if !StableRoundStarts(clock, timeout, k) {
      assert r.rounds == k;
    } else if sample(k + 1).Raised? {
      assert r == Run(Raised(Propagated(sample(k + 1).error)), k + 1);
    } else {
      var v := sample(k + 1).value;
      StableStep(sample, clock, stabilityTime, k, last, since);
      if v == last && SampleReading(clock, k) - since >= stabilityTime {
        assert r == Run(Ok(v), k + 1);
      } else {
        BudgetShrinks(CheckReading(clock, k), CheckReading(clock, k + 1), clock(0) + timeout as real, pollInterval);
        var since' := if v == last then since else SampleReading(clock, k);
        assert r == StableRounds(sample, clock, timeout, stabilityTime, pollInterval, k + 1, v, since');
        StableRoundsStopAtFirstSettled(sample, clock, timeout, stabilityTime, pollInterval, k + 1, v, since');
      }
    }
  }

  /** wait_until_stable: sample once, then keep sleeping and sampling. A
      sample is returned only when it equals the previous one and at least
      `stabilityTime` has passed since the value last changed; an exception
      from any sample, the first included, escapes unchanged; if the deadline
      passes first it raises TimeoutError. */
  function WaitUntilStable<T(==), E>(sample: nat -> Outcome<T, E>, clock: nat -> real, timeout: int, stabilityTime: real,
                                     pollInterval: real): (r: Run<T, E>)
    requires pollInterval > 0.0 && StableClock(clock, pollInterval)
    ensures sample(0).Raised? ==> r == Run(Raised(Propagated(sample(0).error)), 0)
    ensures forall j :: 0 <= j < r.rounds ==> StableRoundStarts(clock, timeout, j)
    ensures r.result.Raised? && r.result.error.Propagated? ==>
      (r.rounds > 0 ==> SampledOk(sample, r.rounds - 1)) && sample(r.rounds) == Raised(r.result.error.error)
    ensures !(r.result.Raised? && r.result.error.Propagated?) ==> SampledOk(sample, r.rounds)
    ensures forall j :: 0 <= j < r.rounds ==> (SettledAt(sample, clock, stabilityTime, j) <==> r.result.Ok? && j == r.rounds - 1)
    ensures r.result.Ok? ==> 1 <= r.rounds && r.result.value == sample(r.rounds).value
    ensures r.result.Raised? && r.result.error.TimeoutError? ==>
      r.result.error.message == StableTimeoutMessage(timeout) && !StableRoundStarts(clock, timeout, r.rounds)
  {
    if sample(0).Raised? then
      Run(Raised(Propagated(sample(0).error)), 0)
    else
      StableRoundsStopAtFirstSettled(sample, clock, timeout, stabilityTime, pollInterval, 0, sample(0).value, clock(1));
      StableRounds(sample, clock, timeout, stabilityTime, pollInterval, 0, sample(0).value, clock(1))
  }

  /** A value that changes at every sample never stabilises: the wait ends in
      a TimeoutError. */
  lemma WaitUntilStableNeverSettles<T, E>(sample: nat -> Outcome<T, E>, clock: nat -> real, timeout: int,
                                              stabilityTime: real, pollInterval: real)
    requires pollInterval > 0.0 && StableClock(clock, pollInterval)
    requires forall j: nat :: sample(j).Ok?
    requires forall j: nat :: sample(j + 1) != sample(j)
    ensures WaitUntilStable(sample, clock, timeout, stabilityTime, pollInterval).result.Raised?
    ensures WaitUntilStable(sample, clock, timeout, stabilityTime, pollInterval).result.error.TimeoutError?
  {
    var r := WaitUntilStable(sample, clock, timeout, stabilityTime, pollInterval);
    if r.rounds > 0 {
      assert sample(r.rounds) != sample(r.rounds - 1);
      assert !SettledAt(sample, clock, stabilityTime, r.rounds - 1);
    }
  }

  /** If some round begun before the deadline finds the value settled, and no
      sample up to it raised, the wait returns that stable value, in that
      round or an earlier one. */
  lemma WaitUntilStableReturnsWhenSettled<T, E>(sample: nat -> Outcome<T, E>, clock: nat -> real, timeout: int,
                                                    stabilityTime: real, pollInterval: real, k: nat)
    requires pollInterval > 0.0 && StableClock(clock, pollInterval)
    requires StableRoundStarts(clock, timeout, k)
    requires SampledOk(sample, k + 1) && SettledAt(sample, clock, stabilityTime, k)
    ensures WaitUntilStable(sample, clock, timeout, stabilityTime, pollInterval).result.Ok?
    ensures WaitUntilStable(sample, clock, timeout, stabilityTime, pollInterval).rounds <= k + 1
  {
  }

  /** The stabilisation loop enters round k only if k sleeps fit in the
      timeout, so it samples at most once per `pollInterval` of its timeout,
      plus twice. */
  lemma WaitUntilStableCallsBounded<T, E>(sample: nat -> Outcome<T, E>, clock: nat -> real, timeout: int,
                                          stabilityTime: real, pollInterval: real)
    requires pollInterval > 0.0 && StableClock(clock, pollInterval)
    ensures var r := WaitUntilStable(sample, clock, timeout, stabilityTime, pollInterval);
      r.rounds >= 1 ==> (r.rounds - 1) as real * pollInterval < timeout as real
  {
    var r := WaitUntilStable(sample, clock, timeout, stabilityTime, pollInterval);
    if r.rounds >= 1 {
      StableRoundsFitTimeout(clock, timeout, pollInterval, r.rounds - 1);
    }
  }

  lemma StableRoundsFitTimeout(clock: nat -> real, timeout: int, pollInterval: real, k: nat)
    requires StableClock(clock, pollInterval) && StableRoundStarts(clock, timeout, k)
    ensures k as real * pollInterval < timeout as real
  {
    StableChecksSpreadOut(clock, pollInterval, k);
  }

  // ---------------------------------------------------------------------
  // wait_for_any and wait_for_all; `conditions[i](k)` is what the call of
  // condition i in round k does. Both catch exceptions as wait_for_condition
  // does.

  /** In round k, wait_for_any calls condition i only when every earlier
      condition returned False or raised an exception the loop catches. */
  predicate CalledByAny<E>(conditions: seq<nat -> Outcome<bool, Thrown<E>>>, k: nat, i: nat)
    requires i <= |conditions|
  {
    forall j :: 0 <= j < i ==> KeepsPolling(conditions[j](k))
  }

  /** One round of wait_for_any's inner loop, from index i on: the first
      condition whose call ends the round, by returning True or by raising
      an exception the loop lets through; a caught exception counts as False
      and the scan goes on to the next. */
  function FirstHoldingOrEscaping<E>(conditions: seq<nat -> Outcome<bool, Thrown<E>>>, k: nat, i: nat)
    : (r: Option<nat>)
    requires i <= |conditions|
    ensures r.Some? ==>
      && i <= r.value < |conditions| && !KeepsPolling(conditions[r.value](k))
      && forall j :: i <= j < r.value ==> KeepsPolling(conditions[j](k))
    ensures r.None? ==> forall j :: i <= j < |conditions| ==> KeepsPolling(conditions[j](k))
    decreases |conditions| - i
  {
    if i == |conditions| then None
    else if !KeepsPolling(conditions[i](k)) then Some(i)
    else FirstHoldingOrEscaping(conditions, k, i + 1)
  }

  /** Round k of wait_for_any ends without deciding the wait: every
      condition returned False or raised an exception the loop catches. */
  ghost predicate AnyRoundGoesOn<E>(conditions: seq<nat -> Outcome<bool, Thrown<E>>>, k: nat) {
    forall i :: 0 <= i < |conditions| ==> KeepsPolling(conditions[i](k))
  }

  /** In round k, wait_for_any called a condition that raised e, an
      exception the loop lets through. */
  ghost predicate AnyRoundLetsThrough<E>(conditions: seq<nat -> Outcome<bool, Thrown<E>>>, k: nat, e: Thrown<E>) {
    exists p :: 0 <= p < |conditions| && CalledByAny(conditions, k, p)
      && conditions[p](k) == Raised(e) && !e.isException
  }

  /** What round k of wait_for_any decides: the index of the first condition
      that returned True, the exception of the first that let one through,
      or, when every call returned False or raised a caught exception, to
      poll again. */
  function AnyStep<E>(conditions: seq<nat -> Outcome<bool, Thrown<E>>>, k: nat): (s: Step<nat, E>)
    ensures s.Return? ==>
      s.value < |conditions| && Holds(conditions[s.value](k)) && CalledByAny(conditions, k, s.value)
    ensures s.Escape? ==> AnyRoundLetsThrough(conditions, k, s.error)
    ensures s.PollAgain? ==> AnyRoundGoesOn(conditions, k)
  {
    match FirstHoldingOrEscaping(conditions, k, 0)
    case None => PollAgain
    case Some(p) =>
      if Holds(conditions[p](k)) then Return(p)
      else
        assert CalledByAny(conditions, k, p);
        Escape(conditions[p](k).error)
  }

  function AnySteps<E>(conditions: seq<nat -> Outcome<bool, Thrown<E>>>): nat -> Step<nat, E> {
    (k: nat) => AnyStep(conditions, k)
  }

  const AnyTimeoutMessage := "None of the conditions were met within timeout"

  /** wait_for_any: returns the lowest index whose condition returns True, in
      the first round begun before the deadline in which any condition
      does; a caught exception counts as False, and one the loop lets
      through ends the wait at once. Otherwise it raises TimeoutError. */
  function WaitForAny<E>(conditions: seq<nat -> Outcome<bool, Thrown<E>>>, clock: nat -> real, timeout: int,
                         pollInterval: real): (r: Run<nat, Thrown<E>>)
    requires pollInterval > 0.0 && PollClock(clock, pollInterval)
    ensures forall j :: 0 <= j < r.rounds ==> RoundStarts(clock, timeout, j)
    ensures forall j :: 0 <= j < r.rounds - 1 ==> AnyRoundGoesOn(conditions, j)
    ensures r.result.Ok? ==>
      && r.rounds >= 1 && r.result.value < |conditions|
      && Holds(conditions[r.result.value](r.rounds - 1))
      && CalledByAny(conditions, r.rounds - 1, r.result.value)
    ensures r.result.Raised? && r.result.error.Propagated? ==>
      r.rounds >= 1 && AnyRoundLetsThrough(conditions, r.rounds - 1, r.result.error.error)
    ensures r.result.Raised? && r.result.error.TimeoutError? ==>
      && r.result.error.message == AnyTimeoutMessage
      && !RoundStarts(clock, timeout, r.rounds)
      && forall j :: 0 <= j < r.rounds ==> AnyRoundGoesOn(conditions, j)
  {
    var r := PollRounds(AnySteps(conditions), clock, timeout, pollInterval, AnyTimeoutMessage, 0);
    assert forall j :: 0 <= j < r.rounds && AnySteps(conditions)(j).PollAgain? ==> AnyRoundGoesOn(conditions, j);
    r
  }

  /** With no conditions, wait_for_any always times out. */
  lemma WaitForAnyEmptyTimesOut<E>(clock: nat -> real, timeout: int, pollInterval: real)
    requires pollInterval > 0.0 && PollClock(clock, pollInterval)
    ensures WaitForAny<E>([], clock, timeout, pollInterval).result == Raised(TimeoutError(AnyTimeoutMessage))
  {
  }

  /** If condition i returns True in a round begun before the deadline, and
      no call up to then lets an exception through, the wait returns an index
      at most i (lower indices take precedence) in that round or an earlier
      one. */
  lemma WaitForAnyFindsHolding<E>(conditions: seq<nat -> Outcome<bool, Thrown<E>>>, clock: nat -> real,
                                  timeout: int, pollInterval: real, k: nat, i: nat)
    requires pollInterval > 0.0 && PollClock(clock, pollInterval)
    requires RoundStarts(clock, timeout, k) && i < |conditions| && Holds(conditions[i](k))
    requires forall j, p :: 0 <= j <= k && 0 <= p < |conditions| && CalledByAny(conditions, j, p) ==>
      !Escapes(conditions[p](j))
    ensures WaitForAny(conditions, clock, timeout, pollInterval).result.Ok?
    ensures WaitForAny(conditions, clock, timeout, pollInterval).rounds <= k + 1
    ensures WaitForAny(conditions, clock, timeout, pollInterval).rounds == k + 1 ==>
      WaitForAny(conditions, clock, timeout, pollInterval).result.value <= i
  {
    assert !AnyRoundGoesOn(conditions, k);
    assert !AnySteps(conditions)(k).PollAgain?;
    PollRoundsDecideBy(AnySteps(conditions), clock, timeout, pollInterval, AnyTimeoutMessage, 0, k);
  }

  /** Two families of conditions that every call wait_for_any makes would
      see alike: same length, and each condition it calls returns True in
      one exactly when in the other, and lets the same exception through in
      one exactly when in the other. */
  ghost predicate SameToAny<E>(c1: seq<nat -> Outcome<bool, Thrown<E>>>, c2: seq<nat -> Outcome<bool, Thrown<E>>>) {
    && |c1| == |c2|
    && forall k: nat, i :: 0 <= i < |c1| && CalledByAny(c1, k, i) ==> SameCall(c1[i](k), c2[i](k))
  }

  lemma {:induction false} FirstHoldingOrEscapingSeesOnlyCalled<E>(c1: seq<nat -> Outcome<bool, Thrown<E>>>,
                                                                   c2: seq<nat -> Outcome<bool, Thrown<E>>>,
                                                                   k: nat, i: nat)
    requires SameToAny(c1, c2) && i <= |c1| && CalledByAny(c1, k, i)
    ensures FirstHoldingOrEscaping(c1, k, i) == FirstHoldingOrEscaping(c2, k, i)
    decreases |c1| - i
  {
    if i < |c1| && KeepsPolling(c1[i](k)) {
      assert SameCall(c1[i](k), c2[i](k));
      assert CalledByAny(c1, k, i + 1);
      FirstHoldingOrEscapingSeesOnlyCalled(c1, c2, k, i + 1);
    }
  }

  /** wait_for_any depends only on whether each condition it calls returns
      True or lets an exception through: a caught exception counts as False
      and the scan goes on, and the conditions after the one that ends a
      round are not consulted. */
  lemma WaitForAnySeesOnlyCalled<E>(c1: seq<nat -> Outcome<bool, Thrown<E>>>, c2: seq<nat -> Outcome<bool, Thrown<E>>>,
                                    clock: nat -> real, timeout: int, pollInterval: real)
    requires pollInterval > 0.0 && PollClock(clock, pollInterval)
    requires SameToAny(c1, c2)
    ensures WaitForAny(c1, clock, timeout, pollInterval) == WaitForAny(c2, clock, timeout, pollInterval)
  {
    forall k: nat
      ensures AnySteps(c1)(k) == AnySteps(c2)(k)
    {
      FirstHoldingOrEscapingSeesOnlyCalled(c1, c2, k, 0);
      match FirstHoldingOrEscaping(c1, k, 0)
      case None =>
      case Some(p) =>
        assert CalledByAny(c1, k, p);
        assert SameCall(c1[p](k), c2[p](k));
    }
    PollRoundsSeeOnlySteps(AnySteps(c1), AnySteps(c2), clock, timeout, pollInterval, AnyTimeoutMessage, 0);
  }

  /** One round of wait_for_all's inner loop, from index i on: the first
      condition that returns False or raises, at which the round stops, or
      None when every one returns True. */
  function FirstFailing<E>(conditions: seq<nat -> Outcome<bool, Thrown<E>>>, k: nat, i: nat): (r: Option<nat>)
    requires i <= |conditions|
    ensures r.Some? ==>
      && i <= r.value < |conditions| && !Holds(conditions[r.value](k))
      && forall j :: i <= j < r.value ==> Holds(conditions[j](k))
    ensures r.None? ==> forall j :: i <= j < |conditions| ==> Holds(conditions[j](k))
    decreases |conditions| - i
  {
    if i == |conditions| then None
    else if !Holds(conditions[i](k)) then Some(i)
    else FirstFailing(conditions, k, i + 1)
  }

  /** Every condition returned True in round k. */
  ghost predicate AllHold<E>(conditions: seq<nat -> Outcome<bool, Thrown<E>>>, k: nat) {
    forall i :: 0 <= i < |conditions| ==> Holds(conditions[i](k))
  }

  /** In round k, wait_for_all calls condition i only when every earlier
      condition returned True in that round: the round stops at the first
      False or exception. */
  predicate CalledByAll<E>(conditions: seq<nat -> Outcome<bool, Thrown<E>>>, k: nat, i: nat)
    requires i <= |conditions|
  {
    forall j :: 0 <= j < i ==> Holds(conditions[j](k))
  }

  /** Round k of wait_for_all ends without deciding the wait: a condition
      the round called returned False or raised an exception the loop
      catches. */
  ghost predicate AllRoundGoesOn<E>(conditions: seq<nat -> Outcome<bool, Thrown<E>>>, k: nat) {
    exists p :: 0 <= p < |conditions| && CalledByAll(conditions, k, p) && KeepsPolling(conditions[p](k))
  }

  /** In round k, wait_for_all called a condition that raised e, an
      exception the loop lets through. */
  ghost predicate AllRoundLetsThrough<E>(conditions: seq<nat -> Outcome<bool, Thrown<E>>>, k: nat, e: Thrown<E>) {
    exists p :: 0 <= p < |conditions| && CalledByAll(conditions, k, p)
      && conditions[p](k) == Raised(e) && !e.isException
  }

  /** What round k of wait_for_all decides: True when every condition
      returned True; otherwise the round stops at the first condition that
      did not, whose exception escapes if the loop does not catch it, and
      the loop polls again if it does or the call returned False. */
  function AllStep<E>(conditions: seq<nat -> Outcome<bool, Thrown<E>>>, k: nat): (s: Step<bool, E>)
    ensures s.Return? ==> s.value && AllHold(conditions, k)
    ensures s.Escape? ==> AllRoundLetsThrough(conditions, k, s.error)
    ensures s.PollAgain? ==> AllRoundGoesOn(conditions, k)
  {
    match FirstFailing(conditions, k, 0)
    case None => Return(true)
    case Some(p) =>
      assert CalledByAll(conditions, k, p);
      if Escapes(conditions[p](k)) then Escape(conditions[p](k).error) else PollAgain
  }

  function AllSteps<E>(conditions: seq<nat -> Outcome<bool, Thrown<E>>>): nat -> Step<bool, E> {
    (k: nat) => AllStep(conditions, k)
  }

  const AllTimeoutMessage := "Not all conditions were met within timeout"

  /** wait_for_all: returns True in the first round begun before the
      deadline in which every condition returned True. A round stops at the
      first condition that returns False or raises; a caught exception counts
      as False, and one the loop lets through ends the wait at once.
      Otherwise it raises TimeoutError. */
  function WaitForAll<E>(conditions: seq<nat -> Outcome<bool, Thrown<E>>>, clock: nat -> real, timeout: int,
                         pollInterval: real): (r: Run<bool, Thrown<E>>)
    requires pollInterval > 0.0 && PollClock(clock, pollInterval)
    ensures forall j :: 0 <= j < r.rounds ==> RoundStarts(clock, timeout, j)
    ensures forall j :: 0 <= j < r.rounds - 1 ==> AllRoundGoesOn(conditions, j)
    ensures r.result.Ok? ==> r.rounds >= 1 && r.result.value && AllHold(conditions, r.rounds - 1)
    ensures r.result.Raised? && r.result.error.Propagated? ==>
      r.rounds >= 1 && AllRoundLetsThrough(conditions, r.rounds - 1, r.result.error.error)
    ensures r.result.Raised? && r.result.error.TimeoutError? ==>
      && r.result.error.message == AllTimeoutMessage
      && !RoundStarts(clock, timeout, r.rounds)
      && forall j :: 0 <= j < r.rounds ==> AllRoundGoesOn(conditions, j)
  {
    var r := PollRounds(AllSteps(conditions), clock, timeout, pollInterval, AllTimeoutMessage, 0);
    assert forall j :: 0 <= j < r.rounds && AllSteps(conditions)(j).PollAgain? ==> AllRoundGoesOn(conditions, j);
    r
  }

  /** With no conditions, wait_for_all returns True in its first round,
      provided that round begins before the deadline, as it does when the
      timeout is positive and no time passes between the first two clock
      reads. */
  lemma WaitForAllEmptySucceeds<E>(clock: nat -> real, timeout: int, pollInterval: real)
    requires pollInterval > 0.0 && PollClock(clock, pollInterval)
    requires RoundStarts(clock, timeout, 0)
    ensures WaitForAll<E>([], clock, timeout, pollInterval) == Run(Ok(true), 1)
  {
    assert FirstFailing<E>([], 0, 0) == None;
  }

  /** A round in which every condition returned True neither goes on nor
      lets an exception through. */
  lemma HoldingRoundDecides<E>(conditions: seq<nat -> Outcome<bool, Thrown<E>>>, k: nat)
    requires AllHold(conditions, k)
    ensures !AllRoundGoesOn(conditions, k)
    ensures forall e :: !AllRoundLetsThrough(conditions, k, e)
  {
  }

  /** A round in which no call the round makes lets an exception through
      lets none through. */
  lemma QuietRoundLetsNothingThrough<E>(conditions: seq<nat -> Outcome<bool, Thrown<E>>>, k: nat)
    requires forall p :: 0 <= p < |conditions| && CalledByAll(conditions, k, p) ==> !Escapes(conditions[p](k))
    ensures forall e :: !AllRoundLetsThrough(conditions, k, e)
  {
  }

  /** If every condition returns True in a round begun before the deadline,
      and no call before then lets an exception through, wait_for_all
      succeeds in that round or an earlier one. */
  lemma WaitForAllFindsAllHolding<E>(conditions: seq<nat -> Outcome<bool, Thrown<E>>>, clock: nat -> real,
                                     timeout: int, pollInterval: real, k: nat)
    requires pollInterval > 0.0 && PollClock(clock, pollInterval)
    requires RoundStarts(clock, timeout, k) && AllHold(conditions, k)
    requires forall j, p :: 0 <= j < k && 0 <= p < |conditions| && CalledByAll(conditions, j, p) ==>
      !Escapes(conditions[p](j))
    ensures WaitForAll(conditions, clock, timeout, pollInterval).result == Ok(true)
    ensures WaitForAll(conditions, clock, timeout, pollInterval).rounds <= k + 1
  {
    var r := WaitForAll(conditions, clock, timeout, pollInterval);
    HoldingRoundDecides(conditions, k);
    assert !AllSteps(conditions)(k).PollAgain?;
    PollRoundsDecideBy(AllSteps(conditions), clock, timeout, pollInterval, AllTimeoutMessage, 0, k);
    forall j, e | 0 <= j < k
      ensures !AllRoundLetsThrough(conditions, j, e)
    {
      QuietRoundLetsNothingThrough(conditions, j);
    }
  }

  /** Two families of conditions that every call wait_for_all makes would
      see alike: same length, and each condition it calls returns True in
      one exactly when in the other, and lets the same exception through in
      one exactly when in the other. */
  ghost predicate SameToAll<E>(c1: seq<nat -> Outcome<bool, Thrown<E>>>, c2: seq<nat -> Outcome<bool, Thrown<E>>>) {
    && |c1| == |c2|
    && forall k: nat, i :: 0 <= i < |c1| && CalledByAll(c1, k, i) ==> SameCall(c1[i](k), c2[i](k))
  }

  lemma {:induction false} FirstFailingSeesOnlyCalled<E>(c1: seq<nat -> Outcome<bool, Thrown<E>>>,
                                                         c2: seq<nat -> Outcome<bool, Thrown<E>>>, k: nat, i: nat)
    requires SameToAll(c1, c2) && i <= |c1| && CalledByAll(c1, k, i)
    ensures FirstFailing(c1, k, i) == FirstFailing(c2, k, i)
    decreases |c1| - i
  {
    if i < |c1| && Holds(c1[i](k)) {
      assert SameCall(c1[i](k), c2[i](k));
      assert CalledByAll(c1, k, i + 1);
      FirstFailingSeesOnlyCalled(c1, c2, k, i + 1);
    }
  }

  /** wait_for_all depends only on whether each condition it calls returns
      True or lets an exception through: a caught exception counts as False,
      and once a condition fails the rest of that round's conditions are not
      consulted. */
  lemma WaitForAllSeesOnlyCalled<E>(c1: seq<nat -> Outcome<bool, Thrown<E>>>, c2: seq<nat -> Outcome<bool, Thrown<E>>>,
                                    clock: nat -> real, timeout: int, pollInterval: real)
    requires pollInterval > 0.0 && PollClock(clock, pollInterval)
    requires SameToAll(c1, c2)
    ensures WaitForAll(c1, clock, timeout, pollInterval) == WaitForAll(c2, clock, timeout, pollInterval)
  {
    forall k: nat
      ensures AllSteps(c1)(k) == AllSteps(c2)(k)
    {
      FirstFailingSeesOnlyCalled(c1, c2, k, 0);
      match FirstFailing(c1, k, 0)
      case None =>
      case Some(p) =>
        assert CalledByAll(c1, k, p);
        assert SameCall(c1[p](k), c2[p](k));
    }
    PollRoundsSeeOnlySteps(AllSteps(c1), AllSteps(c2), clock, timeout, pollInterval, AllTimeoutMessage, 0);
  }

  // ---------------------------------------------------------------------
  // Default arguments

  /** wait_for_condition, wait_for_any and wait_for_all wait 30 seconds and
      poll every half second unless told otherwise. */
  const DefaultTimeout: int := 30
  const DefaultPollInterval: real := 0.5
  const DefaultErrorMessage := "Condition not met within timeout"

  /** retry_on_exception makes three attempts, sleeping one second after the
      first failure and doubling the sleep each time, and catches every
      Exception (the tuple `(Exception,)`). */
  const DefaultMaxAttempts: int := 3
  const DefaultDelay: real := 1.0
  const DefaultBackoff: real := 2.0

  function CatchesException<E>(e: Thrown<E>): bool {
    e.isException
  }

  /** wait_until_stable waits 10 seconds for a value that holds still for 2
      seconds, sampling every half second. */
  const StableDefaultTimeout: int := 10
  const DefaultStabilityTime: real := 2.0

  /** With its defaults, wait_for_condition reports a timeout as
      "Condition not met within timeout (timeout: 30s)". */
  lemma DefaultConditionTimeoutMessage()
    ensures ConditionTimeoutMessage(DefaultErrorMessage, DefaultTimeout) == "Condition not met within timeout (timeout: 30s)"
  {
    assert Decimal.NatToString(3) == "3";
    assert Decimal.NatToString(30) == "30";
  }

  /** With its defaults, wait_for_condition calls the condition at most 60
      times. */
  lemma WaitForConditionDefaultCallsAtMost60<E>(condition: nat -> Outcome<bool, Thrown<E>>, clock: nat -> real)
    requires PollClock(clock, DefaultPollInterval)
    ensures WaitForCondition(condition, clock, DefaultTimeout, DefaultPollInterval, DefaultErrorMessage).rounds <= 60
  {
    WaitForConditionCallsBounded(condition, clock, DefaultTimeout, DefaultPollInterval, DefaultErrorMessage);
  }

  /** With its defaults, wait_until_stable takes the first sample and at most
      20 more. */
  lemma WaitUntilStableDefaultCallsAtMost20<T, E>(sample: nat -> Outcome<T, E>, clock: nat -> real)
    requires StableClock(clock, DefaultPollInterval)
    ensures WaitUntilStable(sample, clock, StableDefaultTimeout, DefaultStabilityTime, DefaultPollInterval).rounds <= 20
  {
    WaitUntilStableCallsBounded(sample, clock, StableDefaultTimeout, DefaultStabilityTime, DefaultPollInterval);
  }

  /** With its defaults, a retried function whose every attempt raises an
      Exception is called three times, with sleeps of 1 and 2 seconds between,
      and the third exception escapes. */
  lemma RetryDefaultsExhausted<T, E>(func: nat -> Outcome<T, Thrown<E>>)
    requires forall j :: 0 <= j < 3 ==> func(j).Raised? && func(j).error.isException
    ensures RetryOnException(func, DefaultMaxAttempts, DefaultDelay, DefaultBackoff, CatchesException)
         == RetryRun(Raised(func(2).error), 3, [1.0, 2.0])
  {
    var r := RetryOnException(func, DefaultMaxAttempts, DefaultDelay, DefaultBackoff, CatchesException);
    RetryExhaustedRaisesLast(func, DefaultMaxAttempts, DefaultDelay, DefaultBackoff, CatchesException);
    assert r.sleeps[0] == 1.0 * Power(2.0, 0) && r.sleeps[1] == 1.0 * Power(2.0, 1);
    assert r.sleeps == [1.0, 2.0];
  }

  /** With its defaults, the retry wrapper does not catch an exception that
      derives only from BaseException: it escapes from the first attempt. */
  lemma RetryDefaultsLetBaseExceptionsThrough<T, E>(func: nat -> Outcome<T, Thrown<E>>)
    requires func(0).Raised? && !func(0).error.isException
    ensures RetryOnException(func, DefaultMaxAttempts, DefaultDelay, DefaultBackoff, CatchesException)
         == RetryRun(Raised(func(0).error), 1, [])
  {
    var r := RetryOnException(func, DefaultMaxAttempts, DefaultDelay, DefaultBackoff, CatchesException);
    assert r.attempts == 1;
  }
}
