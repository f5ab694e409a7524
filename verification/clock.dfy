/** The abstract wall clock of one wait call. `now(i)` is the reading the i-th
    clock read of that call returns; a sleep of `pollInterval` seconds makes
    the next reading at least that much larger. */
module Clock {

  /** Later readings are never smaller. */
  ghost predicate Monotone(now: nat -> real) {
    forall i: nat, j: nat :: i <= j ==> now(i) <= now(j)
  }

  /** Clock of a loop that reads the clock once per round: reading 0 is the
      start, reading k + 1 is the loop check of round k, and each round
      sleeps between its check and the next one. */
  ghost predicate PollClock(now: nat -> real, pollInterval: real) {
    && Monotone(now)
    && forall i: nat, j: nat :: 1 <= i < j ==> now(i) + pollInterval <= now(j)
  }

  /** On the clock of the stabilisation loop, reading 0 is the start and
      reading 1 the first stability start; round k reads the clock at its
      loop check and again right after its sleep and sample. */
  function CheckReading(now: nat -> real, k: nat): real {
    now(2 * k + 2)
  }

  function SampleReading(now: nat -> real, k: nat): real {
    now(2 * k + 3)
  }

  /** Clock of the stabilisation loop: the readings come in order, and each
      round sleeps between its loop check and its sample. */
  ghost predicate StableClock(now: nat -> real, pollInterval: real) {
    && now(0) <= now(1) <= CheckReading(now, 0)
    && (forall k: nat :: CheckReading(now, k) + pollInterval <= SampleReading(now, k))
    && (forall i: nat, j: nat :: i < j ==> SampleReading(now, i) <= CheckReading(now, j))
  }

  /** An upper bound on the number of loop checks that can still come before
      `deadline`, when each is at least `pollInterval` after the last. */
  function Budget(t: real, deadline: real, pollInterval: real): nat
    requires pollInterval > 0.0
  {
    if t >= deadline then 0 else ((deadline - t) / pollInterval).Floor + 1
  }

  lemma ScaledAtLeastOne(x: real, pollInterval: real)
    requires pollInterval > 0.0 && x * pollInterval >= pollInterval
    ensures x >= 1.0
  {
  }

  /** A check made before the deadline and followed by a sleep leaves a
      strictly smaller budget to the next check. */
  lemma BudgetShrinks(t: real, t': real, deadline: real, pollInterval: real)
    requires pollInterval > 0.0 && t < deadline && t + pollInterval <= t'
    ensures Budget(t', deadline, pollInterval) < Budget(t, deadline, pollInterval)
  {
    if t' < deadline {
      var a := (deadline - t) / pollInterval;
      var b := (deadline - t') / pollInterval;
      var x := a - b;
      var ap, bp, xp := a * pollInterval, b * pollInterval, x * pollInterval;
      assert ap == deadline - t && bp == deadline - t';
      assert xp == ap - bp;
      ScaledAtLeastOne(x, pollInterval);
    }
  }

  /** On a polling clock, the check of round k comes at least k sleeps after
      the check of round 0. */
  lemma {:induction false} ChecksSpreadOut(now: nat -> real, pollInterval: real, k: nat)
    requires PollClock(now, pollInterval)
    ensures now(1) + k as real * pollInterval <= now(k + 1)
  {
    if k > 0 {
      ChecksSpreadOut(now, pollInterval, k - 1);
      assert now(k) + pollInterval <= now(k + 1);
      assert (k - 1) as real * pollInterval + pollInterval == k as real * pollInterval;
    }
  }

  /** On a stabilisation clock, the check of round k comes at least k sleeps
      after the stability start read before the loop. */
  lemma {:induction false} StableChecksSpreadOut(now: nat -> real, pollInterval: real, k: nat)
    requires StableClock(now, pollInterval)
    ensures now(1) + k as real * pollInterval <= CheckReading(now, k)
  {
    if k > 0 {
      StableChecksSpreadOut(now, pollInterval, k - 1);
      assert CheckReading(now, k - 1) + pollInterval <= SampleReading(now, k - 1);
      assert SampleReading(now, k - 1) <= CheckReading(now, k);
      assert (k - 1) as real * pollInterval + pollInterval == k as real * pollInterval;
    }
  }
}
