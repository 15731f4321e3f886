/**
 * The arithmetic of the performance-hint reporter that runs at the end of a
 * frame: the target work duration forwarded to the hint session, the actual
 * work duration reported to it, and the sanity window both must fall in.
 * Durations are nanoseconds. Integers are unbounded here: int64 overflow is
 * not modelled.
 */
module PerformanceHint {

  /** 0.1 ms. */
  const SanityCheckLowerBound: int := 100000
  /** 10 s. */
  const SanityCheckUpperBound: int := 10000000000

  /** The open sanity window (0.1 ms, 10 s): both ends are excluded. */
  predicate InSanityRange(d: int): (b: bool)
    ensures b ==> 0 < d
    ensures d <= SanityCheckLowerBound || SanityCheckUpperBound <= d ==> !b
  {
    SanityCheckLowerBound < d < SanityCheckUpperBound
  }

  /**
   * C++ integer division by a positive divisor: the quotient is rounded
   * toward zero (Dafny's own `/` rounds toward negative infinity for a
   * negative dividend).
   */
  function TruncDiv(a: int, b: int): (q: int)
    requires b > 0
    ensures a >= 0 ==> 0 <= q && q * b <= a < q * b + b
    ensures a < 0 ==> q <= 0 && q * b - b < a <= q * b
  {
    var n := if a >= 0 then a else -a;
    var m := n / b;
    assert m * b + n % b == n && 0 <= n % b < b;
    if a >= 0 then m else -m
  }

  /** `(frameDeadline - intendedVsync) * targetCpuTimePercentage / 100`, with C++'s truncating division. */
  function TargetWorkDuration(frameDeadline: int, intendedVsync: int, targetCpuTimePercentage: int): (r: int)
    ensures var p := (frameDeadline - intendedVsync) * targetCpuTimePercentage;
      && (p >= 0 ==> 0 <= r && 100 * r <= p < 100 * r + 100)
      && (p < 0 ==> r <= 0 && 100 * r - 100 < p <= 100 * r)
  {
    TruncDiv((frameDeadline - intendedVsync) * targetCpuTimePercentage, 100)
  }

  /** The target is forwarded only when it is sane and differs from the last one forwarded. */
  predicate ForwardsTarget(lastTargetWorkDuration: int, target: int): (b: bool)
    ensures b ==> 0 < target && InSanityRange(target)
    ensures target == lastTargetWorkDuration ==> !b
  {
    InSanityRange(target) && target != lastTargetWorkDuration
  }

  /** `mLastTargetWorkDuration` after the target step: the target if forwarded, else unchanged. */
  function NextLastTarget(lastTargetWorkDuration: int, target: int): (r: int)
    ensures r == lastTargetWorkDuration || r == target
    ensures r != lastTargetWorkDuration <==> ForwardsTarget(lastTargetWorkDuration, target)
    ensures !ForwardsTarget(r, target)
  {
    if ForwardsTarget(lastTargetWorkDuration, target) then target else lastTargetWorkDuration
  }

  /**
   * The CPU work of a frame: its wall-clock duration minus this frame's
   * dequeue-buffer wait and minus the part of the sync delay that the previous
   * frame's dequeue wait can account for.
   */
  function ActualWorkDuration(frameDuration: int, syncDelayDuration: int,
                              lastDequeueBufferDuration: int, dequeueBufferDuration: int): (r: int)
    ensures r >= frameDuration - syncDelayDuration - dequeueBufferDuration
    ensures r >= frameDuration - lastDequeueBufferDuration - dequeueBufferDuration
    ensures r == frameDuration - syncDelayDuration - dequeueBufferDuration
         || r == frameDuration - lastDequeueBufferDuration - dequeueBufferDuration
  {
    var overlap := if syncDelayDuration <= lastDequeueBufferDuration then syncDelayDuration
                   else lastDequeueBufferDuration;
    frameDuration - overlap - dequeueBufferDuration
  }

  /**
   * A frame that repeats the previous frame's target leaves the last target as
   * it is: the hint step is idempotent for a repeated target.
   */
  lemma RepeatedTargetNotForwarded(lastTargetWorkDuration: int, target: int)
    ensures var once := NextLastTarget(lastTargetWorkDuration, target);
      NextLastTarget(once, target) == once
  {
  }

  /** The window is open at both ends. */
  lemma SanityWindowIsOpen()
    ensures !InSanityRange(SanityCheckLowerBound) && InSanityRange(SanityCheckLowerBound + 1)
    ensures !InSanityRange(SanityCheckUpperBound) && InSanityRange(SanityCheckUpperBound - 1)
    ensures forall last :: !ForwardsTarget(last, 100000) && !ForwardsTarget(last, 10000000000)
  {
  }

  /** A 16 ms deadline at 70 % gives an 11.2 ms target, forwarded the first time only. */
  lemma TargetExample()
    ensures TargetWorkDuration(16000000, 0, 70) == 11200000
    ensures ForwardsTarget(0, 11200000)
    ensures NextLastTarget(0, 11200000) == 11200000
    ensures !ForwardsTarget(NextLastTarget(0, 11200000), TargetWorkDuration(16000000, 0, 70))
  {
    assert 16000000 * 70 == 1120000000;
  }

  /** A negative span rounds toward zero, not toward negative infinity. */
  lemma TruncDivRoundsTowardZero()
    ensures TruncDiv(-7, 2) == -3 && -7 / 2 == -4
    ensures TargetWorkDuration(0, 150, 70) == -105
  {
    assert (0 - 150) * 70 == -10500;
  }
}
