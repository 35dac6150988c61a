/**
 * `throttle` from src/utils/initializeWindowDimensions.ts: a wrapper that
 * lets a call through only when at least `delay` milliseconds have passed
 * since the last call it let through. The clock reading `Date.now()` is
 * the parameter `now`; the wrapped function is left abstract, so a call
 * reports whether it ran.
 */
module Throttling {

  /** Each accepted time is at least `delay` after the previous one; the first is measured from 0. */
  ghost predicate Spaced(times: seq<int>, delay: int)
  {
    (|times| > 0 ==> times[0] >= delay) &&
    forall i :: 0 < i < |times| ==> times[i] - times[i - 1] >= delay
  }

  /** Accepted calls `j - i` apart in the history are at least `(j - i) * delay` apart in time. */
  lemma {:induction false} SpacedApart(times: seq<int>, delay: int, i: nat, j: nat)
    requires Spaced(times, delay)
    requires i <= j < |times|
    ensures times[j] - times[i] >= (j - i) * delay
    decreases j - i
  {
    if i < j {
      SpacedApart(times, delay, i, j - 1);
      assert times[j] - times[j - 1] >= delay;
    }
  }

  /** With a positive delay the accepted times strictly increase. */
  lemma {:induction false} IncreasingTimes(times: seq<int>, delay: int, i: nat, j: nat)
    requires Spaced(times, delay) && delay > 0
    requires i < j < |times|
    ensures times[i] < times[j]
    decreases j - i
  {
    assert times[j] - times[j - 1] >= delay;
    if i < j - 1 {
      IncreasingTimes(times, delay, i, j - 1);
    }
  }

  class Throttle {
    const delay: int
    /** The closure variable `lastCall`. */
    var lastCall: int
    /** The times of the calls that were let through. */
    ghost var accepted: seq<int>

    ghost predicate Valid()
      reads this
    {
      Spaced(accepted, delay) &&
      (accepted == [] ==> lastCall == 0) &&
      (accepted != [] ==> lastCall == accepted[|accepted| - 1])
    }

    constructor (delay: int)
      ensures Valid()
      ensures this.delay == delay && lastCall == 0 && accepted == []
    {
      this.delay := delay;
      lastCall := 0;
      accepted := [];
    }

    /** One call of the throttled function at time `now`. */
    method Call(now: int) returns (ran: bool)
      requires Valid()
      modifies this
      ensures Valid()
      ensures ran <==> now - old(lastCall) >= delay
      ensures ran ==> lastCall == now && accepted == old(accepted) + [now]
      ensures !ran ==> lastCall == old(lastCall) && accepted == old(accepted)
    {
      if now - lastCall >= delay {
        lastCall := now;
        accepted := accepted + [now];
        ran := true;
      } else {
        ran := false;
      }
    }
  }
}
