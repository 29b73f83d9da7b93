/** The review rule shared by the two domain-logic variants: the next wait is
    computed from the whole seconds that passed since the card's last change,
    doubled after a success and halved (rounded down) after a failure. */
module Scheduling {
  import opened Time

  /** `passedTime => passedTime * 2`. */
  function OkWait(passed: int): int
  {
    passed * 2
  }

  /** `passedTime => Math.floor(passedTime / 2)`; Dafny's `/` by a positive
      divisor already rounds down, for negative `passed` too. */
  function FailedWait(passed: int): (r: int)
    ensures 2 * r <= passed < 2 * r + 2
  {
    passed / 2
  }

  /** The new `nextTime` written at `now` for a card last changed at
      `changeTime`: `addSeconds(now, wait(differenceInSeconds(now, changeTime)))`. */
  function NextTime(now: int, changeTime: int, wait: int -> int): int
  {
    AddSeconds(now, wait(DifferenceInSeconds(now, changeTime)))
  }

  /** For a card changed in the past, both outcomes give a due time no
      earlier than the review itself (the new `changeTime`); a failure never
      waits longer than a success; a success waits twice the whole seconds
      that passed and a failure at most half the time that passed. */
  lemma ReviewIntervals(now: int, changeTime: int)
    requires changeTime <= now
    ensures now <= NextTime(now, changeTime, FailedWait) <= NextTime(now, changeTime, OkWait)
    ensures NextTime(now, changeTime, OkWait) - now <= 2 * (now - changeTime)
    ensures 2 * (now - changeTime) < NextTime(now, changeTime, OkWait) - now + 2 * MillisPerSecond
    ensures 2 * (NextTime(now, changeTime, FailedWait) - now) <= now - changeTime
  {
    var passed := DifferenceInSeconds(now, changeTime);
    assert passed >= 0;
    assert FailedWait(passed) <= OkWait(passed);
  }

  /** A card changed 41 seconds ago is next due 82 seconds from now after a
      success and 20 seconds from now after a failure. */
  lemma FortyOneSeconds(now: int)
    ensures NextTime(now, now - 41 * MillisPerSecond, OkWait) == now + 82 * MillisPerSecond
    ensures NextTime(now, now - 41 * MillisPerSecond, FailedWait) == now + 20 * MillisPerSecond
  {
    assert DifferenceInSeconds(now, now - 41 * MillisPerSecond) == 41;
  }
}
