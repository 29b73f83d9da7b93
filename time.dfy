/** The date-fns helpers the domain logic uses, on timestamps written as whole
    milliseconds since the epoch (what `Date.getTime()` returns). */
module Time {

  const MillisPerSecond: int := 1000
  const MillisPerMinute: int := 60 * MillisPerSecond

  /** `addMinutes(t, minutes)`. */
  function AddMinutes(t: int, minutes: int): int
  {
    t + minutes * MillisPerMinute
  }

  /** `addSeconds(t, seconds)`. */
  function AddSeconds(t: int, seconds: int): int
  {
    t + seconds * MillisPerSecond
  }

  /** `differenceInSeconds(later, earlier)`: the whole seconds between the
      two, the fraction cut off toward zero whichever way round they are. */
  function DifferenceInSeconds(later: int, earlier: int): (r: int)
    ensures later >= earlier ==>
      0 <= r && r * MillisPerSecond <= later - earlier < (r + 1) * MillisPerSecond
    ensures later < earlier ==>
      r <= 0 && (r - 1) * MillisPerSecond < later - earlier <= r * MillisPerSecond
  {
    var d := later - earlier;
    if d >= 0 then d / MillisPerSecond else -((-d) / MillisPerSecond)
  }

  /** Adding whole seconds and measuring them again gives them back. */
  lemma DifferenceOfAddedSeconds(t: int, seconds: int)
    ensures DifferenceInSeconds(AddSeconds(t, seconds), t) == seconds
  {
  }

  /** Truncation toward zero makes the difference antisymmetric (flooring
      would not). */
  lemma DifferenceAntisymmetric(a: int, b: int)
    ensures DifferenceInSeconds(a, b) == -DifferenceInSeconds(b, a)
  {
  }
}
