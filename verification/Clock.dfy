/**
 * Instants on an agent, in nanoseconds. What is signed prints an instant to the
 * millisecond and cuts the rest off, so one signed text stands for a million instants.
 */
module Clock {

  /** Nanoseconds in a millisecond. */
  const TICKS := 1_000_000

  /** The zero time of the runtime: midnight on the first day of year 1. */
  const ZERO_TIME := -62_135_596_800_000 * TICKS

  /** The millisecond an instant falls in, which is all that is signed of it. */
  function Ms(t: int): int {
    t / TICKS
  }

  /** The instant at which that millisecond begins. */
  function Whole(t: int): int {
    t - t % TICKS
  }

  lemma SameMsSameWhole(t: int, u: int)
    ensures Ms(t) == Ms(u) <==> Whole(t) == Whole(u)
    ensures Whole(t) <= t < Whole(t) + TICKS
    ensures Whole(Whole(t)) == Whole(t) && Ms(Whole(t)) == Ms(t)
  {
  }
}
