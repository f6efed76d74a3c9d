/** Moments are nanoseconds since 1970; tokens and counters work in whole seconds. */
module Clock {
  const SECOND := 1_000_000_000

  function Unix(t: int): int { t / SECOND }
}
