/** Constants that several components share. */
module Limits {
  const NS_PER_SEC: int := 1_000_000_000

  /** How many dimension keys a metric or a condition keeps before it reports, and before it drops. */
  const SOFT_LIMIT := 500
  const HARD_LIMIT := 800
}
