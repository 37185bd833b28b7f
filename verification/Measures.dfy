/** Integer widths and time units of the source. */
module Measures {
  const U32_MAX: nat := 0xFFFF_FFFF
  const I64_MAX: int := 0x7fff_ffff_ffff_ffff
  const I64_MIN: int := -0x8000_0000_0000_0000

  const SECOND: int := 1_000_000_000
  const HOUR: int := 3_600_000_000_000
  const WEEK: int := 604_800_000_000_000

  function Min(a: int, b: int): int { if a <= b then a else b }

  /** One more, in 32 bits and saturating. */
  function Succ32(n: nat): nat { if n < U32_MAX then n + 1 else U32_MAX }
}
