/** Saturating counters of 32 and 64 bits. */
module Saturating {
  const U64_MAX: nat := 0xFFFF_FFFF_FFFF_FFFF
  const U32_MAX: nat := 0xFFFF_FFFF

  function Min(a: nat, b: nat): (m: nat)
    ensures m <= a && m <= b && (m == a || m == b)
  {
    if a <= b then a else b
  }

  /** `a.saturating_add(b)` */
  function SatAdd(a: nat, b: nat): (sum: nat)
    ensures sum <= U64_MAX && (a + b <= U64_MAX ==> sum == a + b) && (a + b > U64_MAX ==> sum == U64_MAX)
  {
    Min(a + b, U64_MAX)
  }
}
