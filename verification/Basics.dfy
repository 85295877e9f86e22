// Types shared by every other module.

module Wrappers {
  datatype Option<+T> = None | Some(value: T)

  datatype Result<+T, +E> = Ok(value: T) | Err(error: E)
}

/** The 64-bit counters of the source.  They are natural numbers with an explicit bound, so that
    every addition which could wrap has to say what happens when it does. */
module UInt64 {
  const TWO64: nat := 0x1_0000_0000_0000_0000
  const MAX64: nat := 0xFFFF_FFFF_FFFF_FFFF

  type uint64 = n: nat | n < TWO64

  /** `++` on an unsigned 64-bit variable. */
  function Increment(n: uint64): (r: uint64)
    ensures r == 0 <==> n == MAX64
  {
    if n == MAX64 then 0 else n + 1
  }
}
