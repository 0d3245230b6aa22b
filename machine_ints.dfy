/** The fixed-width integers of the Rust source, written out as subset types
    of Dafny's unbounded integers. */
module MachineInts {
  const U32_LIMIT: int := 0x1_0000_0000

  type u32 = x: int | 0 <= x < 0x1_0000_0000
  type u64 = x: int | 0 <= x < 0x1_0000_0000_0000_0000
  type i32 = x: int | -0x8000_0000 <= x < 0x8000_0000

  /** Rust's `x as u32` on a `u64`: keep the low 32 bits. */
  function TruncateToU32(x: u64): (r: u32)
    ensures x < U32_LIMIT ==> r == x
    ensures x >= U32_LIMIT ==> r < x
    ensures (x - r) % U32_LIMIT == 0
  {
    x % U32_LIMIT
  }
}
