/** Machine integers as the original's types bound them. */
module Machine {
  newtype byte = x: int | 0 <= x < 256

  const U32_MAX: nat := 0xffff_ffff
  const U64_MAX: nat := 0xffff_ffff_ffff_ffff
  const USIZE_MAX: nat := U64_MAX
  const I64_MAX: nat := 0x7fff_ffff_ffff_ffff
  const I64_MIN: int := -0x8000_0000_0000_0000
  const ISIZE_MAX: nat := I64_MAX

  /** `saturating_add` on `u64` and, on the 64-bit targets the agent ships for, `usize`. */
  function SatAdd(a: nat, b: nat): (r: nat)
    ensures r <= USIZE_MAX
    ensures a + b <= USIZE_MAX ==> r == a + b
  {
    if a + b > USIZE_MAX then USIZE_MAX else a + b
  }

  function SatSub(a: nat, b: nat): nat {
    if a < b then 0 else a - b
  }

  function Min(a: int, b: int): int { if a < b then a else b }
}
