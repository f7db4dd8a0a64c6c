/** Unsigned `size_t` arithmetic, where the source relies on it wrapping. */
module SizeT {

  const SIZE_MAX: nat := 0xFFFF_FFFF_FFFF_FFFF

  /** `i--` on a size_t. */
  function WrapDec(i: nat): (r: nat)
    requires i <= SIZE_MAX
    ensures r <= SIZE_MAX
    ensures (r + 1) % (SIZE_MAX + 1) == i
  {
    if i == 0 then SIZE_MAX else i - 1
  }

  /** `i++` on a size_t. */
  function WrapInc(i: nat): (r: nat)
    requires i <= SIZE_MAX
    ensures r <= SIZE_MAX
    ensures r == (i + 1) % (SIZE_MAX + 1)
  {
    if i == SIZE_MAX then 0 else i + 1
  }
}
