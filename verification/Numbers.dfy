/** Machine integers. */
module Numbers {
  const U32 := 0x1_0000_0000
  const U64 := 0x1_0000_0000_0000_0000

  type uint32 = x: int | 0 <= x < U32
  type uint64 = x: int | 0 <= x < U64
  type byte = x: int | 0 <= x < 256

  lemma SmallMod(x: nat, n: nat)
    requires x < n
    ensures x % n == x
  {}
}
