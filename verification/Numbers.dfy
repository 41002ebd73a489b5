/** Go's fixed-width integers, where the services narrow one. */
module Numbers {

  const TWO_32: int := 0x1_0000_0000
  const MAX_INT32: int := 0x7fff_ffff

  /** The conversion int32(n): the low 32 bits, read as two's complement. */
  function Int32(n: int): int {
    var low := n % TWO_32;
    if low <= MAX_INT32 then low else low - TWO_32
  }

  lemma Int32Range(n: int)
    ensures -MAX_INT32 - 1 <= Int32(n) <= MAX_INT32
    ensures -MAX_INT32 - 1 <= n <= MAX_INT32 ==> Int32(n) == n
    ensures n >= 0 ==> Int32(n) <= n
    ensures (n - Int32(n)) % TWO_32 == 0
  {
  }
}
