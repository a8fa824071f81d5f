/** Java `int` arithmetic: 32-bit two's complement with silent wrap-around. */
module JavaInts {

  const TWO_32: int := 0x1_0000_0000
  const MIN_INT: int := -0x8000_0000
  const MAX_INT: int := 0x7fff_ffff

  predicate IsInt32(x: int) {
    MIN_INT <= x <= MAX_INT
  }

  /** The Java `int` congruent to `x` modulo 2^32. */
  function Wrap32(x: int): (r: int)
    ensures IsInt32(r)
    ensures (x - r) % TWO_32 == 0
    ensures IsInt32(x) ==> r == x
  {
    (x - MIN_INT) % TWO_32 + MIN_INT
  }

  /** Wrapping is insensitive to adding multiples of 2^32, so intermediate wrapping in a
      chain of `int` operations does not change the result. */
  lemma WrapCongruent(x: int, k: int)
    ensures Wrap32(x + k * TWO_32) == Wrap32(x)
  {
    assert (x + k * TWO_32 - MIN_INT) % TWO_32 == (x - MIN_INT) % TWO_32;
  }

  /** `String.hashCode`: `h = 31 * h + c` over the characters, in `int`. */
  function StringHash(s: string): (h: int)
    ensures IsInt32(h)
  {
    if |s| == 0 then 0 else Wrap32(31 * StringHash(s[..|s| - 1]) + s[|s| - 1] as int)
  }
}
