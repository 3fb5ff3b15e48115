/**
 * The 32-bit arithmetic of the machine, and the smaller of two numbers.
 */
module Word {
  const LIMIT := 0x8000_0000
  const WORD := 0x1_0000_0000

  /** An int of the source, or a long. */
  type Int = x: int | -LIMIT <= x < LIMIT

  /** The value of an int or long that holds the low 32 bits of `x`. */
  function Signed(x: int): (r: Int)
    ensures -LIMIT <= x < LIMIT ==> r == x
  {
    (x + LIMIT) % WORD - LIMIT
  }

  /** The value of an unsigned int that holds them. */
  function Unsigned(x: int): (r: nat)
    ensures 0 <= x < WORD ==> r == x
    ensures r < WORD
  {
    x % WORD
  }

  lemma UnsignedSigned(x: int)
    ensures Unsigned(Signed(x)) == Unsigned(x)
  {
  }

  /** It is `x` exactly when 32 bits hold it. */
  lemma SignedExactly(x: int)
    ensures Signed(x) == x <==> -LIMIT <= x < LIMIT
  {
  }

  function Min(x: int, y: int): int {
    if x < y then x else y
  }

  lemma SignedFlat(x: int, k: int)
    ensures Signed(x + k * WORD) == Signed(x)
  {
    assert (x + LIMIT + k * WORD) % WORD == (x + LIMIT) % WORD;
  }

  /** Reading digit after digit in 32 bits is reading the number modulo 2^32. */
  lemma SignedDigits(n: int, d: int)
    ensures Signed(Signed(n) * 10 + d) == Signed(n * 10 + d)
  {
    var k := (n + LIMIT) / WORD;
    assert n == Signed(n) + k * WORD;
    assert n * 10 + d == Signed(n) * 10 + d + (k * 10) * WORD;
    SignedFlat(Signed(n) * 10 + d, k * 10);
  }
}
