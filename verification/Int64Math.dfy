/** Go's int64: 64-bit two's complement arithmetic that wraps silently. */
module Int64Math {

  const TWO63: int := 0x8000_0000_0000_0000
  const TWO64: int := 0x1_0000_0000_0000_0000
  const MAX_INT64: int := TWO63 - 1

  predicate Fits(x: int) {
    -TWO63 <= x <= MAX_INT64
  }

  type Int64 = x: int | -TWO63 <= x <= MAX_INT64

  /** The int64 that an exact integer becomes once the machine has kept its low 64 bits. */
  function Wrap(x: int): Int64 {
    (x + TWO63) % TWO64 - TWO63
  }

  /** Wrap(x) is the only int64 congruent to x modulo 2^64. */
  lemma WrapUnique(x: int, r: Int64, k: int)
    requires x == r + k * TWO64
    ensures Wrap(x) == r
  {
    assert (x + TWO63) == (r + TWO63) + k * TWO64;
  }

  lemma WrapQuotient(x: int) returns (k: int)
    ensures x == Wrap(x) + k * TWO64
  {
    k := (x + TWO63) / TWO64;
  }

  lemma WrapFits(x: int)
    ensures Fits(x) <==> Wrap(x) == x
  {
    if Fits(x) {
      WrapUnique(x, x, 0);
    }
  }

  /** Accumulating in int64 is accumulating exactly and wrapping once at the end. */
  lemma WrapAdd(x: int, y: int)
    ensures Wrap(Wrap(x) + y) == Wrap(x + y)
    ensures Wrap(x + Wrap(y)) == Wrap(x + y)
  {
    var j := WrapQuotient(x);
    var k := WrapQuotient(y);
    var m := WrapQuotient(x + y);
    WrapUnique(Wrap(x) + y, Wrap(x + y), m - j);
    WrapUnique(x + Wrap(y), Wrap(x + y), m - k);
  }

  lemma WrapSubtract(x: int, y: int)
    ensures Wrap(Wrap(x) - Wrap(y)) == Wrap(x - y)
  {
    var j := WrapQuotient(x);
    var k := WrapQuotient(y);
    var m := WrapQuotient(x - y);
    WrapUnique(Wrap(x) - Wrap(y), Wrap(x - y), m - j + k);
  }

  lemma WrapNegate(x: int)
    ensures Wrap(-(Wrap(x) as int)) == Wrap(-x)
    ensures Wrap(x) == 0 <==> Wrap(-x) == 0
  {
  }

  lemma WrapZero(x: int)
    ensures Wrap(x) == 0 <==> x % TWO64 == 0
    ensures Wrap(x) == 0 && -TWO64 < x < TWO64 ==> x == 0
  {
    var k := WrapQuotient(x);
  }
}
