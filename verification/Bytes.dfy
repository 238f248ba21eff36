/** Fixed-width big-endian integers and length-prefixed fields, as encoding/binary writes them. */
module Bytes {
  import opened Int64Math
  import opened Domain

  const TWO32: int := 0x1_0000_0000

  function BigEndian(v: nat, n: nat): (s: Text)
    ensures |s| == n
  {
    if n == 0 then [] else BigEndian(v / 256, n - 1) + [v % 256]
  }

  function FromBigEndian(s: Text): nat {
    if s == [] then 0 else 256 * FromBigEndian(s[..|s| - 1]) + s[|s| - 1]
  }

  function Pow256(n: nat): nat {
    if n == 0 then 1 else 256 * Pow256(n - 1)
  }

  lemma {:induction false} BigEndianRoundTrip(v: nat, n: nat)
    requires v < Pow256(n)
    ensures FromBigEndian(BigEndian(v, n)) == v
  {
    if n > 0 {
      BigEndianRoundTrip(v / 256, n - 1);
      assert BigEndian(v, n)[..n - 1] == BigEndian(v / 256, n - 1);
    }
  }

  lemma Widths()
    ensures Pow256(4) == TWO32 && Pow256(8) == TWO64
  {
    assert Pow256(1) == 256 && Pow256(2) == 0x1_0000 && Pow256(3) == 0x100_0000;
    assert Pow256(4) == TWO32;
    assert Pow256(5) == 0x100_0000_0000 && Pow256(6) == 0x1_0000_0000_0000;
    assert Pow256(7) == 0x100_0000_0000_0000;
  }

  /** PutUint32 and PutUint64: the bytes are filled in place, lowest last. */
  method PutBigEndian(buf: array<Byte>, v: nat)
    modifies buf
    ensures buf[..] == BigEndian(v, buf.Length)
  {
    var rest := v;
    var i := buf.Length;
    while i > 0
      invariant 0 <= i <= buf.Length
      invariant BigEndian(v, buf.Length) == BigEndian(rest, i) + buf[i..]
    {
      ghost var done := buf[i..];
      i := i - 1;
      buf[i] := rest % 256;
      assert buf[i..] == [(rest % 256) as Byte] + done;
      rest := rest / 256;
    }
    assert buf[0..] == buf[..];
  }

  /** The eight bytes of uint64(x), for any integer an int64 computation yields modulo 2^64. */
  function U64(x: int): (s: Text)
    ensures |s| == 8
  {
    BigEndian(x % TWO64, 8)
  }

  function FromU64(s: Text): Int64 {
    Wrap(FromBigEndian(s))
  }

  lemma U64RoundTrip(x: int)
    ensures FromU64(U64(x)) == Wrap(x)
  {
    Widths();
    BigEndianRoundTrip(x % TWO64, 8);
    var k := WrapQuotient(x);
    WrapUnique(x % TWO64, Wrap(x), k - x / TWO64);
  }

  /** writeField: the length as four bytes, then the bytes themselves. */
  function Field(b: Text): Text {
    BigEndian(|b| % TWO32, 4) + b
  }

  /** Reads one length-prefixed field and returns it with what follows it. */
  function ReadField(b: Text): (r: Option<(Text, Text)>)
    ensures r.Some? ==> |r.value.1| + 4 <= |b|
  {
    if |b| < 4 then None
    else
      var n := FromBigEndian(b[..4]);
      if |b| < 4 + n then None else Some((b[4..4 + n], b[4 + n..]))
  }

  lemma FieldRoundTrip(f: Text, rest: Text)
    requires |f| < TWO32
    ensures ReadField(Field(f) + rest) == Some((f, rest))
  {
    Widths();
    BigEndianRoundTrip(|f|, 4);
    var b := Field(f) + rest;
    assert b[..4] == BigEndian(|f|, 4);
    assert b[4..4 + |f|] == f;
    assert b[4 + |f|..] == rest;
  }
}
