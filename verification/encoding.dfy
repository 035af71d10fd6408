/**
 * Least-significant-byte-first encoding of unsigned integers, as stored by
 * the 64-bit little-endian target for every scalar field.
 */
module Encoding {

  /** One byte of raw memory. */
  type byte = x: int | 0 <= x < 256

  /** 256^n: the number of distinct values an n-byte field can hold. */
  function Pow256(n: nat): (r: nat)
    ensures r >= 1
  {
    if n == 0 then 1 else 256 * Pow256(n - 1)
  }

  /** The n bytes of x, least significant first (higher bits are dropped). */
  function LE(x: nat, n: nat): (r: seq<byte>)
    ensures |r| == n
  {
    if n == 0 then [] else [x % 256] + LE(x / 256, n - 1)
  }

  /** The unsigned integer whose little-endian encoding is bs. */
  function FromLE(bs: seq<byte>): (r: nat)
    ensures r < Pow256(|bs|)
  {
    if |bs| == 0 then 0
    else
      var rest := FromLE(bs[1..]);
      assert bs[0] + 256 * rest <= 255 + 256 * (Pow256(|bs| - 1) - 1);
      bs[0] + 256 * rest
  }

  /** Decoding an encoding gives back the value, whenever it fits in n bytes. */
  lemma {:induction false} FromLEOfLE(x: nat, n: nat)
    requires x < Pow256(n)
    ensures FromLE(LE(x, n)) == x
  {
    if n > 0 {
      assert x / 256 < Pow256(n - 1);
      FromLEOfLE(x / 256, n - 1);
      assert LE(x, n)[1..] == LE(x / 256, n - 1);
    }
  }

  /** Encoding a decoded byte string gives back the same bytes. */
  lemma {:induction false} LEOfFromLE(bs: seq<byte>)
    ensures LE(FromLE(bs), |bs|) == bs
  {
    if |bs| > 0 {
      var rest := FromLE(bs[1..]);
      assert (bs[0] + 256 * rest) % 256 == bs[0];
      assert (bs[0] + 256 * rest) / 256 == rest;
      LEOfFromLE(bs[1..]);
      assert bs == [bs[0]] + bs[1..];
    }
  }

  /** Byte i of the encoding is digit i of x in base 256: the least significant byte comes first. */
  lemma {:induction false} LEByte(x: nat, n: nat, i: nat)
    requires i < n
    ensures LE(x, n)[i] == (x / Pow256(i)) % 256
  {
    if i > 0 {
      LEByte(x / 256, n - 1, i - 1);
      DivDiv(x, Pow256(i - 1));
    }
  }

  /** Dividing by 256 and then by b is dividing by 256 * b. */
  lemma DivDiv(x: nat, b: nat)
    requires b > 0
    ensures x / 256 / b == x / (256 * b)
  {
    var q := x / 256 / b;
    var r1 := x % 256;
    var r2 := x / 256 % b;
    assert x / 256 == b * q + r2;
    assert 256 * (b * q) == (256 * b) * q;
    assert x == (256 * b) * q + (256 * r2 + r1);
    assert 256 * r2 + r1 < 256 * b;
    DivUnique(x, 256 * b, q, 256 * r2 + r1);
  }

  /** The quotient is the only q with x == d * q + r and 0 <= r < d. */
  lemma DivUnique(x: nat, d: nat, q: nat, r: nat)
    requires d > 0 && r < d && x == d * q + r
    ensures x / d == q
  {
    var q' := x / d;
    var r' := x % d;
    assert x == d * q' + r';
    if q' < q {
      MulMonotone(d, q' + 1, q);
    } else if q' > q {
      MulMonotone(d, q + 1, q');
    }
  }

  /** Multiplying by d preserves order. */
  lemma {:induction false} MulMonotone(d: nat, a: nat, b: nat)
    requires a <= b
    ensures d * a <= d * b
    decreases b - a
  {
    if a < b {
      MulMonotone(d, a + 1, b);
      assert d * (a + 1) == d * a + d;
    }
  }

  /** Two values that fit in n bytes have the same encoding only if they are equal. */
  lemma LEInjective(x: nat, y: nat, n: nat)
    requires x < Pow256(n) && y < Pow256(n)
    requires LE(x, n) == LE(y, n)
    ensures x == y
  {
    FromLEOfLE(x, n);
    FromLEOfLE(y, n);
  }
}
