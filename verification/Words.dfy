/** Machine words: fixed-width unsigned integers and little-endian byte order. */
module Words {
  type byte = x: int | 0 <= x < 0x100
  type u64 = x: int | 0 <= x < 0x1_0000_0000_0000_0000

  /** C's unsigned 64-bit addition. */
  function Add64(a: u64, b: u64): u64 {
    (a + b) % 0x1_0000_0000_0000_0000
  }

  /** C's conversion to a signed 32-bit int. */
  function Int32(v: int): int {
    (v + 0x8000_0000) % 0x1_0000_0000 - 0x8000_0000
  }

  /** C's conversion of a signed int to uint64_t. */
  function U64(v: int): u64 {
    v % 0x1_0000_0000_0000_0000
  }

  /** 256 to the power n. */
  function Pow256(n: nat): (p: nat)
    ensures p > 0
  {
    if n == 0 then 1 else 256 * Pow256(n - 1)
  }

  /** The low n bytes of v, least significant first: (uint8_t)(v >> (8 * i)). */
  function LittleEndian(v: nat, n: nat): (r: seq<byte>)
    ensures |r| == n
  {
    if n == 0 then [] else [v % 256] + LittleEndian(v / 256, n - 1)
  }

  /** The sum of ((uint64_t)p[i]) << (8 * i). */
  function FromLittleEndian(p: seq<byte>): (v: nat)
    ensures v < Pow256(|p|)
  {
    if p == [] then 0 else p[0] + 256 * FromLittleEndian(p[1..])
  }

  lemma {:induction false} LittleEndianRoundTrip(v: nat, n: nat)
    requires v < Pow256(n)
    ensures FromLittleEndian(LittleEndian(v, n)) == v
  {
    if n > 0 {
      LittleEndianRoundTrip(v / 256, n - 1);
      assert LittleEndian(v, n)[1..] == LittleEndian(v / 256, n - 1);
    }
  }

  lemma {:induction false} FromLittleEndianRoundTrip(p: seq<byte>)
    ensures LittleEndian(FromLittleEndian(p), |p|) == p
  {
    if p != [] {
      FromLittleEndianRoundTrip(p[1..]);
      assert p == [p[0]] + p[1..];
    }
  }

  /** The i-th byte is what the shift and the narrowing cast in the source select. */
  lemma {:induction false} LittleEndianAt(v: nat, n: nat, i: nat)
    requires i < n
    ensures LittleEndian(v, n)[i] == v / Pow256(i) % 256
  {
    if i > 0 {
      LittleEndianAt(v / 256, n - 1, i - 1);
      DivDiv(v, Pow256(i - 1));
    }
  }

  lemma DivDiv(v: nat, p: nat)
    requires p > 0
    ensures v / 256 / p == v / (256 * p)
  {
    var q, r := v / 256, v % 256;
    var q', r' := q / p, q % p;
    assert v == 256 * (p * q' + r') + r;
    assert v == (256 * p) * q' + (256 * r' + r);
    assert 0 <= 256 * r' + r < 256 * p;
    QuotientUnique(v, 256 * p, q', 256 * r' + r);
  }

  lemma QuotientUnique(v: nat, d: nat, q: nat, r: nat)
    requires d > 0 && r < d && v == d * q + r
    ensures v / d == q && v % d == r
  {
    var q', r' := v / d, v % d;
    if q > q' {
      MulAtLeast(d, q, q' + 1);
    } else if q < q' {
      MulAtLeast(d, q', q + 1);
    }
  }

  lemma MulAtLeast(d: nat, x: int, y: int)
    requires x >= y
    ensures d * x >= d * y
  {
  }
}
