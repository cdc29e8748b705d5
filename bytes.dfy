/** Bytes, the big-endian 32-bit integer layout used on the relay wire, and the lowercase hex
    text that `fmt.Sprintf("%x", b)` produces for a byte slice. */
module Bytes {

  type byte = b: int | 0 <= b < 256

  const TwoTo32: int := 0x1_0000_0000

  /** `binary.BigEndian.PutUint32`: the four bytes of `n`, most significant first. */
  function Be32(n: nat): (b: seq<byte>)
    requires n < TwoTo32
    ensures |b| == 4
  {
    [n / 0x100_0000, (n / 0x1_0000) % 0x100, (n / 0x100) % 0x100, n % 0x100]
  }

  /** `binary.BigEndian.Uint32`: the value of the first four bytes of `b`; later bytes are ignored. */
  function Be32Value(b: seq<byte>): (n: nat)
    requires |b| >= 4
    ensures n < TwoTo32
  {
    (b[0] as int) * 0x100_0000 + (b[1] as int) * 0x1_0000 + (b[2] as int) * 0x100 + b[3] as int
  }

  lemma Be32RoundTrip(n: nat, rest: seq<byte>)
    requires n < TwoTo32
    ensures |Be32(n)| == 4
    ensures Be32Value(Be32(n) + rest) == n
  {
    var b := Be32(n) + rest;
    var q1 := n / 0x100;
    var q2 := q1 / 0x100;
    var q3 := q2 / 0x100;
    assert n == q1 * 0x100 + n % 0x100;
    assert q1 == q2 * 0x100 + q1 % 0x100;
    assert q2 == q3 * 0x100 + q2 % 0x100;
    assert n / 0x1_0000 == q2;
    assert n / 0x100_0000 == q3;
    assert b[0] == q3 && b[1] == q2 % 0x100 && b[2] == q1 % 0x100 && b[3] == n % 0x100;
  }

  lemma Be32Injective(b: seq<byte>)
    requires |b| >= 4
    ensures Be32(Be32Value(b)) == b[..4]
  {
    var n := Be32Value(b);
    assert n % 0x100 == b[3];
    assert n / 0x100 == (b[0] as int) * 0x1_0000 + (b[1] as int) * 0x100 + b[2] as int;
    assert n / 0x1_0000 == (b[0] as int) * 0x100 + b[1] as int;
    assert n / 0x100_0000 == b[0];
  }

  /** One lowercase hex digit, as its ASCII code. */
  function HexDigit(v: nat): (c: byte)
    requires v < 16
  {
    if v < 10 then '0' as int + v else 'a' as int + (v - 10)
  }

  predicate IsLowerHexDigit(c: byte)
  {
    '0' as int <= c <= '9' as int || 'a' as int <= c <= 'f' as int
  }

  function HexDigitValue(c: byte): (v: nat)
    requires IsLowerHexDigit(c)
    ensures v < 16 && HexDigit(v) == c
  {
    if c <= '9' as int then c - '0' as int else c - 'a' as int + 10
  }

  /** `%x` applied to a byte slice: two lowercase hex digits per byte, high nibble first. */
  function Hex(b: seq<byte>): (h: seq<byte>)
    ensures |h| == 2 * |b|
    ensures forall i :: 0 <= i < |h| ==> IsLowerHexDigit(h[i])
  {
    if b == [] then [] else [HexDigit(b[0] / 16), HexDigit(b[0] % 16)] + Hex(b[1..])
  }

  /** The inverse of `Hex`, defined on even-length lowercase hex text. */
  function Unhex(h: seq<byte>): (b: seq<byte>)
    requires |h| % 2 == 0
    requires forall i :: 0 <= i < |h| ==> IsLowerHexDigit(h[i])
    ensures |b| == |h| / 2
  {
    if h == [] then [] else [HexDigitValue(h[0]) * 16 + HexDigitValue(h[1])] + Unhex(h[2..])
  }

  lemma {:induction false} HexRoundTrip(b: seq<byte>)
    ensures Unhex(Hex(b)) == b
  {
    if b != [] {
      HexRoundTrip(b[1..]);
      var h := Hex(b);
      assert h[2..] == Hex(b[1..]);
      assert HexDigitValue(h[0]) == b[0] / 16 by {
        assert HexDigit(HexDigitValue(h[0])) == HexDigit(b[0] / 16);
      }
      assert HexDigitValue(h[1]) == b[0] % 16 by {
        assert HexDigit(HexDigitValue(h[1])) == HexDigit(b[0] % 16);
      }
    }
  }
}
