/** Octets and the network-order (big-endian) integer codecs that every RFB
    message is built from: the `struct` formats `B`, `H`, `I` and `i` with the
    `!` prefix, and the `return_uint*_val` / `return_*_bytes` helpers. */
module Bytes {

  /** One octet on the wire. */
  type byte = b: int | 0 <= b < 256

  datatype Option<+T> = None | Some(value: T)

  const TWO16: int := 0x1_0000
  const TWO32: int := 0x1_0000_0000

  predicate IsU8(x: int) { 0 <= x < 256 }
  predicate IsU16(x: int) { 0 <= x < TWO16 }
  predicate IsU32(x: int) { 0 <= x < TWO32 }
  predicate IsS32(x: int) { -0x8000_0000 <= x < 0x8000_0000 }

  /** `pack("!H", x)` */
  function U16(x: int): (r: seq<byte>)
    requires IsU16(x)
    ensures |r| == 2
  {
    [x / 256, x % 256]
  }

  /** `unpack("!H", s)` */
  function DecodeU16(s: seq<byte>): (r: int)
    requires |s| == 2
    ensures IsU16(r)
  {
    (s[0] as int) * 256 + s[1]
  }

  /** `pack("!I", x)` */
  function U32(x: int): (r: seq<byte>)
    requires IsU32(x)
    ensures |r| == 4
  {
    U16(x / TWO16) + U16(x % TWO16)
  }

  /** `unpack("!I", s)` */
  function DecodeU32(s: seq<byte>): (r: int)
    requires |s| == 4
    ensures IsU32(r)
  {
    DecodeU16(s[..2]) * TWO16 + DecodeU16(s[2..])
  }

  /** `pack("!i", x)`: two's complement in four octets. */
  function S32(x: int): (r: seq<byte>)
    requires IsS32(x)
    ensures |r| == 4
  {
    U32(if x < 0 then x + TWO32 else x)
  }

  /** `unpack("!i", s)` */
  function DecodeS32(s: seq<byte>): (r: int)
    requires |s| == 4
    ensures IsS32(r)
  {
    var u := DecodeU32(s);
    if u < 0x8000_0000 then u else u - TWO32
  }

  /** Quotient and remainder by 2^16 are unique. */
  lemma DivModTwo16(n: int, q: int, r: int)
    requires 0 <= r < TWO16 && n == q * TWO16 + r
    ensures n / TWO16 == q && n % TWO16 == r
  {
  }

  lemma U16RoundTrip(x: int)
    requires IsU16(x)
    ensures DecodeU16(U16(x)) == x
  {
  }

  lemma DecodeU16RoundTrip(s: seq<byte>)
    requires |s| == 2
    ensures U16(DecodeU16(s)) == s
  {
  }

  lemma U32RoundTrip(x: int)
    requires IsU32(x)
    ensures DecodeU32(U32(x)) == x
  {
    var r := U32(x);
    assert r[..2] == U16(x / TWO16) && r[2..] == U16(x % TWO16);
    U16RoundTrip(x / TWO16);
    U16RoundTrip(x % TWO16);
  }

  lemma DecodeU32RoundTrip(s: seq<byte>)
    requires |s| == 4
    ensures U32(DecodeU32(s)) == s
  {
    var hi, lo := DecodeU16(s[..2]), DecodeU16(s[2..]);
    DivModTwo16(DecodeU32(s), hi, lo);
    DecodeU16RoundTrip(s[..2]);
    DecodeU16RoundTrip(s[2..]);
    assert s == s[..2] + s[2..];
  }

  /** Signed and unsigned four-octet codecs agree on the non-negative range,
      and the signed one round-trips every 32-bit signed value. */
  lemma S32RoundTrip(x: int)
    requires IsS32(x)
    ensures DecodeS32(S32(x)) == x
    ensures 0 <= x ==> S32(x) == U32(x)
  {
    U32RoundTrip(if x < 0 then x + TWO32 else x);
  }
}
