/** The client-to-server messages of section 7.5 of RFC 6143 as both clients
    lay them out with `struct.pack`. Every encoder states its length, its
    message type and that decoding each field from its fixed offset gives
    back the argument, which is what a server relies on. */
module ClientMessages {
  import opened Bytes
  import opened RfbHelpers

  const CMSG_SETPIXELFORMAT: byte := 0
  const CMSG_SETENCODINGS: byte := 2
  const CMSG_FBUPDATEREQ: byte := 3
  const CMSG_KEYEVENT: byte := 4
  const CMSG_POINTEREVENT: byte := 5
  const CMSG_CLIENTCUTTEXT: byte := 6

  /** `pack("!Bxxx16s", CMSG_SETPIXELFORMAT, pack("!BBBBHHHBBBxxx", *t))` */
  function SetPixelFormatMessage(t: PixelTuple): (r: seq<byte>)
    requires Packable(t)
    ensures |r| == 20 && r[0] == CMSG_SETPIXELFORMAT && r[1..4] == [0, 0, 0]
    ensures UnpackPixelFormat(r[4..]) == t
  {
    var body := PackPixelFormat(t);
    PackRoundTrip(t);
    assert ([CMSG_SETPIXELFORMAT, 0, 0, 0] + body)[4..] == body;
    [CMSG_SETPIXELFORMAT, 0, 0, 0] + body
  }

  /** `pack("!BxH", CMSG_SETENCODINGS, n)`: the header before the list. */
  function SetEncodingsHeader(n: int): (r: seq<byte>)
    requires IsU16(n)
    ensures |r| == 4 && r[0] == CMSG_SETENCODINGS && r[1] == 0
    ensures DecodeU16(r[2..]) == n
  {
    U16RoundTrip(n);
    assert ([CMSG_SETENCODINGS, 0] + U16(n))[2..] == U16(n);
    [CMSG_SETENCODINGS, 0] + U16(n)
  }

  /** The `i`-th four-octet word of a message body. */
  function Word(s: seq<byte>, i: nat): seq<byte>
    requires 4 * i + 4 <= |s|
  {
    s[4 * i .. 4 * i + 4]
  }

  /** Appending octets leaves the words already there unchanged. */
  lemma WordsOfPrefix(s: seq<byte>, tail: seq<byte>)
    ensures forall i: nat :: 4 * i + 4 <= |s| ==> Word(s + tail, i) == Word(s, i)
  {
  }

  /** One `pack("!I", e)` per encoding, as `rfb_old.py` writes them. */
  function EncodingsUnsigned(encs: seq<int>): (r: seq<byte>)
    requires forall i :: 0 <= i < |encs| ==> IsU32(encs[i])
    ensures |r| == 4 * |encs|
    ensures forall i :: 0 <= i < |encs| ==> DecodeU32(Word(r, i)) == encs[i]
  {
    if encs == [] then []
    else
      var n := |encs| - 1;
      var rest := EncodingsUnsigned(encs[..n]);
      var r := rest + U32(encs[n]);
      U32RoundTrip(encs[n]);
      assert Word(r, n) == U32(encs[n]);
      WordsOfPrefix(rest, U32(encs[n]));
      r
  }

  /** One `return_sint32_bytes(e)` per encoding, as `rfb.py` writes them, so
      negative pseudo-encodings are sent in two's complement. */
  function EncodingsSigned(encs: seq<int>): (r: seq<byte>)
    requires forall i :: 0 <= i < |encs| ==> IsS32(encs[i])
    ensures |r| == 4 * |encs|
    ensures forall i :: 0 <= i < |encs| ==> DecodeS32(Word(r, i)) == encs[i]
  {
    if encs == [] then []
    else
      var n := |encs| - 1;
      var rest := EncodingsSigned(encs[..n]);
      var r := rest + S32(encs[n]);
      S32RoundTrip(encs[n]);
      assert Word(r, n) == S32(encs[n]);
      WordsOfPrefix(rest, S32(encs[n]));
      r
  }

  /** On encodings that are not negative the two clients send the same
      octets. */
  lemma {:induction false} EncodingsAgree(encs: seq<int>)
    requires forall i :: 0 <= i < |encs| ==> 0 <= encs[i] < 0x8000_0000
    ensures EncodingsSigned(encs) == EncodingsUnsigned(encs)
  {
    if encs != [] {
      S32RoundTrip(encs[|encs| - 1]);
      EncodingsAgree(encs[..|encs| - 1]);
    }
  }

  /** `pack("!BBHHHH", CMSG_FBUPDATEREQ, incremental, x, y, width, height)` */
  function UpdateRequestMessage(incremental: int, x: int, y: int, width: int, height: int): (r: seq<byte>)
    requires IsU8(incremental) && IsU16(x) && IsU16(y) && IsU16(width) && IsU16(height)
    ensures |r| == 10 && r[0] == CMSG_FBUPDATEREQ && r[1] == incremental
    ensures DecodeU16(r[2..4]) == x && DecodeU16(r[4..6]) == y
    ensures DecodeU16(r[6..8]) == width && DecodeU16(r[8..10]) == height
  {
    U16RoundTrip(x);
    U16RoundTrip(y);
    U16RoundTrip(width);
    U16RoundTrip(height);
    var r := [CMSG_FBUPDATEREQ, incremental] + U16(x) + U16(y) + U16(width) + U16(height);
    assert r[2..4] == U16(x) && r[4..6] == U16(y) && r[6..8] == U16(width) && r[8..10] == U16(height);
    r
  }

  /** `pack("!BBxxI", CMSG_KEYEVENT, down, key)` */
  function KeyEventMessage(key: int, down: int): (r: seq<byte>)
    requires IsU32(key) && IsU8(down)
    ensures |r| == 8 && r[0] == CMSG_KEYEVENT && r[1] == down && r[2..4] == [0, 0]
    ensures DecodeU32(r[4..]) == key
  {
    U32RoundTrip(key);
    assert ([CMSG_KEYEVENT, down, 0, 0] + U32(key))[4..] == U32(key);
    [CMSG_KEYEVENT, down, 0, 0] + U32(key)
  }

  /** `pack("!BBHH", CMSG_POINTEREVENT, buttonmask, x, y)` */
  function PointerEventMessage(x: int, y: int, mask: int): (r: seq<byte>)
    requires IsU16(x) && IsU16(y) && IsU8(mask)
    ensures |r| == 6 && r[0] == CMSG_POINTEREVENT && r[1] == mask
    ensures DecodeU16(r[2..4]) == x && DecodeU16(r[4..6]) == y
  {
    U16RoundTrip(x);
    U16RoundTrip(y);
    var r := [CMSG_POINTEREVENT, mask] + U16(x) + U16(y);
    assert r[2..4] == U16(x) && r[4..6] == U16(y);
    r
  }

  /** `pack("!BxxxI", CMSG_CLIENTCUTTEXT, len(message)) + message` */
  function ClientCutTextMessage(message: seq<byte>): (r: seq<byte>)
    requires IsU32(|message|)
    ensures |r| == 8 + |message| && r[0] == CMSG_CLIENTCUTTEXT && r[1..4] == [0, 0, 0]
    ensures DecodeU32(r[4..8]) == |message| && r[8..] == message
  {
    U32RoundTrip(|message|);
    var r := [CMSG_CLIENTCUTTEXT, 0, 0, 0] + U32(|message|) + message;
    assert r[4..8] == U32(|message|) && r[8..] == message;
    r
  }
}
