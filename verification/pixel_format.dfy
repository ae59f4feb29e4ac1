/** The value types of `rfbhelpers.py`: the pixel format (section 7.4 of
    RFC 6143) and the rectangle header fields, plus the 16-octet wire layout
    `!BBBBHHHBBBxxx` that both clients pack and unpack the pixel format with. */
module RfbHelpers {
  import opened Bytes

  /** The ten pixel-format fields in wire order: bits per pixel, depth,
      big-endian flag, true-colour flag, red/green/blue maximum, red/green/blue
      shift. This is what `asTuple` returns and what `unpack` produces. */
  type PixelTuple = (int, int, int, int, int, int, int, int, int, int)

  /** `RFBPixelformat`. `bytespp` is derived once, in the constructor. */
  datatype PixelFormat = PixelFormat(
    bitspp: int, bytespp: int, depth: int, bigendian: int, truecolor: int,
    redmax: int, greenmax: int, bluemax: int,
    redshift: int, greenshift: int, blueshift: int)

  /** `1 if flag else 0` for an integer argument (Python truthiness). */
  function Flag(x: int): (r: int)
    ensures r == 0 || r == 1
    ensures r == 1 <==> x != 0
  {
    if x != 0 then 1 else 0
  }

  /** `RFBPixelformat(bpp, depth, bigendian, truecolor, ...)`. Python's `//`
      rounds down; Dafny's `/` by the positive 8 does the same. */
  function NewPixelFormat(bpp: int, depth: int, bigendian: int, truecolor: int,
                          redmax: int, greenmax: int, bluemax: int,
                          redshift: int, greenshift: int, blueshift: int): (pf: PixelFormat)
    ensures pf.bitspp == bpp && pf.depth == depth
    ensures pf.bytespp * 8 <= bpp < pf.bytespp * 8 + 8
    ensures pf.bigendian == Flag(bigendian) && pf.truecolor == Flag(truecolor)
    ensures pf.redmax == redmax && pf.greenmax == greenmax && pf.bluemax == bluemax
    ensures pf.redshift == redshift && pf.greenshift == greenshift && pf.blueshift == blueshift
  {
    PixelFormat(bpp, bpp / 8, depth, Flag(bigendian), Flag(truecolor),
                redmax, greenmax, bluemax, redshift, greenshift, blueshift)
  }

  /** The constructor applied to a ten-field tuple, `RFBPixelformat(*t)`. */
  function FromTuple(t: PixelTuple): PixelFormat {
    NewPixelFormat(t.0, t.1, t.2, t.3, t.4, t.5, t.6, t.7, t.8, t.9)
  }

  /** `RFBPixelformat()` with its default arguments. */
  function Default(): (pf: PixelFormat)
    ensures pf.bitspp == 32 && pf.bytespp == 4 && pf.depth == 24
    ensures pf.bigendian == 0 && pf.truecolor == 1
    ensures pf.redmax == 255 && pf.greenmax == 255 && pf.bluemax == 255
    ensures pf.redshift == 0 && pf.greenshift == 0 && pf.blueshift == 16
  {
    NewPixelFormat(32, 24, 0, 1, 255, 255, 255, 0, 0, 16)
  }

  /** `RFBPixelformat.getRGB32()`. */
  function GetRGB32(): (pf: PixelFormat)
    ensures pf.bitspp == 32 && pf.bytespp == 4 && pf.depth == 32
    ensures pf.bigendian == 0 && pf.truecolor == 1
    ensures pf.redmax == 255 && pf.greenmax == 255 && pf.bluemax == 255
    ensures pf.redshift == 16 && pf.greenshift == 8 && pf.blueshift == 0
  {
    NewPixelFormat(32, 32, 0, 1, 255, 255, 255, 16, 8, 0)
  }

  /** `asTuple`: the fields in wire order (bytespp is not on the wire). */
  function AsTuple(pf: PixelFormat): PixelTuple {
    (pf.bitspp, pf.depth, pf.bigendian, pf.truecolor,
     pf.redmax, pf.greenmax, pf.bluemax, pf.redshift, pf.greenshift, pf.blueshift)
  }

  /** Building a pixel format from a tuple and reading it back with `asTuple`
      gives the tuple again exactly when both flags already are 0 or 1; any
      other truthy flag comes back as 1. */
  lemma TupleRoundTrip(t: PixelTuple)
    ensures AsTuple(FromTuple(t)) == t <==> (t.2 == 0 || t.2 == 1) && (t.3 == 0 || t.3 == 1)
  {
  }

  /** The tuple fits the `!BBBBHHHBBBxxx` layout, so `pack` accepts it. */
  predicate Packable(t: PixelTuple) {
    IsU8(t.0) && IsU8(t.1) && IsU8(t.2) && IsU8(t.3)
    && IsU16(t.4) && IsU16(t.5) && IsU16(t.6)
    && IsU8(t.7) && IsU8(t.8) && IsU8(t.9)
  }

  /** `pack("!BBBBHHHBBBxxx", *t)`: 16 octets, the last three padding. */
  function PackPixelFormat(t: PixelTuple): (r: seq<byte>)
    requires Packable(t)
    ensures |r| == 16
  {
    [t.0, t.1, t.2, t.3] + U16(t.4) + U16(t.5) + U16(t.6) + [t.7, t.8, t.9] + [0, 0, 0]
  }

  /** `unpack("!BBBBHHHBBBxxx", block)`; the padding octets are skipped. */
  function UnpackPixelFormat(block: seq<byte>): (t: PixelTuple)
    requires |block| == 16
    ensures Packable(t)
  {
    (block[0], block[1], block[2], block[3],
     DecodeU16(block[4..6]), DecodeU16(block[6..8]), DecodeU16(block[8..10]),
     block[10], block[11], block[12])
  }

  /** Unpacking what was packed gives the same ten fields. */
  lemma PackRoundTrip(t: PixelTuple)
    requires Packable(t)
    ensures UnpackPixelFormat(PackPixelFormat(t)) == t
  {
    var r := PackPixelFormat(t);
    assert r[4..6] == U16(t.4) && r[6..8] == U16(t.5) && r[8..10] == U16(t.6);
    U16RoundTrip(t.4);
    U16RoundTrip(t.5);
    U16RoundTrip(t.6);
  }

  /** Packing what was unpacked gives the block back with its padding zeroed. */
  lemma UnpackRoundTrip(block: seq<byte>)
    requires |block| == 16
    ensures PackPixelFormat(UnpackPixelFormat(block)) == block[..13] + [0, 0, 0]
  {
    DecodeU16RoundTrip(block[4..6]);
    DecodeU16RoundTrip(block[6..8]);
    DecodeU16RoundTrip(block[8..10]);
    var r := PackPixelFormat(UnpackPixelFormat(block));
    assert forall k :: 0 <= k < 16 ==> r[k] == (block[..13] + [0, 0, 0])[k];
  }

  /** `RFBRectangle(xPos, yPos, width, height)`. */
  datatype Rectangle = Rectangle(xPos: int, yPos: int, width: int, height: int)

  /** `RFBRectangle.asTuple`: the constructor arguments in constructor order. */
  function RectangleTuple(r: Rectangle): (int, int, int, int) {
    (r.xPos, r.yPos, r.width, r.height)
  }
}
