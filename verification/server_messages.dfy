/** The fixed-size server-to-client layouts both clients unpack with
    `struct.unpack`: ServerInit (section 7.3.2 of RFC 6143), the
    FramebufferUpdate and rectangle headers (section 7.6.1) and the
    ServerCutText header (section 7.6.4). Each parser is paired with the
    server-side layout it inverts. */
module ServerMessages {
  import opened Bytes
  import opened RfbHelpers

  /** `unpack("!HH16sI", block)` followed by the pixel-format unpack. */
  datatype ServerInitFields = ServerInitFields(width: int, height: int, format: PixelTuple, nameLength: int)

  function ParseServerInit(block: seq<byte>): (f: ServerInitFields)
    requires |block| == 24
    ensures IsU16(f.width) && IsU16(f.height) && Packable(f.format) && IsU32(f.nameLength)
  {
    ServerInitFields(DecodeU16(block[..2]), DecodeU16(block[2..4]),
                     UnpackPixelFormat(block[4..20]), DecodeU32(block[20..]))
  }

  predicate ServerInitEncodable(f: ServerInitFields) {
    IsU16(f.width) && IsU16(f.height) && Packable(f.format) && IsU32(f.nameLength)
  }

  /** The server side of ServerInit, without the name that follows. */
  function EncodeServerInit(f: ServerInitFields): (block: seq<byte>)
    requires ServerInitEncodable(f)
    ensures |block| == 24
  {
    U16(f.width) + U16(f.height) + PackPixelFormat(f.format) + U32(f.nameLength)
  }

  /** The client reads back what the server sent. */
  lemma ServerInitRoundTrip(f: ServerInitFields)
    requires ServerInitEncodable(f)
    ensures ParseServerInit(EncodeServerInit(f)) == f
  {
    var b := EncodeServerInit(f);
    assert b[..2] == U16(f.width) && b[2..4] == U16(f.height);
    assert b[4..20] == PackPixelFormat(f.format) && b[20..] == U32(f.nameLength);
    U16RoundTrip(f.width);
    U16RoundTrip(f.height);
    PackRoundTrip(f.format);
    U32RoundTrip(f.nameLength);
  }

  /** A rectangle header `!HHHHI`. */
  datatype RectangleFields = RectangleFields(x: int, y: int, width: int, height: int, encoding: int)

  /** The encoding is read unsigned, so a negative pseudo-encoding such as
      the cursor's -239 arrives as its 32-bit two's complement value and
      never equals the negative constant. */
  function ParseRectangleHeader(block: seq<byte>): (r: RectangleFields)
    requires |block| == 12
    ensures IsU16(r.x) && IsU16(r.y) && IsU16(r.width) && IsU16(r.height)
    ensures 0 <= r.encoding < TWO32
  {
    RectangleFields(DecodeU16(block[..2]), DecodeU16(block[2..4]), DecodeU16(block[4..6]),
                    DecodeU16(block[6..8]), DecodeU32(block[8..]))
  }

  /** The server side of a rectangle header; it sends the encoding as a
      signed 32-bit value. */
  function EncodeRectangleHeader(x: int, y: int, width: int, height: int, encoding: int): (block: seq<byte>)
    requires IsU16(x) && IsU16(y) && IsU16(width) && IsU16(height) && IsS32(encoding)
    ensures |block| == 12
  {
    U16(x) + U16(y) + U16(width) + U16(height) + S32(encoding)
  }

  /** Positions and sizes read back unchanged; an encoding reads back
      unchanged when it is not negative and as `encoding + 2^32` when it is. */
  lemma RectangleHeaderRoundTrip(x: int, y: int, width: int, height: int, encoding: int)
    requires IsU16(x) && IsU16(y) && IsU16(width) && IsU16(height) && IsS32(encoding)
    ensures ParseRectangleHeader(EncodeRectangleHeader(x, y, width, height, encoding))
         == RectangleFields(x, y, width, height, if encoding < 0 then encoding + TWO32 else encoding)
  {
    var b := EncodeRectangleHeader(x, y, width, height, encoding);
    assert b[..2] == U16(x) && b[2..4] == U16(y) && b[4..6] == U16(width) && b[6..8] == U16(height);
    assert b[8..] == S32(encoding);
    U16RoundTrip(x);
    U16RoundTrip(y);
    U16RoundTrip(width);
    U16RoundTrip(height);
    U32RoundTrip(if encoding < 0 then encoding + TWO32 else encoding);
  }

  /** `unpack("!xH", block)`: the number of rectangles of an update. */
  function ParseRectangleCount(block: seq<byte>): (n: nat)
    requires |block| == 3
    ensures IsU16(n)
  {
    DecodeU16(block[1..])
  }

  /** `unpack("!xxxI", block)`: the length of the cut text that follows. */
  function ParseCutTextLength(block: seq<byte>): (n: nat)
    requires |block| == 7
    ensures IsU32(n)
  {
    DecodeU32(block[3..])
  }

  /** The padding octets are ignored and the counts read back unchanged. */
  lemma HeaderCountsRoundTrip(pad: seq<byte>, count: int, length: int)
    requires |pad| == 3 && IsU16(count) && IsU32(length)
    ensures ParseRectangleCount(pad[..1] + U16(count)) == count
    ensures ParseCutTextLength(pad + U32(length)) == length
  {
    assert (pad[..1] + U16(count))[1..] == U16(count);
    assert (pad + U32(length))[3..] == U32(length);
    U16RoundTrip(count);
    U32RoundTrip(length);
  }
}
