# RFB client core of qvncwidget, in Dafny

qvncwidget is a Qt VNC viewer. Its protocol layer is an RFB (Remote
Framebuffer, RFC 6143) client that exists in two versions:

- `rfb_old.py` is an event-driven client. The transport hands it chunks of
  octets. It buffers them and calls the pending handler whenever the buffer
  holds the size that handler expects.
- `rfb.py` is a blocking client. Its handlers run one after the other, each
  reading the next octets from the socket with `__recv`.

Both clients share some pure helpers (`rfbhelpers.py`: the pixel format and
rectangle records) and the VNC-authentication key mangling (`rfbdes.py`:
`RFBDes.setKey`). `rfb_old.py` carries its own copy of `RFBDes`
(lines 719-733), which the same `RfbDes.SetKey` models.

This project models all four files and proves what they do.

| module | file | models |
|---|---|---|
| `Bytes` | bytes.dfy | octets and the big-endian `!H`, `!I`, `!i` codecs, with their round trips |
| `RfbDes` | des_key.dfy | `setKey`: the bit mirror of every key octet, as the imperative double loop and as a specification function; the password padding of `sendPassword` |
| `RfbHelpers` | pixel_format.dfy | `RFBPixelformat` (constructor, `getRGB32`, `asTuple`), its 16-octet wire form, `RFBRectangle` |
| `ClientMessages` | messages.dfy | the client-to-server messages both clients pack |
| `ServerMessages` | server_messages.dfy | ServerInit, rectangle headers and message counts as the clients unpack them |
| `Version` | version.dfy | the `RFB xxx.yyy\n` header: parsing, the version each client answers with, and the reply it writes |
| `Hextile` | hextile.dfy | the subencoding bits, the tile header size, the 16x16 tile walk and the nibble-packed subrectangle geometry |
| `Events` | events.dfy | the callbacks the decoders call (`updateRectangle`, `fillRectangle`, ...) and the RRE, CoRRE and Hextile records, with server-side encoders to state round trips |
| `EventClient` | event_client.dfy | `RFBClient` of `rfb_old.py` as a class: the buffer, the pending handler with its expected size, and every handler |
| `BlockingProtocol` | blocking_protocol.dfy | `rfb.py` read as functions of the octet stream the server sends: each handler's octets read, octets written, callbacks and ending, and lemmas about whole handshakes and message loops |
| `BlockingClient` | blocking_client.dfy | `RFBClient` of `rfb.py` as a class with a read cursor over that stream; every handler method is proved to do what its BlockingProtocol function says |

Interesting behaviour of the code, as modelled:

- **The float 3.3 in `rfb.py`.** `KNOWN_VERSIONS` in `rfb.py` holds the
  float `3.3` where the tuple `(3, 3)` was meant. So 3.3 counts as unknown
  and is echoed, which happens to give the right reply
  (`NewThreeThreeUnknown`). `rfb.py` also writes a literal `00` before
  each number instead of padding it to three digits, so two-digit versions
  give a reply longer than 12 octets (`NewReplyLength`).
- **`__recv(0)` reads ahead.** `__recv` treats a size of 0 as "the default
  4096". So a Raw rectangle of zero pixels consumes up to 4096 octets of
  whatever follows (`EmptyRawReadsAhead`). The same happens for a desktop
  name of length 0 and for cut text of length 0.
- **Minor versions other than 3.** With a chosen minor version other than 3,
  `rfb.py` reads no security type: the handshake ends silently after the
  reply (`OtherMinorEnds`). The branch that reads a failure reason for
  minor versions above 7 can never run (`NoServerReason`).
- **End of stream.** After the stream has ended, `rfb.py`'s message loop
  does not stop. Every turn reads nothing, logs, and sends another update
  request (`SpinsAtEndOfStream`).
- **Handshake exceptions.** During the handshake, `rfb.py`'s exceptions end
  the handshake thread. An unknown authentication result is logged and ends
  it too.
- **Signed and unsigned encodings.** In `rfb_old.py` the rectangle encoding
  is unpacked unsigned, so the Cursor pseudo-encoding branch (-239) is never
  taken (`RectangleHeaderRoundTrip`). `rfb_old.py` also sends encodings
  unsigned, while `rfb.py` sends them signed (`EncodingsAgree`).
- **CoRRE.** The CoRRE loop of `rfb_old.py` runs while its position is
  below the size of one record, not below the end of the block. It
  therefore reads only the first record, and the other subrectangles are
  never reported (`CorreFirstRecord`, `HandleCorreSubrects`).
- **`_handleAuthError` crashes.** `_handleAuthError` in `rfb_old.py` reads
  the reason length correctly, but then calls `self._handleAuthMessage(self,
  waitfor)`, passing two positional arguments to a bound method that takes
  one, so it raises a TypeError. The model records this as a crash.
- **Unknown authentication result in `rfb_old.py`.** Unlike `rfb.py`,
  `rfb_old.py` stays armed for the next block after an unknown result.
- **Handlers that expect 0 octets.** Suppose a handler of `rfb_old.py`
  expects 0 octets and, called with the empty block, leaves itself armed.
  Then `_handleExpected` calls it forever. The model records that as
  `diverged` and stops there.

`easystruct` is not part of this model. Its `return_*` helpers are read as
big-endian `struct` packing of the width their names give. The constants of
`rfbconstants` are transcribed as Dafny constants.

## Model

| member | source | states |
|---|---|---|
| Bytes.U16RoundTrip | qvncwidget/rfb.py:170 | a 16-bit value packed as `!H` unpacks to itself |
| Bytes.DecodeU16RoundTrip | qvncwidget/rfb_old.py:339 | two octets unpacked as `!H` and packed again are the same two octets |
| Bytes.U32RoundTrip | qvncwidget/rfb.py:152 | a 32-bit value packed as `!I` unpacks to itself |
| Bytes.DecodeU32RoundTrip | qvncwidget/rfb_old.py:326 | four octets unpacked as `!I` and packed again are the same four octets |
| Bytes.S32RoundTrip | qvncwidget/rfb.py:325-326 | a value packed as signed `!i` unpacks to itself, and a non-negative value packs the same as `!I` |
| RfbDes.MirrorKey | qvncwidget/rfbdes.py:12-20 | the new key has one octet per key octet |
| RfbDes.MirrorBit | qvncwidget/rfbdes.py:17-19 | bit i of the mirrored octet is set exactly when bit 7-i of the original is |
| RfbDes.MirrorInvolution | qvncwidget/rfbdes.py:16-19 | mirroring an octet twice gives it back |
| RfbDes.MirrorStep | qvncwidget/rfbdes.py:18-19 | turn i of the inner loop sets bit 7-i of the partial mirror exactly when bit i of the source is set |
| RfbDes.MirrorOctet | qvncwidget/rfbdes.py:16-19 | the inner bit loop yields the mirror of the source octet |
| RfbDes.SetKey | qvncwidget/rfbdes.py:5-21 | the key handed to DES is the key with every octet mirrored, in order |
| RfbDes.MirrorKeyAt | qvncwidget/rfbdes.py:14-20 | octet k of the new key is the mirror of octet k of the given key |
| RfbDes.MirrorKeyBits | qvncwidget/rfbdes.py:14-20 | bit i of new octet k is set exactly when bit 7-i of key octet k is |
| RfbDes.MirrorKeyInvolution | qvncwidget/rfbdes.py:14-20 | mangling a key twice gives it back |
| RfbDes.PadPassword | qvncwidget/rfb.py:371-376 | the DES key is 8 octets: the password cut to 8 or padded with zeros |
| RfbHelpers.Flag | qvncwidget/rfbhelpers.py:11-12 | a flag is stored as 1 when given non-zero and as 0 otherwise |
| RfbHelpers.NewPixelFormat | qvncwidget/rfbhelpers.py:3-20 | every field is stored as given, `bytespp` is `bitspp // 8` (floor), and the two flags are normalised to 0/1 |
| RfbHelpers.Default | qvncwidget/rfbhelpers.py:3-6 | the default format is 32 bpp, 4 octets per pixel, depth 24, little-endian, true colour, maxima 255, shifts 0, 0, 16 |
| RfbHelpers.GetRGB32 | qvncwidget/rfbhelpers.py:22-27 | the RGB32 format: 32 bpp, 4 octets per pixel, depth 32, shifts 16, 8, 0 |
| RfbHelpers.TupleRoundTrip | qvncwidget/rfbhelpers.py:29-34 | a format built from a tuple gives the tuple back from `asTuple` exactly when both flags of the tuple are 0 or 1 |
| RfbHelpers.PackRoundTrip | qvncwidget/rfb.py:320 | a packable tuple packed as the 16-octet `!BBBBHHHBBBxxx` reads back as itself |
| RfbHelpers.UnpackRoundTrip | qvncwidget/rfb.py:177 | 16 octets read as a pixel format and packed again are the same octets with the padding zeroed |
| ClientMessages.SetPixelFormatMessage | qvncwidget/rfb_old.py:610-611 | SetPixelFormat is 20 octets: type 0, three padding octets, and a format that reads back as the tuple |
| ClientMessages.SetEncodingsHeader | qvncwidget/rfb_old.py:620 | the SetEncodings header is type 2, one padding octet, and the count as `!H` |
| ClientMessages.EncodingsUnsigned | qvncwidget/rfb_old.py:621-622 | `rfb_old.py` writes 4 octets per encoding, each reading back as that encoding |
| ClientMessages.EncodingsSigned | qvncwidget/rfb.py:325-326 | `rfb.py` writes 4 signed octets per encoding, each reading back as that encoding |
| ClientMessages.EncodingsAgree | qvncwidget/rfb.py:323-326 | both clients send the same octets for non-negative encodings |
| ClientMessages.UpdateRequestMessage | qvncwidget/rfb_old.py:627 | FramebufferUpdateRequest is 10 octets, type 3, and its fields read back as given |
| ClientMessages.KeyEventMessage | qvncwidget/rfb_old.py:632 | KeyEvent is 8 octets, type 4, with down flag and key reading back |
| ClientMessages.PointerEventMessage | qvncwidget/rfb_old.py:639 | PointerEvent is 6 octets, type 5, with mask and position reading back |
| ClientMessages.ClientCutTextMessage | qvncwidget/rfb_old.py:645 | ClientCutText is 8 octets of header (type 6, length) followed by the text itself |
| ServerMessages.ParseServerInit | qvncwidget/rfb_old.py:290-294 | the fields of ServerInit are in their packed ranges |
| ServerMessages.ServerInitRoundTrip | qvncwidget/rfb.py:170 | a ServerInit as a server packs it reads back as its fields |
| ServerMessages.ParseRectangleHeader | qvncwidget/rfb_old.py:339 | the encoding of a rectangle header is read unsigned, so it is never negative |
| ServerMessages.RectangleHeaderRoundTrip | qvncwidget/rfb.py:289 | a header reads back as its position and size; a negative encoding such as -239 reads back as that encoding plus 2^32 |
| ServerMessages.ParseRectangleCount | qvncwidget/rfb.py:274 | the rectangle count of FramebufferUpdate is an unsigned 16-bit value |
| ServerMessages.ParseCutTextLength | qvncwidget/rfb.py:267 | the length of ServerCutText is an unsigned 32-bit value |
| ServerMessages.HeaderCountsRoundTrip | qvncwidget/rfb_old.py:326 | a count or length as the server packs it reads back unchanged |
| Version.ParseInt | qvncwidget/rfb.py:122 | when `int()` succeeds, the part without surrounding whitespace is all digits and the result is their decimal value |
| Version.SplitDot | qvncwidget/rfb.py:122 | splitting at the first dot gives the part before and after it, with no dot in the first |
| Version.SplitUnique | qvncwidget/rfb.py:122 | a string with exactly one dot splits into the two parts around it |
| Version.DecimalValueOf | qvncwidget/rfb.py:141 | `str(n)` is a string of digits whose value is n |
| Version.Pad3Value | qvncwidget/rfb_old.py:172 | the three-digit field `%03d` reads back as the number |
| Version.ParseVersion | qvncwidget/rfb.py:122 | a header shorter than 4 octets fails; otherwise the version parses exactly when `buffer[3:-1]` splits at a single dot into two parts `int()` accepts, and it is their two values |
| Version.OldReply | qvncwidget/rfb_old.py:172 | `'RFB {:03d}.{:03d}\n'` is at least 12 octets, starts with `RFB` and ends with the newline |
| Version.NewReply | qvncwidget/rfb.py:141 | `f"RFB 00{maj}.00{min}\n"` is at least 12 octets, starts with `RFB` and ends with the newline |
| Version.ParseFields | qvncwidget/rfb_old.py:151 | a header `RFB a.b\n` with digit fields parses as their values, the space after `RFB` being stripped by `int()` |
| Version.ParseOldReply | qvncwidget/rfb_old.py:151-172 | the header `rfb_old.py` writes parses back as the version it wrote |
| Version.NewChosen | qvncwidget/rfb.py:125-130 | `rfb.py` answers a known version with 3.3 and echoes any other |
| Version.OldAnswer | qvncwidget/rfb_old.py:152-172 | `rfb_old.py` answers every known version with "RFB 003.003\n" and echoes any other |
| Version.NewAnswer | qvncwidget/rfb.py:125-141 | `rfb.py` answers every known version with "RFB 003.003\n" |
| Version.NewThreeThreeUnknown | qvncwidget/rfb.py:35-42 | (3, 3) is not among `rfb.py`'s known versions, yet the echoed reply equals the 3.3 reply |
| Version.NewReplyLength | qvncwidget/rfb.py:141 | `rfb.py`'s reply is 10 octets plus the digits of both numbers: 12 and the same as `rfb_old.py`'s for one-digit versions |
| Hextile.HeaderSize | qvncwidget/rfb_old.py:459-465 | the tile header is empty exactly when no count follows and no colour adds octets; it is never more than two colours and one octet |
| Hextile.TileExtent | qvncwidget/rfb_old.py:452-454 | a tile side is 16, or what is left of the rectangle when less |
| Hextile.NextTile | qvncwidget/rfb_old.py:434-447 | the walk starts at the origin exactly when the height is positive, never yields a tile below the bottom, and moves 16 to the right while that stays left of the right edge, otherwise to the left edge 16 lower |
| Hextile.NextTileRowMajor | qvncwidget/rfb_old.py:434-447 | tiles advance 16 to the right, and past the right edge move to the next row at the left edge |
| Hextile.TileInside | qvncwidget/rfb_old.py:452-454 | every tile of the walk lies inside the rectangle and is a full 16 except in the last column or row |
| Hextile.SubrectGeometry | qvncwidget/rfb_old.py:510-513 | a subrectangle's coordinates are 0..15 and its sizes 1..16 |
| Hextile.SubrectRoundTrip | qvncwidget/rfb_old.py:523-528 | nibble-packed position and size read back as packed, in both directions |
| Events.Slice | qvncwidget/rfb_old.py:397 | Python slicing clips its bounds to the sequence |
| Events.RreFillsStep | qvncwidget/rfb_old.py:396-399 | the RRE loop reports one fill per whole record, in order |
| Events.RreRecordDecodes | qvncwidget/rfb_old.py:397-398 | an RRE record as a server packs it reports the colour, position and size it was built from |
| Events.RreRoundTrip | qvncwidget/rfb_old.py:390-400 | a run of packed RRE records reports exactly the placed rectangles, in order |
| Events.CorreFirstRecord | qvncwidget/rfb_old.py:419-421 | for packed CoRRE subrectangles, the one fill the loop reports is the first subrectangle, placed at the rectangle's origin |
| Events.ParseTileHeader | qvncwidget/rfb_old.py:472-487 | fails (the `IndexError` of `block[pos]`) exactly when a count is announced and the block is shorter than the header; absent colours carry over, the count is one octet, and 0 when not announced |
| Events.TileHeaderRoundTrip | qvncwidget/rfb_old.py:472-487 | a tile header built from colours and a count reads back as them, and a header of the expected size never fails |
| Events.ForegroundFillsStep | qvncwidget/rfb_old.py:522-530 | the foreground loop reports one fill in the current colour per whole 2-octet record |
| Events.ColouredFillsStep | qvncwidget/rfb_old.py:505-515 | the coloured loop reports one fill per whole record, each in its own colour |
| Events.ColouredRoundTrip | qvncwidget/rfb_old.py:500-516 | packed coloured subrectangles report exactly the placed rectangles and leave the last colour as foreground |
| Events.ForegroundRoundTrip | qvncwidget/rfb_old.py:518-531 | packed foreground subrectangles report exactly the placed rectangles in the foreground colour |
| EventClient.U32Prefix | qvncwidget/rfb_old.py:621-622 | the encodings before the first that `!I` cannot hold |
| EventClient.Payload | qvncwidget/rfb_old.py:343-361 | the payload expected after a rectangle header is well armed, and there is none exactly for an unknown encoding or a Hextile rectangle of height 0 |
| EventClient.RreRecordFills | qvncwidget/rfb_old.py:392-399 | the RRE loop succeeds exactly when the block is whole records, and reports the RRE fills |
| EventClient.ForegroundRecordFills | qvncwidget/rfb_old.py:520-530 | the foreground loop succeeds exactly on whole records and reports the foreground fills |
| EventClient.ColouredRecordFills | qvncwidget/rfb_old.py:502-515 | the coloured loop succeeds exactly on whole records, reports the fills and returns the last colour |
| EventClient.RfbClient.constructor | qvncwidget/rfb_old.py:136-140 | a new client is in its initial state with an empty buffer and nothing written |
| EventClient.RfbClient.DataReceived | qvncwidget/rfb_old.py:577-582 | received octets join the buffer and go to `_handleInitial` or `_handleExpected`; what the handlers have consumed only grows, and stays a prefix of what was received, so across calls they get the stream's octets in arrival order, each once; a short initial buffer stays untouched |
| EventClient.RfbClient.HandleExpected | qvncwidget/rfb_old.py:584-594 | blocks of the expected size are consumed until the buffer is shorter than expected or a handler failed; the version is kept |
| EventClient.RfbClient.Expect | qvncwidget/rfb_old.py:596-603 | arms the given handler with the given size |
| EventClient.RfbClient.Dispatch | qvncwidget/rfb_old.py:591 | calls the armed handler with the block, keeping the buffer invariant |
| EventClient.RfbClient.HandleInitial | qvncwidget/rfb_old.py:146-185 | waits for a newline and 12 octets, crashes on a header it cannot parse, answers with the chosen version, and drops an unknown one |
| EventClient.RfbClient.Greet | qvncwidget/rfb_old.py:170-185 | after parsing: answer, consume the header, and go on with what is buffered |
| EventClient.RfbClient.StartSession | qvncwidget/rfb_old.py:152-182 | writes the chosen version's reply, drops 12 octets and arms `_handleAuth33` (4 octets) or `_handleAuth37` (1 octet) |
| EventClient.RfbClient.AnswerVersion | qvncwidget/rfb_old.py:152-173 | the reply is the chosen version, and the connection is closed exactly for an unknown version |
| EventClient.RfbClient.DropHeader | qvncwidget/rfb_old.py:170-177 | the first 12 octets leave the buffer |
| EventClient.RfbClient.HandleAuth33 | qvncwidget/rfb_old.py:187-200 | type 0 expects the failure length, 1 writes the shared flag and expects ServerInit, 2 expects the 16-octet challenge; any other type is only printed and the handler stays armed |
| EventClient.RfbClient.HandleAuth37 | qvncwidget/rfb_old.py:202-209 | expects as many octets of security types as the count says |
| EventClient.RfbClient.HandleAuthTypes37 | qvncwidget/rfb_old.py:211-231 | VNC authentication is preferred, then none (client init up to minor 7, the result after that), then failure; with none of them the handler stays armed |
| EventClient.RfbClient.HandleConnFailed | qvncwidget/rfb_old.py:233-235 | expects the failure reason, as many octets as the length read |
| EventClient.RfbClient.HandleVncAuth | qvncwidget/rfb_old.py:242-246 | keeps the challenge, writes its encryption under the password or closes the connection when there is none, and expects the 4-octet result |
| EventClient.RfbClient.VncRequestPassword | qvncwidget/rfb_old.py:656-663 | with no password the connection is closed and nothing written; otherwise the challenge encrypted under the padded, mirrored password is written |
| EventClient.RfbClient.SendPassword | qvncwidget/rfb_old.py:248-255 | writes the challenge encrypted under the password padded or cut to 8 octets and mirrored |
| EventClient.RfbClient.HandleAuthResult | qvncwidget/rfb_old.py:257-274 | 0 starts client init; 1 expects the error reason from minor 8 on and otherwise reports the failure and closes; 2 reports too many tries and closes; any other result changes nothing |
| EventClient.RfbClient.HandleAuthError | qvncwidget/rfb_old.py:276-278 | the handler crashes (TypeError) |
| EventClient.RfbClient.DoClientInitialization | qvncwidget/rfb_old.py:285-287 | writes the shared flag and expects the 24-octet ServerInit |
| EventClient.RfbClient.HandleServerInit | qvncwidget/rfb_old.py:289-299 | stores the size, the pixel format and `bpp // 8`, and expects the name of the length read |
| EventClient.RfbClient.HandleServerName | qvncwidget/rfb_old.py:301-305 | stores the name, reports the connection and expects messages |
| EventClient.RfbClient.HandleConnection | qvncwidget/rfb_old.py:310-323 | type 0 expects the update header, 2 reports the bell, 3 expects the cut text header; any other type is skipped and the next message expected |
| EventClient.RfbClient.HandleFramebufferUpdate | qvncwidget/rfb_old.py:325-329 | takes the rectangle count, clears the positions, reports the begin of the update and expects the first header, or commits an empty update |
| EventClient.RfbClient.DoConnection | qvncwidget/rfb_old.py:331-336 | expects the next rectangle header, or with none left commits the update with its positions and expects the next message |
| EventClient.RfbClient.HandleRectangle | qvncwidget/rfb_old.py:338-363 | counts the rectangle, records its position and expects its payload, or goes on when there is none |
| EventClient.RfbClient.ExpectPayload | qvncwidget/rfb_old.py:343-361 | arms the payload that `Payload` names, or continues with the next rectangle |
| EventClient.RfbClient.HandleDecodeRaw | qvncwidget/rfb_old.py:367-370 | reports the pixels as an update of the rectangle, then continues |
| EventClient.RfbClient.HandleDecodeCopyRect | qvncwidget/rfb_old.py:374-377 | reports the copy from the source position read, then continues |
| EventClient.RfbClient.HandleDecodeRre | qvncwidget/rfb_old.py:381-388 | fills the rectangle with the background, then expects the records or continues |
| EventClient.RfbClient.HandleRreSubrects | qvncwidget/rfb_old.py:390-400 | reports the RRE fills; crashes exactly on a torn record, and otherwise continues |
| EventClient.RfbClient.HandleDecodeCorre | qvncwidget/rfb_old.py:404-411 | fills the rectangle with the background, then expects the records or continues |
| EventClient.RfbClient.HandleCorreSubrects | qvncwidget/rfb_old.py:413-423 | reports only the first record's fill; crashes exactly when there is not one whole record |
| EventClient.RfbClient.DoNextHextileSubrect | qvncwidget/rfb_old.py:427-447 | expects the next tile's subencoding, or finishes the rectangle after the last tile |
| EventClient.RfbClient.NextTileAfter | qvncwidget/rfb_old.py:470 | goes on after the current tile as the walk says |
| EventClient.RfbClient.HandleDecodeHextile | qvncwidget/rfb_old.py:449-470 | a raw tile expects its pixels, a header expects its size, an empty header fills the tile with the background and goes on |
| EventClient.RfbClient.HandleHextileHeader | qvncwidget/rfb_old.py:472-492 | fills the tile with the new or old background, reads the header as `ParseTileHeader` does, then expects the subrectangles or goes on; crashes exactly when the count is missing |
| EventClient.RfbClient.HandleHextileRaw | qvncwidget/rfb_old.py:495-498 | reports the tile's pixels, then goes on |
| EventClient.RfbClient.HandleHextileColoured | qvncwidget/rfb_old.py:500-516 | reports the coloured fills, crashing exactly on a torn record; the last colour carries over as foreground |
| EventClient.RfbClient.HandleHextileForeground | qvncwidget/rfb_old.py:518-531 | reports the fills in the foreground colour, crashing exactly on a torn record |
| EventClient.RfbClient.HandleServerCutText | qvncwidget/rfb_old.py:566-568 | expects the text of the length read |
| EventClient.RfbClient.HandleServerCutTextValue | qvncwidget/rfb_old.py:570-572 | reports the text and expects the next message |
| EventClient.RfbClient.SetPixelFormat | qvncwidget/rfb_old.py:609-616 | an unpackable format changes nothing; otherwise the message is written and the format and octets per pixel are kept |
| EventClient.RfbClient.SetEncodings | qvncwidget/rfb_old.py:619-622 | writes the header and the encodings up to the first that cannot be packed, succeeding exactly when all can |
| EventClient.RfbClient.FramebufferUpdateRequest | qvncwidget/rfb_old.py:624-627 | a missing size is the rest of the framebuffer; the request is written exactly when all fields fit |
| EventClient.RfbClient.KeyEvent | qvncwidget/rfb_old.py:629-632 | the message is written exactly when key and flag fit |
| EventClient.RfbClient.PointerEvent | qvncwidget/rfb_old.py:634-639 | the message is written exactly when position and mask fit |
| EventClient.RfbClient.ClientCutText | qvncwidget/rfb_old.py:641-645 | the message is written exactly when the length fits |
| BlockingProtocol.RecvSize | qvncwidget/rfb.py:85-96 | `__recv(n)` returns at most n octets and fewer only at the end of the stream; with n = 0 up to 4096 |
| BlockingProtocol.Chunk | qvncwidget/rfb.py:85-96 | the octets returned are the next ones of the stream, as many as `RecvSize` says |
| BlockingProtocol.ChunkAt | qvncwidget/rfb.py:89 | a pull of a block present in the stream returns that block |
| BlockingProtocol.AsciiIsUtf8 | qvncwidget/rfb.py:175 | every ASCII name passes `decode()` |
| BlockingProtocol.HandshakeRun | qvncwidget/rfb.py:118-145 | `_handleInitial`: a header without newline or `RFB` raises `RFBUnknownVersion`, an unparsable one `ValueError`, otherwise the answer; the cursor stays within the stream and a session only follows a decoded ServerInit with a 16-bit size |
| BlockingProtocol.AnswerRun | qvncwidget/rfb.py:125-145 | the chosen version's reply, then the security type for minor 3 and an end otherwise; same cursor and session guarantees |
| BlockingProtocol.Auth33Run | qvncwidget/rfb.py:147-161 | a short block is a struct.error; types 0, 1 and 2 go to the failure reason, ClientInit and VNC authentication, any other raises `RFBUnexpectedResponse`; same guarantees |
| BlockingProtocol.ClientInitRun | qvncwidget/rfb.py:163-166 | the shared flag is written before ServerInit is read; same guarantees |
| BlockingProtocol.ServerInitRun | qvncwidget/rfb.py:168-186 | a short block raises `RFBHandshakeFailed`; otherwise the fields and the name are recorded, and the session starts with `onConnectionMade` exactly when the name is UTF-8; same guarantees |
| BlockingProtocol.VncAuthRun | qvncwidget/rfb.py:188-193 | the challenge is recorded; a missing password raises, otherwise the encrypted answer is written and the result read; same guarantees |
| BlockingProtocol.AuthResultRun | qvncwidget/rfb.py:195-212 | a short result raises; 0 goes to ClientInit, 1 to the reason with minor above 7 and a plain failure otherwise, 2 raises too many attempts, any other ends; same guarantees |
| BlockingProtocol.AuthErrorRun | qvncwidget/rfb.py:214-217 | raises with the reason read after its length; same guarantees |
| BlockingProtocol.ConnFailedRun | qvncwidget/rfb.py:219-221 | raises `RFBHandshakeFailed` with the reason read after its length; same guarantees |
| BlockingProtocol.Handle | qvncwidget/rfb.py:147-221 | dispatches to the handler named; the cursor stays within the stream and a session only follows a decoded ServerInit with a 16-bit size |
| BlockingProtocol.ShortHeader | qvncwidget/rfb.py:119-121 | a one-digit version header is `RFB 00x.00y\n` |
| BlockingProtocol.HeaderAccepted | qvncwidget/rfb.py:119-122 | such a header is 12 octets, has the newline and prefix, and parses back |
| BlockingProtocol.HandshakeAfterHeader | qvncwidget/rfb.py:118-122 | `_handleInitial` reads the header whole and continues with its version |
| BlockingProtocol.AnswerThree | qvncwidget/rfb.py:141-145 | with minor 3 the reply is written and the security type is the next four octets |
| BlockingProtocol.UpToSecurity | qvncwidget/rfb.py:118-145 | from a one-digit header to the security type |
| BlockingProtocol.OtherMinorEnds | qvncwidget/rfb.py:141-145 | any other chosen minor ends the handshake right after the reply |
| BlockingProtocol.ServerInitAccepted | qvncwidget/rfb.py:163-186 | ClientInit and a valid ServerInit start the session, with the shared flag written, one `onConnectionMade`, and the ServerInit fields and the name recorded as what `_handleServerInit` stores |
| BlockingProtocol.NoAuthAccepted | qvncwidget/rfb.py:155-156 | security type 1 goes straight to ClientInit |
| BlockingProtocol.NoAuthHandshake | qvncwidget/rfb.py:118-186 | the whole handshake without authentication starts the session, recording the server's ServerInit fields and name |
| BlockingProtocol.VncAuthAccepted | qvncwidget/rfb.py:188-203 | an answered challenge and result 0 lead to ClientInit and a session, with the challenge kept and the ServerInit fields and name recorded |
| BlockingProtocol.VncAuthChallenge | qvncwidget/rfb.py:157-158 | security type 2 reads the 16-octet challenge, keeps it, and with result 0 and a valid ServerInit starts the session |
| BlockingProtocol.VncAuthHandshake | qvncwidget/rfb.py:118-203 | the whole handshake with VNC authentication starts the session, the encrypted challenge sent, the challenge kept and the server's ServerInit fields and name recorded |
| BlockingProtocol.ConnFailedReason | qvncwidget/rfb.py:219-221 | security type 0 raises with the reason the server sent |
| BlockingProtocol.ConnFailedHandshake | qvncwidget/rfb.py:118-154 | the whole handshake with type 0 raises that reason |
| BlockingProtocol.NoServerReason | qvncwidget/rfb.py:205-208 | no handshake raises a server-sent authentication reason: that branch is dead |
| BlockingProtocol.AnswerNoReason | qvncwidget/rfb.py:141-145 | no path after the version answer raises `VNCAuthentificationFailed` with a reason string read from the server |
| BlockingProtocol.Auth33NoReason | qvncwidget/rfb.py:147-161 | with version_min at most 7, the security type handler and everything it leads to never raise `VNCAuthentificationFailed` with a reason string read from the server |
| BlockingProtocol.VncAuthNoReason | qvncwidget/rfb.py:188-212 | with version_min at most 7, VNC authentication and everything it leads to never raise `VNCAuthentificationFailed` with a reason string read from the server |
| BlockingProtocol.ClientInitNoReason | qvncwidget/rfb.py:163-186 | client initialisation never raises `VNCAuthentificationFailed` with a reason string read from the server |
| BlockingProtocol.ConnectionRun | qvncwidget/rfb.py:248-264 | a message is fatal exactly when its type is above 3, and then it is `RFBUnexpectedResponse` with nothing read or called |
| BlockingProtocol.FramebufferUpdateRun | qvncwidget/rfb.py:273-279 | never fatal; with a whole header it calls `onBeginUpdate` first and leaves at most the announced count (Python's recursion limit set aside) |
| BlockingProtocol.CutTextRun | qvncwidget/rfb.py:266-271 | never fatal, calls nothing and leaves the count alone; handled exactly when the header is whole |
| BlockingProtocol.PostUpdateRun | qvncwidget/rfb.py:281-286 | never fatal and never leaves more than it started with (Python's recursion limit set aside) |
| BlockingProtocol.RectangleRun | qvncwidget/rfb.py:288-312 | never fatal, leaves at most the count it started with, and 0 when the update finished (Python's recursion limit set aside) |
| BlockingProtocol.LoopRun | qvncwidget/rfb.py:231-241 | runs all its turns unless a fatal error ends it, and the only fatal error is `RFBUnexpectedResponse` (Python's recursion limit set aside) |
| BlockingProtocol.TurnRun | qvncwidget/rfb.py:231-241 | the same for a turn and the turns after it |
| BlockingProtocol.FinishedOnce | qvncwidget/rfb.py:281-286 | an update ends either with every rectangle reported and one `onFramebufferUpdateFinished`, or with a logged error and rectangles left; nothing fatal escapes (Python's recursion limit set aside) |
| BlockingProtocol.RectangleStep | qvncwidget/rfb.py:288-304 | one rectangle: a short header ends the batch with a logged error and the count unchanged; otherwise at most one update, then the remaining rectangles |
| BlockingProtocol.RawBatchRoundTrip | qvncwidget/rfb.py:281-312 | a batch of non-empty Raw rectangles is read exactly and reported in order, then the update is finished (Python's recursion limit set aside) |
| BlockingProtocol.RawBatchHead | qvncwidget/rfb.py:288-301 | the first Raw rectangle of a batch is read and the rest of the batch follows |
| BlockingProtocol.RawRectAt | qvncwidget/rfb.py:296-301 | one Raw rectangle in the stream is reported with its pixels before the rest of the update |
| BlockingProtocol.EmptyRawReadsAhead | qvncwidget/rfb.py:86-87 | a Raw rectangle of no pixels consumes up to 4096 octets of what follows |
| BlockingProtocol.OneRequestPerRound | qvncwidget/rfb.py:231-241 | every completed turn sends exactly one update request when requesting is on, and none otherwise |
| BlockingProtocol.LoopStep | qvncwidget/rfb.py:231-241 | a turn handles the message at the cursor; a fatal error ends the loop there, otherwise the request follows and the remaining turns run from the new cursor |
| BlockingProtocol.SpinsAtEndOfStream | qvncwidget/rfb.py:231-241 | at the end of the stream every turn reads nothing and still sends a request |
| BlockingClient.S32Prefix | qvncwidget/rfb.py:325-326 | the encodings before the first that `!i` cannot hold |
| BlockingClient.RfbClient.constructor | qvncwidget/rfb.py:69-80 | a new client at the start of the stream with nothing written or reported |
| BlockingClient.RfbClient.Recv | qvncwidget/rfb.py:85-96 | returns the next chunk of the stream and advances the cursor past it |
| BlockingClient.RfbClient.Send | qvncwidget/rfb.py:98-100 | the data is appended to what was written |
| BlockingClient.RfbClient.HandleInitial | qvncwidget/rfb.py:118-145 | reads, writes, calls back and ends as `HandshakeRun` says; stores the chosen version, the challenge it kept, the ServerInit size once that block unpacks, and the format and name only on a session, leaving the other fields as they were; the version it stores is the one `NewChosen` picks once the 12-octet header parsed, and the old one when it raised before that; on a session the size fits 16 bits and the name is UTF-8 |
| BlockingClient.RfbClient.AnswerVersion | qvncwidget/rfb.py:125-145 | stores the chosen version; reads, writes, calls back and ends as `AnswerRun` says, storing the challenge, size, format and name exactly as that run records them and leaving them as they were otherwise |
| BlockingClient.RfbClient.HandleAuth33 | qvncwidget/rfb.py:147-161 | reads, writes, calls back and ends as `Auth33Run` says, storing the challenge, size, format and name exactly as that run records them and leaving them as they were otherwise |
| BlockingClient.RfbClient.DoClientInit | qvncwidget/rfb.py:163-166 | sends the shared flag and reads ServerInit as `ClientInitRun` says: the size is the block's once it unpacks, the format and name are the block's and the octets read after it exactly when the session starts, and the challenge is unchanged |
| BlockingClient.RfbClient.HandleServerInit | qvncwidget/rfb.py:168-186 | stores the size whenever 24 octets arrived, and the format and the UTF-8 name exactly when the session starts |
| BlockingClient.RfbClient.HandleVncAuth | qvncwidget/rfb.py:188-193 | keeps the block as the challenge, answers it and reads the result as `VncAuthRun` says, storing the size, format and name exactly as that run records them |
| BlockingClient.RfbClient.VncRequestPassword | qvncwidget/rfb.py:428-436 | answers exactly when a password is set, writing the encrypted challenge |
| BlockingClient.RfbClient.SendPassword | qvncwidget/rfb.py:371-376 | writes the challenge encrypted under the padded, mirrored password |
| BlockingClient.RfbClient.HandleVncAuthResult | qvncwidget/rfb.py:195-212 | ends as `AuthResultRun` says; on result 0 the size, format and name are those of the ServerInit read after it, and the challenge is unchanged |
| BlockingClient.RfbClient.HandleVncAuthError | qvncwidget/rfb.py:214-217 | reads the reason and raises as specified |
| BlockingClient.RfbClient.HandleConnFailed | qvncwidget/rfb.py:219-221 | reads the reason and raises as specified |
| BlockingClient.RfbClient.HandleConnection | qvncwidget/rfb.py:248-264 | one message handled as specified, with the rectangle count updated |
| BlockingClient.RfbClient.HandleServerCutText | qvncwidget/rfb.py:266-271 | reads the text as specified |
| BlockingClient.RfbClient.HandleFramebufferUpdate | qvncwidget/rfb.py:273-279 | stores the count and reads the batch as specified |
| BlockingClient.RfbClient.HandlePostFramebufferUpdate | qvncwidget/rfb.py:281-286 | reads the next rectangle or finishes the update as specified |
| BlockingClient.RfbClient.HandleRectangle | qvncwidget/rfb.py:288-304 | one rectangle read and counted as specified |
| BlockingClient.RfbClient.DecodeRaw | qvncwidget/rfb.py:310-312 | reports the rectangle's pixels, then the rest of the batch as specified |
| BlockingClient.RfbClient.MainRequestLoop | qvncwidget/rfb.py:227-242 | sends the first full request, then runs the turns as the loop function says: octets read, requests sent, callbacks, ending |
| BlockingClient.RfbClient.Start | qvncwidget/rfb.py:102-105 | the handshake as `HandshakeRun` says, then on a session the message loop from where the handshake left the stream, with the requests carrying the size and the Raw rectangles the format that ServerInit stored; the version and challenge are those the handshake stored, the rectangle count is the loop's last one on a session and unchanged otherwise, and a handshake that ends without a session leaves every field `HandleInitial` does not set as it was |
| BlockingClient.RfbClient.LoopTurn | qvncwidget/rfb.py:231-241 | one turn: a message, and a request after it when requesting is on |
| BlockingClient.RfbClient.SetPixelFormat | qvncwidget/rfb.py:318-321 | the format is stored first; the message is written exactly when it packs |
| BlockingClient.RfbClient.SetEncodings | qvncwidget/rfb.py:323-326 | writes the header and the encodings up to the first that cannot be packed, succeeding exactly when all can |
| BlockingClient.RfbClient.FramebufferUpdateRequest | qvncwidget/rfb.py:328-339 | a missing or zero size is the rest of the framebuffer; the request is written exactly when all fields fit |
| BlockingClient.RfbClient.KeyEvent | qvncwidget/rfb.py:341-350 | the message is written exactly when key and flag fit |
| BlockingClient.RfbClient.PointerEvent | qvncwidget/rfb.py:352-362 | the message is written exactly when position and mask fit |

## Left out

- DES itself (`pyDes`) is a parameter, `encrypt`, of the clients. Only the key mirroring of `setKey` is modelled.
- Sockets, the Twisted transport, threads and `sleep` are not modelled. `rfb.py`'s input is the whole octet stream the server sends, and `send` always writes everything it is given.
- Logging is not modelled. A logged error appears only as the outcome of a step.
- The override callbacks (`onConnectionMade`, `onRectangleUpdate`, `updateRectangle`, ...) are recorded as events in call order. Subclass overrides are not modelled: `rfb.py`'s `onConnectionMade` raising `NotImplementedError` and `rfb_old.py`'s default `fillRectangle` calling `updateRectangle` are left to the caller.
- The `_stop` flag of `rfb.py`'s loop is replaced by a bound, `rounds`, on the number of turns. Stopping from another thread is not modelled.
- `rfb.py` leaves the pixel format unset until ServerInit arrives. The model starts it at `RFBPixelformat()`'s default.
- `rectanglePositions` of `rfb.py`, which is never written, is not modelled.
- `closeConnection`, `reconnect`, `startConnection` and `__close` of `rfb.py` only touch the socket, and are not modelled.
- A password given as `str` is taken as its ASCII octets.
- DES's own error on a challenge whose length is not a multiple of 8 is not modelled. When the stream ends inside the 16-octet challenge, `rfb.py`'s `sendPassword` raises inside `pyDes` and writes nothing; the model's `encrypt` cannot fail, so it writes a reply.
- Both constructors start the framebuffer size at 0. In both sources the size attributes do not exist until ServerInit arrives, so `framebufferUpdateRequest` called before that without an explicit size raises `AttributeError`; the model computes the missing size from 0 instead and writes the request when it fits.
- The Cursor decoder of `rfb_old.py` and the payload size its branch would expect are not modelled, because that branch can never be reached.
- ZRLE raises `NotImplementedError` in `rfb_old.py` and no rectangle header ever arms it, so it is not modelled.
- Python's recursion limit is not modelled. In `rfb_old.py` the handlers do not nest: while `_handleExpected` runs, `expect` only records the next handler. In `rfb.py` they do: `_handlePostFramebufferUpdate` calls `_handleRectangle`, which calls `_decodeRAW`, which calls `_handlePostFramebufferUpdate` again, three frames per Raw rectangle and two per rectangle of another encoding. With Python's default limit of 1000 frames, an update of a few hundred Raw rectangles raises `RecursionError`; `_mainRequestLoop` hands it to `onFatalError`, which re-raises it and ends the loop thread.
- BlockingProtocol.PostUpdateRun: states that an update is never fatal only for a model without Python's recursion limit.
- BlockingProtocol.RectangleRun: states that a rectangle is never fatal only for a model without Python's recursion limit.
- BlockingProtocol.FramebufferUpdateRun: states that an update message is never fatal only for a model without Python's recursion limit.
- BlockingProtocol.LoopRun: states that `RFBUnexpectedResponse` is the only fatal error only for a model without Python's recursion limit, which a long update exceeds.
- BlockingProtocol.TurnRun: the same as `LoopRun`.
- BlockingProtocol.FinishedOnce: states that no fatal error escapes an update only for a model without Python's recursion limit; an update of a few hundred rectangles ends fatally in `rfb.py` with `RecursionError`.
- BlockingProtocol.RawBatchRoundTrip: states that every rectangle is reported and the update finished only for a model without Python's recursion limit; a batch of a few hundred Raw rectangles ends fatally in `rfb.py` with `RecursionError` instead.
- The model reads every `easystruct` `return_*` call as big-endian. Only `rfb.py:152` passes `True`; the calls at `rfb.py:197`, `:215` and `:220` (`return_uint32_val(data)`) and `:249` (`return_uint8_val(data)`) pass no flag, and what `easystruct` does then is not part of this model. For the one-octet read at `:249` the order does not matter.
- After a handler of `rfb_old.py` raises, the model delivers no further data. The transport's own error handling is not modelled.
- Version.ParseInt: a sign or underscores between digits, which `int()` also accepts, make the parse fail in the model. Its contract states only the success direction.
- EventClient.RfbClient.DataReceived: requires that the client is not closed, crashed or diverged. The source would go on buffering octets that no handler ever reads.
- BlockingClient.RfbClient.SetPixelFormat: requires a format whose `bytespp` is not negative, because the model's Raw rectangle sizes are natural numbers. A negative `bitspp` would make `rfb.py` ask `recv` for a negative size.
- BlockingClient.RfbClient.MainRequestLoop: requires a framebuffer size that fits 16 bits. `HandleInitial` ensures this whenever the session starts, and `Start` runs the two in turn.
