/** The event-driven client `RFBClient` of `rfb_old.py`.

    The transport hands it data in arbitrary chunks (`dataReceived`). Until
    the version handshake is done the whole buffer is inspected by
    `_handleInitial`; afterwards a single pending continuation (`expect`:
    handler, size, arguments) is fired each time that many octets are
    buffered (`_handleExpected`), and every handler re-arms the next one.

    The transport's `write` is the `out` log, the override callbacks are the
    `events` log and `loseConnection` sets `closed`. A Python exception that
    would escape a handler sets `crashed`; a handler that leaves itself armed
    with size 0, which makes `_handleExpected` spin forever, sets
    `diverged`. */
module EventClient {
  import opened Bytes
  import opened Version
  import opened RfbHelpers
  import opened Hextile
  import opened Events
  import opened ClientMessages
  import opened ServerMessages
  import RfbDes

  const AUTH_FAIL: int := 0
  const AUTH_NONE: int := 1
  const AUTH_VNCAUTH: int := 2

  const SMSG_FBUPDATE: int := 0
  const SMSG_SETCOLORMAP: int := 1
  const SMSG_BELL: int := 2
  const SMSG_SERVERCUTTEXT: int := 3

  const RAW_ENCODING: int := 0
  const COPY_RECTANGLE_ENCODING: int := 1
  const RRE_ENCODING: int := 2
  const CORRE_ENCODING: int := 4
  const HEXTILE_ENCODING: int := 5
  const CURSOR_ENCODING: int := -239

  /** The `setPixelFormat` defaults of this client (its shifts differ from
      those of `RFBPixelformat`). */
  const DEFAULT_PIXEL_FORMAT: PixelTuple := (32, 24, 0, 1, 255, 255, 255, 0, 8, 16)

  /** A Hextile rectangle and the origin of its current tile. */
  datatype Tile = Tile(x: int, y: int, width: int, height: int, tx: int, ty: int)

  /** The tile was produced by the walk: its column starts inside the
      rectangle (or at its left edge when the width is 0) and its row above
      the bottom edge. */
  predicate TileOk(t: Tile) {
    0 <= t.width && 0 <= t.height && t.x <= t.tx <= t.x + t.width && t.ty < t.y + t.height
  }

  /** `tw` and `th` of `_handleDecodeHextile`. */
  function TileWidth(t: Tile): int { TileExtent(t.x, t.width, t.tx) }
  function TileHeight(t: Tile): int { TileExtent(t.y, t.height, t.ty) }

  /** The pending `expect(handler, size, *args)`: one case per handler,
      carrying its arguments. */
  datatype Cont =
    | Auth33 | Auth37 | AuthTypes37 | ConnFailed | ConnMessage | VncAuth | AuthResult | AuthError
    | ServerInit | ServerName | Connection | FramebufferUpdate | RectangleHeader
    | DecodeRaw(x: int, y: int, width: int, height: int)
    | DecodeCopyRect(x: int, y: int, width: int, height: int)
    | DecodeRre(x: int, y: int, width: int, height: int)
    | RreSubrects(topx: int, topy: int)
    | DecodeCorre(x: int, y: int, width: int, height: int)
    | CorreSubrects(topx: int, topy: int)
    | HextileTile(bg: Colour, fg: Colour, tile: Tile)
    | HextileRaw(bg: Colour, fg: Colour, tile: Tile)
    | HextileHeader(subencoding: byte, bg: Colour, fg: Colour, tile: Tile)
    | HextileColoured(bg: Colour, fg: Colour, tile: Tile)
    | HextileForeground(bg: Colour, fg: Colour, tile: Tile)
    | ServerCutText | ServerCutTextValue

  /** The sizes every `expect` call of the client pairs with each handler:
      the fixed-size unpacks get exactly their size, the subrectangle lists
      and tile headers are only expected when non-empty. */
  predicate Armed(c: Cont, n: nat) {
    match c
    case Auth33 => n == 4
    case ConnFailed => n == 4
    case AuthResult => n == 4
    case AuthError => n == 4
    case Auth37 => n == 1
    case Connection => n == 1
    case VncAuth => n == 16
    case ServerInit => n == 24
    case FramebufferUpdate => n == 3
    case RectangleHeader => n == 12
    case ServerCutText => n == 7
    case DecodeCopyRect(_, _, _, _) => n == 4
    case DecodeRre(_, _, _, _) => n >= 4
    case DecodeCorre(_, _, _, _) => n >= 4
    case RreSubrects(_, _) => n >= 1
    case CorreSubrects(_, _) => n >= 1
    case HextileTile(_, _, t) => n == 1 && TileOk(t)
    case HextileRaw(_, _, t) => TileOk(t)
    case HextileHeader(_, _, _, t) => n >= 1 && TileOk(t)
    case HextileColoured(_, _, t) => n >= 1 && TileOk(t)
    case HextileForeground(_, _, t) => n >= 1 && TileOk(t)
    case AuthTypes37 => true
    case ConnMessage => true
    case ServerName => true
    case ServerCutTextValue => true
    case DecodeRaw(_, _, _, _) => true
  }

  /** The longest prefix of `encs` that `pack("!I", ...)` can pack. */
  function U32Prefix(encs: seq<int>): (k: nat)
    ensures k <= |encs|
    ensures forall i :: 0 <= i < k ==> IsU32(encs[i])
    ensures k < |encs| ==> !IsU32(encs[k])
  {
    if encs == [] || !IsU32(encs[0]) then 0 else 1 + U32Prefix(encs[1..])
  }

  /** What a `fillRectangle` of a whole tile reports. */
  function TileFillEvent(t: Tile, colour: Colour): Event {
    FillRectangle(t.tx, t.ty, TileWidth(t), TileHeight(t), colour)
  }

  /** What `_handleRectangle` expects after a rectangle header, by
      encoding; `None` when it reads no payload and goes on with the next
      rectangle: an encoding it does not know, or a Hextile rectangle of
      height 0, whose tile walk ends at once. */
  function Payload(r: RectangleFields, bypp: nat): (p: Option<(Cont, nat)>)
    requires 0 <= r.width && 0 <= r.height
    ensures p.Some? ==> Armed(p.value.0, p.value.1)
    ensures p.None? <==>
      r.encoding !in {RAW_ENCODING, COPY_RECTANGLE_ENCODING, RRE_ENCODING, CORRE_ENCODING, HEXTILE_ENCODING}
      || (r.encoding == HEXTILE_ENCODING && r.height == 0)
  {
    if r.encoding == COPY_RECTANGLE_ENCODING then Some((DecodeCopyRect(r.x, r.y, r.width, r.height), 4))
    else if r.encoding == RAW_ENCODING then Some((DecodeRaw(r.x, r.y, r.width, r.height), r.width * r.height * bypp))
    else if r.encoding == HEXTILE_ENCODING then
      if r.height > 0 then Some((HextileTile(None, None, Tile(r.x, r.y, r.width, r.height, r.x, r.y)), 1)) else None
    else if r.encoding == CORRE_ENCODING then Some((DecodeCorre(r.x, r.y, r.width, r.height), 4 + bypp))
    else if r.encoding == RRE_ENCODING then Some((DecodeRre(r.x, r.y, r.width, r.height), 4 + bypp))
    else None
  }

  /** The continuations that read the payload of a Raw, CopyRect, RRE or
      CoRRE rectangle, and those that read the parts of a Hextile tile. */
  predicate PayloadCont(c: Cont) {
    c.DecodeRaw? || c.DecodeCopyRect? || c.DecodeRre? || c.RreSubrects? || c.DecodeCorre? || c.CorreSubrects?
  }

  predicate HextileCont(c: Cont) {
    c.HextileTile? || c.HextileRaw? || c.HextileHeader? || c.HextileColoured? || c.HextileForeground?
  }

  /** The continuations of the security handshake before authentication. */
  predicate SecurityCont(c: Cont) {
    c.Auth33? || c.Auth37? || c.AuthTypes37? || c.ConnFailed? || c.ConnMessage?
  }

  /** The continuations that read a server message header or body. */
  predicate MessageCont(c: Cont) {
    c.Connection? || c.FramebufferUpdate? || c.RectangleHeader? || c.ServerCutText? || c.ServerCutTextValue?
  }

  /** The loop of `_handleRRESubRectangles`: the fills it makes, in order.
      `ok` is false when the last record is short, so that `unpack` raises
      struct.error after the fills of the whole records before it. */
  method RreRecordFills(block: seq<byte>, bypp: nat, topx: int, topy: int) returns (fills: seq<Event>, ok: bool)
    ensures ok <==> Whole(block, bypp + 8)
    ensures fills == RreFills(block, bypp, topx, topy)
  {
    var pos := 0;
    var end := |block|;
    var sz := bypp + 8;
    fills := [];
    while pos < end
      invariant 0 <= pos <= end
      invariant fills + RreFills(block[pos..], bypp, topx, topy) == RreFills(block, bypp, topx, topy)
      invariant Whole(block[pos..], sz) == Whole(block, sz)
      decreases end - pos
    {
      if pos + sz > end {
        // `block[pos:pos+sz]` comes back short
        assert RreFills(block[pos..], bypp, topx, topy) == [] && !Whole(block[pos..], sz);
        return fills, false;
      }
      RreFillsStep(block, pos, bypp, topx, topy, fills);
      var record := block[pos .. pos + sz];
      // `unpack(format, record)` and the fill it leads to
      fills := fills + [RreFill(record, bypp, topx, topy)];
      pos := pos + sz;
    }
    assert block[pos..] == [];
    assert RreFills(block[pos..], bypp, topx, topy) == [] && Whole(block[pos..], sz);
    ok := true;
  }

  /** The loop of `_handleDecodeHextileSubrectsFG`: the fills it makes, in
      order. `ok` is false when an odd last octet makes `block[pos + 1]`
      raise IndexError. */
  method ForegroundRecordFills(block: seq<byte>, tx: int, ty: int, fg: Colour) returns (fills: seq<Event>, ok: bool)
    ensures ok <==> Whole(block, 2)
    ensures fills == ForegroundFills(block, tx, ty, fg)
  {
    var pos := 0;
    var end := |block|;
    fills := [];
    while pos < end
      invariant 0 <= pos <= end
      invariant fills + ForegroundFills(block[pos..], tx, ty, fg) == ForegroundFills(block, tx, ty, fg)
      invariant Whole(block[pos..], 2) == Whole(block, 2)
      decreases end - pos
    {
      if pos + 1 >= end {
        // IndexError on `block[pos + 1]`
        assert ForegroundFills(block[pos..], tx, ty, fg) == [] && !Whole(block[pos..], 2);
        return fills, false;
      }
      ForegroundFillsStep(block, pos, tx, ty, fg, fills);
      var xy, wh := block[pos], block[pos + 1];
      var g := SubrectGeometry(xy, wh);
      fills := fills + [FillRectangle(tx + g.0, ty + g.1, g.2, g.3, fg)];
      pos := pos + 2;
    }
    assert block[pos..] == [];
    assert ForegroundFills(block[pos..], tx, ty, fg) == [] && Whole(block[pos..], 2);
    ok := true;
  }

  /** The loop of `_handleDecodeHextileSubrectsColoured`: the fills it
      makes, in order, and the colour variable it leaves (the last record's
      colour, or `fg` when there is none). `ok` is false when a short last
      record makes `block[pos2]` or `block[pos2 + 1]` raise IndexError,
      after the fills of the whole records before it. */
  method ColouredRecordFills(block: seq<byte>, bypp: nat, tx: int, ty: int, fg: Colour)
    returns (fills: seq<Event>, colour: Colour, ok: bool)
    ensures ok <==> Whole(block, bypp + 2)
    ensures fills == ColouredFills(block, bypp, tx, ty)
    ensures ok ==> colour == ColouredLast(block, bypp, fg)
  {
    var sz := bypp + 2;
    var pos := 0;
    var end := |block|;
    fills, colour := [], fg;
    while pos < end
      invariant 0 <= pos <= end
      invariant fills + ColouredFills(block[pos..], bypp, tx, ty) == ColouredFills(block, bypp, tx, ty)
      invariant ColouredLast(block[pos..], bypp, colour) == ColouredLast(block, bypp, fg)
      invariant Whole(block[pos..], sz) == Whole(block, sz)
      decreases end - pos
    {
      var pos2 := pos + bypp;
      if pos2 + 1 >= end {
        // IndexError on `block[pos2]` or `block[pos2 + 1]`
        assert ColouredFills(block[pos..], bypp, tx, ty) == [] && !Whole(block[pos..], sz);
        return fills, colour, false;
      }
      ColouredFillsStep(block, pos, bypp, tx, ty, colour, fills);
      colour := Some(block[pos .. pos2]);
      fills := fills + [TileFill(block[pos2], block[pos2 + 1], tx, ty, colour)];
      pos := pos + sz;
    }
    assert block[pos..] == [];
    assert ColouredFills(block[pos..], bypp, tx, ty) == [] && Whole(block[pos..], sz);
    assert ColouredLast(block[pos..], bypp, colour) == colour;
    ok := true;
  }

  class RfbClient {
    /** `factory.shared`, `factory.password` and the DES cipher. */
    const shared: byte
    const password: Option<seq<byte>>
    const encrypt: RfbDes.Cipher

    /** Everything written to the transport, in order. */
    var out: seq<byte>
    /** `transport.loseConnection()` was called. */
    var closed: bool
    /** The override callbacks called so far, in order. */
    var events: seq<Event>
    /** An exception escaped from a handler. */
    var crashed: bool
    /** `_handleExpected` would call a zero-size handler forever. */
    var diverged: bool

    /** `_packet` (joined) and `_packet_len`. */
    var packet: seq<byte>
    var packetLen: nat
    /** `_handler` is still `_handleInitial`. */
    var initial: bool
    /** `_expected_handler` with its arguments, and `_expected_len`. */
    var cont: Cont
    var expectedLen: nat
    /** Every octet the transport delivered, and those handed on so far
        (the version header and every block a handler received). */
    ghost var received: seq<byte>
    ghost var consumed: seq<byte>

    var versionMajor: nat
    var versionMinor: nat
    var challenge: seq<byte>
    var width: int
    var height: int
    /** `bpp, depth, bigendian, truecolor, redmax, ..., blueshift`. */
    var pixelFormat: PixelTuple
    var bypp: nat
    var name: seq<byte>
    var rectangles: nat
    var rectanglePos: seq<(int, int, int, int)>

    /** The buffer holds exactly what was received and not yet handed on,
        `_packet_len` is its length, and the pending handler is armed with a
        size the client's `expect` calls use for it. */
    ghost predicate Valid()
      reads this
    {
      packetLen == |packet| && received == consumed + packet && Armed(cont, expectedLen)
    }

    /** A handler only appends to the logs and leaves the buffer alone. */
    twostate predicate Progress()
      reads this
    {
      && old(out) <= out && old(events) <= events
      && packet == old(packet) && packetLen == old(packetLen) && initial == old(initial)
      && received == old(received) && consumed == old(consumed)
      && versionMajor == old(versionMajor) && versionMinor == old(versionMinor) && (old(closed) ==> closed)
    }

    /** What `_doConnection` leaves behind, `e0` being the callback log
        before it: with rectangles left the next header is expected,
        otherwise `commitUpdate` got the positions of the batch and the next
        message is expected. */
    ghost predicate Resumed(e0: seq<Event>)
      reads this
    {
      if rectangles != 0 then cont == RectangleHeader && expectedLen == 12 && events == e0
      else cont == Connection && expectedLen == 1 && events == e0 + [CommitUpdate(rectanglePos)]
    }

    /** What `_doNextHextileSubrect` leaves after the tile `t`, carrying the
        colours `bg` and `fg`: the next tile's subencoding is expected, or
        the rectangle is done as `Resumed` says. */
    ghost predicate TileDone(bg: Colour, fg: Colour, t: Tile, e0: seq<Event>)
      reads this
    {
      match NextTile(t.x, t.y, t.width, t.height, Some((t.tx, t.ty)))
      case Some((tx, ty)) =>
        cont == HextileTile(bg, fg, Tile(t.x, t.y, t.width, t.height, tx, ty)) && expectedLen == 1 && events == e0
      case None => Resumed(e0)
    }

    /** `RFBClient()` built by `RFBFactory(password, shared)`. The pending
        continuation is not consulted until the version is read. */
    constructor(shared: byte, password: Option<seq<byte>>, encrypt: RfbDes.Cipher)
      ensures Valid() && initial && packet == [] && received == []
      ensures out == [] && events == [] && !closed && !crashed && !diverged
      ensures this.shared == shared && this.password == password && this.encrypt == encrypt
    {
      this.shared := shared;
      this.password := password;
      this.encrypt := encrypt;
      out := [];
      closed := false;
      events := [];
      crashed := false;
      diverged := false;
      packet := [];
      packetLen := 0;
      initial := true;
      cont := Connection;
      expectedLen := 1;
      received := [];
      consumed := [];
      versionMajor := 0;
      versionMinor := 0;
      challenge := [];
      width := 0;
      height := 0;
      pixelFormat := (0, 0, 0, 0, 0, 0, 0, 0, 0, 0);
      bypp := 0;
      name := [];
      rectangles := 0;
      rectanglePos := [];
    }

    // ------------------------------------------------------------------
    // incoming data redirector

    /** `dataReceived`: append the chunk and run the current handler. */
    method DataReceived(data: seq<byte>)
      requires Valid() && !closed && !crashed && !diverged
      modifies this
      ensures Valid() && received == old(received) + data && old(consumed) <= consumed
      ensures old(out) <= out && old(events) <= events
      ensures !initial && !crashed && !diverged ==> packetLen < expectedLen
      ensures initial && !crashed ==>
        packet == old(packet) + data && !(HasNewline(packet) && |packet| >= 12) && out == old(out)
    {
      packet := packet + data;
      packetLen := packetLen + |data|;
      received := received + data;
      if initial {
        HandleInitial();
      } else {
        HandleExpected();
      }
    }

    /** `_handleExpected`: while the buffer holds the expected size, cut that
        many octets off its front and hand them to the pending handler. Stops
        early when a handler raises, or when a handler left itself armed with
        size 0, where the source loops forever. */
    method HandleExpected()
      requires Valid() && !initial && !crashed && !diverged
      modifies this
      ensures Valid() && !initial && received == old(received) && old(consumed) <= consumed
      ensures old(out) <= out && old(events) <= events
      ensures crashed || diverged || packetLen < expectedLen
      ensures crashed || diverged ==> packet == old(packet) && consumed == old(consumed)
      ensures versionMajor == old(versionMajor) && versionMinor == old(versionMinor) && (old(closed) ==> closed)
    {
      if packetLen >= expectedLen {
        var buffer := packet;
        ghost var consumed0 := consumed;
        while |buffer| >= expectedLen && !crashed && !diverged
          invariant consumed + buffer == received && consumed0 <= consumed
          invariant packet == old(packet) && packetLen == old(packetLen) && !initial
          invariant received == old(received) && consumed0 == old(consumed)
          invariant Armed(cont, expectedLen)
          invariant old(out) <= out && old(events) <= events
          invariant versionMajor == old(versionMajor) && versionMinor == old(versionMinor) && (old(closed) ==> closed)
          decreases |buffer|, if expectedLen == 0 && !crashed && !diverged then 1 else 0
        {
          var block, rest := buffer[..expectedLen], buffer[expectedLen..];
          assert consumed + buffer == (consumed + block) + rest;
          buffer := rest;
          var c, n := cont, expectedLen;
          Dispatch(block);
          consumed := consumed + block;
          if n == 0 && !crashed && cont == c && expectedLen == 0 {
            diverged := true;
          }
        }
        if crashed || diverged {
          consumed := consumed0;
        } else {
          packet := buffer;
          packetLen := |buffer|;
        }
      }
    }

    /** `expect(handler, size, *args)` called from inside a handler, where
        `_already_expecting` is set, so it only records the continuation. */
    method Expect(c: Cont, n: nat)
      requires Armed(c, n)
      modifies this`cont, this`expectedLen
      ensures cont == c && expectedLen == n
    {
      cont := c;
      expectedLen := n;
    }

    /** `self._expected_handler(block, *self._expected_args)`: the block is
        exactly the expected size and is the next part of the received
        stream after everything handed on before. */
    method Dispatch(block: seq<byte>)
      requires Armed(cont, expectedLen) && |block| == expectedLen && !crashed
      requires consumed + block <= received
      modifies this
      ensures Armed(cont, expectedLen) && Progress()
      ensures |block| > 0 || crashed || expectedLen > 0 || (cont == old(cont) && expectedLen == old(expectedLen))
    {
      if PayloadCont(cont) {
        DispatchPayload(block);
      } else if HextileCont(cont) {
        DispatchHextile(block);
      } else if MessageCont(cont) {
        DispatchMessage(block);
      } else if SecurityCont(cont) {
        DispatchSecurity(block);
      } else if cont.VncAuth? || cont.AuthResult? || cont.AuthError? {
        DispatchAuth(block);
      } else {
        DispatchInit(block);
      }
    }

    /** `Dispatch` for the choice of a security type. */
    method DispatchSecurity(block: seq<byte>)
      requires Armed(cont, expectedLen) && |block| == expectedLen && !crashed && SecurityCont(cont)
      modifies this
      ensures Armed(cont, expectedLen) && Progress()
      ensures |block| > 0 || crashed || expectedLen > 0 || (cont == old(cont) && expectedLen == old(expectedLen))
    {
      match cont
      case Auth33 => HandleAuth33(block);
      case Auth37 => HandleAuth37(block);
      case AuthTypes37 => HandleAuthTypes37(block);
      case ConnFailed => HandleConnFailed(block);
      case ConnMessage =>
        // `_handleConnMessage` only prints the reason and does not re-arm
    }

    /** `Dispatch` for VNC authentication and its result. */
    method DispatchAuth(block: seq<byte>)
      requires Armed(cont, expectedLen) && |block| == expectedLen && !crashed
      requires cont.VncAuth? || cont.AuthResult? || cont.AuthError?
      modifies this
      ensures Armed(cont, expectedLen) && Progress()
      ensures |block| > 0 || crashed || expectedLen > 0
    {
      match cont
      case VncAuth => HandleVncAuth(block);
      case AuthResult => HandleAuthResult(block);
      case AuthError => HandleAuthError(block);
    }

    /** `Dispatch` for ServerInit and the desktop name. */
    method DispatchInit(block: seq<byte>)
      requires Armed(cont, expectedLen) && |block| == expectedLen && !crashed
      requires cont.ServerInit? || cont.ServerName?
      modifies this
      ensures Armed(cont, expectedLen) && Progress()
      ensures |block| > 0 || crashed || expectedLen > 0 || (cont == old(cont) && expectedLen == old(expectedLen))
    {
      match cont
      case ServerInit => HandleServerInit(block);
      case ServerName => HandleServerName(block);
    }

    /** `Dispatch` for the server message headers and the cut text. */
    method DispatchMessage(block: seq<byte>)
      requires Armed(cont, expectedLen) && |block| == expectedLen && !crashed && MessageCont(cont)
      modifies this
      ensures Armed(cont, expectedLen) && Progress()
      ensures |block| > 0 || expectedLen > 0
    {
      match cont
      case Connection => HandleConnection(block);
      case FramebufferUpdate => HandleFramebufferUpdate(block);
      case RectangleHeader => HandleRectangle(block);
      case ServerCutText => HandleServerCutText(block);
      case ServerCutTextValue => HandleServerCutTextValue(block);
    }

    /** `Dispatch` for the payload of a Raw, CopyRect, RRE or CoRRE
        rectangle. */
    method DispatchPayload(block: seq<byte>)
      requires Armed(cont, expectedLen) && |block| == expectedLen && !crashed && PayloadCont(cont)
      modifies this
      ensures Armed(cont, expectedLen) && Progress()
      ensures |block| > 0 || crashed || expectedLen > 0
    {
      match cont
      case DecodeRaw(x, y, w, h) => HandleDecodeRaw(block, x, y, w, h);
      case DecodeCopyRect(x, y, w, h) => HandleDecodeCopyRect(block, x, y, w, h);
      case DecodeRre(x, y, w, h) => HandleDecodeRre(block, x, y, w, h);
      case RreSubrects(topx, topy) => HandleRreSubrects(block, topx, topy);
      case DecodeCorre(x, y, w, h) => HandleDecodeCorre(block, x, y, w, h);
      case CorreSubrects(topx, topy) => HandleCorreSubrects(block, topx, topy);
    }

    /** `Dispatch` for the parts of a Hextile tile. */
    method DispatchHextile(block: seq<byte>)
      requires Armed(cont, expectedLen) && |block| == expectedLen && !crashed && HextileCont(cont)
      modifies this
      ensures Armed(cont, expectedLen) && Progress()
      ensures |block| > 0 || crashed || expectedLen > 0
    {
      match cont
      case HextileTile(bg, fg, t) => HandleDecodeHextile(block, bg, fg, t);
      case HextileRaw(bg, fg, t) => HandleHextileRaw(block, bg, fg, t);
      case HextileHeader(s, bg, fg, t) => HandleHextileHeader(block, s, bg, fg, t);
      case HextileColoured(bg, fg, t) => HandleHextileColoured(block, bg, fg, t);
      case HextileForeground(bg, fg, t) => HandleHextileForeground(block, bg, fg, t);
    }

    // ------------------------------------------------------------------
    // connection startup

    /** `_handleInitial`: once a newline and at least 12 octets are
        buffered, parse the server version, answer with the chosen one,
        drop the 12 header octets and arm the security handshake. */
    method HandleInitial()
      requires Valid() && initial && !crashed && !diverged
      modifies this
      ensures Valid() && received == old(received) && old(consumed) <= consumed
      ensures old(out) <= out && old(events) <= events
      ensures !initial && !crashed && !diverged ==> packetLen < expectedLen
      ensures !(HasNewline(old(packet)) && |old(packet)| >= 12) ==>
        && initial && !crashed && packet == old(packet) && out == old(out) && events == old(events)
        && closed == old(closed)
      ensures (HasNewline(old(packet)) && |old(packet)| >= 12
               && (!StartsWithRfb(old(packet)) || ParseVersion(old(packet)).None?)) ==> crashed
      ensures (HasNewline(old(packet)) && |old(packet)| >= 12 && StartsWithRfb(old(packet))
               && ParseVersion(old(packet)).Some?) ==>
        var v := ParseVersion(old(packet)).value;
        && !initial && (versionMajor, versionMinor) == OldChosen(v.0, v.1)
        && old(out) + OldReply(versionMajor, versionMinor) <= out
        && old(consumed) + old(packet)[..12] <= consumed
        && (!Supported(v.0, v.1) && !OldKnown(v.0, v.1) ==> closed)
    {
      if HasNewline(packet) && packetLen >= 12 {
        if !StartsWithRfb(packet) {
          // `maj` and `min` are never bound: UnboundLocalError
          crashed := true;
          return;
        }
        match ParseVersion(packet)
        case None =>
          // `int()` or the two-name unpacking of the split raises ValueError
          crashed := true;
        case Some((maj, min)) =>
          Greet(maj, min);
      }
    }

    /** The rest of `_handleInitial` once the version is parsed: answer,
        arm the handshake and hand the octets after the header on. */
    method Greet(maj: nat, min: nat)
      requires Valid() && initial && |packet| >= 12 && !crashed && !diverged
      modifies this
      ensures Valid() && received == old(received) && !initial
      ensures old(out) <= out && old(events) <= events
      ensures !crashed && !diverged ==> packetLen < expectedLen
      ensures (versionMajor, versionMinor) == OldChosen(maj, min)
      ensures old(out) + OldReply(versionMajor, versionMinor) <= out
      ensures old(consumed) + old(packet)[..12] <= consumed
      ensures !Supported(maj, min) && !OldKnown(maj, min) ==> closed
    {
      StartSession(maj, min);
      HandleExpected();
    }

    /** The version branch of `_handleInitial`: 3.3 is kept, the other
        known versions are answered as 3.3, an unknown one drops the
        connection but is still answered; then the 12 header octets leave
        the buffer and the security handshake of the chosen minor version
        is armed. */
    method StartSession(maj: nat, min: nat)
      requires Valid() && initial && |packet| >= 12
      modifies this`closed, this`consumed, this`packet, this`packetLen, this`out
      modifies this`versionMajor, this`versionMinor, this`initial, this`cont, this`expectedLen
      ensures Valid() && !initial
      ensures (versionMajor, versionMinor) == OldChosen(maj, min)
      ensures out == old(out) + OldReply(versionMajor, versionMinor)
      ensures consumed == old(consumed) + old(packet)[..12] && packet == old(packet)[12..]
      ensures closed == (old(closed) || (!Supported(maj, min) && !OldKnown(maj, min)))
      ensures versionMinor == 3 ==> cont == Auth33 && expectedLen == 4
      ensures versionMinor != 3 ==> cont == Auth37 && expectedLen == 1
    {
      AnswerVersion(maj, min);
      DropHeader();
      initial := false;
      if versionMinor == 3 {
        Expect(Auth33, 4);
      } else {
        Expect(Auth37, 1);
      }
    }

    /** The version comparison of `_handleInitial` and the reply it writes. */
    method AnswerVersion(maj: nat, min: nat)
      modifies this`closed, this`out, this`versionMajor, this`versionMinor
      ensures (versionMajor, versionMinor) == OldChosen(maj, min)
      ensures out == old(out) + OldReply(versionMajor, versionMinor)
      ensures closed == (old(closed) || (!Supported(maj, min) && !OldKnown(maj, min)))
    {
      var maj', min' := maj, min;
      if Supported(maj, min) {
      } else if OldKnown(maj, min) {
        maj', min' := 3, 3;
      } else {
        closed := true;
      }
      out := out + OldReply(maj', min');
      versionMajor, versionMinor := maj', min';
    }

    /** `self._packet[0] = buffer[12:]`: the version header leaves the
        buffer and is handed on. */
    method DropHeader()
      requires packetLen == |packet| >= 12 && received == consumed + packet
      modifies this`consumed, this`packet, this`packetLen
      ensures consumed == old(consumed) + old(packet)[..12] && packet == old(packet)[12..]
      ensures packetLen == |packet| && received == consumed + packet
    {
      var buffer := packet;
      assert (consumed + buffer[..12]) + buffer[12..] == consumed + buffer;
      consumed := consumed + buffer[..12];
      packet := buffer[12..];
      packetLen := packetLen - 12;
    }

    /** `_handleAuth33`: the server chose the security type (version 3.3). */
    method HandleAuth33(block: seq<byte>)
      requires |block| == 4
      modifies this`out, this`cont, this`expectedLen
      ensures var auth := DecodeU32(block);
        && (auth == AUTH_FAIL ==> cont == ConnFailed && expectedLen == 4 && out == old(out))
        && (auth == AUTH_NONE ==> cont == ServerInit && expectedLen == 24 && out == old(out) + [shared])
        && (auth == AUTH_VNCAUTH ==> cont == VncAuth && expectedLen == 16 && out == old(out))
        && (auth > AUTH_VNCAUTH ==> cont == old(cont) && expectedLen == old(expectedLen) && out == old(out))
    {
      var auth := DecodeU32(block);
      if auth == AUTH_FAIL {
        Expect(ConnFailed, 4);
      } else if auth == AUTH_NONE {
        DoClientInitialization();
      } else if auth == AUTH_VNCAUTH {
        Expect(VncAuth, 16);
      }
      // any other type is only printed; the handler stays armed
    }

    /** `_handleAuth37`: the number of security types offered. */
    method HandleAuth37(block: seq<byte>)
      requires |block| == 1
      modifies this`cont, this`expectedLen
      ensures cont == AuthTypes37 && expectedLen == block[0]
    {
      Expect(AuthTypes37, block[0]);
    }

    /** `_handleAuthTypes37`: VNC authentication is preferred over none,
        and none over the failure type; `x in block` is membership of an
        octet value. */
    method HandleAuthTypes37(block: seq<byte>)
      modifies this`out, this`cont, this`expectedLen
      ensures AUTH_VNCAUTH in block ==> cont == VncAuth && expectedLen == 16 && out == old(out)
      ensures AUTH_VNCAUTH !in block && AUTH_NONE in block ==>
        if versionMinor <= 7 then cont == ServerInit && expectedLen == 24 && out == old(out) + [shared]
        else cont == AuthResult && expectedLen == 4 && out == old(out)
      ensures AUTH_VNCAUTH !in block && AUTH_NONE !in block && AUTH_FAIL in block ==>
        cont == ConnFailed && expectedLen == 4 && out == old(out)
      ensures AUTH_VNCAUTH !in block && AUTH_NONE !in block && AUTH_FAIL !in block ==>
        cont == old(cont) && expectedLen == old(expectedLen) && out == old(out)
    {
      if AUTH_VNCAUTH in block {
        Expect(VncAuth, 16);
      } else if AUTH_NONE in block {
        if versionMinor <= 7 {
          DoClientInitialization();
        } else {
          Expect(AuthResult, 4);
        }
      } else if AUTH_FAIL in block {
        Expect(ConnFailed, 4);
      }
    }

    /** `_handleConnFailed`: the length of the reason that follows. */
    method HandleConnFailed(block: seq<byte>)
      requires |block| == 4
      modifies this`cont, this`expectedLen
      ensures cont == ConnMessage && expectedLen == DecodeU32(block)
    {
      Expect(ConnMessage, DecodeU32(block));
    }

    /** `_handleVNCAuth`: keep the challenge, ask for the password, and
        wait for the 4-octet result. */
    method HandleVncAuth(block: seq<byte>)
      modifies this`challenge, this`out, this`closed, this`cont, this`expectedLen
      ensures challenge == block && cont == AuthResult && expectedLen == 4
      ensures password.None? ==> closed && out == old(out)
      ensures password.Some? ==>
        closed == old(closed) && out == old(out) + encrypt(RfbDes.MirrorKey(RfbDes.Octets(RfbDes.PadPassword(password.value))), block)
    {
      challenge := block;
      VncRequestPassword();
      Expect(AuthResult, 4);
    }

    /** The default `vncRequestPassword`: without a factory password the
        connection is dropped, otherwise the password is sent. */
    method VncRequestPassword()
      modifies this`out, this`closed
      ensures password.None? ==> closed && out == old(out)
      ensures password.Some? ==>
        closed == old(closed) && out == old(out) + encrypt(RfbDes.MirrorKey(RfbDes.Octets(RfbDes.PadPassword(password.value))), challenge)
    {
      match password
      case None =>
        closed := true;
      case Some(p) =>
        SendPassword(p);
    }

    /** `sendPassword`: the challenge encrypted with the password, zero
        padded or cut to 8 octets, as DES key (bit-mirrored by `setKey`). */
    method SendPassword(pw: seq<byte>)
      modifies this`out
      ensures out == old(out) + encrypt(RfbDes.MirrorKey(RfbDes.Octets(RfbDes.PadPassword(pw))), challenge)
    {
      var key := RfbDes.SetKey(RfbDes.PadPassword(pw));
      out := out + encrypt(key, challenge);
    }

    /** `_handleAuthResult`: 0 is success, 1 failure (with a reason from
        version 3.8 on), 2 too many attempts; other values are only
        printed and leave the handler armed. */
    method HandleAuthResult(block: seq<byte>)
      requires |block| == 4
      modifies this`out, this`events, this`closed, this`cont, this`expectedLen
      ensures DecodeU32(block) == 0 ==>
        cont == ServerInit && expectedLen == 24 && out == old(out) + [shared]
        && events == old(events) && closed == old(closed)
      ensures DecodeU32(block) == 1 && versionMinor > 7 ==>
        cont == AuthError && expectedLen == 4 && out == old(out) && events == old(events) && closed == old(closed)
      ensures DecodeU32(block) == 1 && versionMinor <= 7 ==>
        events == old(events) + [AuthFailed(AuthenticationFailed)] && closed
        && out == old(out) && cont == old(cont) && expectedLen == old(expectedLen)
      ensures DecodeU32(block) == 2 ==>
        events == old(events) + [AuthFailed(TooManyTries)] && closed
        && out == old(out) && cont == old(cont) && expectedLen == old(expectedLen)
      ensures DecodeU32(block) > 2 ==>
        out == old(out) && events == old(events) && closed == old(closed)
        && cont == old(cont) && expectedLen == old(expectedLen)
    {
      var result := DecodeU32(block);
      if result == 0 {
        DoClientInitialization();
      } else if result == 1 {
        if versionMinor > 7 {
          Expect(AuthError, 4);
        } else {
          events := events + [AuthFailed(AuthenticationFailed)];
          closed := true;
        }
      } else if result == 2 {
        events := events + [AuthFailed(TooManyTries)];
        closed := true;
      }
    }

    /** `_handleAuthError`: it unpacks the reason length and then calls
        `_handleAuthMessage` with one argument too many, a TypeError. */
    method HandleAuthError(block: seq<byte>)
      requires |block| == 4
      modifies this`crashed
      ensures crashed
    {
      crashed := true;
    }

    /** `_doClientInitialization`: send the shared flag, wait for the
        24-octet ServerInit. */
    method DoClientInitialization()
      modifies this`out, this`cont, this`expectedLen
      ensures out == old(out) + [shared] && cont == ServerInit && expectedLen == 24
    {
      out := out + [shared];
      Expect(ServerInit, 24);
    }

    /** `_handleServerInit`: the framebuffer size, the pixel format (and
        `bypp = bpp // 8` from it), then wait for the name. */
    method HandleServerInit(block: seq<byte>)
      requires |block| == 24
      modifies this`width, this`height, this`pixelFormat, this`bypp, this`cont, this`expectedLen
      ensures var f := ParseServerInit(block);
        && width == f.width && height == f.height && pixelFormat == f.format
        && bypp == f.format.0 / 8 && cont == ServerName && expectedLen == f.nameLength
    {
      var f := ParseServerInit(block);
      width, height := f.width, f.height;
      pixelFormat := f.format;
      bypp := pixelFormat.0 / 8;
      Expect(ServerName, f.nameLength);
    }

    /** `_handleServerName`: keep the name, report the connection, wait for
        the first server message. */
    method HandleServerName(block: seq<byte>)
      modifies this`name, this`events, this`cont, this`expectedLen
      ensures name == block && events == old(events) + [ConnectionMade]
      ensures cont == Connection && expectedLen == 1
    {
      name := block;
      events := events + [ConnectionMade];
      Expect(Connection, 1);
    }

    // ------------------------------------------------------------------
    // server to client messages

    /** `_handleConnection`: dispatch on the message type. SetColourMap and
        unknown types are skipped without reading their bodies. */
    method HandleConnection(block: seq<byte>)
      requires |block| == 1
      modifies this`events, this`cont, this`expectedLen
      ensures block[0] == SMSG_FBUPDATE ==> cont == FramebufferUpdate && expectedLen == 3 && events == old(events)
      ensures block[0] == SMSG_BELL ==> cont == Connection && expectedLen == 1 && events == old(events) + [Bell]
      ensures block[0] == SMSG_SERVERCUTTEXT ==> cont == ServerCutText && expectedLen == 7 && events == old(events)
      ensures block[0] !in {SMSG_FBUPDATE, SMSG_BELL, SMSG_SERVERCUTTEXT} ==>
        cont == Connection && expectedLen == 1 && events == old(events)
    {
      var msgid := block[0];
      if msgid == SMSG_FBUPDATE {
        Expect(FramebufferUpdate, 3);
      } else if msgid == SMSG_BELL {
        events := events + [Bell];
        Expect(Connection, 1);
      } else if msgid == SMSG_SERVERCUTTEXT {
        Expect(ServerCutText, 7);
      } else {
        Expect(Connection, 1);
      }
    }

    /** `_handleFramebufferUpdate`: start a batch of rectangles. */
    method HandleFramebufferUpdate(block: seq<byte>)
      requires |block| == 3
      modifies this`rectangles, this`rectanglePos, this`events, this`cont, this`expectedLen
      ensures rectangles == ParseRectangleCount(block) && rectanglePos == []
      ensures rectangles != 0 ==> events == old(events) + [BeginUpdate] && cont == RectangleHeader && expectedLen == 12
      ensures rectangles == 0 ==>
        events == old(events) + [BeginUpdate, CommitUpdate([])] && cont == Connection && expectedLen == 1
    {
      rectangles := ParseRectangleCount(block);
      rectanglePos := [];
      events := events + [BeginUpdate];
      DoConnection();
    }

    /** `_doConnection`: the next rectangle header, or the end of the batch
        with `commitUpdate` and the next server message. */
    method DoConnection()
      modifies this`events, this`cont, this`expectedLen
      ensures Resumed(old(events)) && old(events) <= events
      ensures Armed(cont, expectedLen) && expectedLen > 0
    {
      if rectangles != 0 {
        Expect(RectangleHeader, 12);
      } else {
        events := events + [CommitUpdate(rectanglePos)];
        Expect(Connection, 1);
      }
    }

    /** `_handleRectangle`: count the rectangle, remember its position and
        expect the payload its encoding needs (`Payload`). The encoding is
        unpacked unsigned, so the cursor branch (-239) can never be taken and
        is not modelled. */
    method HandleRectangle(block: seq<byte>)
      requires |block| == 12
      modifies this`rectangles, this`rectanglePos, this`events, this`cont, this`expectedLen
      ensures var r := ParseRectangleHeader(block);
        old(rectangles) != 0 ==>
          rectangles == old(rectangles) - 1 && rectanglePos == old(rectanglePos) + [(r.x, r.y, r.width, r.height)]
      ensures old(rectangles) == 0 ==> rectangles == 0 && rectanglePos == old(rectanglePos)
      ensures var p := Payload(ParseRectangleHeader(block), bypp);
        if old(rectangles) != 0 && p.Some? then
          cont == p.value.0 && expectedLen == p.value.1 && events == old(events)
        else Resumed(old(events))
      ensures Armed(cont, expectedLen) && old(events) <= events
    {
      var r := ParseRectangleHeader(block);
      if rectangles != 0 {
        rectangles := rectangles - 1;
        rectanglePos := rectanglePos + [(r.x, r.y, r.width, r.height)];
        ExpectPayload(r);
      } else {
        DoConnection();
      }
    }

    /** The encoding branches of `_handleRectangle`, after the rectangle was
        counted. */
    method ExpectPayload(r: RectangleFields)
      requires 0 <= r.width && 0 <= r.height
      modifies this`events, this`cont, this`expectedLen
      ensures var p := Payload(r, bypp);
        if p.Some? then
          cont == p.value.0 && expectedLen == p.value.1 && events == old(events)
        else Resumed(old(events))
      ensures Armed(cont, expectedLen) && old(events) <= events
    {
      var x, y, w, h, encoding := r.x, r.y, r.width, r.height, r.encoding;
      if encoding == COPY_RECTANGLE_ENCODING {
        Expect(DecodeCopyRect(x, y, w, h), 4);
      } else if encoding == RAW_ENCODING {
        Expect(DecodeRaw(x, y, w, h), w * h * bypp);
      } else if encoding == HEXTILE_ENCODING {
        DoNextHextileSubrect(None, None, x, y, w, h, None);
      } else if encoding == CORRE_ENCODING {
        Expect(DecodeCorre(x, y, w, h), 4 + bypp);
      } else if encoding == RRE_ENCODING {
        Expect(DecodeRre(x, y, w, h), 4 + bypp);
      } else {
        DoConnection();
      }
    }

    /** `_handleDecodeRAW`: the pixels go to `updateRectangle` as they are. */
    method HandleDecodeRaw(block: seq<byte>, x: int, y: int, w: int, h: int)
      modifies this`events, this`cont, this`expectedLen
      ensures Resumed(old(events) + [UpdateRectangle(x, y, w, h, block)]) && old(events) <= events
      ensures Armed(cont, expectedLen) && expectedLen > 0
    {
      events := events + [UpdateRectangle(x, y, w, h, block)];
      DoConnection();
    }

    /** `_handleDecodeCopyrect`: the source position of the copy. */
    method HandleDecodeCopyRect(block: seq<byte>, x: int, y: int, w: int, h: int)
      requires |block| == 4
      modifies this`events, this`cont, this`expectedLen
      ensures Resumed(old(events) + [CopyRectangle(DecodeU16(block[..2]), DecodeU16(block[2..]), x, y, w, h)])
      ensures old(events) <= events && Armed(cont, expectedLen) && expectedLen > 0
    {
      var srcx, srcy := DecodeU16(block[..2]), DecodeU16(block[2..]);
      events := events + [CopyRectangle(srcx, srcy, x, y, w, h)];
      DoConnection();
    }

    /** `_handleDecodeRRE`: fill the whole rectangle with the background,
        then expect the subrectangle records, if any. */
    method HandleDecodeRre(block: seq<byte>, x: int, y: int, w: int, h: int)
      requires |block| >= 4
      modifies this`events, this`cont, this`expectedLen
      ensures old(events) <= events
      ensures var n := DecodeU32(block[..4]);
        var fill := FillRectangle(x, y, w, h, Some(block[4..]));
        && (n != 0 ==> cont == RreSubrects(x, y) && expectedLen == (8 + bypp) * n && events == old(events) + [fill])
        && (n == 0 ==> Resumed(old(events) + [fill]))
      ensures Armed(cont, expectedLen)
    {
      var subrects := DecodeU32(block[..4]);
      var colour := block[4..];
      events := events + [FillRectangle(x, y, w, h, Some(colour))];
      if subrects != 0 {
        Expect(RreSubrects(x, y), (8 + bypp) * subrects);
      } else {
        DoConnection();
      }
    }

    /** `_handleRRESubRectangles`: one fill per record, offset by the
        rectangle origin, then the next rectangle. */
    method HandleRreSubrects(block: seq<byte>, topx: int, topy: int)
      requires !crashed
      modifies this`events, this`crashed, this`cont, this`expectedLen
      ensures crashed <==> !Whole(block, bypp + 8)
      ensures old(events) <= events
      ensures !crashed ==> Resumed(old(events) + RreFills(block, bypp, topx, topy)) && Armed(cont, expectedLen) && expectedLen > 0
      ensures crashed ==>
        events == old(events) + RreFills(block, bypp, topx, topy) && cont == old(cont) && expectedLen == old(expectedLen)
    {
      var fills, ok := RreRecordFills(block, bypp, topx, topy);
      events := events + fills;
      if !ok {
        crashed := true;
      } else {
        DoConnection();
      }
    }

    /** `_handleDecodeCORRE`: like RRE with the CoRRE record size. */
    method HandleDecodeCorre(block: seq<byte>, x: int, y: int, w: int, h: int)
      requires |block| >= 4
      modifies this`events, this`cont, this`expectedLen
      ensures old(events) <= events
      ensures var n := DecodeU32(block[..4]);
        var fill := FillRectangle(x, y, w, h, Some(block[4..]));
        && (n != 0 ==> cont == CorreSubrects(x, y) && expectedLen == (4 + bypp) * n && events == old(events) + [fill])
        && (n == 0 ==> Resumed(old(events) + [fill]))
      ensures Armed(cont, expectedLen)
    {
      var subrects := DecodeU32(block[..4]);
      var colour := block[4..];
      events := events + [FillRectangle(x, y, w, h, Some(colour))];
      if subrects != 0 {
        Expect(CorreSubrects(x, y), (4 + bypp) * subrects);
      } else {
        DoConnection();
      }
    }

    /** `_handleDecodeCORRERectangles`: its loop runs while `pos < sz`, the
        size of one record, so only the first record is ever filled. */
    method HandleCorreSubrects(block: seq<byte>, topx: int, topy: int)
      requires !crashed
      modifies this`events, this`crashed, this`cont, this`expectedLen
      ensures crashed <==> |block| < bypp + 4
      ensures old(events) <= events
      ensures !crashed ==> Resumed(old(events) + [CorreFill(block[..bypp + 4], bypp, topx, topy)])
      ensures !crashed ==> Armed(cont, expectedLen) && expectedLen > 0
      ensures crashed ==> events == old(events) && cont == old(cont) && expectedLen == old(expectedLen)
    {
      var pos := 0;
      var sz := bypp + 4;
      while pos < sz
        invariant pos == 0 || (pos == sz && sz <= |block|)
        invariant pos == 0 ==> events == old(events)
        invariant pos == sz ==> events == old(events) + [CorreFill(block[..sz], bypp, topx, topy)]
        invariant !crashed && cont == old(cont) && expectedLen == old(expectedLen)
      {
        var record := Slice(block, pos, pos + sz);
        if |record| < sz {
          // struct.error
          crashed := true;
          return;
        }
        var colour := record[..bypp];
        events := events + [FillRectangle(topx + record[bypp], topy + record[bypp + 1],
                                          record[bypp + 2], record[bypp + 3], Some(colour))];
        pos := pos + sz;
      }
      DoConnection();
    }

    // ------------------------------------------------------------------
    // Hextile

    /** `_doNextHextileSubrect`: move to the next tile (row-major, see
        `Hextile.NextTileRowMajor`) and expect its subencoding octet, or end
        the rectangle. */
    method DoNextHextileSubrect(bg: Colour, fg: Colour, x: int, y: int, w: int, h: int, prev: Option<(int, int)>)
      requires 0 <= w && 0 <= h
      requires prev.Some? ==> x <= prev.value.0 <= x + w
      modifies this`events, this`cont, this`expectedLen
      ensures Armed(cont, expectedLen) && expectedLen > 0
      ensures match NextTile(x, y, w, h, prev)
        case Some((tx, ty)) =>
          cont == HextileTile(bg, fg, Tile(x, y, w, h, tx, ty)) && expectedLen == 1 && events == old(events)
        case None => Resumed(old(events))
      ensures old(events) <= events
    {
      var tx, ty;
      if prev.Some? {
        tx, ty := prev.value.0 + TILE, prev.value.1;
        if tx >= x + w {
          tx, ty := x, ty + TILE;
        }
      } else {
        tx, ty := x, y;
      }
      if ty >= y + h {
        DoConnection();
      } else {
        Expect(HextileTile(bg, fg, Tile(x, y, w, h, tx, ty)), 1);
      }
    }

    /** The walk continues after the tile `t`. */
    method NextTileAfter(bg: Colour, fg: Colour, t: Tile)
      requires TileOk(t)
      modifies this`events, this`cont, this`expectedLen
      ensures TileDone(bg, fg, t, old(events))
      ensures Armed(cont, expectedLen) && expectedLen > 0 && old(events) <= events
    {
      DoNextHextileSubrect(bg, fg, t.x, t.y, t.width, t.height, Some((t.tx, t.ty)));
    }

    /** `_handleDecodeHextile`: the subencoding octet of a tile. A raw tile
        is followed by its pixels, otherwise by the header whose size the
        subencoding bits give; with no header the tile is filled with the
        background and the walk moves on. */
    method HandleDecodeHextile(block: seq<byte>, bg: Colour, fg: Colour, t: Tile)
      requires |block| == 1 && TileOk(t)
      modifies this`events, this`cont, this`expectedLen
      ensures var s := block[0];
        && (RawBit(s) ==> cont == HextileRaw(bg, fg, t) && expectedLen == TileWidth(t) * TileHeight(t) * bypp
                          && events == old(events))
        && (!RawBit(s) && HeaderSize(s, bypp) != 0 ==>
              cont == HextileHeader(s, bg, fg, t) && expectedLen == HeaderSize(s, bypp) && events == old(events))
        && (!RawBit(s) && HeaderSize(s, bypp) == 0 ==> TileDone(bg, fg, t, old(events) + [TileFillEvent(t, bg)]))
      ensures Armed(cont, expectedLen) && old(events) <= events
    {
      var subencoding := block[0];
      var tw, th := TileWidth(t), TileHeight(t);
      if RawBit(subencoding) {
        Expect(HextileRaw(bg, fg, t), tw * th * bypp);
      } else {
        var numbytes := 0;
        if BackgroundBit(subencoding) {
          numbytes := numbytes + bypp;
        }
        if ForegroundBit(subencoding) {
          numbytes := numbytes + bypp;
        }
        if AnySubrectsBit(subencoding) {
          numbytes := numbytes + 1;
        }
        if numbytes != 0 {
          Expect(HextileHeader(subencoding, bg, fg, t), numbytes);
        } else {
          events := events + [FillRectangle(t.tx, t.ty, tw, th, bg)];
          NextTileAfter(bg, fg, t);
        }
      }
    }

    /** `_handleDecodeHextileSubrect`: an optional background (which fills
        the tile), an optional foreground and an optional subrectangle
        count; both colours carry over to the following tiles. */
    method HandleHextileHeader(block: seq<byte>, s: byte, bg: Colour, fg: Colour, t: Tile)
      requires TileOk(t) && !crashed
      modifies this`events, this`crashed, this`cont, this`expectedLen
      ensures var bg' := if BackgroundBit(s) then Some(Slice(block, 0, bypp)) else bg;
        var e := old(events) + [TileFillEvent(t, bg')];
        match ParseTileHeader(block, s, bypp, bg, fg)
        case None => crashed && events == e && cont == old(cont) && expectedLen == old(expectedLen)
        case Some(hd) =>
          && !crashed && hd.bg == bg'
          && (hd.subrects != 0 && ColouredBit(s) ==>
                cont == HextileColoured(bg', hd.fg, t) && expectedLen == (bypp + 2) * hd.subrects && events == e)
          && (hd.subrects != 0 && !ColouredBit(s) ==>
                cont == HextileForeground(bg', hd.fg, t) && expectedLen == 2 * hd.subrects && events == e)
          && (hd.subrects == 0 ==> TileDone(bg', hd.fg, t, e))
      ensures old(events) <= events
      ensures !crashed ==> Armed(cont, expectedLen) && expectedLen > 0
    {
      var bg' := if BackgroundBit(s) then Some(Slice(block, 0, bypp)) else bg;
      events := events + [TileFillEvent(t, bg')];
      var header := ParseTileHeader(block, s, bypp, bg, fg);
      if header.None? {
        // IndexError on the subrectangle count
        crashed := true;
        return;
      }
      var hd := header.value;
      if hd.subrects != 0 {
        if ColouredBit(s) {
          Expect(HextileColoured(bg', hd.fg, t), (bypp + 2) * hd.subrects);
        } else {
          Expect(HextileForeground(bg', hd.fg, t), 2 * hd.subrects);
        }
      } else {
        NextTileAfter(bg', hd.fg, t);
      }
    }

    /** `_handleDecodeHextileRAW`: the tile's pixels as they are. */
    method HandleHextileRaw(block: seq<byte>, bg: Colour, fg: Colour, t: Tile)
      requires TileOk(t)
      modifies this`events, this`cont, this`expectedLen
      ensures TileDone(bg, fg, t, old(events) + [UpdateRectangle(t.tx, t.ty, TileWidth(t), TileHeight(t), block)])
      ensures Armed(cont, expectedLen) && expectedLen > 0 && old(events) <= events
    {
      events := events + [UpdateRectangle(t.tx, t.ty, TileWidth(t), TileHeight(t), block)];
      NextTileAfter(bg, fg, t);
    }

    /** `_handleDecodeHextileSubrectsColoured`: every record brings its own
        colour, and the last one becomes the foreground of the next tile. */
    method HandleHextileColoured(block: seq<byte>, bg: Colour, fg: Colour, t: Tile)
      requires TileOk(t) && !crashed
      modifies this`events, this`crashed, this`cont, this`expectedLen
      ensures crashed <==> !Whole(block, bypp + 2)
      ensures old(events) <= events
      ensures !crashed ==>
        && TileDone(bg, ColouredLast(block, bypp, fg), t, old(events) + ColouredFills(block, bypp, t.tx, t.ty))
        && Armed(cont, expectedLen) && expectedLen > 0
      ensures crashed ==>
        && events == old(events) + ColouredFills(block, bypp, t.tx, t.ty)
        && cont == old(cont) && expectedLen == old(expectedLen)
    {
      var fills, colour, ok := ColouredRecordFills(block, bypp, t.tx, t.ty, fg);
      events := events + fills;
      if !ok {
        crashed := true;
      } else {
        NextTileAfter(bg, colour, t);
      }
    }

    /** `_handleDecodeHextileSubrectsFG`: two octets per record, all filled
        with the foreground colour. */
    method HandleHextileForeground(block: seq<byte>, bg: Colour, fg: Colour, t: Tile)
      requires TileOk(t) && !crashed
      modifies this`events, this`crashed, this`cont, this`expectedLen
      ensures crashed <==> !Whole(block, 2)
      ensures old(events) <= events
      ensures !crashed ==>
        TileDone(bg, fg, t, old(events) + ForegroundFills(block, t.tx, t.ty, fg)) && Armed(cont, expectedLen) && expectedLen > 0
      ensures crashed ==>
        events == old(events) + ForegroundFills(block, t.tx, t.ty, fg) && cont == old(cont) && expectedLen == old(expectedLen)
    {
      var fills, ok := ForegroundRecordFills(block, t.tx, t.ty, fg);
      events := events + fills;
      if !ok {
        crashed := true;
      } else {
        NextTileAfter(bg, fg, t);
      }
    }

    // ------------------------------------------------------------------
    // other server messages

    /** `_handleServerCutText`: the length of the text that follows. */
    method HandleServerCutText(block: seq<byte>)
      requires |block| == 7
      modifies this`cont, this`expectedLen
      ensures cont == ServerCutTextValue && expectedLen == ParseCutTextLength(block)
    {
      Expect(ServerCutTextValue, ParseCutTextLength(block));
    }

    /** `_handleServerCutTextValue`: report the text to `copy_text`. */
    method HandleServerCutTextValue(block: seq<byte>)
      modifies this`events, this`cont, this`expectedLen
      ensures events == old(events) + [CopyText(block)] && cont == Connection && expectedLen == 1
    {
      events := events + [CopyText(block)];
      Expect(Connection, 1);
    }

    // ------------------------------------------------------------------
    // client to server messages

    /** `setPixelFormat`: the format is packed before anything is written or
        remembered, so one the layout cannot hold raises struct.error
        (`false`) and changes nothing; otherwise it is sent, kept, and
        `bypp` becomes `bpp // 8`. */
    method SetPixelFormat(format: PixelTuple) returns (ok: bool)
      modifies this`out, this`pixelFormat, this`bypp
      ensures ok <==> Packable(format)
      ensures ok ==> out == old(out) + SetPixelFormatMessage(format) && pixelFormat == format && bypp == format.0 / 8
      ensures !ok ==> out == old(out) && pixelFormat == old(pixelFormat) && bypp == old(bypp)
    {
      if !Packable(format) {
        return false;
      }
      out := out + SetPixelFormatMessage(format);
      pixelFormat := format;
      bypp := pixelFormat.0 / 8;
      ok := true;
    }

    /** `setEncodings`: the header, then one unsigned word per encoding,
        each its own write; the first encoding `!I` cannot hold raises
        struct.error (`false`) with the words before it already written. */
    method SetEncodings(encodings: seq<int>) returns (ok: bool)
      modifies this`out
      ensures ok <==> IsU16(|encodings|) && U32Prefix(encodings) == |encodings|
      ensures !IsU16(|encodings|) ==> out == old(out)
      ensures IsU16(|encodings|) ==>
        out == old(out) + SetEncodingsHeader(|encodings|) + EncodingsUnsigned(encodings[..U32Prefix(encodings)])
    {
      if !IsU16(|encodings|) {
        return false;
      }
      out := out + SetEncodingsHeader(|encodings|);
      ghost var start := out;
      var i := 0;
      while i < |encodings|
        invariant i <= U32Prefix(encodings)
        invariant out == start + EncodingsUnsigned(encodings[..i])
      {
        if !IsU32(encodings[i]) {
          return false;
        }
        assert encodings[..i + 1][..i] == encodings[..i];
        out := out + U32(encodings[i]);
        i := i + 1;
      }
      assert encodings[..i] == encodings;
      ok := true;
    }

    /** `framebufferUpdateRequest`: a missing width or height means the
        rest of the framebuffer from `x` or `y`; values the layout cannot
        hold raise struct.error (`false`) and nothing is written. */
    method FramebufferUpdateRequest(x: int, y: int, w: Option<int>, h: Option<int>, incremental: int)
      returns (ok: bool)
      modifies this`out
      ensures var w' := if w.None? then width - x else w.value;
        var h' := if h.None? then height - y else h.value;
        && (ok <==> IsU8(incremental) && IsU16(x) && IsU16(y) && IsU16(w') && IsU16(h'))
        && (ok ==> out == old(out) + UpdateRequestMessage(incremental, x, y, w', h'))
        && (!ok ==> out == old(out))
    {
      var width' := if w.None? then width - x else w.value;
      var height' := if h.None? then height - y else h.value;
      if !(IsU8(incremental) && IsU16(x) && IsU16(y) && IsU16(width') && IsU16(height')) {
        return false;
      }
      out := out + UpdateRequestMessage(incremental, x, y, width', height');
      ok := true;
    }

    /** `keyEvent`; struct.error (`false`) when `down` or `key` does not
        fit its field. */
    method KeyEvent(key: int, down: int) returns (ok: bool)
      modifies this`out
      ensures ok <==> IsU32(key) && IsU8(down)
      ensures ok ==> out == old(out) + KeyEventMessage(key, down)
      ensures !ok ==> out == old(out)
    {
      if !(IsU32(key) && IsU8(down)) {
        return false;
      }
      out := out + KeyEventMessage(key, down);
      ok := true;
    }

    /** `pointerEvent`; struct.error (`false`) when a value does not fit
        its field. */
    method PointerEvent(x: int, y: int, buttonmask: int) returns (ok: bool)
      modifies this`out
      ensures ok <==> IsU16(x) && IsU16(y) && IsU8(buttonmask)
      ensures ok ==> out == old(out) + PointerEventMessage(x, y, buttonmask)
      ensures !ok ==> out == old(out)
    {
      if !(IsU16(x) && IsU16(y) && IsU8(buttonmask)) {
        return false;
      }
      out := out + PointerEventMessage(x, y, buttonmask);
      ok := true;
    }

    /** `clientCutText`; struct.error (`false`) when the length does not
        fit `!I`. */
    method ClientCutText(message: seq<byte>) returns (ok: bool)
      modifies this`out
      ensures ok <==> IsU32(|message|)
      ensures ok ==> out == old(out) + ClientCutTextMessage(message)
      ensures !ok ==> out == old(out)
    {
      if !IsU32(|message|) {
        return false;
      }
      out := out + ClientCutTextMessage(message);
      ok := true;
    }
  }
}
