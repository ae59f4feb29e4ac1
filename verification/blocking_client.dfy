/** `RFBClient` of `rfb.py`, the blocking client: the handlers run one after
    the other on a socket, each `__recv` pulling the next octets from the
    stream the server sent. Every handler method is proved to do what the
    matching function of BlockingProtocol says: same octets read, same
    octets written, same callbacks, same ending. */
module BlockingClient {
  import opened Bytes
  import opened Version
  import opened RfbHelpers
  import opened ServerMessages
  import opened ClientMessages
  import opened BlockingProtocol
  import RfbDes

  /** The longest prefix of `encs` that `return_sint32_bytes` can pack. */
  function S32Prefix(encs: seq<int>): (k: nat)
    ensures k <= |encs|
    ensures forall i :: 0 <= i < k ==> IsS32(encs[i])
    ensures k < |encs| ==> !IsS32(encs[k])
  {
    if encs == [] || !IsS32(encs[0]) then 0 else 1 + S32Prefix(encs[1..])
  }

  class RfbClient {
    /** Every octet the server sends on the connection, in order. */
    const input: seq<byte>
    /** The constructor arguments and the DES cipher. */
    const settings: Settings

    /** How many octets of `input` the socket has handed out. */
    var pos: nat
    /** Every octet written to the socket. */
    var out: seq<byte>
    /** The callbacks called so far. */
    var events: seq<Event>

    var versionMajor: nat
    var versionMinor: nat
    /** `_VNCAuthChallenge` */
    var challenge: seq<byte>
    var vncWidth: int
    var vncHeight: int
    var pixelFormat: PixelFormat
    /** `desktopname`, kept as its UTF-8 octets. */
    var desktopName: seq<byte>
    var numRectangles: nat

    ghost predicate Valid()
      reads this
    {
      pos <= |input| && pixelFormat.bytespp >= 0
    }

    /** `bytespp` of the current pixel format. */
    function Bypp(): nat
      reads this`pixelFormat
      requires pixelFormat.bytespp >= 0
    {
      pixelFormat.bytespp
    }

    /** The handler did what `r` says: the cursor is at `r.end`, and `r.sent`
        and `r.fired` were appended to what was written and called. The
        framebuffer size is the stored ServerInit's once one was read, the
        pixel format and the name only when the session started, and the
        challenge is the one kept; every other of these fields is as it was. */
    twostate predicate Performs(r: Run)
      reads this
    {
      && pos == r.end && out == old(out) + r.sent && events == old(events) + r.fired
      && (if r.stored.Some? then vncWidth == r.stored.value.init.width && vncHeight == r.stored.value.init.height
          else vncWidth == old(vncWidth) && vncHeight == old(vncHeight))
      && (if r.outcome == Session && r.stored.Some?
          then pixelFormat == FromTuple(r.stored.value.init.format) && desktopName == r.stored.value.name
          else pixelFormat == old(pixelFormat) && desktopName == old(desktopName))
      && challenge == (if r.challenge.Some? then r.challenge.value else old(challenge))
    }

    /** The version `_handleInitial` leaves when it started with the cursor
        at `p`: the chosen one once the header parsed, and the old one when
        it raised before the assignment. */
    twostate predicate VersionAfter(p: nat)
      reads this
      requires p <= |input|
    {
      var buffer := Chunk(input, p, 12);
      if HasNewline(buffer) && StartsWithRfb(buffer) && ParseVersion(buffer).Some?
      then (versionMajor, versionMinor) == NewChosen(ParseVersion(buffer).value.0, ParseVersion(buffer).value.1)
      else versionMajor == old(versionMajor) && versionMinor == old(versionMinor)
    }

    /** A client about to read `input`, nothing read or written yet. */
    constructor (input: seq<byte>, settings: Settings)
      ensures this.input == input && this.settings == settings
      ensures pos == 0 && out == [] && events == [] && numRectangles == 0
      ensures pixelFormat == Default() && Valid()
    {
      this.input := input;
      this.settings := settings;
      pos := 0;
      out := [];
      events := [];
      versionMajor, versionMinor := 0, 0;
      challenge := [];
      vncWidth, vncHeight := 0, 0;
      pixelFormat := Default();
      desktopName := [];
      numRectangles := 0;
    }

    // ----- the socket -----

    /** `__recv(n)`: the next octets of the stream, as many as `RecvSize`
        says. */
    method Recv(n: nat) returns (data: seq<byte>)
      requires pos <= |input|
      modifies this`pos
      ensures data == Chunk(input, old(pos), n) && pos == old(pos) + |data|
    {
      data := input[pos .. pos + RecvSize(n, |input| - pos)];
      pos := pos + |data|;
    }

    /** `__send(data)` */
    method Send(data: seq<byte>)
      modifies this`out
      ensures out == old(out) + data
    {
      out := out + data;
    }

    // ----- the handshake -----

    /** `_handleInitial`: read the server's version and answer it. */
    method HandleInitial() returns (r: Handshake)
      requires Valid()
      modifies this`pos, this`out, this`events, this`versionMajor, this`versionMinor, this`challenge
      modifies this`vncWidth, this`vncHeight, this`pixelFormat, this`desktopName
      ensures Valid() && Performs(HandshakeRun(input, settings, old(pos)))
      ensures r == HandshakeRun(input, settings, old(pos)).outcome
      ensures r == Session ==> IsU16(vncWidth) && IsU16(vncHeight) && Utf8(desktopName)
      ensures VersionAfter(old(pos))
    {
      var buffer := Recv(12);
      if !(HasNewline(buffer) && StartsWithRfb(buffer)) {
        return Raised(UnknownVersion(buffer));
      }
      var v := ParseVersion(buffer);
      if v.None? {
        return Raised(ValueError);
      }
      r := AnswerVersion(v.value.0, v.value.1);
    }

    /** The rest of `_handleInitial` once the server's version is parsed:
        choose the version, answer it and, for a minor of 3, read the
        security type. */
    method AnswerVersion(maj: nat, min: nat) returns (r: Handshake)
      requires Valid()
      modifies this`pos, this`out, this`events, this`versionMajor, this`versionMinor, this`challenge
      modifies this`vncWidth, this`vncHeight, this`pixelFormat, this`desktopName
      ensures Valid() && Performs(AnswerRun(input, settings, (maj, min), old(pos)))
      ensures r == AnswerRun(input, settings, (maj, min), old(pos)).outcome
      ensures (versionMajor, versionMinor) == NewChosen(maj, min)
    {
      var chosenMajor, chosenMinor := maj, min;
      if NewKnown(maj, min) && !Supported(maj, min) {
        chosenMajor, chosenMinor := 3, 3;
      }
      versionMajor, versionMinor := chosenMajor, chosenMinor;
      Send(NewReply(chosenMajor, chosenMinor));
      if chosenMinor == 3 {
        var d := Recv(4);
        ghost var sub := Auth33Run(input, settings, 3, d, pos);
        assert AnswerRun(input, settings, (maj, min), old(pos)) == Then(NewReply(chosenMajor, 3), sub);
        ThenAppends(old(out), NewReply(chosenMajor, 3), sub.sent);
        r := HandleAuth33(d);
      } else {
        r := Ended;
      }
    }

    /** `_handleAuth33(data)`: the security type the server chose. */
    method HandleAuth33(data: seq<byte>) returns (r: Handshake)
      requires Valid()
      modifies this`pos, this`out, this`events, this`challenge
      modifies this`vncWidth, this`vncHeight, this`pixelFormat, this`desktopName
      ensures Valid() && Performs(Auth33Run(input, settings, versionMinor, data, old(pos)))
      ensures r == Auth33Run(input, settings, versionMinor, data, old(pos)).outcome
    {
      if |data| != 4 {
        return Raised(StructError);
      }
      var auth := DecodeU32(data);
      if auth == AUTH_FAIL {
        var d := Recv(4);
        assert Auth33Run(input, settings, versionMinor, data, old(pos)) == ConnFailedRun(input, d, pos);
        r := HandleConnFailed(d);
      } else if auth == AUTH_NONE {
        assert Auth33Run(input, settings, versionMinor, data, old(pos)) == ClientInitRun(input, settings, versionMinor, pos);
        r := DoClientInit();
      } else if auth == AUTH_VNCAUTH {
        var d := Recv(16);
        assert Auth33Run(input, settings, versionMinor, data, old(pos)) == VncAuthRun(input, settings, versionMinor, d, pos);
        r := HandleVncAuth(d);
      } else {
        r := Raised(UnexpectedResponse);
      }
    }

    /** `_doClientInit`: send the shared flag, read ServerInit. */
    method DoClientInit() returns (r: Handshake)
      requires Valid()
      modifies this`pos, this`out, this`events, this`vncWidth, this`vncHeight, this`pixelFormat, this`desktopName
      ensures Valid() && Performs(ClientInitRun(input, settings, versionMinor, old(pos)))
      ensures r == ClientInitRun(input, settings, versionMinor, old(pos)).outcome
    {
      Send([SharedFlag(settings.sharedConn)]);
      var d := Recv(24);
      r := HandleServerInit(d);
    }

    /** `_handleServerInit(data)`: the framebuffer size is stored as soon as
        the block unpacks, the pixel format and the name only once the name
        decodes. */
    method HandleServerInit(data: seq<byte>) returns (r: Handshake)
      requires Valid()
      modifies this`pos, this`events, this`vncWidth, this`vncHeight, this`pixelFormat, this`desktopName
      ensures Valid() && Performs(ServerInitRun(input, data, old(pos)))
      ensures r == ServerInitRun(input, data, old(pos)).outcome
      ensures |data| == 24 ==> vncWidth == ParseServerInit(data).width && vncHeight == ParseServerInit(data).height
      ensures |data| != 24 ==> vncWidth == old(vncWidth) && vncHeight == old(vncHeight)
      ensures r == Session ==>
        && pixelFormat == FromTuple(ParseServerInit(data).format)
        && desktopName == Chunk(input, old(pos), ParseServerInit(data).nameLength)
        && Utf8(desktopName)
      ensures r != Session ==> pixelFormat == old(pixelFormat) && desktopName == old(desktopName)
    {
      if |data| != 24 {
        return Raised(ServerInitUnreadable);
      }
      var f := ParseServerInit(data);
      vncWidth, vncHeight := f.width, f.height;
      var name := Recv(f.nameLength);
      if !Utf8(name) {
        return Raised(NameNotUtf8);
      }
      desktopName := name;
      pixelFormat := FromTuple(f.format);
      events := events + [ConnectionMade];
      r := Session;
    }

    /** `_handleVNCAuth(data)`: keep the challenge, answer it, read the
        result. */
    method HandleVncAuth(data: seq<byte>) returns (r: Handshake)
      requires Valid()
      modifies this`pos, this`out, this`events, this`challenge
      modifies this`vncWidth, this`vncHeight, this`pixelFormat, this`desktopName
      ensures Valid() && Performs(VncAuthRun(input, settings, versionMinor, data, old(pos)))
      ensures r == VncAuthRun(input, settings, versionMinor, data, old(pos)).outcome
      ensures challenge == data
    {
      challenge := data;
      var answered := VncRequestPassword();
      if !answered {
        return Raised(AuthFailed(PasswordMissing));
      }
      var d := Recv(4);
      ghost var sub := AuthResultRun(input, settings, versionMinor, d, pos);
      assert VncAuthRun(input, settings, versionMinor, data, old(pos))
          == Then(settings.encrypt(Key(settings.password.value), data), sub).(challenge := Some(data));
      ThenAppends(old(out), settings.encrypt(Key(settings.password.value), data), sub.sent);
      r := HandleVncAuthResult(d);
    }

    /** `vncRequestPassword` as `rfb.py` defines it: raise when there is no
        password (`false` here), otherwise send the answer. */
    method VncRequestPassword() returns (answered: bool)
      modifies this`out
      ensures answered <==> !NoPassword(settings)
      ensures answered ==> out == old(out) + settings.encrypt(Key(settings.password.value), challenge)
      ensures !answered ==> out == old(out)
    {
      if NoPassword(settings) {
        return false;
      }
      SendPassword(settings.password.value);
      answered := true;
    }

    /** `sendPassword(password)`: the challenge encrypted with the password
        cut or zero-padded to 8 octets, through `RFBDes`, whose constructor
        runs `setKey` on it. */
    method SendPassword(password: seq<byte>)
      modifies this`out
      ensures out == old(out) + settings.encrypt(Key(password), challenge)
    {
      var key := RfbDes.SetKey(RfbDes.PadPassword(password));
      Send(settings.encrypt(key, challenge));
    }

    /** `_handleVNCAuthResult(data)` */
    method HandleVncAuthResult(data: seq<byte>) returns (r: Handshake)
      requires Valid()
      modifies this`pos, this`out, this`events, this`vncWidth, this`vncHeight, this`pixelFormat, this`desktopName
      ensures Valid() && Performs(AuthResultRun(input, settings, versionMinor, data, old(pos)))
      ensures r == AuthResultRun(input, settings, versionMinor, data, old(pos)).outcome
    {
      if |data| != 4 {
        return Raised(AuthFailed(ResultUnreadable));
      }
      var result := DecodeU32(data);
      if result == SMSG_AUTH_OK {
        r := DoClientInit();
      } else if result == SMSG_AUTH_FAIL {
        if versionMinor > 7 {
          var d := Recv(4);
          r := HandleVncAuthError(d);
        } else {
          r := Raised(AuthFailed(Rejected));
        }
      } else if result == SMSG_AUTH_TOOMANY {
        r := Raised(AuthFailed(TooManyAttempts));
      } else {
        r := Ended;
      }
    }

    /** `_handleVNCAuthError(data)`: read the reason and raise it. */
    method HandleVncAuthError(data: seq<byte>) returns (r: Handshake)
      requires Valid()
      modifies this`pos
      ensures Valid() && Performs(AuthErrorRun(input, data, old(pos)))
      ensures r == AuthErrorRun(input, data, old(pos)).outcome
    {
      if |data| != 4 {
        return Raised(StructError);
      }
      var reason := Recv(DecodeU32(data));
      r := Raised(AuthFailed(ServerReason(reason)));
    }

    /** `_handleConnFailed(data)`: read the reason and raise it. */
    method HandleConnFailed(data: seq<byte>) returns (r: Handshake)
      requires Valid()
      modifies this`pos
      ensures Valid() && Performs(ConnFailedRun(input, data, old(pos)))
      ensures r == ConnFailedRun(input, data, old(pos)).outcome
    {
      if |data| != 4 {
        return Raised(StructError);
      }
      var reason := Recv(DecodeU32(data));
      r := Raised(HandshakeFailed(reason));
    }

    // ----- the message loop -----

    /** `_handleConnection(data)`: one server message. */
    method HandleConnection(data: seq<byte>) returns (outcome: StepOutcome)
      requires Valid()
      modifies this`pos, this`events, this`numRectangles
      ensures Valid()
      ensures var st := ConnectionRun(input, old(Bypp()), data, old(pos));
        && pos == st.end && events == old(events) + st.fired && outcome == st.outcome
        && numRectangles == (if st.left.Some? then st.left.value else old(numRectangles))
    {
      if |data| != 1 {
        return Logged;
      }
      var id := data[0];
      if id == SMSG_FBUPDATE {
        var d := Recv(3);
        outcome := HandleFramebufferUpdate(d);
      } else if id == SMSG_BELL {
        events := events + [Bell];
        outcome := Handled;
      } else if id == SMSG_SERVERCUTTEXT {
        var d := Recv(7);
        outcome := HandleServerCutText(d);
      } else if id == SMSG_SETCOLORMAP {
        outcome := Handled;
      } else {
        outcome := Fatal(UnexpectedResponse);
      }
    }

    /** `_handleServerCutText(data)`: the text is read and dropped. */
    method HandleServerCutText(data: seq<byte>) returns (outcome: StepOutcome)
      requires Valid()
      modifies this`pos
      ensures Valid()
      ensures var st := CutTextRun(input, data, old(pos));
        pos == st.end && st.fired == [] && outcome == st.outcome
    {
      if |data| != 7 {
        return Logged;
      }
      var text := Recv(ParseCutTextLength(data));
      outcome := Handled;
    }

    /** `_handleFramebufferUpdate(data)`: store the rectangle count, call
        `onBeginUpdate`, read the rectangles. */
    method HandleFramebufferUpdate(data: seq<byte>) returns (outcome: StepOutcome)
      requires Valid()
      modifies this`pos, this`events, this`numRectangles
      ensures Valid()
      ensures var st := FramebufferUpdateRun(input, old(Bypp()), data, old(pos));
        && pos == st.end && events == old(events) + st.fired && outcome == st.outcome
        && numRectangles == (if st.left.Some? then st.left.value else old(numRectangles))
    {
      if |data| != 3 {
        return Logged;
      }
      numRectangles := ParseRectangleCount(data);
      events := events + [BeginUpdate];
      outcome := HandlePostFramebufferUpdate();
    }

    /** `_handlePostFramebufferUpdate`: the next rectangle, or the end of the
        update. */
    method HandlePostFramebufferUpdate() returns (outcome: StepOutcome)
      requires Valid()
      modifies this`pos, this`events, this`numRectangles
      ensures Valid()
      ensures var b := PostUpdateRun(input, old(Bypp()), old(numRectangles), old(pos));
        pos == b.end && events == old(events) + b.fired && numRectangles == b.left && outcome == b.outcome
      decreases numRectangles, 1
    {
      if numRectangles > 0 {
        var d := Recv(12);
        outcome := HandleRectangle(d);
      } else {
        events := events + [UpdateFinished];
        outcome := Handled;
      }
    }

    /** `_handleRectangle(data)`: one rectangle header; the count drops once
        the header unpacks. */
    method HandleRectangle(data: seq<byte>) returns (outcome: StepOutcome)
      requires Valid() && numRectangles > 0
      modifies this`pos, this`events, this`numRectangles
      ensures Valid()
      ensures var b := RectangleRun(input, old(Bypp()), old(numRectangles), data, old(pos));
        pos == b.end && events == old(events) + b.fired && numRectangles == b.left && outcome == b.outcome
      decreases numRectangles, 0
    {
      if |data| != 12 {
        return Logged;
      }
      var h := ParseRectangleHeader(data);
      numRectangles := numRectangles - 1;
      var rect := Rectangle(h.x, h.y, h.width, h.height);
      if h.encoding == RAW_ENCODING {
        var pixels := Recv(PixelBytes(h.width, h.height, Bypp()));
        outcome := DecodeRaw(pixels, rect);
      } else {
        outcome := HandlePostFramebufferUpdate();
      }
    }

    /** `_decodeRAW(data, rectangle)`: hand the pixels to
        `onRectangleUpdate`, then go on with the update. */
    method DecodeRaw(data: seq<byte>, rect: Rectangle) returns (outcome: StepOutcome)
      requires Valid()
      modifies this`pos, this`events, this`numRectangles
      ensures Valid()
      ensures var b := PostUpdateRun(input, old(Bypp()), old(numRectangles), old(pos));
        && pos == b.end && numRectangles == b.left && outcome == b.outcome
        && events == old(events) + [RectangleUpdate(rect.xPos, rect.yPos, rect.width, rect.height, data)] + b.fired
      decreases numRectangles, 2
    {
      var (x, y, w, h) := RectangleTuple(rect);
      events := events + [RectangleUpdate(x, y, w, h, data)];
      outcome := HandlePostFramebufferUpdate();
    }

    /** The request the loop sends after every message,
        `framebufferUpdateRequest(incremental=self._incrementalFrameBufferUpdate)`. */
    function LoopRequest(): seq<byte>
      reads this`vncWidth, this`vncHeight
      requires IsU16(vncWidth) && IsU16(vncHeight)
    {
      UpdateRequestMessage(if settings.incremental then 1 else 0, 0, 0, vncWidth, vncHeight)
    }

    /** `_mainRequestLoop` for at most `rounds` turns of `while not
        self._stop` (the flag another thread sets): one full request, then
        per turn one message handled and, with `keepRequesting`, one more
        request. A fatal error ends the loop early. */
    method MainRequestLoop(rounds: nat) returns (fatal: Option<Failure>)
      requires Valid() && IsU16(vncWidth) && IsU16(vncHeight)
      modifies this`pos, this`out, this`events, this`numRectangles
      ensures Valid()
      ensures var l := LoopRun(input, settings, old(Bypp()), old(LoopRequest()), old(pos), rounds);
        && pos == l.end && fatal == l.fatal
        && out == old(out) + UpdateRequestMessage(0, 0, 0, vncWidth, vncHeight) + l.sent
        && events == old(events) + l.fired
        && numRectangles == (if l.left.Some? then l.left.value else old(numRectangles))
    {
      var first := FramebufferUpdateRequest(0, 0, None, None, false);
      ghost var bypp, request := Bypp(), LoopRequest();
      ghost var total := LoopRun(input, settings, bypp, request, pos, rounds);
      ghost var rest := total;
      ghost var sent0, fired0 := out, events;
      ghost var sent, fired := [], [];
      fatal := None;
      var i := 0;
      while i < rounds && fatal.None?
        invariant Valid() && i <= rounds && bypp == Bypp() && request == LoopRequest()
        invariant rest.end == total.end && rest.fatal == total.fatal
        invariant fatal.None? ==> rest == LoopRun(input, settings, bypp, request, pos, rounds - i)
        invariant fatal.Some? ==> rest == Loop(pos, [], [], None, fatal, 0)
        invariant out == sent0 + sent && total.sent == sent + rest.sent
        invariant events == fired0 + fired && total.fired == fired + rest.fired
        invariant (if rest.left.Some? then rest.left.value else numRectangles)
               == (if total.left.Some? then total.left.value else old(numRectangles))
        decreases rounds - i, if fatal.None? then 1 else 0
      {
        ghost var sent1, fired1 := out, events;
        var outcome, st := LoopTurn(bypp, request, rounds - i);
        ghost var sends := out[|sent1|..];
        if outcome.Fatal? {
          fatal := Some(outcome.failure);
          rest := Loop(pos, [], [], None, fatal, 0);
        } else {
          rest := LoopRun(input, settings, bypp, request, pos, rounds - i - 1);
          i := i + 1;
        }
        ThenAppends(sent, sends, rest.sent);
        ThenAppends(fired, st.fired, rest.fired);
        ThenAppends(sent0, sent, sends);
        ThenAppends(fired0, fired, st.fired);
        sent, fired := sent + sends, fired + st.fired;
      }
    }

    /** `__start` once the socket is connected: the handshake of
        `_handleInitial`, and, when `_handleServerInit` starts the loop
        thread, at most `rounds` turns of `_mainRequestLoop` from where the
        handshake left the stream. The loop's requests carry the size that
        ServerInit stored and its Raw rectangles the format it stored. */
    method Start(rounds: nat) returns (r: Handshake, fatal: Option<Failure>)
      requires Valid()
      modifies this`pos, this`out, this`events, this`versionMajor, this`versionMinor, this`challenge
      modifies this`vncWidth, this`vncHeight, this`pixelFormat, this`desktopName, this`numRectangles
      ensures Valid() && VersionAfter(old(pos))
      ensures var h := HandshakeRun(input, settings, old(pos));
        && r == h.outcome
        && challenge == (if h.challenge.Some? then h.challenge.value else old(challenge))
        && (r != Session ==> fatal.None? && Performs(h) && numRectangles == old(numRectangles))
        && (r == Session ==>
              && h.stored.Some?
              && vncWidth == h.stored.value.init.width && vncHeight == h.stored.value.init.height
              && pixelFormat == FromTuple(h.stored.value.init.format) && desktopName == h.stored.value.name
              && IsU16(vncWidth) && IsU16(vncHeight)
              && var l := LoopRun(input, settings, Bypp(), LoopRequest(), h.end, rounds);
                 && pos == l.end && fatal == l.fatal
                 && out == old(out) + h.sent + UpdateRequestMessage(0, 0, 0, vncWidth, vncHeight) + l.sent
                 && events == old(events) + h.fired + l.fired
                 && numRectangles == (if l.left.Some? then l.left.value else old(numRectangles)))
    {
      r := HandleInitial();
      fatal := None;
      if r == Session {
        fatal := MainRequestLoop(rounds);
      }
    }

    /** One turn of `while not self._stop` with `k` turns to go: read the
        message type, handle the message and, unless it raised past the
        loop, send the next request when `keepRequesting` is set. `st` is
        the message's effect, as `LoopRun` takes it. */
    method LoopTurn(ghost bypp: nat, ghost request: seq<byte>, ghost k: nat) returns (outcome: StepOutcome, ghost st: Step)
      requires Valid() && IsU16(vncWidth) && IsU16(vncHeight) && bypp == Bypp() && request == LoopRequest() && k > 0
      modifies this`pos, this`out, this`events, this`numRectangles
      ensures Valid() && outcome == st.outcome && pos == st.end && events == old(events) + st.fired
      ensures numRectangles == (if st.left.Some? then st.left.value else old(numRectangles))
      ensures var sends := if !st.outcome.Fatal? && settings.keepRequesting then request else [];
        && out == old(out) + sends
        && (st.outcome.Fatal? ==> LoopRun(input, settings, bypp, request, old(pos), k)
                                  == Loop(st.end, [], st.fired, st.left, Some(st.outcome.failure), 0))
        && (!st.outcome.Fatal? ==>
              var rest := LoopRun(input, settings, bypp, request, st.end, k - 1);
              LoopRun(input, settings, bypp, request, old(pos), k)
              == Loop(rest.end, sends + rest.sent, st.fired + rest.fired,
                      if rest.left.Some? then rest.left else st.left, rest.fatal, rest.rounds + 1))
    {
      st := LoopStep(input, settings, bypp, request, pos, k);
      var d := Recv(1);
      outcome := HandleConnection(d);
      ghost var before := out;
      if !outcome.Fatal? && settings.keepRequesting {
        var sentOk := FramebufferUpdateRequest(0, 0, None, None, settings.incremental);
        assert out == before + request;
      }
    }

    // ----- client to server messages -----

    /** `setPixelFormat(pf)`: the format is stored first, then packed; a
        format the layout cannot hold raises struct.error (`false`) and
        sends nothing. */
    method SetPixelFormat(pf: PixelFormat) returns (ok: bool)
      requires pf.bytespp >= 0
      modifies this`pixelFormat, this`out
      ensures pixelFormat == pf && (ok <==> Packable(AsTuple(pf)))
      ensures ok ==> out == old(out) + SetPixelFormatMessage(AsTuple(pf))
      ensures !ok ==> out == old(out)
    {
      pixelFormat := pf;
      if !Packable(AsTuple(pf)) {
        return false;
      }
      Send(SetPixelFormatMessage(AsTuple(pf)));
      ok := true;
    }

    /** `setEncodings(encodings)`: the header, then one signed word per
        encoding; the first encoding outside the signed 32-bit range raises
        struct.error (`false`) after the words before it went out. */
    method SetEncodings(encodings: seq<int>) returns (ok: bool)
      modifies this`out
      ensures ok <==> IsU16(|encodings|) && S32Prefix(encodings) == |encodings|
      ensures !IsU16(|encodings|) ==> out == old(out)
      ensures IsU16(|encodings|) ==>
        out == old(out) + SetEncodingsHeader(|encodings|) + EncodingsSigned(encodings[..S32Prefix(encodings)])
    {
      if !IsU16(|encodings|) {
        return false;
      }
      Send(SetEncodingsHeader(|encodings|));
      ghost var start := out;
      var i := 0;
      while i < |encodings|
        invariant i <= S32Prefix(encodings)
        invariant out == start + EncodingsSigned(encodings[..i])
      {
        if !IsS32(encodings[i]) {
          return false;
        }
        assert encodings[..i + 1][..i] == encodings[..i];
        Send(S32(encodings[i]));
        i := i + 1;
      }
      assert encodings[..i] == encodings;
      ok := true;
    }

    /** `framebufferUpdateRequest(xPos, yPos, width, height, incremental)`: a
        missing or zero width or height stands for the rest of the
        framebuffer from the given corner; values the layout cannot hold
        raise struct.error (`false`) and nothing is sent. */
    method FramebufferUpdateRequest(x: int, y: int, width: Option<int>, height: Option<int>, incremental: bool)
      returns (ok: bool)
      modifies this`out
      ensures var w := if width.None? || width.value == 0 then vncWidth - x else width.value;
        var h := if height.None? || height.value == 0 then vncHeight - y else height.value;
        && (ok <==> IsU16(x) && IsU16(y) && IsU16(w) && IsU16(h))
        && (ok ==> out == old(out) + UpdateRequestMessage(if incremental then 1 else 0, x, y, w, h))
        && (!ok ==> out == old(out))
    {
      var w := if width.None? || width.value == 0 then vncWidth - x else width.value;
      var h := if height.None? || height.value == 0 then vncHeight - y else height.value;
      if !(IsU16(x) && IsU16(y) && IsU16(w) && IsU16(h)) {
        return false;
      }
      Send(UpdateRequestMessage(if incremental then 1 else 0, x, y, w, h));
      ok := true;
    }

    /** `keyEvent(key, down)` */
    method KeyEvent(key: int, down: int) returns (ok: bool)
      modifies this`out
      ensures ok <==> IsU32(key) && IsU8(down)
      ensures ok ==> out == old(out) + KeyEventMessage(key, down)
      ensures !ok ==> out == old(out)
    {
      if !(IsU32(key) && IsU8(down)) {
        return false;
      }
      Send(KeyEventMessage(key, down));
      ok := true;
    }

    /** `pointerEvent(x, y, buttommask)` */
    method PointerEvent(x: int, y: int, mask: int) returns (ok: bool)
      modifies this`out
      ensures ok <==> IsU16(x) && IsU16(y) && IsU8(mask)
      ensures ok ==> out == old(out) + PointerEventMessage(x, y, mask)
      ensures !ok ==> out == old(out)
    {
      if !(IsU16(x) && IsU16(y) && IsU8(mask)) {
        return false;
      }
      Send(PointerEventMessage(x, y, mask));
      ok := true;
    }
  }
}
