/** The blocking client of `rfb.py` read as a function of the octets the
    server sends: for every handler, what it pulls from the socket (each
    `__recv(n)` is a pull of the next octets from a read cursor), what it
    writes back, which callbacks it calls and how it ends (normally, or by
    raising one of its exceptions). The class in BlockingClient runs the
    handlers step by step and is proved to agree with these functions; the
    lemmas here state what the handshake and the message loop do with the
    byte streams a server produces. */
module BlockingProtocol {
  import opened Bytes
  import opened Version
  import opened RfbHelpers
  import opened ServerMessages
  import opened ClientMessages
  import RfbDes

  const AUTH_FAIL: int := 0
  const AUTH_NONE: int := 1
  const AUTH_VNCAUTH: int := 2
  const SMSG_AUTH_OK: int := 0
  const SMSG_AUTH_FAIL: int := 1
  const SMSG_AUTH_TOOMANY: int := 2
  const SMSG_FBUPDATE: int := 0
  const SMSG_SETCOLORMAP: int := 1
  const SMSG_BELL: int := 2
  const SMSG_SERVERCUTTEXT: int := 3
  const RAW_ENCODING: int := 0

  /** `connection.recv(4096)`: what `__recv` asks for when it is given no
      size, or the size 0. */
  const DEFAULT_RECV: nat := 4096

  /** The constructor arguments the handlers consult, and the DES cipher
      `sendPassword` uses. */
  datatype Settings = Settings(
    password: Option<seq<byte>>, sharedConn: bool, encrypt: RfbDes.Cipher,
    keepRequesting: bool, incremental: bool)

  /** The messages `VNCAuthentificationFailed` is raised with. */
  datatype AuthReason =
    | PasswordMissing               // "Password is missing!"
    | ResultUnreadable              // the struct.error of a short result
    | Rejected                      // "Authentication failed"
    | TooManyAttempts               // "Too many login attempts"
    | ServerReason(text: seq<byte>) // the reason string of version 3.8

  /** The exceptions that end the handshake or the message loop. */
  datatype Failure =
    | UnknownVersion(buffer: seq<byte>)  // RFBUnknownVersion
    | ValueError                         // `int()` or the unpacking of the version
    | StructError                        // struct.error of a short block
    | HandshakeFailed(reason: seq<byte>) // RFBHandshakeFailed from `_handleConnFailed`
    | ServerInitUnreadable               // RFBHandshakeFailed from `_handleServerInit`
    | NameNotUtf8                        // UnicodeDecodeError of the desktop name
    | UnexpectedResponse                 // RFBUnexpectedResponse
    | AuthFailed(cause: AuthReason)      // VNCAuthentificationFailed

  /** How the handshake thread ends: with the message loop started, by
      returning without starting it, or by an exception. */
  datatype Handshake = Session | Ended | Raised(failure: Failure)

  /** One call of an override callback (`onConnectionMade`,
      `onBeginUpdate`, `onRectangleUpdate`, `onFramebufferUpdateFinished`,
      `onBell`). */
  datatype Event =
    | ConnectionMade
    | BeginUpdate
    | RectangleUpdate(x: int, y: int, width: int, height: int, data: seq<byte>)
    | UpdateFinished
    | Bell

  /** What `_handleServerInit` keeps once its block unpacks: the ServerInit
      fields and the name octets read after them. */
  datatype Stored = Stored(init: ServerInitFields, name: seq<byte>)

  /** The effect of a handshake handler: how it ends, where the read cursor
      stands, what it wrote and which callbacks it called; `stored` is the
      ServerInit it read, if it got that far, and `challenge` the block
      `_handleVNCAuth` kept as `_VNCAuthChallenge`, if it was called. */
  datatype Run = Run(outcome: Handshake, end: nat, sent: seq<byte>, fired: seq<Event>,
                     stored: Option<Stored> := None, challenge: Option<seq<byte>> := None)

  /** A session starts only after a ServerInit whose name decoded, and a
      stored size always fits the 16 bits it was unpacked from. */
  predicate WellStored(r: Run) {
    && (r.outcome == Session ==> r.stored.Some? && Utf8(r.stored.value.name))
    && (r.stored.Some? ==> IsU16(r.stored.value.init.width) && IsU16(r.stored.value.init.height))
  }

  // ----- the socket -----

  /** How many octets `__recv(n)` returns when `remaining` are left:
      `MSG_WAITALL` waits for all `n` unless the stream ends first, and a
      size of 0 reads as no size at all, a plain `recv(4096)`. */
  function RecvSize(n: nat, remaining: nat): (k: nat)
    ensures k <= remaining
    ensures n > 0 ==> k <= n && (k < n ==> k == remaining)
    ensures n == 0 ==> k <= DEFAULT_RECV && (k < DEFAULT_RECV ==> k == remaining)
  {
    var want := if n == 0 then DEFAULT_RECV else n;
    if remaining < want then remaining else want
  }

  /** The octets `__recv(n)` returns with the read cursor at `p`: the next
      ones, in the order they arrived. */
  function Chunk(input: seq<byte>, p: nat, n: nat): (data: seq<byte>)
    requires p <= |input|
    ensures |data| == RecvSize(n, |input| - p)
    ensures p + |data| <= |input| && data == input[p .. p + |data|]
  {
    input[p .. p + RecvSize(n, |input| - p)]
  }

  /** A pull of `n > 0` octets where the stream holds the block `b` of
      that size returns exactly `b`. */
  lemma ChunkAt(input: seq<byte>, p: nat, b: seq<byte>)
    requires |b| > 0 && p + |b| <= |input| && input[p .. p + |b|] == b
    ensures Chunk(input, p, |b|) == b
  {
  }

  // ----- the handshake -----

  function Then(sent: seq<byte>, r: Run): Run {
    r.(sent := sent + r.sent)
  }

  /** What is written (or called) before a handler and what the handler
      writes (or calls) add up. */
  lemma ThenAppends<T>(before: seq<T>, sent: seq<T>, rest: seq<T>)
    ensures before + sent + rest == before + (sent + rest)
  {
  }

  /** `bytes.decode()`: Python's strict UTF-8 decoder accepts `s`. The
      well-formed sequences are those of table 3-7 of the Unicode
      Standard: no overlong forms, no surrogates, nothing above U+10FFFF. */
  predicate Utf8(s: seq<byte>)
    decreases |s|
  {
    if s == [] then true
    else
      var b := s[0];
      if b < 0x80 then Utf8(s[1..])
      else if 0xC2 <= b <= 0xDF then |s| >= 2 && Trailing(s[1]) && Utf8(s[2..])
      else if 0xE0 <= b <= 0xEF then
        && |s| >= 3
        && (if b == 0xE0 then 0xA0 <= s[1] <= 0xBF else if b == 0xED then 0x80 <= s[1] <= 0x9F else Trailing(s[1]))
        && Trailing(s[2]) && Utf8(s[3..])
      else if 0xF0 <= b <= 0xF4 then
        && |s| >= 4
        && (if b == 0xF0 then 0x90 <= s[1] <= 0xBF else if b == 0xF4 then 0x80 <= s[1] <= 0x8F else Trailing(s[1]))
        && Trailing(s[2]) && Trailing(s[3]) && Utf8(s[4..])
      else false
  }

  /** A continuation octet `10xxxxxx`. */
  predicate Trailing(b: byte) { 0x80 <= b <= 0xBF }

  /** Every ASCII name decodes. */
  lemma {:induction false} AsciiIsUtf8(s: seq<byte>)
    requires forall k :: 0 <= k < |s| ==> s[k] < 0x80
    ensures Utf8(s)
    decreases |s|
  {
    if s != [] {
      AsciiIsUtf8(s[1..]);
    }
  }

  /** The handshake handlers of `rfb.py` that are called with a block the
      caller has read: each reads what it needs next and calls the
      handler after it. */
  datatype Stage =
    | Auth33      // `_handleAuth33(data)`
    | ConnFailed  // `_handleConnFailed(data)`
    | VncAuth     // `_handleVNCAuth(data)`
    | AuthResult  // `_handleVNCAuthResult(data)`
    | AuthError   // `_handleVNCAuthError(data)`
    | ClientInit  // `_doClientInit()`, which takes no block
    | ServerInit  // `_handleServerInit(data)`

  /** How many handlers can still follow. */
  function Rank(h: Stage): nat {
    match h
    case ServerInit => 0
    case ConnFailed => 0
    case AuthError => 0
    case ClientInit => 1
    case AuthResult => 2
    case VncAuth => 3
    case Auth33 => 4
  }

  /** The ClientInit octet, `1 if self.sharedConn else 0`. */
  function SharedFlag(shared: bool): byte {
    if shared then 1 else 0
  }

  /** The DES key `sendPassword` hands to `RFBDes`: the password cut or
      zero-padded to 8 octets, each octet bit-mirrored by `setKey`. */
  function Key(password: seq<byte>): seq<bv8> {
    RfbDes.MirrorKey(RfbDes.Octets(RfbDes.PadPassword(password)))
  }

  /** The password `vncRequestPassword` finds missing: `not self.password`
      holds for no password and for the empty one. */
  predicate NoPassword(s: Settings) {
    s.password.None? || s.password.value == []
  }

  /** Handler `h` called with the block `data`, the read cursor at `q`
      just after it; `minor` is `self.version_min`. The handlers that call
      another one do so through `Handle`. */
  function Handle(input: seq<byte>, s: Settings, minor: nat, h: Stage, data: seq<byte>, q: nat): (r: Run)
    requires q <= |input|
    ensures q <= r.end <= |input|
    ensures WellStored(r)
    decreases Rank(h), 1
  {
    match h
    case ServerInit => ServerInitRun(input, data, q)
    case ClientInit => ClientInitRun(input, s, minor, q)
    case ConnFailed => ConnFailedRun(input, data, q)
    case AuthError => AuthErrorRun(input, data, q)
    case AuthResult => AuthResultRun(input, s, minor, data, q)
    case VncAuth => VncAuthRun(input, s, minor, data, q)
    case Auth33 => Auth33Run(input, s, minor, data, q)
  }

  /** `_handleServerInit(data)`. The name is the next `namelen` octets, or
      any available ones when `namelen` is 0, since `__recv(0)` is
      `recv(4096)`. */
  function ServerInitRun(input: seq<byte>, data: seq<byte>, q: nat): (r: Run)
    requires q <= |input|
    ensures q <= r.end <= |input|
    ensures WellStored(r)
  {
    if |data| != 24 then Run(Raised(ServerInitUnreadable), q, [], [])
    else
      var name := Chunk(input, q, ParseServerInit(data).nameLength);
      var stored := Some(Stored(ParseServerInit(data), name));
      if !Utf8(name) then Run(Raised(NameNotUtf8), q + |name|, [], [], stored)
      else Run(Session, q + |name|, [], [ConnectionMade], stored)
  }

  /** `_doClientInit()`: send the shared flag and read ServerInit. */
  function ClientInitRun(input: seq<byte>, s: Settings, minor: nat, q: nat): (r: Run)
    requires q <= |input|
    ensures q <= r.end <= |input|
    ensures WellStored(r)
    decreases Rank(ClientInit), 0
  {
    var d := Chunk(input, q, 24);
    Then([SharedFlag(s.sharedConn)], Handle(input, s, minor, ServerInit, d, q + |d|))
  }

  /** `_handleConnFailed(data)`: read the reason and raise it. */
  function ConnFailedRun(input: seq<byte>, data: seq<byte>, q: nat): (r: Run)
    requires q <= |input|
    ensures q <= r.end <= |input|
    ensures WellStored(r)
  {
    if |data| != 4 then Run(Raised(StructError), q, [], [])
    else
      var reason := Chunk(input, q, DecodeU32(data));
      Run(Raised(HandshakeFailed(reason)), q + |reason|, [], [])
  }

  /** `_handleVNCAuthError(data)`: read the reason and raise it. */
  function AuthErrorRun(input: seq<byte>, data: seq<byte>, q: nat): (r: Run)
    requires q <= |input|
    ensures q <= r.end <= |input|
    ensures WellStored(r)
  {
    if |data| != 4 then Run(Raised(StructError), q, [], [])
    else
      var reason := Chunk(input, q, DecodeU32(data));
      Run(Raised(AuthFailed(ServerReason(reason))), q + |reason|, [], [])
  }

  /** `_handleVNCAuthResult(data)`. An unknown result is logged and the
      handshake thread returns without starting the loop. */
  function AuthResultRun(input: seq<byte>, s: Settings, minor: nat, data: seq<byte>, q: nat): (r: Run)
    requires q <= |input|
    ensures q <= r.end <= |input|
    ensures WellStored(r)
    decreases Rank(AuthResult), 0
  {
    if |data| != 4 then Run(Raised(AuthFailed(ResultUnreadable)), q, [], [])
    else
      var result := DecodeU32(data);
      if result == SMSG_AUTH_OK then Handle(input, s, minor, ClientInit, [], q)
      else if result == SMSG_AUTH_FAIL then
        if minor > 7 then
          var d := Chunk(input, q, 4);
          Handle(input, s, minor, AuthError, d, q + |d|)
        else Run(Raised(AuthFailed(Rejected)), q, [], [])
      else if result == SMSG_AUTH_TOOMANY then Run(Raised(AuthFailed(TooManyAttempts)), q, [], [])
      else Run(Ended, q, [], [])
  }

  /** `_handleVNCAuth(data)` with `vncRequestPassword` as `rfb.py` defines
      it: raise when the password is missing, otherwise send the encrypted
      challenge; then read the result. */
  function VncAuthRun(input: seq<byte>, s: Settings, minor: nat, data: seq<byte>, q: nat): (r: Run)
    requires q <= |input|
    ensures q <= r.end <= |input|
    ensures WellStored(r)
    decreases Rank(VncAuth), 0
  {
    if NoPassword(s) then Run(Raised(AuthFailed(PasswordMissing)), q, [], [], None, Some(data))
    else
      var d := Chunk(input, q, 4);
      Then(s.encrypt(Key(s.password.value), data), Handle(input, s, minor, AuthResult, d, q + |d|)).(challenge := Some(data))
  }

  /** `_handleAuth33(data)`: the security type the server chose. */
  function Auth33Run(input: seq<byte>, s: Settings, minor: nat, data: seq<byte>, q: nat): (r: Run)
    requires q <= |input|
    ensures q <= r.end <= |input|
    ensures WellStored(r)
    decreases Rank(Auth33), 0
  {
    if |data| != 4 then Run(Raised(StructError), q, [], [])
    else
      var auth := DecodeU32(data);
      if auth == AUTH_FAIL then
        var d := Chunk(input, q, 4);
        Handle(input, s, minor, ConnFailed, d, q + |d|)
      else if auth == AUTH_NONE then Handle(input, s, minor, ClientInit, [], q)
      else if auth == AUTH_VNCAUTH then
        var d := Chunk(input, q, 16);
        Handle(input, s, minor, VncAuth, d, q + |d|)
      else Run(Raised(UnexpectedResponse), q, [], [])
  }

  /** `_handleInitial` with the cursor at `p`: read 12 octets, check the
      `RFB` prefix and the newline, parse the version and answer it.
      (`__close()` does nothing here, since the loop thread has not been
      started.) */
  function HandshakeRun(input: seq<byte>, s: Settings, p: nat): (r: Run)
    requires p <= |input|
    ensures p <= r.end <= |input|
    ensures WellStored(r)
  {
    var buffer := Chunk(input, p, 12);
    var q := p + |buffer|;
    if !(HasNewline(buffer) && StartsWithRfb(buffer)) then Run(Raised(UnknownVersion(buffer)), q, [], [])
    else if ParseVersion(buffer).None? then Run(Raised(ValueError), q, [], [])
    else AnswerRun(input, s, ParseVersion(buffer).value, q)
  }

  /** The rest of `_handleInitial` once the server's version `v` is
      parsed: answer with the chosen version and, when its minor is 3,
      read the security type. */
  function AnswerRun(input: seq<byte>, s: Settings, v: (nat, nat), q: nat): (r: Run)
    requires q <= |input|
    ensures q <= r.end <= |input|
    ensures WellStored(r)
  {
    var chosen := NewChosen(v.0, v.1);
    Then(NewReply(chosen.0, chosen.1),
         if chosen.1 == 3 then
           var d := Chunk(input, q, 4);
           Handle(input, s, chosen.1, Auth33, d, q + |d|)
         else Run(Ended, q, [], []))
  }

  // ----- handshake properties -----

  /** A one-digit version header as servers write it, `RFB 00x.00y\n`. */
  lemma ShortHeader(maj: nat, min: nat)
    requires maj < 10 && min < 10
    ensures OldReply(maj, min) == RFB_PREFIX + [32, ZERO, ZERO, ZERO + maj, DOT, ZERO, ZERO, ZERO + min, NEWLINE]
  {
    PadOneDigit(maj);
    PadOneDigit(min);
  }

  lemma PadOneDigit(n: nat)
    requires n < 10
    ensures Pad3(n) == [ZERO, ZERO, ZERO + n]
  {
    assert Decimal(n) == [ZERO + n] && Zeros(2) == [ZERO, ZERO];
  }

  /** Such a header is 12 octets long, passes both checks and parses back. */
  lemma HeaderAccepted(maj: nat, min: nat)
    requires maj < 10 && min < 10
    ensures |OldReply(maj, min)| == 12
    ensures HasNewline(OldReply(maj, min)) && StartsWithRfb(OldReply(maj, min))
    ensures ParseVersion(OldReply(maj, min)) == Some((maj, min))
  {
    ShortHeader(maj, min);
    ParseOldReply(maj, min);
    assert OldReply(maj, min)[11] == NEWLINE;
  }

  /** `_handleInitial` reads a one-digit header whole and answers the
      version it carries. */
  lemma {:induction false} HandshakeAfterHeader(input: seq<byte>, s: Settings, maj: nat, min: nat)
    requires maj < 10 && min < 10 && 12 <= |input| && input[..12] == OldReply(maj, min)
    ensures HandshakeRun(input, s, 0) == AnswerRun(input, s, (maj, min), 12)
  {
    ChunkAt(input, 0, OldReply(maj, min));
    HeaderAccepted(maj, min);
  }

  /** With a chosen minor of 3 the security type is the next four octets. */
  lemma AnswerThree(input: seq<byte>, s: Settings, maj: nat, min: nat)
    requires 16 <= |input| && NewChosen(maj, min).1 == 3
    ensures AnswerRun(input, s, (maj, min), 12)
         == Then(NewReply(NewChosen(maj, min).0, 3), Handle(input, s, 3, Auth33, input[12..16], 16))
  {
    ChunkAt(input, 12, input[12..16]);
  }

  /** The handshake up to the security type, for a one-digit server
      version whose chosen minor is 3. */
  lemma {:induction false} UpToSecurity(input: seq<byte>, s: Settings, maj: nat, min: nat)
    requires maj < 10 && min < 10 && NewChosen(maj, min).1 == 3
    requires 16 <= |input| && input[..12] == OldReply(maj, min)
    ensures HandshakeRun(input, s, 0)
         == Then(NewReply(NewChosen(maj, min).0, 3), Handle(input, s, 3, Auth33, input[12..16], 16))
  {
    HandshakeAfterHeader(input, s, maj, min);
    AnswerThree(input, s, maj, min);
  }

  /** A chosen minor other than 3 ends the handshake right after the
      answer, without reading anything more. */
  lemma {:induction false} OtherMinorEnds(input: seq<byte>, s: Settings, maj: nat, min: nat)
    requires maj < 10 && min < 10 && NewChosen(maj, min).1 != 3
    requires 12 <= |input| && input[..12] == OldReply(maj, min)
    ensures HandshakeRun(input, s, 0) == Run(Ended, 12, NewReply(maj, min), [])
  {
    HandshakeAfterHeader(input, s, maj, min);
    assert NewChosen(maj, min) == (maj, min);
  }

  /** ClientInit followed by a well-formed ServerInit and its name ends
      the handshake with the loop started and one `onConnectionMade`. */
  lemma {:induction false} ServerInitAccepted(input: seq<byte>, s: Settings, minor: nat, q: nat,
                                              f: ServerInitFields, name: seq<byte>)
    requires ServerInitEncodable(f) && f.nameLength == |name| > 0 && Utf8(name)
    requires q + 24 + |name| <= |input|
    requires input[q .. q + 24] == EncodeServerInit(f) && input[q + 24 .. q + 24 + |name|] == name
    ensures Handle(input, s, minor, ClientInit, [], q)
         == Run(Session, q + 24 + |name|, [SharedFlag(s.sharedConn)], [ConnectionMade], Some(Stored(f, name)))
  {
    ChunkAt(input, q, EncodeServerInit(f));
    ChunkAt(input, q + 24, name);
    ServerInitRoundTrip(f);
    assert ServerInitRun(input, EncodeServerInit(f), q + 24) == Run(Session, q + 24 + |name|, [], [ConnectionMade], Some(Stored(f, name)));
  }

  /** Security type 1 (none) followed by a well-formed ServerInit and its
      name: the client sends only its shared flag and gets a session. */
  lemma {:induction false} NoAuthAccepted(input: seq<byte>, s: Settings, q: nat, f: ServerInitFields, name: seq<byte>)
    requires ServerInitEncodable(f) && f.nameLength == |name| > 0 && Utf8(name)
    requires q + 24 + |name| <= |input|
    requires input[q .. q + 24] == EncodeServerInit(f) && input[q + 24 .. q + 24 + |name|] == name
    ensures Handle(input, s, 3, Auth33, U32(AUTH_NONE), q)
         == Run(Session, q + 24 + |name|, [SharedFlag(s.sharedConn)], [ConnectionMade], Some(Stored(f, name)))
  {
    U32RoundTrip(AUTH_NONE);
    ServerInitAccepted(input, s, 3, q, f, name);
  }

  /** The whole handshake with security type 1, from the version header
      on. */
  lemma {:induction false} NoAuthHandshake(input: seq<byte>, s: Settings, maj: nat, min: nat,
                                           f: ServerInitFields, name: seq<byte>)
    requires maj < 10 && min < 10 && NewChosen(maj, min).1 == 3
    requires ServerInitEncodable(f) && f.nameLength == |name| > 0 && Utf8(name)
    requires 40 + |name| <= |input| && input[..12] == OldReply(maj, min) && input[12..16] == U32(AUTH_NONE)
    requires input[16..40] == EncodeServerInit(f) && input[40 .. 40 + |name|] == name
    ensures HandshakeRun(input, s, 0)
         == Run(Session, 40 + |name|, NewReply(NewChosen(maj, min).0, 3) + [SharedFlag(s.sharedConn)], [ConnectionMade],
                Some(Stored(f, name)))
  {
    UpToSecurity(input, s, maj, min);
    NoAuthAccepted(input, s, 16, f, name);
  }

  /** VNC authentication with a password: the challenge is answered with
      `encrypt(key, challenge)`, and result 0 followed by a well-formed
      ServerInit with its name gives a session. */
  lemma {:induction false} VncAuthAccepted(input: seq<byte>, s: Settings, challenge: seq<byte>, q: nat,
                                           f: ServerInitFields, name: seq<byte>)
    requires !NoPassword(s)
    requires ServerInitEncodable(f) && f.nameLength == |name| > 0 && Utf8(name)
    requires q + 28 + |name| <= |input| && input[q .. q + 4] == U32(SMSG_AUTH_OK)
    requires input[q + 4 .. q + 28] == EncodeServerInit(f) && input[q + 28 .. q + 28 + |name|] == name
    ensures Handle(input, s, 3, VncAuth, challenge, q)
         == Run(Session, q + 28 + |name|, s.encrypt(Key(s.password.value), challenge) + [SharedFlag(s.sharedConn)], [ConnectionMade],
                Some(Stored(f, name)), Some(challenge))
  {
    ChunkAt(input, q, U32(SMSG_AUTH_OK));
    U32RoundTrip(SMSG_AUTH_OK);
    ServerInitAccepted(input, s, 3, q + 4, f, name);
    assert Handle(input, s, 3, AuthResult, U32(SMSG_AUTH_OK), q + 4) == Handle(input, s, 3, ClientInit, [], q + 4);
  }

  /** Security type 2 (VNC authentication): a 16-octet challenge, result 0
      and a well-formed ServerInit with its name. */
  lemma {:induction false} VncAuthChallenge(input: seq<byte>, s: Settings, challenge: seq<byte>, q: nat,
                                            f: ServerInitFields, name: seq<byte>)
    requires |challenge| == 16 && !NoPassword(s)
    requires ServerInitEncodable(f) && f.nameLength == |name| > 0 && Utf8(name)
    requires q + 44 + |name| <= |input| && input[q .. q + 16] == challenge && input[q + 16 .. q + 20] == U32(SMSG_AUTH_OK)
    requires input[q + 20 .. q + 44] == EncodeServerInit(f) && input[q + 44 .. q + 44 + |name|] == name
    ensures Handle(input, s, 3, Auth33, U32(AUTH_VNCAUTH), q)
         == Run(Session, q + 44 + |name|, s.encrypt(Key(s.password.value), challenge) + [SharedFlag(s.sharedConn)], [ConnectionMade],
                Some(Stored(f, name)), Some(challenge))
  {
    U32RoundTrip(AUTH_VNCAUTH);
    ChunkAt(input, q, challenge);
    VncAuthAccepted(input, s, challenge, q + 16, f, name);
  }

  /** The whole handshake with VNC authentication, from the version header
      on: the client writes its version, the encrypted challenge and its
      shared flag. */
  lemma {:induction false} VncAuthHandshake(input: seq<byte>, s: Settings, maj: nat, min: nat, challenge: seq<byte>,
                                            f: ServerInitFields, name: seq<byte>)
    requires maj < 10 && min < 10 && NewChosen(maj, min).1 == 3
    requires |challenge| == 16 && !NoPassword(s)
    requires ServerInitEncodable(f) && f.nameLength == |name| > 0 && Utf8(name)
    requires 60 + |name| <= |input| && input[..12] == OldReply(maj, min) && input[12..16] == U32(AUTH_VNCAUTH)
    requires input[16..32] == challenge && input[32..36] == U32(SMSG_AUTH_OK)
    requires input[36..60] == EncodeServerInit(f) && input[60 .. 60 + |name|] == name
    ensures HandshakeRun(input, s, 0)
         == Run(Session, 60 + |name|,
                NewReply(NewChosen(maj, min).0, 3) + (s.encrypt(Key(s.password.value), challenge) + [SharedFlag(s.sharedConn)]),
                [ConnectionMade], Some(Stored(f, name)), Some(challenge))
  {
    UpToSecurity(input, s, maj, min);
    VncAuthChallenge(input, s, challenge, 16, f, name);
  }

  /** Security type 0 (failure): the reason the server sends after its
      length is what `RFBHandshakeFailed` is raised with. */
  lemma {:induction false} ConnFailedReason(input: seq<byte>, s: Settings, q: nat, reason: seq<byte>)
    requires 0 < |reason| < TWO32
    requires q + 4 + |reason| <= |input| && input[q .. q + 4] == U32(|reason|) && input[q + 4 .. q + 4 + |reason|] == reason
    ensures Handle(input, s, 3, Auth33, U32(AUTH_FAIL), q) == Run(Raised(HandshakeFailed(reason)), q + 4 + |reason|, [], [])
  {
    U32RoundTrip(AUTH_FAIL);
    U32RoundTrip(|reason|);
    ChunkAt(input, q, U32(|reason|));
    ChunkAt(input, q + 4, reason);
    assert Handle(input, s, 3, ConnFailed, U32(|reason|), q + 4) == Run(Raised(HandshakeFailed(reason)), q + 4 + |reason|, [], []);
  }

  /** The whole handshake with security type 0, from the version header on. */
  lemma {:induction false} ConnFailedHandshake(input: seq<byte>, s: Settings, maj: nat, min: nat, reason: seq<byte>)
    requires maj < 10 && min < 10 && NewChosen(maj, min).1 == 3
    requires 0 < |reason| < TWO32
    requires 20 + |reason| <= |input| && input[..12] == OldReply(maj, min) && input[12..16] == U32(AUTH_FAIL)
    requires input[16..20] == U32(|reason|) && input[20 .. 20 + |reason|] == reason
    ensures HandshakeRun(input, s, 0)
         == Run(Raised(HandshakeFailed(reason)), 20 + |reason|, NewReply(NewChosen(maj, min).0, 3), [])
  {
    UpToSecurity(input, s, maj, min);
    ConnFailedReason(input, s, 16, reason);
  }

  /** The handshake raised `VNCAuthentificationFailed` with the server's
      reason string. */
  predicate ServerReasonRaised(h: Handshake) {
    h.Raised? && h.failure.AuthFailed? && h.failure.cause.ServerReason?
  }

  /** The security type is only read with version_min 3, so the 3.8
      reason string of a failed authentication is never read: a failed
      VNC authentication always raises with the plain message. */
  lemma NoServerReason(input: seq<byte>, s: Settings, p: nat)
    requires p <= |input|
    ensures !ServerReasonRaised(HandshakeRun(input, s, p).outcome)
  {
    var buffer := Chunk(input, p, 12);
    if HasNewline(buffer) && StartsWithRfb(buffer) && ParseVersion(buffer).Some? {
      AnswerNoReason(input, s, ParseVersion(buffer).value, p + |buffer|);
    }
  }

  lemma AnswerNoReason(input: seq<byte>, s: Settings, v: (nat, nat), q: nat)
    requires q <= |input|
    ensures !ServerReasonRaised(AnswerRun(input, s, v, q).outcome)
  {
    var d := Chunk(input, q, 4);
    Auth33NoReason(input, s, 3, d, q + |d|);
  }

  /** With a version_min of 7 or less, neither a rejected password nor
      anything after the security type raises with the server's reason. */
  lemma Auth33NoReason(input: seq<byte>, s: Settings, minor: nat, data: seq<byte>, q: nat)
    requires q <= |input| && minor <= 7
    ensures !ServerReasonRaised(Handle(input, s, minor, Auth33, data, q).outcome)
  {
    if |data| == 4 {
      var auth := DecodeU32(data);
      if auth == AUTH_NONE {
        ClientInitNoReason(input, s, minor, q);
      } else if auth == AUTH_VNCAUTH {
        var c := Chunk(input, q, 16);
        VncAuthNoReason(input, s, minor, c, q + |c|);
      }
    }
  }

  lemma VncAuthNoReason(input: seq<byte>, s: Settings, minor: nat, data: seq<byte>, q: nat)
    requires q <= |input| && minor <= 7
    ensures !ServerReasonRaised(Handle(input, s, minor, VncAuth, data, q).outcome)
  {
    var d := Chunk(input, q, 4);
    ClientInitNoReason(input, s, minor, q + |d|);
    assert !ServerReasonRaised(Handle(input, s, minor, AuthResult, d, q + |d|).outcome);
  }

  lemma ClientInitNoReason(input: seq<byte>, s: Settings, minor: nat, q: nat)
    requires q <= |input|
    ensures !ServerReasonRaised(Handle(input, s, minor, ClientInit, [], q).outcome)
  {
    var d := Chunk(input, q, 24);
    assert !ServerReasonRaised(Handle(input, s, minor, ServerInit, d, q + |d|).outcome);
  }

  // ----- the message loop -----

  /** How one message ends: handled, with a struct.error the loop logs
      and survives, or with an exception that goes to `onFatalError`. */
  datatype StepOutcome = Handled | Logged | Fatal(failure: Failure)

  /** The effect of the update handlers: how they end, where the cursor
      stands, the callbacks and what is left in `numRectangles`. */
  datatype Batch = Batch(outcome: StepOutcome, end: nat, fired: seq<Event>, left: nat)

  /** The same for one message; `left` is `None` when the message leaves
      `numRectangles` alone. */
  datatype Step = Step(outcome: StepOutcome, end: nat, fired: seq<Event>, left: Option<nat>)

  /** `_handlePostFramebufferUpdate` with `n` rectangles left and the
      cursor at `q`. */
  function PostUpdateRun(input: seq<byte>, bypp: nat, n: nat, q: nat): (b: Batch)
    requires q <= |input|
    ensures q <= b.end <= |input|
    ensures !b.outcome.Fatal? && b.left <= n
    decreases n, 1
  {
    if n > 0 then
      var d := Chunk(input, q, 12);
      RectangleRun(input, bypp, n, d, q + |d|)
    else Batch(Handled, q, [UpdateFinished], 0)
  }

  /** The size of a Raw rectangle's pixel data, `w * h * bytespp`. */
  function PixelBytes(width: nat, height: nat, bypp: nat): nat {
    width * height * bypp
  }

  /** `_handleRectangle(data)` followed by `_decodeRAW` for a Raw
      rectangle: only Raw has a payload, of `w * h * bytespp` octets;
      any other encoding goes straight on with the next rectangle. */
  function RectangleRun(input: seq<byte>, bypp: nat, n: nat, data: seq<byte>, q: nat): (b: Batch)
    requires q <= |input| && n > 0
    ensures q <= b.end <= |input|
    ensures !b.outcome.Fatal? && b.left <= n
    ensures b.outcome == Handled ==> b.left == 0
    decreases n, 0
  {
    if |data| != 12 then Batch(Logged, q, [], n)
    else
      var r := ParseRectangleHeader(data);
      if r.encoding == RAW_ENCODING then
        var pixels := Chunk(input, q, PixelBytes(r.width, r.height, bypp));
        var rest := PostUpdateRun(input, bypp, n - 1, q + |pixels|);
        rest.(fired := [RectangleUpdate(r.x, r.y, r.width, r.height, pixels)] + rest.fired)
      else PostUpdateRun(input, bypp, n - 1, q)
  }

  /** `_handleFramebufferUpdate(data)` */
  function FramebufferUpdateRun(input: seq<byte>, bypp: nat, data: seq<byte>, q: nat): (st: Step)
    requires q <= |input|
    ensures q <= st.end <= |input|
    ensures !st.outcome.Fatal?
    ensures |data| == 3 <==> st.left.Some?
    ensures |data| == 3 ==> |st.fired| > 0 && st.fired[0] == BeginUpdate && st.left.value <= ParseRectangleCount(data)
  {
    if |data| != 3 then Step(Logged, q, [], None)
    else
      var b := PostUpdateRun(input, bypp, ParseRectangleCount(data), q);
      Step(b.outcome, b.end, [BeginUpdate] + b.fired, Some(b.left))
  }

  /** `_handleServerCutText(data)`: the text is read and dropped. */
  function CutTextRun(input: seq<byte>, data: seq<byte>, q: nat): (st: Step)
    requires q <= |input|
    ensures q <= st.end <= |input|
    ensures !st.outcome.Fatal? && st.fired == [] && st.left.None?
    ensures st.outcome == Handled <==> |data| == 7
  {
    if |data| != 7 then Step(Logged, q, [], None)
    else
      var text := Chunk(input, q, ParseCutTextLength(data));
      Step(Handled, q + |text|, [], None)
  }

  /** `_handleConnection(data)`: dispatch on the message type. A colour
      map message is ignored without reading its body. */
  function ConnectionRun(input: seq<byte>, bypp: nat, data: seq<byte>, q: nat): (st: Step)
    requires q <= |input|
    ensures q <= st.end <= |input|
    ensures st.outcome.Fatal? <==> |data| == 1 && data[0] > 3
    ensures st.outcome.Fatal? ==> st.outcome.failure == UnexpectedResponse && st.end == q && st.fired == []
  {
    if |data| != 1 then Step(Logged, q, [], None)
    else
      var id := data[0];
      if id == SMSG_FBUPDATE then
        var d := Chunk(input, q, 3);
        FramebufferUpdateRun(input, bypp, d, q + |d|)
      else if id == SMSG_BELL then Step(Handled, q, [Bell], None)
      else if id == SMSG_SERVERCUTTEXT then
        var d := Chunk(input, q, 7);
        CutTextRun(input, d, q + |d|)
      else if id == SMSG_SETCOLORMAP then Step(Handled, q, [], None)
      else Step(Fatal(UnexpectedResponse), q, [], None)
  }

  /** The effect of some rounds of the message loop. */
  datatype Loop = Loop(end: nat, sent: seq<byte>, fired: seq<Event>, left: Option<nat>, fatal: Option<Failure>, rounds: nat)

  /** `rounds` turns of `while not self._stop` in `_mainRequestLoop` with
      the cursor at `p`: read one octet, handle the message (a struct.error
      is logged; any other exception goes to `onFatalError`, which
      re-raises it and ends the thread), then send `request` when
      `keepRequesting` is set. `rounds` counts the turns completed. */
  function LoopRun(input: seq<byte>, s: Settings, bypp: nat, request: seq<byte>, p: nat, rounds: nat): (l: Loop)
    requires p <= |input|
    ensures p <= l.end <= |input|
    ensures l.rounds <= rounds && (l.fatal.None? <==> l.rounds == rounds)
    ensures l.fatal.Some? ==> l.fatal.value == UnexpectedResponse
    decreases rounds, 1
  {
    if rounds == 0 then Loop(p, [], [], None, None, 0) else TurnRun(input, s, bypp, request, p, rounds)
  }

  /** One turn of the loop and the turns after it. */
  function TurnRun(input: seq<byte>, s: Settings, bypp: nat, request: seq<byte>, p: nat, rounds: nat): (l: Loop)
    requires p <= |input| && rounds > 0
    ensures p <= l.end <= |input|
    ensures l.rounds <= rounds && (l.fatal.None? <==> l.rounds == rounds)
    ensures l.fatal.Some? ==> l.fatal.value == UnexpectedResponse
    decreases rounds, 0
  {
    var d := Chunk(input, p, 1);
    var st := ConnectionRun(input, bypp, d, p + |d|);
    if st.outcome.Fatal? then Loop(st.end, [], st.fired, st.left, Some(st.outcome.failure), 0)
    else
      var rest := LoopRun(input, s, bypp, request, st.end, rounds - 1);
      Loop(rest.end, (if s.keepRequesting then request else []) + rest.sent, st.fired + rest.fired,
           if rest.left.Some? then rest.left else st.left, rest.fatal, rest.rounds + 1)
  }

  /** `k` copies of `m`. */
  function Repeat(m: seq<byte>, k: nat): seq<byte> {
    if k == 0 then [] else m + Repeat(m, k - 1)
  }

  // ----- message loop properties -----

  /** Callbacks that are all `onRectangleUpdate`. */
  predicate AllRectangles(es: seq<Event>) {
    forall k :: 0 <= k < |es| ==> es[k].RectangleUpdate?
  }

  /** An update ends in one of two ways: every rectangle read, then one
      `onFramebufferUpdateFinished` after the `onRectangleUpdate` calls,
      with the count at 0; or a struct.error on a short block, with only
      `onRectangleUpdate` calls and rectangles left. No other exception
      escapes an update, in a model without Python's recursion limit: in
      `rfb.py` each rectangle nests two or three more frames, so an update
      of a few hundred rectangles ends with `RecursionError`. */
  lemma {:induction false} FinishedOnce(input: seq<byte>, bypp: nat, n: nat, q: nat)
    requires q <= |input|
    ensures var b := PostUpdateRun(input, bypp, n, q);
      && !b.outcome.Fatal?
      && (b.outcome == Handled ==>
            b.left == 0 && |b.fired| > 0 && b.fired[|b.fired| - 1] == UpdateFinished
            && AllRectangles(b.fired[..|b.fired| - 1]))
      && (b.outcome == Logged ==> AllRectangles(b.fired) && 0 < b.left <= n)
    decreases n
  {
    if n > 0 {
      var short, k, first := RectangleStep(input, bypp, n, q);
      if !short {
        FinishedOnce(input, bypp, n - 1, k);
        var rest := PostUpdateRun(input, bypp, n - 1, k);
        if rest.outcome == Handled {
          assert (first + rest.fired)[..|first| + |rest.fired| - 1] == first + rest.fired[..|rest.fired| - 1];
        }
      }
    }
  }

  /** One rectangle of an update: either its header is short and the
      update stops there, or it gives at most one `onRectangleUpdate`
      and the update goes on at `k` with one rectangle fewer. */
  lemma RectangleStep(input: seq<byte>, bypp: nat, n: nat, q: nat) returns (short: bool, k: nat, first: seq<Event>)
    requires q <= |input| && n > 0
    ensures short ==> PostUpdateRun(input, bypp, n, q) == Batch(Logged, |input|, [], n)
    ensures !short ==> q <= k <= |input| && |first| <= 1 && AllRectangles(first)
    ensures !short ==>
      var rest := PostUpdateRun(input, bypp, n - 1, k);
      PostUpdateRun(input, bypp, n, q) == rest.(fired := first + rest.fired)
  {
    var d := Chunk(input, q, 12);
    short := |d| != 12;
    k, first := q, [];
    if !short {
      var r := ParseRectangleHeader(d);
      if r.encoding == RAW_ENCODING {
        var pixels := Chunk(input, q + 12, PixelBytes(r.width, r.height, bypp));
        k, first := q + 12 + |pixels|, [RectangleUpdate(r.x, r.y, r.width, r.height, pixels)];
      } else {
        k := q + 12;
        assert first + PostUpdateRun(input, bypp, n - 1, k).fired == PostUpdateRun(input, bypp, n - 1, k).fired;
      }
    }
  }

  /** A Raw rectangle as a server sends it: the header with encoding 0,
      then its pixels. */
  datatype RawRect = RawRect(x: int, y: int, width: int, height: int, pixels: seq<byte>)

  predicate RawRectOk(r: RawRect, bypp: nat) {
    IsU16(r.x) && IsU16(r.y) && IsU16(r.width) && IsU16(r.height)
    && |r.pixels| == PixelBytes(r.width, r.height, bypp) > 0
  }

  /** The octets of a batch of Raw rectangles. */
  function EncodeRawRects(rects: seq<RawRect>, bypp: nat): (s: seq<byte>)
    requires forall i :: 0 <= i < |rects| ==> RawRectOk(rects[i], bypp)
  {
    if rects == [] then []
    else
      var r := rects[0];
      assert RawRectOk(r, bypp);
      EncodeRectangleHeader(r.x, r.y, r.width, r.height, RAW_ENCODING) + r.pixels + EncodeRawRects(rects[1..], bypp)
  }

  /** The `onRectangleUpdate` calls a batch of Raw rectangles should give. */
  function Updates(rects: seq<RawRect>): (es: seq<Event>)
    ensures |es| == |rects|
  {
    if rects == [] then []
    else [RectangleUpdate(rects[0].x, rects[0].y, rects[0].width, rects[0].height, rects[0].pixels)] + Updates(rects[1..])
  }

  /** A batch of non-empty Raw rectangles is read exactly: each rectangle's
      pixels go to `onRectangleUpdate` in order, then the update finishes,
      and the cursor stands right after the batch. This holds without
      Python's recursion limit, which a batch of a few hundred Raw
      rectangles exceeds in `rfb.py`. */
  lemma {:induction false} RawBatchRoundTrip(input: seq<byte>, bypp: nat, rects: seq<RawRect>, q: nat)
    requires forall i :: 0 <= i < |rects| ==> RawRectOk(rects[i], bypp)
    requires q + |EncodeRawRects(rects, bypp)| <= |input|
    requires input[q .. q + |EncodeRawRects(rects, bypp)|] == EncodeRawRects(rects, bypp)
    ensures PostUpdateRun(input, bypp, |rects|, q)
         == Batch(Handled, q + |EncodeRawRects(rects, bypp)|, Updates(rects) + [UpdateFinished], 0)
    decreases |rects|
  {
    if rects != [] {
      var k := RawBatchHead(input, bypp, rects, q);
      RawBatchRoundTrip(input, bypp, rects[1..], k);
      var r := rects[0];
      var first := RectangleUpdate(r.x, r.y, r.width, r.height, r.pixels);
      assert Updates(rects) == [first] + Updates(rects[1..]);
      ThenAppends([first], Updates(rects[1..]), [UpdateFinished]);
    }
  }

  /** The first rectangle of a Raw batch: its update, then the rest of the
      batch, which the stream holds right after it. */
  lemma RawBatchHead(input: seq<byte>, bypp: nat, rects: seq<RawRect>, q: nat) returns (k: nat)
    requires rects != [] && forall i :: 0 <= i < |rects| ==> RawRectOk(rects[i], bypp)
    requires q + |EncodeRawRects(rects, bypp)| <= |input|
    requires input[q .. q + |EncodeRawRects(rects, bypp)|] == EncodeRawRects(rects, bypp)
    ensures q + |EncodeRawRects(rects, bypp)| == k + |EncodeRawRects(rects[1..], bypp)| <= |input|
    ensures input[k .. k + |EncodeRawRects(rects[1..], bypp)|] == EncodeRawRects(rects[1..], bypp)
    ensures var r := rects[0];
      var rest := PostUpdateRun(input, bypp, |rects| - 1, k);
      PostUpdateRun(input, bypp, |rects|, q) == rest.(fired := [RectangleUpdate(r.x, r.y, r.width, r.height, r.pixels)] + rest.fired)
  {
    var r := rects[0];
    var header := EncodeRectangleHeader(r.x, r.y, r.width, r.height, RAW_ENCODING);
    assert RawRectOk(r, bypp);
    var tail := EncodeRawRects(rects[1..], bypp);
    assert EncodeRawRects(rects, bypp) == header + r.pixels + tail;
    SplitBlock(input, q, header, r.pixels, tail);
    RawRectAt(input, bypp, |rects|, q, r);
    k := q + 12 + |r.pixels|;
  }

  /** The three consecutive parts of a block found in the stream. */
  lemma SplitBlock(input: seq<byte>, q: nat, a: seq<byte>, b: seq<byte>, c: seq<byte>)
    requires q + |a + b + c| <= |input| && input[q .. q + |a + b + c|] == a + b + c
    ensures input[q .. q + |a|] == a && input[q + |a| .. q + |a| + |b|] == b
    ensures input[q + |a| + |b| .. q + |a| + |b| + |c|] == c
  {
    var all := a + b + c;
    var w := input[q .. q + |all|];
    assert input[q .. q + |a|] == w[..|a|] == a;
    assert input[q + |a| .. q + |a| + |b|] == w[|a| .. |a| + |b|] == b;
    assert input[q + |a| + |b| .. q + |a| + |b| + |c|] == w[|a| + |b| ..] == c;
  }

  /** One Raw rectangle read from the stream: its pixels go to
      `onRectangleUpdate` and the update goes on after them. */
  lemma RawRectAt(input: seq<byte>, bypp: nat, n: nat, q: nat, r: RawRect)
    requires n > 0 && RawRectOk(r, bypp) && q + 12 + |r.pixels| <= |input|
    requires input[q .. q + 12] == EncodeRectangleHeader(r.x, r.y, r.width, r.height, RAW_ENCODING)
    requires input[q + 12 .. q + 12 + |r.pixels|] == r.pixels
    ensures var rest := PostUpdateRun(input, bypp, n - 1, q + 12 + |r.pixels|);
      PostUpdateRun(input, bypp, n, q) == rest.(fired := [RectangleUpdate(r.x, r.y, r.width, r.height, r.pixels)] + rest.fired)
  {
    ChunkAt(input, q, input[q .. q + 12]);
    ChunkAt(input, q + 12, r.pixels);
    RectangleHeaderRoundTrip(r.x, r.y, r.width, r.height, RAW_ENCODING);
  }

  /** A Raw rectangle of no pixels is not read as empty: `__recv(0)` is
      `recv(4096)`, so up to 4096 of the octets that follow (the next
      header, say) are taken as its pixel data. */
  lemma EmptyRawReadsAhead(input: seq<byte>, bypp: nat, n: nat, data: seq<byte>, q: nat)
    requires q < |input| && n > 0 && |data| == 12
    requires ParseRectangleHeader(data).encoding == RAW_ENCODING
    requires PixelBytes(ParseRectangleHeader(data).width, ParseRectangleHeader(data).height, bypp) == 0
    ensures var b := RectangleRun(input, bypp, n, data, q);
      |b.fired| > 0 && b.fired[0].RectangleUpdate? && b.fired[0].data != []
      && |b.fired[0].data| == RecvSize(0, |input| - q)
  {
  }

  /** Every completed turn of the loop sends exactly one request when
      `keepRequesting` is set, and none otherwise; the turn that ends in a
      fatal error sends none. */
  lemma {:induction false} OneRequestPerRound(input: seq<byte>, s: Settings, bypp: nat, request: seq<byte>, p: nat, rounds: nat)
    requires p <= |input|
    ensures var l := LoopRun(input, s, bypp, request, p, rounds);
      && l.sent == (if s.keepRequesting then Repeat(request, l.rounds) else [])
      && l.rounds <= rounds && (l.fatal.None? ==> l.rounds == rounds)
    decreases rounds
  {
    if rounds > 0 {
      var st := LoopStep(input, s, bypp, request, p, rounds);
      if !st.outcome.Fatal? {
        OneRequestPerRound(input, s, bypp, request, st.end, rounds - 1);
      }
    }
  }

  /** One turn of the loop: the message handled with the cursor at `p`,
      and the turns after it. */
  lemma LoopStep(input: seq<byte>, s: Settings, bypp: nat, request: seq<byte>, p: nat, rounds: nat)
    returns (st: Step)
    requires p <= |input| && rounds > 0
    ensures st == ConnectionRun(input, bypp, Chunk(input, p, 1), p + |Chunk(input, p, 1)|)
    ensures p <= st.end <= |input|
    ensures st.outcome.Fatal? ==> LoopRun(input, s, bypp, request, p, rounds)
                                  == Loop(st.end, [], st.fired, st.left, Some(st.outcome.failure), 0)
    ensures !st.outcome.Fatal? ==>
      var rest := LoopRun(input, s, bypp, request, st.end, rounds - 1);
      LoopRun(input, s, bypp, request, p, rounds)
      == Loop(rest.end, (if s.keepRequesting then request else []) + rest.sent, st.fired + rest.fired,
              if rest.left.Some? then rest.left else st.left, rest.fatal, rest.rounds + 1)
  {
    var d := Chunk(input, p, 1);
    st := ConnectionRun(input, bypp, d, p + |d|);
    assert LoopRun(input, s, bypp, request, p, rounds) == TurnRun(input, s, bypp, request, p, rounds);
  }

  /** Once the stream has ended the loop does not stop: every turn reads
      nothing, logs the struct.error of the empty message type and sends
      another request. */
  lemma {:induction false} SpinsAtEndOfStream(input: seq<byte>, s: Settings, bypp: nat, request: seq<byte>, rounds: nat)
    ensures LoopRun(input, s, bypp, request, |input|, rounds)
         == Loop(|input|, if s.keepRequesting then Repeat(request, rounds) else [], [], None, None, rounds)
    decreases rounds
  {
    if rounds > 0 {
      SpinsAtEndOfStream(input, s, bypp, request, rounds - 1);
    }
  }
}
