/** The ProtocolVersion handshake text (section 7.1.1 of RFC 6143): parsing the
    server's `RFB xxx.yyy\n` the way both clients do (`buffer[3:-1]`, split on
    `.`, `int()` on each part) and formatting the reply each client writes. */
module Version {
  import opened Bytes

  const NEWLINE: byte := 10
  const DOT: byte := 46
  const ZERO: byte := 48

  /** "RFB" */
  const RFB_PREFIX: seq<byte> := [82, 70, 66]

  /** `b'\n' in buffer` */
  predicate HasNewline(buffer: seq<byte>) {
    NEWLINE in buffer
  }

  /** `buffer[:3] == b'RFB'` (equivalently `buffer.startswith(b'RFB')`). */
  predicate StartsWithRfb(buffer: seq<byte>) {
    |buffer| >= 3 && buffer[..3] == RFB_PREFIX
  }

  /** ASCII whitespace as `int()` strips it from a bytes argument. */
  predicate IsSpace(c: byte) {
    c == 32 || (9 <= c <= 13)
  }

  predicate IsDigit(c: byte) {
    48 <= c <= 57
  }

  predicate AllDigits(s: seq<byte>) {
    forall k :: 0 <= k < |s| ==> IsDigit(s[k])
  }

  function StripLeft(s: seq<byte>): seq<byte> {
    if s != [] && IsSpace(s[0]) then StripLeft(s[1..]) else s
  }

  function StripRight(s: seq<byte>): seq<byte> {
    if s != [] && IsSpace(s[|s| - 1]) then StripRight(s[..|s| - 1]) else s
  }

  /** The value of a string of decimal digits. */
  function DecimalValue(s: seq<byte>): (v: nat)
    requires AllDigits(s)
  {
    if s == [] then 0 else DecimalValue(s[..|s| - 1]) * 10 + (s[|s| - 1] - ZERO)
  }

  /** `int(part)` for a bytes argument: surrounding whitespace is ignored and
      the rest must be a non-empty run of digits; `None` is the ValueError. */
  function ParseInt(part: seq<byte>): (r: Option<nat>)
    ensures r.Some? ==> AllDigits(StripRight(StripLeft(part))) && r.value == DecimalValue(StripRight(StripLeft(part)))
  {
    var s := StripRight(StripLeft(part));
    if s != [] && AllDigits(s) then Some(DecimalValue(s)) else None
  }

  /** `part.split(b'.')` into exactly two pieces, as the two-target unpacking
      demands; `None` is the ValueError raised for any other count. */
  function SplitDot(s: seq<byte>): (r: Option<(seq<byte>, seq<byte>)>)
    ensures r.Some? ==> s == r.value.0 + [DOT] + r.value.1 && DOT !in r.value.0 && DOT !in r.value.1
    ensures r.None? ==> forall k :: 0 <= k < |s| && s[k] == DOT ==> DOT in s[..k] + s[k + 1..]
  {
    if DOT !in s then None
    else
      var k := IndexOf(s, DOT);
      if DOT in s[k + 1..] then None else Some((s[..k], s[k + 1..]))
  }

  function IndexOf(s: seq<byte>, c: byte): (k: nat)
    requires c in s
    ensures k < |s| && s[k] == c && c !in s[..k]
  {
    if s[0] == c then 0 else 1 + IndexOf(s[1..], c)
  }

  /** `[int(x) for x in buffer[3:-1].split(b'.')]` unpacked into `maj, min`. */
  function ParseVersion(buffer: seq<byte>): (r: Option<(nat, nat)>)
    ensures |buffer| < 4 ==> r.None?
    ensures |buffer| >= 4 ==>
      var parts := SplitDot(buffer[3..|buffer| - 1]);
      (r.Some? <==> parts.Some? && ParseInt(parts.value.0).Some? && ParseInt(parts.value.1).Some?)
      && (r.Some? ==> r.value == (ParseInt(parts.value.0).value, ParseInt(parts.value.1).value))
  {
    var body := if |buffer| >= 4 then buffer[3..|buffer| - 1] else [];
    match SplitDot(body)
    case None => None
    case Some((a, b)) =>
      match (ParseInt(a), ParseInt(b))
      case (Some(maj), Some(min)) => Some((maj, min))
      case _ => None
  }

  /** `str(n)` for a non-negative integer. */
  function Decimal(n: nat): (s: seq<byte>)
    ensures s != [] && AllDigits(s)
    decreases n
  {
    if n < 10 then [ZERO + n] else Decimal(n / 10) + [ZERO + n % 10]
  }

  function Zeros(k: int): (s: seq<byte>)
    ensures |s| == if k < 0 then 0 else k
    ensures AllDigits(s)
    decreases k
  {
    if k <= 0 then [] else [ZERO] + Zeros(k - 1)
  }

  /** `'{:03d}'.format(n)`: at least three digits, zero-padded on the left. */
  function Pad3(n: nat): (s: seq<byte>)
    ensures AllDigits(s) && |s| >= 3
  {
    Zeros(3 - |Decimal(n)|) + Decimal(n)
  }

  /** rfb_old.py's reply, `'RFB {:03d}.{:03d}\n'.format(maj, min)`. */
  function OldReply(maj: nat, min: nat): (r: seq<byte>)
    ensures |r| >= 12 && StartsWithRfb(r) && r[|r| - 1] == NEWLINE && HasNewline(r)
  {
    RFB_PREFIX + [32] + Pad3(maj) + [DOT] + Pad3(min) + [NEWLINE]
  }

  /** rfb.py's reply, `f"RFB 00{maj}.00{min}\n"`. */
  function NewReply(maj: nat, min: nat): (r: seq<byte>)
    ensures |r| >= 12 && StartsWithRfb(r) && r[|r| - 1] == NEWLINE && HasNewline(r)
  {
    RFB_PREFIX + [32, ZERO, ZERO] + Decimal(maj) + [DOT, ZERO, ZERO] + Decimal(min) + [NEWLINE]
  }

  // ----- negotiation policy -----

  /** rfb_old.py: the versions it forces down to 3.3. */
  predicate OldKnown(maj: int, min: int) {
    (maj, min) in [(3, 6), (3, 7), (3, 8), (4, 0), (4, 1), (5, 0)]
  }

  /** An entry of rfb.py's KNOWN_VERSIONS list. Its first entry is written
      `(3.3)`, which Python reads as the float 3.3, not as a pair. */
  datatype KnownEntry = Pair(maj: int, min: int) | Float(value: real)

  const KNOWN_VERSIONS: seq<KnownEntry> :=
    [Float(3.3), Pair(3, 6), Pair(3, 7), Pair(3, 8), Pair(4, 0), Pair(4, 1), Pair(5, 0)]

  /** `(maj, min) in KNOWN_VERSIONS`: a tuple never equals a float. */
  predicate NewKnown(maj: int, min: int) {
    Pair(maj, min) in KNOWN_VERSIONS
  }

  /** `(maj, min) in SUPPORTED_VERSIONS` with SUPPORTED_VERSIONS = [(3,3)]. */
  predicate Supported(maj: int, min: int) {
    (maj, min) == (3, 3)
  }

  /** The version rfb_old.py answers with: a known version other than 3.3 is
      forced down to 3.3; 3.3 and unknown versions are echoed (an unknown
      one after closing the connection). */
  function OldChosen(maj: nat, min: nat): (nat, nat) {
    if Supported(maj, min) then (maj, min) else if OldKnown(maj, min) then (3, 3) else (maj, min)
  }

  /** The version rfb.py answers with: a known but unsupported version becomes
      `SUPPORTED_VERSIONS[-1]`, anything else is echoed. */
  function NewChosen(maj: nat, min: nat): (r: (nat, nat))
    ensures NewKnown(maj, min) ==> r == (3, 3)
    ensures !NewKnown(maj, min) ==> r == (maj, min)
  {
    if NewKnown(maj, min) && !Supported(maj, min) then (3, 3) else (maj, min)
  }

  // ----- properties -----

  lemma {:induction false} DecimalValueOf(n: nat)
    ensures DecimalValue(Decimal(n)) == n
    decreases n
  {
    if n >= 10 {
      DecimalValueOf(n / 10);
      var s := Decimal(n);
      assert s[..|s| - 1] == Decimal(n / 10);
    }
  }

  lemma {:induction false} DecimalValueZeros(k: int, s: seq<byte>)
    requires AllDigits(s)
    ensures DecimalValue(Zeros(k) + s) == DecimalValue(s)
    decreases |s|, k
  {
    if s == [] {
      assert Zeros(k) + s == Zeros(k);
      if k > 0 {
        DecimalValueZeros(k - 1, s);
        assert Zeros(k) == Zeros(k - 1) + [ZERO] by { ZerosSnoc(k); }
        assert (Zeros(k - 1) + s) == Zeros(k - 1);
      }
    } else {
      var t := Zeros(k) + s;
      assert t[..|t| - 1] == Zeros(k) + s[..|s| - 1];
      DecimalValueZeros(k, s[..|s| - 1]);
    }
  }

  lemma {:induction false} ZerosSnoc(k: int)
    requires k > 0
    ensures Zeros(k) == Zeros(k - 1) + [ZERO]
    decreases k
  {
    if k > 1 {
      ZerosSnoc(k - 1);
    }
  }

  lemma StripDigits(s: seq<byte>)
    requires s != [] && AllDigits(s)
    ensures StripRight(StripLeft([32] + s)) == s
  {
    assert ([32] + s)[1..] == s;
  }

  lemma {:induction false} StripDigitsOnly(s: seq<byte>)
    requires s != [] && AllDigits(s)
    ensures StripRight(StripLeft(s)) == s
  {
  }

  /** The server's text for (maj, min), written as rfb_old.py writes its own
      reply, parses back to (maj, min): the parser inverts the formatter. */
  lemma ParseOldReply(maj: nat, min: nat)
    ensures ParseVersion(OldReply(maj, min)) == Some((maj, min))
  {
    ParseFields(Pad3(maj), Pad3(min));
    Pad3Value(maj);
    Pad3Value(min);
  }

  /** A `RFB <digits>.<digits>\n` header parses to the values of its two
      digit runs. */
  lemma ParseFields(a: seq<byte>, b: seq<byte>)
    requires a != [] && b != [] && AllDigits(a) && AllDigits(b)
    ensures ParseVersion(RFB_PREFIX + [32] + a + [DOT] + b + [NEWLINE]) == Some((DecimalValue(a), DecimalValue(b)))
  {
    var r := RFB_PREFIX + [32] + a + [DOT] + b + [NEWLINE];
    assert r[3..|r| - 1] == [32] + a + [DOT] + b;
    assert DOT !in [32] + a && DOT !in b by {
      assert forall k :: 0 <= k < |a| ==> IsDigit(a[k]);
      assert forall k :: 0 <= k < |b| ==> IsDigit(b[k]);
    }
    SplitUnique([32] + a, b);
    StripDigits(a);
    StripDigitsOnly(b);
  }

  /** Zero padding does not change the value `int()` reads. */
  lemma Pad3Value(n: nat)
    ensures DecimalValue(Pad3(n)) == n
  {
    DecimalValueZeros(3 - |Decimal(n)|, Decimal(n));
    DecimalValueOf(n);
  }

  lemma SplitUnique(a: seq<byte>, b: seq<byte>)
    requires DOT !in a && DOT !in b
    ensures SplitDot(a + [DOT] + b) == Some((a, b))
  {
    var s := a + [DOT] + b;
    assert s[|a|] == DOT && s[..|a|] == a;
    var k := IndexOf(s, DOT);
    assert k <= |a| by {
      assert DOT !in s[..k];
    }
    assert k >= |a| by {
      assert forall j :: 0 <= j < |a| ==> s[j] == a[j];
    }
    assert s[..k] == a && s[k + 1..] == b;
  }

  /** `str(3)` is the single digit "3", and `Pad3(3)` the three ASCII digits
      "003" both clients write for the version number 3. */
  lemma ThreeDigits()
    ensures Decimal(3) == [51] && Pad3(3) == [48, 48, 51]
  {
    assert Zeros(2) == [48] + Zeros(1) == [48, 48];
  }

  /** rfb_old.py answers 3.3 and every version it knows but does not support
      with "RFB 003.003\n"; any other version is echoed. */
  lemma OldAnswer(maj: nat, min: nat)
    ensures OldChosen(maj, min) == if OldKnown(maj, min) then (3, 3) else (maj, min)
    ensures OldKnown(maj, min) || Supported(maj, min) ==>
      OldReply(OldChosen(maj, min).0, OldChosen(maj, min).1) == [82, 70, 66, 32, 48, 48, 51, 46, 48, 48, 51, 10]
  {
    ThreeDigits();
  }

  /** rfb.py likewise answers every version it knows with "RFB 003.003\n". */
  lemma NewAnswer(maj: nat, min: nat)
    ensures NewKnown(maj, min) || Supported(maj, min) ==>
      NewReply(NewChosen(maj, min).0, NewChosen(maj, min).1) == [82, 70, 66, 32, 48, 48, 51, 46, 48, 48, 51, 10]
  {
    ThreeDigits();
  }

  /** For rfb.py the pair (3, 3) is not in KNOWN_VERSIONS, because the list
      holds the float 3.3 where the tuple was meant; 3.3 is therefore handled
      as an unknown version and echoed, which gives the same reply. */
  lemma NewThreeThreeUnknown()
    ensures !NewKnown(3, 3)
    ensures NewChosen(3, 3) == (3, 3)
    ensures NewReply(3, 3) == OldReply(3, 3)
  {
    ThreeDigits();
  }

  /** rfb.py's reply has the 12 octets the protocol fixes only for one-digit
      version numbers; a two-digit minor such as 10 yields 13 octets. */
  lemma NewReplyLength(maj: nat, min: nat)
    ensures |NewReply(maj, min)| == 10 + |Decimal(maj)| + |Decimal(min)|
    ensures maj < 10 && min < 10 ==> |NewReply(maj, min)| == 12
    ensures maj < 10 && min < 10 ==> NewReply(maj, min) == OldReply(maj, min)
  {
    assert Zeros(2) == [48] + Zeros(1) == [48, 48];
  }
}
