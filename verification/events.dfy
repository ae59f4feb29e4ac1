/** What the event-driven client of `rfb_old.py` reports to the application
    through its override callbacks, and the pure decoding of the
    subrectangle lists of the RRE, CoRRE and Hextile encodings
    (sections 7.7.3 and 7.7.4 of RFC 6143) into fill callbacks. Each decoder
    comes with the server-side encoding it inverts. */
module Events {
  import opened Bytes
  import opened Hextile

  /** A pixel value in the client's pixel format, or `None` where a Hextile
      tile has not specified one yet. */
  type Colour = Option<seq<byte>>

  /** The two reasons `vncAuthFailed` is called with. */
  datatype AuthFailure = AuthenticationFailed | TooManyTries

  /** One call of an override callback (`vncConnectionMade`, `vncAuthFailed`,
      `beginUpdate`, `commitUpdate`, `updateRectangle`, `copyRectangle`,
      `fillRectangle`, `bell`, `copy_text`). */
  datatype Event =
    | ConnectionMade
    | AuthFailed(reason: AuthFailure)
    | BeginUpdate
    | CommitUpdate(rectangles: seq<(int, int, int, int)>)
    | UpdateRectangle(x: int, y: int, width: int, height: int, data: seq<byte>)
    | CopyRectangle(srcx: int, srcy: int, x: int, y: int, width: int, height: int)
    | FillRectangle(x: int, y: int, width: int, height: int, colour: Colour)
    | Bell
    | CopyText(text: seq<byte>)

  /** Python's `s[a:b]` for `0 <= a <= b`: the bounds are clipped to the
      sequence, so a slice never fails but may come back short. */
  function Slice(s: seq<byte>, a: nat, b: nat): (r: seq<byte>)
    requires a <= b
    ensures b <= |s| ==> r == s[a..b]
    ensures a <= |s| < b ==> r == s[a..]
    ensures |s| < a ==> r == []
  {
    if |s| < a then [] else if |s| < b then s[a..] else s[a..b]
  }

  /** `s` splits into whole records of `size` octets, so a loop that unpacks
      one record per step never meets a short one. */
  predicate Whole(s: seq<byte>, size: nat)
    requires size > 0
    decreases |s|
  {
    |s| == 0 || (|s| >= size && Whole(s[size..], size))
  }

  // ----- RRE -----

  /** One RRE subrectangle record `!%dsHHHH` (colour, x, y, w, h), placed
      relative to the rectangle origin. */
  function RreFill(rec: seq<byte>, bypp: nat, topx: int, topy: int): Event
    requires |rec| == bypp + 8
  {
    FillRectangle(topx + DecodeU16(rec[bypp .. bypp + 2]), topy + DecodeU16(rec[bypp + 2 .. bypp + 4]),
                  DecodeU16(rec[bypp + 4 .. bypp + 6]), DecodeU16(rec[bypp + 6 .. bypp + 8]),
                  Some(rec[..bypp]))
  }

  /** The fills of every whole record, in order; a short tail yields none. */
  function RreFills(s: seq<byte>, bypp: nat, topx: int, topy: int): seq<Event>
    decreases |s|
  {
    if |s| < bypp + 8 then [] else [RreFill(s[..bypp + 8], bypp, topx, topy)] + RreFills(s[bypp + 8..], bypp, topx, topy)
  }
  /** One step of a loop over RRE records at offset `pos`: a whole record
      there yields its fill, then the rest; `done` stands for the fills
      already made. */
  lemma RreFillsStep(s: seq<byte>, pos: nat, bypp: nat, topx: int, topy: int, done: seq<Event>)
    requires pos + bypp + 8 <= |s|
    ensures done + RreFills(s[pos..], bypp, topx, topy)
         == (done + [RreFill(s[pos .. pos + bypp + 8], bypp, topx, topy)]) + RreFills(s[pos + bypp + 8..], bypp, topx, topy)
    ensures Whole(s[pos..], bypp + 8) == Whole(s[pos + bypp + 8..], bypp + 8)
  {
    var t := s[pos..];
    assert t[..bypp + 8] == s[pos .. pos + bypp + 8] && t[bypp + 8..] == s[pos + bypp + 8..];
  }

  /** A subrectangle as the server describes it. */
  datatype Subrect = Subrect(colour: seq<byte>, x: int, y: int, width: int, height: int)

  predicate RreEncodable(r: Subrect, bypp: nat) {
    |r.colour| == bypp && IsU16(r.x) && IsU16(r.y) && IsU16(r.width) && IsU16(r.height)
  }

  /** The server side: one RRE record `!%dsHHHH`. */
  function RreRecord(r: Subrect, bypp: nat): (rec: seq<byte>)
    requires RreEncodable(r, bypp)
    ensures |rec| == bypp + 8
  {
    r.colour + U16(r.x) + U16(r.y) + U16(r.width) + U16(r.height)
  }

  /** A single record decodes to the fill of its subrectangle. */
  lemma RreRecordDecodes(r: Subrect, bypp: nat, topx: int, topy: int)
    requires RreEncodable(r, bypp)
    ensures RreFill(RreRecord(r, bypp), bypp, topx, topy)
         == FillRectangle(topx + r.x, topy + r.y, r.width, r.height, Some(r.colour))
  {
    var rec := RreRecord(r, bypp);
    assert rec[..bypp] == r.colour && rec[bypp .. bypp + 2] == U16(r.x) && rec[bypp + 2 .. bypp + 4] == U16(r.y);
    assert rec[bypp + 4 .. bypp + 6] == U16(r.width) && rec[bypp + 6 .. bypp + 8] == U16(r.height);
    U16RoundTrip(r.x);
    U16RoundTrip(r.y);
    U16RoundTrip(r.width);
    U16RoundTrip(r.height);
  }

  /** The server side: the records of an RRE rectangle, one after the other. */
  function EncodeRre(rs: seq<Subrect>, bypp: nat): seq<byte>
    requires forall i :: 0 <= i < |rs| ==> RreEncodable(rs[i], bypp)
  {
    if |rs| == 0 then []
    else
      assert RreEncodable(rs[0], bypp);
      RreRecord(rs[0], bypp) + EncodeRre(rs[1..], bypp)
  }

  /** The fills the server means: every subrectangle moved by the rectangle
      origin, with its own colour. */
  function Placed(rs: seq<Subrect>, topx: int, topy: int): (es: seq<Event>)
    ensures |es| == |rs|
  {
    if rs == [] then []
    else [FillRectangle(topx + rs[0].x, topy + rs[0].y, rs[0].width, rs[0].height, Some(rs[0].colour))]
         + Placed(rs[1..], topx, topy)
  }

  /** Decoding an RRE record list the server encoded yields exactly its
      subrectangles, in order, and the list splits into whole records. */
  lemma {:induction false} RreRoundTrip(rs: seq<Subrect>, bypp: nat, topx: int, topy: int)
    requires forall i :: 0 <= i < |rs| ==> RreEncodable(rs[i], bypp)
    ensures Whole(EncodeRre(rs, bypp), bypp + 8)
    ensures RreFills(EncodeRre(rs, bypp), bypp, topx, topy) == Placed(rs, topx, topy)
  {
    if |rs| > 0 {
      assert RreEncodable(rs[0], bypp);
      var rec := RreRecord(rs[0], bypp);
      var rest := EncodeRre(rs[1..], bypp);
      var s := rec + rest;
      assert s[..bypp + 8] == rec && s[bypp + 8..] == rest;
      RreRecordDecodes(rs[0], bypp, topx, topy);
      RreRoundTrip(rs[1..], bypp, topx, topy);
    }
  }

  // ----- CoRRE -----

  /** One CoRRE subrectangle record `!%dsBBBB`: the same as RRE with
      one-octet coordinates. */
  function CorreFill(rec: seq<byte>, bypp: nat, topx: int, topy: int): Event
    requires |rec| == bypp + 4
  {
    FillRectangle(topx + rec[bypp], topy + rec[bypp + 1], rec[bypp + 2], rec[bypp + 3], Some(rec[..bypp]))
  }

  predicate CorreEncodable(r: Subrect, bypp: nat) {
    |r.colour| == bypp && IsU8(r.x) && IsU8(r.y) && IsU8(r.width) && IsU8(r.height)
  }

  /** The server side: one CoRRE record. */
  function CorreRecord(r: Subrect, bypp: nat): (rec: seq<byte>)
    requires CorreEncodable(r, bypp)
    ensures |rec| == bypp + 4
  {
    r.colour + [r.x as byte, r.y as byte, r.width as byte, r.height as byte]
  }

  /** The server side of CoRRE: the records one after the other. */
  function EncodeCorre(rs: seq<Subrect>, bypp: nat): seq<byte>
    requires forall i :: 0 <= i < |rs| ==> CorreEncodable(rs[i], bypp)
  {
    if |rs| == 0 then []
    else
      assert CorreEncodable(rs[0], bypp);
      CorreRecord(rs[0], bypp) + EncodeCorre(rs[1..], bypp)
  }

  /** The first record of an encoded CoRRE list decodes to the first
      subrectangle; it is the only one the client's loop reads. */
  lemma CorreFirstRecord(rs: seq<Subrect>, bypp: nat, topx: int, topy: int)
    requires |rs| >= 1 && forall i :: 0 <= i < |rs| ==> CorreEncodable(rs[i], bypp)
    ensures |EncodeCorre(rs, bypp)| >= bypp + 4
    ensures CorreFill(EncodeCorre(rs, bypp)[..bypp + 4], bypp, topx, topy) == Placed(rs, topx, topy)[0]
  {
    assert CorreEncodable(rs[0], bypp);
    var rec := CorreRecord(rs[0], bypp);
    assert EncodeCorre(rs, bypp)[..bypp + 4] == rec;
    assert rec[..bypp] == rs[0].colour;
  }

  // ----- Hextile tile header -----

  /** What a tile header leaves for the rest of the tile: the background and
      foreground colours and the number of subrectangles. */
  datatype TileHeaderFields = TileHeaderFields(bg: Colour, fg: Colour, subrects: nat)

  /** `_handleDecodeHextileSubrect` reading the header of a tile with
      subencoding `s`: an optional background, an optional foreground and
      an optional count, in that order; a colour that is absent carries over
      from `bg` / `fg`, an absent count is 0. `None`: the count lies past
      the end of `block` (an `IndexError`). */
  function ParseTileHeader(block: seq<byte>, s: byte, bypp: nat, bg: Colour, fg: Colour): (r: Option<TileHeaderFields>)
    ensures r.None? <==> AnySubrectsBit(s) && |block| < HeaderSize(s, bypp)
    ensures r.Some? && !BackgroundBit(s) ==> r.value.bg == bg
    ensures r.Some? && !ForegroundBit(s) ==> r.value.fg == fg
    ensures r.Some? ==> r.value.subrects < 256 && (!AnySubrectsBit(s) ==> r.value.subrects == 0)
  {
    var p := if BackgroundBit(s) then bypp else 0;
    var q := if ForegroundBit(s) then p + bypp else p;
    if AnySubrectsBit(s) && q >= |block| then None
    else
      Some(TileHeaderFields(
        if BackgroundBit(s) then Some(Slice(block, 0, bypp)) else bg,
        if ForegroundBit(s) then Some(Slice(block, p, p + bypp)) else fg,
        if AnySubrectsBit(s) then block[q] as nat else 0))
  }

  /** The header a server sends for subencoding `s`: the fields its bits
      announce. */
  function EncodeTileHeader(s: byte, bgc: seq<byte>, fgc: seq<byte>, n: byte): (r: seq<byte>)
    requires |bgc| == |fgc|
    ensures |r| == HeaderSize(s, |bgc|)
  {
    (if BackgroundBit(s) then bgc else []) + (if ForegroundBit(s) then fgc else [])
    + (if AnySubrectsBit(s) then [n] else [])
  }

  /** A header of the size `_handleDecodeHextile` expects reads back as the
      fields it was built from, and never fails. */
  lemma TileHeaderRoundTrip(s: byte, bgc: seq<byte>, fgc: seq<byte>, n: byte, bg: Colour, fg: Colour)
    requires |bgc| == |fgc|
    ensures ParseTileHeader(EncodeTileHeader(s, bgc, fgc, n), s, |bgc|, bg, fg)
         == Some(TileHeaderFields(
              if BackgroundBit(s) then Some(bgc) else bg,
              if ForegroundBit(s) then Some(fgc) else fg,
              if AnySubrectsBit(s) then n as nat else 0))
  {
    var bypp := |bgc|;
    var block := EncodeTileHeader(s, bgc, fgc, n);
    var p := if BackgroundBit(s) then bypp else 0;
    var q := if ForegroundBit(s) then p + bypp else p;
    assert |block| == q + (if AnySubrectsBit(s) then 1 else 0);
    if BackgroundBit(s) {
      assert block[..bypp] == bgc;
    }
    if ForegroundBit(s) {
      assert block[p .. p + bypp] == fgc;
    }
    if AnySubrectsBit(s) {
      assert block[q] == n;
    }
  }

  // ----- Hextile subrectangles -----

  /** A Hextile subrectangle `xy`, `wh` inside the tile at (tx, ty). */
  function TileFill(xy: byte, wh: byte, tx: int, ty: int, colour: Colour): Event {
    var g := SubrectGeometry(xy, wh);
    FillRectangle(tx + g.0, ty + g.1, g.2, g.3, colour)
  }

  /** `_handleDecodeHextileSubrectsFG`: two octets per subrectangle, all in
      the foreground colour. */
  function ForegroundFills(s: seq<byte>, tx: int, ty: int, fg: Colour): seq<Event>
    decreases |s|
  {
    if |s| < 2 then [] else [TileFill(s[0], s[1], tx, ty, fg)] + ForegroundFills(s[2..], tx, ty, fg)
  }
  /** One step of a loop over two-octet Hextile records at offset `pos`. */
  lemma ForegroundFillsStep(s: seq<byte>, pos: nat, tx: int, ty: int, fg: Colour, done: seq<Event>)
    requires pos + 2 <= |s|
    ensures done + ForegroundFills(s[pos..], tx, ty, fg)
         == (done + [TileFill(s[pos], s[pos + 1], tx, ty, fg)]) + ForegroundFills(s[pos + 2..], tx, ty, fg)
    ensures Whole(s[pos..], 2) == Whole(s[pos + 2..], 2)
  {
    var t := s[pos..];
    assert t[2..] == s[pos + 2..] && t[0] == s[pos] && t[1] == s[pos + 1];
  }

  /** `_handleDecodeHextileSubrectsColoured`: a colour and two octets per
      subrectangle. */
  function ColouredFills(s: seq<byte>, bypp: nat, tx: int, ty: int): seq<Event>
    decreases |s|
  {
    if |s| < bypp + 2 then []
    else [TileFill(s[bypp], s[bypp + 1], tx, ty, Some(s[..bypp]))] + ColouredFills(s[bypp + 2..], bypp, tx, ty)
  }

  /** The foreground carried to the next tile after a coloured list: the
      colour of its last whole record, or `fg` when there is none. */
  function ColouredLast(s: seq<byte>, bypp: nat, fg: Colour): Colour
    decreases |s|
  {
    if |s| < bypp + 2 then fg else ColouredLast(s[bypp + 2..], bypp, Some(s[..bypp]))
  }
  /** One step of a loop over coloured Hextile records at offset `pos`: a
      whole record there yields its fill and its colour, then the rest;
      `done` stands for the fills already made. */
  lemma ColouredFillsStep(s: seq<byte>, pos: nat, bypp: nat, tx: int, ty: int, fg: Colour, done: seq<Event>)
    requires pos + bypp + 2 <= |s|
    ensures done + ColouredFills(s[pos..], bypp, tx, ty)
         == (done + [TileFill(s[pos + bypp], s[pos + bypp + 1], tx, ty, Some(s[pos .. pos + bypp]))])
            + ColouredFills(s[pos + bypp + 2..], bypp, tx, ty)
    ensures ColouredLast(s[pos..], bypp, fg) == ColouredLast(s[pos + bypp + 2..], bypp, Some(s[pos .. pos + bypp]))
    ensures Whole(s[pos..], bypp + 2) == Whole(s[pos + bypp + 2..], bypp + 2)
  {
    var t := s[pos..];
    assert t[..bypp] == s[pos .. pos + bypp] && t[bypp + 2..] == s[pos + bypp + 2..];
    assert t[bypp] == s[pos + bypp] && t[bypp + 1] == s[pos + bypp + 1];
  }


  /** A subrectangle fits in a tile: the nibble encoding can express it. */
  predicate TileEncodable(r: Subrect, bypp: nat) {
    |r.colour| == bypp && 0 <= r.x < TILE && 0 <= r.y < TILE && 1 <= r.width <= TILE && 1 <= r.height <= TILE
  }

  /** The server side: one coloured Hextile record, colour then the packed
      position and size. */
  function ColouredRecord(r: Subrect, bypp: nat): (rec: seq<byte>)
    requires TileEncodable(r, bypp)
    ensures |rec| == bypp + 2
  {
    var p := PackSubrect(r.x, r.y, r.width, r.height);
    r.colour + [p.0, p.1]
  }

  /** The server side of a coloured Hextile subrectangle list. */
  function EncodeColoured(rs: seq<Subrect>, bypp: nat): seq<byte>
    requires forall i :: 0 <= i < |rs| ==> TileEncodable(rs[i], bypp)
  {
    if |rs| == 0 then []
    else
      assert TileEncodable(rs[0], bypp);
      ColouredRecord(rs[0], bypp) + EncodeColoured(rs[1..], bypp)
  }

  /** The server side of a foreground-coloured list: the colours are not
      sent. */
  function EncodeForeground(rs: seq<Subrect>): seq<byte>
    requires forall i :: 0 <= i < |rs| ==> TileEncodable(rs[i], |rs[i].colour|)
  {
    if |rs| == 0 then []
    else
      assert TileEncodable(rs[0], |rs[0].colour|);
      var p := PackSubrect(rs[0].x, rs[0].y, rs[0].width, rs[0].height);
      [p.0, p.1] + EncodeForeground(rs[1..])
  }

  /** The fills meant by a foreground list: every subrectangle at its offset
      in the tile, all in `fg`. */
  function PlacedInTile(rs: seq<Subrect>, tx: int, ty: int, fg: Colour): (es: seq<Event>)
    ensures |es| == |rs|
  {
    if rs == [] then []
    else [FillRectangle(tx + rs[0].x, ty + rs[0].y, rs[0].width, rs[0].height, fg)]
         + PlacedInTile(rs[1..], tx, ty, fg)
  }

  /** Decoding a coloured list yields its subrectangles in their own
      colours, and the colour carried on is the last one. */
  lemma {:induction false} ColouredRoundTrip(rs: seq<Subrect>, bypp: nat, tx: int, ty: int, fg: Colour)
    requires forall i :: 0 <= i < |rs| ==> TileEncodable(rs[i], bypp)
    ensures Whole(EncodeColoured(rs, bypp), bypp + 2)
    ensures ColouredFills(EncodeColoured(rs, bypp), bypp, tx, ty) == Placed(rs, tx, ty)
    ensures ColouredLast(EncodeColoured(rs, bypp), bypp, fg) == if rs == [] then fg else Some(rs[|rs| - 1].colour)
  {
    if |rs| > 0 {
      var r := rs[0];
      assert TileEncodable(r, bypp);
      var p := PackSubrect(r.x, r.y, r.width, r.height);
      var rec := ColouredRecord(r, bypp);
      var rest := EncodeColoured(rs[1..], bypp);
      var s := rec + rest;
      assert s[..bypp] == r.colour && s[bypp] == p.0 && s[bypp + 1] == p.1 && s[bypp + 2..] == rest;
      SubrectRoundTrip(r.x, r.y, r.width, r.height, p.0, p.1);
      ColouredRoundTrip(rs[1..], bypp, tx, ty, Some(r.colour));
    }
  }

  /** Decoding a foreground list yields its subrectangles, all in the
      foreground colour. */
  lemma {:induction false} ForegroundRoundTrip(rs: seq<Subrect>, tx: int, ty: int, fg: Colour)
    requires forall i :: 0 <= i < |rs| ==> TileEncodable(rs[i], |rs[i].colour|)
    ensures Whole(EncodeForeground(rs), 2)
    ensures ForegroundFills(EncodeForeground(rs), tx, ty, fg) == PlacedInTile(rs, tx, ty, fg)
  {
    if |rs| > 0 {
      var r := rs[0];
      assert TileEncodable(r, |r.colour|);
      var p := PackSubrect(r.x, r.y, r.width, r.height);
      var s := EncodeForeground(rs);
      assert s[0] == p.0 && s[1] == p.1 && s[2..] == EncodeForeground(rs[1..]);
      SubrectRoundTrip(r.x, r.y, r.width, r.height, p.0, p.1);
      ForegroundRoundTrip(rs[1..], tx, ty, fg);
    }
  }
}
