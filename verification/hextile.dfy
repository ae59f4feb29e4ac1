/** The pure arithmetic of the Hextile encoding (section 7.7.4 of RFC 6143) as
    rfb_old.py performs it: the subencoding bits, the size of a tile header,
    the nibble-packed subrectangle geometry and the walk over the 16x16 tiles
    of a rectangle (`_doNextHextileSubrect`). */
module Hextile {
  import opened Bytes

  const TILE: int := 16

  /** `subencoding & 1`: the tile is sent raw. */
  predicate RawBit(s: byte) { s % 2 == 1 }
  /** `subencoding & 2`: a background colour follows. */
  predicate BackgroundBit(s: byte) { (s / 2) % 2 == 1 }
  /** `subencoding & 4`: a foreground colour follows. */
  predicate ForegroundBit(s: byte) { (s / 4) % 2 == 1 }
  /** `subencoding & 8`: a subrectangle count follows. */
  predicate AnySubrectsBit(s: byte) { (s / 8) % 2 == 1 }
  /** `subencoding & 16`: every subrectangle carries its own colour. */
  predicate ColouredBit(s: byte) { (s / 16) % 2 == 1 }

  /** `numbytes` of `_handleDecodeHextile` for a tile that is not raw. */
  function HeaderSize(s: byte, bypp: nat): (n: nat)
    ensures n == 0 <==> !AnySubrectsBit(s) && (bypp == 0 || (!BackgroundBit(s) && !ForegroundBit(s)))
    ensures n <= 2 * bypp + 1
  {
    (if BackgroundBit(s) then bypp else 0) + (if ForegroundBit(s) then bypp else 0)
    + (if AnySubrectsBit(s) then 1 else 0)
  }

  /** `tw` / `th`: 16, or what is left of the rectangle when that is less. */
  function TileExtent(origin: int, extent: int, t: int): (n: int)
    ensures n <= TILE
    ensures n == TILE || n == origin + extent - t
  {
    if origin + extent - t < TILE then origin + extent - t else TILE
  }

  /** The next tile origin after `prev` (`None`: the walk has not started);
      `None` as result: the last row has been passed and the rectangle is
      done. */
  function NextTile(x: int, y: int, w: int, h: int, prev: Option<(int, int)>): (r: Option<(int, int)>)
    ensures prev.None? ==> (r.Some? <==> h > 0) && (r.Some? ==> r.value == (x, y))
    ensures r.Some? ==> r.value.1 < y + h
    ensures r.Some? && prev.Some? ==>
      || (r.value == (prev.value.0 + TILE, prev.value.1) && prev.value.0 + TILE < x + w)
      || (r.value == (x, prev.value.1 + TILE) && prev.value.0 + TILE >= x + w)
  {
    var (tx, ty) :=
      match prev
      case None => (x, y)
      case Some((px, py)) => if px + TILE >= x + w then (x, py + TILE) else (px + TILE, py);
    if ty >= y + h then None else Some((tx, ty))
  }

  /** Tiles per row as the walk produces them: a row is left as soon as the
      next column would start at or past the right edge, so a rectangle of
      width 0 still has one (empty) tile per row. */
  function Columns(w: int): (c: nat)
    ensures c >= 1
  {
    if w <= TILE then 1 else (w + TILE - 1) / TILE
  }

  /** Tile rows: one per started 16 lines. */
  function Rows(h: int): nat {
    if h <= 0 then 0 else (h + TILE - 1) / TILE
  }

  /** The origin of the tile in row `j`, column `i`. */
  function TileOrigin(x: int, y: int, j: nat, i: nat): (int, int) {
    (x + TILE * i, y + TILE * j)
  }

  /** The walk is row-major: after the tile in row j, column i comes column
      i + 1 of the same row, or column 0 of row j + 1 after the last column,
      and nothing after the last column of the last row. */
  lemma NextTileRowMajor(x: int, y: int, w: int, h: int, j: nat, i: nat)
    requires j < Rows(h) && i < Columns(w)
    ensures NextTile(x, y, w, h, Some(TileOrigin(x, y, j, i)))
         == if i + 1 < Columns(w) then Some(TileOrigin(x, y, j, i + 1))
            else if j + 1 < Rows(h) then Some(TileOrigin(x, y, j + 1, 0))
            else None
  {
    var c := Columns(w);
    if w > TILE {
      assert TILE * (c - 1) < w <= TILE * c;
    }
    assert h > 0 && TILE * (Rows(h) - 1) < h <= TILE * Rows(h);
  }

  /** Every tile of the walk lies inside the rectangle and is at most 16x16;
      only the last column and the last row can be narrower. */
  lemma TileInside(x: int, y: int, w: int, h: int, j: nat, i: nat)
    requires w > 0 && j < Rows(h) && i < Columns(w)
    ensures var (tx, ty) := TileOrigin(x, y, j, i);
      && 1 <= TileExtent(x, w, tx) <= TILE && tx + TileExtent(x, w, tx) <= x + w
      && 1 <= TileExtent(y, h, ty) <= TILE && ty + TileExtent(y, h, ty) <= y + h
      && (i + 1 < Columns(w) ==> TileExtent(x, w, tx) == TILE)
      && (j + 1 < Rows(h) ==> TileExtent(y, h, ty) == TILE)
  {
    var c := Columns(w);
    if w > TILE {
      assert TILE * (c - 1) < w <= TILE * c;
    }
    assert h > 0 && TILE * (Rows(h) - 1) < h <= TILE * Rows(h);
  }

  // ----- subrectangle geometry -----

  /** `sx = xy >> 4`, `sy = xy & 0xf`, `sw = (wh >> 4) + 1`,
      `sh = (wh & 0xf) + 1`. */
  function SubrectGeometry(xy: byte, wh: byte): (r: (int, int, int, int))
    ensures 0 <= r.0 < TILE && 0 <= r.1 < TILE
    ensures 1 <= r.2 <= TILE && 1 <= r.3 <= TILE
  {
    (xy / 16, xy % 16, wh / 16 + 1, wh % 16 + 1)
  }

  /** The server side of the same nibble packing. */
  function PackSubrect(sx: int, sy: int, sw: int, sh: int): (bytes: (byte, byte))
    requires 0 <= sx < TILE && 0 <= sy < TILE && 1 <= sw <= TILE && 1 <= sh <= TILE
  {
    (sx * 16 + sy, (sw - 1) * 16 + (sh - 1))
  }

  /** The nibble decoding inverts the packing, and every pair of octets is
      the packing of the geometry it decodes to. */
  lemma SubrectRoundTrip(sx: int, sy: int, sw: int, sh: int, xy: byte, wh: byte)
    requires 0 <= sx < TILE && 0 <= sy < TILE && 1 <= sw <= TILE && 1 <= sh <= TILE
    ensures var p := PackSubrect(sx, sy, sw, sh); SubrectGeometry(p.0, p.1) == (sx, sy, sw, sh)
    ensures var g := SubrectGeometry(xy, wh); PackSubrect(g.0, g.1, g.2, g.3) == (xy, wh)
  {
  }
}
