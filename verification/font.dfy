/*******************************************************************************
 *  The font loader of the launcher (bmp.c, `bmp_ReadFont`): an 8 bpp sprite
 *  sheet cut into a grid of glyph tiles of the `fontdata_t` symbol table.
 *******************************************************************************/

/** `bmp_ReadFont` and the tile carver it runs over a decoded sheet.

    The symbol table `symbol[96][16][16]` is kept flat, as C lays it out:
    `symbol[p][k][i]` is byte `256 * p + 16 * k + i`.  The carver walks the
    decoded (top-down, unpadded) pixel buffer with the source's three offsets:
    `bytepos`, the top-left pixel of the current glyph; `row_bytepos`, where the
    next tile row is copied from; and `pos`, the symbol number. */
module Font {
  import opened Base
  import opened Bmp
  import Pal

  const FONT_SYMBOLS: nat := 96
  const FONT_MAX_ROWS: nat := 16
  const FONT_MAX_COLUMNS: nat := 16
  const GLYPH_BYTES: nat := 256
  const TABLE_BYTES: nat := 96 * 256

  type SymbolTable = t: seq<uint8> | |t| == TABLE_BYTES
    witness seq(TABLE_BYTES, _ => 0)

  /** `fontdata_t`. */
  datatype FontData = FontData(
    width: uint8,
    height: uint8,
    asciiStart: uint8,
    nSymbols: uint8,
    unknownSymbol: uint8,
    symbol: SymbolTable)

  /** Flat index of `symbol[p][k][i]`. */
  function Cell(p: nat, k: nat, i: nat): nat
  {
    GLYPH_BYTES * p + FONT_MAX_COLUMNS * k + i
  }

  /** The glyph grid of a sheet: `columns` x `rows` tiles of `fw` x `fh`
      pixels over a buffer whose rows are `stride` bytes apart. */
  datatype Sheet = Sheet(columns: nat, rows: nat, fw: nat, fh: nat, stride: nat)

  /** What the carver demands: a tile size the table can hold, no more glyphs
      than the table has, and non-zero divisors for the grid. */
  predicate GridFits(s: Sheet)
  {
    && 1 <= s.fw <= FONT_MAX_COLUMNS && 1 <= s.fh <= FONT_MAX_ROWS
    && Mul(s.rows, s.columns) <= FONT_SYMBOLS
  }

  /** Symbol number of the glyph in grid row `h`, column `w` (row-major). */
  function GlyphIndex(s: Sheet, h: nat, w: nat): nat
  {
    Mul(h, s.columns) + w
  }

  /** `row_unpadded * (font_height - 1)`: the rows of one tile below its top row. */
  function Gap(s: Sheet): nat
  {
    if s.fh == 0 then 0 else Mul(s.fh - 1, s.stride)
  }

  /** What `bytepos` gains over one grid row: `columns` tiles of `fw` bytes,
      then `row_unpadded * (font_height - 1)`. */
  function Advance(s: Sheet): nat
  {
    Mul(s.columns, s.fw) + Gap(s)
  }

  /** `bytepos` for the glyph in grid row `h`, column `w`. */
  function GlyphBase(s: Sheet, h: nat, w: nat): nat
  {
    Mul(h, Advance(s)) + Mul(w, s.fw)
  }

  /** `row_bytepos` as the previous glyph leaves it: that glyph's base plus
      `row_unpadded * (font_height - 1)`. */
  function LeftOver(s: Sheet, h: nat, w: nat): nat
    requires (h, w) != (0, 0) && (w == 0 ==> s.columns >= 1)
  {
    if w > 0 then GlyphBase(s, h, w - 1) + Gap(s) else GlyphBase(s, h - 1, s.columns - 1) + Gap(s)
  }

  /** Where tile row `k` of glyph (`h`, `w`) is copied from.  Row 0 uses the
      offset left over from the previous glyph (0 for the very first); row
      `k >= 1` uses `bytepos + row_unpadded * (k - 1)`. */
  function TileSource(s: Sheet, h: nat, w: nat, k: nat): nat
    requires w < s.columns
  {
    if k == 0 then (if h == 0 && w == 0 then 0 else LeftOver(s, h, w))
    else GlyphBase(s, h, w) + Mul(k - 1, s.stride)
  }

  /** Every byte the carver copies lies inside the pixel buffer. */
  predicate SourcesFit(s: Sheet, pixels: seq<uint8>)
  {
    forall h, w, k :: 0 <= h < s.rows && 0 <= w < s.columns && 0 <= k < s.fh ==> TileSource(s, h, w, k) + s.fw <= |pixels|
  }

  /** The table after the first `n` glyphs (row-major) have been carved from
      `prior`: their `fh` x `fw` tiles come from the sheet, every other byte is
      as it was. */
  predicate Carved(s: Sheet, pixels: seq<uint8>, prior: SymbolTable, t: SymbolTable, n: nat)
    requires GridFits(s) && SourcesFit(s, pixels)
  {
    && (forall h, w, k, i :: 0 <= h < s.rows && 0 <= w < s.columns && GlyphIndex(s, h, w) < n && 0 <= k < s.fh && 0 <= i < s.fw ==>
          GlyphIndex(s, h, w) < FONT_SYMBOLS &&
          t[Cell(GlyphIndex(s, h, w), k, i)] == pixels[TileSource(s, h, w, k) + i])
    && (forall p, k, i ::
          (0 <= p < FONT_SYMBOLS && 0 <= k < FONT_MAX_ROWS && 0 <= i < FONT_MAX_COLUMNS && !(p < n && k < s.fh && i < s.fw))
          ==> t[Cell(p, k, i)] == prior[Cell(p, k, i)])
  }

  // ---------------------------------------------------------------------------
  // Grid arithmetic
  // ---------------------------------------------------------------------------

  /** Row-major numbering gives every grid cell its own symbol, in order. */
  lemma GlyphIndexOrder(s: Sheet, h: nat, w: nat, h': nat, w': nat)
    requires w < s.columns && w' < s.columns && (h < h' || (h == h' && w < w'))
    ensures GlyphIndex(s, h, w) < GlyphIndex(s, h', w')
  {
    if h < h' {
      MulAscending(h + 1, h', s.columns);
    }
  }

  /** The last symbol number of the grid is below `rows * columns`. */
  lemma GlyphIndexBound(s: Sheet, h: nat, w: nat)
    requires h < s.rows && w < s.columns
    ensures GlyphIndex(s, h, w) < Mul(s.rows, s.columns)
  {
    MulAscending(h + 1, s.rows, s.columns);
  }

  /** After the last glyph of a row, adding `row_unpadded * (font_height - 1)`
      lands `bytepos` on the first glyph of the next row, and the counter and
      the left-over offset carry over. */
  lemma NextGlyphRow(s: Sheet, h: nat)
    requires s.fh >= 1
    ensures GlyphBase(s, h, s.columns) + s.stride * (s.fh - 1) == GlyphBase(s, h + 1, 0)
    ensures GlyphIndex(s, h, s.columns) == GlyphIndex(s, h + 1, 0)
    ensures s.columns >= 1 ==> LeftOver(s, h, s.columns) == LeftOver(s, h + 1, 0)
  {
    assert Mul(h + 1, Advance(s)) == Mul(h, Advance(s)) + Advance(s);
    MulIsProduct(s.fh - 1, s.stride);
  }

  // ---------------------------------------------------------------------------
  // The carver
  // ---------------------------------------------------------------------------

  /** `for (i = 0; i < font_width; i++) symbol[pos][heightpos][i] = pixels[row_bytepos + i]`. */
  method CopyTileRow(t: SymbolTable, at: nat, pixels: seq<uint8>, src: nat, n: nat) returns (r: SymbolTable)
    requires at + n <= TABLE_BYTES && src + n <= |pixels|
    ensures forall x :: at <= x < at + n ==> r[x] == pixels[src + (x - at)]
    ensures forall x :: 0 <= x < TABLE_BYTES && !(at <= x < at + n) ==> r[x] == t[x]
  {
    r := t;
    var i := 0;
    while i < n
      invariant i <= n
      invariant forall x :: at <= x < at + i ==> r[x] == pixels[src + (x - at)]
      invariant forall x :: 0 <= x < TABLE_BYTES && !(at <= x < at + i) ==> r[x] == t[x]
    {
      r := r[at + i := pixels[src + i]];
      i := i + 1;
    }
  }

  /** Where the glyph loop copies tile row `k` from, given `row_bytepos` on
      entry (`start`) and `bytepos` (`base`). */
  function GlyphRowSource(start: nat, base: nat, stride: nat, k: nat): nat
  {
    if k == 0 then start else base + Mul(k - 1, stride)
  }

  /** The `heightpos` loop for one glyph: copies its `fh` tile rows and leaves
      `row_bytepos` at `bytepos + row_unpadded * (font_height - 1)`. */
  method CarveGlyph(t: SymbolTable, s: Sheet, pixels: seq<uint8>, pos: nat, base: nat, start: nat)
    returns (r: SymbolTable, rowBytepos: nat)
    requires pos < FONT_SYMBOLS && 1 <= s.fw <= FONT_MAX_COLUMNS && 1 <= s.fh <= FONT_MAX_ROWS
    requires forall k :: 0 <= k < s.fh ==> GlyphRowSource(start, base, s.stride, k) + s.fw <= |pixels|
    ensures rowBytepos == base + Gap(s)
    ensures forall k, i :: 0 <= k < s.fh && 0 <= i < s.fw ==>
              r[Cell(pos, k, i)] == pixels[GlyphRowSource(start, base, s.stride, k) + i]
    ensures forall p, k, i ::
              (0 <= p < FONT_SYMBOLS && 0 <= k < FONT_MAX_ROWS && 0 <= i < FONT_MAX_COLUMNS && !(p == pos && k < s.fh && i < s.fw))
              ==> r[Cell(p, k, i)] == t[Cell(p, k, i)]
  {
    r := t;
    rowBytepos := start;
    var heightpos := 0;
    while heightpos < s.fh
      invariant heightpos <= s.fh
      invariant rowBytepos == GlyphRowSource(start, base, s.stride, heightpos)
      invariant forall k, i :: 0 <= k < heightpos && 0 <= i < s.fw ==>
                  r[Cell(pos, k, i)] == pixels[GlyphRowSource(start, base, s.stride, k) + i]
      invariant forall p, k, i ::
                  (0 <= p < FONT_SYMBOLS && 0 <= k < FONT_MAX_ROWS && 0 <= i < FONT_MAX_COLUMNS && !(p == pos && k < heightpos && i < s.fw))
                  ==> r[Cell(p, k, i)] == t[Cell(p, k, i)]
    {
      var before := r;
      r := CopyTileRow(r, Cell(pos, heightpos, 0), pixels, rowBytepos, s.fw);
      forall p, k, i | 0 <= p < FONT_SYMBOLS && 0 <= k < FONT_MAX_ROWS && 0 <= i < FONT_MAX_COLUMNS
        ensures r[Cell(p, k, i)] == (if p == pos && k == heightpos && i < s.fw
                                     then pixels[rowBytepos + i] else before[Cell(p, k, i)])
      {
        if p == pos && k == heightpos && i < s.fw {
          assert Cell(pos, heightpos, 0) <= Cell(p, k, i) < Cell(pos, heightpos, 0) + s.fw;
        }
      }
      MulIsProduct(heightpos, s.stride);
      rowBytepos := base + s.stride * heightpos;
      heightpos := heightpos + 1;
    }
  }

  /** One glyph carved extends the carved prefix by one symbol. */
  lemma CarvedStep(s: Sheet, pixels: seq<uint8>, prior: SymbolTable, t: SymbolTable, r: SymbolTable, h: nat, w: nat)
    requires GridFits(s) && SourcesFit(s, pixels) && h < s.rows && w < s.columns
    requires Carved(s, pixels, prior, t, GlyphIndex(s, h, w)) && GlyphIndex(s, h, w) < FONT_SYMBOLS
    requires forall k, i :: 0 <= k < s.fh && 0 <= i < s.fw ==>
               r[Cell(GlyphIndex(s, h, w), k, i)] == pixels[TileSource(s, h, w, k) + i]
    requires forall p, k, i ::
               (0 <= p < FONT_SYMBOLS && 0 <= k < FONT_MAX_ROWS && 0 <= i < FONT_MAX_COLUMNS && !(p == GlyphIndex(s, h, w) && k < s.fh && i < s.fw))
               ==> r[Cell(p, k, i)] == t[Cell(p, k, i)]
    ensures Carved(s, pixels, prior, r, GlyphIndex(s, h, w) + 1)
  {
    var n := GlyphIndex(s, h, w);
    forall h', w', k, i | 0 <= h' < s.rows && 0 <= w' < s.columns && GlyphIndex(s, h', w') < n + 1 && 0 <= k < s.fh && 0 <= i < s.fw
      ensures GlyphIndex(s, h', w') < FONT_SYMBOLS
      ensures r[Cell(GlyphIndex(s, h', w'), k, i)] == pixels[TileSource(s, h', w', k) + i]
    {
      GlyphIndexBound(s, h', w');
      if (h', w') != (h, w) {
        if h' < h || (h' == h && w' < w) {
          GlyphIndexOrder(s, h', w', h, w);
        } else {
          GlyphIndexOrder(s, h, w, h', w');
        }
      }
    }
  }

  /** Where the `w` loop finds glyph (`h`, `w`): its tile rows are read from
      the offsets the carver's counters hold. */
  lemma GlyphStart(s: Sheet, h: nat, w: nat, pos: nat, bytepos: nat, rowBytepos: nat)
    requires w < s.columns
    requires pos == GlyphIndex(s, h, w) && bytepos == GlyphBase(s, h, w)
    requires pos == 0 ==> rowBytepos == 0
    requires pos > 0 ==> (h, w) != (0, 0) && s.columns >= 1 && rowBytepos == LeftOver(s, h, w)
    ensures forall k :: 0 <= k < s.fh ==> GlyphRowSource(rowBytepos, bytepos, s.stride, k) == TileSource(s, h, w, k)
  {
    assert rowBytepos == TileSource(s, h, w, 0);
  }

  /** One pass of the glyph-row loop of `bmp_ReadFont`: the `w` loop carves
      the glyphs of grid row `h`, then `bytepos` steps down past the rest of
      the row; the offsets come back as the next pass expects them. */
  method CarveGlyphRow(s: Sheet, pixels: seq<uint8>, prior: SymbolTable, t0: SymbolTable, h: nat,
                       pos0: nat, bytepos0: nat, rowBytepos0: nat)
    returns (t: SymbolTable, pos: nat, bytepos: nat, rowBytepos: nat)
    requires GridFits(s) && SourcesFit(s, pixels) && h < s.rows
    requires pos0 == GlyphIndex(s, h, 0) && bytepos0 == GlyphBase(s, h, 0)
    requires pos0 == 0 ==> rowBytepos0 == 0
    requires pos0 > 0 ==> h > 0 && s.columns >= 1 && rowBytepos0 == LeftOver(s, h, 0)
    requires Carved(s, pixels, prior, t0, pos0)
    ensures pos == GlyphIndex(s, h + 1, 0) && bytepos == GlyphBase(s, h + 1, 0)
    ensures pos == 0 ==> rowBytepos == 0
    ensures pos > 0 ==> s.columns >= 1 && rowBytepos == LeftOver(s, h + 1, 0)
    ensures Carved(s, pixels, prior, t, pos)
  {
    t, pos, bytepos, rowBytepos := t0, pos0, bytepos0, rowBytepos0;
    var w := 0;
    while w < s.columns
      invariant w <= s.columns
      invariant pos == GlyphIndex(s, h, w) && bytepos == GlyphBase(s, h, w)
      invariant pos == 0 ==> rowBytepos == 0
      invariant pos > 0 ==> (h, w) != (0, 0) && s.columns >= 1 && rowBytepos == LeftOver(s, h, w)
      invariant Carved(s, pixels, prior, t, pos)
    {
      GlyphIndexBound(s, h, w);
      GlyphStart(s, h, w, pos, bytepos, rowBytepos);
      var r, next := CarveGlyph(t, s, pixels, pos, bytepos, rowBytepos);
      CarvedStep(s, pixels, prior, t, r, h, w);
      t, rowBytepos := r, next;
      bytepos := bytepos + s.fw;
      pos := pos + 1;
      w := w + 1;
    }
    NextGlyphRow(s, h);
    bytepos := bytepos + s.stride * (s.fh - 1);
  }

  /** The glyph-row loop of `bmp_ReadFont` over a decoded 8 bpp sheet.
      `count` is the final symbol counter `pos`. */
  method CarveFont(s: Sheet, pixels: seq<uint8>, prior: SymbolTable) returns (t: SymbolTable, count: nat)
    requires GridFits(s) && SourcesFit(s, pixels)
    ensures count == Mul(s.rows, s.columns)
    ensures Carved(s, pixels, prior, t, count)
  {
    t := prior;
    var pos := 0;
    var bytepos := 0;
    var rowBytepos := 0;
    var h := 0;
    while h < s.rows
      invariant h <= s.rows
      invariant pos == GlyphIndex(s, h, 0) && bytepos == GlyphBase(s, h, 0)
      invariant pos == 0 ==> rowBytepos == 0
      invariant pos > 0 ==> h > 0 && s.columns >= 1 && rowBytepos == LeftOver(s, h, 0)
      invariant Carved(s, pixels, prior, t, pos)
    {
      t, pos, bytepos, rowBytepos := CarveGlyphRow(s, pixels, prior, t, h, pos, bytepos, rowBytepos);
      h := h + 1;
    }
    count := pos;
  }

  // ---------------------------------------------------------------------------
  // What the carver copies, against the cell layout of the sheet
  // ---------------------------------------------------------------------------

  /** Byte offset of row `k` of cell (`h`, `w`) in a sheet whose glyph rows are
      `fh` pixel rows of `stride` bytes: the pixel the carver was meant to copy
      into tile row `k`. */
  function CellRow(s: Sheet, h: nat, w: nat, k: nat): nat
  {
    Mul(h, Mul(s.fh, s.stride)) + Mul(k, s.stride) + Mul(w, s.fw)
  }

  /** A sheet whose cells fill its rows exactly: `width_chars * font_width`
      is `row_unpadded`. */
  predicate Tight(s: Sheet)
  {
    Mul(s.columns, s.fw) == s.stride
  }

  /** `bytepos` moves down by exactly one cell height per glyph row if and
      only if the cells fill the sheet's rows. */
  lemma {:induction false} AdvanceExact(s: Sheet, h: nat)
    requires s.fh >= 1
    ensures GlyphBase(s, h + 1, 0) == GlyphBase(s, h, 0) + Mul(s.fh, s.stride) <==> Tight(s)
  {
    assert Mul(h + 1, Advance(s)) == Mul(h, Advance(s)) + Advance(s);
    assert Mul(s.fh, s.stride) == Mul(s.fh - 1, s.stride) + s.stride;
  }

  /** On a tight sheet each glyph's `bytepos` is the top-left pixel of its cell. */
  lemma GlyphBaseTight(s: Sheet, h: nat, w: nat)
    requires s.fh >= 1 && Tight(s)
    ensures GlyphBase(s, h, w) == CellRow(s, h, w, 0)
  {
    assert Mul(s.fh, s.stride) == Mul(s.fh - 1, s.stride) + s.stride;
    assert Advance(s) == Mul(s.fh, s.stride);
  }

  /** The carver's one-row shift, even on a tight sheet: tile row `k >= 1`
      holds cell row `k - 1`, and tile row 0 holds the last row of the
      previous cell in reading order (of the first cell, for the first glyph,
      whose row 0 is pixel row 0). */
  lemma TileRowShift(s: Sheet, h: nat, w: nat, k: nat)
    requires s.fh >= 1 && Tight(s) && w < s.columns
    ensures k >= 1 ==> TileSource(s, h, w, k) == CellRow(s, h, w, k - 1)
    ensures k == 0 && w > 0 ==> TileSource(s, h, w, k) == CellRow(s, h, w - 1, s.fh - 1)
    ensures k == 0 && w == 0 && h > 0 ==> TileSource(s, h, w, k) == CellRow(s, h - 1, s.columns - 1, s.fh - 1)
    ensures k == 0 && w == 0 && h == 0 ==> TileSource(s, h, w, k) == CellRow(s, 0, 0, 0)
  {
    GlyphBaseTight(s, h, w);
    if k == 0 && w > 0 {
      GlyphBaseTight(s, h, w - 1);
    } else if k == 0 && w == 0 && h > 0 {
      GlyphBaseTight(s, h - 1, s.columns - 1);
    }
  }

  /** Every symbol below `rows * columns` is carved from exactly one grid cell:
      row `p / columns`, column `p % columns`. */
  lemma GlyphOfSymbol(s: Sheet, p: nat)
    requires p < Mul(s.rows, s.columns)
    ensures s.columns >= 1 && p / s.columns < s.rows
    ensures GlyphIndex(s, p / s.columns, p % s.columns) == p
  {
    MulIsProduct(s.rows, s.columns);
    if s.columns == 0 {
      assert false;
    }
    var q := p / s.columns;
    MulIsProduct(q, s.columns);
    QuotientBound(p, s.columns, s.rows);
  }

  /** Integer facts behind `GlyphOfSymbol`. */
  lemma QuotientBound(p: nat, c: nat, rows: nat)
    requires c >= 1 && p < rows * c
    ensures p / c < rows && (p / c) * c + p % c == p
  {
    var q := p / c;
    assert q * c + p % c == p;
    if q >= rows {
      MulMono(rows, q, c);
    }
  }

  // ---------------------------------------------------------------------------
  // bmp_ReadFont
  // ---------------------------------------------------------------------------

  /** What `bmp_ReadFont` returns: the status, the bitmap structure with the
      stream position, and the font structure. */
  datatype FontOutcome = FontOutcome(status: int, image: Outcome, font: FontData)

  /** The header stage of `bmp_ReadFont`, when asked for; `prior` is what
      `status` holds when it does not run. */
  function HeaderRead(f: File, d: BmpData, entry: nat, header: bool, prior: int): (o: Outcome)
    ensures o.bmp.pixels == d.pixels
    ensures !header ==> o == Outcome(prior, d, entry)
  {
    if header then ReadImageHeader(f, d, entry) else Outcome(prior, d, entry)
  }

  /** The bitmap calls `bmp_ReadFont` makes before building the font: the
      header when asked; then, when asked for the palette, the colour table
      followed at once by the pixels, whose status replaces the palette's. */
  function FontStages(f: File, d: BmpData, entry: nat, header: bool, palette: bool, heap: nat, prior: int): (o: Outcome)
    requires FontStagesCallable(f, d, entry, header, palette, heap)
    ensures !header && !palette ==> o == Outcome(prior, d, entry)
    ensures header && !palette ==> o == ReadImageHeader(f, d, entry)
    ensures !palette ==> o.bmp.pixels == d.pixels
    ensures palette ==> o.status in {BMP_OK, BMP_ERR_READ, BMP_ERR_MEM, BMP_ERR_BPP}
    ensures palette && o.status == BMP_OK ==> o.bmp.pixels.Held? && DecodedDepth(o.bmp.bpp)
  {
    var h := HeaderRead(f, d, entry, header, prior);
    if palette then
      var p := ReadImagePalette(f, h.bmp, h.cursor);
      ReadImageData(f, p.bmp, p.cursor, heap)
    else h
  }

  /** What the stages demand: at most 256 colours and rows that fit the
      buffer. */
  predicate FontStagesCallable(f: File, d: BmpData, entry: nat, header: bool, palette: bool, heap: nat)
  {
    var h := HeaderRead(f, d, entry, header, 0);
    palette ==>
      && (h.bmp.coloursOffset != 0 ==> h.bmp.colours <= PALETTE_ENTRIES)
      && PixelStageCallable(ReadImagePalette(f, h.bmp, h.cursor).bmp, heap)
  }

  /** `bmpdata->pixels != NULL` after the stages: a buffer they hold, or one
      a pixel stage freed, in this call or an earlier one. */
  predicate PointerSet(f: File, d: BmpData, entry: nat, header: bool, palette: bool, heap: nat, prior: int)
    requires FontStagesCallable(f, d, entry, header, palette, heap)
  {
    !FontStages(f, d, entry, header, palette, heap, prior).bmp.pixels.Null?
  }

  /** A palette-only call, as the user interface makes for its font sheet, on
      a 4 bpp image: the pixel stage allocates, reads no row, frees its
      buffer and fails, and the stages report that failure with the freed
      address left in the structure. */
  lemma PaletteOnlyFourBit(f: File, d: BmpData, entry: nat, heap: nat, prior: int)
    requires d.bpp == BMP_4BPP && d == Geometry(d) && d.offset != 0 && d.height >= 1
    requires d.coloursOffset != 0 ==> d.colours <= PALETTE_ENTRIES
    ensures FontStagesCallable(f, d, entry, false, true, heap)
    ensures var o := FontStages(f, d, entry, false, true, heap, prior);
            && o.status == BMP_ERR_READ && o.bmp.pixels.Freed?
            && o.bmp == d.(palette := o.bmp.palette, pixels := Freed)
  {
    var p := ReadImagePalette(f, d, entry);
    FourBitRowsEmpty(d);
    FourBitRowsEmpty(p.bmp);
    FourBitNeverLoads(f, p.bmp, p.cursor, heap);
  }

  /** The glyph grid `bmp_ReadFont` cuts from a decoded image. */
  function FontSheet(d: BmpData, fw: nat, fh: nat): (s: Sheet)
    requires fw >= 1 && fh >= 1
    ensures Mul(s.columns, fw) <= d.width && Mul(s.rows, fh) <= d.height
    ensures d.width < Mul(s.columns + 1, fw) && d.height < Mul(s.rows + 1, fh)
  {
    FloorDiv(d.width, fw);
    FloorDiv(d.height, fh);
    Sheet(d.width / fw, d.height / fh, fw, fh, d.rowUnpadded)
  }

  /** Truncating division of non-negative values, in `Mul` terms. */
  lemma FloorDiv(a: nat, b: nat)
    requires b >= 1
    ensures Mul(a / b, b) <= a < Mul(a / b + 1, b)
  {
    MulIsProduct(a / b, b);
    MulIsProduct(a / b + 1, b);
    assert (a / b) * b + a % b == a;
    assert (a / b + 1) * b == (a / b) * b + b;
  }

  /** What carving demands, when it runs: a font size the table holds, at
      most 96 glyphs, and every copied byte inside the buffer. */
  predicate CarveCallable(d: BmpData, fw: nat, fh: nat)
  {
    d.pixels.Held? && d.bpp == BMP_8BPP && fw >= 1 && fh >= 1 ==>
      var s := FontSheet(d, fw, fh);
      GridFits(s) && SourcesFit(s, d.pixels.value)
  }

  /** `bmp_ReadFont`.  The builder runs whenever `bmpdata->pixels` is set,
      freed or not; only the 8 bpp branch reads the buffer, so a freed one
      must not be 8 bpp. */
  method ReadFont(f: File, d: BmpData, entry: nat, font: FontData, header: bool, palette: bool, data: bool,
                  fw: uint8, fh: uint8, heap: nat, prior: int) returns (r: FontOutcome)
    requires FontStagesCallable(f, d, entry, header, palette, heap)
    requires data && PointerSet(f, d, entry, header, palette, heap, prior) ==> fw >= 1 && fh >= 1
    requires data && FontStages(f, d, entry, header, palette, heap, prior).bmp.pixels.Freed? ==>
               FontStages(f, d, entry, header, palette, heap, prior).bmp.bpp != BMP_8BPP
    requires data ==> CarveCallable(FontStages(f, d, entry, header, palette, heap, prior).bmp, fw, fh)
    ensures var o := FontStages(f, d, entry, header, palette, heap, prior);
            var live := PointerSet(f, d, entry, header, palette, heap, prior);
            && r.image == o
            && (!data || !live ==> r.status == o.status && r.font == font)
            && (data && live ==>
                  && r.font == font.(width := fw, height := fh, symbol := r.font.symbol)
                  && (r.status == BMP_OK <==> o.bmp.bpp == BMP_8BPP)
                  && (r.status != BMP_OK ==> r.status == BMP_ERR_BPP && r.font.symbol == font.symbol))
    ensures var o := FontStages(f, d, entry, header, palette, heap, prior);
            data && o.bmp.pixels.Freed? ==> r.status == BMP_ERR_BPP && r.font == font.(width := fw, height := fh)
    ensures var o := FontStages(f, d, entry, header, palette, heap, prior);
            data && o.bmp.pixels.Held? && o.bmp.bpp == BMP_8BPP ==>
              var s := FontSheet(o.bmp, fw, fh);
              GridFits(s) && SourcesFit(s, o.bmp.pixels.value) &&
              Carved(s, o.bmp.pixels.value, font.symbol, r.font.symbol, Mul(s.rows, s.columns))
  {
    var o := FontStages(f, d, entry, header, palette, heap, prior);
    if !data || !PointerSet(f, d, entry, header, palette, heap, prior) {
      return FontOutcome(o.status, o, font);
    }
    var built := font.(width := fw, height := fh);
    if o.bmp.bpp != BMP_8BPP {
      return FontOutcome(BMP_ERR_BPP, o, built);
    }
    var s := FontSheet(o.bmp, fw, fh);
    var t, count := CarveFont(s, o.bmp.pixels.value, font.symbol);
    r := FontOutcome(BMP_OK, o, built.(symbol := t));
  }

  /** The font sheet as the user interface loads it after its header-only
      call: a palette-only call, the colours into the reserved pool, then a
      data-only call.  On a 4 bpp sheet the data call finds the address the
      palette call freed, so the builder runs: the font takes its size and
      the load fails with `BMP_ERR_BPP`, not with the palette call's read
      error.  (The registers the colours went to are `Pal.BMP2Palette`'s
      business and are not returned.) */
  method LoadFontSheet(f: File, d: BmpData, entry: nat, font: FontData, st: Pal.PalState,
                       fw: uint8, fh: uint8, heap: nat, prior: int) returns (r: FontOutcome)
    requires d.bpp == BMP_4BPP && d == Geometry(d) && d.offset != 0 && d.height >= 1
    requires d.colours <= PALETTE_ENTRIES && fw >= 1 && fh >= 1
    ensures r.status == BMP_ERR_BPP && r.font == font.(width := fw, height := fh)
    ensures r.image.bmp.pixels.Freed? && r.image.bmp.bpp == BMP_4BPP
  {
    PaletteOnlyFourBit(f, d, entry, heap, prior);
    FourBitRowsEmpty(d);
    var p := ReadFont(f, d, entry, font, false, true, false, fw, fh, heap, prior);
    var _, e, _ := Pal.BMP2Palette(p.image.bmp, st, 1);
    r := ReadFont(f, e, p.image.cursor, p.font, false, false, true, fw, fh, heap, p.status);
  }
}
