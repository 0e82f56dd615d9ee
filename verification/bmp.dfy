/*******************************************************************************
 *  The BMP loader of the launcher (bmp.c / bmp.h): header fields, colour table
 *  and bottom-up pixel rows read from an uncompressed Windows bitmap.
 *******************************************************************************/

/** The three stages of `bmp_ReadImage` and their wrappers.

    The open file is its byte sequence and the stream position is threaded
    explicitly: every stage takes the position on entry and returns the one it
    leaves behind.  `fseek` succeeds for any non-negative target (C allows a
    position past the end) and fails, leaving the position alone, for a
    negative one; `fread` delivers as many bytes as remain.  Stage results carry
    the status code, the updated `bmpdata_t` and the stream position. */
module Bmp {
  import opened Base

  // Header field offsets (bmp.h)
  const DATA_OFFSET_OFFSET: nat := 0x0A
  const DIB_HEADER_OFFSET: nat := 0x0E
  const WIDTH_OFFSET: nat := 0x12
  const HEIGHT_OFFSET: nat := 0x16
  const BITS_PER_PIXEL_OFFSET: nat := 0x1C
  const COMPRESS_OFFSET: nat := 0x1E
  const COLOUR_NUM_OFFSET: nat := 0x2E

  // Pixel depths and compression flag (bmp.h)
  const BMP_1BPP: int := 1
  const BMP_4BPP: int := 4
  const BMP_8BPP: int := 8
  const BMP_16BPP: int := 16
  const BMP_UNCOMPRESSED: int := 0

  // Status codes (bmp.h)
  const BMP_OK: int := 0
  const BMP_ERR_NOFILE: int := -1
  const BMP_ERR_SIZE: int := -2
  const BMP_ERR_MEM: int := -3
  const BMP_ERR_BPP: int := -4
  const BMP_ERR_READ: int := -5
  const BMP_ERR_COMPRESSED: int := -6
  const BMP_ERR_FONT_WIDTH: int := -7
  const BMP_ERR_FONT_HEIGHT: int := -8

  const PALETTE_ENTRIES: nat := 256

  type File = seq<uint8>

  /** One colour-table entry and the hardware slot it has been remapped to. */
  datatype PalEntry = PalEntry(r: uint8, g: uint8, b: uint8, newPaletteEntry: uint8)

  type Palette = p: seq<PalEntry> | |p| == PALETTE_ENTRIES
    witness seq(256, _ => PalEntry(0, 0, 0, 0))

  /** What `bmpdata->pixels` holds: a buffer the structure owns, the address
      of one the pixel stage has freed (the source frees it without clearing
      the pointer), or NULL.  Only the pixel stage writes it. */
  datatype PixelPtr = Held(value: seq<uint8>) | Freed | Null

  /** `bmpdata_t`. */
  datatype BmpData = BmpData(
    width: uint32,
    height: uint32,
    compressed: uint8,
    dibSize: uint32,
    coloursOffset: uint16,
    colours: uint32,
    bpp: uint16,
    bytespp: uint16,
    offset: uint32,
    rowPadded: uint32,
    rowUnpadded: uint32,
    size: uint32,
    nPixels: uint32,
    palette: Palette,
    pixels: PixelPtr)

  /** What a stage returns: status code, the structure, and the stream position. */
  datatype Outcome = Outcome(status: int, bmp: BmpData, cursor: nat)

  // ---------------------------------------------------------------------------
  // The stream
  // ---------------------------------------------------------------------------

  /** Bytes `fread(buf, 1, n, f)` delivers from position `p`. */
  function ReadBytes(f: File, p: nat, n: nat): (bytes: seq<uint8>)
    ensures |bytes| == Available(f, p, n)
    ensures forall i :: 0 <= i < |bytes| ==> bytes[i] == f[p + i]
  {
    if p >= |f| then [] else f[p..Min(p + n, |f|)]
  }

  /** How many bytes `fread` delivers: `n`, or what remains before the end. */
  function Available(f: File, p: nat, n: nat): nat
  {
    if p + n <= |f| then n else if p < |f| then |f| - p else 0
  }

  /** Stream position after an attempt to read `n` bytes at `p`. */
  function AfterRead(f: File, p: nat, n: nat): nat
  {
    p + Available(f, p, n)
  }

  /** A 4-byte little-endian field that lies inside the file. */
  function Field32(f: File, at: nat): uint32
    requires at + 4 <= |f|
  {
    Pow256Widths();
    LittleEndian(f[at..at + 4])
  }

  /** A 2-byte little-endian field that lies inside the file. */
  function Field16(f: File, at: nat): uint16
    requires at + 2 <= |f|
  {
    Pow256Widths();
    LittleEndian(f[at..at + 2])
  }

  // ---------------------------------------------------------------------------
  // Header stage (bmp.c, `if (header)`)
  // ---------------------------------------------------------------------------

  /** Depths the header accepts. */
  predicate SupportedDepth(bpp: int)
  {
    bpp == BMP_4BPP || bpp == BMP_8BPP || bpp == BMP_16BPP || bpp == BMP_1BPP
  }

  /** Depths whose pixel data is handed back after decoding. */
  predicate DecodedDepth(bpp: int)
  {
    bpp == BMP_8BPP || bpp == BMP_4BPP || bpp == BMP_1BPP
  }

  /** The row and buffer sizes fit the 32-bit `unsigned int` fields. */
  predicate NoWrap(d: BmpData)
  {
    var b := d.bpp / 8;
    d.width * d.height < TWO_32 && d.width * d.height * b < TWO_32 && 4 * CeilDiv(d.width, 4) * b < TWO_32
  }

  /** Derived row geometry, computed once the depth is known; nothing but the
      five derived fields changes. */
  function Geometry(d: BmpData): (r: BmpData)
    ensures r == d.(bytespp := r.bytespp, rowPadded := r.rowPadded, rowUnpadded := r.rowUnpadded,
                    size := r.size, nPixels := r.nPixels)
    ensures r.bytespp == d.bpp / 8
  {
    if d.bpp == BMP_1BPP then OneBitGeometry(d) else WholeByteGeometry(d)
  }

  /** Every integer below 2^24 is a `float`: its significand has 24 bits. */
  const FLOAT_EXACT: nat := 0x100_0000

  /** The spacing of the `float` values next to the integer `x`: 1 below
      2^24, and twice as wide in each binade above. */
  function Ulp(x: nat): (u: nat)
    ensures u >= 1
    ensures x >= FLOAT_EXACT ==> (FLOAT_EXACT / 2) * u <= x
    decreases x
  {
    if x < FLOAT_EXACT then 1 else 2 * Ulp(x / 2)
  }

  /** `(float)x` for an `unsigned` value: the nearest multiple of `Ulp(x)`,
      the even multiple on a tie (the default rounding of IEEE 754). */
  function ToFloat(x: nat): (r: nat)
    ensures x < FLOAT_EXACT ==> r == x
    ensures r <= 2 * x
  {
    var u := Ulp(x);
    var q := x / u;
    RoundUpBound(x, u);
    if 2 * (x % u) > u || (2 * (x % u) == u && q % 2 == 1) then (q + 1) * u else q * u
  }

  /** The multiples of `u` on both sides of `x`, for `ToFloat`. */
  lemma RoundUpBound(x: nat, u: nat)
    requires u >= 1 && (x < FLOAT_EXACT ==> u == 1) && (x >= FLOAT_EXACT ==> (FLOAT_EXACT / 2) * u <= x)
    ensures (x / u) * u <= x && (x / u + 1) * u <= 2 * x + (if x == 0 then 1 else 0)
    ensures x < FLOAT_EXACT ==> (x / u) * u == x
  {
    var q := x / u;
    assert q * u + x % u == x;
    assert (q + 1) * u == q * u + u;
  }

  /** `(int)` of a whole, non-negative `double`: the value when it fits an
      `int`, else `0x80000000`, the value the x86 conversion yields for any
      value out of range. */
  function ToInt(x: nat): (r: int)
    ensures Int32(r)
    ensures x < TWO_31 ==> r == x
  {
    if x < TWO_31 then x else -TWO_31
  }

  /** 1 bpp: eight pixels to the byte, sizes rounded up to whole bytes.  The
      width and the pixel count go through `float`; the `int` quotient by 8
      truncates, which for the one negative value `ToInt` yields, a multiple
      of 8, is the exact quotient. */
  function OneBitGeometry(d: BmpData): BmpData
  {
    var size := Wrap32(ToInt(CeilDiv(ToFloat(Wrap32(d.width * d.height)), 8)));
    d.(bytespp := d.bpp / 8, rowPadded := Wrap32(ToInt(4 * CeilDiv(ToFloat(d.width), 4)) / 8),
       rowUnpadded := Wrap32(ToInt(CeilDiv(ToFloat(d.width), 8))), size := size, nPixels := size)
  }

  /** 4, 8 and 16 bpp: `bytespp` bytes to the pixel (none at 4 bpp).  The
      padded stride goes through `float`, and its `int` product with
      `bytespp` wraps. */
  function WholeByteGeometry(d: BmpData): BmpData
  {
    var b := d.bpp / 8;
    d.(bytespp := b, rowPadded := Wrap32(ToInt(4 * CeilDiv(ToFloat(d.width), 4)) * b),
       rowUnpadded := Wrap32(d.width * b), size := Wrap32(d.width * d.height * b),
       nPixels := Wrap32(d.width * d.height))
  }

  /** For whole-byte depths a row holds `width` pixels of `bytespp` bytes and
      the buffer holds exactly `height` unpadded rows; below 2^24 pixels, where
      `float` holds the width exactly, the padded stride is the next multiple
      of four. */
  lemma GeometryWholeBytes(d: BmpData)
    requires d.bpp != BMP_1BPP && NoWrap(d)
    ensures var r := Geometry(d);
            && r.rowUnpadded == d.width * r.bytespp
            && r.size == r.rowUnpadded * d.height
            && r.nPixels == d.width * d.height
            && RowsFit(r)
            && (d.width < FLOAT_EXACT ==>
                  && r.rowPadded % 4 == 0
                  && r.rowUnpadded <= r.rowPadded <= r.rowUnpadded + 3 * r.bytespp)
  {
    var r := Geometry(d);
    assert r == WholeByteGeometry(d);
    var b := d.bpp / 8;
    WholeByteFields(d.width, d.height, b);
    assert r.rowUnpadded == d.width * b;
    assert r.size == d.width * d.height * b;
    assert r.nPixels == d.width * d.height;
    SizeIsRows(d.width, d.height, b);
    WholeBytesFit(d.width, d.height, b);
    if d.width < FLOAT_EXACT {
      assert r.rowPadded == 4 * CeilDiv(d.width, 4) * b;
      PaddedStride(d.width, b);
    }
  }

  /** An 8 bpp row of 2^24 + 1 pixels: `float` rounds the width to 2^24, so
      the padded stride comes out one byte shorter than the row itself. */
  lemma WideRowStrideShort(d: BmpData)
    requires d.bpp == BMP_8BPP && d.width == FLOAT_EXACT + 1
    ensures Geometry(d).rowUnpadded == FLOAT_EXACT + 1 && Geometry(d).rowPadded == FLOAT_EXACT
  {
    assert Ulp(FLOAT_EXACT + 1) == 2;
    assert ToFloat(FLOAT_EXACT + 1) == FLOAT_EXACT;
  }

  lemma WholeByteFields(w: nat, h: nat, b: nat)
    requires w * h < TWO_32 && w * h * b < TWO_32 && 4 * CeilDiv(w, 4) * b < TWO_32
    ensures Wrap32(w * b) == w * b && Wrap32(w * h * b) == w * h * b
    ensures Wrap32(4 * CeilDiv(w, 4) * b) == 4 * CeilDiv(w, 4) * b && Wrap32(w * h) == w * h
  {
    PaddedStride(w, b);
    MulMono(0, w, h);
    MulMono(0, w * h, b);
    MulMono(0, 4 * CeilDiv(w, 4), b);
  }

  /** Rounding a row of `w` pixels of `b` bytes up to four pixels. */
  lemma PaddedStride(w: nat, b: nat)
    ensures var c := CeilDiv(w, 4);
            && w * b <= 4 * c * b <= w * b + 3 * b
            && (4 * c * b) % 4 == 0
  {
    var c := CeilDiv(w, 4);
    var x := 4 * c;
    assert w <= x <= w + 3;
    MulMono(w, x, b);
    MulMono(x, w + 3, b);
    PlusThree(w, b);
    FourFold(c, b);
  }

  lemma PlusThree(w: nat, b: nat)
    ensures (w + 3) * b == w * b + 3 * b
  {
  }

  lemma FourFold(c: nat, b: nat)
    ensures 4 * c * b == 4 * (c * b) && (4 * c * b) % 4 == 0
  {
  }

  lemma SizeIsRows(w: nat, h: nat, b: nat)
    ensures w * h * b == (w * b) * h == h * (w * b)
  {
  }

  /** `height` unpadded rows fill the `n_pixels * bytespp` buffer exactly. */
  lemma WholeBytesFit(w: nat, h: nat, b: nat)
    ensures Mul(h, w * b) == (w * h) * b
  {
    MulIsProduct(h, w * b);
    SizeIsRows(w, h, b);
  }

  /** At one bit per pixel a row is the width, as a `float`, rounded up to
      whole bytes, and the buffer the pixel count, as a `float`, rounded up;
      below 2^24 both are exact. */
  lemma GeometryOneBit(d: BmpData)
    requires d.bpp == BMP_1BPP && NoWrap(d)
    ensures var r := Geometry(d);
            && 8 * r.rowUnpadded - 8 < ToFloat(d.width) <= 8 * r.rowUnpadded
            && r.size == r.nPixels
            && 8 * r.size - 8 < ToFloat(Wrap32(d.width * d.height)) <= 8 * r.size
    ensures var r := Geometry(d);
            && (d.width < FLOAT_EXACT ==> 8 * r.rowUnpadded - 8 < d.width <= 8 * r.rowUnpadded)
            && (d.width * d.height < FLOAT_EXACT ==> 8 * r.size - 8 < d.width * d.height <= 8 * r.size)
  {
    var r := Geometry(d);
    assert r == OneBitGeometry(d);
    MulMono(0, d.width, d.height);
    var n := Wrap32(d.width * d.height);
    assert n == d.width * d.height;
    var fw, fn := ToFloat(d.width), ToFloat(n);
    EighthFits(fw);
    EighthFits(fn);
    assert r.rowUnpadded == CeilDiv(fw, 8);
    assert r.size == CeilDiv(fn, 8);
  }

  /** `ceil(x / 8.0f)`, for the `float` of an `unsigned` value, fits an `int`
      and an `unsigned` field. */
  lemma EighthFits(x: nat)
    requires x <= 2 * TWO_32
    ensures ToInt(CeilDiv(x, 8)) == CeilDiv(x, 8) && Wrap32(CeilDiv(x, 8)) == CeilDiv(x, 8)
  {
  }

  /** A 1 bpp image of 4097 x 4097 pixels: `float` rounds the 16785409 pixels
      to 16785408, so `size` is 2098176 bytes where the pixels need one byte
      more. */
  lemma OneBitSizeRounds(d: BmpData)
    requires d.bpp == BMP_1BPP && d.width == 4097 && d.height == 4097
    ensures Geometry(d).size == 2098176 && CeilDiv(d.width * d.height, 8) == 2098177
  {
    assert Ulp(16785409) == 2;
    assert ToFloat(16785409) == 16785408;
  }

  /** Header fields as the file stores them. */
  predicate HeaderFieldsFrom(f: File, b: BmpData)
    requires COLOUR_NUM_OFFSET + 4 <= |f|
  {
    && b.offset == Field32(f, DATA_OFFSET_OFFSET)
    && b.dibSize == Field32(f, DIB_HEADER_OFFSET)
    && b.coloursOffset == (DIB_HEADER_OFFSET + b.dibSize) % 0x1_0000
    && b.width == Field32(f, WIDTH_OFFSET)
    && b.height == Field32(f, HEIGHT_OFFSET)
    && b.bpp == Field16(f, BITS_PER_PIXEL_OFFSET)
    && b.colours == Field32(f, COLOUR_NUM_OFFSET)
    && b.compressed == f[COMPRESS_OFFSET]
  }

  /** Reads the header fields in the order the source does, stopping at the
      first field the file is too short to hold, at an unsupported depth, or at
      a compressed image; fields read before a failure stay written. */
  function HeaderStage(f: File, d: BmpData): (r: Outcome)
    ensures r.status in {BMP_OK, BMP_ERR_READ, BMP_ERR_BPP, BMP_ERR_COMPRESSED}
    ensures r.status == BMP_ERR_READ <==>
              |f| < BITS_PER_PIXEL_OFFSET + 2
              || (SupportedDepth(Field16(f, BITS_PER_PIXEL_OFFSET)) && |f| < COLOUR_NUM_OFFSET + 4)
    ensures r.status == BMP_ERR_BPP <==>
              BITS_PER_PIXEL_OFFSET + 2 <= |f| && !SupportedDepth(Field16(f, BITS_PER_PIXEL_OFFSET))
    ensures r.status == BMP_ERR_COMPRESSED <==>
              COLOUR_NUM_OFFSET + 4 <= |f| && SupportedDepth(Field16(f, BITS_PER_PIXEL_OFFSET))
              && f[COMPRESS_OFFSET] != BMP_UNCOMPRESSED
    ensures r.status == BMP_ERR_BPP ==>
              && r.bmp.width == Field32(f, WIDTH_OFFSET) && r.bmp.height == Field32(f, HEIGHT_OFFSET)
              && r.bmp.bpp == Field16(f, BITS_PER_PIXEL_OFFSET)
              && r.bmp.colours == d.colours && r.bmp.compressed == d.compressed
    ensures r.status == BMP_ERR_COMPRESSED ==>
              HeaderFieldsFrom(f, r.bmp) && r.bmp.rowUnpadded == d.rowUnpadded && r.bmp.size == d.size
    ensures r.status == BMP_OK ==>
              && HeaderFieldsFrom(f, r.bmp) && SupportedDepth(r.bmp.bpp)
              && r.bmp == Geometry(r.bmp) && r.cursor == COMPRESS_OFFSET + 1
    ensures r.bmp.palette == d.palette && r.bmp.pixels == d.pixels
  {
    if |f| < DATA_OFFSET_OFFSET + 4 then
      Outcome(BMP_ERR_READ, d, AfterRead(f, DATA_OFFSET_OFFSET, 4))
    else
      var d1 := d.(offset := Field32(f, DATA_OFFSET_OFFSET));
      if |f| < DIB_HEADER_OFFSET + 4 then
        Outcome(BMP_ERR_READ, d1, AfterRead(f, DIB_HEADER_OFFSET, 4))
      else
        var dib := Field32(f, DIB_HEADER_OFFSET);
        var d2 := d1.(dibSize := dib, coloursOffset := (DIB_HEADER_OFFSET + dib) % 0x1_0000);
        if |f| < WIDTH_OFFSET + 4 then
          Outcome(BMP_ERR_READ, d2, AfterRead(f, WIDTH_OFFSET, 4))
        else
          var d3 := d2.(width := Field32(f, WIDTH_OFFSET));
          if |f| < HEIGHT_OFFSET + 4 then
            Outcome(BMP_ERR_READ, d3, AfterRead(f, HEIGHT_OFFSET, 4))
          else
            var d4 := d3.(height := Field32(f, HEIGHT_OFFSET));
            if |f| < BITS_PER_PIXEL_OFFSET + 2 then
              Outcome(BMP_ERR_READ, d4, AfterRead(f, BITS_PER_PIXEL_OFFSET, 2))
            else
              var d5 := d4.(bpp := Field16(f, BITS_PER_PIXEL_OFFSET));
              if !SupportedDepth(d5.bpp) then
                Outcome(BMP_ERR_BPP, d5, BITS_PER_PIXEL_OFFSET + 2)
              else if |f| < COLOUR_NUM_OFFSET + 4 then
                Outcome(BMP_ERR_READ, d5, AfterRead(f, COLOUR_NUM_OFFSET, 4))
              else
                // The compression byte lies before the colour count, so it is
                // always present once the colour count has been read.
                var d6 := d5.(colours := Field32(f, COLOUR_NUM_OFFSET), compressed := f[COMPRESS_OFFSET]);
                if d6.compressed != BMP_UNCOMPRESSED then
                  Outcome(BMP_ERR_COMPRESSED, d6, COMPRESS_OFFSET + 1)
                else
                  Outcome(BMP_OK, Geometry(d6), COMPRESS_OFFSET + 1)
  }

  /** Geometry reads only width, height and depth. */
  lemma GeometryIgnoresDerived(a: BmpData, b: BmpData)
    requires a.(bytespp := 0, rowPadded := 0, rowUnpadded := 0, size := 0, nPixels := 0)
          == b.(bytespp := 0, rowPadded := 0, rowUnpadded := 0, size := 0, nPixels := 0)
    ensures Geometry(a) == Geometry(b)
  {
    assert a.width == b.width && a.height == b.height && a.bpp == b.bpp;
  }

  /** Reading the header into a structure that already holds it changes nothing:
      every field the stage writes comes from the file or from those fields. */
  lemma HeaderIdempotent(f: File, d: BmpData)
    ensures HeaderStage(f, HeaderStage(f, d).bmp) == HeaderStage(f, d)
  {
    var r := HeaderStage(f, d);
    if r.status == BMP_OK {
      var again := r.bmp.(offset := Field32(f, DATA_OFFSET_OFFSET), dibSize := Field32(f, DIB_HEADER_OFFSET),
                          coloursOffset := (DIB_HEADER_OFFSET + Field32(f, DIB_HEADER_OFFSET)) % 0x1_0000,
                          width := Field32(f, WIDTH_OFFSET), height := Field32(f, HEIGHT_OFFSET),
                          bpp := Field16(f, BITS_PER_PIXEL_OFFSET), colours := Field32(f, COLOUR_NUM_OFFSET),
                          compressed := f[COMPRESS_OFFSET]);
      assert again == r.bmp;
    }
  }

  // ---------------------------------------------------------------------------
  // Palette stage (bmp.c, `if (palette)`)
  // ---------------------------------------------------------------------------

  /** The b, g, r bytes of colour-table entry `j` are all inside the file. */
  predicate EntryReadable(f: File, table: nat, j: nat)
  {
    table + 4 * j + 3 <= |f|
  }

  /** Entry `j` as stored: blue, green, red, then a reserved byte never read. */
  function EntryFromFile(f: File, table: nat, j: nat): PalEntry
    requires EntryReadable(f, table, j) && j < PALETTE_ENTRIES
  {
    var o := table + 4 * j;
    PalEntry(f[o + 2], f[o + 1], f[o], j)
  }

  /** The palette after the stage: readable entries below `colours` are filled,
      every other entry is what it was. */
  function FilledPalette(f: File, d: BmpData): (p: Palette)
    requires d.colours <= PALETTE_ENTRIES
  {
    seq(PALETTE_ENTRIES, j requires 0 <= j < PALETTE_ENTRIES =>
      if j < d.colours && EntryReadable(f, d.coloursOffset, j) then EntryFromFile(f, d.coloursOffset, j) else d.palette[j])
  }

  /** The colour-table loop from entry `i` on. */
  function PaletteFrom(f: File, d: BmpData, i: nat, cursor: nat): (r: Outcome)
    requires d.colours <= PALETTE_ENTRIES && i <= d.colours
    ensures r.status in {BMP_OK, BMP_ERR_READ}
    ensures r.status == BMP_OK <==> forall j :: i <= j < d.colours ==> EntryReadable(f, d.coloursOffset, j)
    ensures r.bmp == d.(palette := r.bmp.palette)
    ensures forall j :: 0 <= j < PALETTE_ENTRIES ==>
              r.bmp.palette[j] == if i <= j < d.colours && EntryReadable(f, d.coloursOffset, j)
                                  then EntryFromFile(f, d.coloursOffset, j) else d.palette[j]
    ensures r.status == BMP_OK && i < d.colours ==> r.cursor == d.coloursOffset + 4 * (d.colours - 1) + 3
    decreases d.colours - i
  {
    if i == d.colours then
      Outcome(BMP_OK, d, cursor)
    else if !EntryReadable(f, d.coloursOffset, i) then
      Outcome(BMP_ERR_READ, d, AfterRead(f, d.coloursOffset + 4 * i, 3))
    else
      PaletteFrom(f, d.(palette := d.palette[i := EntryFromFile(f, d.coloursOffset, i)]), i + 1, d.coloursOffset + 4 * i + 3)
  }

  /** Reads `colours` entries of the colour table into `palette`; a zero table
      offset means the header was never read. */
  function PaletteStage(f: File, d: BmpData, cursor: nat): (r: Outcome)
    requires d.coloursOffset != 0 ==> d.colours <= PALETTE_ENTRIES
    ensures r.status in {BMP_OK, BMP_ERR_READ}
    ensures r.status == BMP_OK <==>
              d.coloursOffset != 0 && forall j :: 0 <= j < d.colours ==> EntryReadable(f, d.coloursOffset, j)
    ensures r.bmp == d.(palette := r.bmp.palette)
    ensures d.coloursOffset == 0 ==> r == Outcome(BMP_ERR_READ, d, cursor)
    ensures d.coloursOffset != 0 ==> r.bmp.palette == FilledPalette(f, d)
    ensures r.status == BMP_OK ==>
              r.cursor == if d.colours == 0 then cursor else d.coloursOffset + 4 * (d.colours - 1) + 3
  {
    if d.coloursOffset == 0 then
      Outcome(BMP_ERR_READ, d, cursor)
    else
      PaletteFrom(f, d, 0, cursor)
  }

  /** The fourth byte of each table entry is never read: overwriting it leaves
      the stage's result unchanged. */
  lemma PaletteIgnoresReservedByte(f: File, d: BmpData, cursor: nat, j: nat, v: uint8)
    requires d.coloursOffset != 0 ==> d.colours <= PALETTE_ENTRIES
    requires d.coloursOffset + 4 * j + 3 < |f|
    ensures PaletteStage(f[d.coloursOffset + 4 * j + 3 := v], d, cursor) == PaletteStage(f, d, cursor)
  {
    var g := f[d.coloursOffset + 4 * j + 3 := v];
    if d.coloursOffset != 0 {
      forall k | 0 <= k < d.colours && EntryReadable(f, d.coloursOffset, k)
        ensures EntryFromFile(g, d.coloursOffset, k) == EntryFromFile(f, d.coloursOffset, k)
      {
      }
      assert FilledPalette(g, d) == FilledPalette(f, d);
      PaletteCursor(f, g, d, cursor);
    }
  }

  /** The stage's status and final position depend on the file only through its length. */
  lemma PaletteCursor(f: File, g: File, d: BmpData, cursor: nat)
    requires d.coloursOffset != 0 && d.colours <= PALETTE_ENTRIES && |f| == |g|
    ensures PaletteStage(f, d, cursor).status == PaletteStage(g, d, cursor).status
    ensures PaletteStage(f, d, cursor).cursor == PaletteStage(g, d, cursor).cursor
  {
    PaletteFromCursor(f, g, d, d, 0, cursor);
  }

  lemma {:induction false} PaletteFromCursor(f: File, g: File, d: BmpData, e: BmpData, i: nat, cursor: nat)
    requires d.colours <= PALETTE_ENTRIES && i <= d.colours && |f| == |g| && e == d.(palette := e.palette)
    ensures PaletteFrom(f, d, i, cursor).status == PaletteFrom(g, e, i, cursor).status
    ensures PaletteFrom(f, d, i, cursor).cursor == PaletteFrom(g, e, i, cursor).cursor
    decreases d.colours - i
  {
    if i < d.colours && EntryReadable(f, d.coloursOffset, i) {
      var d' := d.(palette := d.palette[i := EntryFromFile(f, d.coloursOffset, i)]);
      var e' := e.(palette := e.palette[i := EntryFromFile(g, d.coloursOffset, i)]);
      var next := d.coloursOffset + 4 * i + 3;
      assert PaletteFrom(f, d, i, cursor) == PaletteFrom(f, d', i + 1, next);
      assert PaletteFrom(g, e, i, cursor) == PaletteFrom(g, e', i + 1, next);
      PaletteFromCursor(f, g, d', e', i + 1, next);
    }
  }

  // ---------------------------------------------------------------------------
  // Pixel stage (bmp.c, `if (data)`)
  // ---------------------------------------------------------------------------

  /** Bytes requested from `calloc` for the pixel buffer. */
  function AllocRequest(d: BmpData): nat
  {
    if d.bpp == BMP_1BPP then d.size else d.nPixels * d.bytespp
  }

  /** Every row the loop copies lands inside the buffer.  Writing past it is
      undefined behaviour, so the pixel stage requires this. */
  predicate RowsFit(d: BmpData)
  {
    Mul(d.height, d.rowUnpadded) <= AllocRequest(d)
  }

  /** `row_padded - row_unpadded` in `unsigned int`, passed to `fseek` as a
      32-bit `long`. */
  function PaddingSkip(d: BmpData): int
  {
    var x := d.rowPadded - d.rowUnpadded;
    if x >= TWO_31 then x - TWO_32 else if x < -TWO_31 then x + TWO_32 else x
  }

  /** The skip is the unsigned difference reinterpreted as a signed 32-bit value. */
  lemma PaddingSkipIsLong(d: BmpData)
    ensures PaddingSkip(d) == ToSigned32(Wrap32(d.rowPadded - d.rowUnpadded))
  {
  }

  /** Position after the unchecked `fseek` to the data offset: an offset of
      2^31 or more is a negative `long`, the seek fails and the stream stays. */
  function DataStart(d: BmpData, entry: nat): nat
  {
    if d.offset < TWO_31 then d.offset else entry
  }

  /** State of the row loop: still going, and where the stream stands. */
  datatype Scan = Scan(ok: bool, cursor: nat)

  /** One pass of the row loop from stream position `p`. */
  function RowStep(f: File, d: BmpData, p: nat): Scan
  {
    var got := Available(f, p, d.rowUnpadded);
    var next := p + got + PaddingSkip(d);
    if got < 1 then Scan(false, p)
    else if got != d.rowUnpadded then
      if next < 0 then Scan(false, p + got) else Scan(true, next)
    else if d.rowPadded != d.rowUnpadded && next >= 0 then Scan(true, next)
    else Scan(true, p + got)
  }

  /** The loop state before file row `k` (file rows count from the bottom). */
  function RowScan(f: File, d: BmpData, entry: nat, k: nat): Scan
  {
    if k == 0 then Scan(true, DataStart(d, entry))
    else
      var s := RowScan(f, d, entry, k - 1);
      if s.ok then RowStep(f, d, s.cursor) else s
  }

  /** Once a row fails the loop has returned: later rows change nothing. */
  lemma {:induction false} FailureSticks(f: File, d: BmpData, entry: nat, k: nat, n: nat)
    requires k <= n && !RowScan(f, d, entry, k).ok
    ensures RowScan(f, d, entry, n) == RowScan(f, d, entry, k)
    decreases n - k
  {
    if k < n {
      FailureSticks(f, d, entry, k, n - 1);
    }
  }

  /** A row as it sits in the zeroed buffer after `fread`: the bytes delivered,
      then the zeros `calloc` left. */
  function PaddedRow(f: File, p: nat, n: nat): (row: seq<uint8>)
    ensures |row| == n
  {
    var b := ReadBytes(f, p, n);
    b + Zeros(n - |b|)
  }

  /** Buffer offset of file row `j`: the image is stored bottom-up, so the
      first file row goes to the last buffer row. */
  function Slot(d: BmpData, j: nat): (s: nat)
    requires j < d.height
    ensures s + d.rowUnpadded <= Mul(d.height, d.rowUnpadded)
  {
    MulAscending(d.height - j, d.height, d.rowUnpadded);
    Mul(d.height - 1 - j, d.rowUnpadded)
  }

  /** Row `row` of a decoded buffer, counted from the top of the image. */
  function BufferRow(d: BmpData, pixels: seq<uint8>, row: nat): seq<uint8>
    requires row < d.height && Mul(d.height, d.rowUnpadded) <= |pixels|
  {
    MulAscending(row + 1, d.height, d.rowUnpadded);
    pixels[Mul(row, d.rowUnpadded)..Mul(row + 1, d.rowUnpadded)]
  }

  /** `bytes` written over `buf` at `at`. */
  function Splice(buf: seq<uint8>, at: nat, bytes: seq<uint8>): (r: seq<uint8>)
    requires at + |bytes| <= |buf|
    ensures |r| == |buf|
  {
    buf[..at] + bytes + buf[at + |bytes|..]
  }

  lemma SpliceAway(buf: seq<uint8>, at: nat, bytes: seq<uint8>, a: nat, n: nat)
    requires at + |bytes| <= |buf| && a + n <= |buf|
    requires a + n <= at || at + |bytes| <= a
    ensures Splice(buf, at, bytes)[a..a + n] == buf[a..a + n]
  {
    var r := Splice(buf, at, bytes);
    forall i | a <= i < a + n
      ensures r[i] == buf[i]
    {
    }
  }

  lemma SpliceInto(buf: seq<uint8>, at: nat, bytes: seq<uint8>, n: nat)
    requires |bytes| <= n && at + n <= |buf|
    requires forall i :: at + |bytes| <= i < at + n ==> buf[i] == 0
    ensures Splice(buf, at, bytes)[at..at + n] == bytes + Zeros(n - |bytes|)
  {
    var r := Splice(buf, at, bytes);
    var want := bytes + Zeros(n - |bytes|);
    forall i | at <= i < at + n
      ensures r[i] == want[i - at]
    {
      if i < at + |bytes| {
        assert r[i] == bytes[i - at];
      } else {
        assert r[i] == buf[i] == 0;
      }
    }
    assert r[at..at + n] == want;
  }

  /** Slots of earlier file rows lie above (after) later ones. */
  lemma SlotOrder(d: BmpData, j: nat, k: nat)
    requires j < k < d.height
    ensures Slot(d, k) + d.rowUnpadded <= Slot(d, j)
  {
    MulAscending(d.height - k, d.height - 1 - j, d.rowUnpadded);
  }

  /** The rows the loop reads, in file order (bottom image row first), as they
      end up in the buffer. */
  function FileRows(f: File, d: BmpData, entry: nat, n: nat): (rows: seq<seq<uint8>>)
    ensures |rows| == n
    ensures forall j :: 0 <= j < n ==> rows[j] == FileRow(f, d, entry, j)
  {
    seq(n, (j: int) requires 0 <= j => FileRow(f, d, entry, j))
  }

  /** File row `j` as the loop leaves it in the buffer. */
  function FileRow(f: File, d: BmpData, entry: nat, j: nat): seq<uint8>
  {
    PaddedRow(f, RowScan(f, d, entry, j).cursor, d.rowUnpadded)
  }

  /** Rows below `k` sit in their slots. */
  predicate RowsPlaced(d: BmpData, k: nat, buf: seq<uint8>, rows: seq<seq<uint8>>)
    requires k <= d.height && k <= |rows| && Mul(d.height, d.rowUnpadded) <= |buf|
  {
    forall j :: 0 <= j < k ==> buf[Slot(d, j)..Slot(d, j) + d.rowUnpadded] == rows[j]
  }

  /** Bytes not yet covered by a row, and bytes past the last row, are zero. */
  predicate RestZero(d: BmpData, k: nat, buf: seq<uint8>)
    requires k <= d.height
  {
    forall i :: 0 <= i < |buf| ==>
      (i < Mul(d.height - k, d.rowUnpadded) || Mul(d.height, d.rowUnpadded) <= i) ==> buf[i] == 0
  }

  /** `buf` holds the first `k` file rows in their slots and zeros elsewhere. */
  predicate RowsDecoded(f: File, d: BmpData, entry: nat, k: nat, buf: seq<uint8>)
    requires k <= d.height && RowsFit(d)
  {
    && |buf| == AllocRequest(d)
    && RowsPlaced(d, k, buf, FileRows(f, d, entry, d.height))
    && RestZero(d, k, buf)
  }

  /** Copying file row `k - 1` into its slot extends the decoded prefix by one row. */
  lemma DecodeStep(f: File, d: BmpData, entry: nat, k: nat, buf: seq<uint8>)
    requires 0 < k <= d.height && RowsFit(d) && RowsDecoded(f, d, entry, k - 1, buf)
    ensures RowsDecoded(f, d, entry, k,
              Splice(buf, Slot(d, k - 1), ReadBytes(f, RowScan(f, d, entry, k - 1).cursor, d.rowUnpadded)))
  {
    var bytes := ReadBytes(f, RowScan(f, d, entry, k - 1).cursor, d.rowUnpadded);
    PlaceRow(d, k, buf, FileRows(f, d, entry, d.height), bytes);
    StepZeros(d, k, buf, bytes);
  }

  lemma PlaceRow(d: BmpData, k: nat, buf: seq<uint8>, rows: seq<seq<uint8>>, bytes: seq<uint8>)
    requires 0 < k <= d.height && k <= |rows| && Mul(d.height, d.rowUnpadded) <= |buf| && |bytes| <= d.rowUnpadded
    requires RowsPlaced(d, k - 1, buf, rows) && RestZero(d, k - 1, buf)
    requires rows[k - 1] == bytes + Zeros(d.rowUnpadded - |bytes|)
    ensures RowsPlaced(d, k, Splice(buf, Slot(d, k - 1), bytes), rows)
  {
    SpliceInto(buf, Slot(d, k - 1), bytes, d.rowUnpadded);
    OldRowsKept(d, k, buf, rows, bytes);
  }

  lemma OldRowsKept(d: BmpData, k: nat, buf: seq<uint8>, rows: seq<seq<uint8>>, bytes: seq<uint8>)
    requires 0 < k <= d.height && k <= |rows| && Mul(d.height, d.rowUnpadded) <= |buf| && |bytes| <= d.rowUnpadded
    requires RowsPlaced(d, k - 1, buf, rows)
    ensures RowsPlaced(d, k - 1, Splice(buf, Slot(d, k - 1), bytes), rows)
  {
    forall j | 0 <= j < k - 1
      ensures Splice(buf, Slot(d, k - 1), bytes)[Slot(d, j)..Slot(d, j) + d.rowUnpadded]
              == buf[Slot(d, j)..Slot(d, j) + d.rowUnpadded]
    {
      SlotOrder(d, j, k - 1);
      SpliceAway(buf, Slot(d, k - 1), bytes, Slot(d, j), d.rowUnpadded);
    }
  }

  lemma StepZeros(d: BmpData, k: nat, buf: seq<uint8>, bytes: seq<uint8>)
    requires 0 < k <= d.height && Mul(d.height, d.rowUnpadded) <= |buf| && |bytes| <= d.rowUnpadded
    requires RestZero(d, k - 1, buf)
    ensures RestZero(d, k, Splice(buf, Slot(d, k - 1), bytes))
  {
    MulAscending(d.height - k, d.height - (k - 1), d.rowUnpadded);
  }

  /** The freshly allocated buffer holds no rows and only zeros. */
  lemma DecodeStart(f: File, d: BmpData, entry: nat)
    requires RowsFit(d)
    ensures RowsDecoded(f, d, entry, 0, Zeros(AllocRequest(d)))
  {
  }

  /** The pixel buffer after `k` rows of the loop, or `None` once a read or a
      checked seek has failed. */
  function DecodeRows(f: File, d: BmpData, entry: nat, k: nat): (buf: Option<seq<uint8>>)
    requires k <= d.height && RowsFit(d)
    ensures buf.Some? <==> RowScan(f, d, entry, k).ok
    ensures buf.Some? ==> |buf.value| == AllocRequest(d)
  {
    if k == 0 then
      Some(Zeros(AllocRequest(d)))
    else
      var prev := DecodeRows(f, d, entry, k - 1);
      var s := RowScan(f, d, entry, k - 1);
      if prev.None? || !RowStep(f, d, s.cursor).ok then None
      else
        Some(Splice(prev.value, Slot(d, k - 1), ReadBytes(f, s.cursor, d.rowUnpadded)))
  }

  /** After `k` rows the buffer holds those rows in their slots and zeros elsewhere. */
  lemma {:induction false} DecodedRows(f: File, d: BmpData, entry: nat, k: nat, buf: seq<uint8>)
    requires k <= d.height && RowsFit(d) && DecodeRows(f, d, entry, k) == Some(buf)
    ensures RowsDecoded(f, d, entry, k, buf)
  {
    if k == 0 {
      DecodeStart(f, d, entry);
    } else {
      var before := DecodeRows(f, d, entry, k - 1);
      assert before.Some?;
      DecodedRows(f, d, entry, k - 1, before.value);
      DecodeStep(f, d, entry, k, before.value);
    }
  }

  /** A decoded image read top-down: buffer row `row` holds file row
      `height - 1 - row`, and the buffer is zero past the last row. */
  predicate DecodedImage(f: File, d: BmpData, entry: nat, pixels: seq<uint8>)
  {
    && RowsFit(d)
    && |pixels| == AllocRequest(d)
    && (forall row :: 0 <= row < d.height ==>
          BufferRow(d, pixels, row)
          == PaddedRow(f, RowScan(f, d, entry, d.height - 1 - row).cursor, d.rowUnpadded))
    && (forall i :: Mul(d.height, d.rowUnpadded) <= i < |pixels| ==> pixels[i] == 0)
  }

  lemma TopDown(f: File, d: BmpData, entry: nat, pixels: seq<uint8>)
    requires RowsFit(d) && RowsDecoded(f, d, entry, d.height, pixels)
    ensures DecodedImage(f, d, entry, pixels)
  {
    forall row | 0 <= row < d.height
      ensures BufferRow(d, pixels, row)
              == PaddedRow(f, RowScan(f, d, entry, d.height - 1 - row).cursor, d.rowUnpadded)
    {
      assert Slot(d, d.height - 1 - row) == Mul(row, d.rowUnpadded);
    }
  }

  /** What the pixel stage demands of the caller of `bmp_ReadImage`. */
  predicate PixelStageCallable(d: BmpData, heap: nat)
  {
    d.offset != 0 && AllocRequest(d) <= heap ==> RowsFit(d)
  }

  /** Allocates the buffer (`heap` is the largest request `calloc` grants),
      reads the rows bottom-up and keeps the buffer for 8, 4 and 1 bpp. */
  function PixelStage(f: File, d: BmpData, entry: nat, heap: nat): (r: Outcome)
    requires PixelStageCallable(d, heap)
    ensures r.status in {BMP_OK, BMP_ERR_READ, BMP_ERR_MEM, BMP_ERR_BPP}
    ensures r.bmp == d.(pixels := r.bmp.pixels)
    ensures d.offset == 0 ==> r == Outcome(BMP_ERR_READ, d, entry)
    ensures r.status == BMP_ERR_MEM <==> d.offset != 0 && AllocRequest(d) > heap
    ensures r.status == BMP_OK <==>
              d.offset != 0 && AllocRequest(d) <= heap && RowScan(f, d, entry, d.height).ok && DecodedDepth(d.bpp)
    ensures r.status == BMP_ERR_BPP <==>
              d.offset != 0 && AllocRequest(d) <= heap && RowScan(f, d, entry, d.height).ok && !DecodedDepth(d.bpp)
    ensures r.status == BMP_ERR_MEM ==> r.bmp.pixels.Null?
    ensures d.offset != 0 && r.status in {BMP_ERR_READ, BMP_ERR_BPP} ==> r.bmp.pixels.Freed?
    ensures r.status == BMP_OK ==> r.bmp.pixels.Held? && |r.bmp.pixels.value| == AllocRequest(d)
  {
    if d.offset == 0 then Outcome(BMP_ERR_READ, d, entry)
    else if AllocRequest(d) > heap then Outcome(BMP_ERR_MEM, d.(pixels := Null), entry)
    else
      var rows := DecodeRows(f, d, entry, d.height);
      var s := RowScan(f, d, entry, d.height);
      if rows.None? then Outcome(BMP_ERR_READ, d.(pixels := Freed), s.cursor)
      else if DecodedDepth(d.bpp) then Outcome(BMP_OK, d.(pixels := Held(rows.value)), s.cursor)
      else Outcome(BMP_ERR_BPP, d.(pixels := Freed), s.cursor)
  }

  /** The buffer the stage hands back is the image top-down: buffer row `row`
      holds file row `height - 1 - row`, with zeros past the last row. */
  lemma PixelStageImage(f: File, d: BmpData, entry: nat, heap: nat)
    requires PixelStageCallable(d, heap)
    ensures var r := PixelStage(f, d, entry, heap);
            r.status == BMP_OK ==> DecodedImage(f, d, entry, r.bmp.pixels.value)
  {
    if PixelStage(f, d, entry, heap).status == BMP_OK {
      DecodedRows(f, d, entry, d.height, DecodeRows(f, d, entry, d.height).value);
      TopDown(f, d, entry, DecodeRows(f, d, entry, d.height).value);
    }
  }

  /** One pass of the row loop, in terms of the stage's result: a failed row
      ends the stage with that row's cursor, a good one extends the buffer. */
  lemma LoopStep(f: File, d: BmpData, entry: nat, i: nat, pos: nat, buf: seq<uint8>)
    requires i < d.height && RowsFit(d)
    requires RowScan(f, d, entry, i) == Scan(true, pos) && DecodeRows(f, d, entry, i) == Some(buf)
    ensures RowScan(f, d, entry, i + 1) == RowStep(f, d, pos)
    ensures !RowStep(f, d, pos).ok ==>
              RowScan(f, d, entry, d.height) == RowStep(f, d, pos) && DecodeRows(f, d, entry, d.height).None?
    ensures RowStep(f, d, pos).ok ==>
              DecodeRows(f, d, entry, i + 1) == Some(Splice(buf, Slot(d, i), ReadBytes(f, pos, d.rowUnpadded)))
  {
    if !RowStep(f, d, pos).ok {
      LoopFails(f, d, entry, i, pos);
    } else {
      LoopExtends(f, d, entry, i, pos, buf);
    }
  }

  lemma LoopFails(f: File, d: BmpData, entry: nat, i: nat, pos: nat)
    requires i < d.height && RowsFit(d)
    requires RowScan(f, d, entry, i) == Scan(true, pos) && !RowStep(f, d, pos).ok
    ensures RowScan(f, d, entry, d.height) == RowStep(f, d, pos) && DecodeRows(f, d, entry, d.height).None?
  {
    assert RowScan(f, d, entry, i + 1) == RowStep(f, d, pos);
    FailureSticks(f, d, entry, i + 1, d.height);
  }

  lemma LoopExtends(f: File, d: BmpData, entry: nat, i: nat, pos: nat, buf: seq<uint8>)
    requires i < d.height && RowsFit(d)
    requires RowScan(f, d, entry, i) == Scan(true, pos) && DecodeRows(f, d, entry, i) == Some(buf)
    requires RowStep(f, d, pos).ok
    ensures DecodeRows(f, d, entry, i + 1) == Some(Splice(buf, Slot(d, i), ReadBytes(f, pos, d.rowUnpadded)))
  {
  }

  /** The next slot is one unpadded row lower in the buffer. */
  lemma SlotDown(d: BmpData, i: nat)
    requires 0 < i < d.height
    ensures Slot(d, i) == Slot(d, i - 1) - d.rowUnpadded
  {
  }

  /** The row loop of the pixel stage, walking a buffer offset down from the
      last row as the source walks `bmp_ptr`. */
  method ReadPixelRows(f: File, d: BmpData, entry: nat, heap: nat) returns (r: Outcome)
    requires PixelStageCallable(d, heap)
    ensures r == PixelStage(f, d, entry, heap)
  {
    if d.offset == 0 {
      return Outcome(BMP_ERR_READ, d, entry);
    }
    var request := AllocRequest(d);
    if request > heap {
      return Outcome(BMP_ERR_MEM, d.(pixels := Null), entry);
    }
    var buf := Zeros(request);
    var dst: int := if d.height == 0 then 0 else Mul(d.height - 1, d.rowUnpadded);
    var pos: nat := DataStart(d, entry);
    var i: nat := 0;
    while i < d.height
      invariant i <= d.height
      invariant RowScan(f, d, entry, i) == Scan(true, pos)
      invariant DecodeRows(f, d, entry, i) == Some(buf)
      invariant i < d.height ==> dst == Slot(d, i)
    {
      LoopStep(f, d, entry, i, pos, buf);
      var bytes := ReadBytes(f, pos, d.rowUnpadded);
      if |bytes| < 1 {
        return Outcome(BMP_ERR_READ, d.(pixels := Freed), pos);
      }
      buf := Splice(buf, dst, bytes);
      dst := dst - d.rowUnpadded;
      var next := pos + |bytes| + PaddingSkip(d);
      if |bytes| != d.rowUnpadded {
        if next < 0 {
            return Outcome(BMP_ERR_READ, d.(pixels := Freed), pos + |bytes|);
        }
        pos := next;
      } else if d.rowPadded != d.rowUnpadded && next >= 0 {
        pos := next;
      } else {
        pos := pos + |bytes|;
      }
      i := i + 1;
      if i < d.height {
        SlotDown(d, i);
      }
    }
    if DecodedDepth(d.bpp) {
      return Outcome(BMP_OK, d.(pixels := Held(buf)), pos);
    }
    return Outcome(BMP_ERR_BPP, d.(pixels := Freed), pos);
  }

  // ---------------------------------------------------------------------------
  // What the pixel stage does with particular geometries
  // ---------------------------------------------------------------------------

  /** A zero-filled structure, as a fresh `bmpdata_t`. */
  function Blank(): BmpData
  {
    BmpData(0, 0, 0, 0, 0, 0, 0, 0, 0, 0, 0, 0, 0, seq(PALETTE_ENTRIES, _ => PalEntry(0, 0, 0, 0)), Null)
  }

  /** `bytespp = bpp >> 3` is zero at 4 bpp, so rows and buffer are empty. */
  lemma FourBitRowsEmpty(d: BmpData)
    requires d.bpp == BMP_4BPP
    ensures var r := Geometry(d);
            r.bytespp == 0 && r.rowUnpadded == 0 && r.rowPadded == 0 && r.size == 0 && AllocRequest(r) == 0
  {
  }

  /** A row of zero bytes is a read of fewer than one record: the loop stops at
      its first row without moving the stream. */
  lemma {:induction false} ZeroStrideFails(f: File, d: BmpData, entry: nat)
    requires d.rowUnpadded == 0 && d.height >= 1
    ensures RowScan(f, d, entry, d.height) == Scan(false, DataStart(d, entry))
  {
    assert RowScan(f, d, entry, 1) == RowStep(f, d, DataStart(d, entry));
    FailureSticks(f, d, entry, 1, d.height);
  }

  /** Hence a 4 bpp image with at least one row never loads: the header stage
      accepts it and the pixel stage reports a read error. */
  lemma FourBitNeverLoads(f: File, d: BmpData, entry: nat, heap: nat)
    requires d.bpp == BMP_4BPP && d == Geometry(d) && d.offset != 0 && d.height >= 1
    ensures PixelStageCallable(d, heap)
    ensures PixelStage(f, d, entry, heap) == Outcome(BMP_ERR_READ, d.(pixels := Freed), DataStart(d, entry))
  {
    FourBitRowsEmpty(d);
    MulIsProduct(d.height, 0);
    ZeroStrideFails(f, d, entry);
  }

  /** At 1 bpp the buffer holds `ceil(width * height / 8)` bytes but the loop
      copies `height` rows of `ceil(width / 8)` bytes: a 1x8 image already
      needs eight bytes of a one-byte buffer. */
  lemma OneBitBufferShort()
    ensures var d := Geometry(Blank().(width := 1, height := 8, bpp := BMP_1BPP));
            d.rowUnpadded == 1 && AllocRequest(d) == 1 && !RowsFit(d)
  {
    var d := Geometry(Blank().(width := 1, height := 8, bpp := BMP_1BPP));
    MulIsProduct(8, 1);
    assert Mul(d.height, d.rowUnpadded) == 8;
  }

  /** At 1 bpp `row_padded = 4 * ceil(width / 4) / 8` can fall below
      `row_unpadded`: at width 9 the padding skip is -1 and each full row is
      followed by a seek one byte back. */
  lemma OneBitStrideShort(f: File, p: nat)
    requires p + 2 <= |f|
    ensures var d := Geometry(Blank().(width := 9, height := 1, bpp := BMP_1BPP));
            d.rowPadded == 1 && d.rowUnpadded == 2 && PaddingSkip(d) == -1
            && RowStep(f, d, p) == Scan(true, p + 1)
  {
  }

  /** A file whose rows are where the header says: the data offset is a
      non-negative `long`, rows are non-empty, the padding skip is a forward
      seek, and all `height` padded rows lie inside the file. */
  predicate WellFormedRows(f: File, d: BmpData)
  {
    && 0 < d.offset < TWO_31
    && 1 <= d.rowUnpadded <= d.rowPadded
    && d.rowPadded - d.rowUnpadded < TWO_31
    && d.offset + Mul(d.height, d.rowPadded) <= |f|
  }

  /** File position of file row `j`. */
  function RowStart(d: BmpData, j: nat): nat
  {
    d.offset + Mul(j, d.rowPadded)
  }

  /** In a well-formed file every row is read whole and followed by its padding,
      so file row `k` starts `k` padded rows after the data offset. */
  lemma {:induction false} WellFormedScan(f: File, d: BmpData, entry: nat, k: nat)
    requires WellFormedRows(f, d) && k <= d.height
    ensures RowScan(f, d, entry, k) == Scan(true, RowStart(d, k))
  {
    if k > 0 {
      WellFormedScan(f, d, entry, k - 1);
      MulAscending(k, d.height, d.rowPadded);
      var p := RowStart(d, k - 1);
      assert p + d.rowPadded == RowStart(d, k);
      assert Available(f, p, d.rowUnpadded) == d.rowUnpadded;
      assert PaddingSkip(d) == d.rowPadded - d.rowUnpadded;
    }
  }

  /** The unpadded bytes of file row `j` of a well-formed file. */
  function FileRowBytes(f: File, d: BmpData, j: nat): (row: seq<uint8>)
    requires WellFormedRows(f, d) && j < d.height
    ensures |row| == d.rowUnpadded
  {
    MulAscending(j + 1, d.height, d.rowPadded);
    f[RowStart(d, j)..RowStart(d, j) + d.rowUnpadded]
  }

  /** A row that lies inside the file is copied verbatim. */
  lemma WellFormedRow(f: File, d: BmpData, entry: nat, j: nat)
    requires WellFormedRows(f, d) && j < d.height
    ensures FileRow(f, d, entry, j) == FileRowBytes(f, d, j)
  {
    WellFormedScan(f, d, entry, j);
    MulAscending(j + 1, d.height, d.rowPadded);
    var row := FileRow(f, d, entry, j);
    var want := FileRowBytes(f, d, j);
    forall i | 0 <= i < d.rowUnpadded
      ensures row[i] == want[i]
    {
    }
  }

  /** Decoding a well-formed file of a decoded depth succeeds and leaves the
      stream after the last row. */
  lemma WellFormedStatus(f: File, d: BmpData, entry: nat, heap: nat)
    requires WellFormedRows(f, d) && RowsFit(d) && AllocRequest(d) <= heap && DecodedDepth(d.bpp)
    ensures PixelStageCallable(d, heap)
    ensures var r := PixelStage(f, d, entry, heap);
            r.status == BMP_OK && r.cursor == RowStart(d, d.height) && r.bmp.pixels.Held?
  {
    WellFormedScan(f, d, entry, d.height);
  }

  /** In the decoded buffer of a well-formed file, buffer row `row` (from the
      top) is the unpadded part of file row `height - 1 - row`. */
  lemma {:induction false} WellFormedImage(f: File, d: BmpData, entry: nat, heap: nat)
    requires WellFormedRows(f, d) && RowsFit(d) && AllocRequest(d) <= heap && DecodedDepth(d.bpp)
    ensures PixelStageCallable(d, heap)
    ensures var r := PixelStage(f, d, entry, heap);
            && r.status == BMP_OK && r.bmp.pixels.Held?
            && forall row :: 0 <= row < d.height ==>
                 BufferRow(d, r.bmp.pixels.value, row) == FileRowBytes(f, d, d.height - 1 - row)
  {
    WellFormedStatus(f, d, entry, heap);
    PixelStageImage(f, d, entry, heap);
    var r := PixelStage(f, d, entry, heap);
    WellFormedBuffer(f, d, entry, r.bmp.pixels.value);
  }

  /** Any buffer decoded from a well-formed file holds the file's rows, bottom row first. */
  lemma {:induction false} WellFormedBuffer(f: File, d: BmpData, entry: nat, pixels: seq<uint8>)
    requires WellFormedRows(f, d) && DecodedImage(f, d, entry, pixels)
    ensures forall row :: 0 <= row < d.height ==>
              BufferRow(d, pixels, row) == FileRowBytes(f, d, d.height - 1 - row)
  {
    forall row | 0 <= row < d.height
      ensures BufferRow(d, pixels, row) == FileRowBytes(f, d, d.height - 1 - row)
    {
      WellFormedRow(f, d, entry, d.height - 1 - row);
    }
  }

  // ---------------------------------------------------------------------------
  // bmp_ReadImage and its wrappers
  // ---------------------------------------------------------------------------

  function AfterHeader(f: File, d: BmpData, entry: nat, header: bool): Outcome
  {
    if header then HeaderStage(f, d) else Outcome(BMP_OK, d, entry)
  }

  /** What the stages that will run demand of their input. */
  predicate ImageCallable(f: File, d: BmpData, entry: nat, header: bool, palette: bool, data: bool, heap: nat)
  {
    var h := AfterHeader(f, d, entry, header);
    && (palette && h.status == BMP_OK && h.bmp.coloursOffset != 0 ==> h.bmp.colours <= PALETTE_ENTRIES)
    && (data && h.status == BMP_OK ==>
          var p := if palette then PaletteStage(f, h.bmp, h.cursor) else h;
          p.status == BMP_OK ==> PixelStageCallable(p.bmp, heap))
  }

  /** Runs the selected stages in order and returns the first failure.  Each
      stage starts from the structure and the stream position the one
      before left; a failing stage's outcome is the call's outcome. */
  function ReadImage(f: File, d: BmpData, entry: nat, header: bool, palette: bool, data: bool, heap: nat): (r: Outcome)
    requires ImageCallable(f, d, entry, header, palette, data, heap)
    ensures header && HeaderStage(f, d).status != BMP_OK ==> r == HeaderStage(f, d)
    ensures var h := AfterHeader(f, d, entry, header);
            h.status == BMP_OK && palette && PaletteStage(f, h.bmp, h.cursor).status != BMP_OK ==>
              r == PaletteStage(f, h.bmp, h.cursor)
    ensures var h := AfterHeader(f, d, entry, header);
            var p := if palette && h.status == BMP_OK then PaletteStage(f, h.bmp, h.cursor) else h;
            h.status == BMP_OK && p.status == BMP_OK && data ==>
              && r == PixelStage(f, p.bmp, p.cursor, heap)
              && (r.status == BMP_OK ==> DecodedImage(f, p.bmp, p.cursor, r.bmp.pixels.value))
    ensures !header && !palette && !data ==> r == Outcome(BMP_OK, d, entry)
    ensures var h := AfterHeader(f, d, entry, header);
            h.status == BMP_OK && !palette && !data ==> r == h
    ensures var h := AfterHeader(f, d, entry, header);
            h.status == BMP_OK && palette && PaletteStage(f, h.bmp, h.cursor).status == BMP_OK && !data ==>
              r == PaletteStage(f, h.bmp, h.cursor)
    ensures r.status == BMP_OK ==>
              && (header ==> HeaderStage(f, d).status == BMP_OK)
              && (palette ==> r.bmp.coloursOffset != 0)
              && (data ==> r.bmp.pixels.Held? && DecodedDepth(r.bmp.bpp))
              && (!data ==> r.bmp.pixels == d.pixels)
  {
    var h := AfterHeader(f, d, entry, header);
    if h.status != BMP_OK then h
    else
      var p := if palette then PaletteStage(f, h.bmp, h.cursor) else h;
      if p.status != BMP_OK then p
      else if data then PixelStageImage(f, p.bmp, p.cursor, heap); PixelStage(f, p.bmp, p.cursor, heap)
      else p
  }

  /** `bmp_ReadImageHeader`: the header alone, leaving colours and pixels. */
  function ReadImageHeader(f: File, d: BmpData, entry: nat): (r: Outcome)
    ensures r == HeaderStage(f, d)
    ensures r.bmp.palette == d.palette && r.bmp.pixels == d.pixels
    ensures r.status == BMP_OK <==>
              COLOUR_NUM_OFFSET + 4 <= |f| && SupportedDepth(Field16(f, BITS_PER_PIXEL_OFFSET))
              && f[COMPRESS_OFFSET] == BMP_UNCOMPRESSED
    ensures r.status == BMP_OK ==> HeaderFieldsFrom(f, r.bmp)
  {
    ReadImage(f, d, entry, true, false, false, 0)
  }

  /** `bmp_ReadImagePalette`: the colour table alone; nothing but the palette changes. */
  function ReadImagePalette(f: File, d: BmpData, entry: nat): (r: Outcome)
    requires d.coloursOffset != 0 ==> d.colours <= PALETTE_ENTRIES
    ensures r == PaletteStage(f, d, entry)
    ensures r.bmp == d.(palette := r.bmp.palette)
    ensures r.status == BMP_OK <==>
              d.coloursOffset != 0 && forall j :: 0 <= j < d.colours ==> EntryReadable(f, d.coloursOffset, j)
  {
    ReadImage(f, d, entry, false, true, false, 0)
  }

  /** `bmp_ReadImageData`: the pixels alone; header fields and palette stay. */
  function ReadImageData(f: File, d: BmpData, entry: nat, heap: nat): (r: Outcome)
    requires PixelStageCallable(d, heap)
    ensures r == PixelStage(f, d, entry, heap)
    ensures r.bmp == d.(pixels := r.bmp.pixels)
    ensures r.status == BMP_OK ==> r.bmp.pixels.Held? && DecodedImage(f, d, entry, r.bmp.pixels.value)
  {
    ReadImage(f, d, entry, false, false, true, heap)
  }
}
