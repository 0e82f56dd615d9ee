/*******************************************************************************
 *  The off-screen framebuffer of the launcher (gfx.c / gfx.h): address
 *  computation, filled and outlined boxes, bitmap blits and text output into
 *  the 640 x 400 byte array that is later copied to video memory.
 *******************************************************************************/

/** `gfx_GetXYaddr`, `gfx_BoxFill`, `gfx_Box`, `gfx_Bitmap` and `gfx_Puts`,
    on the buffer `vram_buffer[640 * 400]` (one byte per pixel).

    The routines walk a pointer `vram` through the buffer; here the pointer is
    an integer offset.  Writing outside the buffer is undefined behaviour, so
    each routine requires that every byte it writes (and reads) lies inside
    its array.  Each routine is checked against a reference definition that
    writes the same bytes band by band (`Bands`, `Outline`, `Blit`, `Text`);
    lemmas then say which screen bytes end up with which value. */
module Gfx {
  import opened Base
  import opened Bmp
  import opened Font

  const COLS: nat := 640
  const ROWS: nat := 400
  const VRAM_SIZE: nat := 640 * 400
  const VRAM_START: nat := 0xC0_0000

  const GFX_ERR_UNSUPPORTED_BPP: int := -254
  const GFX_ERR_MISSING_BMPHEADER: int := -253
  const GFX_TEXT_OK: int := -252
  const GFX_TEXT_INVALID: int := -251

  type Vram = v: seq<uint8> | |v| == VRAM_SIZE
    witness seq(640 * 400, _ => 0)

  // ---------------------------------------------------------------------------
  // gfx_GetXYaddr
  // ---------------------------------------------------------------------------

  /** `addr = 640 * y + x` in `unsigned int`. */
  lemma AddrWraps(x: int, y: int)
    requires Int32(x) && Int32(640 * y)
    ensures var v := 640 * y + x;
            Wrap32(Wrap32(640 * y) + x) == if v < 0 then v + TWO_32 else v
  {
    Wrap32Near(640 * y);
    Wrap32Near(Wrap32(640 * y) + x);
    Wrap32Near(640 * y + x);
  }

  /** `gfx_GetXYaddr`: the offset of pixel (x, y), computed in `unsigned int`
      and rejected (-1) when `0xC00000 + addr` lies past `0xC00000 + 640*400`;
      the accepted value is returned as an `int`.  An offset of exactly
      `640 * 400`, one past the buffer, is accepted; an `int`-sized negative
      offset comes back as a negative number, which callers reject. */
  function GetXYaddr(x: int, y: int): (r: int)
    requires Int32(x) && Int32(y) && Int32(640 * y)
    ensures r >= 0 <==> Wrap32(640 * y + x) <= VRAM_SIZE
    ensures r >= 0 ==> r == Wrap32(640 * y + x)
    ensures r < 0 ==> r == -1 || r == ToSigned32(Wrap32(640 * y + x))
    ensures Int32(640 * y + x) ==> (r >= 0 <==> 0 <= 640 * y + x <= VRAM_SIZE) && (r >= 0 ==> r == 640 * y + x)
  {
    var addr := Wrap32(Wrap32(640 * y) + x);
    AddrWraps(x, y);
    Wrap32Near(VRAM_START + addr);
    if Wrap32(VRAM_START + addr) > VRAM_START + VRAM_SIZE then -1 else ToSigned32(addr)
  }

  // ---------------------------------------------------------------------------
  // Byte runs: the inner loops and memcpy
  // ---------------------------------------------------------------------------

  /** `n` bytes of colour `c` from offset `at`. */
  function FillRange(v: Vram, at: int, n: int, c: uint8): (r: Vram)
    requires n <= 0 || (0 <= at && at + n <= VRAM_SIZE)
    ensures forall a :: 0 <= a < VRAM_SIZE ==> r[a] == if at <= a < at + n then c else v[a]
  {
    seq(VRAM_SIZE, a requires 0 <= a < VRAM_SIZE => if at <= a < at + n then c else v[a])
  }

  /** `memcpy(vram + at, src + from, n)`. */
  function CopyRange(v: Vram, at: int, src: seq<uint8>, from: int, n: int): (r: Vram)
    requires n <= 0 || (0 <= at && at + n <= VRAM_SIZE && 0 <= from && from + n <= |src|)
    ensures forall a :: 0 <= a < VRAM_SIZE ==> r[a] == if at <= a < at + n then src[from + (a - at)] else v[a]
  {
    seq(VRAM_SIZE, a requires 0 <= a < VRAM_SIZE => if at <= a < at + n then src[from + (a - at)] else v[a])
  }

  /** `for (col = x1; col <= x2; col++) *vram++ = palette;` from offset `at`. */
  method FillRun(v: Vram, at: int, n: int, c: uint8) returns (r: Vram)
    requires n <= 0 || (0 <= at && at + n <= VRAM_SIZE)
    ensures r == FillRange(v, at, n, c)
  {
    r := v;
    var i := 0;
    while i < n
      invariant 0 <= i && (n <= 0 ==> i == 0) && (n > 0 ==> i <= n)
      invariant forall a :: 0 <= a < VRAM_SIZE ==> r[a] == if at <= a < at + i then c else v[a]
    {
      r := r[at + i := c];
      i := i + 1;
    }
    assert r == FillRange(v, at, n, c);
  }

  /** `memcpy`, a byte at a time. */
  method CopyRun(v: Vram, at: int, src: seq<uint8>, from: int, n: int) returns (r: Vram)
    requires n <= 0 || (0 <= at && at + n <= VRAM_SIZE && 0 <= from && from + n <= |src|)
    ensures r == CopyRange(v, at, src, from, n)
  {
    r := v;
    var i := 0;
    while i < n
      invariant 0 <= i && (n <= 0 ==> i == 0) && (n > 0 ==> i <= n)
      invariant forall a :: 0 <= a < VRAM_SIZE ==> r[a] == if at <= a < at + i then src[from + (a - at)] else v[a]
    {
      r := r[at + i := src[from + i]];
      i := i + 1;
    }
    assert r == CopyRange(v, at, src, from, n);
  }

  // ---------------------------------------------------------------------------
  // gfx_BoxFill
  // ---------------------------------------------------------------------------

  /** Corners after the swaps and the clipping that `gfx_Box` and
      `gfx_BoxFill` apply: reversed corners are exchanged, then only a right
      edge past 640 or a bottom edge past 400 is pulled back, to 639 and 399.
      An edge of exactly 640 or 400 stays. */
  datatype Box = Box(x1: int, y1: int, x2: int, y2: int)

  function Normalise(x1: int, y1: int, x2: int, y2: int): (b: Box)
    ensures b.x1 == Min(x1, x2) && b.y1 == Min(y1, y2)
    ensures b.x2 == (if Max(x1, x2) > COLS then COLS - 1 else Max(x1, x2))
    ensures b.y2 == (if Max(y1, y2) > ROWS then ROWS - 1 else Max(y1, y2))
  {
    var (ya, yb) := if y1 > y2 then (y2, y1) else (y1, y2);
    var (xa, xb) := if x1 > x2 then (x2, x1) else (x1, x2);
    var xc := if xb > COLS then COLS - 1 else xb;
    var yc := if yb > ROWS then ROWS - 1 else yb;
    Box(xa, ya, xc, yc)
  }

  /** Without clipping, the corners come out ordered and span the same box. */
  lemma NormaliseOrders(x1: int, y1: int, x2: int, y2: int)
    requires Max(x1, x2) <= COLS && Max(y1, y2) <= ROWS
    ensures var b := Normalise(x1, y1, x2, y2);
            b.x1 <= b.x2 && b.y1 <= b.y2 && {b.x1, b.x2} == {x1, x2} && {b.y1, b.y2} == {y1, y2}
  {
  }

  /** Whether offset `a` lies in band `i`: the `w` bytes from `start + 640 * i`. */
  predicate InBand(a: int, start: int, i: int, w: int)
  {
    start + 640 * i <= a < start + 640 * i + w
  }

  /** Every byte of `n` bands of width `w`, 640 bytes apart, lies inside the buffer. */
  predicate BandsFit(start: int, n: int, w: int)
  {
    n <= 0 || w <= 0 || (0 <= start && start + 640 * (n - 1) + w <= VRAM_SIZE)
  }

  /** The reference fill: bands `0 .. n-1` painted in order. */
  function Bands(v: Vram, start: int, n: int, w: int, c: uint8): Vram
    requires BandsFit(start, n, w)
    decreases n
  {
    if n <= 0 || w <= 0 then v
    else FillRange(Bands(v, start, n - 1, w, c), start + 640 * (n - 1), w, c)
  }

  /** The bands are painted: every byte of every band holds the colour. */
  lemma {:induction false} BandsCover(v: Vram, start: int, n: int, w: int, c: uint8, i: int, j: int)
    requires BandsFit(start, n, w) && 0 <= i < n && 0 <= j < w
    ensures 0 <= start + 640 * i + j < VRAM_SIZE
    ensures Bands(v, start, n, w, c)[start + 640 * i + j] == c
    decreases n
  {
    if i < n - 1 {
      BandsCover(v, start, n - 1, w, c, i, j);
    }
  }

  /** Nothing outside the bands changes. */
  lemma {:induction false} BandsFrame(v: Vram, start: int, n: int, w: int, c: uint8, a: int)
    requires BandsFit(start, n, w) && 0 <= a < VRAM_SIZE
    requires forall i :: 0 <= i < n ==> !InBand(a, start, i, w)
    ensures Bands(v, start, n, w, c)[a] == v[a]
    decreases n
  {
    if n > 0 && w > 0 {
      assert !InBand(a, start, n - 1, w);
      BandsFrame(v, start, n - 1, w, c, a);
    }
  }

  /** What `gfx_BoxFill` demands: coordinates that are C `int`s, and every
      byte it writes inside the buffer. */
  predicate BoxCallable(x1: int, y1: int, x2: int, y2: int)
  {
    var b := Normalise(x1, y1, x2, y2);
    && Int32(x1) && Int32(y1) && Int32(x2) && Int32(y2) && Int32(640 * b.y1)
    && (GetXYaddr(b.x1, b.y1) >= 0 ==> BandsFit(GetXYaddr(b.x1, b.y1), b.y2 - b.y1 + 1, b.x2 - b.x1 + 1))
  }

  /** `gfx_BoxFill`: -1 and no write when the top-left corner is rejected;
      otherwise rows `y1..y2` are painted over columns `x1..x2`, since each
      row's `step` brings the pointer back to column `x1` one row down. */
  method BoxFill(v: Vram, x1: int, y1: int, x2: int, y2: int, c: uint8) returns (ret: int, r: Vram)
    requires BoxCallable(x1, y1, x2, y2)
    ensures var b := Normalise(x1, y1, x2, y2);
            && (ret == -1 <==> GetXYaddr(b.x1, b.y1) < 0)
            && (ret == -1 ==> r == v)
            && (ret != -1 ==> ret == 0 && r == Bands(v, GetXYaddr(b.x1, b.y1), b.y2 - b.y1 + 1, b.x2 - b.x1 + 1, c))
  {
    var b := Normalise(x1, y1, x2, y2);
    var start := GetXYaddr(b.x1, b.y1);
    if start < 0 {
      return -1, v;
    }
    var n := b.y2 - b.y1 + 1;
    var w := b.x2 - b.x1 + 1;
    var step := (COLS - b.x2) + (b.x1 - 1);
    r := v;
    var p := start;
    var row := b.y1;
    while row <= b.y2
      invariant b.y1 <= row && row - b.y1 <= (if n > 0 then n else 0)
      invariant w > 0 ==> p == start + 640 * (row - b.y1)
      invariant r == Bands(v, start, row - b.y1, w, c)
    {
      r := FillRun(r, p, w, c);
      if w > 0 {
        p := p + w;
      }
      p := p + step;
      row := row + 1;
    }
    return 0, r;
  }

  // ---------------------------------------------------------------------------
  // gfx_Box
  // ---------------------------------------------------------------------------

  /** The side loop: for `k` in `0 .. m-1`, a byte at `first + 640 * k` and
      one `d = x2 - x1` further on. */
  predicate SidesFit(first: int, m: int, d: int)
  {
    m <= 0 || (0 <= first && 0 <= first + d && first + 640 * (m - 1) < VRAM_SIZE && first + 640 * (m - 1) + d < VRAM_SIZE)
  }

  function Sides(v: Vram, first: int, m: int, d: int, c: uint8): Vram
    requires SidesFit(first, m, d)
    decreases m
  {
    if m <= 0 then v
    else
      var a := first + 640 * (m - 1);
      Sides(v, first, m - 1, d, c)[a := c][a + d := c]
  }

  /** Rows strictly between the top and bottom edge that the side loop runs
      over (`row = y1; row < y2 - 1`): `y2 - y1 - 1`, or none. */
  function SideRows(b: Box): int
  {
    if b.y2 - 1 - b.y1 > 0 then b.y2 - 1 - b.y1 else 0
  }

  /** Where the pointer stands after the top edge and the jump to the next
      line: column `x1` of the next row when the top edge is drawn, further
      on when the clipped corners leave it empty. */
  function FirstSide(start: int, b: Box): int
  {
    var w := b.x2 - b.x1 + 1;
    start + (if w > 0 then w else 0) + (COLS - b.x2) + (b.x1 - 1)
  }

  predicate OutlineFits(start: int, b: Box)
  {
    var w := b.x2 - b.x1 + 1;
    var m := SideRows(b);
    && (w <= 0 || (0 <= start && start + w <= VRAM_SIZE))
    && SidesFit(FirstSide(start, b), m, b.x2 - b.x1)
    && (w <= 0 || (0 <= start + 640 * (m + 1) && start + 640 * (m + 1) + w <= VRAM_SIZE))
  }

  /** The reference outline: top edge, side pixels, bottom edge, in that order. */
  function Outline(v: Vram, start: int, b: Box, c: uint8): Vram
    requires OutlineFits(start, b)
  {
    var w := b.x2 - b.x1 + 1;
    var m := SideRows(b);
    var top := FillRange(v, start, w, c);
    var sides := Sides(top, FirstSide(start, b), m, b.x2 - b.x1, c);
    FillRange(sides, start + 640 * (m + 1), w, c)
  }

  predicate OutlineCallable(x1: int, y1: int, x2: int, y2: int)
  {
    var b := Normalise(x1, y1, x2, y2);
    && Int32(x1) && Int32(y1) && Int32(x2) && Int32(y2) && Int32(640 * b.y1)
    && (GetXYaddr(b.x1, b.y1) >= 0 ==> OutlineFits(GetXYaddr(b.x1, b.y1), b))
  }

  /** The side loop of `gfx_Box`, from the pointer `first`. */
  method SideRun(v: Vram, first: int, m: int, d: int, c: uint8) returns (r: Vram)
    requires SidesFit(first, m, d)
    ensures r == Sides(v, first, m, d, c)
  {
    r := v;
    var p := first;
    var k := 0;
    while k < m
      invariant 0 <= k && (m <= 0 ==> k == 0) && (m > 0 ==> k <= m) && p == first + 640 * k
      invariant r == Sides(v, first, k, d, c)
    {
      r := r[p := c];
      p := p + d;
      r := r[p := c];
      p := p + (COLS - d);
      k := k + 1;
    }
  }

  /** `gfx_Box`. */
  method DrawBox(v: Vram, x1: int, y1: int, x2: int, y2: int, c: uint8) returns (ret: int, r: Vram)
    requires OutlineCallable(x1, y1, x2, y2)
    ensures var b := Normalise(x1, y1, x2, y2);
            && (ret == -1 <==> GetXYaddr(b.x1, b.y1) < 0)
            && (ret == -1 ==> r == v)
            && (ret != -1 ==> ret == 0 && r == Outline(v, GetXYaddr(b.x1, b.y1), b, c))
  {
    var b := Normalise(x1, y1, x2, y2);
    var start := GetXYaddr(b.x1, b.y1);
    if start < 0 {
      return -1, v;
    }
    var w := b.x2 - b.x1 + 1;
    var m := SideRows(b);
    r := FillRun(v, start, w, c);
    r := SideRun(r, FirstSide(start, b), m, b.x2 - b.x1, c);
    var p := FirstSide(start, b) + 640 * m;
    r := FillRun(r, p, w, c);
    return 0, r;
  }

  /** `gfx_BoxFill` in screen terms: when the corner offset is the plain
      `640 * y1 + x1`, every pixel of rows `y1..y2` and columns `x1..x2` of the
      normalised box holds the colour. */
  lemma BoxFillPaints(v: Vram, x1: int, y1: int, x2: int, y2: int, c: uint8, x: int, y: int)
    requires BoxCallable(x1, y1, x2, y2)
    requires var b := Normalise(x1, y1, x2, y2);
             GetXYaddr(b.x1, b.y1) >= 0 && 0 <= 640 * b.y1 + b.x1
             && b.x1 <= x <= b.x2 && b.y1 <= y <= b.y2
    ensures var b := Normalise(x1, y1, x2, y2);
            var r := Bands(v, GetXYaddr(b.x1, b.y1), b.y2 - b.y1 + 1, b.x2 - b.x1 + 1, c);
            0 <= 640 * y + x < VRAM_SIZE && r[640 * y + x] == c
  {
    var b := Normalise(x1, y1, x2, y2);
    assert Wrap32(640 * b.y1 + b.x1) == 640 * b.y1 + b.x1;
    BandsCover(v, GetXYaddr(b.x1, b.y1), b.y2 - b.y1 + 1, b.x2 - b.x1 + 1, c, y - b.y1, x - b.x1);
  }

  /** ... and, for a box inside the screen's columns, no pixel outside those
      rows and columns changes. */
  lemma BoxFillFrame(v: Vram, x1: int, y1: int, x2: int, y2: int, c: uint8, x: int, y: int)
    requires BoxCallable(x1, y1, x2, y2)
    requires var b := Normalise(x1, y1, x2, y2);
             GetXYaddr(b.x1, b.y1) >= 0 && 0 <= b.x1 && 0 <= 640 * b.y1 + b.x1 && b.x2 < COLS
             && 0 <= x < COLS && 0 <= y && 640 * y + x < VRAM_SIZE && !(b.x1 <= x <= b.x2 && b.y1 <= y <= b.y2)
    ensures var b := Normalise(x1, y1, x2, y2);
            var r := Bands(v, GetXYaddr(b.x1, b.y1), b.y2 - b.y1 + 1, b.x2 - b.x1 + 1, c);
            r[640 * y + x] == v[640 * y + x]
  {
    var b := Normalise(x1, y1, x2, y2);
    var start := GetXYaddr(b.x1, b.y1);
    var n := b.y2 - b.y1 + 1;
    var w := b.x2 - b.x1 + 1;
    var a := 640 * y + x;
    assert Wrap32(640 * b.y1 + b.x1) == 640 * b.y1 + b.x1;
    assert start == 640 * b.y1 + b.x1;
    forall i | 0 <= i < n
      ensures !InBand(a, start, i, w)
    {
      if InBand(a, start, i, w) {
        BandColumn(y, x, b.y1 + i, b.x1, w);
      }
    }
    BandsFrame(v, start, n, w, c, a);
  }

  /** A screen pixel lies in the run of `w` bytes from column `x1` of `row`,
      for a run that stays on that row, only if it is on that row, at column
      `x1` or right of it. */
  lemma BandColumn(y: int, x: int, row: int, x1: int, w: int)
    requires 0 <= x < COLS && 0 <= x1 && x1 + w <= COLS
    requires 640 * row + x1 <= 640 * y + x < 640 * row + x1 + w
    ensures y == row && x1 <= x < x1 + w
  {
  }

  /** Sides leave a byte alone unless they write the colour into it. */
  lemma {:induction false} SidesKeep(v: Vram, first: int, m: int, d: int, c: uint8, a: int)
    requires SidesFit(first, m, d) && 0 <= a < VRAM_SIZE && v[a] == c
    ensures Sides(v, first, m, d, c)[a] == c
    decreases m
  {
    if m > 0 {
      SidesKeep(v, first, m - 1, d, c, a);
    }
  }

  lemma {:induction false} SidesCover(v: Vram, first: int, m: int, d: int, c: uint8, k: int)
    requires SidesFit(first, m, d) && 0 <= k < m
    ensures 0 <= first + 640 * k && first + 640 * k + d < VRAM_SIZE
    ensures Sides(v, first, m, d, c)[first + 640 * k] == c
    ensures Sides(v, first, m, d, c)[first + 640 * k + d] == c
    decreases m
  {
    if k < m - 1 {
      SidesCover(v, first, m - 1, d, c, k);
    }
  }

  /** How far the right side pixel is from the left one. */
  function Span(b: Box): int
  {
    b.x2 - b.x1
  }

  /** Whether offset `a` is one of the two side pixels of side row `k`. */
  predicate OnSide(a: int, first: int, k: int, d: int)
  {
    a == first + 640 * k || a == first + 640 * k + d
  }

  /** Away from the side pixels, the side loop changes nothing. */
  lemma {:induction false} SidesFrame(v: Vram, first: int, m: int, d: int, c: uint8, a: int)
    requires SidesFit(first, m, d) && 0 <= a < VRAM_SIZE
    requires forall k :: 0 <= k < m ==> !OnSide(a, first, k, d)
    ensures Sides(v, first, m, d, c)[a] == v[a]
    decreases m
  {
    if m > 0 {
      assert !OnSide(a, first, m - 1, d);
      SidesFrame(v, first, m - 1, d, c, a);
    }
  }

  /** Once the top edge is drawn, the pointer stands at column `x1` of the next row. */
  lemma FirstSideBelow(start: int, b: Box)
    requires b.x1 <= b.x2
    ensures FirstSide(start, b) == start + 640
  {
  }

  /** The rows `gfx_Box` draws on: the bottom edge is `m + 1` rows below the
      top one, `m` the number of side rows, which puts it on row `y2` for a
      box at least two rows high and on row `y1 + 1` for a flat one. */
  lemma BottomRow(b: Box)
    ensures b.y1 < b.y2 ==> SideRows(b) + 1 == b.y2 - b.y1
    ensures b.y1 >= b.y2 ==> SideRows(b) == 0
  {
  }

  /** `gfx_Box` in screen terms: the top edge is coloured over `x1..x2`. */
  lemma OutlineTop(v: Vram, start: int, b: Box, c: uint8, j: int)
    requires OutlineFits(start, b) && b.x1 <= b.x2 && 0 <= j <= b.x2 - b.x1
    ensures 0 <= start + j < VRAM_SIZE && Outline(v, start, b, c)[start + j] == c
  {
    var top := FillRange(v, start, b.x2 - b.x1 + 1, c);
    SidesKeep(top, FirstSide(start, b), SideRows(b), b.x2 - b.x1, c, start + j);
  }

  /** ... so is the bottom edge, one row below the last side row. */
  lemma OutlineBottom(v: Vram, start: int, b: Box, c: uint8, j: int)
    requires OutlineFits(start, b) && b.x1 <= b.x2 && 0 <= j <= b.x2 - b.x1
    ensures var a := start + 640 * (SideRows(b) + 1) + j;
            0 <= a < VRAM_SIZE && Outline(v, start, b, c)[a] == c
  {
  }

  /** ... and so are columns `x1` and `x2` of every row strictly between. */
  lemma OutlineSides(v: Vram, start: int, b: Box, c: uint8, k: int)
    requires OutlineFits(start, b) && b.x1 <= b.x2 && 0 < k < b.y2 - b.y1
    ensures 0 <= start + 640 * k && start + 640 * k + (b.x2 - b.x1) < VRAM_SIZE
    ensures Outline(v, start, b, c)[start + 640 * k] == c
    ensures Outline(v, start, b, c)[start + 640 * k + (b.x2 - b.x1)] == c
  {
    var w := b.x2 - b.x1 + 1;
    var m := SideRows(b);
    var top := FillRange(v, start, w, c);
    FirstSideBelow(start, b);
    BottomRow(b);
    SidesCover(top, FirstSide(start, b), m, b.x2 - b.x1, c, k - 1);
  }

  /** Bytes off both edges and off every side pixel keep their value. */
  lemma OutlineFrame(v: Vram, start: int, b: Box, c: uint8, a: int)
    requires OutlineFits(start, b) && b.x1 <= b.x2 && 0 <= a < VRAM_SIZE
    requires !(start <= a <= start + (b.x2 - b.x1))
    requires !(start + 640 * (SideRows(b) + 1) <= a <= start + 640 * (SideRows(b) + 1) + (b.x2 - b.x1))
    requires forall k :: 0 < k <= SideRows(b) ==> !OnSide(a, start, k, Span(b))
    ensures Outline(v, start, b, c)[a] == v[a]
  {
    var m := SideRows(b);
    var top := FillRange(v, start, b.x2 - b.x1 + 1, c);
    FirstSideBelow(start, b);
    forall k | 0 <= k < m
      ensures !OnSide(a, FirstSide(start, b), k, Span(b))
    {
      assert !OnSide(a, start, k + 1, Span(b));
    }
    SidesFrame(top, FirstSide(start, b), m, Span(b), c, a);
  }

  /** A box whose corners share a row still draws two lines: the bottom edge
      lands on the row below, because the pointer moves to the next line
      before the (empty) side loop. */
  lemma FlatBoxDrawsTwoRows(v: Vram, start: int, b: Box, c: uint8, j: int)
    requires OutlineFits(start, b) && b.y1 == b.y2 && b.x1 <= b.x2 && 0 <= j <= b.x2 - b.x1
    ensures 0 <= start + j && start + 640 + j < VRAM_SIZE
    ensures Outline(v, start, b, c)[start + j] == c
    ensures Outline(v, start, b, c)[start + 640 + j] == c
  {
    OutlineTop(v, start, b, c, j);
    OutlineBottom(v, start, b, c, j);
  }

  // ---------------------------------------------------------------------------
  // gfx_Bitmap
  // ---------------------------------------------------------------------------

  /** Row-by-row copy: `rows` runs of `wb` bytes, 640 apart on screen and
      `stride` apart in the pixel buffer. */
  predicate BlitFits(dst: int, px: seq<uint8>, src: int, rows: int, wb: int, stride: nat)
  {
    rows <= 0 || wb <= 0 ||
      (0 <= dst && dst + 640 * (rows - 1) + wb <= VRAM_SIZE && 0 <= src && src + Mul(rows - 1, stride) + wb <= |px|)
  }

  /** The reference blit: rows `0 .. rows-1` copied in order. */
  function Blit(v: Vram, dst: int, px: seq<uint8>, src: int, rows: int, wb: int, stride: nat): Vram
    requires BlitFits(dst, px, src, rows, wb, stride)
    decreases rows
  {
    if rows <= 0 || wb <= 0 then v
    else
      CopyRange(Blit(v, dst, px, src, rows - 1, wb, stride), dst + 640 * (rows - 1), px, src + Mul(rows - 1, stride), wb)
  }

  /** A copy that fits still fits with fewer rows. */
  lemma BlitFitsFewer(dst: int, px: seq<uint8>, src: int, rows: int, wb: int, stride: nat, n: int)
    requires BlitFits(dst, px, src, rows, wb, stride) && n <= rows
    ensures BlitFits(dst, px, src, n, wb, stride)
  {
    if n > 0 && wb > 0 {
      MulAscending(n - 1, rows - 1, stride);
    }
  }

  /** Row `r` of the copy holds row `r` of the source, when runs are no
      wider than a screen row (so no later run covers an earlier one). */
  lemma {:induction false} BlitCopies(v: Vram, dst: int, px: seq<uint8>, src: int, rows: int, wb: int, stride: nat, r: int, c: int)
    requires BlitFits(dst, px, src, rows, wb, stride) && wb <= COLS
    requires 0 <= r < rows && 0 <= c < wb
    ensures 0 <= dst + 640 * r + c < VRAM_SIZE && 0 <= src + Mul(r, stride) + c < |px|
    ensures Blit(v, dst, px, src, rows, wb, stride)[dst + 640 * r + c] == px[src + Mul(r, stride) + c]
    decreases rows
  {
    MulAscending(r, rows - 1, stride);
    BlitFitsFewer(dst, px, src, rows, wb, stride, rows - 1);
    var at := dst + 640 * (rows - 1);
    var before := Blit(v, dst, px, src, rows - 1, wb, stride);
    assert Blit(v, dst, px, src, rows, wb, stride) == CopyRange(before, at, px, src + Mul(rows - 1, stride), wb);
    if r < rows - 1 {
      MulAscending(rows - 2, rows - 1, stride);
      BlitCopies(v, dst, px, src, rows - 1, wb, stride, r, c);
      assert dst + 640 * r + c < at;
    }
  }

  /** Where the plan puts byte `c` of copied row `r`: `640` bytes a screen
      row and `width` bytes a source row past the first visible pixel. */
  lemma PlanOffsets(x: int, y: int, d: BmpData, r: int, c: int)
    requires BitmapCallable(x, y, d) && d.bytespp == 1
    requires var p := BitmapPlan(x, y, d);
             p.dst >= 0 && 0 <= r < p.rows && 0 <= c < p.wb
    ensures var p := BitmapPlan(x, y, d);
            var sx := Max(x, 0); var sy := Max(y, 0);
            && p.wb <= COLS && 0 <= sy - y + r
            && 640 * (sy + r) + sx + c == p.dst + 640 * r + c
            && Mul(sy - y + r, d.width) + (sx - x) + c == p.src + Mul(r, d.width) + c
  {
    var p := BitmapPlan(x, y, d);
    var sx, sy := Max(x, 0), Max(y, 0);
    BitmapPlanClips(x, y, d);
    assert p.wb == Min(x + d.width, COLS) - sx;
    assert p.dst == 640 * sy + sx;
    MulAdd(sy - y, r, d.width);
  }

  /** `BlitCopies`, for a screen offset `a` and a source offset `b` written
      another way. */
  lemma {:induction false} BlitAt(v: Vram, dst: int, px: seq<uint8>, src: int, rows: int, wb: int, stride: nat, r: int, c: int,
                                  a: int, b: int)
    requires BlitFits(dst, px, src, rows, wb, stride) && wb <= COLS
    requires 0 <= r < rows && 0 <= c < wb
    requires a == dst + 640 * r + c && b == src + Mul(r, stride) + c
    ensures 0 <= a < VRAM_SIZE && 0 <= b < |px|
    ensures Blit(v, dst, px, src, rows, wb, stride)[a] == px[b]
  {
    BlitCopies(v, dst, px, src, rows, wb, stride, r, c);
  }

  /** Screen coordinates the model accepts: `int` arithmetic on them and on
      the skips derived from them cannot overflow. */
  predicate Coord(z: int)
  {
    -0x1_0000 < z < 0x1_0000
  }

  /** The copy `gfx_Bitmap` performs: target offset, first source byte, row
      count and bytes per row. */
  datatype Plan = Plan(dst: int, src: int, rows: int, wb: int)

  /** `skip_cols`: the left overhang (negative) or the right one (positive). */
  function SkipCols(x: int, width: int): int
  {
    if x < 0 then x else if x + width > COLS then x + width - COLS else 0
  }

  function SkipRows(y: int, height: int): int
  {
    if y < 0 then y else if y + height > ROWS then y + height - ROWS else 0
  }

  function Abs(z: int): nat
  {
    if z < 0 then -z else z
  }

  /** The clipping arithmetic of `gfx_Bitmap`: the corner moves to the
      screen edge when it is left of or above it, the row count and the bytes
      per row shrink by the overhang, and the source skips the rows above the
      screen and, on each row, the columns left of it. */
  function BitmapPlan(x: int, y: int, d: BmpData): Plan
    requires Coord(x) && Coord(y) && d.width <= COLS && d.height <= ROWS
  {
    var sc := SkipCols(x, d.width);
    var sr := SkipRows(y, d.height);
    if sc == 0 && sr == 0 then
      Plan(GetXYaddr(x, y), 0, d.height, d.width * d.bytespp)
    else
      var x' := if sc < 0 then x + Abs(sc) else x;
      var y' := if sr < 0 then y + Abs(sr) else y;
      var rows := if sr != 0 then d.height - Abs(sr) else d.height;
      var wb := if sc != 0 then d.width * d.bytespp - Abs(sc) * d.bytespp else d.width * d.bytespp;
      var skip := if sr < 0 then Mul(Abs(sr), d.width) else 0;
      Plan(GetXYaddr(x', y'), skip + (if sc < 0 then Abs(sc) else 0), rows, wb)
  }

  lemma ScaleDiff(a: int, b: int, k: int)
    ensures a * k - b * k == (a - b) * k
  {
  }

  /** For images no larger than the screen the copy covers exactly the
      visible part: rows from `max(y, 0)` to `min(y + height, 400)`, columns
      from `max(x, 0)` to `min(x + width, 640)`, starting that far into the
      source. */
  lemma BitmapPlanClips(x: int, y: int, d: BmpData)
    requires Coord(x) && Coord(y) && d.width <= COLS && d.height <= ROWS
    ensures var p := BitmapPlan(x, y, d);
            && p.dst == GetXYaddr(Max(x, 0), Max(y, 0))
            && p.rows == Min(y + d.height, ROWS) - Max(y, 0)
            && p.wb == (Min(x + d.width, COLS) - Max(x, 0)) * d.bytespp
            && p.src == Mul(Max(y, 0) - y, d.width) + (Max(x, 0) - x)
  {
    var sc := SkipCols(x, d.width);
    ScaleDiff(d.width, Abs(sc), d.bytespp);
  }

  /** What `gfx_Bitmap` demands: a loaded image no larger than the screen
      (the routine does not support larger ones), and every byte it copies
      inside the screen and the pixel buffer. */
  predicate BitmapCallable(x: int, y: int, d: BmpData)
  {
    && Coord(x) && Coord(y) && d.width <= COLS && d.height <= ROWS && d.pixels.Held?
    && var p := BitmapPlan(x, y, d);
       p.dst >= 0 ==> (p.rows > 0 ==> p.wb >= 0) && BlitFits(p.dst, d.pixels.value, p.src, p.rows, p.wb, d.width)
  }

  /** `gfx_Bitmap`: -1 and no write when the first visible pixel is
      rejected; otherwise the visible rows are copied, the source advancing
      `width` bytes per row whatever the clipping. */
  method Bitmap(v: Vram, x: int, y: int, d: BmpData) returns (ret: int, r: Vram)
    requires BitmapCallable(x, y, d)
    ensures var p := BitmapPlan(x, y, d);
            && (ret == -1 <==> p.dst < 0)
            && (ret == -1 ==> r == v)
            && (ret != -1 ==> ret == 0 && r == Blit(v, p.dst, d.pixels.value, p.src, p.rows, p.wb, d.width))
  {
    var p := BitmapPlan(x, y, d);
    if p.dst < 0 {
      return -1, v;
    }
    var px := d.pixels.value;
    r := v;
    var at := p.dst;
    var from := p.src;
    var row := 0;
    while row < p.rows
      invariant 0 <= row && (p.rows <= 0 ==> row == 0) && (p.rows > 0 ==> row <= p.rows)
      invariant at == p.dst + 640 * row && from == p.src + Mul(row, d.width)
      invariant BlitFits(p.dst, px, p.src, row, p.wb, d.width)
      invariant r == Blit(v, p.dst, px, p.src, row, p.wb, d.width)
    {
      BlitFitsFewer(p.dst, px, p.src, p.rows, p.wb, d.width, row + 1);
      r := CopyRun(r, at, px, from, p.wb);
      at := at + COLS;
      from := from + d.width;
      row := row + 1;
    }
    return 0, r;
  }

  /** What `gfx_Bitmap` puts on screen, for one byte per pixel: the visible
      pixel in row `r`, column `c` of the clipped image comes from source row
      `r + max(0, -y)`, column `c + max(0, -x)`. */
  lemma {:induction false} BitmapPlaces(v: Vram, x: int, y: int, d: BmpData, r: int, c: int)
    requires BitmapCallable(x, y, d) && d.bytespp == 1
    requires var p := BitmapPlan(x, y, d);
             p.dst >= 0 && 0 <= r < p.rows && 0 <= c < p.wb
    ensures var p := BitmapPlan(x, y, d);
            var sx := Max(x, 0); var sy := Max(y, 0);
            && 0 <= 640 * (sy + r) + sx + c < VRAM_SIZE
            && 0 <= Mul(sy - y + r, d.width) + (sx - x) + c < |d.pixels.value|
            && Blit(v, p.dst, d.pixels.value, p.src, p.rows, p.wb, d.width)[640 * (sy + r) + sx + c]
               == d.pixels.value[Mul(sy - y + r, d.width) + (sx - x) + c]
  {
    var p := BitmapPlan(x, y, d);
    var sx, sy := Max(x, 0), Max(y, 0);
    PlanOffsets(x, y, d, r, c);
    BlitAt(v, p.dst, d.pixels.value, p.src, p.rows, p.wb, d.width, r, c,
           640 * (sy + r) + sx + c, Mul(sy - y + r, d.width) + (sx - x) + c);
  }

  // ---------------------------------------------------------------------------
  // gfx_Puts
  // ---------------------------------------------------------------------------

  /** The symbol `gfx_Puts` draws for character byte `ch`: its offset from
      `ascii_start` when it is at most `n_symbols` past it, otherwise the
      font's unknown symbol. */
  function SymbolFor(f: FontData, ch: uint8): uint8
  {
    if f.asciiStart <= ch <= f.asciiStart + f.nSymbols then ch - f.asciiStart else f.unknownSymbol
  }

  /** Symbol `k` is drawn for the `k`-th character after `ascii_start`, for
      `k` up to and including `n_symbols`; below `ascii_start` every
      character draws the unknown symbol. */
  lemma SymbolForInverts(f: FontData, k: nat, ch: uint8)
    requires k <= f.nSymbols && f.asciiStart + k < 256
    ensures SymbolFor(f, f.asciiStart + k) == k
    ensures ch < f.asciiStart || ch > f.asciiStart + f.nSymbols ==> SymbolFor(f, ch) == f.unknownSymbol
  {
  }

  /** Rows `0 .. n-1` of symbol `sym`, `w` bytes each, copied to `at` and
      the rows below it, all inside the screen and the symbol table. */
  predicate GlyphFits(at: int, sym: nat, n: int, w: int)
  {
    n <= 0 || w <= 0 || (0 <= at && at + 640 * (n - 1) + w <= VRAM_SIZE && Cell(sym, n - 1, 0) + w <= TABLE_BYTES)
  }

  /** The reference glyph copy: `memcpy` of row `k` of the flat symbol
      table to `at + 640 * k`, for `k` in `0 .. n-1`. */
  function Glyph(v: Vram, at: int, table: SymbolTable, sym: nat, n: int, w: int): Vram
    requires GlyphFits(at, sym, n, w)
    decreases n
  {
    if n <= 0 || w <= 0 then v
    else CopyRange(Glyph(v, at, table, sym, n - 1, w), at + 640 * (n - 1), table, Cell(sym, n - 1, 0), w)
  }

  lemma {:induction false} GlyphPlaces(v: Vram, at: int, table: SymbolTable, sym: nat, n: int, w: int, k: int, i: int)
    requires GlyphFits(at, sym, n, w) && w <= COLS && 0 <= k < n && 0 <= i < w
    ensures 0 <= at + 640 * k + i < VRAM_SIZE && Cell(sym, k, i) < TABLE_BYTES
    ensures Glyph(v, at, table, sym, n, w)[at + 640 * k + i] == table[Cell(sym, k, i)]
    decreases n
  {
    if k < n - 1 {
      GlyphPlaces(v, at, table, sym, n - 1, w, k, i);
    }
  }

  /** A byte that is off every row of the glyph keeps its value. */
  lemma {:induction false} GlyphFrame(v: Vram, at: int, table: SymbolTable, sym: nat, n: int, w: int, a: int)
    requires GlyphFits(at, sym, n, w) && 0 <= a < VRAM_SIZE
    requires forall k :: 0 <= k < n ==> !InBand(a, at, k, w)
    ensures Glyph(v, at, table, sym, n, w)[a] == v[a]
    decreases n
  {
    if n > 0 && w > 0 {
      assert !InBand(a, at, n - 1, w);
      GlyphFrame(v, at, table, sym, n - 1, w, a);
    }
  }

  /** Character `p` of the string: its glyph, `height + 1` rows of `width`
      bytes, drawn `width` bytes per character from `at`, fits. */
  predicate CharFits(at: int, f: FontData, s: seq<uint8>, p: int)
    requires 0 <= p < |s|
  {
    GlyphFits(at + Mul(p, f.width), SymbolFor(f, s[p]), f.height + 1, f.width)
  }

  /** Every glyph of the string fits. */
  predicate TextFits(at: int, f: FontData, s: seq<uint8>)
  {
    forall p :: 0 <= p < |s| ==> CharFits(at, f, s, p)
  }

  /** The reference text output for the first `n` characters: their glyphs
      drawn left to right, `width` bytes apart. */
  function Text(v: Vram, at: int, f: FontData, s: seq<uint8>, n: int): Vram
    requires TextFits(at, f, s) && n <= |s|
    decreases n
  {
    if n <= 0 then v
    else
      assert CharFits(at, f, s, n - 1);
      Glyph(Text(v, at, f, s, n - 1), at + Mul(n - 1, f.width), f.symbol, SymbolFor(f, s[n - 1]), f.height + 1, f.width)
  }

  /** What `gfx_Puts` demands: a C string (no NUL inside, and shorter than
      256 characters, since the `unsigned char` index would wrap); `int`
      coordinates; and, when it draws, an accepted start offset (the source's
      test of it is on an `unsigned` value and never fires), a font height
      below 255 (the `unsigned char` row counter would wrap) and every copied
      byte inside the screen and the symbol table. */
  predicate PutsCallable(x: int, y: int, f: FontData, s: seq<uint8>)
  {
    && (forall i :: 0 <= i < |s| ==> s[i] != 0) && |s| < 256
    && (|s| >= 1 ==> Int32(x) && Int32(y) && Int32(640 * y))
    && (|s| >= 1 && (f.width == 8 || f.width == 16) ==>
          GetXYaddr(x, y) >= 0 && f.height < 255 && TextFits(GetXYaddr(x, y), f, s))
  }

  /** `gfx_Puts`: `GFX_TEXT_OK` and no write for the empty string;
      `GFX_TEXT_INVALID` and no write for a font that is neither 8 nor 16
      pixels wide; otherwise every character's glyph is drawn. */
  method Puts(v: Vram, x: int, y: int, f: FontData, s: seq<uint8>) returns (ret: int, r: Vram)
    requires PutsCallable(x, y, f, s)
    ensures |s| == 0 ==> ret == GFX_TEXT_OK && r == v
    ensures |s| >= 1 && f.width != 8 && f.width != 16 ==> ret == GFX_TEXT_INVALID && r == v
    ensures |s| >= 1 && (f.width == 8 || f.width == 16) ==> ret == GFX_TEXT_OK && r == Text(v, GetXYaddr(x, y), f, s, |s|)
  {
    if |s| < 1 {
      return GFX_TEXT_OK, v;
    }
    var start := GetXYaddr(x, y);
    if f.width != 8 && f.width != 16 {
      return GFX_TEXT_INVALID, v;
    }
    r := TextRun(v, start, f, s);
    return GFX_TEXT_OK, r;
  }

  /** The character loop of `gfx_Puts`. */
  method TextRun(v: Vram, start: int, f: FontData, s: seq<uint8>) returns (r: Vram)
    requires TextFits(start, f, s)
    ensures r == Text(v, start, f, s, |s|)
  {
    r := v;
    var at := start;
    var pos := 0;
    while pos < |s|
      invariant pos <= |s| && at == start + Mul(pos, f.width)
      invariant r == Text(v, start, f, s, pos)
    {
      TextStep(v, start, f, s, pos + 1);
      r := GlyphRun(r, at, f.symbol, SymbolFor(f, s[pos]), f.height + 1, f.width);
      at := at + f.width;
      pos := pos + 1;
    }
  }

  /** The `font_row` loop of `gfx_Puts` for one symbol. */
  method GlyphRun(v: Vram, at: int, table: SymbolTable, sym: nat, n: int, w: int) returns (r: Vram)
    requires GlyphFits(at, sym, n, w)
    ensures r == Glyph(v, at, table, sym, n, w)
  {
    r := v;
    var row := 0;
    while row < n
      invariant 0 <= row && (n <= 0 ==> row == 0) && (n > 0 ==> row <= n)
      invariant r == Glyph(v, at, table, sym, row, w)
    {
      r := CopyRun(r, at + 640 * row, table, Cell(sym, row, 0), w);
      row := row + 1;
    }
  }

  /** Two rows 640 bytes apart: a byte `d` bytes before row `k`, for
      `0 < d <= 640 - w`, lies in no run of `w` bytes at the start of a row. */
  lemma OffRuns(k: int, k': int, d: int, w: int)
    requires 0 < d <= 640 - w
    ensures !(640 * k' <= 640 * k - d < 640 * k' + w)
  {
  }

  /** Glyph `n - 1` is drawn where `gfx_Puts` leaves the pointer after the
      characters before it. */
  lemma {:induction false} TextLast(v: Vram, at: int, f: FontData, s: seq<uint8>, n: int, k: int, i: int)
    requires TextFits(at, f, s) && 1 <= n <= |s| && f.width <= COLS && 0 <= k <= f.height && 0 <= i < f.width
    ensures var last := at + Mul(n - 1, f.width);
            && 0 <= last + 640 * k + i < VRAM_SIZE
            && Cell(SymbolFor(f, s[n - 1]), k, i) < TABLE_BYTES
            && Text(v, at, f, s, n)[last + 640 * k + i] == f.symbol[Cell(SymbolFor(f, s[n - 1]), k, i)]
  {
    TextStep(v, at, f, s, n);
    GlyphAt(Text(v, at, f, s, n - 1), Text(v, at, f, s, n), at + Mul(n - 1, f.width), f.symbol,
            SymbolFor(f, s[n - 1]), f.height + 1, f.width, k, i);
  }

  /** `GlyphPlaces`, for a screen already known to be the glyph's result. */
  lemma {:induction false} GlyphAt(before: Vram, after: Vram, at: int, table: SymbolTable, sym: nat, n: int, w: int, k: int, i: int)
    requires GlyphFits(at, sym, n, w) && w <= COLS && 0 <= k < n && 0 <= i < w
    requires after == Glyph(before, at, table, sym, n, w)
    ensures 0 <= at + 640 * k + i < VRAM_SIZE && Cell(sym, k, i) < TABLE_BYTES
    ensures after[at + 640 * k + i] == table[Cell(sym, k, i)]
  {
    GlyphPlaces(before, at, table, sym, n, w, k, i);
  }

  /** The text of `n` characters is the text of `n - 1` with glyph `n - 1`
      drawn over it. */
  lemma {:induction false} TextStep(v: Vram, at: int, f: FontData, s: seq<uint8>, n: int)
    requires TextFits(at, f, s) && 1 <= n <= |s|
    ensures GlyphFits(at + Mul(n - 1, f.width), SymbolFor(f, s[n - 1]), f.height + 1, f.width)
    ensures Text(v, at, f, s, n)
            == Glyph(Text(v, at, f, s, n - 1), at + Mul(n - 1, f.width), f.symbol, SymbolFor(f, s[n - 1]), f.height + 1, f.width)
  {
    assert CharFits(at, f, s, n - 1);
  }

  /** Glyph `n - 1` leaves the bytes of the earlier characters alone, when
      the string fits on one screen row. */
  lemma {:induction false} TextLastKeeps(v: Vram, at: int, f: FontData, s: seq<uint8>, n: nat, p: int, k: int, i: int)
    requires TextFits(at, f, s) && n <= |s| && Mul(n, f.width) <= COLS
    requires 0 <= p < n - 1 && 0 <= k <= f.height && 0 <= i < f.width
    requires 0 <= at + Mul(p, f.width) + 640 * k + i < VRAM_SIZE
    ensures var a := at + Mul(p, f.width) + 640 * k + i;
            Text(v, at, f, s, n)[a] == Text(v, at, f, s, n - 1)[a]
  {
    var w := f.width;
    var last := at + Mul(n - 1, w);
    var a := at + Mul(p, w) + 640 * k + i;
    assert CharFits(at, f, s, n - 1);
    MulAscending(p + 1, n - 1, w);
    forall k' | 0 <= k' < f.height + 1
      ensures !InBand(a, last, k', w)
    {
      OffRuns(k, k', Mul(n - 1, w) - Mul(p, w) - i, w);
    }
    GlyphFrame(Text(v, at, f, s, n - 1), last, f.symbol, SymbolFor(f, s[n - 1]), f.height + 1, w, a);
  }

  /** What `gfx_Puts` puts on screen, for a string that fits on one screen
      row: byte `i` of row `k` of character `p`'s glyph is `640 * k + i`
      bytes past the character's cell, which is `width * p` bytes past the
      start. */
  lemma {:induction false} TextPlaces(v: Vram, at: int, f: FontData, s: seq<uint8>, n: nat, p: int, k: int, i: int)
    requires TextFits(at, f, s) && n <= |s| && Mul(n, f.width) <= COLS
    requires 0 <= p < n && 0 <= k <= f.height && 0 <= i < f.width
    ensures 0 <= at + Mul(p, f.width) + 640 * k + i < VRAM_SIZE
    ensures Cell(SymbolFor(f, s[p]), k, i) < TABLE_BYTES
    ensures Text(v, at, f, s, n)[at + Mul(p, f.width) + 640 * k + i] == f.symbol[Cell(SymbolFor(f, s[p]), k, i)]
    decreases n
  {
    if p == n - 1 {
      MulAscending(1, n, f.width);
      TextLast(v, at, f, s, n, k, i);
    } else {
      MulAscending(n - 1, n, f.width);
      TextPlaces(v, at, f, s, n - 1, p, k, i);
      TextLastKeeps(v, at, f, s, n, p, k, i);
    }
  }
}
