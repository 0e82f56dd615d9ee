/*******************************************************************************
 *  The hardware palette of the launcher (palette.c / palette.h): a two-pool
 *  allocator that loads an image's colour table into the 256 PEGC palette
 *  registers and rewrites the image's pixels to the registers it was given.
 *******************************************************************************/

/** `pal_BMP2Palette`, `pal_BMPRemap`, `pal_ResetAll`, `pal_ResetFree` and
    `pal_Set`.

    The palette registers are a 256-entry colour array (`pal_Set` writes one
    entry; the port writes behind it are not modelled).  They are split into
    pools: 0..207 for artwork, 208..239 for the user interface bitmaps and
    240..255 for drawing colours.  The two pool counters are the globals
    `free_palettes_used` and `reserved_palettes_used`. */
module Pal {
  import opened Base
  import opened Bmp

  const PALETTES_TOTAL: nat := 256
  const PALETTES_RESERVED: nat := 32
  const PALETTES_UI: nat := 16
  const PALETTES_FREE: nat := 208
  const PALETTE_OK: int := 0
  const PALETTE_NO_PIXELS: int := 1

  /** One hardware palette register. */
  datatype Rgb = Rgb(r: uint8, g: uint8, b: uint8)

  const BLACK: Rgb := Rgb(0, 0, 0)

  type Registers = h: seq<Rgb> | |h| == PALETTES_TOTAL
    witness seq(256, _ => Rgb(0, 0, 0))

  /** The registers and the two pool counters (`unsigned int` globals). */
  datatype PalState = PalState(hw: Registers, freeUsed: uint32, reservedUsed: uint32)

  /** The colour of an image palette entry. */
  function ColourOf(e: PalEntry): Rgb
  {
    Rgb(e.r, e.g, e.b)
  }

  // ---------------------------------------------------------------------------
  // Register writes and resets
  // ---------------------------------------------------------------------------

  /** `pal_Set(idx, r, g, b)`. */
  function Set(st: PalState, idx: uint8, c: Rgb): (r: PalState)
    ensures r.hw[idx] == c
    ensures forall j :: 0 <= j < PALETTES_TOTAL && j != idx ==> r.hw[j] == st.hw[j]
    ensures r.freeUsed == st.freeUsed && r.reservedUsed == st.reservedUsed
  {
    st.(hw := st.hw[idx := c])
  }

  /** `pal_ResetAll`: every register black, both pools empty. */
  function ResetAll(st: PalState): (r: PalState)
    ensures forall j :: 0 <= j < PALETTES_TOTAL ==> r.hw[j] == BLACK
    ensures r.freeUsed == 0 && r.reservedUsed == 0
  {
    PalState(seq(PALETTES_TOTAL, _ => BLACK), 0, 0)
  }

  /** `pal_ResetFree`: the artwork pool black and empty; the reserved and UI
      registers and the reserved counter stay. */
  function ResetFree(st: PalState): (r: PalState)
    ensures forall j :: 0 <= j < PALETTES_FREE ==> r.hw[j] == BLACK
    ensures forall j :: PALETTES_FREE <= j < PALETTES_TOTAL ==> r.hw[j] == st.hw[j]
    ensures r.freeUsed == 0 && r.reservedUsed == st.reservedUsed
  {
    var hw: seq<Rgb> := seq(PALETTES_TOTAL, j requires 0 <= j < PALETTES_TOTAL => if j < PALETTES_FREE then BLACK else st.hw[j]);
    assert |hw| == PALETTES_TOTAL;
    st.(hw := hw, freeUsed := 0)
  }

  /** Both resets can be repeated without effect, and clearing the artwork
      pool after clearing everything changes nothing. */
  lemma ResetsIdempotent(st: PalState)
    ensures ResetAll(ResetAll(st)) == ResetAll(st)
    ensures ResetFree(ResetFree(st)) == ResetFree(st)
    ensures ResetFree(ResetAll(st)) == ResetAll(st)
  {
    assert ResetFree(ResetFree(st)).hw == ResetFree(st).hw;
    assert ResetFree(ResetAll(st)).hw == ResetAll(st).hw;
  }

  // ---------------------------------------------------------------------------
  // Closed forms of the allocation loops
  // ---------------------------------------------------------------------------

  /** Registers after `pal_Set(i + base, colour i)` for every `i < n`. */
  function Loaded(hw: Registers, p: Palette, n: nat, base: nat): (r: Registers)
    requires base + n <= PALETTES_TOTAL
    ensures forall j :: base <= j < base + n ==> r[j] == ColourOf(p[j - base])
    ensures forall j :: 0 <= j < PALETTES_TOTAL && !(base <= j < base + n) ==> r[j] == hw[j]
  {
    var r: seq<Rgb> := seq(PALETTES_TOTAL, j requires 0 <= j < PALETTES_TOTAL => if base <= j < base + n then ColourOf(p[j - base]) else hw[j]);
    assert |r| == PALETTES_TOTAL;
    r
  }

  /** Palette after `palette[i].new_palette_entry = i + base` for every
      `i < n`; the field is an `unsigned char`, so the sum wraps. */
  function Mapped(p: Palette, n: nat, base: nat): (r: Palette)
    requires n <= PALETTES_TOTAL
    ensures forall j :: 0 <= j < n ==> r[j] == p[j].(newPaletteEntry := (j + base) % 256)
    ensures forall j :: n <= j < PALETTES_TOTAL ==> r[j] == p[j]
  {
    seq(PALETTES_TOTAL, j requires 0 <= j < PALETTES_TOTAL => if j < n then p[j].(newPaletteEntry := (j + base) % 256) else p[j])
  }

  lemma LoadedStep(hw: Registers, p: Palette, n: nat, base: nat)
    requires base + n + 1 <= PALETTES_TOTAL
    ensures Loaded(hw, p, n, base)[base + n := ColourOf(p[n])] == Loaded(hw, p, n + 1, base)
  {
    var a := Loaded(hw, p, n, base)[base + n := ColourOf(p[n])];
    var b := Loaded(hw, p, n + 1, base);
    assert forall j :: 0 <= j < PALETTES_TOTAL ==> a[j] == b[j];
  }

  lemma MappedStep(p: Palette, n: nat, base: nat)
    requires n < PALETTES_TOTAL
    ensures var q := Mapped(p, n, base);
            q[n := q[n].(newPaletteEntry := (n + base) % 256)] == Mapped(p, n + 1, base)
  {
    var q := Mapped(p, n, base);
    var a := q[n := q[n].(newPaletteEntry := (n + base) % 256)];
    var b := Mapped(p, n + 1, base);
    assert forall j :: 0 <= j < PALETTES_TOTAL ==> a[j] == b[j];
  }

  // ---------------------------------------------------------------------------
  // pal_BMPRemap
  // ---------------------------------------------------------------------------

  /** The first `n` pixels looked up in the palette's `new_palette_entry`
      column; the rest as they were. */
  function Remapped(px: seq<uint8>, n: nat, p: Palette): (r: seq<uint8>)
    requires n <= |px|
    ensures |r| == |px|
    ensures forall k :: 0 <= k < n ==> r[k] == p[px[k]].newPaletteEntry
    ensures forall k :: n <= k < |px| ==> r[k] == px[k]
  {
    seq(|px|, k requires 0 <= k < |px| => if k < n then p[px[k]].newPaletteEntry else px[k])
  }

  /** `pal_BMPRemap`: rewrites the first `size` pixels in place.  Reading
      past the buffer, or reading a freed one at all, is undefined, so a held
      buffer must hold `size` bytes and a freed one leaves the loop nothing
      to do. */
  method BMPRemap(d: BmpData) returns (status: int, r: BmpData)
    requires d.pixels.Held? ==> d.size <= |d.pixels.value|
    requires d.pixels.Freed? ==> d.size == 0
    ensures d.pixels.Null? ==> status == PALETTE_NO_PIXELS && r == d
    ensures d.pixels.Freed? ==> status == PALETTE_OK && r == d
    ensures d.pixels.Held? ==>
              status == PALETTE_OK && r == d.(pixels := Held(Remapped(d.pixels.value, d.size, d.palette)))
  {
    if d.pixels.Null? {
      return PALETTE_NO_PIXELS, d;
    }
    if d.pixels.Freed? {
      return PALETTE_OK, d;
    }
    var px := d.pixels.value;
    var pos := 0;
    while pos < d.size
      invariant pos <= d.size && |px| == |d.pixels.value|
      invariant forall k :: 0 <= k < pos ==> px[k] == d.palette[d.pixels.value[k]].newPaletteEntry
      invariant forall k :: pos <= k < |px| ==> px[k] == d.pixels.value[k]
    {
      px := px[pos := d.palette[px[pos]].newPaletteEntry];
      pos := pos + 1;
    }
    assert px == Remapped(d.pixels.value, d.size, d.palette);
    status, r := PALETTE_OK, d.(pixels := Held(px));
  }

  /** A palette that maps every index to itself leaves the pixels alone. */
  lemma RemapIdentity(px: seq<uint8>, n: nat, p: Palette)
    requires n <= |px|
    requires forall c :: 0 <= c < PALETTES_TOTAL ==> p[c].newPaletteEntry == c
    ensures Remapped(px, n, p) == px
  {
    var r := Remapped(px, n, p);
    forall k | 0 <= k < |px|
      ensures r[k] == px[k]
    {
      if k < n {
        assert p[px[k]].newPaletteEntry == px[k];
      }
    }
  }

  /** Remapping twice is remapping once through the composed table. */
  lemma RemapComposes(px: seq<uint8>, n: nat, p: Palette, q: Palette)
    requires n <= |px|
    ensures Remapped(Remapped(px, n, p), n, q)
              == Remapped(px, n, seq(PALETTES_TOTAL, c requires 0 <= c < PALETTES_TOTAL => p[c].(newPaletteEntry := q[p[c].newPaletteEntry].newPaletteEntry)))
  {
  }

  // ---------------------------------------------------------------------------
  // pal_BMP2Palette
  // ---------------------------------------------------------------------------

  /** Room left in the reserved pool (`reserved_palettes_used < 32`). */
  function ReservedRoom(st: PalState): nat
    requires st.reservedUsed < PALETTES_RESERVED
  {
    PALETTES_RESERVED - st.reservedUsed
  }

  /** Whether `pal_BMP2Palette` reaches its call to `pal_BMPRemap`: reserved
      mode, with either a full pool or a colour table that fits the room. */
  predicate RemapReached(d: BmpData, st: PalState, reserved: int)
  {
    reserved == 1 && (st.reservedUsed >= PALETTES_RESERVED || d.colours <= ReservedRoom(st))
  }

  /** What `pal_BMP2Palette` demands: when the reserved pool is full it
      indexes the palette with every colour number, and a remap reads `size`
      pixels, of a held buffer. */
  predicate BMP2PaletteCallable(d: BmpData, st: PalState, reserved: int)
  {
    && (reserved == 1 && st.reservedUsed >= PALETTES_RESERVED ==> d.colours <= PALETTES_TOTAL)
    && (RemapReached(d, st, reserved) ==> Remappable(d))
  }

  /** What `pal_BMPRemap` demands of the pixel pointer. */
  predicate Remappable(d: BmpData)
  {
    && (d.pixels.Held? ==> d.size <= |d.pixels.value|)
    && (d.pixels.Freed? ==> d.size == 0)
  }

  /** The pixel pointer after a remap through `p`: a held buffer is
      rewritten, a freed or NULL pointer stays as it was. */
  function RemapAll(d: BmpData, p: Palette): PixelPtr
    requires Remappable(d)
  {
    if d.pixels.Held? then Held(Remapped(d.pixels.value, d.size, p)) else d.pixels
  }

  /** The reserved-mode loop of `pal_BMP2Palette` with room in the pool:
      colour `i` goes to register `i + 208` until the colours or the pool run
      out; only a loop that runs to the end remaps the pixels. */
  method ReservedLoad(d: BmpData, st: PalState) returns (ret: int, e: BmpData, s: PalState)
    requires st.reservedUsed < PALETTES_RESERVED
    requires d.colours <= ReservedRoom(st) ==> Remappable(d)
    ensures d.colours <= ReservedRoom(st) ==>
              && ret == d.colours
              && s == st.(hw := Loaded(st.hw, d.palette, d.colours, PALETTES_FREE), reservedUsed := st.reservedUsed + d.colours)
              && e == d.(palette := Mapped(d.palette, d.colours, PALETTES_FREE), pixels := RemapAll(d, e.palette))
    ensures d.colours > ReservedRoom(st) ==>
              && ret == -1
              && s == st.(hw := Loaded(st.hw, d.palette, ReservedRoom(st), PALETTES_FREE), reservedUsed := PALETTES_RESERVED)
              && e == d.(palette := Mapped(d.palette, ReservedRoom(st), PALETTES_FREE))
  {
    e, s := d, st;
    var i := 0;
    while i < d.colours
      invariant i <= d.colours && i <= ReservedRoom(st)
      invariant s == st.(hw := Loaded(st.hw, d.palette, i, PALETTES_FREE), reservedUsed := st.reservedUsed + i)
      invariant e == d.(palette := Mapped(d.palette, i, PALETTES_FREE))
    {
      if i >= PALETTES_RESERVED {
        return -1, e, s;
      }
      if s.reservedUsed < PALETTES_RESERVED {
        LoadedStep(st.hw, d.palette, i, PALETTES_FREE);
        MappedStep(d.palette, i, PALETTES_FREE);
        s := Set(s, i + PALETTES_FREE, ColourOf(d.palette[i]));
        e := e.(palette := e.palette[i := e.palette[i].(newPaletteEntry := i + PALETTES_FREE)]);
        s := s.(reservedUsed := s.reservedUsed + 1);
      } else {
        return -1, e, s;
      }
      i := i + 1;
    }
    var _, remapped := BMPRemap(e);
    return d.colours, remapped, s;
  }

  /** The reserved-mode branch with a full pool: every colour is mapped to
      `i + 208` without loading a register, and the pixels are remapped. */
  method ReservedFull(d: BmpData, st: PalState) returns (ret: int, e: BmpData, s: PalState)
    requires d.colours <= PALETTES_TOTAL
    requires Remappable(d)
    ensures ret == -1 && s == st
    ensures e == d.(palette := Mapped(d.palette, d.colours, PALETTES_FREE), pixels := RemapAll(d, e.palette))
  {
    e := d;
    var i := 0;
    while i < d.colours
      invariant i <= d.colours
      invariant e == d.(palette := Mapped(d.palette, i, PALETTES_FREE))
    {
      MappedStep(d.palette, i, PALETTES_FREE);
      e := e.(palette := e.palette[i := e.palette[i].(newPaletteEntry := (i + PALETTES_FREE) % 256)]);
      i := i + 1;
    }
    var _, remapped := BMPRemap(e);
    return -1, remapped, st;
  }

  /** The artwork-pool loop: colour `i` goes to register `i` while the pool
      has room; later colours keep their mapping.  The return value is the
      `unsigned` colour count converted to `int`. */
  method FreeLoad(d: BmpData, st: PalState) returns (ret: int, e: BmpData, s: PalState)
    requires st.freeUsed < PALETTES_FREE
    ensures var n := Min(d.colours, PALETTES_FREE - st.freeUsed);
            && ret == ToSigned32(d.colours)
            && s == st.(hw := Loaded(st.hw, d.palette, n, 0), freeUsed := st.freeUsed + n)
            && e == d.(palette := Mapped(d.palette, n, 0))
  {
    e, s := d, st;
    var i := 0;
    ghost var n := 0;
    while i < d.colours
      invariant i <= d.colours
      invariant n == Min(i, PALETTES_FREE - st.freeUsed)
      invariant s == st.(hw := Loaded(st.hw, d.palette, n, 0), freeUsed := st.freeUsed + n)
      invariant e == d.(palette := Mapped(d.palette, n, 0))
    {
      if s.freeUsed < PALETTES_FREE {
        LoadedStep(st.hw, d.palette, i, 0);
        MappedStep(d.palette, i, 0);
        s := Set(s, i, ColourOf(d.palette[i]));
        e := e.(palette := e.palette[i := e.palette[i].(newPaletteEntry := i)]);
        s := s.(freeUsed := s.freeUsed + 1);
        n := n + 1;
      }
      i := i + 1;
    }
    return ToSigned32(d.colours), e, s;
  }

  /** `pal_BMP2Palette(bmpdata, reserved)`: returns the status, the bitmap with
      its palette (and perhaps pixels) remapped, and the new palette state.
      Only `reserved == 1` selects the reserved pool. */
  method BMP2Palette(d: BmpData, st: PalState, reserved: int) returns (ret: int, e: BmpData, s: PalState)
    requires BMP2PaletteCallable(d, st, reserved)
    ensures reserved == 1 && st.reservedUsed < PALETTES_RESERVED && d.colours <= ReservedRoom(st) ==>
              && ret == d.colours
              && s == st.(hw := Loaded(st.hw, d.palette, d.colours, PALETTES_FREE), reservedUsed := st.reservedUsed + d.colours)
              && e == d.(palette := Mapped(d.palette, d.colours, PALETTES_FREE), pixels := RemapAll(d, e.palette))
    ensures reserved == 1 && st.reservedUsed < PALETTES_RESERVED && d.colours > ReservedRoom(st) ==>
              && ret == -1
              && s == st.(hw := Loaded(st.hw, d.palette, ReservedRoom(st), PALETTES_FREE), reservedUsed := PALETTES_RESERVED)
              && e == d.(palette := Mapped(d.palette, ReservedRoom(st), PALETTES_FREE))
    ensures reserved == 1 && st.reservedUsed >= PALETTES_RESERVED ==>
              && ret == -1 && s == st
              && e == d.(palette := Mapped(d.palette, d.colours, PALETTES_FREE), pixels := RemapAll(d, e.palette))
    ensures reserved != 1 && st.freeUsed < PALETTES_FREE ==>
              var n := Min(d.colours, PALETTES_FREE - st.freeUsed);
              && ret == ToSigned32(d.colours)
              && s == st.(hw := Loaded(st.hw, d.palette, n, 0), freeUsed := st.freeUsed + n)
              && e == d.(palette := Mapped(d.palette, n, 0))
    ensures reserved != 1 && st.freeUsed >= PALETTES_FREE ==> ret == -1 && s == st && e == d
  {
    if reserved == 1 {
      if st.reservedUsed < PALETTES_RESERVED {
        ret, e, s := ReservedLoad(d, st);
      } else {
        ret, e, s := ReservedFull(d, st);
      }
    } else if st.freeUsed < PALETTES_FREE {
      ret, e, s := FreeLoad(d, st);
    } else {
      ret, e, s := -1, d, st;
    }
  }

  /** In the full-pool branch `new_palette_entry` is an `unsigned char`:
      colour 48 and above wrap round to registers 0, 1, ... of the artwork
      pool. */
  lemma FullPoolWraps(p: Palette)
    ensures Mapped(p, 256, PALETTES_FREE)[48].newPaletteEntry == 0
    ensures forall j :: 0 <= j < 48 ==> Mapped(p, 256, PALETTES_FREE)[j].newPaletteEntry == j + PALETTES_FREE
  {
  }

  /** A reserved-mode load keeps the allocation inside the reserved pool: no
      artwork or drawing register is written. */
  lemma ReservedStaysInPool(hw: Registers, p: Palette, n: nat)
    requires n <= PALETTES_RESERVED
    ensures forall j :: 0 <= j < PALETTES_TOTAL && !(PALETTES_FREE <= j < PALETTES_FREE + PALETTES_RESERVED) ==>
              Loaded(hw, p, n, PALETTES_FREE)[j] == hw[j]
  {
  }
}
