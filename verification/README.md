# pc98launcher core, modelled in Dafny

pc98launcher is a game launcher for the NEC PC-98 under DOS. It:

- scans directories of games and reads each game's `launch.dat` metadata;
- shows the games in a paged browser on the 640x400 256-colour PEGC screen, with artwork and a bitmap font;
- lets the user filter the list by genre or series;
- writes a `run.bat` for the chosen start file.

This project models the sequential core of that program as pure Dafny functions and small methods over immutable data, and proves properties of it. The core is:

- **BMP decoder** (`bmp.dfy`, module `Bmp`). The file is a byte sequence and `fseek`/`fread` are total functions over it. The decoder has three stages:
  - the header stage: little-endian fields at fixed offsets, then depth and compression checks and row geometry;
  - the colour-table stage;
  - the pixel stage: bottom-up, 4-byte-padded rows are rebuilt into a top-down, unpadded buffer.

  `bmp_ReadImage` and its three single-stage wrappers are included.
- **Font carver** (`font.dfy`, module `Font`): `bmp_ReadFont`, which cuts an 8 bpp sheet into a grid of glyph tiles, with the carver's one-row shift reproduced exactly.
- **Palette allocator** (`palette.dfy`, module `Pal`):
  - the hardware palette is a 256-entry RGB array with three pools: artwork 0..207, reserved 208..239, UI 240..255;
  - `pal_BMP2Palette` allocates hardware entries in two modes;
  - `pal_BMPRemap` rewrites pixels through the mapping;
  - `pal_ResetAll`, `pal_ResetFree` and `pal_Set` are included.
- **Framebuffer primitives** (`gfx.dfy`, module `Gfx`) on the 640*400-byte `vram_buffer`: `gfx_GetXYaddr`, `gfx_BoxFill`, `gfx_Box`, `gfx_Bitmap` (clipped blit) and `gfx_Puts` (glyph copy).
- **Game list** (`data.dfy`, module `Data`):
  - linked lists become sequences, with `next` as the following index;
  - `getGameid`, `getLast*`, the bubble sort `sortGamedata` and `swapGamedata`;
  - `strtok` splitting in `getImageList`;
  - the INI key handlers `launchdatHandler` and `configHandler`, and `launchdataDefaults`;
  - `getLaunchdata`, with the metadata file as an oracle.
- **Packed record** (`packed.dfy`, module `Packed`): the packed `launchdat_t` as its 454 bytes, and `launchdataDefaults` statement by statement, each text field cleared by `memset(field, '\0', strlen(field))`. A field filled to its size has no terminator, so its `strlen` runs on into the next field. This byte-level account is what `Data.LaunchdataDefaults` is proved against.
- **Filters** (`filter.dfy`, module `Filter`): `filter_None`, `filter_Genre`, `filter_Series`, `filter_GetGenres`, `filter_GetSeries` and `sortFilterKeys`.
- **Browser paging** (`ui.dfy`, module `Ui`):
  - the `startpos`/`endpos` window;
  - `ui_ReselectCurrentGame`;
  - the rows `ui_UpdateBrowserPane` draws;
  - the cursor offset of `ui_UpdateBrowserPaneStatus`.
- **Main loop** (`nav.dfy`, module `Nav`): one pass of `main`'s input loop. It covers:
  - the `active_pane` state machine over the CONFIRM, LAUNCH, HELP, FILTER_PRE, FILTER and BROWSER blocks;
  - the browser's line and page navigation;
  - the artwork cursor.

  Keys come from a sequence that stands for `input_get`.
- **Helpers**:
  - `fstools.dfy` (module `Fstools`): drive letter and number conversions, path splitting;
  - `utils.dfy` (module `Utils`): `byte2bin` and `short2bin`;
  - `base.dfy` (module `Base`): 32-bit wrap-around, little-endian decoding, `Option`.

C integer widths are explicit where they matter:

- unsigned arithmetic wraps modulo 2^32 (`Wrap32`);
- an unsigned value stored into an `int` is reinterpreted in two's complement (`ToSigned32`);
- `unsigned char` fields wrap modulo 256.

Undefined behaviour in the source becomes a precondition. Examples are an out-of-bounds array write, a dereference of a `NULL` pointer, and a read of `mapper[26]` whose value is unknown.

### Where the code and its documentation differ

The model follows the code in each case:

- **Font errors.** The font decoder's documented errors for a glyph table overflow and for unsupported font dimensions are never raised. `bmp_ReadFont` has no such checks. More than 96 glyphs, or a font width or height outside 1..16, write outside the symbol table, so they are preconditions of `Font.ReadFont`.
- **Remap index.** Palette entries are described as plain colours. The code stores the remap index `new_palette_entry` inside each entry: the palette stage sets it to the entry's own index (bmp.c:262), and the palette allocator rewrites it.
- **Field types.**
  - Width and height are described as signed. They are `unsigned int` (bmp.h:61-75).
  - The compression field is described as a 4-byte integer. It is a single `char`, so only one byte is read and compared (bmp.h:63, bmp.c:156-177).
- **Glyph tiles.** Symbol `k` is described as the `k`-th grid cell, top-left first. The carver copies each tile row from the offset the previous inner iteration left behind (bmp.c:457-463). Tile row `k >= 1` therefore holds cell row `k - 1`, and tile row 0 holds a row of the previous cell (`Font.TileRowShift`).
- **`fseek`.** `fseek` follows the C library. Seeking past the end succeeds, and the following `fread` delivers fewer bytes. Only a negative target fails. The header and palette stages give the same result as with a seek that fails past the end. The pixel stage differs only on a truncated last row.

## Model

| member | source | states |
|---|---|---|
| Bmp.Geometry | bmp.c:179-195 | once the depth is known, only the five derived fields change: `bytespp = bpp >> 3`, the unpadded and padded row sizes, `n_pixels` and `size` |
| Bmp.GeometryWholeBytes | bmp.c:190-195 | for whole-byte depths a row is `width * bytespp` bytes and `size` is exactly `height` unpadded rows; while a `float` holds the width exactly (below 2^24) the padded stride is the next multiple of four pixels, never shorter |
| Bmp.GeometryOneBit | bmp.c:185-189 | at 1 bpp a row is the width, rounded to a `float`, divided by 8 and rounded up; the buffer is the pixel count, rounded to a `float`, divided by 8 and rounded up; both are exactly `ceil(width / 8)` and `ceil(width * height / 8)` below 2^24 |
| Bmp.ToFloat | bmp.c:186-191 | `(float)` of an `unsigned` value is the value itself below 2^24 and never more than twice it |
| Bmp.ToInt | bmp.c:186-191 | `(int)` of a whole value is that value below 2^31 and always an `int` |
| Bmp.WideRowStrideShort | bmp.c:191 | an 8 bpp row of 2^24 + 1 pixels gets a padded stride one byte shorter than the row |
| Bmp.OneBitSizeRounds | bmp.c:188 | a 1 bpp image of 4097 x 4097 pixels gets a 2098176-byte buffer where its pixels need 2098177 bytes |
| Bmp.FourBitRowsEmpty | bmp.c:180 | at 4 bpp `bytespp` is 0, so rows and buffer are empty |
| Bmp.HeaderStage | bmp.c:44-209 | `BMP_ERR_READ` exactly when the file is too short for a field read before the failure point; `BMP_ERR_BPP` exactly when the depth is not 1, 4, 8 or 16, before the colour count and compression are read; `BMP_ERR_COMPRESSED` exactly when the one compression byte is non-zero, after every other field; on `BMP_OK` every field is the little-endian value at its offset and the geometry is derived; palette and pixels are untouched |
| Bmp.HeaderIdempotent | bmp.c:44-209 | reading the header into a record that already holds it changes nothing |
| Bmp.GeometryIgnoresDerived | bmp.c:179-195 | the geometry depends only on width, height and depth |
| Bmp.PaletteStage | bmp.c:217-267 | colour offset 0 gives `BMP_ERR_READ` and no change; otherwise `BMP_OK` exactly when every one of the `colours` 4-byte entries is readable; entry `i` holds blue, green, red from bytes `4i`, `4i+1`, `4i+2` of the table and remap index `i`; only the palette changes |
| Bmp.PaletteIgnoresReservedByte | bmp.c:226-263 | the fourth byte of a table entry never affects the result |
| Bmp.PaletteCursor | bmp.c:226-263 | status and final stream position depend on the file only through its length |
| Bmp.PaddingSkipIsLong | bmp.c:328-343 | the padding skip is the unsigned difference `row_padded - row_unpadded` read as a signed `long` |
| Bmp.FailureSticks | bmp.c:312-345 | once a row read fails, later rows change nothing |
| Bmp.DecodedRows | bmp.c:300-345 | after `k` rows the buffer holds file row `j` at buffer row `height - 1 - j` for every `j < k`, and zeros elsewhere |
| Bmp.PixelStage | bmp.c:275-376 | data offset 0 gives `BMP_ERR_READ`; `BMP_ERR_MEM` exactly when the request exceeds the heap; `BMP_OK` exactly when every row is read and the depth is 1, 4 or 8; a 16 bpp image reads every row and is then rejected with `BMP_ERR_BPP`; a refused allocation leaves `pixels` NULL, and a failure after allocating leaves it pointing at the freed buffer |
| Bmp.PixelStageImage | bmp.c:300-345 | the buffer the stage returns is the image top-down: buffer row `r` holds the unpadded part of file row `height - 1 - r` |
| Bmp.ReadPixelRows | bmp.c:312-345 | the row loop, walking the buffer pointer down from the last row, computes exactly the stage's result |
| Bmp.SlotOrder | bmp.c:300-325 | rows read earlier from the file are stored lower in the buffer |
| Bmp.ZeroStrideFails | bmp.c:314-322 | a zero-byte row is a short read: the loop stops at its first row |
| Bmp.FourBitNeverLoads | bmp.c:180-345 | a 4 bpp image with at least one row passes the header stage and then fails the pixel stage with `BMP_ERR_READ` |
| Bmp.OneBitBufferShort | bmp.c:185-189 | at 1 bpp the buffer can be shorter than the `height` rows the loop copies: a 1x8 image needs 8 bytes of a 1-byte buffer |
| Bmp.OneBitStrideShort | bmp.c:185-189 | at 1 bpp the padded stride can fall below the unpadded one: at width 9 the padding skip is -1 |
| Bmp.WellFormedStatus | bmp.c:275-376 | a well-formed file of depth 1, 4 or 8 with a non-empty row decodes to `BMP_OK`, leaving the stream after the last row's padding |
| Bmp.WellFormedImage | bmp.c:300-345 | in a well-formed file, buffer row `r` is the unpadded part of file row `height - 1 - r`, padding skipped |
| Bmp.ReadImage | bmp.c:18-377 | the selected stages run in order: a failing header or colour-table stage is the result; after them the result is the pixel stage's own, with the image decoded top-down on `BMP_OK`; without the pixel stage, the result is that of the last stage run, and with no stage selected, `BMP_OK` and no change |
| Bmp.ReadImageHeader | bmp.c:379-382 | exactly the header stage: colours and pixels stay, `BMP_OK` exactly for a long enough file of a supported depth without compression, and then the header fields are the file's |
| Bmp.ReadImagePalette | bmp.c:384-387 | exactly the colour-table stage: only the palette changes, and `BMP_OK` exactly when the offset is set and every entry is readable |
| Bmp.ReadImageData | bmp.c:389-392 | exactly the pixel stage: header fields and palette stay, and on `BMP_OK` the buffer is the image top-down |
| Font.GlyphIndexOrder | bmp.c:446-468 | row-major numbering gives each grid cell its own symbol, in reading order |
| Font.GlyphOfSymbol | bmp.c:446-468 | every symbol below `rows * columns` comes from exactly one cell: row `p / columns`, column `p % columns` |
| Font.CopyTileRow | bmp.c:459-461 | copies `font_width` bytes from `row_bytepos` into one tile row and changes nothing else |
| Font.CarveGlyph | bmp.c:457-463 | tile row `k` of the glyph is copied from the offset the previous row left, and `row_bytepos` ends `row_unpadded * (font_height - 1)` past `bytepos` |
| Font.CarveGlyphRow | bmp.c:451-472 | one glyph row of the grid is carved, and the offsets are left where the next row expects them |
| Font.CarveFont | bmp.c:440-473 | the symbol counter ends at `rows * columns`, and the symbol table holds the carved tiles of every cell |
| Font.NextGlyphRow | bmp.c:465-472 | after a row of glyphs, the row advance lands `bytepos` on the next glyph row |
| Font.AdvanceExact | bmp.c:465-472 | `bytepos` moves down by exactly one cell height per glyph row exactly when the cells fill the sheet's width |
| Font.GlyphBaseTight | bmp.c:446-468 | on such a sheet each glyph's `bytepos` is its cell's top-left pixel |
| Font.TileRowShift | bmp.c:457-463 | tile row `k >= 1` holds cell row `k - 1`; tile row 0 holds the last row of the previous cell |
| Font.FontSheet | bmp.c:428-429 | the grid is `width / font_width` by `height / font_height`, truncating |
| Font.HeaderRead | bmp.c:408-411 | the header is read only when asked; otherwise `status` keeps its prior value and the bitmap stays; the pixel pointer is never touched |
| Font.PaletteOnlyFourBit | bmp.c:413-418 | a palette-only call on a 4 bpp sheet is defined: the pixel stage frees its buffer and leaves its address in `pixels`, and `BMP_ERR_READ` is the status reported |
| Font.FontStages | bmp.c:408-418 | the header stage when asked; then, when asked, the colour table followed by the pixels, whose status replaces the table's; without the palette step the pixel pointer is the one passed in |
| Font.ReadFont | bmp.c:394-490 | without `data`, or with `pixels == NULL`: the stages' status and the font unchanged; with `pixels` set, to a held buffer or to one a pixel stage freed in this or an earlier call: font width and height set, then `BMP_OK` with every cell carved exactly at 8 bpp, and `BMP_ERR_BPP` with no symbols otherwise |
| Font.LoadFontSheet | ui.c:563-565 | the palette-only call, `pal_BMP2Palette` into the reserved pool and the data-only call, on a 4 bpp sheet: the data call finds the pointer the palette call freed, sets the font's width and height and returns `BMP_ERR_BPP` |
| Pal.Set | palette.c:181-193 | register `idx` takes the colour; every other register stays |
| Pal.ResetAll | palette.c:138-158 | every register black and both pool counters zero |
| Pal.ResetFree | palette.c:160-179 | the artwork registers 0..207 black and their counter zero; the other registers and the reserved counter stay |
| Pal.ResetsIdempotent | palette.c:138-179 | both resets can be repeated without effect, and `ResetFree` after `ResetAll` changes nothing |
| Pal.BMPRemap | palette.c:101-135 | `pixels == NULL`: `PALETTE_NO_PIXELS` and no change; a freed pointer (with `size` 0): `PALETTE_OK` and no change; a held buffer: `PALETTE_OK`, and each of the first `size` bytes `p` becomes `palette[p].new_palette_entry` |
| Pal.RemapIdentity | palette.c:121-129 | a palette that maps each index to itself leaves the pixels alone |
| Pal.RemapComposes | palette.c:121-129 | remapping twice is remapping once through the composed mapping |
| Pal.ReservedLoad | palette.c:43-69 | colour `i` goes to register `i + 208` and maps there, whatever the counter; the loop fails with -1 and no remap at colour 32 or when the pool fills; otherwise the pixels are remapped and `colours` is returned |
| Pal.ReservedFull | palette.c:70-81 | with the reserved pool full, every colour maps to `i + 208` as an `unsigned char`, no register is written, the pixels are remapped, and -1 is returned |
| Pal.FreeLoad | palette.c:83-97 | colour `i` goes to register `i` while the artwork counter is below 208; later colours keep their mapping; `colours` is returned |
| Pal.BMP2Palette | palette.c:29-99 | the five outcomes: reserved with room; reserved overflowing at colour 32 or a full pool mid-loop; reserved with the pool already full; artwork with room; artwork pool full (-1, no change) |
| Pal.FullPoolWraps | palette.c:76-77 | in the full-pool branch, colours 48 and above wrap round to registers 0, 1, … |
| Pal.ReservedStaysInPool | palette.c:43-69 | a reserved-mode load writes no artwork or UI register |
| Gfx.AddrWraps | gfx.c:190-195 | `640 * y + x` in `unsigned int` is the value plus 2^32 when negative |
| Gfx.GetXYaddr | gfx.c:187-204 | non-negative exactly when the unsigned offset is at most 640*400, which is then the result, so 640*400 itself is accepted; for in-range values, accepted exactly when `0 <= 640y + x <= 640*400` |
| Gfx.FillRun | gfx.c:447-454 | the column loop paints `n` bytes from the pointer and nothing else |
| Gfx.CopyRun | gfx.c:266-274 | the row copy copies `n` bytes of the source and nothing else |
| Gfx.Normalise | gfx.c:345-363 | the corners are swapped into order, and the far corner is clipped to 639/399 only when beyond 640/400 |
| Gfx.NormaliseOrders | gfx.c:345-355 | without clipping, the corners come out ordered and span the same box |
| Gfx.BoxFill | gfx.c:405-456 | -1 and no write exactly when the top-left offset is rejected; otherwise 0 and bands `y1..y2` painted over `x1..x2` |
| Gfx.BandsCover | gfx.c:443-455 | every byte of every band holds the colour |
| Gfx.BandsFrame | gfx.c:443-455 | bytes outside every band keep their value |
| Gfx.BoxFillPaints | gfx.c:405-456 | every pixel of rows `y1..y2` and columns `x1..x2` of the normalised box holds the colour |
| Gfx.BoxFillFrame | gfx.c:405-456 | for a box inside the screen's columns, no pixel outside the box changes |
| Gfx.DrawBox | gfx.c:337-403 | -1 and no write exactly when the top-left offset is rejected; otherwise 0 and the outline drawn |
| Gfx.SideRun | gfx.c:388-393 | the side loop paints the two side pixels of each row it covers |
| Gfx.OutlineTop | gfx.c:379-383 | the top edge is coloured over `x1..x2` |
| Gfx.OutlineBottom | gfx.c:385-400 | the bottom edge is coloured over `x1..x2`, one row below the last side row |
| Gfx.OutlineSides | gfx.c:388-393 | columns `x1` and `x2` are coloured on every row strictly between |
| Gfx.OutlineFrame | gfx.c:376-400 | every byte off both edges and off the side pixels keeps its value |
| Gfx.BottomRow | gfx.c:385-393 | the bottom edge is on row `y2` for a box at least two rows high, and on row `y1 + 1` for a flat one |
| Gfx.FlatBoxDrawsTwoRows | gfx.c:385-400 | a box whose corners share a row still colours two rows |
| Gfx.BitmapPlanClips | gfx.c:222-318 | for images no larger than the screen, the copy covers exactly the visible rows and columns, starting past the skipped source rows and columns |
| Gfx.Bitmap | gfx.c:206-335 | -1 and no write exactly when the first visible pixel is rejected; otherwise 0 and the visible rows copied, the source advancing `width` per row |
| Gfx.BitmapPlaces | gfx.c:248-332 | at one byte per pixel, visible pixel `(r, c)` comes from source row `r + max(0, -y)`, column `c + max(0, -x)` |
| Gfx.BlitCopies | gfx.c:266-331 | row `r` of the copy holds row `r` of the source |
| Gfx.BlitAt | gfx.c:266-331 | byte `c` of copied row `r` lands `640r + c` past the destination and comes from `r * width + c` past the source |
| Gfx.SymbolForInverts | gfx.c:519-524 | symbol `k` is drawn for character `ascii_start + k`, `k <= n_symbols`; every other character draws the unknown symbol |
| Gfx.Puts | gfx.c:475-546 | empty string: `GFX_TEXT_OK` and no write; width neither 8 nor 16: `GFX_TEXT_INVALID` and no write; otherwise `GFX_TEXT_OK` and every character's glyph drawn |
| Gfx.TextRun | gfx.c:517-536 | the character loop draws the glyphs left to right, `width` bytes apart |
| Gfx.TextStep | gfx.c:517-536 | each character's glyph fits the screen and is drawn over the text of the characters before it |
| Gfx.GlyphRun | gfx.c:527-532 | the row loop copies rows `0..height` of the symbol |
| Gfx.GlyphPlaces | gfx.c:527-532 | byte `i` of glyph row `k` lands `640k + i` past the cursor and comes from that cell of the symbol table |
| Gfx.GlyphFrame | gfx.c:527-532 | bytes off the glyph's rows keep their value |
| Gfx.TextPlaces | gfx.c:517-536 | for a string that fits on one screen row, row `k`, byte `i` of character `p`'s glyph is at `width * p + 640k + i` past the start and comes from its symbol |
| Gfx.TextLastKeeps | gfx.c:517-536 | on one screen row, a later glyph does not overwrite an earlier one |
| Data.StrCmpZero | data.c:161 | `strcmp` reports equality exactly for equal strings |
| Data.StrCmpFlip | data.c:161 | swapping the arguments flips the sign |
| Data.StrCmpTrans | data.c:157-171 | "not after" is transitive, so sorted neighbours give a sorted list |
| Data.StrNCmpZero | filter.c:311 | `strncmp` over 32 characters reports equality exactly when the truncated strings agree |
| Data.GetGameid | data.c:28-38 | the first game with the id, or none exactly when no game has it |
| Data.LastNode | data.c:40-66 | the walk from any node ends at the last one, whose `next` is `NULL` |
| Data.Swap | data.c:175-205 | the two nodes exchange gameid, drive, path, name and `has_dat`; every other node and all links stay; the list is a permutation of the old one |
| Data.SwapTwice | data.c:175-205 | swapping twice restores the list |
| Data.BubblePass | data.c:157-171 | one pass permutes the prefix before the stop node and carries its largest name to the end |
| Data.PassSwaps | data.c:161-168 | swapping an out-of-order pair carries the larger name one node on, and shows the pass's input was not sorted |
| Data.PassKeeps | data.c:161-168 | an in-order pair is left alone, and the larger name is already one node on |
| Data.SortGamedata | data.c:141-173 | returns 0; the result is a permutation of the list and sorted by `strcmp`; an already sorted list is unchanged |
| Data.StrTokStep | data.c:382-400 | each `strtok` call yields the next token of the split, and `NULL` exactly when none is left |
| Data.TokensAreWords | data.c:382-400 | every token is non-empty and free of `,`, `;` and space |
| Data.JoinSplits | data.c:382-400 | splitting a comma-joined list of words gives back those words |
| Data.GetImageList | data.c:371-409 | appends the first `min(16, tokens)` tokens, each cut to a file name, after the list's last node, and returns that count |
| Data.AtoiShow | data.c:228 | `atoi` reads back what `%d` printed, whatever non-digit follows |
| Data.LaunchdatHandler | data.c:207-254 | 1 exactly for a known key of `[default]`, which sets its field to the value: text cut to the field size, the year through `atoi`, the MIDI flags only when the value reads as 1; otherwise 0 and no change |
| Data.SetFrame | data.c:207-254 | setting a field changes no other field |
| Data.DeveloperFillsPublisher | data.c:221-222 | the `developer` key writes the publisher and leaves the developer alone |
| Data.YearRoundTrip | data.c:227-228 | a year written with `%d` is read back exactly |
| Data.LaunchdataDefaults | data.c:256-269 | every text field empty and every number zero; `alt_start` keeps its text unless `start` fills its 13 bytes, in which case it is cleared too |
| Data.DefaultsIdempotent | data.c:256-269 | resetting twice is resetting once |
| Data.FullStartClearsAltStart | data.c:238-239 | a `start` value of 13 characters or more is accepted, and the next reset clears `alt_start` |
| Data.StaleAltStart | data.c:256-269 | loading a file without an `alt_start` line into a reused record keeps the earlier game's alternative start file when its `start` was shorter than 13, and leaves `alt_start` empty otherwise |
| Packed.HoldsUnique | data.h:43-55 | the bytes of the packed record determine every text field it holds |
| Packed.ResetInRecord | data.c:256-269 | when `images` holds a terminator, every `strlen` of the reset meets one inside the record |
| Packed.ResetEmpties | data.c:256-269 | after the reset every text field but `alt_start` starts with a terminator |
| Packed.ResetInts | data.c:261-263 | after the reset the `int` bytes encode `DEFAULT_YEAR`, 0 and 0 |
| Packed.ResetKeepsAlt | data.c:256-269 | when `start` holds a terminator, no run passes it, and the bytes of `alt_start` are unchanged |
| Packed.ResetClearsAlt | data.c:256-269 | when `start` fills its field, the run from `start` clears the first byte of `alt_start` |
| Packed.ResetBytesMeaning | data.c:256-269 | the byte-level reset of a record holding `ld` with a terminated `images` is defined, and the record then holds `Data.LaunchdataDefaults(ld)` |
| Data.LoadMeta | data.c:281-302 | only a game with `has_dat == 1` is looked up; otherwise there is no metadata |
| Data.ConfigHandler | data.c:304-324 | `verbose`, `gamedirs` (cut to 1024), `savedirs` into `save`, and `preload_names` set their field and return 1; anything else returns 0 and changes nothing |
| Filter.IdRoundTrip | filter.c:226-234 | an id stored in the unsigned selection list reads back unchanged |
| Filter.CountPages | filter.c:239-250 | `total_pages` is the number of multiples of 14 in `0..selected_max`, which is `selected_max / 14 + 1` |
| Filter.Conclude | filter.c:239-250 | page 1, line 0, keyword index 0, every keyword slot empty, `total_pages = selected_max / 14 + 1`, and the first selected id and its game picked |
| Filter.FilterNone | filter.c:200-253 | slot `k` of the selection holds the id of game `k`, `selected_max` is the number of games, the rest of the list is zero, and the filters' closing state holds |
| Filter.KeepsMeaning | filter.c:297-329 | a game passes exactly when it has a `launch.dat`, its metadata loads, and its keyword equals the chosen one up to 32 characters |
| Filter.SelectKeyword | filter.c:297-329 | the selection is the ids of the games that pass, in list order, then zeros |
| Filter.KeptShort | filter.c:297-329 | the selection is never longer than the list of games |
| Filter.KeptGrows | filter.c:297-329 | a longer prefix of the list selects at least as many games |
| Filter.FilterKeyword | filter.c:255-350 | the chosen keyword is copied before the keyword slots are cleared; the games that pass are selected and the conclusion holds |
| Filter.FilterGenre | filter.c:255-350 | `filter_Genre` selects on the genre field |
| Filter.FilterSeries | filter.c:352-444 | `filter_Series` selects on the series field |
| Filter.DedupMeaning | filter.c:65-97 | the collected keywords hold each value once, and exactly the values present |
| Filter.KeywordsGrow | filter.c:65-97 | a longer prefix of the list has at least as many distinct keywords |
| Filter.SortMeaning | filter.c:29-34 | sorting distinct keywords keeps exactly those keywords and orders them strictly by `strcmp` |
| Filter.SortedKeywords | filter.c:36-116 | the sorted keyword list holds each non-empty keyword once, in strictly increasing order |
| Filter.CollectKeywords | filter.c:65-97 | the distinct non-empty keywords in order of first appearance, then empty slots |
| Filter.GetKeywords | filter.c:36-116 | the slots are cleared and hold the sorted distinct non-empty keywords, then empty strings; the count is their number; nothing else changes |
| Filter.GetGenres | filter.c:36-116 | `filter_GetGenres` on the genre field |
| Filter.GetSeries | filter.c:118-198 | `filter_GetSeries` on the series field |
| Ui.StartPos | ui.c:607-611 | never negative; 0 on page 0; `(page - 1) * 14` when that fits an `int` |
| Ui.EndPos | ui.c:613-619 | at most 14 past the start; `min(start + 14, selected_max)` |
| Ui.Picked | ui.c:625-640 | the slot the cursor names lies in the window, with `endpos` included |
| Ui.ReselectCurrentGame | ui.c:597-641 | returns `UI_OK`; the id becomes `selected_list[startpos + selected_line]` exactly when the line is at most `endpos - startpos`; otherwise nothing changes |
| Ui.UpdateBrowserPane | ui.c:652-706 | draws exactly slots `startpos..endpos-1`, each at its row's y position with the name of the first game holding its id |
| Ui.CursorOffset | ui.c:716-720 | `(font height + 2) * selected_line` whenever that fits an `int` |
| Ui.CursorOnRow | ui.c:692-720 | on every line a page shows, the cursor is level with that line's row |
| Ui.PagesTileList | ui.c:607-619 | entry `i` is on page `i / 14 + 1` at line `i % 14`, inside that page's window, and within the page count |
| Ui.PickedIsDrawn | ui.c:625-640 | when the cursor is on a drawn row, the game it names is the one drawn there |
| Ui.PastLastRowPicksEnd | ui.c:625-640 | with 20 games, line 6 of page 2 names slot 20, one past the selection |
| Nav.KeyCodesDistinct | input.h:20-30 | distinct keys have distinct codes |
| Nav.PaneCodesDistinct | ui.h:179-186 | distinct panes have distinct codes |
| Nav.MoveUp | main.c:866-885 | on line 0: line 0 of the previous page, wrapping from page 1 to the last page; otherwise one line up |
| Nav.MoveDown | main.c:886-905 | on line 13 or line `selected_max - 1`: line 0 of the next page, wrapping from the last page to page 1; otherwise one line down |
| Nav.NavKeepsBrowsable | main.c:866-934 | the four navigation keys keep the page in `1..total_pages` and the line in `0..13` |
| Nav.DownThenUp | main.c:866-905 | inside a page, Down then Up returns to the same line |
| Nav.UpThenDown | main.c:866-905 | below the top of a page, on an entry, Up then Down returns to the same line |
| Nav.PageForwardThenBack | main.c:906-934 | paging forward then back returns to the same page, on line 0 |
| Nav.NavKeepsOnList | main.c:866-934 | while the last page is not empty, Up and both page keys keep the cursor on an entry |
| Nav.DownLeavesPartialPage | main.c:886-905 | on a partly filled later page, Down can leave the list: 20 games, page 2, line 5 goes to line 6 |
| Nav.UpToEmptyLastPage | main.c:866-885 | when the selection is a multiple of 14 long, Up from page 1 lands on the empty last page |
| Nav.FullListDownOverruns | main.c:886-905 | with all 999 slots used, Down from line 4 of the last page makes the scan read slot 999, past the list |
| Nav.ImageLeftRight | main.c:935-958 | Left undoes Right, and Right undoes Left |
| Nav.RightCycles | main.c:947-958 | `n + 1` presses of Right return to the start |
| Nav.RightWalks | main.c:947-958 | from the head, `t` presses of Right reach file `t` |
| Nav.Quitting | main.c:501-505 | Quit stops the loop and empties `run.bat` |
| Nav.ConfirmBlock | main.c:499-535 | Quit stops; Cancel returns to the browser and picks the cursor's game again; Select writes `run.bat` for the chosen start file and stops |
| Nav.LaunchBlock | main.c:542-590 | Quit stops; Cancel returns to the browser and picks the cursor's game again; Select opens the confirmation popup; Up and Down store the popup's highlight in the start-file selection; other keys change nothing |
| Nav.HelpBlock | main.c:597-607 | only Quit acts |
| Nav.FilterPreBlock | main.c:617-706 | Select with `FILTER_NONE` selects every game and returns to the browser; with a keyword mode it collects that mode's keywords and opens the keyword popup; both read the next key; Cancel returns to the browser and picks the cursor's game again; Up and Down store the popup's highlight in the filter-mode selection; other keys change nothing |
| Nav.FilterBlock | main.c:717-787 | Select applies the keyword filter of the current mode, returns to the browser and reads the next key; Cancel returns to the browser and picks the cursor's game again; Up and Down store the popup's highlight in the keyword selection; other keys change nothing |
| Nav.BrowserBlock | main.c:794-865 | Quit stops; the filter key opens the filter-mode popup; Select offers the game's start files; other non-cursor keys change nothing |
| Nav.ChooseStart | main.c:817-865 | a game with a `launch.dat` opens the start-file popup with `START_MAIN` when it has both start files, the confirmation with the one it has otherwise, and nothing when it has neither |
| Nav.BrowserMove | main.c:866-958 | the navigation keys move the cursor and pick its game again; Left and Right step through the artwork when there is any |
| Nav.Step | main.c:491-961 | one pass keeps the browser state browsable and the artwork cursor in its list; only later keys are left unread; Quit stops and empties `run.bat`; Cancel closes a popup; `run.bat` changes only when the loop stops; going from the browser to the confirmation means the start file is present |
| Fstools.DriveLettersInOrder | fstools.c:29 | the drive table holds `A`..`Z` in order |
| Fstools.DrvNumToLetter | fstools.c:26-36 | drive `n < 26` gives letter `'A' + n`; `n > 26` gives NUL |
| Fstools.DrvLetterToNumMeaning | fstools.c:38-51 | a capital letter gives its drive number; any other character gives -1, unless it equals the byte after the table |
| Fstools.DriveRoundTrip | fstools.c:26-51 | the two conversions invert each other on drives `A` to `Z` |
| Fstools.DrvLetterFromPath | fstools.c:53-70 | `path[0]` exactly when the path is at least 3 long with `:` second; NUL otherwise |
| Fstools.DirFromPath | fstools.c:72-98 | 0 exactly for such a path, with the text after `X:\` copied into the buffer; -1 and no change otherwise |
| Fstools.PathSplits | fstools.c:72-98 | drive letter, `:`, separator and the copied directory give the path back |
| Fstools.TrailingSeparatorKept | fstools.c:80-90 | a trailing backslash is copied like any other character |
| Utils.BinaryValue | utils.c:32-35 | the digits read as binary give `n` modulo `2^bits` |
| Utils.ValueBinary | utils.c:32-35 | a digit string is the text of the value it spells |
| Utils.TwosComplement | utils.c:21-61 | the text of a negative `char` or `short` reads back as the value plus `2^bits` |
| Utils.Digits | utils.c:32-35 | the loop writes the `bits` digits, most significant first, and leaves the rest of the buffer |
| Utils.ToBin | utils.c:21-41 | the routine's own buffer is used exactly when the caller passes `NULL`; the digits then a NUL at index `bits`; the other buffer and the rest are untouched |
| Utils.Byte2Bin | utils.c:21-41 | 8 digits of the byte, then a NUL at index 8, and the rest of that buffer untouched; the routine's own buffer is used exactly when the caller passes `NULL`, and the other buffer stays |
| Utils.Short2Bin | utils.c:43-61 | 16 digits of the short, then a NUL at index 16, and the rest of that buffer untouched; the routine's own buffer is used exactly when the caller passes `NULL`, and the other buffer stays |

## Left out

- File I/O: `fopen`, `fclose`, `ftell` and `printf` are left out. `fseek`/`fread` are pure functions over a byte sequence, and the unchecked seeks never fail.
- Hardware: `outportb` is left out, along with `_farpokeb`, DPMI mapping, `gfx_Init`/`gfx_Close`/`gfx_Flip`/`gfx_TextOn`/`gfx_TextOff`/`gfx_HasMemoryHole` and `pal_SetUI`. The palette is a 256-entry array, and `pal_Set` updates it.
- input.c is not part of this model. Keys are a sequence. The help and filter keys, which have no code in input.h, are modelled as keys with no code.
- The popup cursor routines (`ui_DrawLaunchPopup`, `ui_DrawFilterPrePopup` and `ui_DrawFilterPopup`) are not part of this model. Up and Down inside a popup store the value such a routine computes, given by an oracle over pane, state and key (`Nav.Env.toggle`), in that popup's selection field; how the routine picks it is not modelled.
- The redraw block at the end of the main loop (main.c:962-1085) is left out, along with `sleep` and save-file writing. Besides drawing, it updates state: `selected_game` from `getGameid` (main.c:1013), `selected_gameid` back to the old id when that lookup fails (main.c:1014-1021), `has_launchdat`, `has_images` and `selected_image` (main.c:975-1004, 1036, 1052, 1059-1067), the metadata through `getLaunchdata` (main.c:1023-1038) and the image list through `getImageList` (main.c:1047-1053). The navigation pass takes the results as inputs: `Nav.Env.launchdat`, `Nav.Env.images` and the screen's `selectedGame`.
- `ui_DisplayArtwork`, `ui_UpdateInfoPane` and the asset loading routines are left out as drawing.
- `ini_parse`, `getIni`, `getDirList`, `findDirs`, `isDir`, `dirHasData`, `getcwd` and `chdir` are external or filesystem code and are left out. `getLaunchdata` reads metadata through an oracle from game to optional metadata.
- Memory management is left out: `malloc`/`free`, `bmp_Destroy`, `bmp_DestroyFont`, `removeGamedata` and `removeImagefile`. The pixel pointer alone is tracked (`Bmp.PixelPtr`): a held buffer, NULL, or the address of a buffer the pixel stage freed without clearing the pointer.
- Font.ReadFont: a freed pointer, from this call or an earlier one, still counts as set. The builder then sets the font's size and, away from 8 bpp, returns `BMP_ERR_BPP`. At 8 bpp it would read the freed buffer, so a freed 8 bpp image is a precondition. The later double free in `bmp_Destroy` is not modelled.
- Pal.BMPRemap: a freed pointer with a non-zero `size` is a precondition, since the loop would read and write the freed buffer. At 4 bpp `size` is 0 and the call returns `PALETTE_OK` without touching it.
- Bmp.PixelStage: a zero-byte `calloc` (4 bpp, bmp.c:289) is taken to succeed. Whether it returns NULL is implementation-defined; if it did, bmp.c:291-296 would return `BMP_ERR_MEM`. `Bmp.FourBitNeverLoads`, `Font.PaletteOnlyFourBit` and `Font.LoadFontSheet` rest on this.
- Filter.SortStrings: `qsort` is specified as the unique strictly sorted order of distinct keywords, not as its algorithm.
- Bmp.Geometry: `float` is modelled only as far as the geometry needs it. `(float)` of an `unsigned` value rounds to a 24-bit significand, ties to even (`Bmp.ToFloat`). Division by 4 or 8, `ceil` and the product by 4 are exact on such values, so they are integer operations. `(int)` of a value of 2^31 or more is taken to give `0x80000000`, as on x86. The signed `int * bytespp` product wraps modulo 2^32. The 1 bpp padded-row formula is kept as written.
- Bmp.GeometryWholeBytes: the padded-stride bounds are proved only for widths below 2^24, because `float` rounds wider widths and the stride can then fall below the row (`Bmp.WideRowStrideShort`).
- Bmp.GeometryOneBit: the exact `ceil(width / 8)` and `ceil(width * height / 8)` are proved only below 2^24. Above it the sizes follow the rounded `float`, and the buffer can fall short of the pixels (`Bmp.OneBitSizeRounds`).
- Data.GetImageList: the `return -1` branch (data.c:406-408) is dead. It is the `else` of `if (launchdat->images != NULL)` (data.c:380), and `images` is an array member, whose address is never `NULL`. The `prev` links are implied by the sequence order.
- Linked lists are sequences. `next` is the following index, and `prev` is the preceding one.
- Undefined behaviour is a precondition, not modelled behaviour:
  - `colours > 256`;
  - more than 96 glyphs, or font dimensions outside 1..16;
  - writes outside `vram_buffer` or the symbol table;
  - more than 32 distinct keywords;
  - more games than the 999-entry selection list;
  - `drvNumToLetter(26)`;
  - Left on the head of the artwork list, whose `prev` is never set;
  - Select in the browser when no game carries the selected id, since the `NULL` that `getGameid` returns is dereferenced.
- Data.GetImageList: `images` must be shorter than its 256 bytes. An `images` value of 256 characters or more is stored by `strncpy` without a terminator (data.c:245), copied into `buffer` still without one (data.c:381), and `strtok` then reads past `buffer`.
- Data.LaunchdataDefaults: `images` must be shorter than its 256 bytes, for the same reason. `strlen(launchdat->images)` (data.c:267) would read past the end of the record. The other text fields need no such bound, because their runs stay inside the record (`Packed.ResetInRecord`).
- Packed.ResetBytesMeaning: the bytes are taken to hold a record whose text fields were stored by the handler (`Packed.Holds`). The first load into a freshly allocated record runs `strlen` over indeterminate bytes, and what it clears there is not modelled. This happens at main.c:1027-1028, and in the filters after each fresh `launchdat_t` allocation: filter.c:48 then 71 (`filter_GetGenres`), 130 then 153 (`filter_GetSeries`), 266 then 303 (`filter_Genre`), and 360 then 398 (`filter_Series`).
- Bmp.RowsFit: the pixel stage requires the copied rows to fit the buffer. At 1 bpp they can overrun it (`Bmp.OneBitBufferShort`), which writes outside the allocation and is left unmodelled.
- Filter.KeywordsTerminated: the keyword slots are taken to be NUL-terminated. A genre or series of 32 characters or more is copied by `strncpy` without a terminator (data.c:219, data.c:248), and what later string functions then read is not modelled.
- Fstools.DrvNumToLetter: the drive number must be non-negative. A negative number indexes before the table, which is undefined behaviour.
- Gfx.Coord: `gfx_Bitmap` is modelled for coordinates of magnitude below 65536. Larger ones are defined in C: at `y = 70000` the start offset is rejected and `gfx_Bitmap` returns -1 (gfx.c:286-292). They are outside this model.
- Fstools.DrvLetterToNumMeaning: the value of `mapper[26]`, read past the table, is an explicit parameter and not a known byte.
- Utils.Digits: `>>` on a negative value is taken to be an arithmetic shift, as on the compilers the launcher targets.
- Gfx.BlitCopies, Gfx.BitmapPlaces: stated for runs no wider than a screen row, where no later run covers an earlier one. Wider images are not supported by `gfx_Bitmap`.
- Gfx.TextPlaces, Gfx.TextLastKeeps: stated for strings that fit on one screen row. Longer strings overlap the next row and are only described by `Gfx.Puts`'s reference output.
- Gfx.BoxFillFrame: stated for boxes inside the screen's columns. A box past column 639 wraps into the next row.
- Ui.StartPos, Ui.CursorOffset: the exact value is stated only where the C arithmetic does not overflow. Elsewhere the result is stated only as a range.
- The big-endian byte-swap comment (bmp.c:347-348) names no code, and nothing is swapped.
