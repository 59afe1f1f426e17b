# emacs-wayland-gl glyph pipeline — a Dafny model

This project models the CPU-side bookkeeping of the emacs-wayland-gl text
renderer in Dafny. It covers two parts.

The MSDF atlas library (`src/msdf_gl.c`, `src/msdf_gl.h`):
- context creation and release;
- the orthographic projection helper;
- `msdf_gl_generate_glyphs`. For an inclusive range of glyph ids it sums the outline stream sizes and serializes the streams back to back. It packs each glyph's padded footprint into the atlas with a greedy shelf packer and fills the per-glyph index and the 256-slot advance table. It issues one generator draw per glyph and returns a count.

The legacy window code (`src/egl_window.c`, `src/wlterm.c`):
- the FreeType bitmap atlas packer of `load_font`;
- `parse_color`;
- the `draw_text` layout and batching machine;
- the frame slot table with its key handler;
- the scissor y-flip, scroll clamp, line-number column and visible-line loop of `window_render`;
- the per-axis scroll sample windows fed by pointer axis, frame and axis-stop events.

GL, FreeType, the MSDF outline service and Wayland are not modelled. Their results enter the model as inputs:
- a `GlyphOutline` per glyph: metadata bytes, point bytes and metrics;
- a `Bitmap` per FreeType glyph;
- the set of creation steps that fail;
- raw axis values and timestamps.

Modules follow the source:
- `ShelfPacker` is the shelf-packing algorithm both atlases share. It is parametrised by the start margin, whether the row height resets on wrap, and the texture width.
- `MsdfHeader` holds the header's data contracts.
- `MsdfGl` models `msdf_gl.c`.
- `LegacyFont`, `Color`, `TextBatch`, `Frames` and `WindowRender` model `egl_window.c`.
- `Scroll` models the scroll handlers of `wlterm.c`.

Code that mutates state is modelled as classes and methods over arrays, each proved against a function on sequences:
- the generator's loops;
- `load_font`'s loop;
- `draw_text`'s static buffer;
- the frame table;
- the scroll windows.

Lemmas state the properties of those functions:
- disjointness of packed footprints;
- prefix-sum stream offsets;
- round trips;
- loop-exit characterisations.

Where the code and its documentation disagree, the model follows the code:
- `msdf_gl_generate_glyphs` is documented as taking an inclusive range. It processes `end - start + 1` glyphs, but it rejects `start == end` and returns `end - start`. `MsdfGl.Font.GenerateGlyphs` states all three facts.
- `load_font`'s packer never resets the row height on wrap. The MSDF packer does.

## Model

| member | source | states |
|---|---|---|
| ShelfPacker.Place | src/msdf_gl.c:267-281 | a glyph goes at the cursor, or at the margin of the next row (row height + 1 lower) exactly when it would cross the texture width; it keeps its size; fits inside the width when its width fits beside the margin |
| ShelfPacker.CursorRightOfMargin | src/msdf_gl.c:267-284 | with non-negative widths the cursor never moves left of the start margin and the row height stays non-negative |
| ShelfPacker.PackDisjoint | src/msdf_gl.c:267-284 | any two packed rectangles are separated by at least one texel, horizontally on one row or vertically across rows |
| ShelfPacker.RowsNonDecreasing | src/msdf_gl.c:267-270 | the row (y) of a later rectangle is never above an earlier one |
| ShelfPacker.AtMarginIffNewRow | src/msdf_gl.c:267-270 | a rectangle after the first sits at the margin iff it starts a lower row iff the packer wrapped for it |
| ShelfPacker.FirstAtMargin | src/msdf_gl.c:252 | the first rectangle sits at the margin, on the first row, or on the second when it is wider than the first row |
| MsdfHeader.RangeCount | src/msdf_gl.h:152-156 | an inclusive range covers last - first + 1 ids, and none exactly when inverted |
| MsdfHeader.AsciiRangeFits | src/msdf_gl.h:166 | the ASCII shortcut covers 129 ids, all inside the 256-slot advance table |
| MsdfHeader.AsciiExtWritesPastTable | src/msdf_gl.h:167 | the extended-ASCII shortcut as written covers 257 ids and its last id is slot 256, outside the table |
| MsdfHeader.AsciiExtCorrected | src/msdf_gl.h:77-78 | the corrected shortcut range lies inside the table and covers exactly its 256 slots |
| MsdfGl.CreateFrom | src/msdf_gl.c:105-193 | taking the creation steps in order yields a context iff no step fails; otherwise creation stops at the first failing step and releases exactly the programs deleted on that exit path |
| MsdfGl.CreateContext | src/msdf_gl.c:105-193 | `msdf_gl_create_context` returns a context iff no step fails, and every context resolves the same parameter names; NULL releases what the first failing step in source order deletes |
| MsdfGl.DestroyContext | src/msdf_gl.c:429-438 | NULL is a no-op; otherwise both shader programs are released |
| MsdfGl.OrthoMapsBoxToClipCube | src/msdf_gl.c:62-79 | the orthographic matrix maps the box's near-bottom-left corner to (-1,-1,-1) and far-top-right corner to (1,1,1) |
| MsdfGl.AtlasIndexAt | src/msdf_gl.c:254-284 | index entry k is glyph k's metrics at the packer's k-th placement |
| MsdfGl.AtlasEntrySize | src/msdf_gl.c:261-262 | entry k's size is ((width + range) * scale, (height + range) * scale) |
| MsdfGl.AtlasEntryMetrics | src/msdf_gl.c:274-281 | entry k carries glyph k's own width, height and bearings |
| MsdfGl.AtlasEntryInside | src/msdf_gl.c:267-284 | an entry whose width + 1 fits the texture ends inside the texture width |
| MsdfGl.AtlasIndexDisjoint | src/msdf_gl.c:267-284 | the footprints of any two entries of one batch are at least one texel apart |
| MsdfGl.AtlasRows | src/msdf_gl.c:252-272 | rows never go up; the first entry is at x = 1; an entry sits at x = 1 iff it starts a lower row iff the packer wrapped for it |
| MsdfGl.GlyphStreamsAtOffsets | src/msdf_gl.c:236-265 | the serialized streams are exactly as long as the summed sizes, and glyph k's bytes sit at the sum of the sizes of glyphs 0..k-1 |
| MsdfGl.PointIndexExact | src/msdf_gl.c:396 | with point streams made of 8-byte points, the point offset divided by 8 loses nothing |
| MsdfGl.DrawFor | src/msdf_gl.c:386-396 | a generator draw covers the entry's box, samples at its atlas offset and translates by (-bearing_x + range/2, glyph_height - bearing_y + range/2) |
| MsdfGl.IssueGeneratorDraws | src/msdf_gl.c:382-405 | the draw loop issues exactly the draws `GeneratorDraws` describes, one per glyph |
| MsdfGl.GeneratorDrawAt | src/msdf_gl.c:382-405 | draw k uses entry k's offsets, the running metadata offset and the running point offset / 8 |
| MsdfGl.SumStreamSizes | src/msdf_gl.c:236-242 | the size loop's sums equal the total lengths of the two serialized streams |
| MsdfGl.AppendGlyphStreams | src/msdf_gl.c:257-265 | one glyph's streams are appended at the running pointers, which move past them |
| MsdfGl.PackStep | src/msdf_gl.c:267-284 | one iteration's cursor update is the packer's placement and advance |
| MsdfGl.PlaceGlyph | src/msdf_gl.c:267-284 | one iteration extends the index by the packer's next entry |
| MsdfGl.SerializeGlyph | src/msdf_gl.c:254-286 | one iteration extends the streams and the index and sets exactly advance slot start + i |
| MsdfGl.SerializeAndPack | src/msdf_gl.c:249-286 | the serialization loop leaves the two streams, the full atlas index, 8 floats per glyph of index size, and the batch's advances at slots start.. with other slots unchanged |
| MsdfGl.Font.constructor | src/msdf_gl.c:196-221 | a loaded font records range, scale and texture size with a 256-slot advance table and nothing generated |
| MsdfGl.Font.GenerateGlyphs | src/msdf_gl.c:223-427 | -1 and no change when end - start <= 0; otherwise end - start + 1 glyphs processed but end - start returned, with the streams, the atlas index, the draws, the projection and vertical advance set and exactly the advance slots start..end overwritten |
| LegacyFont.VertexRecordAt | src/egl_window.c:249-253 | floats 6i..6i+6 are glyph i's packed offset, width, rows, left and -top |
| LegacyFont.LoadGlyph | src/egl_window.c:234-254 | one iteration moves the cursor one placement, appends glyph i's record and sets advance i to advance.x >> 7 only |
| LegacyFont.LoadFont | src/egl_window.c:191-256 | NULL when the face does not load; otherwise 4096 texture size, line height metrics.height >> 7, advances advance.x >> 7, vertex data exactly `Vertices` |
| LegacyFont.Font.constructor | src/egl_window.c:192-229 | a fresh font with a 4096 texture, 254 advance slots and 254 * 6 vertex floats |
| LegacyFont.RowHeightIsRunningMax | src/egl_window.c:245 | the row height after n glyphs is the tallest bitmap so far, never reset on wrap |
| LegacyFont.LegacyPackDisjoint | src/egl_window.c:237-254 | any two bitmaps are placed at least one texel apart |
| LegacyFont.LegacyRowsNonDecreasing | src/egl_window.c:237-240 | a later bitmap's row is never above an earlier one's |
| Color.HexDigit | src/egl_window.c:46 | the digit written for a nibble reads back as that nibble |
| Color.TwoHexDigits | src/egl_window.c:45-46 | `strtol` in base 16 reads two hex digits as 16 * high + low, within 0..255 |
| Color.ParseColor | src/egl_window.c:41-51 | channel k is chars 2k..2k+1 read in base 16 over 255, and the status is always 1 |
| Color.ParseHexColor | src/egl_window.c:41-51 | for six hex digits each channel is its byte over 255, within [0, 1] |
| Color.HexByteRoundTrip | src/egl_window.c:46 | reading a byte's two-digit hex spelling gives the byte back |
| Color.ParseFormatRoundTrip | src/egl_window.c:41-51 | parsing the rrggbb spelling of any byte triple gives those bytes over 255 |
| TextBatch.NewlineStep | src/egl_window.c:408-411 | a newline returns the pen to base_x one line lower and emits nothing |
| TextBatch.GlyphStep | src/egl_window.c:413-423 | any other character is emitted at the pen (at base_x for a carriage return) and moves the pen right by its advance |
| TextBatch.TextBatcher.constructor | src/egl_window.c:402-403 | the static buffer starts empty with nothing drawn |
| TextBatch.TextBatcher.DrawPending | src/egl_window.c:426-430 | drawing the pending glyphs appends them as one batch and empties the buffer |
| TextBatch.TextBatcher.Push | src/egl_window.c:416-422 | a full buffer is drawn as one batch of exactly MAX_GLYPHS_PER_DRAW before the glyph is appended; drawn-plus-pending grows by the glyph |
| TextBatch.TextBatcher.EmitGlyph | src/egl_window.c:416-422 | one emitted glyph keeps the order invariant and the full-batch invariant of the draw log, and leaves the buffer non-empty |
| TextBatch.TextBatcher.DrawText | src/egl_window.c:399-432 | drawn batches plus the pending buffer grow by exactly the emitted glyphs in order; every new batch is full except a final flushed one; flush empties the buffer; without flush the buffer is empty only if it was and nothing was emitted, so a full buffer stays pending until the next glyph |
| TextBatch.EmittedSpellsText | src/egl_window.c:407-422 | the keys of the emitted glyphs are the text without its newlines |
| TextBatch.EmittedCount | src/egl_window.c:407-422 | one glyph per non-newline character, each in the call's colour |
| TextBatch.PenLine | src/egl_window.c:408-411 | the pen's y is y + vertical_advance per newline so far, and x is base_x right after a newline |
| Frames.Frame.constructor | src/egl_window.c:303-328 | a new frame is 200 x 200 at scale 2, open, with an 18-pixel minibuffer and a root window filling the rest |
| Frames.FirstFree | src/egl_window.c:295-300 | the slot search stops at the lowest NULL slot |
| Frames.CountFill | src/egl_window.c:393 | filling a free slot counts one more open frame |
| Frames.CountFree | src/egl_window.c:658-663 | freeing an occupied slot counts one fewer |
| Frames.FreeSlotExists | src/egl_window.c:297-300 | fewer open frames than slots means the search finds a free slot |
| Frames.FrameTable.constructor | src/egl_window.c:64-65 | all slots NULL, no frame open |
| Frames.FrameTable.Create | src/egl_window.c:294-397 | NULL and no change when the table is full; otherwise a fresh open 200 x 200 frame at scale 2 with a fresh root window, in the lowest free slot, and one more open frame, keeping open_frames equal to the occupied slots |
| Frames.FrameTable.Close | src/egl_window.c:649-664 | the frame is marked closed, exactly its slot becomes NULL and open_frames drops by one, keeping the count invariant |
| Frames.FrameTable.KeyboardKey | src/wlterm.c:340-352 | releases and other keys leave the slots, the count and the focused frame untouched; a c press closes the focused frame and frees exactly its slot; an n press on a full table changes nothing, otherwise a fresh open 200 x 200 frame at scale 2 fills the lowest free slot |
| WindowRender.ScissorRoundTrip | src/egl_window.c:485-490 | the bottom-left scissor box converts back to the top-left region it came from |
| WindowRender.ScissorInsideFrame | src/egl_window.c:485-490 | a region inside the frame yields a scissor box inside the scaled frame whose top edge is (height - y) * scale |
| WindowRender.ClampScroll | src/egl_window.c:494-495 | a clamped position is at most 0, equal to the input when that is not positive |
| WindowRender.DigitCountIsCeilLog10 | src/egl_window.c:515 | the digit count of nlines is ceil(log10(nlines + 1)) |
| WindowRender.LabelsFillColumn | src/egl_window.c:515-580 | every label of lines 1..nlines is ncols wide, and linum_width is col_width * (ncols + 2) |
| WindowRender.VisibleLines | src/egl_window.c:561-564 | the line loop draws the lines before the first line below the band that are not above it |
| WindowRender.NotAboveMembers | src/egl_window.c:563 | a line is drawn iff it is in range and not above the band |
| WindowRender.FirstBelowIsFirst | src/egl_window.c:564 | the loop stops after line j iff no line up to j is below the band |
| WindowRender.VisibleLinesAreBand | src/egl_window.c:561-579 | line i is drawn iff it exists and is neither above nor below the band, and lines are drawn in increasing order |
| Scroll.Slide | src/wlterm.c:94-99 | one sample shifts every entry one slot forward and puts the new sample last |
| Scroll.SlideAllKeepsNewest | src/wlterm.c:94-99 | after a run of samples the window holds the newest ones in arrival order |
| Scroll.AxisRunWindow | src/wlterm.c:94-98 | after at least a window's worth of axis events the distance window is the last values / 250 |
| Scroll.PeakIsReach | src/wlterm.c:218-222 | the `max` loop yields the signed furthest whole sample in the scroll direction, 0 for direction 0 |
| Scroll.CompensationBound | src/wlterm.c:215-226 | the position correction is within one pixel per sample of the exact sum of the excesses over that peak |
| Scroll.VelocityEstimate | src/wlterm.c:229-241 | the kinetic speed is never NaN, and with non-zero time deltas it is the signed speed of the fastest sample in the scroll direction |
| Scroll.Window.constructor | src/egl_window.c:310-328 | the root window starts at position 0, no kinetic speed, all sample windows zero |
| Scroll.Window.ShiftSamples | src/wlterm.c:94-97 | each sample of the axis moves one slot forward; the other axis is untouched |
| Scroll.Window.HandleAxis | src/wlterm.c:87-99 | the axis's windows slide by (value / 250, time), its kinetic speed becomes 0, the other axis is untouched |
| Scroll.Window.HandleFrame | src/wlterm.c:147-158 | each position grows by its axis's newest distance sample |
| Scroll.Window.SampleCompensation | src/wlterm.c:218-225 | the two loops compute `Compensation` of the axis's distance window |
| Scroll.Window.SampleVelocity | src/wlterm.c:229-239 | the two loops compute `Velocity` of the axis's windows |
| Scroll.Window.ClearSamples | src/wlterm.c:250-253 | both windows of the axis become all zero; the other axis keeps its samples |
| Scroll.Window.HandleAxisStop | src/wlterm.c:188-254 | position moves by the compensation, kinetic speed becomes the velocity estimate, t0 becomes time, the axis's windows are zeroed, the other axis is untouched |
| Scroll.Window.ClampPosition | src/egl_window.c:494-495 | both positions are clamped to at most 0 |

## Left out

- Every GL, EGL, Wayland, xkb and FreeType call: shader compilation, buffers, textures, uniforms and draws. A generator draw is modelled as a `GenDraw` log entry; a text draw as a batch appended to `drawn`.
- The MSDF outline service (`msdf_glyph_buffer_size`, `msdf_serialize_glyph`) and FreeType glyph loading are inputs: `GlyphOutline` and `Bitmap` sequences.
- `msdf_gl_render` and the GLSL shaders: GPU code.
- `frame_handle_done`'s kinetic decay: floating-point physics in the frame callback.
- Floating-point rounding. Coordinates and sizes are exact reals, and no property here depends on rounding.
- C `int` overflow: the model's integers are unbounded.
- `Scroll.Window.HandleAxisStop`: the velocity's IEEE model keeps infinities and NaN but not signed zeros.
- `Scroll.Window.HandleAxisStop`: the casts from `double` to `int` are modelled as truncation, without the undefined behaviour of out-of-range values.
- `WindowRender.DigitCountIsCeilLog10`: `ceil(log10(n + 1))` is taken at its exact value. This holds for doubles at the integer arguments the renderer uses, but it is not derived from a floating-point `log10`.
- `egl_window.h` is not part of this model. `MAX_FRAMES`, `MAX_GLYPHS_PER_DRAW` and `SCROLL_WINDOW_SIZE` are constructor parameters: table size, batch capacity and window size.
- `TextBatch.TextBatcher.DrawText`: the model reads `char` as unsigned. Every drawn code must index the 254-slot advance table. Where `char` is signed, as on x86-64, bytes 128..253 become negative indices, which is undefined behaviour in C. The model does not capture that case and treats those bytes as codes 128..253.
- `Frames.FrameTable.KeyboardKey`: a `c` press requires the focused frame to be in the table. The C code would otherwise scan past the end of `frames[]`.
- `LegacyFont.LoadFont`: the `active_font` global is not modelled. `load_font` points it at the new font before the FreeType checks (src/egl_window.c:191-194). On the NULL paths, it is left pointing at a leaked font that is only partly set up. The renderer's reads of `active_font` are parameters in the model: the font passed to `DrawText` and the line height `va`.
- `Frames.FrameTable.Close`: `free()` is not modelled; the frame is only unlinked from its slot.
- Frame surfaces and the window's text contents are not modelled.
- Line-number text is not emitted: `sprintf("%*d")` is modelled by `LineLabel` for its width only.
- `msdf_gl_destroy_font` only deletes GL objects and frees the font, so it is not modelled.
- `msdf_gl_generate_glyph` and `msdf_gl_generate_glyph_list` are declared in the header but not defined in the source.
- The header's persistent atlas cursor (`_offset_x`, `_offset_y`) is unused by the implementation, which restarts at (1, 1) on every call.

## Findings

| source | as written | input that shows it | evidently intended | confidence | as-written member | corrected member |
|---|---|---|---|---|---|---|
| src/msdf_gl.h:167 | `msdf_gl_generate_ascii_ext` expands to the inclusive range 0..256 | `msdf_gl_generate_ascii_ext(font)` generates id 256 and writes `horizontal_advances[256]`, one past the 256-slot table (src/msdf_gl.h:78, src/msdf_gl.c:282) | the range 0..255, every slot of the table | high (not executed) | MsdfHeader.AsciiExtWritesPastTable | MsdfHeader.AsciiExtCorrected |
