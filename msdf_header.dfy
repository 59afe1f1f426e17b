/**
 * The public data contracts of the MSDF library header (src/msdf_gl.h):
 * the size of the per-font advance table, the inclusive glyph-id range taken
 * by generation, the two ASCII shortcut ranges, and the glyph instance record
 * the renderer consumes.
 */
module MsdfHeader {

  /** `horizontal_advances` of a font holds one slot per glyph id 0..255. */
  const AdvanceTableSize: nat := 256

  /** A glyph-id range as passed to generation; both ends are included. */
  datatype GlyphRange = GlyphRange(first: int, last: int)

  /** Number of ids an inclusive range covers (0 when it is inverted). */
  function RangeCount(r: GlyphRange): (n: nat)
    ensures r.first <= r.last ==> n == r.last - r.first + 1
    ensures n > 0 <==> r.first <= r.last
  {
    if r.first <= r.last then r.last - r.first + 1 else 0
  }

  /** Every id of the range names a slot of the advance table. */
  predicate InAdvanceTable(r: GlyphRange) {
    0 <= r.first && r.last < AdvanceTableSize
  }

  /** The range `msdf_gl_generate_ascii` expands to. */
  function AsciiRange(): GlyphRange { GlyphRange(0, 128) }

  /** The range `msdf_gl_generate_ascii_ext` expands to, as written. */
  function AsciiExtRange(): GlyphRange { GlyphRange(0, 256) }

  /** The ASCII shortcut covers 129 ids and fits the advance table. */
  lemma AsciiRangeFits()
    ensures RangeCount(AsciiRange()) == 129
    ensures InAdvanceTable(AsciiRange())
  {
  }

  /** As written, the extended-ASCII shortcut names 257 ids; its last id is
      one past the end of the 256-slot advance table. */
  lemma AsciiExtWritesPastTable()
    ensures RangeCount(AsciiExtRange()) == AdvanceTableSize + 1
    ensures AsciiExtRange().last == AdvanceTableSize
    ensures !InAdvanceTable(AsciiExtRange())
  {
  }

  /** The evidently intended extended-ASCII range: every slot of the advance
      table, and nothing past it. */
  function AsciiExtCorrected(): (r: GlyphRange)
    ensures InAdvanceTable(r)
    ensures RangeCount(r) == AdvanceTableSize
  {
    GlyphRange(0, AdvanceTableSize - 1)
  }

  /** One glyph draw handed to the renderer: position, packed RGBA colour,
      the glyph id (`key`) selecting its index entry, and styling. */
  datatype GlyphInstance = GlyphInstance(
    x: real,
    y: real,
    color: bv32,
    key: int,
    size: real,
    offset: real,
    skew: real,
    strength: real)
}
