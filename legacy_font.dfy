/**
 * The legacy bitmap font loader of src/egl_window.c (`load_font`): every
 * character code 0..253 is rendered by the rasteriser, its bitmap is packed
 * into a 4096 x 4096 texture with the shelf packer (origin 0, row height
 * never reset), and a six-float vertex record plus an advance are stored
 * per glyph.
 */
module LegacyFont {
  import opened ShelfPacker

  /** FONT_BUFFER_SIZE: side of the glyph texture. */
  const FontBufferSize: int := 4096

  /** Character codes rendered: 0..253. */
  const GlyphCount: nat := 254

  /** Floats in a glyph's vertex record. */
  const FloatsPerGlyph: nat := 6

  /** What the rasteriser yields for one character code: bitmap size,
      bearings and the horizontal advance, in 26.6 fixed point. */
  datatype Bitmap = Bitmap(width: nat, rows: nat, left: int, top: int, advanceX: int)

  /** The legacy packer: origin 0, the row height is a running maximum that
      is not reset on a wrap. */
  function LegacyShelf(): Shelf {
    Shelf(0.0, false, FontBufferSize as real)
  }

  function Sizes(bitmaps: seq<Bitmap>): (ss: seq<Size>)
    ensures |ss| == |bitmaps|
    ensures forall k :: 0 <= k < |bitmaps| ==> ss[k] == Size(bitmaps[k].width as real, bitmaps[k].rows as real)
  {
    seq(|bitmaps|, k requires 0 <= k < |bitmaps| => Size(bitmaps[k].width as real, bitmaps[k].rows as real))
  }

  /** `x >> 7` on a signed value: floor division by 128 (26.6 fixed point,
      halved for the doubled pixel size). */
  function Shr7(x: int): int {
    x / 128
  }

  /** The vertex record of a glyph placed at `at`. */
  function VertexRecord(b: Bitmap, at: Rect): seq<real> {
    [at.x, at.y, b.width as real, b.rows as real, b.left as real, -(b.top as real)]
  }

  /** The records of the first n glyphs, glyph k placed at rects[k]. */
  function Records(bitmaps: seq<Bitmap>, rects: seq<Rect>, n: nat): (vs: seq<real>)
    requires n <= |bitmaps| && n <= |rects|
    ensures |vs| == FloatsPerGlyph * n
  {
    if n == 0 then []
    else Records(bitmaps, rects, n - 1) + VertexRecord(bitmaps[n - 1], rects[n - 1])
  }

  /** The vertex buffer of the font: every glyph's record at the position
      the legacy packer gives it. */
  function Vertices(bitmaps: seq<Bitmap>): (vs: seq<real>)
    ensures |vs| == FloatsPerGlyph * |bitmaps|
  {
    Records(bitmaps, Pack(LegacyShelf(), Sizes(bitmaps)), |bitmaps|)
  }

  /** A loaded legacy font. */
  class Font {
    const textureSize: int
    var verticalAdvance: int
    const horizontalAdvances: array<int>
    const vertexData: array<real>

    constructor ()
      ensures textureSize == FontBufferSize
      ensures fresh(horizontalAdvances) && horizontalAdvances.Length == GlyphCount
      ensures fresh(vertexData) && vertexData.Length == GlyphCount * FloatsPerGlyph
    {
      textureSize := FontBufferSize;
      horizontalAdvances := new int[GlyphCount];
      vertexData := new real[GlyphCount * FloatsPerGlyph];
    }
  }

  /** Writes one glyph's record at float slot `6 * i`. */
  method WriteRecord(vertexData: array<real>, i: nat, rec: seq<real>, ghost written: seq<real>)
    requires |rec| == FloatsPerGlyph && FloatsPerGlyph * (i + 1) <= vertexData.Length
    requires vertexData[..FloatsPerGlyph * i] == written
    modifies vertexData
    ensures vertexData[..FloatsPerGlyph * (i + 1)] == written + rec
  {
    forall j | 0 <= j < FloatsPerGlyph {
      vertexData[FloatsPerGlyph * i + j] := rec[j];
    }
    assert vertexData[..FloatsPerGlyph * (i + 1)]
        == vertexData[..FloatsPerGlyph * i] + vertexData[FloatsPerGlyph * i..FloatsPerGlyph * (i + 1)];
  }

  lemma VerticesStep(bitmaps: seq<Bitmap>, rects: seq<Rect>, i: nat)
    requires i < |bitmaps| && rects == Pack(LegacyShelf(), Sizes(bitmaps))
    ensures Records(bitmaps, rects, i + 1)
            == Records(bitmaps, rects, i)
               + VertexRecord(bitmaps[i], Place(LegacyShelf(), CursorAt(LegacyShelf(), Sizes(bitmaps), i), Sizes(bitmaps)[i]))
    ensures CursorAt(LegacyShelf(), Sizes(bitmaps), i + 1)
            == Advance(LegacyShelf(), CursorAt(LegacyShelf(), Sizes(bitmaps), i), Sizes(bitmaps)[i])
  {
  }

  /** One iteration of the loading loop: glyph i is packed, its advance
      stored at index i and its record at float slot 6i. */
  method LoadGlyph(advances: array<int>, vertexData: array<real>, bitmaps: seq<Bitmap>,
                   ghost rects: seq<Rect>, i: nat, offsetX: int, offsetY: int, yIncrement: int)
    returns (nextX: int, nextY: int, nextIncrement: int)
    requires i < |bitmaps| && i < advances.Length && FloatsPerGlyph * (i + 1) <= vertexData.Length
    requires advances as object != vertexData
    requires Cursor(offsetX as real, offsetY as real, yIncrement as real) == CursorAt(LegacyShelf(), Sizes(bitmaps), i)
    requires rects == Pack(LegacyShelf(), Sizes(bitmaps))
    requires vertexData[..FloatsPerGlyph * i] == Records(bitmaps, rects, i)
    modifies advances, vertexData
    ensures Cursor(nextX as real, nextY as real, nextIncrement as real) == CursorAt(LegacyShelf(), Sizes(bitmaps), i + 1)
    ensures vertexData[..FloatsPerGlyph * (i + 1)] == Records(bitmaps, rects, i + 1)
    ensures advances[i] == Shr7(bitmaps[i].advanceX)
    ensures forall k :: 0 <= k < advances.Length && k != i ==> advances[k] == old(advances[k])
  {
    var g := bitmaps[i];
    VerticesStep(bitmaps, rects, i);
    nextX, nextY := offsetX, offsetY;
    if offsetX + g.width > FontBufferSize {
      nextY := offsetY + (yIncrement + 1);
      nextX := 0;
    }
    nextIncrement := if yIncrement > g.rows then yIncrement else g.rows;
    advances[i] := Shr7(g.advanceX);
    var rec := [nextX as real, nextY as real, g.width as real, g.rows as real,
                g.left as real, -(g.top as real)];
    WriteRecord(vertexData, i, rec, Records(bitmaps, rects, i));
    nextX := nextX + g.width + 1;
  }

  /** `load_font`: NULL when the rasteriser or the face cannot be opened;
      otherwise a font whose line height is the face height >> 7, whose
      advance for code i is the glyph's advance >> 7, and whose vertex
      buffer holds, for code i at slot 6i, the packer's position of the
      bitmap, its size and its bearings (top negated). */
  method LoadFont(faceOk: bool, bitmaps: seq<Bitmap>, metricsHeight: int) returns (f: Font?)
    requires |bitmaps| == GlyphCount
    ensures !faceOk ==> f == null
    ensures faceOk ==> f != null && fresh(f) && fresh(f.horizontalAdvances) && fresh(f.vertexData)
    ensures faceOk ==> f.textureSize == FontBufferSize && f.verticalAdvance == Shr7(metricsHeight)
    ensures faceOk ==> f.horizontalAdvances.Length == GlyphCount
                       && forall i :: 0 <= i < GlyphCount ==> f.horizontalAdvances[i] == Shr7(bitmaps[i].advanceX)
    ensures faceOk ==> f.vertexData[..] == Vertices(bitmaps)
  {
    if !faceOk {
      return null;
    }
    f := new Font();
    f.verticalAdvance := Shr7(metricsHeight);
    ghost var sh, sizes := LegacyShelf(), Sizes(bitmaps);
    ghost var rects := Pack(sh, sizes);

    var offsetX, offsetY, yIncrement := 0, 0, 0;
    var i := 0;
    while i < GlyphCount
      invariant 0 <= i <= GlyphCount
      invariant f.verticalAdvance == Shr7(metricsHeight)
      invariant Cursor(offsetX as real, offsetY as real, yIncrement as real) == CursorAt(sh, sizes, i)
      invariant f.vertexData[..FloatsPerGlyph * i] == Records(bitmaps, rects, i)
      invariant forall k :: 0 <= k < i ==> f.horizontalAdvances[k] == Shr7(bitmaps[k].advanceX)
    {
      offsetX, offsetY, yIncrement := LoadGlyph(f.horizontalAdvances, f.vertexData, bitmaps, rects, i,
                                                offsetX, offsetY, yIncrement);
      i := i + 1;
    }
    assert f.vertexData[..] == f.vertexData[..FloatsPerGlyph * GlyphCount];
  }

  /** The row height the legacy packer keeps is the tallest bitmap so far:
      it is never reset on a wrap. */
  function TallestSoFar(sizes: seq<Size>, n: nat): real
    requires n <= |sizes|
  {
    if n == 0 then 0.0 else Max(TallestSoFar(sizes, n - 1), sizes[n - 1].h)
  }

  lemma {:induction false} RowHeightIsRunningMax(bitmaps: seq<Bitmap>, n: nat)
    requires n <= |bitmaps|
    ensures CursorAt(LegacyShelf(), Sizes(bitmaps), n).rowHeight == TallestSoFar(Sizes(bitmaps), n)
  {
    if n > 0 {
      RowHeightIsRunningMax(bitmaps, n - 1);
    }
  }

  /** Packing disjointness for the legacy atlas: any two glyph bitmaps lie
      at least one texel apart. */
  lemma LegacyPackDisjoint(bitmaps: seq<Bitmap>, i: nat, j: nat)
    requires i < |bitmaps| && j < |bitmaps| && i != j
    ensures Separated(Pack(LegacyShelf(), Sizes(bitmaps))[i], Pack(LegacyShelf(), Sizes(bitmaps))[j])
  {
    PackDisjoint(LegacyShelf(), Sizes(bitmaps));
  }

  /** Rows never move up: a later glyph's `offset_y` is at least an earlier one's. */
  lemma LegacyRowsNonDecreasing(bitmaps: seq<Bitmap>, i: nat, j: nat)
    requires i <= j < |bitmaps|
    ensures Pack(LegacyShelf(), Sizes(bitmaps))[i].y <= Pack(LegacyShelf(), Sizes(bitmaps))[j].y
  {
    RowsNonDecreasing(LegacyShelf(), Sizes(bitmaps), i, j);
  }

  /** A record, once written, is not moved by later records. */
  lemma {:induction false} RecordStays(bitmaps: seq<Bitmap>, rects: seq<Rect>, i: nat, n: nat)
    requires i < n <= |bitmaps| && n <= |rects|
    ensures Records(bitmaps, rects, n)[FloatsPerGlyph * i..FloatsPerGlyph * (i + 1)]
            == Records(bitmaps, rects, i + 1)[FloatsPerGlyph * i..]
  {
    if i + 1 < n {
      RecordStays(bitmaps, rects, i, n - 1);
      var prev := Records(bitmaps, rects, n - 1);
      assert FloatsPerGlyph * (i + 1) <= |prev|;
      assert Records(bitmaps, rects, n)[..|prev|] == prev;
    }
  }

  /** Record i of the vertex buffer sits at float slot 6i and holds the
      packer's position of bitmap i, its size, and its bearings. */
  lemma VertexRecordAt(bitmaps: seq<Bitmap>, i: nat)
    requires i < |bitmaps|
    ensures Vertices(bitmaps)[FloatsPerGlyph * i..FloatsPerGlyph * (i + 1)]
            == VertexRecord(bitmaps[i], Pack(LegacyShelf(), Sizes(bitmaps))[i])
  {
    var rects := Pack(LegacyShelf(), Sizes(bitmaps));
    RecordStays(bitmaps, rects, i, |bitmaps|);
    assert Records(bitmaps, rects, i + 1) == Records(bitmaps, rects, i) + VertexRecord(bitmaps[i], rects[i]);
  }
}
