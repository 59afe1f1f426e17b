/**
 * The CPU-side bookkeeping of the MSDF atlas library (src/msdf_gl.c):
 * context creation and release, the orthographic projection helper, and the
 * glyph-batch generator that sums the outline streams, packs the glyph
 * footprints into the atlas, fills the advance table and issues one
 * generator draw per glyph. GL calls are reduced to the data they upload.
 */
module MsdfGl {
  import opened Wrappers
  import opened ShelfPacker
  import opened MsdfHeader

  // ---------------------------------------------------------------------
  // Context creation and release
  // ---------------------------------------------------------------------

  datatype Program = Generator | Renderer

  /** The fallible steps of `msdf_gl_create_context`, in the order taken. */
  datatype CreateStep =
    | Allocate
    | CompileGenVertex
    | CompileGenFragment
    | CreateGenProgram
    | LinkGen
    | ResolveGenUniforms
    | CompileRenderVertex
    | CompileRenderGeometry
    | CompileRenderFragment
    | CreateRenderProgram
    | LinkRender
    | ResolveRenderUniforms

  const CreationOrder: seq<CreateStep> := [
    Allocate, CompileGenVertex, CompileGenFragment, CreateGenProgram, LinkGen,
    ResolveGenUniforms, CompileRenderVertex, CompileRenderGeometry,
    CompileRenderFragment, CreateRenderProgram, LinkRender, ResolveRenderUniforms]

  /** Parameter names each program has resolved once the context exists. */
  const GeneratorUniforms: seq<string> := [
    "projection", "offset", "translate", "scale", "range", "glyph_height",
    "meta_offset", "point_offset", "metadata", "point_data"]
  const RendererUniforms: seq<string> := [
    "projection", "font_projection", "font_index", "font_atlas", "padding", "offset"]

  datatype Context = Context(generatorUniforms: seq<string>, rendererUniforms: seq<string>)

  /** Outcome of a creation attempt: the context (None for NULL) and the
      programs deleted on the way out of a failed attempt. */
  datatype Creation = Creation(context: Option<Context>, released: set<Program>)

  /** Programs deleted when creation stops at `step`. */
  function ReleasedOnFailure(step: CreateStep): set<Program> {
    match step
    case ResolveGenUniforms => {Generator}
    case LinkRender => {Generator}
    case ResolveRenderUniforms => {Generator, Renderer}
    case _ => {}
  }

  function CreateFrom(steps: seq<CreateStep>, failing: set<CreateStep>): (c: Creation)
    ensures c.context.Some? <==> forall k :: 0 <= k < |steps| ==> steps[k] !in failing
    ensures c.context.Some? ==> c.context.value == Context(GeneratorUniforms, RendererUniforms)
    ensures c.context.Some? ==> c.released == {}
    ensures c.context.None? ==> exists k :: 0 <= k < |steps| && steps[k] in failing
                                  && (forall j :: 0 <= j < k ==> steps[j] !in failing)
                                  && c.released == ReleasedOnFailure(steps[k])
  {
    if steps == [] then
      Creation(Some(Context(GeneratorUniforms, RendererUniforms)), {})
    else if steps[0] in failing then
      Creation(None, ReleasedOnFailure(steps[0]))
    else
      var rest := CreateFrom(steps[1..], failing);
      assert forall k :: 1 <= k < |steps| ==> steps[k] == steps[1..][k - 1];
      assert rest.context.None? ==> exists k :: 1 <= k < |steps| && steps[k] in failing
                                      && (forall j :: 0 <= j < k ==> steps[j] !in failing)
                                      && rest.released == ReleasedOnFailure(steps[k]) by {
        if rest.context.None? {
          var k :| 0 <= k < |steps| - 1 && steps[1..][k] in failing
                   && (forall j :: 0 <= j < k ==> steps[1..][j] !in failing)
                   && rest.released == ReleasedOnFailure(steps[1..][k]);
          assert forall j :: 0 <= j < k + 1 ==> steps[j] !in failing by {
            forall j | 0 <= j < k + 1 ensures steps[j] !in failing {
              if j > 0 { assert steps[j] == steps[1..][j - 1]; }
            }
          }
          assert steps[k + 1] == steps[1..][k];
        }
      }
      rest
  }

  lemma EveryStepIsTaken(failing: set<CreateStep>)
    ensures failing != {} <==> exists k :: 0 <= k < |CreationOrder| && CreationOrder[k] in failing
  {
    if failing != {} {
      var s :| s in failing;
      assert s in CreationOrder by {
        match s
        case Allocate =>
        case CompileGenVertex =>
        case CompileGenFragment =>
        case CreateGenProgram =>
        case LinkGen =>
        case ResolveGenUniforms =>
        case CompileRenderVertex =>
        case CompileRenderGeometry =>
        case CompileRenderFragment =>
        case CreateRenderProgram =>
        case LinkRender =>
        case ResolveRenderUniforms =>
      }
    }
  }

  /** `msdf_gl_create_context`: a context exactly when no step fails; every
      context that is created resolves the same parameter names. */
  function CreateContext(failing: set<CreateStep>): (c: Creation)
    ensures c.context.Some? <==> failing == {}
    ensures c.context.Some? ==>
              c.context.value.generatorUniforms == GeneratorUniforms
              && c.context.value.rendererUniforms == RendererUniforms
    ensures c.context.None? ==>
              exists k :: 0 <= k < |CreationOrder| && CreationOrder[k] in failing
                          && (forall j :: 0 <= j < k ==> CreationOrder[j] !in failing)
                          && c.released == ReleasedOnFailure(CreationOrder[k])
  {
    EveryStepIsTaken(failing);
    CreateFrom(CreationOrder, failing)
  }

  /** `msdf_gl_destroy_context`: NULL is a no-op, otherwise both programs go. */
  function DestroyContext(ctx: Option<Context>): (released: set<Program>)
    ensures ctx.None? ==> released == {}
    ensures ctx.Some? ==> Generator in released && Renderer in released
  {
    match ctx
    case None => {}
    case Some(_) => {Generator, Renderer}
  }

  // ---------------------------------------------------------------------
  // Orthographic projection (`_ortho`), column-major as in the source
  // ---------------------------------------------------------------------

  function Ortho(left: real, right: real, bottom: real, top: real, near: real, far: real)
    : (m: seq<seq<real>>)
    requires right != left && top != bottom && far != near
    ensures |m| == 4 && forall c :: 0 <= c < 4 ==> |m[c]| == 4
  {
    var rl := 1.0 / (right - left);
    var tb := 1.0 / (top - bottom);
    var fn := -1.0 / (far - near);
    [[2.0 * rl, 0.0, 0.0, 0.0],
     [0.0, 2.0 * tb, 0.0, 0.0],
     [0.0, 0.0, 2.0 * fn, 0.0],
     [-(right + left) * rl, -(top + bottom) * tb, (far + near) * fn, 1.0]]
  }

  datatype Point3 = Point3(x: real, y: real, z: real)

  /** Applies a column-major 4x4 matrix to a point with w = 1. */
  function Transform(m: seq<seq<real>>, p: Point3): Point3
    requires |m| == 4 && forall c :: 0 <= c < 4 ==> |m[c]| == 4
  {
    Point3(m[0][0] * p.x + m[1][0] * p.y + m[2][0] * p.z + m[3][0],
           m[0][1] * p.x + m[1][1] * p.y + m[2][1] * p.z + m[3][1],
           m[0][2] * p.x + m[1][2] * p.y + m[2][2] * p.z + m[3][2])
  }

  lemma EdgeToMinusOne(lo: real, hi: real)
    requires hi != lo
    ensures 2.0 * (1.0 / (hi - lo)) * lo + (-(hi + lo) * (1.0 / (hi - lo))) == -1.0
    ensures 2.0 * (1.0 / (hi - lo)) * hi + (-(hi + lo) * (1.0 / (hi - lo))) == 1.0
  {
    var d := 1.0 / (hi - lo);
    assert d * (hi - lo) == 1.0;
    assert 2.0 * d * lo + (-(hi + lo) * d) == -(d * (hi - lo));
    assert 2.0 * d * hi + (-(hi + lo) * d) == d * (hi - lo);
  }

  /** The projection maps the near-bottom-left corner of the box to
      (-1, -1, -1) and the far-top-right corner to (1, 1, 1). */
  lemma OrthoMapsBoxToClipCube(left: real, right: real, bottom: real, top: real, near: real, far: real)
    requires right != left && top != bottom && far != near
    ensures Transform(Ortho(left, right, bottom, top, near, far), Point3(left, bottom, -near))
            == Point3(-1.0, -1.0, -1.0)
    ensures Transform(Ortho(left, right, bottom, top, near, far), Point3(right, top, -far))
            == Point3(1.0, 1.0, 1.0)
  {
    EdgeToMinusOne(left, right);
    EdgeToMinusOne(bottom, top);
    var fn := -1.0 / (far - near);
    assert fn * (far - near) == -1.0;
    assert 2.0 * fn * -near + (far + near) * fn == fn * (far - near);
    assert 2.0 * fn * -far + (far + near) * fn == -(fn * (far - near));
  }

  // ---------------------------------------------------------------------
  // Outline streams, footprints and the atlas index
  // ---------------------------------------------------------------------

  type Byte = bv8

  /** What the outline service yields for one glyph: its serialized metadata
      and point streams (whose lengths are the sizes it reports first) and
      its metrics. */
  datatype GlyphOutline = GlyphOutline(
    meta: seq<Byte>,
    points: seq<Byte>,
    width: real,
    height: real,
    bearingX: real,
    bearingY: real,
    advance: real)

  /** One entry of the placement index uploaded to the GPU (8 floats). */
  datatype IndexEntry = IndexEntry(
    offsetX: real,
    offsetY: real,
    sizeX: real,
    sizeY: real,
    bearingX: real,
    bearingY: real,
    glyphWidth: real,
    glyphHeight: real)

  const FloatsPerEntry: nat := 8
  const BytesPerPoint: nat := 8  // one (x, y) pair of 32-bit floats

  /** The MSDF packer: rows start one texel in, the row height restarts at 0. */
  function AtlasShelf(textureSize: int): Shelf {
    Shelf(1.0, true, textureSize as real)
  }

  /** Padded footprint of a glyph in the atlas. */
  function Footprint(g: GlyphOutline, range: real, scale: real): Size {
    Size((g.width + range) * scale, (g.height + range) * scale)
  }

  function Footprints(batch: seq<GlyphOutline>, range: real, scale: real): (fs: seq<Size>)
    ensures |fs| == |batch|
    ensures forall k :: 0 <= k < |batch| ==> fs[k] == Footprint(batch[k], range, scale)
  {
    seq(|batch|, k requires 0 <= k < |batch| => Footprint(batch[k], range, scale))
  }

  function EntryFor(g: GlyphOutline, at: Rect): IndexEntry {
    IndexEntry(at.x, at.y, at.w, at.h, g.bearingX, g.bearingY, g.width, g.height)
  }

  function RectOf(e: IndexEntry): Rect {
    Rect(e.offsetX, e.offsetY, e.sizeX, e.sizeY)
  }

  /** The first n entries of the index, one placement at a time: entry k
      describes the k-th glyph of the batch (glyph id start + k), placed by
      the shelf packer. */
  function IndexPrefix(batch: seq<GlyphOutline>, range: real, scale: real, textureSize: int, n: nat)
    : (es: seq<IndexEntry>)
    requires n <= |batch|
    ensures |es| == n
  {
    if n == 0 then []
    else IndexPrefix(batch, range, scale, textureSize, n - 1)
         + [EntryFor(batch[n - 1], Placement(AtlasShelf(textureSize), Footprints(batch, range, scale), n - 1))]
  }

  /** The index a whole batch produces. */
  function AtlasIndex(batch: seq<GlyphOutline>, range: real, scale: real, textureSize: int)
    : (es: seq<IndexEntry>)
    ensures |es| == |batch|
  {
    IndexPrefix(batch, range, scale, textureSize, |batch|)
  }

  lemma {:induction false} IndexPrefixAt(batch: seq<GlyphOutline>, range: real, scale: real,
                                         textureSize: int, n: nat, k: nat)
    requires k < n <= |batch|
    ensures IndexPrefix(batch, range, scale, textureSize, n)[k]
            == EntryFor(batch[k], Placement(AtlasShelf(textureSize), Footprints(batch, range, scale), k))
  {
    if k < n - 1 {
      IndexPrefixAt(batch, range, scale, textureSize, n - 1, k);
    }
  }

  /** One more glyph: the packer's cursor and the index grow by one step. */
  lemma IndexPrefixStep(batch: seq<GlyphOutline>, range: real, scale: real, textureSize: int, i: nat)
    requires i < |batch|
    ensures var sh, fs := AtlasShelf(textureSize), Footprints(batch, range, scale);
            && fs[i] == Footprint(batch[i], range, scale)
            && CursorAt(sh, fs, i + 1) == Advance(sh, CursorAt(sh, fs, i), fs[i])
            && IndexPrefix(batch, range, scale, textureSize, i + 1)
               == IndexPrefix(batch, range, scale, textureSize, i)
                  + [EntryFor(batch[i], Place(sh, CursorAt(sh, fs, i), fs[i]))]
  {
  }

  /** Entry k of the index, by the packer's placement of footprint k. */
  lemma AtlasIndexAt(batch: seq<GlyphOutline>, range: real, scale: real, textureSize: int, k: nat)
    requires k < |batch|
    ensures AtlasIndex(batch, range, scale, textureSize)[k]
            == EntryFor(batch[k], Placement(AtlasShelf(textureSize), Footprints(batch, range, scale), k))
    ensures RectOf(AtlasIndex(batch, range, scale, textureSize)[k])
            == Pack(AtlasShelf(textureSize), Footprints(batch, range, scale))[k]
  {
    IndexPrefixAt(batch, range, scale, textureSize, |batch|, k);
  }

  /** Entry k records the padded footprint `(w + range) * scale` by
      `(h + range) * scale`. */
  lemma AtlasEntrySize(batch: seq<GlyphOutline>, range: real, scale: real, textureSize: int, k: nat)
    requires k < |batch|
    ensures AtlasIndex(batch, range, scale, textureSize)[k].sizeX == (batch[k].width + range) * scale
    ensures AtlasIndex(batch, range, scale, textureSize)[k].sizeY == (batch[k].height + range) * scale
  {
    AtlasIndexAt(batch, range, scale, textureSize, k);
    PlacementIsFootprint(batch, range, scale, textureSize, k);
  }

  /** Entry k carries glyph k's own width, height and bearings. */
  lemma AtlasEntryMetrics(batch: seq<GlyphOutline>, range: real, scale: real, textureSize: int, k: nat)
    requires k < |batch|
    ensures var e := AtlasIndex(batch, range, scale, textureSize)[k];
            && e.glyphWidth == batch[k].width && e.glyphHeight == batch[k].height
            && e.bearingX == batch[k].bearingX && e.bearingY == batch[k].bearingY
  {
    AtlasIndexAt(batch, range, scale, textureSize, k);
  }

  lemma PlacementIsFootprint(batch: seq<GlyphOutline>, range: real, scale: real, textureSize: int, k: nat)
    requires k < |batch|
    ensures var r := Placement(AtlasShelf(textureSize), Footprints(batch, range, scale), k);
            r.w == (batch[k].width + range) * scale && r.h == (batch[k].height + range) * scale
  {
    var fs := Footprints(batch, range, scale);
    assert fs[k] == Footprint(batch[k], range, scale);
  }

  /** The right edge of entry k stays inside the texture whenever its
      footprint fits beside the one-texel margin. */
  lemma AtlasEntryInside(batch: seq<GlyphOutline>, range: real, scale: real, textureSize: int, k: nat)
    requires k < |batch|
    ensures var e := AtlasIndex(batch, range, scale, textureSize)[k];
            e.sizeX + 1.0 <= textureSize as real ==> e.offsetX + e.sizeX <= textureSize as real
  {
    AtlasIndexAt(batch, range, scale, textureSize, k);
    var sh, fs := AtlasShelf(textureSize), Footprints(batch, range, scale);
    var r := Placement(sh, fs, k);
    assert r.w == fs[k].w;
  }

  predicate WellFormedMetrics(batch: seq<GlyphOutline>, range: real, scale: real) {
    range >= 0.0 && scale >= 0.0 && forall k :: 0 <= k < |batch| ==> batch[k].width >= 0.0
  }

  lemma FootprintWidthsNonNegative(batch: seq<GlyphOutline>, range: real, scale: real)
    requires WellFormedMetrics(batch, range, scale)
    ensures NonNegativeWidths(Footprints(batch, range, scale))
  {
    forall k | 0 <= k < |batch|
      ensures Footprints(batch, range, scale)[k].w >= 0.0
    {
      var a := batch[k].width + range;
      assert a >= 0.0;
      assert a * scale >= 0.0;
    }
  }

  /** Packing disjointness: any two footprints of a batch are apart by at
      least one texel. */
  lemma AtlasIndexDisjoint(batch: seq<GlyphOutline>, range: real, scale: real, textureSize: int)
    requires WellFormedMetrics(batch, range, scale)
    ensures forall i, j :: 0 <= i < |batch| && 0 <= j < |batch| && i != j ==>
              Separated(RectOf(AtlasIndex(batch, range, scale, textureSize)[i]),
                        RectOf(AtlasIndex(batch, range, scale, textureSize)[j]))
  {
    var sh, fs := AtlasShelf(textureSize), Footprints(batch, range, scale);
    FootprintWidthsNonNegative(batch, range, scale);
    PackDisjoint(sh, fs);
    forall k | 0 <= k < |batch|
      ensures RectOf(AtlasIndex(batch, range, scale, textureSize)[k]) == Pack(sh, fs)[k]
    {
      AtlasIndexAt(batch, range, scale, textureSize, k);
    }
  }

  /** Row advance monotonicity: `offset_y` never decreases along a batch, the
      cursor starts at (1, 1), and a glyph sits at `offset_x == 1` exactly when
      it is the first or the packer wrapped for it (moving to a lower row). */
  lemma AtlasRows(batch: seq<GlyphOutline>, range: real, scale: real, textureSize: int, i: nat, j: nat)
    requires WellFormedMetrics(batch, range, scale)
    requires i < j < |batch|
    ensures var es := AtlasIndex(batch, range, scale, textureSize);
            && es[i].offsetY <= es[j].offsetY
            && (es[0].offsetY == 1.0 || es[0].offsetY == 2.0) && es[0].offsetX == 1.0
            && (es[j].offsetX == 1.0 <==> es[j].offsetY > es[j - 1].offsetY)
            && (es[j].offsetX == 1.0 <==>
                Wraps(AtlasShelf(textureSize), CursorAt(AtlasShelf(textureSize), Footprints(batch, range, scale), j),
                      Footprint(batch[j], range, scale)))
  {
    var sh, fs := AtlasShelf(textureSize), Footprints(batch, range, scale);
    FootprintWidthsNonNegative(batch, range, scale);
    RowsNonDecreasing(sh, fs, i, j);
    AtMarginIffNewRow(sh, fs, j);
    AtlasIndexAt(batch, range, scale, textureSize, 0);
    AtlasIndexAt(batch, range, scale, textureSize, i);
    AtlasIndexAt(batch, range, scale, textureSize, j - 1);
    AtlasIndexAt(batch, range, scale, textureSize, j);
  }

  // Byte streams ---------------------------------------------------------

  /** Concatenated metadata streams of the first n glyphs. */
  function MetaStream(batch: seq<GlyphOutline>, n: nat): seq<Byte>
    requires n <= |batch|
  {
    if n == 0 then [] else MetaStream(batch, n - 1) + batch[n - 1].meta
  }

  /** Concatenated point streams of the first n glyphs. */
  function PointStream(batch: seq<GlyphOutline>, n: nat): seq<Byte>
    requires n <= |batch|
  {
    if n == 0 then [] else PointStream(batch, n - 1) + batch[n - 1].points
  }

  /** Byte offset of glyph n's metadata: the sizes of glyphs 0..n-1 summed. */
  function MetaOffset(batch: seq<GlyphOutline>, n: nat): nat
    requires n <= |batch|
  {
    if n == 0 then 0 else MetaOffset(batch, n - 1) + |batch[n - 1].meta|
  }

  /** Byte offset of glyph n's point data: the sizes of glyphs 0..n-1 summed. */
  function PointOffset(batch: seq<GlyphOutline>, n: nat): nat
    requires n <= |batch|
  {
    if n == 0 then 0 else PointOffset(batch, n - 1) + |batch[n - 1].points|
  }

  lemma {:induction false} StreamLengths(batch: seq<GlyphOutline>, n: nat)
    requires n <= |batch|
    ensures |MetaStream(batch, n)| == MetaOffset(batch, n)
    ensures |PointStream(batch, n)| == PointOffset(batch, n)
  {
    if n > 0 {
      StreamLengths(batch, n - 1);
    }
  }

  lemma {:induction false} StreamPrefix(batch: seq<GlyphOutline>, m: nat, n: nat)
    requires m <= n <= |batch|
    ensures MetaStream(batch, m) <= MetaStream(batch, n)
    ensures PointStream(batch, m) <= PointStream(batch, n)
  {
    if m < n {
      StreamPrefix(batch, m, n - 1);
    }
  }

  /** Prefix sums locate each glyph: the bytes of the whole metadata (point)
      stream starting at glyph k's offset are exactly glyph k's stream. */
  lemma GlyphStreamsAtOffsets(batch: seq<GlyphOutline>, k: nat)
    requires k < |batch|
    ensures |MetaStream(batch, |batch|)| == MetaOffset(batch, |batch|)
    ensures |PointStream(batch, |batch|)| == PointOffset(batch, |batch|)
    ensures MetaOffset(batch, k) + |batch[k].meta| <= MetaOffset(batch, |batch|)
    ensures MetaStream(batch, |batch|)[MetaOffset(batch, k)..MetaOffset(batch, k) + |batch[k].meta|]
            == batch[k].meta
    ensures PointOffset(batch, k) + |batch[k].points| <= PointOffset(batch, |batch|)
    ensures PointStream(batch, |batch|)[PointOffset(batch, k)..PointOffset(batch, k) + |batch[k].points|]
            == batch[k].points
  {
    StreamPrefix(batch, k + 1, |batch|);
    StreamLengths(batch, k);
    StreamLengths(batch, k + 1);
    StreamLengths(batch, |batch|);
    var whole, upto := MetaStream(batch, |batch|), MetaStream(batch, k + 1);
    assert upto == MetaStream(batch, k) + batch[k].meta;
    assert whole[..|upto|] == upto;
    assert whole[MetaOffset(batch, k)..MetaOffset(batch, k) + |batch[k].meta|]
        == upto[MetaOffset(batch, k)..];
    var pwhole, pupto := PointStream(batch, |batch|), PointStream(batch, k + 1);
    assert pupto == PointStream(batch, k) + batch[k].points;
    assert pwhole[..|pupto|] == pupto;
    assert pwhole[PointOffset(batch, k)..PointOffset(batch, k) + |batch[k].points|]
        == pupto[PointOffset(batch, k)..];
  }

  /** When every glyph's point stream holds whole (x, y) pairs, the point
      offset handed to the generator (bytes / 8) indexes glyph k's first pair
      exactly. */
  lemma {:induction false} PointIndexExact(batch: seq<GlyphOutline>, n: nat)
    requires n <= |batch|
    requires forall k :: 0 <= k < |batch| ==> |batch[k].points| % BytesPerPoint == 0
    ensures (PointOffset(batch, n) / BytesPerPoint) * BytesPerPoint == PointOffset(batch, n)
  {
    if n > 0 {
      PointIndexExact(batch, n - 1);
      var p, q := PointOffset(batch, n - 1), |batch[n - 1].points|;
      assert p == (p / 8) * 8 && q == (q / 8) * 8;
      assert p + q == (p / 8 + q / 8) * 8;
    }
  }

  // Generator draws -------------------------------------------------------

  /** One generator draw: the footprint quad (two triangles), the translate
      that moves the outline into the padded box, the atlas destination, the
      stream offsets and the height uniform (the source passes `size_y`). */
  datatype GenDraw = GenDraw(
    quad: seq<real>,
    translateX: real,
    translateY: real,
    atlasX: real,
    atlasY: real,
    metaOffset: int,
    pointIndex: int,
    heightUniform: real)

  function Quad(w: real, h: real): seq<real> {
    [0.0, 0.0, w, 0.0, 0.0, h, 0.0, h, w, 0.0, w, h]
  }

  function DrawFor(e: IndexEntry, range: real, metaOffset: nat, pointOffset: nat): (d: GenDraw)
    ensures |d.quad| == 12
    ensures d.atlasX == e.offsetX && d.atlasY == e.offsetY
    ensures d.translateX == -e.bearingX + range / 2.0
    ensures d.translateY == e.glyphHeight - e.bearingY + range / 2.0
  {
    GenDraw(Quad(e.sizeX, e.sizeY), -e.bearingX + range / 2.0,
            e.glyphHeight - e.bearingY + range / 2.0,
            e.offsetX, e.offsetY, metaOffset, pointOffset / BytesPerPoint, e.sizeY)
  }

  /** The draws issued for the first n glyphs, in index order, each with
      the running stream offsets of its glyph. */
  function GeneratorDraws(index: seq<IndexEntry>, batch: seq<GlyphOutline>, range: real, n: nat)
    : (ds: seq<GenDraw>)
    requires |index| == |batch| && n <= |batch|
    ensures |ds| == n
  {
    if n == 0 then []
    else GeneratorDraws(index, batch, range, n - 1)
         + [DrawFor(index[n - 1], range, MetaOffset(batch, n - 1), PointOffset(batch, n - 1))]
  }

  /** The draw loop: one draw per glyph, in index order, with the running
      stream offsets. */
  method IssueGeneratorDraws(index: seq<IndexEntry>, batch: seq<GlyphOutline>, range: real)
    returns (draws: seq<GenDraw>)
    requires |index| == |batch|
    ensures draws == GeneratorDraws(index, batch, range, |batch|)
  {
    var metaOffset, pointOffset := 0, 0;
    draws := [];
    var i := 0;
    while i < |batch|
      invariant 0 <= i <= |batch|
      invariant metaOffset == MetaOffset(batch, i) && pointOffset == PointOffset(batch, i)
      invariant draws == GeneratorDraws(index, batch, range, i)
    {
      var g := index[i];
      draws := draws + [DrawFor(g, range, metaOffset, pointOffset)];
      metaOffset := metaOffset + |batch[i].meta|;
      pointOffset := pointOffset + |batch[i].points|;
      i := i + 1;
    }
  }

  /** Draw k targets entry k's atlas position, reads glyph k's streams at
      their running offsets (the point offset as an index of (x, y) pairs),
      draws the entry's footprint quad, and translates the outline by
      (-bearing_x + range/2, glyph_height - bearing_y + range/2). */
  lemma {:induction false} GeneratorDrawAt(index: seq<IndexEntry>, batch: seq<GlyphOutline>, range: real,
                                           n: nat, k: nat)
    requires |index| == |batch| && k < n <= |batch|
    ensures var d := GeneratorDraws(index, batch, range, n)[k];
            && d.atlasX == index[k].offsetX && d.atlasY == index[k].offsetY
            && d.metaOffset == MetaOffset(batch, k)
            && d.pointIndex == PointOffset(batch, k) / BytesPerPoint
            && d.translateX == -index[k].bearingX + range / 2.0
            && d.translateY == index[k].glyphHeight - index[k].bearingY + range / 2.0
            && d.quad == Quad(index[k].sizeX, index[k].sizeY)
  {
    if k < n - 1 {
      GeneratorDrawAt(index, batch, range, n - 1, k);
    }
  }

  /** The size loop: total metadata and point bytes of the batch. */
  method SumStreamSizes(batch: seq<GlyphOutline>) returns (metaSum: nat, pointSum: nat)
    ensures metaSum == MetaOffset(batch, |batch|) == |MetaStream(batch, |batch|)|
    ensures pointSum == PointOffset(batch, |batch|) == |PointStream(batch, |batch|)|
  {
    metaSum, pointSum := 0, 0;
    var i := 0;
    while i < |batch|
      invariant 0 <= i <= |batch|
      invariant metaSum == MetaOffset(batch, i) && pointSum == PointOffset(batch, i)
    {
      metaSum := metaSum + |batch[i].meta|;
      pointSum := pointSum + |batch[i].points|;
      i := i + 1;
    }
    StreamLengths(batch, |batch|);
  }

  /** The outline service serializing one stream into the host buffer at
      `at`, right after the streams already written. */
  method AppendStream(buf: array<Byte>, at: nat, bytes: seq<Byte>, ghost written: seq<Byte>)
    requires at + |bytes| <= buf.Length
    requires buf[..at] == written
    modifies buf
    ensures buf[..at + |bytes|] == written + bytes
  {
    forall j | 0 <= j < |bytes| {
      buf[at + j] := bytes[j];
    }
    assert buf[..at + |bytes|] == buf[..at] + buf[at..at + |bytes|];
  }

  /** Serializes glyph i of the batch right after glyphs 0..i-1 in both
      host buffers, advancing the two byte offsets past it. */
  method AppendGlyphStreams(metadata: array<Byte>, pointData: array<Byte>, batch: seq<GlyphOutline>,
                            i: nat, metaPtr: nat, pointPtr: nat)
    returns (metaNext: nat, pointNext: nat)
    requires i < |batch| && metadata != pointData
    requires metadata.Length == MetaOffset(batch, |batch|) && pointData.Length == PointOffset(batch, |batch|)
    requires metaPtr == MetaOffset(batch, i) && pointPtr == PointOffset(batch, i)
    requires metaPtr <= metadata.Length && pointPtr <= pointData.Length
    requires metadata[..metaPtr] == MetaStream(batch, i) && pointData[..pointPtr] == PointStream(batch, i)
    modifies metadata, pointData
    ensures metaNext == MetaOffset(batch, i + 1) && pointNext == PointOffset(batch, i + 1)
    ensures metaNext <= metadata.Length && pointNext <= pointData.Length
    ensures metadata[..metaNext] == MetaStream(batch, i + 1)
    ensures pointData[..pointNext] == PointStream(batch, i + 1)
  {
    StreamPrefix(batch, i + 1, |batch|);
    StreamLengths(batch, i + 1);
    StreamLengths(batch, |batch|);
    AppendStream(metadata, metaPtr, batch[i].meta, MetaStream(batch, i));
    AppendStream(pointData, pointPtr, batch[i].points, PointStream(batch, i));
    metaNext, pointNext := metaPtr + |batch[i].meta|, pointPtr + |batch[i].points|;
  }

  /** One step of the atlas packer: wrap to a new row when the footprint
      does not fit, place it, then move the cursor past it. */
  method PackStep(textureSize: int, offsetX: real, offsetY: real, yIncrement: real, w: real, h: real)
    returns (x: real, y: real, nextX: real, nextY: real, nextIncrement: real)
    ensures Rect(x, y, w, h) == Place(AtlasShelf(textureSize), Cursor(offsetX, offsetY, yIncrement), Size(w, h))
    ensures Cursor(nextX, nextY, nextIncrement)
            == Advance(AtlasShelf(textureSize), Cursor(offsetX, offsetY, yIncrement), Size(w, h))
  {
    x, y, nextIncrement := offsetX, offsetY, yIncrement;
    if x + w > textureSize as real {
      y := y + (nextIncrement + 1.0);
      x := 1.0;
      nextIncrement := 0.0;
    }
    nextIncrement := if h > nextIncrement then h else nextIncrement;
    nextX, nextY := x + w + 1.0, y;
  }

  /** Places glyph i: computes its padded footprint, packs it with the
      cursor, and records its index entry at slot i. */
  method PlaceGlyph(atlasIndex: array<IndexEntry>, batch: seq<GlyphOutline>, range: real, scale: real,
                    textureSize: int, i: nat, offsetX: real, offsetY: real, yIncrement: real)
    returns (nextX: real, nextY: real, nextIncrement: real)
    requires i < |batch| && i < atlasIndex.Length
    requires Cursor(offsetX, offsetY, yIncrement)
             == CursorAt(AtlasShelf(textureSize), Footprints(batch, range, scale), i)
    requires atlasIndex[..i] == IndexPrefix(batch, range, scale, textureSize, i)
    modifies atlasIndex
    ensures Cursor(nextX, nextY, nextIncrement)
            == CursorAt(AtlasShelf(textureSize), Footprints(batch, range, scale), i + 1)
    ensures atlasIndex[..i + 1] == IndexPrefix(batch, range, scale, textureSize, i + 1)
  {
    var g := batch[i];
    var footprint := Footprint(g, range, scale);
    var bufferWidth, bufferHeight := footprint.w, footprint.h;
    IndexPrefixStep(batch, range, scale, textureSize, i);
    var x, y;
    x, y, nextX, nextY, nextIncrement := PackStep(textureSize, offsetX, offsetY, yIncrement,
                                                  bufferWidth, bufferHeight);
    atlasIndex[i] := IndexEntry(x, y, bufferWidth, bufferHeight,
                                g.bearingX, g.bearingY, g.width, g.height);
    assert atlasIndex[..i + 1] == atlasIndex[..i] + [atlasIndex[i]];
  }

  /** One iteration of the serialization loop: glyph i's streams, index
      entry and advance. */
  method SerializeGlyph(batch: seq<GlyphOutline>, range: real, scale: real, textureSize: int,
                        metadata: array<Byte>, pointData: array<Byte>, atlasIndex: array<IndexEntry>,
                        advances: array<real>, start: int, i: nat,
                        metaPtr: nat, pointPtr: nat, offsetX: real, offsetY: real, yIncrement: real)
    returns (metaNext: nat, pointNext: nat, nextX: real, nextY: real, nextIncrement: real)
    requires i < |batch| && atlasIndex.Length == |batch| && metadata != pointData
    requires atlasIndex as object != metadata && atlasIndex as object != pointData
    requires advances as object != metadata && advances as object != pointData && advances as object != atlasIndex
    requires metadata.Length == MetaOffset(batch, |batch|) && pointData.Length == PointOffset(batch, |batch|)
    requires 0 <= start && start + |batch| <= advances.Length
    requires Cursor(offsetX, offsetY, yIncrement)
             == CursorAt(AtlasShelf(textureSize), Footprints(batch, range, scale), i)
    requires atlasIndex[..i] == IndexPrefix(batch, range, scale, textureSize, i)
    requires metaPtr == MetaOffset(batch, i) <= metadata.Length
    requires pointPtr == PointOffset(batch, i) <= pointData.Length
    requires metadata[..metaPtr] == MetaStream(batch, i)
    requires pointData[..pointPtr] == PointStream(batch, i)
    modifies metadata, pointData, atlasIndex, advances
    ensures Cursor(nextX, nextY, nextIncrement)
            == CursorAt(AtlasShelf(textureSize), Footprints(batch, range, scale), i + 1)
    ensures atlasIndex[..i + 1] == IndexPrefix(batch, range, scale, textureSize, i + 1)
    ensures metaNext == MetaOffset(batch, i + 1) <= metadata.Length
    ensures pointNext == PointOffset(batch, i + 1) <= pointData.Length
    ensures metadata[..metaNext] == MetaStream(batch, i + 1)
    ensures pointData[..pointNext] == PointStream(batch, i + 1)
    ensures forall id :: 0 <= id < advances.Length ==>
              advances[id] == if id == start + i then batch[id - start].advance else old(advances[id])
  {
    metaNext, pointNext := AppendGlyphStreams(metadata, pointData, batch, i, metaPtr, pointPtr);
    nextX, nextY, nextIncrement := PlaceGlyph(atlasIndex, batch, range, scale, textureSize, i,
                                              offsetX, offsetY, yIncrement);
    advances[i + start] := batch[i].advance;
  }

  /** The serialization loop of `msdf_gl_generate_glyphs`: writes every
      glyph's streams at the running byte offsets, packs its footprint with
      the cursor (offset_x, offset_y, y_increment) starting at (1, 1, 0),
      records its index entry and stores its advance at slot start + k. */
  method SerializeAndPack(batch: seq<GlyphOutline>, range: real, scale: real, textureSize: int,
                          metaSum: nat, pointSum: nat, advances: array<real>, start: int)
    returns (metadata: array<Byte>, pointData: array<Byte>, atlasIndex: array<IndexEntry>,
             indexSizeSum: nat)
    requires metaSum == MetaOffset(batch, |batch|) && pointSum == PointOffset(batch, |batch|)
    requires 0 <= start && start + |batch| <= advances.Length
    modifies advances
    ensures fresh(metadata) && fresh(pointData) && fresh(atlasIndex)
    ensures metadata[..] == MetaStream(batch, |batch|)
    ensures pointData[..] == PointStream(batch, |batch|)
    ensures atlasIndex[..] == AtlasIndex(batch, range, scale, textureSize)
    ensures indexSizeSum == 4 * FloatsPerEntry * |batch|
    ensures forall id :: 0 <= id < advances.Length ==>
              advances[id] == if start <= id < start + |batch| then batch[id - start].advance
                              else old(advances[id])
  {
    var n := |batch|;
    metadata := new Byte[metaSum];
    pointData := new Byte[pointSum];
    atlasIndex := new IndexEntry[n];
    var metaPtr, pointPtr := 0, 0;
    var offsetX, offsetY, yIncrement := 1.0, 1.0, 0.0;
    indexSizeSum := 0;
    var i := 0;
    while i < n
      invariant 0 <= i <= n
      invariant Cursor(offsetX, offsetY, yIncrement)
                == CursorAt(AtlasShelf(textureSize), Footprints(batch, range, scale), i)
      invariant atlasIndex[..i] == IndexPrefix(batch, range, scale, textureSize, i)
      invariant metaPtr == MetaOffset(batch, i) <= metaSum
      invariant pointPtr == PointOffset(batch, i) <= pointSum
      invariant metadata[..metaPtr] == MetaStream(batch, i)
      invariant pointData[..pointPtr] == PointStream(batch, i)
      invariant indexSizeSum == 4 * FloatsPerEntry * i
      invariant forall id :: 0 <= id < advances.Length ==>
                  advances[id] == if start <= id < start + i then batch[id - start].advance
                                  else old(advances[id])
    {
      metaPtr, pointPtr, offsetX, offsetY, yIncrement :=
        SerializeGlyph(batch, range, scale, textureSize, metadata, pointData, atlasIndex, advances, start, i,
                       metaPtr, pointPtr, offsetX, offsetY, yIncrement);

      assert 4 * FloatsPerEntry * (i + 1) == 4 * FloatsPerEntry * i + 4 * FloatsPerEntry;
      indexSizeSum := indexSizeSum + 4 * FloatsPerEntry;
      i := i + 1;
    }
    assert atlasIndex[..] == atlasIndex[..n];
    StreamLengths(batch, n);
    assert metadata[..] == metadata[..metaPtr];
    assert pointData[..] == pointData[..pointPtr];
  }

  // ---------------------------------------------------------------------
  // The font and batch generation
  // ---------------------------------------------------------------------

  /** A font: its configuration, CPU-side metrics, and the contents of the
      GPU buffers the last generation batch uploaded. */
  class Font {
    const range: real
    const scale: real
    const textureSize: int
    var verticalAdvance: real
    const horizontalAdvances: array<real>
    var atlasProjection: seq<seq<real>>
    var metaBuffer: seq<Byte>
    var pointBuffer: seq<Byte>
    var index: seq<IndexEntry>
    var indexBytes: nat
    var generatorDraws: seq<GenDraw>

    ghost predicate Valid()
      reads this
    {
      horizontalAdvances.Length == AdvanceTableSize && textureSize > 0
    }

    /** `msdf_gl_load_font`: records the configuration; no glyph generated. */
    constructor (range: real, scale: real, textureSize: int)
      requires textureSize > 0
      ensures Valid() && fresh(horizontalAdvances)
      ensures this.range == range && this.scale == scale && this.textureSize == textureSize
      ensures index == [] && generatorDraws == [] && metaBuffer == [] && pointBuffer == []
    {
      this.range := range;
      this.scale := scale;
      this.textureSize := textureSize;
      horizontalAdvances := new real[AdvanceTableSize];
      index := [];
      generatorDraws := [];
      metaBuffer := [];
      pointBuffer := [];
    }

    /** `msdf_gl_generate_glyphs` for ids start..end; `batch[k]` is what the
        outline service yields for id start + k. */
    method GenerateGlyphs(start: int, end: int, batch: seq<GlyphOutline>, fontHeight: real)
      returns (r: int)
      requires Valid()
      requires end - start > 0 ==>
                 InAdvanceTable(GlyphRange(start, end)) && |batch| == RangeCount(GlyphRange(start, end))
      modifies this, horizontalAdvances
      ensures Valid()
      ensures end - start <= 0 ==> r == -1 && unchanged(this) && unchanged(horizontalAdvances)
      ensures end - start > 0 ==>
                && r == end - start
                && |index| == |batch| == r + 1
                && verticalAdvance == fontHeight
                && index == AtlasIndex(batch, range, scale, textureSize)
                && metaBuffer == MetaStream(batch, |batch|)
                && pointBuffer == PointStream(batch, |batch|)
                && indexBytes == 4 * FloatsPerEntry * |batch|
                && generatorDraws == GeneratorDraws(index, batch, range, |batch|)
                && atlasProjection == Ortho(-(textureSize as real), textureSize as real,
                                            -(textureSize as real), textureSize as real, -1.0, 1.0)
      ensures end - start > 0 ==>
                forall id :: 0 <= id < AdvanceTableSize ==>
                  horizontalAdvances[id]
                  == if start <= id <= end then batch[id - start].advance else old(horizontalAdvances[id])
    {
      if end - start <= 0 {
        return -1;
      }
      var metaSum, pointSum := SumStreamSizes(batch);
      verticalAdvance := fontHeight;
      var metadata, pointData, atlasIndex, indexSizeSum :=
        SerializeAndPack(batch, range, scale, textureSize, metaSum, pointSum, horizontalAdvances, start);

      metaBuffer := metadata[..];
      pointBuffer := pointData[..];
      index := atlasIndex[..];
      indexBytes := indexSizeSum;
      atlasProjection := Ortho(-(textureSize as real), textureSize as real,
                               -(textureSize as real), textureSize as real, -1.0, 1.0);
      generatorDraws := IssueGeneratorDraws(index, batch, range);
      return end - start;
    }
  }
}
