/**
 * The legacy text path of src/egl_window.c (`draw_text`): lays a string out
 * with a pen that starts at (x, y), appends one glyph instance per character
 * to a fixed-capacity buffer that persists across calls, draws the buffer
 * whenever it is full, and draws the remainder on request.
 */
module TextBatch {
  import LegacyFont

  /** One glyph instance of the legacy renderer: pen position, colour and
      the character whose atlas entry is drawn. */
  datatype GlGlyph = GlGlyph(x: int, y: int, color: bv32, key: char)

  datatype Pen = Pen(x: int, y: int)

  /** Every character that is drawn has an advance in the table. */
  predicate Drawable(text: seq<char>, advances: seq<int>) {
    forall k :: 0 <= k < |text| && text[k] != '\n' ==> (text[k] as int) < |advances|
  }

  /** The pen after the first n characters: a newline returns to `baseX` and
      moves one line down; a carriage return returns to `baseX` before the
      character is placed; every other character moves the pen right by its
      advance. */
  function PenAt(text: seq<char>, baseX: int, y0: int, va: int, advances: seq<int>, n: nat): Pen
    requires n <= |text| && Drawable(text, advances)
  {
    if n == 0 then Pen(baseX, y0)
    else
      var p := PenAt(text, baseX, y0, va, advances, n - 1);
      var c := text[n - 1];
      if c == '\n' then Pen(baseX, p.y + va)
      else if c == '\r' then Pen(baseX + advances[c as int], p.y)
      else Pen(p.x + advances[c as int], p.y)
  }

  /** The glyphs emitted for the first n characters, in order: one per
      character except newlines, placed at the pen (at `baseX` for a
      carriage return). */
  function Emitted(text: seq<char>, baseX: int, y0: int, va: int, advances: seq<int>, color: bv32, n: nat)
    : seq<GlGlyph>
    requires n <= |text| && Drawable(text, advances)
  {
    if n == 0 then []
    else
      var p := PenAt(text, baseX, y0, va, advances, n - 1);
      var c := text[n - 1];
      Emitted(text, baseX, y0, va, advances, color, n - 1)
      + (if c == '\n' then [] else [GlGlyph(if c == '\r' then baseX else p.x, p.y, color, c)])
  }

  /** A newline moves the pen to the start of the next line and emits
      nothing. */
  lemma NewlineStep(text: seq<char>, baseX: int, y0: int, va: int, advances: seq<int>, color: bv32, i: nat)
    requires i < |text| && Drawable(text, advances) && text[i] == '\n'
    ensures PenAt(text, baseX, y0, va, advances, i + 1)
            == Pen(baseX, PenAt(text, baseX, y0, va, advances, i).y + va)
    ensures Emitted(text, baseX, y0, va, advances, color, i + 1) == Emitted(text, baseX, y0, va, advances, color, i)
  {
    assert Emitted(text, baseX, y0, va, advances, color, i + 1)
        == Emitted(text, baseX, y0, va, advances, color, i) + [];
  }

  /** Any other character emits one glyph at the pen (at `baseX` for a
      carriage return) and moves the pen right by its advance. */
  lemma GlyphStep(text: seq<char>, baseX: int, y0: int, va: int, advances: seq<int>, color: bv32, i: nat)
    requires i < |text| && Drawable(text, advances) && text[i] != '\n'
    ensures var p, c := PenAt(text, baseX, y0, va, advances, i), text[i];
            var gx := if c == '\r' then baseX else p.x;
            && PenAt(text, baseX, y0, va, advances, i + 1) == Pen(gx + advances[c as int], p.y)
            && Emitted(text, baseX, y0, va, advances, color, i + 1)
               == Emitted(text, baseX, y0, va, advances, color, i) + [GlGlyph(gx, p.y, color, c)]
  {
  }

  function Flatten(batches: seq<seq<GlGlyph>>): seq<GlGlyph> {
    if |batches| == 0 then [] else Flatten(batches[..|batches| - 1]) + batches[|batches| - 1]
  }

  lemma FlattenAppend(batches: seq<seq<GlGlyph>>, b: seq<GlGlyph>)
    ensures Flatten(batches + [b]) == Flatten(batches) + b
  {
    assert (batches + [b])[..|batches|] == batches;
  }

  /** The static glyph buffer of `draw_text` with its count, and the log of
      the batches handed to the draw call. */
  class TextBatcher {
    const capacity: nat
    const glyphs: array<GlGlyph>
    var glyphCount: nat
    var drawn: seq<seq<GlGlyph>>

    ghost predicate Valid()
      reads this
    {
      glyphs.Length == capacity && 0 < capacity && glyphCount <= capacity
    }

    ghost function Pending(): seq<GlGlyph>
      reads this, glyphs
      requires Valid()
    {
      glyphs[..glyphCount]
    }

    /** The buffer before the first call: empty, nothing drawn. */
    constructor (capacity: nat, filler: GlGlyph)
      requires capacity > 0
      ensures Valid() && this.capacity == capacity && fresh(glyphs)
      ensures glyphCount == 0 && drawn == []
    {
      this.capacity := capacity;
      glyphs := new GlGlyph[capacity](_ => filler);
      glyphCount := 0;
      drawn := [];
    }

    /** Draws the pending glyphs as one batch and empties the buffer. */
    method DrawPending()
      requires Valid() && glyphCount > 0
      modifies this
      ensures Valid() && glyphCount == 0
      ensures drawn == old(drawn) + [old(Pending())]
      ensures Flatten(drawn) == old(Flatten(drawn) + Pending())
    {
      FlattenAppend(drawn, glyphs[..glyphCount]);
      drawn := drawn + [glyphs[..glyphCount]];
      glyphCount := 0;
    }

    /** Appends one glyph, drawing the buffer first when it is full. */
    method Push(g: GlGlyph)
      requires Valid()
      modifies this, glyphs
      ensures Valid() && 0 < glyphCount
      ensures Flatten(drawn) + Pending() == old(Flatten(drawn) + Pending()) + [g]
      ensures drawn == old(drawn) || (old(glyphCount) == capacity && drawn == old(drawn) + [old(Pending())])
      ensures |old(drawn)| <= |drawn| && drawn[..|old(drawn)|] == old(drawn)
      ensures forall k :: |old(drawn)| <= k < |drawn| ==> |drawn[k]| == capacity
    {
      if glyphCount == capacity {
        DrawPending();
      }
      ghost var pendingBefore := Pending();
      glyphs[glyphCount] := g;
      glyphCount := glyphCount + 1;
      assert Pending() == pendingBefore + [g];
    }

    /** Push, stated as the step of the layout loop: the glyphs drawn or
        pending since `before` grow by g, batches drawn before stay, and
        every batch drawn since is full. */
    method EmitGlyph(g: GlGlyph, ghost before: seq<GlGlyph>, ghost emitted: seq<GlGlyph>,
                     ghost oldDrawn: seq<seq<GlGlyph>>)
      requires Valid() && Flatten(drawn) + Pending() == before + emitted
      requires |oldDrawn| <= |drawn| && drawn[..|oldDrawn|] == oldDrawn
      requires forall k :: |oldDrawn| <= k < |drawn| ==> |drawn[k]| == capacity
      modifies this, glyphs
      ensures Valid() && 0 < glyphCount && Flatten(drawn) + Pending() == before + (emitted + [g])
      ensures |oldDrawn| <= |drawn| && drawn[..|oldDrawn|] == oldDrawn
      ensures forall k :: |oldDrawn| <= k < |drawn| ==> |drawn[k]| == capacity
    {
      ghost var drawnBefore := drawn;
      Push(g);
      assert drawn[..|oldDrawn|] == drawn[..|drawnBefore|][..|oldDrawn|];
    }

    /** `draw_text`: everything emitted so far, drawn or pending, grows by
        exactly the glyphs of this text in order; every batch drawn while
        laying out is a full buffer; with `flush`, a non-empty remainder is
        drawn last and the buffer ends empty. */
    method DrawText(x: int, y: int, text: seq<char>, font: LegacyFont.Font, color: bv32, flush: bool)
      requires Valid() && Drawable(text, font.horizontalAdvances[..])
      modifies this, glyphs
      ensures Valid()
      ensures Flatten(drawn) + Pending()
              == old(Flatten(drawn) + Pending())
                 + Emitted(text, x, y, font.verticalAdvance, font.horizontalAdvances[..], color, |text|)
      ensures |old(drawn)| <= |drawn| && drawn[..|old(drawn)|] == old(drawn)
      ensures forall k :: |old(drawn)| <= k < |drawn| ==>
                |drawn[k]| == capacity || (flush && k == |drawn| - 1 && 0 < |drawn[k]|)
      ensures flush ==> glyphCount == 0
      ensures !flush ==>
                (glyphCount == 0 <==>
                   (old(glyphCount) == 0
                    && |Emitted(text, x, y, font.verticalAdvance, font.horizontalAdvances[..], color, |text|)| == 0))
    {
      ghost var advances := font.horizontalAdvances[..];
      ghost var va := font.verticalAdvance;
      ghost var before := Flatten(drawn) + Pending();
      ghost var oldDrawn := drawn;
      var baseX, px, py := x, x, y;
      var i := 0;
      while i < |text|
        invariant 0 <= i <= |text| && Valid()
        invariant Pen(px, py) == PenAt(text, baseX, y, va, advances, i)
        invariant Flatten(drawn) + Pending() == before + Emitted(text, baseX, y, va, advances, color, i)
        invariant |oldDrawn| <= |drawn| && drawn[..|oldDrawn|] == oldDrawn
        invariant forall k :: |oldDrawn| <= k < |drawn| ==> |drawn[k]| == capacity
        invariant font.horizontalAdvances[..] == advances && font.verticalAdvance == va
        invariant |Emitted(text, baseX, y, va, advances, color, i)| == 0 ==> glyphCount == old(glyphCount)
        invariant |Emitted(text, baseX, y, va, advances, color, i)| > 0 ==> glyphCount > 0
      {
        var c := text[i];
        if c == '\n' {
          NewlineStep(text, baseX, y, va, advances, color, i);
          px := baseX;
          py := py + font.verticalAdvance;
          i := i + 1;
          continue;
        }
        GlyphStep(text, baseX, y, va, advances, color, i);
        if c == '\r' {
          px := baseX;
        }
        var advance := font.horizontalAdvances[c as int];
        var g := GlGlyph(px, py, color, c);
        EmitGlyph(g, before, Emitted(text, baseX, y, va, advances, color, i), oldDrawn);
        px := px + advance;
        i := i + 1;
      }
      if flush && glyphCount != 0 {
        DrawPending();
      }
    }
  }

  /** Number of newlines among the first n characters. */
  function Newlines(text: seq<char>, n: nat): nat
    requires n <= |text|
  {
    if n == 0 then 0 else Newlines(text, n - 1) + (if text[n - 1] == '\n' then 1 else 0)
  }

  /** The first n characters with the newlines removed. */
  function WithoutNewlines(text: seq<char>, n: nat): seq<char>
    requires n <= |text|
  {
    if n == 0 then []
    else WithoutNewlines(text, n - 1) + (if text[n - 1] == '\n' then [] else [text[n - 1]])
  }

  function Keys(gs: seq<GlGlyph>): seq<char> {
    if |gs| == 0 then [] else Keys(gs[..|gs| - 1]) + [gs[|gs| - 1].key]
  }

  lemma KeysAppend(gs: seq<GlGlyph>, hs: seq<GlGlyph>)
    ensures Keys(gs + hs) == Keys(gs) + Keys(hs)
    decreases |hs|
  {
    if |hs| > 0 {
      var init, last := hs[..|hs| - 1], hs[|hs| - 1];
      assert gs + hs == (gs + init) + [last];
      assert (gs + hs)[..|gs + hs| - 1] == gs + init;
      KeysAppend(gs, init);
      calc {
        Keys(gs + hs);
        Keys(gs + init) + [last.key];
        Keys(gs) + Keys(init) + [last.key];
        Keys(gs) + Keys(hs);
      }
    } else {
      assert gs + hs == gs;
    }
  }

  /** The glyphs emitted spell the text without its newlines. */
  lemma {:induction false} EmittedSpellsText(text: seq<char>, baseX: int, y0: int, va: int,
                                             advances: seq<int>, color: bv32, n: nat)
    requires n <= |text| && Drawable(text, advances)
    ensures Keys(Emitted(text, baseX, y0, va, advances, color, n)) == WithoutNewlines(text, n)
  {
    if n > 0 {
      EmittedSpellsText(text, baseX, y0, va, advances, color, n - 1);
      if text[n - 1] == '\n' {
        SpellsNewline(text, baseX, y0, va, advances, color, n);
      } else {
        SpellsGlyph(text, baseX, y0, va, advances, color, n);
      }
    }
  }

  lemma SpellsNewline(text: seq<char>, baseX: int, y0: int, va: int, advances: seq<int>, color: bv32, n: nat)
    requires 0 < n <= |text| && Drawable(text, advances) && text[n - 1] == '\n'
    requires Keys(Emitted(text, baseX, y0, va, advances, color, n - 1)) == WithoutNewlines(text, n - 1)
    ensures Keys(Emitted(text, baseX, y0, va, advances, color, n)) == WithoutNewlines(text, n)
  {
    NewlineStep(text, baseX, y0, va, advances, color, n - 1);
    assert WithoutNewlines(text, n) == WithoutNewlines(text, n - 1) + [];
  }

  lemma SpellsGlyph(text: seq<char>, baseX: int, y0: int, va: int, advances: seq<int>, color: bv32, n: nat)
    requires 0 < n <= |text| && Drawable(text, advances) && text[n - 1] != '\n'
    requires Keys(Emitted(text, baseX, y0, va, advances, color, n - 1)) == WithoutNewlines(text, n - 1)
    ensures Keys(Emitted(text, baseX, y0, va, advances, color, n)) == WithoutNewlines(text, n)
  {
    var c := text[n - 1];
    GlyphStep(text, baseX, y0, va, advances, color, n - 1);
    var p := PenAt(text, baseX, y0, va, advances, n - 1);
    var g := GlGlyph(if c == '\r' then baseX else p.x, p.y, color, c);
    KeysAppend(Emitted(text, baseX, y0, va, advances, color, n - 1), [g]);
    assert Keys([g]) == [c] by {
      assert [g][..0] == [];
    }
  }

  /** One glyph per character that is not a newline, all in the requested
      colour. */
  lemma {:induction false} EmittedCount(text: seq<char>, baseX: int, y0: int, va: int,
                                        advances: seq<int>, color: bv32, n: nat)
    requires n <= |text| && Drawable(text, advances)
    ensures |Emitted(text, baseX, y0, va, advances, color, n)| == n - Newlines(text, n)
    ensures forall k :: 0 <= k < |Emitted(text, baseX, y0, va, advances, color, n)| ==>
              Emitted(text, baseX, y0, va, advances, color, n)[k].color == color
  {
    if n > 0 {
      EmittedCount(text, baseX, y0, va, advances, color, n - 1);
    }
  }

  /** The pen's line: it starts at y0 and moves down one line height per
      newline, and a newline or carriage return puts it back at `baseX`. */
  lemma {:induction false} PenLine(text: seq<char>, baseX: int, y0: int, va: int, advances: seq<int>, n: nat)
    requires n <= |text| && Drawable(text, advances)
    ensures PenAt(text, baseX, y0, va, advances, n).y == y0 + va * Newlines(text, n)
    ensures n > 0 && text[n - 1] == '\n' ==> PenAt(text, baseX, y0, va, advances, n).x == baseX
  {
    if n > 0 {
      PenLine(text, baseX, y0, va, advances, n - 1);
    }
  }
}
