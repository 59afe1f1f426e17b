/**
 * Greedy shelf packing of rectangles into a square canvas, as done by both
 * atlas builders of the program: the MSDF generator (src/msdf_gl.c) and the
 * legacy bitmap loader (src/egl_window.c). The two differ only in the margin
 * a new row starts at and in whether the row height is reset on a wrap, so
 * the packer is stated once, over exact `real` coordinates, for a `Shelf`
 * configuration, and its invariants are proved once for both.
 */
module ShelfPacker {

  /** Packer configuration: left/top margin, row-height policy, canvas width. */
  datatype Shelf = Shelf(origin: real, resetOnWrap: bool, limit: real)

  /** Cursor of the packer: next free position and height of the current row. */
  datatype Cursor = Cursor(x: real, y: real, rowHeight: real)

  /** Size of one footprint to place. */
  datatype Size = Size(w: real, h: real)

  /** A placed footprint: top-left corner and size. */
  datatype Rect = Rect(x: real, y: real, w: real, h: real)

  function Max(a: real, b: real): real { if a < b then b else a }

  function Start(sh: Shelf): Cursor {
    Cursor(sh.origin, sh.origin, 0.0)
  }

  /** The footprint does not fit on the current row. */
  predicate Wraps(sh: Shelf, c: Cursor, s: Size) {
    c.x + s.w > sh.limit
  }

  /** The cursor after the wrap check, before the footprint is placed. */
  function RowFor(sh: Shelf, c: Cursor, s: Size): Cursor {
    if Wraps(sh, c, s) then
      Cursor(sh.origin, c.y + c.rowHeight + 1.0, if sh.resetOnWrap then 0.0 else c.rowHeight)
    else
      c
  }

  /** Where the footprint is placed. Its right edge stays inside the canvas
      whenever the footprint fits beside the margin at all. */
  function Place(sh: Shelf, c: Cursor, s: Size): (r: Rect)
    ensures r.w == s.w && r.h == s.h
    ensures sh.origin + s.w <= sh.limit ==> r.x + r.w <= sh.limit
    ensures Wraps(sh, c, s) ==> r.x == sh.origin && r.y == c.y + c.rowHeight + 1.0
    ensures !Wraps(sh, c, s) ==> r.x == c.x && r.y == c.y
  {
    var row := RowFor(sh, c, s);
    Rect(row.x, row.y, s.w, s.h)
  }

  /** The cursor after placing the footprint: one texel of gutter to its right,
      the row height raised to cover it. */
  function Advance(sh: Shelf, c: Cursor, s: Size): Cursor {
    var row := RowFor(sh, c, s);
    Cursor(row.x + s.w + 1.0, row.y, Max(row.rowHeight, s.h))
  }

  /** The cursor after the first `n` footprints of `sizes` are placed. */
  function CursorAt(sh: Shelf, sizes: seq<Size>, n: nat): Cursor
    requires n <= |sizes|
  {
    if n == 0 then Start(sh) else Advance(sh, CursorAt(sh, sizes, n - 1), sizes[n - 1])
  }

  /** Placement of footprint `k`. */
  function Placement(sh: Shelf, sizes: seq<Size>, k: nat): Rect
    requires k < |sizes|
  {
    Place(sh, CursorAt(sh, sizes, k), sizes[k])
  }

  /** Placements of all footprints, in order. */
  function Pack(sh: Shelf, sizes: seq<Size>): (rs: seq<Rect>)
    ensures |rs| == |sizes|
    ensures forall k :: 0 <= k < |sizes| ==> rs[k] == Placement(sh, sizes, k)
  {
    seq(|sizes|, k requires 0 <= k < |sizes| => Placement(sh, sizes, k))
  }

  predicate NonNegativeWidths(sizes: seq<Size>) {
    forall k :: 0 <= k < |sizes| ==> sizes[k].w >= 0.0
  }

  /** Two rectangles are apart by at least one texel along some axis. */
  predicate Separated(a: Rect, b: Rect) {
    || a.x + a.w + 1.0 <= b.x
    || b.x + b.w + 1.0 <= a.x
    || a.y + a.h + 1.0 <= b.y
    || b.y + b.h + 1.0 <= a.y
  }

  /** `e` lies before the cursor: earlier on the cursor's row (and no taller
      than it), or on a row that ends above it. */
  predicate Behind(e: Rect, c: Cursor) {
    || (e.y == c.y && e.x + e.w + 1.0 <= c.x && e.h <= c.rowHeight)
    || e.y + e.h + 1.0 <= c.y
  }

  lemma {:induction false} RowHeightNonNegative(sh: Shelf, sizes: seq<Size>, n: nat)
    requires n <= |sizes|
    ensures CursorAt(sh, sizes, n).rowHeight >= 0.0
  {
    if n > 0 {
      RowHeightNonNegative(sh, sizes, n - 1);
    }
  }

  lemma {:induction false} CursorRightOfMargin(sh: Shelf, sizes: seq<Size>, n: nat)
    requires n <= |sizes|
    requires NonNegativeWidths(sizes)
    ensures CursorAt(sh, sizes, n).x >= sh.origin
    ensures n > 0 ==> CursorAt(sh, sizes, n).x >= sh.origin + 1.0
  {
    if n > 0 {
      CursorRightOfMargin(sh, sizes, n - 1);
    }
  }

  lemma PlacedIsBehind(sh: Shelf, c: Cursor, s: Size)
    ensures Behind(Place(sh, c, s), Advance(sh, c, s))
  {
  }

  lemma StepKeepsBehind(sh: Shelf, e: Rect, c: Cursor, s: Size)
    requires Behind(e, c)
    requires c.rowHeight >= 0.0 && s.w >= 0.0
    ensures Behind(e, Advance(sh, c, s))
  {
  }

  lemma BehindIsSeparated(sh: Shelf, e: Rect, c: Cursor, s: Size)
    requires Behind(e, c)
    requires c.rowHeight >= 0.0
    ensures Separated(e, Place(sh, c, s))
  {
  }

  /** Every footprint placed so far lies behind the cursor. */
  lemma {:induction false} EarlierBehind(sh: Shelf, sizes: seq<Size>, k: nat, n: nat)
    requires k < n <= |sizes|
    requires NonNegativeWidths(sizes)
    ensures Behind(Placement(sh, sizes, k), CursorAt(sh, sizes, n))
  {
    if n == k + 1 {
      PlacedIsBehind(sh, CursorAt(sh, sizes, k), sizes[k]);
    } else {
      EarlierBehind(sh, sizes, k, n - 1);
      RowHeightNonNegative(sh, sizes, n - 1);
      StepKeepsBehind(sh, Placement(sh, sizes, k), CursorAt(sh, sizes, n - 1), sizes[n - 1]);
    }
  }

  /** Packing disjointness: any two footprints of one batch are apart by at
      least one texel. */
  lemma PackDisjoint(sh: Shelf, sizes: seq<Size>)
    requires NonNegativeWidths(sizes)
    ensures forall i, j :: 0 <= i < |sizes| && 0 <= j < |sizes| && i != j ==>
              Separated(Pack(sh, sizes)[i], Pack(sh, sizes)[j])
  {
    forall i, j | 0 <= i < |sizes| && 0 <= j < |sizes| && i != j
      ensures Separated(Pack(sh, sizes)[i], Pack(sh, sizes)[j])
    {
      var lo, hi := if i < j then i else j, if i < j then j else i;
      EarlierBehind(sh, sizes, lo, hi);
      RowHeightNonNegative(sh, sizes, hi);
      BehindIsSeparated(sh, Placement(sh, sizes, lo), CursorAt(sh, sizes, hi), sizes[hi]);
    }
  }

  lemma {:induction false} CursorYNonDecreasing(sh: Shelf, sizes: seq<Size>, m: nat, n: nat)
    requires m <= n <= |sizes|
    ensures CursorAt(sh, sizes, m).y <= CursorAt(sh, sizes, n).y
  {
    if m < n {
      CursorYNonDecreasing(sh, sizes, m, n - 1);
      RowHeightNonNegative(sh, sizes, n - 1);
    }
  }

  /** Row advance monotonicity: later footprints never sit on a higher row. */
  lemma RowsNonDecreasing(sh: Shelf, sizes: seq<Size>, i: nat, j: nat)
    requires i <= j < |sizes|
    ensures Pack(sh, sizes)[i].y <= Pack(sh, sizes)[j].y
  {
    if i < j {
      CursorYNonDecreasing(sh, sizes, i + 1, j);
      RowHeightNonNegative(sh, sizes, j);
    }
  }

  /** A footprint starts at the left margin exactly when it is the first one
      or the packer wrapped to a new, lower row for it. */
  lemma AtMarginIffNewRow(sh: Shelf, sizes: seq<Size>, k: nat)
    requires 0 < k < |sizes|
    requires NonNegativeWidths(sizes)
    ensures Pack(sh, sizes)[k].x == sh.origin <==> Wraps(sh, CursorAt(sh, sizes, k), sizes[k])
    ensures Pack(sh, sizes)[k].x == sh.origin <==> Pack(sh, sizes)[k].y > Pack(sh, sizes)[k - 1].y
  {
    CursorRightOfMargin(sh, sizes, k);
    RowHeightNonNegative(sh, sizes, k);
  }

  /** The first footprint always starts at the left margin, on the first
      row, or on the second when it is wider than the first row. */
  lemma FirstAtMargin(sh: Shelf, sizes: seq<Size>)
    requires 0 < |sizes|
    ensures Pack(sh, sizes)[0].x == sh.origin
    ensures Pack(sh, sizes)[0].y == if Wraps(sh, Start(sh), sizes[0]) then sh.origin + 1.0 else sh.origin
  {
  }
}
