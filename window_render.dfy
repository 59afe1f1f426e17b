/**
 * The arithmetic of the legacy window renderer (src/egl_window.c):
 * `set_region`'s conversion of a top-left window rectangle into the
 * bottom-left scissor box, the scroll clamp, the line-number column width,
 * and the choice of which buffer lines are drawn.
 */
module WindowRender {

  // ---------------------------------------------------------------------
  // set_region
  // ---------------------------------------------------------------------

  /** An axis-aligned box: left, bottom-or-top edge, width and height. */
  datatype Box = Box(x: int, y: int, w: int, h: int)

  /** `set_region`: the region (x, y, w, h), measured from the frame's top-left
      corner in logical pixels, as the scissor box glScissor wants: measured
      from the bottom-left corner, in buffer pixels (`scale` per logical
      pixel). */
  function ScissorBox(frameHeight: int, scale: int, region: Box): (b: Box)
    requires scale > 0
  {
    Box(region.x * scale, (frameHeight - region.y - region.h) * scale, region.w * scale, region.h * scale)
  }

  /** The inverse conversion: a scissor box back to the top-left region. */
  function RegionOf(frameHeight: int, scale: int, b: Box): Box
    requires scale > 0
  {
    Box(b.x / scale, frameHeight - b.y / scale - b.h / scale, b.w / scale, b.h / scale)
  }

  lemma MulDivCancel(a: int, s: int)
    requires s > 0
    ensures (a * s) / s == a
  {
    var q, r := (a * s) / s, (a * s) % s;
    assert a * s == q * s + r && 0 <= r < s;
    assert (a - q) * s == r;
    if a - q >= 1 {
      assert false;
    } else if a - q <= -1 {
      assert false;
    }
  }

  /** The y-flip loses nothing: converting back recovers the region. */
  lemma ScissorRoundTrip(frameHeight: int, scale: int, region: Box)
    requires scale > 0
    ensures RegionOf(frameHeight, scale, ScissorBox(frameHeight, scale, region)) == region
  {
    MulDivCancel(region.x, scale);
    MulDivCancel(frameHeight - region.y - region.h, scale);
    MulDivCancel(region.w, scale);
    MulDivCancel(region.h, scale);
  }

  /** The flip maps the region's top edge to the box's top edge, and a region
      inside the frame to a box inside the frame's buffer. */
  lemma ScissorInsideFrame(frameWidth: int, frameHeight: int, scale: int, region: Box)
    requires scale > 0
    requires 0 <= region.x && 0 <= region.w && region.x + region.w <= frameWidth
    requires 0 <= region.y && 0 <= region.h && region.y + region.h <= frameHeight
    ensures var b := ScissorBox(frameHeight, scale, region);
            && b.y + b.h == (frameHeight - region.y) * scale
            && 0 <= b.x && b.x + b.w <= frameWidth * scale
            && 0 <= b.y && b.y + b.h <= frameHeight * scale
  {
    var b := ScissorBox(frameHeight, scale, region);
    assert b.x + b.w == (region.x + region.w) * scale;
    assert b.y + b.h == (frameHeight - region.y) * scale;
    assert (frameWidth - (region.x + region.w)) * scale >= 0;
    assert (frameHeight - region.y - region.h) * scale >= 0;
    assert region.y * scale >= 0;
  }

  // ---------------------------------------------------------------------
  // Scroll clamp
  // ---------------------------------------------------------------------

  /** The clamp `window_render` applies to each scroll position: content may
      be scrolled up (negative) but never pulled below its origin. */
  function ClampScroll(p: real): (r: real)
    ensures r <= 0.0
    ensures p <= 0.0 ==> r == p
    ensures p > 0.0 ==> r == 0.0
  {
    if p > 0.0 then 0.0 else p
  }

  // ---------------------------------------------------------------------
  // Line-number column
  // ---------------------------------------------------------------------

  function Pow10(d: nat): (p: nat)
    ensures p >= 1
  {
    if d == 0 then 1 else 10 * Pow10(d - 1)
  }

  /** `ncols = ceil(log10(nlines + 1))`: the number of decimal digits of
      `nlines`, 0 for no line (log10 taken as exact at powers of ten). */
  function DigitCount(n: nat): nat {
    if n == 0 then 0 else 1 + DigitCount(n / 10)
  }

  /** DigitCount is ceil(log10(n + 1)): the unique d with
      10^(d-1) < n + 1 <= 10^d (d = 0 exactly when n = 0). */
  lemma {:induction false} DigitCountIsCeilLog10(n: nat)
    ensures n + 1 <= Pow10(DigitCount(n))
    ensures DigitCount(n) > 0 ==> Pow10(DigitCount(n) - 1) < n + 1
    ensures DigitCount(n) == 0 <==> n == 0
  {
    if n > 0 {
      DigitCountIsCeilLog10(n / 10);
    }
  }

  lemma {:induction false} DigitCountMonotone(m: nat, n: nat)
    requires m <= n
    ensures DigitCount(m) <= DigitCount(n)
  {
    if m > 0 {
      DigitCountMonotone(m / 10, n / 10);
    }
  }

  function DecimalDigit(d: nat): char
    requires d < 10
  {
    ('0' as nat + d) as char
  }

  /** Decimal spelling of k, as `%d` prints it. */
  function Decimal(k: nat): (s: seq<char>)
    ensures |s| == if k == 0 then 1 else DigitCount(k)
  {
    if k < 10 then [DecimalDigit(k)] else Decimal(k / 10) + [DecimalDigit(k % 10)]
  }

  /** `%*d`: the spelling right-aligned in a field of at least `width`. */
  function PadLeft(width: nat, s: seq<char>): (t: seq<char>)
    ensures |t| == if |s| < width then width else |s|
    ensures t[|t| - |s|..] == s
  {
    if |s| < width then seq(width - |s|, _ => ' ') + s else s
  }

  /** The label drawn for line number k in a column of `ncols` digits. */
  function LineLabel(ncols: nat, k: nat): seq<char> {
    PadLeft(ncols, Decimal(k))
  }

  /** `linum_width`: `ncols` digit cells plus one empty cell on each side,
      each as wide as the font's '8'. */
  function LinumWidth(colWidth: int, nlines: nat): int {
    colWidth * (DigitCount(nlines) + 2)
  }

  /** Every label of lines 1..nlines is exactly `ncols` cells wide, so the
      column holds it with one empty cell on each side. */
  lemma LabelsFillColumn(colWidth: int, nlines: nat, k: nat)
    requires 1 <= k <= nlines
    ensures |LineLabel(DigitCount(nlines), k)| == DigitCount(nlines)
    ensures LinumWidth(colWidth, nlines) == colWidth * (|LineLabel(DigitCount(nlines), k)| + 2)
  {
    DigitCountMonotone(k, nlines);
  }

  // ---------------------------------------------------------------------
  // Visible lines
  // ---------------------------------------------------------------------

  /** Line i ends above the visible band (`i * va < -position - va`). */
  predicate Above(va: int, position: real, i: nat) {
    (i * va) as real < -position - va as real
  }

  /** Line i starts below the visible band (`i * va > -position + (height + va)`). */
  predicate Below(va: int, position: real, height: int, i: nat) {
    (i * va) as real > -position + (height + va) as real
  }

  /** The first line at or after i that ends the loop (not above the band,
      which is tested first, and below it), or nlines. */
  function FirstBelow(nlines: nat, va: int, position: real, height: int, i: nat): (stop: nat)
    requires i <= nlines
    ensures i <= stop <= nlines
    decreases nlines - i
  {
    if i == nlines then nlines
    else if !Above(va, position, i) && Below(va, position, height, i) then i
    else FirstBelow(nlines, va, position, height, i + 1)
  }

  /** Lines lo..hi-1 that are not above the band, in order. */
  function NotAbove(va: int, position: real, lo: nat, hi: nat): (s: seq<nat>)
    requires lo <= hi
    decreases hi - lo
  {
    if lo == hi then []
    else if Above(va, position, hi - 1) then NotAbove(va, position, lo, hi - 1)
    else NotAbove(va, position, lo, hi - 1) + [hi - 1]
  }

  /** The buffer-text loop of `window_render`: lines above the band are
      skipped, the first line below it ends the loop, the rest are drawn
      (each at y = va * (i + 1)) in order. */
  method VisibleLines(nlines: nat, va: int, position: real, height: int) returns (drawn: seq<nat>)
    ensures drawn == NotAbove(va, position, 0, FirstBelow(nlines, va, position, height, 0))
  {
    drawn := [];
    var i := 0;
    while i < nlines
      invariant 0 <= i <= nlines
      invariant FirstBelow(nlines, va, position, height, 0) == FirstBelow(nlines, va, position, height, i)
      invariant drawn == NotAbove(va, position, 0, i)
    {
      var vscrollLines := i * va;
      if (vscrollLines as real) < -position - va as real {
        i := i + 1;
        continue;
      }
      if (vscrollLines as real) > -position + (height + va) as real {
        break;
      }
      drawn := drawn + [i];
      i := i + 1;
    }
  }

  lemma {:induction false} NotAboveMembers(va: int, position: real, lo: nat, hi: nat, i: nat)
    requires lo <= hi
    ensures i in NotAbove(va, position, lo, hi) <==> lo <= i < hi && !Above(va, position, i)
    decreases hi - lo
  {
    if lo < hi {
      NotAboveMembers(va, position, lo, hi - 1, i);
    }
  }

  lemma {:induction false} NotAboveIncreasing(va: int, position: real, lo: nat, hi: nat)
    requires lo <= hi
    ensures forall a, b :: 0 <= a < b < |NotAbove(va, position, lo, hi)| ==>
              NotAbove(va, position, lo, hi)[a] < NotAbove(va, position, lo, hi)[b]
    decreases hi - lo
  {
    if lo < hi {
      NotAboveIncreasing(va, position, lo, hi - 1);
      var s := NotAbove(va, position, lo, hi - 1);
      forall k | 0 <= k < |s|
        ensures s[k] < hi - 1
      {
        NotAboveMembers(va, position, lo, hi - 1, s[k]);
      }
    }
  }

  /** With a non-negative line height, line tops increase with i, so once a
      line is below the band every later one is. */
  lemma BelowPersists(va: int, position: real, height: int, i: nat, j: nat)
    requires va >= 0 && i <= j
    requires Below(va, position, height, i)
    ensures Below(va, position, height, j)
  {
    assert i * va <= j * va by {
      assert (j - i) * va >= 0;
    }
  }

  lemma {:induction false} FirstBelowIsFirst(nlines: nat, va: int, position: real, height: int, i: nat, j: nat)
    requires va >= 0 && height >= 0 && i <= j < nlines
    ensures j < FirstBelow(nlines, va, position, height, i) <==>
            forall m :: i <= m <= j ==> !Below(va, position, height, m)
    decreases nlines - i
  {
    if Below(va, position, height, i) {
    } else if i < j {
      FirstBelowIsFirst(nlines, va, position, height, i + 1, j);
    }
  }

  /** With a non-negative line height and window height, the lines drawn are
      exactly the lines inside the visible band, in increasing order: the
      early exit at the first line below the band loses none of them. */
  lemma VisibleLinesAreBand(nlines: nat, va: int, position: real, height: int, i: nat)
    requires va >= 0 && height >= 0
    ensures var drawn := NotAbove(va, position, 0, FirstBelow(nlines, va, position, height, 0));
            && (i in drawn <==>
                i < nlines && !Above(va, position, i) && !Below(va, position, height, i))
            && forall a, b :: 0 <= a < b < |drawn| ==> drawn[a] < drawn[b]
  {
    var stop := FirstBelow(nlines, va, position, height, 0);
    NotAboveMembers(va, position, 0, stop, i);
    NotAboveIncreasing(va, position, 0, stop);
    if i < nlines {
      FirstBelowIsFirst(nlines, va, position, height, 0, i);
      if Below(va, position, height, i) {
        assert !(i < stop);
      } else if !(i < stop) {
        var m :| 0 <= m <= i && Below(va, position, height, m);
        BelowPersists(va, position, height, m, i);
      }
    }
  }
}
