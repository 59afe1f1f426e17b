/**
 * The per-window scroll state of src/wlterm.c: for each axis a sliding
 * window of the most recent scroll samples (distance and timestamp), fed by
 * axis events, applied by pointer frames and cleared by axis-stop events;
 * plus the clamp `window_render` (src/egl_window.c) applies to the position.
 */
module Scroll {
  import WindowRender

  /** The sample window after one new sample: every entry moves one slot
      towards the front, the oldest is dropped, the new one is last. */
  function Slide<T>(row: seq<T>, x: T): (r: seq<T>)
    requires |row| >= 1
    ensures |r| == |row| && r[|r| - 1] == x
    ensures forall i :: 1 <= i < |row| ==> r[i - 1] == row[i]
  {
    row[1..] + [x]
  }

  /** A window whose entries are the old ones moved one slot forward, with
      x last, is the slide of the old window by x. */
  lemma SlideFrom<T>(row: seq<T>, after: seq<T>, x: T)
    requires |row| >= 1 && |after| == |row| && after[|row| - 1] == x
    requires forall j :: 0 <= j < |row| - 1 ==> after[j] == row[j + 1]
    ensures after == Slide(row, x)
  {
  }

  /** The window after a run of samples, oldest first. */
  function SlideAll<T>(row: seq<T>, xs: seq<T>): seq<T>
    requires |row| >= 1
    decreases |xs|
  {
    if |xs| == 0 then row else Slide(SlideAll(row, xs[..|xs| - 1]), xs[|xs| - 1])
  }

  lemma {:induction false} SlideAllLength<T>(row: seq<T>, xs: seq<T>)
    requires |row| >= 1
    ensures |SlideAll(row, xs)| == |row|
    decreases |xs|
  {
    if |xs| > 0 {
      SlideAllLength(row, xs[..|xs| - 1]);
    }
  }

  /** The window always holds the latest |row| values of the old contents
      followed by the samples: once at least |row| samples have arrived, it
      holds exactly the newest |row| samples in arrival order. */
  lemma {:induction false} SlideAllKeepsNewest<T>(row: seq<T>, xs: seq<T>)
    requires |row| >= 1
    ensures SlideAll(row, xs) == (row + xs)[|xs|..]
    ensures |xs| >= |row| ==> SlideAll(row, xs) == xs[|xs| - |row|..]
    decreases |xs|
  {
    if |xs| > 0 {
      var init := xs[..|xs| - 1];
      SlideAllKeepsNewest(row, init);
      assert row + xs == (row + init) + [xs[|xs| - 1]];
      assert (row + xs)[|xs|..] == (row + init)[|init|..][1..] + [xs[|xs| - 1]];
    }
  }

  function Zeros<T>(n: nat, zero: T): (z: seq<T>)
    ensures |z| == n && forall i :: 0 <= i < n ==> z[i] == zero
  {
    seq(n, _ => zero)
  }

  /** C's conversion of a double to `int`: the fraction is dropped, towards
      zero. */
  function Trunc(x: real): (n: int)
    ensures x >= 0.0 ==> 0 <= n && n as real <= x < n as real + 1.0
    ensures x < 0.0 ==> n <= 0 && n as real - 1.0 < x <= n as real
  {
    if x >= 0.0 then x.Floor else -((-x).Floor)
  }

  /** `glm_sign` on an `int`: -1, 0 or 1. */
  function SignOf(v: int): (s: int)
    ensures s == -1 || s == 0 || s == 1
    ensures s * v >= 0 && (s == 0 <==> v == 0)
  {
    if v > 0 then 1 else if v < 0 then -1 else 0
  }

  /** A distance as seen in scroll direction `sign` (`sign * x` in C). */
  function Scaled(sign: int, x: real): real {
    sign as real * x
  }

  /** The `int max` of `pointer_handle_axis_stop` after n samples: a sample
      further in the scroll direction than the current peak replaces it,
      truncated to an integer. */
  function PeakAfter(row: seq<real>, sign: int, n: nat): int
    requires n <= |row|
  {
    if n == 0 then 0
    else
      var peak := PeakAfter(row, sign, n - 1);
      if Scaled(sign, row[n - 1]) > Scaled(sign, peak as real) then Trunc(row[n - 1]) else peak
  }

  /** The `int sum` after n samples: each step subtracts the sample's excess
      over the peak and truncates. */
  function CompensationAfter(row: seq<real>, peak: int, n: nat): int
    requires n <= |row|
  {
    if n == 0 then 0
    else Trunc(CompensationAfter(row, peak, n - 1) as real - (row[n - 1] - peak as real))
  }

  /** The scroll direction the last sample gives. */
  function Direction(row: seq<real>): int
    requires |row| >= 1
  {
    SignOf(Trunc(row[|row| - 1]))
  }

  /** The position correction `pointer_handle_axis_stop` applies. */
  function Compensation(row: seq<real>): int
    requires |row| >= 1
  {
    CompensationAfter(row, PeakAfter(row, Direction(row), |row|), |row|)
  }

  /** Reference definition of the peak: the largest whole number of pixels
      any of the first n samples reaches in direction `sign`, and 0 when none
      reaches one. */
  function Reach(row: seq<real>, sign: int, n: nat): (m: nat)
    requires n <= |row|
  {
    if n == 0 then 0
    else
      var prev := Reach(row, sign, n - 1);
      var here := Scaled(sign, row[n - 1]).Floor;
      if here > prev then here else prev
  }

  /** The peak loop computes the signed reach: `max` is the furthest whole
      sample in the direction of scrolling, 0 when the direction is 0. */
  lemma {:induction false} PeakIsReach(row: seq<real>, sign: int, n: nat)
    requires n <= |row| && (sign == -1 || sign == 0 || sign == 1)
    ensures PeakAfter(row, sign, n) == sign * Reach(row, sign, n)
  {
    if n > 0 {
      PeakIsReach(row, sign, n - 1);
      if sign == 1 {
        PeakStepForward(row, sign, n);
      } else if sign == -1 {
        PeakStepBackward(row, sign, n);
      } else {
        PeakStepStill(row, sign, n);
      }
    }
  }

  lemma PeakStepForward(row: seq<real>, sign: int, n: nat)
    requires 1 <= n <= |row| && sign == 1
    requires PeakAfter(row, sign, n - 1) == sign * Reach(row, sign, n - 1)
    ensures PeakAfter(row, sign, n) == sign * Reach(row, sign, n)
  {
    var x, m := row[n - 1], Reach(row, sign, n - 1);
    assert PeakAfter(row, sign, n - 1) == m;
    assert Scaled(sign, x) == x && Scaled(sign, m as real) == m as real;
  }

  lemma PeakStepBackward(row: seq<real>, sign: int, n: nat)
    requires 1 <= n <= |row| && sign == -1
    requires PeakAfter(row, sign, n - 1) == sign * Reach(row, sign, n - 1)
    ensures PeakAfter(row, sign, n) == sign * Reach(row, sign, n)
  {
    var x: real, m: int := row[n - 1], Reach(row, sign, n - 1);
    assert PeakAfter(row, sign, n - 1) == -m;
    assert Scaled(sign, x) == -x && Scaled(sign, (-m) as real) == m as real;
  }

  lemma PeakStepStill(row: seq<real>, sign: int, n: nat)
    requires 1 <= n <= |row| && sign == 0
    requires PeakAfter(row, sign, n - 1) == sign * Reach(row, sign, n - 1)
    ensures PeakAfter(row, sign, n) == sign * Reach(row, sign, n)
  {
    assert PeakAfter(row, sign, n - 1) == 0;
    assert Scaled(sign, row[n - 1]) == 0.0 && Scaled(sign, 0.0) == 0.0;
  }

  /** The running sum of the exact excesses `peak - row[i]`. */
  function ExactSum(row: seq<real>, peak: int, n: nat): real
    requires n <= |row|
  {
    if n == 0 then 0.0 else ExactSum(row, peak, n - 1) + (peak as real - row[n - 1])
  }

  /** Each truncation loses less than one pixel, so after n samples the
      compensation is within n pixels of the exact sum of excesses. */
  lemma {:induction false} CompensationNearExact(row: seq<real>, peak: int, n: nat)
    requires n <= |row|
    ensures -(n as real) <= CompensationAfter(row, peak, n) as real - ExactSum(row, peak, n) <= n as real
  {
    if n > 0 {
      CompensationNearExact(row, peak, n - 1);
      var y := CompensationAfter(row, peak, n - 1) as real - (row[n - 1] - peak as real);
      assert -1.0 < Trunc(y) as real - y < 1.0;
    }
  }

  /** Over a whole window: the correction is the sum of the excesses over
      the signed reach, to within one pixel per sample. */
  lemma CompensationBound(row: seq<real>)
    requires |row| >= 1
    ensures var peak := Direction(row) * Reach(row, Direction(row), |row|);
            -(|row| as real) <= Compensation(row) as real - ExactSum(row, peak, |row|) <= |row| as real
  {
    PeakIsReach(row, Direction(row), |row|);
    CompensationNearExact(row, PeakAfter(row, Direction(row), |row|), |row|);
  }

  /** A C `double` as far as the velocity estimate needs one: a finite
      value, an infinity, or NaN (signed zeros are not told apart). */
  datatype Double = Finite(value: real) | PlusInf | MinusInf | NaN

  /** IEEE division of a finite distance by an unsigned time delta: a zero
      delta gives an infinity of the distance's sign, or NaN for 0 / 0. */
  function Quotient(y: real, d: nat): (q: Double)
    ensures d > 0 ==> q == Finite(y / d as real)
    ensures d == 0 ==> (q == NaN <==> y == 0.0) && (q == PlusInf <==> y > 0.0) && (q == MinusInf <==> y < 0.0)
  {
    if d > 0 then Finite(y / d as real)
    else if y > 0.0 then PlusInf
    else if y < 0.0 then MinusInf
    else NaN
  }

  /** `sign * v` for the direction `sign` in {-1, 0, 1}: 0 times an
      infinity is NaN. */
  function Times(sign: int, v: Double): Double {
    match v
    case Finite(r) => Finite(Scaled(sign, r))
    case PlusInf => if sign > 0 then PlusInf else if sign < 0 then MinusInf else NaN
    case MinusInf => if sign > 0 then MinusInf else if sign < 0 then PlusInf else NaN
    case NaN => NaN
  }

  /** IEEE `a > b`: false whenever either side is NaN. */
  predicate Greater(a: Double, b: Double) {
    match (a, b)
    case (NaN, _) => false
    case (_, NaN) => false
    case (PlusInf, _) => b != PlusInf
    case (MinusInf, _) => false
    case (Finite(x), Finite(y)) => x > y
    case (Finite(_), MinusInf) => true
    case (Finite(_), PlusInf) => false
  }

  /** `t1 - t0` on `uint32_t` timestamps: the difference wraps modulo 2^32. */
  function TimeDelta(t0: int, t1: int): (d: nat)
    ensures d < 0x1_0000_0000
    ensures 0 <= t0 <= t1 < 0x1_0000_0000 ==> d == t1 - t0
  {
    (t1 - t0) % 0x1_0000_0000
  }

  /** `velocities[i]`: sample i's distance over the time to the next sample. */
  function VelocityAt(pos: seq<real>, times: seq<int>, i: nat): Double
    requires i + 1 < |pos| && |times| == |pos|
  {
    Quotient(pos[i], TimeDelta(times[i], times[i + 1]))
  }

  /** `max_vel` after n of the velocities: one further in the scroll
      direction than the current value replaces it. */
  function FastestAfter(pos: seq<real>, times: seq<int>, sign: int, n: nat): Double
    requires n < |pos| && |times| == |pos|
  {
    if n == 0 then Finite(0.0)
    else
      var fastest := FastestAfter(pos, times, sign, n - 1);
      var v := VelocityAt(pos, times, n - 1);
      if Greater(Times(sign, v), Times(sign, fastest)) then v else fastest
  }

  /** The kinetic speed `pointer_handle_axis_stop` estimates from an axis's
      distance and time samples. */
  function Velocity(pos: seq<real>, times: seq<int>): Double
    requires |pos| >= 1 && |times| == |pos|
  {
    FastestAfter(pos, times, Direction(pos), |pos| - 1)
  }

  /** NaN never wins a comparison, so the estimate is never NaN. */
  lemma {:induction false} FastestNeverNaN(pos: seq<real>, times: seq<int>, sign: int, n: nat)
    requires n < |pos| && |times| == |pos|
    ensures FastestAfter(pos, times, sign, n) != NaN
  {
    if n > 0 {
      FastestNeverNaN(pos, times, sign, n - 1);
    }
  }

  /** Every time delta among the first n + 1 samples is non-zero. */
  predicate Spaced(times: seq<int>, n: nat)
    requires n < |times|
  {
    forall i :: 0 <= i < n ==> TimeDelta(times[i], times[i + 1]) > 0
  }

  /** Reference definition of the estimate when every delta is non-zero: the
      largest speed of the first n velocities in direction `sign`, or 0. */
  function FastestReach(pos: seq<real>, times: seq<int>, sign: int, n: nat): (m: real)
    requires n < |pos| && |times| == |pos| && Spaced(times, n)
    ensures m >= 0.0
  {
    if n == 0 then 0.0
    else
      var prev := FastestReach(pos, times, sign, n - 1);
      var here := Scaled(sign, pos[n - 1] / TimeDelta(times[n - 1], times[n]) as real);
      if here > prev then here else prev
  }

  /** With non-zero time deltas the estimate is finite: the signed speed of
      the fastest sample in the scroll direction, 0 when none moves that
      way or the direction is 0. */
  lemma {:induction false} FastestIsReach(pos: seq<real>, times: seq<int>, sign: int, n: nat)
    requires n < |pos| && |times| == |pos| && Spaced(times, n)
    requires sign == -1 || sign == 0 || sign == 1
    ensures FastestAfter(pos, times, sign, n) == Finite(Scaled(sign, FastestReach(pos, times, sign, n)))
  {
    if n > 0 {
      assert Spaced(times, n - 1);
      FastestIsReach(pos, times, sign, n - 1);
      if sign == 1 {
        FastestStepForward(pos, times, sign, n);
      } else if sign == -1 {
        FastestStepBackward(pos, times, sign, n);
      } else {
        FastestStepStill(pos, times, sign, n);
      }
    }
  }

  /** The estimate over a whole window: never NaN, and with non-zero time
      deltas the signed speed of the fastest sample in the scroll direction. */
  lemma VelocityEstimate(pos: seq<real>, times: seq<int>)
    requires |pos| >= 1 && |times| == |pos|
    ensures Velocity(pos, times) != NaN
    ensures Spaced(times, |pos| - 1) ==>
              Velocity(pos, times) == Finite(Scaled(Direction(pos), FastestReach(pos, times, Direction(pos), |pos| - 1)))
  {
    FastestNeverNaN(pos, times, Direction(pos), |pos| - 1);
    if Spaced(times, |pos| - 1) {
      FastestIsReach(pos, times, Direction(pos), |pos| - 1);
    }
  }

  lemma FastestStepForward(pos: seq<real>, times: seq<int>, sign: int, n: nat)
    requires 1 <= n < |pos| && |times| == |pos| && sign == 1
    requires Spaced(times, n)
    requires FastestAfter(pos, times, sign, n - 1) == Finite(Scaled(sign, FastestReach(pos, times, sign, n - 1)))
    ensures FastestAfter(pos, times, sign, n) == Finite(Scaled(sign, FastestReach(pos, times, sign, n)))
  {
    var v := pos[n - 1] / TimeDelta(times[n - 1], times[n]) as real;
    var m := FastestReach(pos, times, sign, n - 1);
    assert Scaled(sign, v) == v && Scaled(sign, m) == m;
    assert Scaled(sign, Scaled(sign, v)) == v;
  }

  lemma FastestStepBackward(pos: seq<real>, times: seq<int>, sign: int, n: nat)
    requires 1 <= n < |pos| && |times| == |pos| && sign == -1
    requires Spaced(times, n)
    requires FastestAfter(pos, times, sign, n - 1) == Finite(Scaled(sign, FastestReach(pos, times, sign, n - 1)))
    ensures FastestAfter(pos, times, sign, n) == Finite(Scaled(sign, FastestReach(pos, times, sign, n)))
  {
    var v := pos[n - 1] / TimeDelta(times[n - 1], times[n]) as real;
    var m := FastestReach(pos, times, sign, n - 1);
    assert Scaled(sign, v) == -v && Scaled(sign, Scaled(sign, m)) == m;
    assert Scaled(sign, -v) == v;
  }

  lemma FastestStepStill(pos: seq<real>, times: seq<int>, sign: int, n: nat)
    requires 1 <= n < |pos| && |times| == |pos| && sign == 0
    requires Spaced(times, n)
    requires FastestAfter(pos, times, sign, n - 1) == Finite(Scaled(sign, FastestReach(pos, times, sign, n - 1)))
    ensures FastestAfter(pos, times, sign, n) == Finite(Scaled(sign, FastestReach(pos, times, sign, n)))
  {
    var v := pos[n - 1] / TimeDelta(times[n - 1], times[n]) as real;
    assert Scaled(sign, v) == 0.0 && Scaled(sign, 0.0) == 0.0;
    assert Scaled(sign, FastestReach(pos, times, sign, n)) == 0.0;
  }

  /** A window's scroll state: position per axis, kinetic speed and its start
      time per axis, and the per-axis sample windows of SCROLL_WINDOW_SIZE
      distances and timestamps. */
  class Window {
    const windowSize: nat
    var width: int
    var height: int
    const position: array<real>
    const kineticScroll: array<Double>
    const kineticT0: array<int>
    const scrollPos: array2<real>
    const scrollTime: array2<int>

    ghost predicate Valid()
      reads this
    {
      && windowSize >= 1
      && position.Length == 2 && kineticScroll.Length == 2 && kineticT0.Length == 2
      && scrollPos.Length0 == 2 && scrollPos.Length1 == windowSize
      && scrollTime.Length0 == 2 && scrollTime.Length1 == windowSize
    }

    /** The distance samples of one axis, oldest first. */
    ghost function PosRow(axis: nat): (row: seq<real>)
      reads this, scrollPos
      requires Valid() && axis < 2
      ensures |row| == windowSize && forall j :: 0 <= j < windowSize ==> row[j] == scrollPos[axis, j]
    {
      seq(windowSize, j requires 0 <= j < windowSize reads scrollPos => scrollPos[axis, j])
    }

    /** The timestamps of one axis, oldest first. */
    ghost function TimeRow(axis: nat): (row: seq<int>)
      reads this, scrollTime
      requires Valid() && axis < 2
      ensures |row| == windowSize && forall j :: 0 <= j < windowSize ==> row[j] == scrollTime[axis, j]
    {
      seq(windowSize, j requires 0 <= j < windowSize reads scrollTime => scrollTime[axis, j])
    }

    /** The root window `frame_create` sets up: origin (0, 0), the given size,
        scrolled to the origin, no kinetic speed, empty sample windows. */
    constructor (windowSize: nat, width: int, height: int)
      requires windowSize >= 1
      ensures Valid() && this.windowSize == windowSize && this.width == width && this.height == height
      ensures fresh(position) && fresh(kineticScroll) && fresh(kineticT0) && fresh(scrollPos) && fresh(scrollTime)
      ensures position[..] == [0.0, 0.0] && kineticScroll[..] == [Finite(0.0), Finite(0.0)]
      ensures forall axis :: 0 <= axis < 2 ==>
                PosRow(axis) == Zeros(windowSize, 0.0) && TimeRow(axis) == Zeros(windowSize, 0)
    {
      this.windowSize := windowSize;
      this.width := width;
      this.height := height;
      position := new real[2](_ => 0.0);
      kineticScroll := new Double[2](_ => Finite(0.0));
      kineticT0 := new int[2](_ => 0);
      scrollPos := new real[2, windowSize]((_, _) => 0.0);
      scrollTime := new int[2, windowSize]((_, _) => 0);
    }

    /** The shift loop of `pointer_handle_axis`: every sample of the axis
        moves one slot towards the front; the last slot keeps its value. */
    method ShiftSamples(axis: nat)
      requires Valid() && axis < 2
      modifies scrollPos, scrollTime
      ensures forall j :: 0 <= j < windowSize - 1 ==>
                scrollPos[axis, j] == old(scrollPos[axis, j + 1]) && scrollTime[axis, j] == old(scrollTime[axis, j + 1])
      ensures forall b, j :: 0 <= b < 2 && b != axis && 0 <= j < windowSize ==>
                scrollPos[b, j] == old(scrollPos[b, j]) && scrollTime[b, j] == old(scrollTime[b, j])
    {
      var i := 1;
      while i < windowSize
        invariant 1 <= i <= windowSize
        invariant forall j :: 0 <= j < i - 1 ==>
                    scrollPos[axis, j] == old(scrollPos[axis, j + 1]) && scrollTime[axis, j] == old(scrollTime[axis, j + 1])
        invariant forall j :: i - 1 <= j < windowSize ==>
                    scrollPos[axis, j] == old(scrollPos[axis, j]) && scrollTime[axis, j] == old(scrollTime[axis, j])
        invariant forall b, j :: 0 <= b < 2 && b != axis && 0 <= j < windowSize ==>
                    scrollPos[b, j] == old(scrollPos[b, j]) && scrollTime[b, j] == old(scrollTime[b, j])
      {
        scrollPos[axis, i - 1] := scrollPos[axis, i];
        scrollTime[axis, i - 1] := scrollTime[axis, i];
        i := i + 1;
      }
    }

    /** `pointer_handle_axis`: the axis's kinetic speed stops, and the
        sample (value / 250, time) slides into that axis's windows; the other
        axis is untouched. */
    method HandleAxis(time: int, axis: nat, value: int)
      requires Valid() && axis < 2
      modifies kineticScroll, scrollPos, scrollTime
      ensures Valid()
      ensures PosRow(axis) == Slide(old(PosRow(axis)), value as real / 250.0)
      ensures TimeRow(axis) == Slide(old(TimeRow(axis)), time)
      ensures PosRow(1 - axis) == old(PosRow(1 - axis)) && TimeRow(1 - axis) == old(TimeRow(1 - axis))
      ensures kineticScroll[axis] == Finite(0.0) && kineticScroll[1 - axis] == old(kineticScroll[1 - axis])
    {
      kineticScroll[axis] := Finite(0.0);
      ghost var pos0, time0 := PosRow(axis), TimeRow(axis);
      ghost var otherPos, otherTime := PosRow(1 - axis), TimeRow(1 - axis);
      ShiftSamples(axis);
      scrollPos[axis, windowSize - 1] := value as real / 250.0;
      scrollTime[axis, windowSize - 1] := time;
      SlideFrom(pos0, PosRow(axis), value as real / 250.0);
      SlideFrom(time0, TimeRow(axis), time);
      assert PosRow(1 - axis) == otherPos;
      assert TimeRow(1 - axis) == otherTime;
    }

    /** `pointer_handle_frame`: each axis's position moves by its newest
        distance sample; the sample windows are not changed. */
    method HandleFrame()
      requires Valid()
      modifies position
      ensures forall axis :: 0 <= axis < 2 ==>
                position[axis] == old(position[axis]) + scrollPos[axis, windowSize - 1]
    {
      for axis := 0 to 2
        invariant forall a :: 0 <= a < axis ==> position[a] == old(position[a]) + scrollPos[a, windowSize - 1]
        invariant forall a :: axis <= a < 2 ==> position[a] == old(position[a])
      {
        var delta := scrollPos[axis, windowSize - 1];
        position[axis] := position[axis] + delta;
      }
    }

    /** The direction loop pair of `pointer_handle_axis_stop` over the
        distance samples of an axis: the peak in the scroll direction, then
        the truncating sum of the samples' excesses over it. */
    method SampleCompensation(axis: nat, sign: int) returns (sum: int)
      requires Valid() && axis < 2 && sign == Direction(PosRow(axis))
      ensures sum == Compensation(PosRow(axis))
    {
      ghost var row := PosRow(axis);
      var peak := 0;
      for i := 0 to windowSize
        invariant peak == PeakAfter(row, sign, i)
      {
        var x := scrollPos[axis, i];
        assert x == row[i];
        if Scaled(sign, x) > Scaled(sign, peak as real) {
          peak := Trunc(x);
        }
      }
      sum := 0;
      for i := 0 to windowSize
        invariant sum == CompensationAfter(row, peak, i)
      {
        var x := scrollPos[axis, i];
        assert x == row[i];
        sum := Trunc(sum as real - (x - peak as real));
      }
    }

    /** The velocity loop pair of `pointer_handle_axis_stop`: each sample's
        distance over the wrapped time to the next sample, then the fastest
        of these in the scroll direction. */
    method SampleVelocity(axis: nat, sign: int) returns (fastest: Double)
      requires Valid() && axis < 2 && sign == Direction(PosRow(axis))
      ensures fastest == Velocity(PosRow(axis), TimeRow(axis))
    {
      ghost var pos, times := PosRow(axis), TimeRow(axis);
      var velocities := new Double[windowSize - 1];
      for i := 0 to windowSize - 1
        invariant forall j :: 0 <= j < i ==> velocities[j] == VelocityAt(pos, times, j)
      {
        var deltaT := TimeDelta(scrollTime[axis, i], scrollTime[axis, i + 1]);
        assert scrollTime[axis, i] == times[i] && scrollTime[axis, i + 1] == times[i + 1];
        assert scrollPos[axis, i] == pos[i];
        velocities[i] := Quotient(scrollPos[axis, i], deltaT);
      }
      fastest := Finite(0.0);
      for i := 0 to windowSize - 1
        invariant fastest == FastestAfter(pos, times, sign, i)
      {
        if Greater(Times(sign, velocities[i]), Times(sign, fastest)) {
          fastest := velocities[i];
        }
      }
    }

    /** `pointer_handle_axis_stop`: the position moves by the compensation
        of the axis's samples, the kinetic speed becomes the estimated
        velocity, the kinetic start time becomes `time`, and both sample
        windows of the axis are cleared. */
    method HandleAxisStop(time: int, axis: nat)
      requires Valid() && axis < 2
      modifies position, kineticScroll, kineticT0, scrollPos, scrollTime
      ensures Valid()
      ensures position[axis] == old(position[axis]) + Compensation(old(PosRow(axis))) as real
      ensures position[1 - axis] == old(position[1 - axis])
      ensures kineticScroll[axis] == Velocity(old(PosRow(axis)), old(TimeRow(axis)))
      ensures kineticScroll[1 - axis] == old(kineticScroll[1 - axis])
      ensures kineticT0[axis] == time && kineticT0[1 - axis] == old(kineticT0[1 - axis])
      ensures PosRow(axis) == Zeros(windowSize, 0.0) && TimeRow(axis) == Zeros(windowSize, 0)
      ensures PosRow(1 - axis) == old(PosRow(1 - axis)) && TimeRow(1 - axis) == old(TimeRow(1 - axis))
    {
      // The samples are only read until they are cleared, so both
      // estimates are taken before any field changes.
      var sign := SignOf(Trunc(scrollPos[axis, windowSize - 1]));
      var compensation := SampleCompensation(axis, sign);
      var velocity := SampleVelocity(axis, sign);
      position[axis] := position[axis] + compensation as real;
      kineticScroll[axis] := velocity;
      kineticT0[axis] := time;
      ClearSamples(axis);
    }

    /** The last loop of `pointer_handle_axis_stop`: both sample windows of
        the axis are zeroed; the other axis keeps its samples. */
    method ClearSamples(axis: nat)
      requires Valid() && axis < 2
      modifies scrollPos, scrollTime
      ensures PosRow(axis) == Zeros(windowSize, 0.0) && TimeRow(axis) == Zeros(windowSize, 0)
      ensures PosRow(1 - axis) == old(PosRow(1 - axis)) && TimeRow(1 - axis) == old(TimeRow(1 - axis))
    {
      ghost var otherPos, otherTime := PosRow(1 - axis), TimeRow(1 - axis);
      for i := 0 to windowSize
        invariant forall j :: 0 <= j < i ==> scrollPos[axis, j] == 0.0 && scrollTime[axis, j] == 0
        invariant PosRow(1 - axis) == otherPos && TimeRow(1 - axis) == otherTime
      {
        scrollPos[axis, i] := 0.0;
        scrollTime[axis, i] := 0;
      }
    }

    /** The clamp at the top of `window_render`: each position is pulled back
        to 0 when positive and otherwise kept. */
    method ClampPosition()
      requires Valid()
      modifies position
      ensures position[1] == WindowRender.ClampScroll(old(position[1]))
      ensures position[0] == WindowRender.ClampScroll(old(position[0]))
    {
      if position[1] > 0.0 {
        position[1] := 0.0;
      }
      if position[0] > 0.0 {
        position[0] := 0.0;
      }
    }
  }

  /** A run of axis events on one axis leaves its windows holding the newest
      samples: the distance window is the slide of the old one by the run. */
  lemma AxisRunWindow(row: seq<real>, values: seq<int>)
    requires |row| >= 1 && |values| >= |row|
    ensures SlideAll(row, Samples(values)) == Samples(values)[|values| - |row|..]
  {
    SlideAllKeepsNewest(row, Samples(values));
  }

  /** The distances axis events record for a run of raw axis values. */
  function Samples(values: seq<int>): (s: seq<real>)
    ensures |s| == |values| && forall i :: 0 <= i < |values| ==> s[i] == values[i] as real / 250.0
  {
    seq(|values|, i requires 0 <= i < |values| => values[i] as real / 250.0)
  }
}
