/**
 * The frame table of src/egl_window.c: a fixed-size array of frame slots
 * (`frames[MAX_FRAMES]`, NULL for a free slot) and the count of open frames,
 * with `frame_create`, `frame_close`, and the key handler of src/wlterm.c
 * that drives them.
 */
module Frames {
  import Scroll

  /** `line_spacing`: 18 logical pixels at scale 2. */
  const LineSpacing: int := 36

  /** The xkb keysyms of the letters `c` and `n`. */
  const KeyC: int := 0x63
  const KeyN: int := 0x6e

  /** A top-level frame: its logical size, open flag, buffer scale, the
      minibuffer strip at its bottom, and its root window. */
  class Frame {
    var width: int
    var height: int
    var open: bool
    const scale: int
    const minibufferHeight: int
    const rootWindow: Scroll.Window

    /** The frame `frame_create` initialises: 200 x 200 at scale 2, with a
        minibuffer one line high and a root window filling the rest. */
    constructor (windowSize: nat)
      requires windowSize >= 1
      ensures width == 200 && height == 200 && open && scale == 2
      ensures minibufferHeight == LineSpacing / scale == 18
      ensures fresh(rootWindow) && rootWindow.Valid() && rootWindow.windowSize == windowSize
      ensures rootWindow.width == width && rootWindow.height == height - minibufferHeight
    {
      width := 200;
      height := 200;
      open := true;
      scale := 2;
      minibufferHeight := LineSpacing / 2;
      rootWindow := new Scroll.Window(windowSize, 200, 200 - LineSpacing / 2);
    }
  }

  /** Number of occupied slots. */
  function CountOpen(slots: seq<Frame?>): (n: nat)
    ensures n <= |slots|
  {
    if |slots| == 0 then 0
    else CountOpen(slots[..|slots| - 1]) + (if slots[|slots| - 1] != null then 1 else 0)
  }

  /** No frame occupies two slots. */
  predicate Distinct(slots: seq<Frame?>) {
    forall i, j :: 0 <= i < j < |slots| && slots[i] != null ==> slots[i] != slots[j]
  }

  /** The index of the lowest free slot, or |slots| when every slot is taken. */
  function FirstFree(slots: seq<Frame?>): (k: nat)
    ensures k <= |slots|
    ensures forall i :: 0 <= i < k ==> slots[i] != null
    ensures k < |slots| ==> slots[k] == null
  {
    if |slots| == 0 || slots[0] == null then 0 else 1 + FirstFree(slots[1..])
  }

  /** Filling a free slot counts one more open frame. */
  lemma {:induction false} CountFill(slots: seq<Frame?>, k: nat, f: Frame)
    requires k < |slots| && slots[k] == null
    ensures CountOpen(slots[k := f]) == CountOpen(slots) + 1
  {
    var last := |slots| - 1;
    if k < last {
      CountFill(slots[..last], k, f);
      assert slots[k := f][..last] == slots[..last][k := f];
    } else {
      assert slots[k := f][..last] == slots[..last];
    }
  }

  /** Freeing an occupied slot counts one open frame fewer. */
  lemma {:induction false} CountFree(slots: seq<Frame?>, k: nat)
    requires k < |slots| && slots[k] != null
    ensures CountOpen(slots[k := null]) == CountOpen(slots) - 1
  {
    var last := |slots| - 1;
    if k < last {
      CountFree(slots[..last], k);
      assert slots[k := null][..last] == slots[..last][k := null];
    } else {
      assert slots[k := null][..last] == slots[..last];
    }
  }

  /** Fewer open frames than slots means a free slot exists. */
  lemma {:induction false} FreeSlotExists(slots: seq<Frame?>)
    requires CountOpen(slots) < |slots|
    ensures FirstFree(slots) < |slots|
  {
    if |slots| > 0 && slots[0] != null {
      CountFirst(slots);
      FreeSlotExists(slots[1..]);
    }
  }

  /** The count splits off the first slot. */
  lemma {:induction false} CountFirst(slots: seq<Frame?>)
    requires |slots| > 0
    ensures CountOpen(slots) == (if slots[0] != null then 1 else 0) + CountOpen(slots[1..])
  {
    var last := |slots| - 1;
    if last > 0 {
      CountFirst(slots[..last]);
      assert slots[..last][1..] == slots[1..][..last - 1];
    }
  }

  /** The index of frame f in the table. */
  function SlotOf(slots: seq<Frame?>, f: Frame): (k: nat)
    requires f in slots
    ensures k < |slots| && slots[k] == f
    ensures forall i :: 0 <= i < k ==> slots[i] != f
  {
    if slots[0] == f then 0 else 1 + SlotOf(slots[1..], f)
  }

  /** The global frame slots, the open-frame counter, and the frame that
      has keyboard focus. */
  class FrameTable {
    const frames: array<Frame?>
    var openFrames: int
    var active: Frame?
    const scrollWindowSize: nat

    /** `open_frames` counts exactly the occupied slots, and no frame is in
        two slots. */
    ghost predicate Valid()
      reads this, frames
    {
      scrollWindowSize >= 1 && openFrames == CountOpen(frames[..]) && Distinct(frames[..])
    }

    /** The table after start-up: every slot free, nothing open. */
    constructor (maxFrames: nat, scrollWindowSize: nat)
      requires scrollWindowSize >= 1
      ensures Valid() && fresh(frames) && frames.Length == maxFrames
      ensures forall i :: 0 <= i < maxFrames ==> frames[i] == null
      ensures openFrames == 0 && active == null && this.scrollWindowSize == scrollWindowSize
    {
      frames := new Frame?[maxFrames](_ => null);
      openFrames := 0;
      active := null;
      this.scrollWindowSize := scrollWindowSize;
      new;
      assert forall i :: 0 <= i < maxFrames ==> frames[..][i] == null;
      NoneOpen(frames[..]);
    }

    /** `frame_create`: NULL when every slot is taken; otherwise a new open
        frame stored in the lowest free slot, with one more open frame. */
    method Create() returns (f: Frame?)
      requires Valid()
      modifies this, frames
      ensures Valid() && active == old(active)
      ensures old(openFrames) == frames.Length ==> f == null && frames[..] == old(frames[..]) && openFrames == old(openFrames)
      ensures old(openFrames) < frames.Length ==>
                && f != null && fresh(f) && f.open
                && f.width == 200 && f.height == 200 && f.scale == 2
                && fresh(f.rootWindow) && f.rootWindow.Valid() && f.rootWindow.windowSize == scrollWindowSize
                && FirstFree(old(frames[..])) < frames.Length
                && frames[..] == old(frames[..])[FirstFree(old(frames[..])) := f]
                && openFrames == old(openFrames) + 1
    {
      if openFrames == frames.Length {
        return null;
      }
      FreeSlotExists(frames[..]);
      var k := 0;
      while frames[k] != null
        invariant k <= FirstFree(frames[..])
        decreases FirstFree(frames[..]) - k
      {
        k := k + 1;
      }
      f := new Frame(scrollWindowSize);
      CountFill(frames[..], k, f);
      frames[k] := f;
      openFrames := openFrames + 1;
    }

    /** `frame_close`: the frame is marked closed, its slot is freed, and
        one frame fewer is open. */
    method Close(f: Frame)
      requires Valid() && f in frames[..]
      modifies this, frames, f
      ensures Valid() && active == old(active) && !f.open
      ensures frames[..] == old(frames[..])[SlotOf(old(frames[..]), f) := null]
      ensures openFrames == old(openFrames) - 1
    {
      f.open := false;
      var k := 0;
      while frames[k] != f
        invariant k <= SlotOf(frames[..], f)
        decreases SlotOf(frames[..], f) - k
      {
        k := k + 1;
      }
      CountFree(frames[..], k);
      frames[k] := null;
      openFrames := openFrames - 1;
    }

    /** `keyboard_key`: only presses act; `c` closes the focused frame and
        `n` opens a new one; any other key changes nothing. */
    method KeyboardKey(sym: int, pressed: bool)
      requires Valid()
      requires pressed && sym == KeyC ==> active != null && active in frames[..]
      modifies this, frames, active
      ensures Valid() && active == old(active)
      ensures !pressed || (sym != KeyC && sym != KeyN) ==>
                frames[..] == old(frames[..]) && openFrames == old(openFrames)
      ensures !(pressed && sym == KeyC) && active != null ==>
                active.open == old(active.open) && active.width == old(active.width)
                && active.height == old(active.height)
      ensures pressed && sym == KeyC ==>
                && !active.open
                && frames[..] == old(frames[..])[SlotOf(old(frames[..]), active) := null]
                && openFrames == old(openFrames) - 1
      ensures pressed && sym == KeyN && old(openFrames) == frames.Length ==>
                frames[..] == old(frames[..]) && openFrames == old(openFrames)
      ensures pressed && sym == KeyN && old(openFrames) < frames.Length ==>
                var k := FirstFree(old(frames[..]));
                && k < frames.Length && frames[k] != null && fresh(frames[k]) && frames[k].open
                && frames[k].width == 200 && frames[k].height == 200 && frames[k].scale == 2
                && fresh(frames[k].rootWindow) && frames[k].rootWindow.Valid()
                && frames[k].rootWindow.windowSize == scrollWindowSize
                && frames[..] == old(frames[..])[k := frames[k]]
                && openFrames == old(openFrames) + 1
    {
      if !pressed {
        return;
      }
      if sym == KeyC {
        Close(active);
      } else if sym == KeyN {
        var _ := Create();
      }
    }
  }

  lemma {:induction false} NoneOpen(slots: seq<Frame?>)
    requires forall i :: 0 <= i < |slots| ==> slots[i] == null
    ensures CountOpen(slots) == 0
  {
    if |slots| > 0 {
      NoneOpen(slots[..|slots| - 1]);
    }
  }
}
