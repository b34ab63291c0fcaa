/** The times at which frames are due, on a grid of fixed rate. */
module FrameGrid {
  function Ceil(x: real): int {
    -((-x).Floor)
  }

  /** Go's conversion of a float to an int. */
  function Truncate(x: real): int {
    if x >= 0.0 then x.Floor else -((-x).Floor)
  }

  lemma CeilIsLeast(x: real, k: int)
    ensures k as real >= x <==> k >= Ceil(x)
  {
    if k as real >= x {
      assert (-x).Floor >= -k;
    }
  }

  lemma CeilMonotone(x: real, y: real)
    requires x <= y
    ensures Ceil(x) <= Ceil(y)
  {
    CeilIsLeast(x, Ceil(y));
    CeilIsLeast(y, Ceil(y));
  }

  /** The time of grid point number `k`. */
  function GridTime(k: int, fps: real): real
    requires fps > 0.0
  {
    k as real / fps
  }

  /** The grid points from number `lo` up to, but not including, number `hi`. */
  function GridRange(lo: int, hi: int, fps: real): (ts: seq<real>)
    requires fps > 0.0
  {
    if hi <= lo then [] else seq(hi - lo, i => GridTime(lo + i, fps))
  }

  /** The number of the first grid point that is not before `t`. */
  function FrameNo(t: real, fps: real): int {
    Ceil(t * fps)
  }

  /** The grid points in [from, to). */
  function Grid(from: real, to: real, fps: real): seq<real>
    requires fps > 0.0
  {
    GridRange(FrameNo(from, fps), FrameNo(to, fps), fps)
  }

  lemma ScaledOrder(q: real, t: real, fps: real)
    requires fps > 0.0
    ensures q >= t <==> q * fps >= t * fps
  {
    if q >= t {
      assert (q - t) * fps >= 0.0;
    } else {
      assert (t - q) * fps > 0.0;
    }
  }

  /** A grid point is not before `t` exactly if its number is not below `t * fps`, rounded up. */
  lemma GridOrder(k: int, t: real, fps: real)
    requires fps > 0.0
    ensures GridTime(k, fps) >= t <==> k >= FrameNo(t, fps)
  {
    CeilIsLeast(t * fps, k);
    var q := GridTime(k, fps);
    assert q * fps == k as real;
    ScaledOrder(q, t, fps);
  }

  lemma Inverse(from: real, fps: real)
    requires fps > 0.0
    ensures 1.0 / fps > 0.0
    ensures from / (1.0 / fps) == from * fps
  {
    var f := 1.0 / fps;
    assert f * fps == 1.0;
    assert (from * fps) * f == from * (fps * f);
  }

  /** Cutting off is rounding up, or one less. */
  lemma FirstFrame(x: real)
    ensures Ceil(x) - 1 <= Truncate(x) <= Ceil(x)
  {
    CeilIsLeast(x, x.Floor);
    CeilIsLeast(x, x.Floor + 1);
  }

  lemma GridRangeExtends(lo: int, k: int, fps: real)
    requires fps > 0.0 && k >= lo
    ensures GridRange(lo, k + 1, fps) == GridRange(lo, k, fps) + [GridTime(k, fps)]
  {
  }

  /** genTimeFrames: exactly the grid points in [from, to), in order. */
  method GenTimeFrames(from: real, to: real, fps: real) returns (frames: seq<real>)
    requires fps > 0.0
    ensures frames == Grid(from, to, fps)
  {
    Inverse(from, fps);
    FirstFrame(from * fps);
    forall k: int
      ensures GridTime(k, fps) >= from <==> k >= FrameNo(from, fps)
      ensures GridTime(k, fps) >= to <==> k >= FrameNo(to, fps)
    {
      GridOrder(k, from, fps);
      GridOrder(k, to, fps);
    }
    frames := CountUp(Truncate(from / (1.0 / fps)), from, to, fps, FrameNo(from, fps), FrameNo(to, fps));
  }

  /** The loop of genTimeFrames, from frame number `first` on. */
  method CountUp(first: int, from: real, to: real, fps: real, ghost lo: int, ghost hi: int) returns (frames: seq<real>)
    requires fps > 0.0
    requires lo - 1 <= first <= lo
    requires forall k: int :: GridTime(k, fps) >= from <==> k >= lo
    requires forall k: int :: GridTime(k, fps) >= to <==> k >= hi
    ensures frames == GridRange(lo, hi, fps)
  {
    frames := [];
    var frame := first;
    while true
      invariant frame >= lo - 1
      invariant frame <= hi || frame <= lo
      invariant frames == GridRange(lo, frame, fps)
      decreases hi - frame
    {
      var t := GridTime(frame, fps);
      if t >= to {
        return;
      }
      if t >= from {
        frames := frames + [t];
        GridRangeExtends(lo, frame, fps);
      }
      frame := frame + 1;
    }
  }

  lemma FrameNoMonotone(x: real, y: real, fps: real)
    requires x <= y && fps > 0.0
    ensures FrameNo(x, fps) <= FrameNo(y, fps)
  {
    ScaledOrder(y, x, fps);
    CeilMonotone(x * fps, y * fps);
  }

  lemma Fraction(x: real, d: real)
    requires 0.0 <= x < d
    ensures 0.0 <= x / d < 1.0
  {
    var q := x / d;
    assert q * d == x;
    ScaledOrder(q, 1.0, d);
    ScaledOrder(q, 0.0, d);
  }

  /** A time is on the list exactly if it is a multiple of the frame time in the interval. */
  lemma GridIsComplete(from: real, to: real, fps: real, t: real)
    requires fps > 0.0
    ensures t in Grid(from, to, fps) <==> from <= t < to && exists k: int :: t == GridTime(k, fps)
  {
    var lo, hi := FrameNo(from, fps), FrameNo(to, fps);
    if t in Grid(from, to, fps) {
      var i :| 0 <= i < |Grid(from, to, fps)| && Grid(from, to, fps)[i] == t;
      assert t == GridTime(lo + i, fps);
      GridOrder(lo + i, from, fps);
      GridOrder(lo + i, to, fps);
    }
    if from <= t < to && exists k: int :: t == GridTime(k, fps) {
      var k: int :| t == GridTime(k, fps);
      GridOrder(k, from, fps);
      GridOrder(k, to, fps);
      assert Grid(from, to, fps)[k - lo] == t;
    }
  }
}
