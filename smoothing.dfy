/** The moving-average smoother shared by the light-curve scripts: numpy's
    `convolve(a, ones(w) / w, 'same')`, then the outputs at each end whose window was not full
    are cut off and replaced by copies of the first and last values kept. */
module Smoothing {
  import opened Wrappers
  import Stats

  /** `np.convolve` refuses an empty operand with a ValueError; `processed[0]` on an empty
      trimmed array raises an IndexError. */
  datatype SmoothingError = EmptyOperand | EmptyTrim

  function MinInt(x: int, y: int): int
  {
    if x <= y then x else y
  }

  function MaxInt(x: int, y: int): int
  {
    if x >= y then x else y
  }

  /** `a[j]` inside the array and 0 outside it: the zero padding of a convolution. */
  function At(a: seq<real>, j: int): real
  {
    if 0 <= j < |a| then a[j] else 0.0
  }

  /** The sum of `At(a, j)` over `lo <= j < hi`. */
  function WindowSum(a: seq<real>, lo: int, hi: int): real
    decreases hi - lo
  {
    if hi <= lo then 0.0 else WindowSum(a, lo, hi - 1) + At(a, hi - 1)
  }

  /** The full convolution of `a` with `w` weights `1 / w`: entry `j` sums the `a[i]` with
      `j - w < i <= j`, each divided by `w`. */
  function FullConvolution(a: seq<real>, w: nat): seq<real>
    requires |a| > 0 && w > 0
  {
    seq(|a| + w - 1, j => WindowSum(a, j - w + 1, j + 1) / (w as real))
  }

  /** The first entry of the full convolution that mode 'same' keeps. */
  function SameShift(n: nat, w: nat): nat
    requires n > 0 && w > 0
  {
    (MinInt(n, w) - 1) / 2
  }

  /** `np.convolve(a, np.ones(w) / w, 'same')`: the `max(|a|, w)` central entries of the full
      convolution. numpy swaps the operands when the kernel is the longer one, which centres
      the output on the kernel. */
  function ConvolveSame(a: seq<real>, w: nat): (r: seq<real>)
    requires |a| > 0 && w > 0
    ensures |r| == MaxInt(|a|, w)
  {
    var shift := SameShift(|a|, w);
    FullConvolution(a, w)[shift .. shift + MaxInt(|a|, w)]
  }

  /** `processed[w//2 : len(processed) - w//2]`: the convolution without the `w // 2` entries
      at each end. */
  function Trimmed(a: seq<real>, w: nat): seq<real>
    requires |a| > 0 && w > 0
  {
    var processed := ConvolveSame(a, w);
    processed[w / 2 .. |processed| - w / 2]
  }

  /** The trimmed convolution refilled with `w // 2` copies of its first value in front and of
      its last value behind, or the error the smoother raises. */
  function MovingAverageSpec(a: seq<real>, w: nat): (r: Result<seq<real>, SmoothingError>)
    ensures r.Ok? ==> |r.value| == MaxInt(|a|, w)
  {
    if |a| == 0 || w == 0 then Err(EmptyOperand)
    else
      var core := Trimmed(a, w);
      var h := w / 2;
      if h == 0 then Ok(core)
      else if core == [] then Err(EmptyTrim)
      else Ok(Stats.Repeat(core[0], h) + core + Stats.Repeat(core[|core| - 1], h))
  }

  /** `np.insert(s, index, value)` with one value. */
  function InsertAt(s: seq<real>, index: nat, value: real): seq<real>
    requires index <= |s|
  {
    s[..index] + [value] + s[index..]
  }

  /** One pass of the refill loop adds one copy at each end. */
  lemma RefillStep(core: seq<real>, i: nat, processed: seq<real>)
    requires |core| > 0
    requires processed == Stats.Repeat(core[0], i) + core + Stats.Repeat(core[|core| - 1], i)
    ensures |processed| > 0 && processed[0] == core[0]
    ensures var front := InsertAt(processed, 0, processed[0]);
      InsertAt(front, |front| - 1, front[|front| - 1]) ==
        Stats.Repeat(core[0], i + 1) + core + Stats.Repeat(core[|core| - 1], i + 1)
  {
    var front := InsertAt(processed, 0, processed[0]);
    assert front == Stats.Repeat(core[0], i + 1) + core + Stats.Repeat(core[|core| - 1], i);
    assert front[|front| - 1] == core[|core| - 1];
    var back := InsertAt(front, |front| - 1, front[|front| - 1]);
    assert back == front + [core[|core| - 1]];
  }

  /** `moving_average(array, window_size)`: convolve, trim, then refill the ends one copy at a
      time with `np.insert`. */
  method MovingAverage(a: seq<real>, w: nat) returns (r: Result<seq<real>, SmoothingError>)
    ensures r == MovingAverageSpec(a, w)
  {
    if |a| == 0 || w == 0 {
      return Err(EmptyOperand);
    }
    var processed := ConvolveSame(a, w);
    processed := processed[w / 2 .. |processed| - w / 2];
    ghost var core := processed;
    assert core == Trimmed(a, w);
    var i := 0;
    while i < w / 2
      invariant 0 <= i <= w / 2
      invariant i == 0 ==> processed == core
      invariant i > 0 ==> (|core| > 0 &&
        processed == Stats.Repeat(core[0], i) + core + Stats.Repeat(core[|core| - 1], i))
    {
      if |processed| == 0 {
        return Err(EmptyTrim);
      }
      if i == 0 {
        assert processed == Stats.Repeat(core[0], 0) + core + Stats.Repeat(core[|core| - 1], 0);
      }
      RefillStep(core, i, processed);
      processed := InsertAt(processed, 0, processed[0]);
      processed := InsertAt(processed, |processed| - 1, processed[|processed| - 1]);
      i := i + 1;
    }
    return Ok(processed);
  }

  // ---------------------------------------------------------------------------------------
  // Properties

  /** The smoother succeeds exactly when both operands are non-empty and either the window is
      odd or the series is longer than the window; it then returns `max(|a|, w)` values. */
  lemma MovingAverageOkIff(a: seq<real>, w: nat)
    ensures MovingAverageSpec(a, w).Ok? <==> |a| > 0 && w > 0 && (w % 2 == 1 || |a| > w)
    ensures MovingAverageSpec(a, w).Ok? ==> |MovingAverageSpec(a, w).value| == MaxInt(|a|, w)
  {
    if |a| > 0 && w > 0 {
      assert |ConvolveSame(a, w)| == MaxInt(|a|, w);
      assert |Trimmed(a, w)| == MaxInt(|a|, w) - 2 * (w / 2);
    }
  }

  /** With the scripts' window of 20 the smoothed series is as long as the input exactly when
      the input has at least 21 values; with fewer it raises. */
  lemma WindowOfTwenty(a: seq<real>)
    ensures MovingAverageSpec(a, 20).Ok? <==> |a| >= 21
    ensures MovingAverageSpec(a, 20).Ok? ==> |MovingAverageSpec(a, 20).value| == |a|
  {
    MovingAverageOkIff(a, 20);
  }

  /** The first `w // 2` values repeat the first value kept, the last `w // 2` the last. */
  lemma MovingAverageEdges(a: seq<real>, w: nat)
    requires MovingAverageSpec(a, w).Ok?
    ensures var r, h := MovingAverageSpec(a, w).value, w / 2;
      |r| > 2 * h &&
      (forall j :: 0 <= j < h ==> r[j] == r[h]) &&
      (forall j :: |r| - h <= j < |r| ==> r[j] == r[|r| - 1 - h])
  {
    MovingAverageOkIff(a, w);
  }

  /** Zero padding adds nothing: a window lying outside the series sums to 0. */
  lemma {:induction false} WindowSumOutside(a: seq<real>, lo: int, hi: int)
    requires hi <= 0 || lo >= |a|
    ensures WindowSum(a, lo, hi) == 0.0
    decreases hi - lo
  {
    if lo < hi {
      WindowSumOutside(a, lo, hi - 1);
    }
  }

  /** A window splits at any point between its ends. */
  lemma {:induction false} WindowSumSplit(a: seq<real>, lo: int, mid: int, hi: int)
    requires lo <= mid <= hi
    ensures WindowSum(a, lo, hi) == WindowSum(a, lo, mid) + WindowSum(a, mid, hi)
    decreases hi - mid
  {
    if mid < hi {
      WindowSumSplit(a, lo, mid, hi - 1);
    }
  }

  /** A window inside the series sums the slice it covers. */
  lemma {:induction false} WindowSumInside(a: seq<real>, lo: int, hi: int)
    requires 0 <= lo <= hi <= |a|
    ensures WindowSum(a, lo, hi) == Stats.Sum(a[lo..hi])
    decreases hi - lo
  {
    if lo < hi {
      WindowSumInside(a, lo, hi - 1);
      assert a[lo..hi] == a[lo..hi - 1] + [a[hi - 1]];
      Stats.SumAppend(a[lo..hi - 1], [a[hi - 1]]);
    }
  }

  /** A window covering the whole series sums the whole series. */
  lemma WindowSumCovers(a: seq<real>, lo: int, hi: int)
    requires lo <= 0 && |a| <= hi
    ensures WindowSum(a, lo, hi) == Stats.Sum(a)
  {
    WindowSumSplit(a, lo, 0, hi);
    WindowSumSplit(a, 0, |a|, hi);
    WindowSumOutside(a, lo, 0);
    WindowSumOutside(a, |a|, hi);
    WindowSumInside(a, 0, |a|);
    assert a[0..|a|] == a;
  }

  /** Entry `k` of the 'same' convolution. */
  lemma ConvolveSameAt(a: seq<real>, w: nat, k: int)
    requires |a| > 0 && w > 0 && 0 <= k < MaxInt(|a|, w)
    ensures var shift := SameShift(|a|, w);
      |ConvolveSame(a, w)| == MaxInt(|a|, w) &&
      ConvolveSame(a, w)[k] == WindowSum(a, k + shift - w + 1, k + shift + 1) / (w as real)
  {
    var shift := SameShift(|a|, w);
    assert shift + MaxInt(|a|, w) <= |a| + w - 1;
    assert ConvolveSame(a, w)[k] == FullConvolution(a, w)[k + shift];
  }

  /** The smoother's output `k`, for a value kept by the trim, is entry `k` of the
      convolution. */
  lemma KeptIsConvolution(a: seq<real>, w: nat, k: int)
    requires MovingAverageSpec(a, w).Ok?
    requires w / 2 <= k < MaxInt(|a|, w) - w / 2
    ensures MovingAverageSpec(a, w).value[k] == ConvolveSame(a, w)[k]
  {
    MovingAverageOkIff(a, w);
    ConvolveSameAt(a, w, k);
    var h := w / 2;
    var core := Trimmed(a, w);
    assert core[k - h] == ConvolveSame(a, w)[k];
    if h > 0 {
      var r := MovingAverageSpec(a, w).value;
      assert r == Stats.Repeat(core[0], h) + core + Stats.Repeat(core[|core| - 1], h);
      assert r[k] == core[k - h];
    }
  }

  /** Output `k` of the smoother, for a value kept by the trim. */
  lemma KeptValue(a: seq<real>, w: nat, k: int)
    requires MovingAverageSpec(a, w).Ok?
    requires w / 2 <= k < MaxInt(|a|, w) - w / 2
    ensures var shift := SameShift(|a|, w);
      MovingAverageSpec(a, w).value[k] == WindowSum(a, k + shift - w + 1, k + shift + 1) / (w as real)
  {
    KeptIsConvolution(a, w, k);
    ConvolveSameAt(a, w, k);
  }

  /** When the series is at least as long as the window, every value the trim keeps is the
      mean of the `w` inputs of a full window, `a[k - w//2 .. k - w//2 + w]`. */
  lemma MovingAverageInterior(a: seq<real>, w: nat, k: int)
    requires 0 < w <= |a| && MovingAverageSpec(a, w).Ok?
    requires w / 2 <= k < |a| - w / 2
    ensures MovingAverageSpec(a, w).value[k] == Stats.Mean(a[k - w / 2 .. k - w / 2 + w])
  {
    KeptValue(a, w, k);
    var h := w / 2;
    assert k + SameShift(|a|, w) - w + 1 == k - h;
    WindowSumInside(a, k - h, k - h + w);
  }

  /** With the scripts' window of 20, output `k` for `10 <= k < |a| - 10` is the mean of
      `a[k - 10 .. k + 10]`. */
  lemma WindowOfTwentyInterior(a: seq<real>, k: int)
    requires |a| >= 21 && 10 <= k < |a| - 10
    ensures MovingAverageSpec(a, 20).Ok?
    ensures MovingAverageSpec(a, 20).value[k] == Stats.Mean(a[k - 10 .. k + 10])
  {
    WindowOfTwenty(a);
    MovingAverageInterior(a, 20, k);
  }

  /** When the series is at least as long as the window, every smoothed value is the mean of
      some full window of the input. */
  lemma MovingAverageIsWindowMean(a: seq<real>, w: nat, k: int) returns (lo: int)
    requires 0 < w <= |a| && MovingAverageSpec(a, w).Ok?
    requires 0 <= k < |MovingAverageSpec(a, w).value|
    ensures 0 <= lo && lo + w <= |a|
    ensures MovingAverageSpec(a, w).value[k] == Stats.Mean(a[lo .. lo + w])
  {
    MovingAverageOkIff(a, w);
    MovingAverageEdges(a, w);
    var r := MovingAverageSpec(a, w).value;
    var h := w / 2;
    var j := if k < h then h else if k >= |r| - h then |r| - 1 - h else k;
    MovingAverageInterior(a, w, j);
    lo := j - h;
  }

  /** When the series is at least as long as the window, every smoothed value lies between
      the smallest and the largest input. */
  lemma MovingAverageWithinBounds(a: seq<real>, w: nat)
    requires 0 < w <= |a| && MovingAverageSpec(a, w).Ok?
    ensures forall k :: 0 <= k < |MovingAverageSpec(a, w).value| ==>
      Stats.Min(a) <= MovingAverageSpec(a, w).value[k] <= Stats.Max(a)
  {
    var r := MovingAverageSpec(a, w).value;
    forall k | 0 <= k < |r|
      ensures Stats.Min(a) <= r[k] <= Stats.Max(a)
    {
      var lo := MovingAverageIsWindowMean(a, w, k);
      var window := a[lo .. lo + w];
      assert forall i :: 0 <= i < |window| ==> Stats.Min(a) <= window[i] <= Stats.Max(a) by {
        assert forall i :: 0 <= i < |window| ==> window[i] == a[lo + i];
      }
      Stats.MeanBounds(window, Stats.Min(a), Stats.Max(a));
    }
  }

  /** A constant series at least as long as the window comes back unchanged. */
  lemma MovingAverageOfConstant(x: real, n: nat, w: nat)
    requires 0 < w <= n && MovingAverageSpec(Stats.Repeat(x, n), w).Ok?
    ensures MovingAverageSpec(Stats.Repeat(x, n), w).value == Stats.Repeat(x, n)
  {
    var a := Stats.Repeat(x, n);
    var r := MovingAverageSpec(a, w).value;
    MovingAverageOkIff(a, w);
    forall k | 0 <= k < |r|
      ensures r[k] == x
    {
      var lo := MovingAverageIsWindowMean(a, w, k);
      Stats.MeanOfConstant(a[lo .. lo + w], x);
    }
  }

  /** A series shorter than an odd window: numpy centres the output on the kernel, the trim
      keeps only the middle value, the sum of the whole series divided by `w`, and the refill
      copies it `w` times. */
  lemma MovingAverageShortOddWindow(a: seq<real>, w: nat)
    requires 0 < |a| < w && w % 2 == 1
    ensures MovingAverageSpec(a, w) == Ok(Stats.Repeat(Stats.Sum(a) / (w as real), w))
  {
    var res := MovingAverageSpec(a, w);
    MiddleIsSum(a, w);
    MovingAverageEdges(a, w);
    var r := res.value;
    assert |r| == w && r[w / 2] == Stats.Sum(a) / (w as real);
    OneValueRefilled(r, w / 2);
    assert res == Ok(r);
  }

  /** A series of `2h + 1` values whose first and last `h` repeat the middle one. */
  lemma OneValueRefilled(r: seq<real>, h: nat)
    requires |r| == 2 * h + 1
    requires forall j :: 0 <= j < h ==> r[j] == r[h]
    requires forall j :: |r| - h <= j < |r| ==> r[j] == r[|r| - 1 - h]
    ensures r == Stats.Repeat(r[h], |r|)
  {
  }

  /** For a series shorter than an odd window, the middle output's window covers the whole
      series. */
  lemma MiddleIsSum(a: seq<real>, w: nat)
    requires 0 < |a| < w && w % 2 == 1
    ensures MovingAverageSpec(a, w).Ok? && |MovingAverageSpec(a, w).value| == w
    ensures MovingAverageSpec(a, w).value[w / 2] == Stats.Sum(a) / (w as real)
  {
    MovingAverageOkIff(a, w);
    var h := w / 2;
    var shift := SameShift(|a|, w);
    assert shift == (|a| - 1) / 2;
    var lo, hi := h + shift - w + 1, h + shift + 1;
    assert lo <= 0 && |a| <= hi;
    KeptValue(a, w, h);
    WindowSumCovers(a, lo, hi);
  }
}
