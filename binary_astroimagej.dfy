/** The eclipsing-binary AstroImageJ script: the target's counts are corrected by the
    reference star's counts relative to their median, the flux is derived twice (corrected and
    raw), the magnitudes are smoothed with a window of 20, and the deviations of the
    magnitudes from the smoothed curve are summarised. */
module BinaryAstroImageJ {
  import opened Wrappers
  import Stats
  import Smoothing
  import Photometry

  const MovingAverageWindowSize: nat := 20

  /** `SOURCE_COUNTS_T1[0]` on an empty column, or `SOURCE_COUNTS_C2[i]` past the end of a
      shorter reference column: an IndexError. */
  datatype AdjustError = CountIndexError

  /** No division by zero: numpy's infinities are not modelled. */
  predicate NonZeroReference(c2: seq<real>)
  {
    (forall i :: 0 <= i < |c2| ==> c2[i] != 0.0) && (|c2| > 0 ==> Stats.Median(c2) != 0.0)
  }

  /** `adjust_t1_source_counts` as written: the unadjusted first count, then every count
      divided by the reference count normalised by the reference median. */
  function AdjustedCounts(t1: seq<real>, c2: seq<real>): (r: Result<seq<real>, AdjustError>)
    requires NonZeroReference(c2)
    ensures r.Ok? <==> 0 < |t1| <= |c2|
    ensures r.Ok? ==> |r.value| == |t1| + 1 && r.value[0] == t1[0]
  {
    if |t1| == 0 || |c2| < |t1| then Err(CountIndexError)
    else Ok([t1[0]] + Normalised(t1, c2, Stats.Median(c2)))
  }

  /** `T1[i] * (1/ref_normalized)` for every frame, with `ref_normalized = C2[i] / median`. */
  function Normalised(t1: seq<real>, c2: seq<real>, median: real): seq<real>
    requires |t1| <= |c2| && median != 0.0
    requires forall i :: 0 <= i < |c2| ==> c2[i] != 0.0
  {
    seq(|t1|, i requires 0 <= i < |t1| => t1[i] * (1.0 / (c2[i] / median)))
  }

  /** The loop of `adjust_t1_source_counts`: starts from `[T1[0]]` and appends one corrected
      count per frame. */
  method AdjustT1SourceCounts(t1: seq<real>, c2: seq<real>) returns (r: Result<seq<real>, AdjustError>)
    requires NonZeroReference(c2)
    ensures r == AdjustedCounts(t1, c2)
  {
    if |t1| == 0 {
      return Err(CountIndexError);
    }
    var adjusted := [t1[0]];
    var median := if |c2| > 0 then Stats.Median(c2) else 0.0;
    var i := 0;
    while i < |t1|
      invariant 0 <= i <= |t1|
      invariant i <= |c2|
      invariant |adjusted| == i + 1 && adjusted[0] == t1[0]
      invariant forall j :: 0 <= j < i ==> adjusted[j + 1] == t1[j] * (1.0 / (c2[j] / median))
    {
      if i >= |c2| {
        return Err(CountIndexError);
      }
      var refNormalized := c2[i] / median;
      adjusted := adjusted + [t1[i] * (1.0 / refNormalized)];
      i := i + 1;
    }
    Appended(adjusted, t1, c2, median);
    assert adjusted == [t1[0]] + Normalised(t1, c2, median);
    r := Ok(adjusted);
  }

  /** What the loop has built is the first count followed by the corrected counts. */
  lemma {:induction false} Appended(adjusted: seq<real>, t1: seq<real>, c2: seq<real>, median: real)
    requires 0 < |t1| <= |c2| && median != 0.0
    requires forall i :: 0 <= i < |c2| ==> c2[i] != 0.0
    requires |adjusted| == |t1| + 1 && adjusted[0] == t1[0]
    requires forall j :: 0 <= j < |t1| ==> adjusted[j + 1] == t1[j] * (1.0 / (c2[j] / median))
    ensures adjusted == [t1[0]] + Normalised(t1, c2, median)
  {
    var expected := [t1[0]] + Normalised(t1, c2, median);
    forall k | 0 <= k < |adjusted|
      ensures adjusted[k] == expected[k]
    {
      if k > 0 {
        assert adjusted[(k - 1) + 1] == t1[k - 1] * (1.0 / (c2[k - 1] / median));
      }
    }
  }

  /** Both flux series of `calculate_flux`: from the adjusted counts and from the raw ones. */
  datatype BinaryFlux = BinaryFlux(julianDates: seq<real>, flux: seq<real>, rawFlux: seq<real>)

  datatype BinaryFluxError = AdjustFailed(AdjustError) | FluxFailed(Photometry.FluxError)

  /** `calculate_flux` of the binary script once the table is read, as written: the adjusted
      counts, one longer than the table, are paired with the background frame by frame. */
  function CalculateFluxBinary(julianDates: seq<real>, t1: seq<real>, c2: seq<real>, skyPerPixel: seq<real>,
                               skyPixels: seq<real>, expTimes: seq<real>): (r: Result<BinaryFlux, BinaryFluxError>)
    requires NonZeroReference(c2)
    requires |expTimes| > 0 ==> expTimes[0] != 0.0
    ensures r.Ok? <==> 0 < |t1| <= |c2| && expTimes != []
    ensures r.Ok? ==> (r.value.julianDates == julianDates &&
      |r.value.rawFlux| == Photometry.MinLength(|t1|, Photometry.MinLength(|skyPerPixel|, |skyPixels|)))
  {
    match AdjustedCounts(t1, c2)
    case Err(e) => Err(AdjustFailed(e))
    case Ok(adjusted) =>
      if expTimes == [] then Err(FluxFailed(Photometry.MissingRow))
      else
        Ok(BinaryFlux(julianDates,
          Photometry.FluxFromCounts(adjusted, skyPerPixel, skyPixels, expTimes[0]),
          Photometry.FluxFromCounts(t1, skyPerPixel, skyPixels, expTimes[0])))
  }

  /** The counts as evidently intended: frame `i`'s count corrected by frame `i`'s reference
      count, with nothing prepended. */
  function AlignedAdjustedCounts(t1: seq<real>, c2: seq<real>): Result<seq<real>, AdjustError>
    requires NonZeroReference(c2)
  {
    if |t1| == 0 || |c2| < |t1| then Err(CountIndexError)
    else Ok(Normalised(t1, c2, Stats.Median(c2)))
  }

  /** `calculate_flux` of the binary script with the aligned counts. */
  function CalculateFluxBinaryAligned(julianDates: seq<real>, t1: seq<real>, c2: seq<real>, skyPerPixel: seq<real>,
                                      skyPixels: seq<real>, expTimes: seq<real>): Result<BinaryFlux, BinaryFluxError>
    requires NonZeroReference(c2)
    requires |expTimes| > 0 ==> expTimes[0] != 0.0
  {
    match AlignedAdjustedCounts(t1, c2)
    case Err(e) => Err(AdjustFailed(e))
    case Ok(adjusted) =>
      if expTimes == [] then Err(FluxFailed(Photometry.MissingRow))
      else
        Ok(BinaryFlux(julianDates,
          Photometry.FluxFromCounts(adjusted, skyPerPixel, skyPixels, expTimes[0]),
          Photometry.FluxFromCounts(t1, skyPerPixel, skyPixels, expTimes[0])))
  }

  // ---------------------------------------------------------------------------------------
  // Properties of the count adjustment

  /** The adjustment fails exactly when there is no target count or fewer reference counts
      than target counts; otherwise it returns one value more than there are frames: the raw
      first count, then the normalised count of every frame (see `NormalisedAt`). */
  lemma {:induction false} AdjustedCountsShape(t1: seq<real>, c2: seq<real>)
    requires NonZeroReference(c2)
    ensures AdjustedCounts(t1, c2).Ok? <==> 0 < |t1| <= |c2|
    ensures AdjustedCounts(t1, c2).Ok? ==>
      |AdjustedCounts(t1, c2).value| == |t1| + 1 && AdjustedCounts(t1, c2).value[0] == t1[0] &&
      AdjustedCounts(t1, c2).value[1..] == Normalised(t1, c2, Stats.Median(c2))
  {
    if 0 < |t1| <= |c2| {
      var normalised := Normalised(t1, c2, Stats.Median(c2));
      assert ([t1[0]] + normalised)[1..] == normalised;
    }
  }

  /** Each normalised count is the count times the median over the frame's reference count. */
  lemma {:induction false} NormalisedAt(t1: seq<real>, c2: seq<real>, median: real)
    requires |t1| <= |c2| && median != 0.0
    requires forall i :: 0 <= i < |c2| ==> c2[i] != 0.0
    ensures forall i :: 0 <= i < |t1| ==> Normalised(t1, c2, median)[i] == t1[i] * median / c2[i]
  {
    forall i | 0 <= i < |t1|
      ensures Normalised(t1, c2, median)[i] == t1[i] * median / c2[i]
    {
      Reciprocal(t1[i], c2[i], median);
    }
  }

  lemma Reciprocal(x: real, c: real, m: real)
    requires c != 0.0 && m != 0.0
    ensures x * (1.0 / (c / m)) == x * m / c
  {
  }

  /** Against a constant reference star, each adjusted value is the raw count it came from. */
  lemma {:induction false} ConstantReferenceKeepsCounts(t1: seq<real>, c2: seq<real>)
    requires NonZeroReference(c2)
    requires 0 < |t1| <= |c2|
    requires forall i :: 0 <= i < |c2| ==> c2[i] == c2[0]
    ensures forall i :: 0 <= i < |t1| ==> AdjustedCounts(t1, c2).value[i + 1] == t1[i]
  {
    Stats.MedianOfConstant(c2, c2[0]);
    var r := AdjustedCounts(t1, c2).value;
    var normalised := Normalised(t1, c2, c2[0]);
    assert r == [t1[0]] + normalised;
    forall i | 0 <= i < |t1|
      ensures r[i + 1] == t1[i]
    {
      Reciprocal(t1[i], c2[i], c2[0]);
      assert r[i + 1] == normalised[i];
    }
  }

  // ---------------------------------------------------------------------------------------
  // The frame shift in `calculate_flux`

  /** Flux from counts that start with one extra value: entry `i >= 1` uses count `i - 1`
      with the background of frame `i`. */
  lemma {:induction false} ShiftedFlux(first: real, normalised: seq<real>, skyPerPixel: seq<real>, skyPixels: seq<real>, expTime: real)
    requires expTime != 0.0
    requires |normalised| == |skyPerPixel| == |skyPixels| > 0
    ensures var flux := Photometry.FluxFromCounts([first] + normalised, skyPerPixel, skyPixels, expTime);
      |flux| == |normalised| &&
      flux[0] == (first - skyPerPixel[0] * skyPixels[0]) / expTime &&
      forall i :: 1 <= i < |flux| ==>
        flux[i] == (normalised[i - 1] - skyPerPixel[i] * skyPixels[i]) / expTime
  {
    var counts := [first] + normalised;
    Photometry.FluxFromCountsAt(counts, skyPerPixel, skyPixels, expTime);
    assert forall i :: 1 <= i < |counts| ==> counts[i] == normalised[i - 1];
  }

  /** As written, with every column of one table of `n` frames: the adjusted flux has `n`
      values, its first uses the unadjusted first count, and value `i >= 1` pairs the
      adjusted count of frame `i - 1` with the background of frame `i`; the raw flux pairs
      each frame's count with its own background. */
  lemma {:induction false} AsWrittenFluxIsShifted(julianDates: seq<real>, t1: seq<real>, c2: seq<real>, skyPerPixel: seq<real>,
                               skyPixels: seq<real>, expTimes: seq<real>)
    requires NonZeroReference(c2)
    requires |expTimes| > 0 && expTimes[0] != 0.0
    requires 0 < |t1| == |c2| == |skyPerPixel| == |skyPixels|
    ensures var r := CalculateFluxBinary(julianDates, t1, c2, skyPerPixel, skyPixels, expTimes);
      var normalised, e := Normalised(t1, c2, Stats.Median(c2)), expTimes[0];
      r.Ok? && |r.value.flux| == |t1| && |r.value.rawFlux| == |t1| &&
      r.value.flux[0] == (t1[0] - skyPerPixel[0] * skyPixels[0]) / e &&
      (forall i :: 1 <= i < |t1| ==>
        r.value.flux[i] == (normalised[i - 1] - skyPerPixel[i] * skyPixels[i]) / e) &&
      (forall i :: 0 <= i < |t1| ==>
        r.value.rawFlux[i] == (t1[i] - skyPerPixel[i] * skyPixels[i]) / e)
  {
    AdjustedCountsShape(t1, c2);
    var normalised := Normalised(t1, c2, Stats.Median(c2));
    assert AdjustedCounts(t1, c2).value == [t1[0]] + normalised;
    ShiftedFlux(t1[0], normalised, skyPerPixel, skyPixels, expTimes[0]);
    Photometry.FluxFromCountsAt(t1, skyPerPixel, skyPixels, expTimes[0]);
  }

  /** Two frames, a constant reference star and no background: the adjusted flux repeats the
      first frame's value, while the raw flux follows the counts. */
  lemma AsWrittenCounterexample()
    ensures NonZeroReference([1.0, 1.0])
    ensures CalculateFluxBinary([0.0, 1.0], [100.0, 200.0], [1.0, 1.0], [0.0, 0.0], [0.0, 0.0], [10.0, 10.0])
      == Ok(BinaryFlux([0.0, 1.0], [10.0, 10.0], [10.0, 20.0]))
  {
    var c2 := [1.0, 1.0];
    Stats.MedianOfConstant(c2, 1.0);
    assert Normalised([100.0, 200.0], c2, 1.0) == [100.0, 200.0];
    assert AdjustedCounts([100.0, 200.0], c2) == Ok([100.0] + Normalised([100.0, 200.0], c2, 1.0));
    assert [100.0] + [100.0, 200.0] == [100.0, 100.0, 200.0];
    assert AdjustedCounts([100.0, 200.0], c2) == Ok([100.0, 100.0, 200.0]);
    assert Photometry.FluxFromCounts([100.0, 100.0, 200.0], [0.0, 0.0], [0.0, 0.0], 10.0) == [10.0, 10.0] by {
      Photometry.FluxFromCountsAt([100.0, 100.0, 200.0], [0.0, 0.0], [0.0, 0.0], 10.0);
    }
    assert Photometry.FluxFromCounts([100.0, 200.0], [0.0, 0.0], [0.0, 0.0], 10.0) == [10.0, 20.0] by {
      Photometry.FluxFromCountsAt([100.0, 200.0], [0.0, 0.0], [0.0, 0.0], 10.0);
    }
  }

  /** With the aligned counts, flux `i` uses frame `i`'s count, scaled by the reference
      median over frame `i`'s reference count, and frame `i`'s background. */
  lemma {:induction false} AlignedFlux(julianDates: seq<real>, t1: seq<real>, c2: seq<real>, skyPerPixel: seq<real>,
                                       skyPixels: seq<real>, expTimes: seq<real>, median: real, i: int)
    requires NonZeroReference(c2)
    requires |expTimes| > 0 && expTimes[0] != 0.0
    requires 0 < |t1| == |c2| == |skyPerPixel| == |skyPixels|
    requires median == Stats.Median(c2)
    requires 0 <= i < |t1|
    ensures var r := CalculateFluxBinaryAligned(julianDates, t1, c2, skyPerPixel, skyPixels, expTimes);
      r.Ok? && |r.value.flux| == |t1| &&
      r.value.flux[i] == (t1[i] * median / c2[i] - skyPerPixel[i] * skyPixels[i]) / expTimes[0]
  {
    AlignedFluxOfNormalised(julianDates, t1, c2, skyPerPixel, skyPixels, expTimes);
    NormalisedFlux(t1, c2, median, skyPerPixel, skyPixels, expTimes[0], i);
  }

  lemma AlignedFluxOfNormalised(julianDates: seq<real>, t1: seq<real>, c2: seq<real>, skyPerPixel: seq<real>,
                                skyPixels: seq<real>, expTimes: seq<real>)
    requires NonZeroReference(c2)
    requires |expTimes| > 0 && expTimes[0] != 0.0
    requires 0 < |t1| <= |c2|
    ensures CalculateFluxBinaryAligned(julianDates, t1, c2, skyPerPixel, skyPixels, expTimes).Ok?
    ensures CalculateFluxBinaryAligned(julianDates, t1, c2, skyPerPixel, skyPixels, expTimes).value.flux ==
      Photometry.FluxFromCounts(Normalised(t1, c2, Stats.Median(c2)), skyPerPixel, skyPixels, expTimes[0])
  {
  }

  /** Flux from the normalised counts at frame `i`, for a given median. */
  lemma NormalisedFlux(t1: seq<real>, c2: seq<real>, median: real, skyPerPixel: seq<real>,
                       skyPixels: seq<real>, expTime: real, i: int)
    requires |t1| <= |c2| && median != 0.0 && expTime != 0.0
    requires forall j :: 0 <= j < |c2| ==> c2[j] != 0.0
    requires |t1| == |skyPerPixel| == |skyPixels|
    requires 0 <= i < |t1|
    ensures var flux := Photometry.FluxFromCounts(Normalised(t1, c2, median), skyPerPixel, skyPixels, expTime);
      |flux| == |t1| && flux[i] == (t1[i] * median / c2[i] - skyPerPixel[i] * skyPixels[i]) / expTime
  {
    var counts := Normalised(t1, c2, median);
    Reciprocal(t1[i], c2[i], median);
    assert counts[i] == t1[i] * median / c2[i];
    Photometry.FluxFromCountsAt(counts, skyPerPixel, skyPixels, expTime);
  }

  /** With the aligned counts, a constant reference star leaves the flux equal to the raw
      flux: the correction only removes the reference's variation. */
  lemma {:induction false} AlignedConstantReference(julianDates: seq<real>, t1: seq<real>, c2: seq<real>, skyPerPixel: seq<real>,
                                 skyPixels: seq<real>, expTimes: seq<real>)
    requires NonZeroReference(c2)
    requires |expTimes| > 0 && expTimes[0] != 0.0
    requires 0 < |t1| <= |c2|
    requires forall i :: 0 <= i < |c2| ==> c2[i] == c2[0]
    ensures CalculateFluxBinaryAligned(julianDates, t1, c2, skyPerPixel, skyPixels, expTimes).Ok?
    ensures var r := CalculateFluxBinaryAligned(julianDates, t1, c2, skyPerPixel, skyPixels, expTimes).value;
      r.flux == r.rawFlux
  {
    Stats.MedianOfConstant(c2, c2[0]);
    var normalised := Normalised(t1, c2, c2[0]);
    forall i | 0 <= i < |t1|
      ensures normalised[i] == t1[i]
    {
      Reciprocal(t1[i], c2[i], c2[0]);
    }
    assert normalised == t1;
  }

  // ---------------------------------------------------------------------------------------
  // print_stats

  /** `MAGS - SMOOTHED_MAGS` on shapes numpy cannot broadcast, and `max` or `min` of an empty
      list: both a ValueError. */
  datatype StatsError = ShapeMismatch | EmptySeries

  /** `MAGS - SMOOTHED_MAGS` with numpy broadcasting: equal lengths subtract element by
      element, a series of one value is stretched to the other's length, and any other pair of
      lengths raises. */
  function Deviations(mags: seq<real>, smoothed: seq<real>): (r: Result<seq<real>, StatsError>)
    ensures r.Err? <==> |mags| != |smoothed| && |mags| != 1 && |smoothed| != 1
    ensures r.Ok? && mags != [] && smoothed != [] ==> |r.value| > 0
    ensures r.Ok? && |mags| == |smoothed| ==> r.value == Stats.Difference(mags, smoothed)
  {
    if |mags| == |smoothed| then Ok(Stats.Difference(mags, smoothed))
    else if |smoothed| == 1 then Ok(seq(|mags|, i requires 0 <= i < |mags| => mags[i] - smoothed[0]))
    else if |mags| == 1 then Ok(seq(|smoothed|, i requires 0 <= i < |smoothed| => mags[0] - smoothed[i]))
    else Err(ShapeMismatch)
  }

  /** The figures `print_stats` prints, the standard deviation aside. */
  datatype MagStats = MagStats(maxMag: real, minMag: real, maxSmoothed: real, minSmoothed: real,
                               averageDeviation: real)

  /** `print_stats`: the deviations first, then maximum and minimum of both series, then the
      average deviation. */
  function PrintStats(mags: seq<real>, smoothed: seq<real>): (r: Result<MagStats, StatsError>)
    ensures r.Ok? ==> r.value.minMag <= r.value.maxMag && r.value.minSmoothed <= r.value.maxSmoothed
    ensures r.Ok? ==> (r.value.maxMag in mags && r.value.minMag in mags &&
      r.value.maxSmoothed in smoothed && r.value.minSmoothed in smoothed)
  {
    match Deviations(mags, smoothed)
    case Err(e) => Err(e)
    case Ok(devs) =>
      if mags == [] || smoothed == [] then Err(EmptySeries)
      else Ok(MagStats(Stats.Max(mags), Stats.Min(mags), Stats.Max(smoothed), Stats.Min(smoothed),
                       Stats.Mean(devs)))
  }

  // ---------------------------------------------------------------------------------------
  // Properties of the smoothing and of print_stats

  /** `print_stats` gets through exactly when the two series broadcast against each other and
      neither is empty. */
  lemma PrintStatsOk(mags: seq<real>, smoothed: seq<real>)
    ensures PrintStats(mags, smoothed).Ok? <==>
      (|mags| == |smoothed| || |mags| == 1 || |smoothed| == 1) && mags != [] && smoothed != []
  {
  }

  /** For the magnitudes of at least 21 frames the smoother of window 20 returns one value per
      frame, so `MAGS - SMOOTHED_MAGS` subtracts frame by frame: the average deviation is the
      difference of the averages, and the smoothed curve stays within the range of the
      magnitudes. */
  lemma {:induction false} StatsOfSmoothed(mags: seq<real>)
    requires |mags| >= 21
    ensures Smoothing.MovingAverageSpec(mags, MovingAverageWindowSize).Ok?
    ensures var smoothed := Smoothing.MovingAverageSpec(mags, MovingAverageWindowSize).value;
      |smoothed| == |mags| && PrintStats(mags, smoothed).Ok? &&
      var st := PrintStats(mags, smoothed).value;
      st.averageDeviation == Stats.Mean(mags) - Stats.Mean(smoothed) &&
      st.minMag <= st.minSmoothed <= st.maxSmoothed <= st.maxMag
  {
    Smoothing.WindowOfTwenty(mags);
    var smoothed := Smoothing.MovingAverageSpec(mags, MovingAverageWindowSize).value;
    Stats.MeanDifference(mags, smoothed);
    Smoothing.MovingAverageWithinBounds(mags, MovingAverageWindowSize);
    Stats.MinAtMostMax(smoothed);
  }
}
