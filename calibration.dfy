/** Calibrating a reference star's light curve against its catalogue magnitude: the series is
    multiplied by `COEFF = truemag / median(series)`, so that the calibrated series has the
    catalogue magnitude as its median. Also the printed gap between average and median. */
module Calibration {
  import opened Wrappers
  import Stats
  import LightCurveFiles

  /** `list(map(lambda x: COEFF*x, series))` with `COEFF = truemag / median`. */
  function Calibrate(trueMag: real, median: real, series: seq<real>): (mags: seq<real>)
    requires median != 0.0
    ensures |mags| == |series|
    ensures forall i :: 0 <= i < |series| ==> mags[i] * median == trueMag * series[i]
  {
    Stats.Scale(trueMag / median, series)
  }

  /** Where numpy would carry on with NaN or infinity, the model stops: the median of an empty
      series is NaN, and a zero median makes the coefficient infinite or NaN. */
  datatype AdjustError = EmptySeries | ZeroMedian

  /** How a calibrating script's `main` ends without magnitudes. */
  datatype ScriptError =
    | BadTrueMag                             // `float(truemag)` on other text: ValueError
    | ReadFailed(LightCurveFiles.ReadError)
    | Numeric(AdjustError)

  /** `plot_adjusted_lightcurve` on the series and its own median. */
  function AdjustByMedian(trueMag: real, series: seq<real>): (r: Result<seq<real>, AdjustError>)
    ensures r == Err(EmptySeries) <==> series == []
    ensures r.Ok? ==> |r.value| == |series|
  {
    if series == [] then Err(EmptySeries)
    else
      var median := Stats.Median(series);
      if median == 0.0 then Err(ZeroMedian) else Ok(Calibrate(trueMag, median, series))
  }

  /** `abs(np.average(s) - np.median(s))`. */
  function AverageMedianGap(s: seq<real>): (gap: real)
    requires |s| > 0
    ensures gap >= 0.0
    ensures gap == Stats.Mean(s) - Stats.Median(s) || gap == Stats.Median(s) - Stats.Mean(s)
  {
    var d := Stats.Mean(s) - Stats.Median(s);
    if d < 0.0 then -d else d
  }

  // ---------------------------------------------------------------------------------------
  // Properties

  /** Calibrating with the series' own median puts the median on the catalogue magnitude. */
  lemma CalibratedMedian(trueMag: real, median: real, series: seq<real>)
    requires |series| > 0 && median == Stats.Median(series) && median != 0.0
    ensures |Calibrate(trueMag, median, series)| == |series|
    ensures Stats.Median(Calibrate(trueMag, median, series)) == trueMag
  {
    Stats.MedianScale(trueMag / median, series);
    CoefficientTimesMedian(trueMag, median);
  }

  /** The adjustment goes through exactly for a series with a nonzero median; its result has
      one value per input value and the catalogue magnitude as median. */
  lemma AdjustByMedianOk(trueMag: real, series: seq<real>)
    ensures AdjustByMedian(trueMag, series).Ok? <==> series != [] && Stats.Median(series) != 0.0
    ensures AdjustByMedian(trueMag, series).Ok? ==>
      var mags := AdjustByMedian(trueMag, series).value;
      |mags| == |series| && Stats.Median(mags) == trueMag &&
      forall i :: 0 <= i < |series| ==> mags[i] * Stats.Median(series) == trueMag * series[i]
  {
    if series != [] && Stats.Median(series) != 0.0 {
      var median := Stats.Median(series);
      CalibratedMedian(trueMag, median, series);
      forall i | 0 <= i < |series|
        ensures Calibrate(trueMag, median, series)[i] * median == trueMag * series[i]
      {
        CalibrationOrder(trueMag, median, series, i, i);
      }
    }
  }

  lemma CoefficientTimesMedian(trueMag: real, median: real)
    requires median != 0.0
    ensures trueMag / median * median == trueMag
  {
  }

  /** Each calibrated value is the value times the catalogue magnitude over the median; with a
      positive coefficient the calibration keeps the order of any two frames, with a negative
      one it reverses it. */
  lemma CalibrationOrder(trueMag: real, median: real, series: seq<real>, i: int, j: int)
    requires median != 0.0
    requires 0 <= i < |series| && 0 <= j < |series|
    ensures var mags := Calibrate(trueMag, median, series);
      |mags| == |series| && mags[i] * median == trueMag * series[i] &&
      (trueMag / median > 0.0 ==> (mags[i] <= mags[j] <==> series[i] <= series[j])) &&
      (trueMag / median < 0.0 ==> (mags[i] <= mags[j] <==> series[j] <= series[i]))
  {
    var c := trueMag / median;
    var mags := Calibrate(trueMag, median, series);
    assert mags[i] == c * series[i] && mags[j] == c * series[j];
    assert mags[j] - mags[i] == c * (series[j] - series[i]);
    CoefficientTimesMedian(trueMag, median);
    assert mags[i] * median == trueMag * series[i] by {
      assert c * series[i] * median == (c * median) * series[i];
    }
  }

  /** Calibrating the calibrated series back, with the catalogue magnitude as median and the
      old median as magnitude, gives the original series. */
  lemma CalibrationRoundTrip(trueMag: real, median: real, series: seq<real>)
    requires median != 0.0 && trueMag != 0.0
    ensures Calibrate(median, trueMag, Calibrate(trueMag, median, series)) == series
  {
    var mags := Calibrate(trueMag, median, series);
    var back := Calibrate(median, trueMag, mags);
    forall i | 0 <= i < |series|
      ensures back[i] == series[i]
    {
      InverseCoefficients(trueMag, median, series[i]);
    }
  }

  lemma InverseCoefficients(trueMag: real, median: real, x: real)
    requires median != 0.0 && trueMag != 0.0
    ensures median / trueMag * (trueMag / median * x) == x
  {
    assert median / trueMag * (trueMag / median) == 1.0;
  }

  /** Average and median both lie between the minimum and the maximum, so their gap is at most
      the spread of the series. */
  lemma AverageMedianGapBound(s: seq<real>)
    requires |s| > 0
    ensures 0.0 <= AverageMedianGap(s) <= Stats.Max(s) - Stats.Min(s)
  {
    Stats.MeanWithinBounds(s);
    Stats.MedianWithinBounds(s);
  }

  /** A constant series has its average equal to its median. */
  lemma AverageMedianGapOfConstant(s: seq<real>, x: real)
    requires |s| > 0
    requires forall i :: 0 <= i < |s| ==> s[i] == x
    ensures AverageMedianGap(s) == 0.0
  {
    Stats.MeanOfConstant(s, x);
    Stats.MedianOfConstant(s, x);
  }
}
