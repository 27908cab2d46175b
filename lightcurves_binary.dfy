/** The eclipsing-binary light-curve script for comma-separated exports: it reads the dates
    and relative magnitudes, shortening every date by the integer part of the first one,
    converts relative magnitudes to magnitudes with a fitted quadratic, and smooths both series
    with a window of 20. */
module LightcurvesBinary {
  import opened Wrappers
  import Stats
  import Smoothing
  import PyText
  import opened LightCurveFiles

  const MovingAverageWindowSize: nat := 20

  /** The read loop of `plot_lightcurves`: the first row fixes the local date prefix, and
      every row appends its date less the prefix and its relative magnitude. Without rows the
      prefix stays unbound and reading it for the axis label raises. */
  method ReadLightCurve(rows: seq<seq<string>>) returns (r: Result<Series, ReadError>)
    ensures r == ReadPrefixed(rows)
  {
    var julianDates: seq<real> := [];
    var relMags: seq<real> := [];
    var prefix: Option<int> := None;
    var i := 0;
    while i < |rows|
      invariant 0 <= i <= |rows|
      invariant i == 0 ==> prefix.None? && julianDates == [] && relMags == []
      invariant i > 0 ==> (prefix.Some? && RowPrefix(rows[0]) == Ok(prefix.value) &&
        Collect(RowResults(rows, prefix.value, false)[..i]) == Ok(Series(julianDates, relMags)))
    {
      var entry := rows[i];
      if i == 0 {
        if |entry| == 0 {
          return Err(MissingField(0));
        }
        var parsed := PyText.ParseInt(PyText.BeforeDot(entry[0]));
        if parsed.None? {
          return Err(BadNumber(0));
        }
        prefix := Some(parsed.value);
        assert RowResults(rows, prefix.value, false)[..0] == [];
      }
      ghost var results := RowResults(rows, prefix.value, false);
      CollectStep(results, i);
      var values := ReadRow(entry, i, prefix.value, false);
      if values.Err? {
        CollectErrorPersists(results, i + 1);
        return Err(values.error);
      }
      julianDates := julianDates + [values.value.0];
      relMags := relMags + [values.value.1];
      i := i + 1;
    }
    if prefix.None? {
      return Err(NoRows);
    }
    assert RowResults(rows, prefix.value, false)[..i] == RowResults(rows, prefix.value, false);
    return Ok(Series(julianDates, relMags));
  }

  /** `relmag * (-0.1595*relmag - 3.047)`. */
  function RelMagToMag(relMag: real): real
  {
    relMag * (-0.1595 * relMag - 3.047)
  }

  /** The magnitudes of a series of relative magnitudes, one per value and in order. */
  function ConvertRelMags(relMags: seq<real>): (mags: seq<real>)
  {
    seq(|relMags|, i requires 0 <= i < |relMags| => RelMagToMag(relMags[i]))
  }

  /** The loop of `plot_lightcurves` that appends one magnitude per relative magnitude. */
  method ConvertToMags(relMags: seq<real>) returns (mags: seq<real>)
    ensures mags == ConvertRelMags(relMags)
  {
    mags := [];
    var i := 0;
    while i < |relMags|
      invariant 0 <= i <= |relMags|
      invariant mags == ConvertRelMags(relMags[..i])
    {
      var conversionCoeff := -0.1595 * relMags[i] - 3.047;
      assert relMags[i] * conversionCoeff == RelMagToMag(relMags[i]);
      mags := mags + [relMags[i] * conversionCoeff];
      assert ConvertRelMags(relMags[..i + 1]) == ConvertRelMags(relMags[..i]) + [RelMagToMag(relMags[i])];
      i := i + 1;
    }
    assert relMags[..i] == relMags;
  }

  /** The conversion is a parabola opening downwards with its vertex near -9.55: above -9.5 a
      larger relative magnitude always gives a smaller magnitude. */
  lemma RelMagToMagDecreasing(r1: real, r2: real)
    requires -9.5 <= r1 < r2
    ensures RelMagToMag(r2) < RelMagToMag(r1)
  {
    assert RelMagToMag(r2) - RelMagToMag(r1) == (r2 - r1) * (-0.1595 * (r1 + r2) - 3.047);
    assert -0.1595 * (r1 + r2) - 3.047 < 0.0;
    assert (r2 - r1) * (-0.1595 * (r1 + r2) - 3.047) < 0.0;
  }

  /** The conversion reverses the order of any two frames whose relative magnitudes are above
      -9.5; a relative magnitude of 0 gives magnitude 0. */
  lemma ConvertRelMagsOrder(relMags: seq<real>, i: int, j: int)
    requires 0 <= i < |relMags| && 0 <= j < |relMags|
    requires relMags[i] >= -9.5 && relMags[j] >= -9.5
    ensures var mags := ConvertRelMags(relMags);
      |mags| == |relMags| &&
      (relMags[i] < relMags[j] <==> mags[j] < mags[i]) &&
      (relMags[i] == 0.0 ==> mags[i] == 0.0)
  {
    if relMags[i] < relMags[j] {
      RelMagToMagDecreasing(relMags[i], relMags[j]);
    } else if relMags[j] < relMags[i] {
      RelMagToMagDecreasing(relMags[j], relMags[i]);
    }
  }

  /** The outcome of `plot_lightcurves`: the magnitudes and their smoothed curve. */
  datatype Plotted = Plotted(series: Series, mags: seq<real>, smoothedMags: seq<real>)

  datatype PlotError = ReadFailed(ReadError) | SmoothingFailed(Smoothing.SmoothingError)

  /** `plot_lightcurves` once the rows are read: smooth the relative magnitudes, convert them,
      smooth the magnitudes. */
  function PlotLightcurves(rows: seq<seq<string>>): Result<Plotted, PlotError>
  {
    match ReadPrefixed(rows)
    case Err(e) => Err(ReadFailed(e))
    case Ok(series) =>
      match Smoothing.MovingAverageSpec(series.relMags, MovingAverageWindowSize)
      case Err(e) => Err(SmoothingFailed(e))
      case Ok(_) =>
        var mags := ConvertRelMags(series.relMags);
        match Smoothing.MovingAverageSpec(mags, MovingAverageWindowSize)
        case Err(e) => Err(SmoothingFailed(e))
        case Ok(smoothed) => Ok(Plotted(series, mags, smoothed))
  }

  /** The steps of `plot_lightcurves` in order, each proved against its specification. */
  method PlotLightcurvesSteps(rows: seq<seq<string>>) returns (r: Result<Plotted, PlotError>)
    ensures r == PlotLightcurves(rows)
  {
    var read := ReadLightCurve(rows);
    if read.Err? {
      return Err(ReadFailed(read.error));
    }
    var series := read.value;
    var smoothedRelMags := Smoothing.MovingAverage(series.relMags, MovingAverageWindowSize);
    if smoothedRelMags.Err? {
      return Err(SmoothingFailed(smoothedRelMags.error));
    }
    var mags := ConvertToMags(series.relMags);
    var smoothedMags := Smoothing.MovingAverage(mags, MovingAverageWindowSize);
    if smoothedMags.Err? {
      return Err(SmoothingFailed(smoothedMags.error));
    }
    return Ok(Plotted(series, mags, smoothedMags.value));
  }

  /** A readable file is plotted exactly when it has at least 21 rows, as the smoother raises
      on fewer; then there is one magnitude per row, converted from that row's relative
      magnitude, and a smoothed curve of the same length. */
  lemma PlotLightcurvesOk(rows: seq<seq<string>>)
    requires ReadPrefixed(rows).Ok?
    ensures PlotLightcurves(rows).Ok? <==> |rows| >= 21
    ensures PlotLightcurves(rows).Ok? ==>
      var p := PlotLightcurves(rows).value;
      p.series == ReadPrefixed(rows).value &&
      |p.mags| == |rows| && |p.smoothedMags| == |rows| &&
      forall i :: 0 <= i < |rows| ==> p.mags[i] == RelMagToMag(p.series.relMags[i])
  {
    ReadPrefixedOk(rows);
    var series := ReadPrefixed(rows).value;
    ReadRowsOk(rows, RowPrefix(rows[0]).value, false);
    Smoothing.WindowOfTwenty(series.relMags);
    Smoothing.WindowOfTwenty(ConvertRelMags(series.relMags));
  }
}
