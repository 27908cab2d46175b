/** The reference-star script for AstroImageJ tables: the flux per second is derived from the
    table, and calibrated against the star's catalogue magnitude through its median. */
module RefLcAstroImageJ {
  import opened Wrappers
  import PyText
  import Stats
  import Photometry
  import Calibration

  datatype ScriptError =
    | BadTrueMag                             // `float(input(...))` on other text: ValueError
    | FluxFailed(Photometry.FluxError)
    | Numeric(Calibration.AdjustError)

  /** `main` once the table's columns are read: the magnitude text is parsed first, then the
      flux is derived and calibrated. */
  function MainResult(trueMagText: string, julianDates: seq<real>, counts: seq<real>, skyPerPixel: seq<real>,
                      skyPixels: seq<real>, expTimes: seq<real>): Result<Photometry.FluxSeries, ScriptError>
    requires |expTimes| > 0 ==> expTimes[0] != 0.0
  {
    match PyText.ParseFloat(trueMagText)
    case None => Err(BadTrueMag)
    case Some(trueMag) =>
      match Photometry.CalculateFlux(julianDates, counts, skyPerPixel, skyPixels, expTimes)
      case Err(e) => Err(FluxFailed(e))
      case Ok(series) =>
        match Calibration.AdjustByMedian(trueMag, series.flux)
        case Err(e) => Err(Numeric(e))
        case Ok(mags) => Ok(Photometry.FluxSeries(series.julianDates, mags))
  }

  /** A table whose columns have `n > 0` rows and whose flux has a nonzero median is calibrated
      in full: the dates pass through, there is one magnitude per row, and the magnitudes have
      the catalogue magnitude as median. */
  lemma {:induction false} MainCalibrates(trueMagText: string, julianDates: seq<real>, counts: seq<real>,
                                          skyPerPixel: seq<real>, skyPixels: seq<real>, expTimes: seq<real>, median: real)
    requires PyText.ParseFloat(trueMagText).Some?
    requires |expTimes| > 0 && expTimes[0] != 0.0
    requires |counts| == |skyPerPixel| == |skyPixels| == |expTimes|
    requires median == Stats.Median(Photometry.FluxFromCounts(counts, skyPerPixel, skyPixels, expTimes[0]))
    requires median != 0.0
    ensures MainResult(trueMagText, julianDates, counts, skyPerPixel, skyPixels, expTimes).Ok?
    ensures var r := MainResult(trueMagText, julianDates, counts, skyPerPixel, skyPixels, expTimes).value;
      var trueMag := PyText.ParseFloat(trueMagText).value;
      r.julianDates == julianDates && |r.flux| == |counts| && Stats.Median(r.flux) == trueMag
  {
    var flux := Photometry.FluxFromCounts(counts, skyPerPixel, skyPixels, expTimes[0]);
    var trueMag := PyText.ParseFloat(trueMagText).value;
    MainIsCalibration(trueMagText, julianDates, counts, skyPerPixel, skyPixels, expTimes, median);
    Calibration.CalibratedMedian(trueMag, median, flux);
  }

  /** With rows and a nonzero median flux, `main` is the calibration at that median of the
      flux, whose row `i` is the background-subtracted count of row `i` per second of the
      first exposure. */
  lemma {:induction false} MainIsCalibration(trueMagText: string, julianDates: seq<real>, counts: seq<real>,
                                             skyPerPixel: seq<real>, skyPixels: seq<real>, expTimes: seq<real>, median: real)
    requires PyText.ParseFloat(trueMagText).Some?
    requires |expTimes| > 0 && expTimes[0] != 0.0
    requires |counts| == |skyPerPixel| == |skyPixels| == |expTimes|
    requires median == Stats.Median(Photometry.FluxFromCounts(counts, skyPerPixel, skyPixels, expTimes[0]))
    requires median != 0.0
    ensures |Photometry.FluxFromCounts(counts, skyPerPixel, skyPixels, expTimes[0])| == |counts|
    ensures forall i :: 0 <= i < |counts| ==>
      Photometry.FluxFromCounts(counts, skyPerPixel, skyPixels, expTimes[0])[i] ==
        (counts[i] - skyPerPixel[i] * skyPixels[i]) / expTimes[0]
    ensures MainResult(trueMagText, julianDates, counts, skyPerPixel, skyPixels, expTimes) ==
      Ok(Photometry.FluxSeries(julianDates, Calibration.Calibrate(PyText.ParseFloat(trueMagText).value, median,
        Photometry.FluxFromCounts(counts, skyPerPixel, skyPixels, expTimes[0]))))
  {
    Photometry.FluxFromCountsAt(counts, skyPerPixel, skyPixels, expTimes[0]);
  }

  /** A table without rows raises at the exposure time; one whose flux has median zero stops
      at the infinite coefficient. */
  lemma MainErrors(trueMagText: string, julianDates: seq<real>, counts: seq<real>, skyPerPixel: seq<real>,
                   skyPixels: seq<real>, expTimes: seq<real>)
    requires PyText.ParseFloat(trueMagText).Some?
    requires |expTimes| > 0 ==> expTimes[0] != 0.0
    ensures expTimes == [] ==>
      MainResult(trueMagText, julianDates, counts, skyPerPixel, skyPixels, expTimes) == Err(FluxFailed(Photometry.MissingRow))
    ensures (expTimes != [] && |counts| == |skyPerPixel| == |skyPixels| == |expTimes| &&
      Stats.Median(Photometry.FluxFromCounts(counts, skyPerPixel, skyPixels, expTimes[0])) == 0.0) ==>
      (MainResult(trueMagText, julianDates, counts, skyPerPixel, skyPixels, expTimes) ==
        Err(Numeric(Calibration.ZeroMedian)))
  {
    if expTimes != [] && |counts| == |skyPerPixel| == |skyPixels| == |expTimes| {
      Photometry.FluxFromCountsAt(counts, skyPerPixel, skyPixels, expTimes[0]);
    }
  }
}
