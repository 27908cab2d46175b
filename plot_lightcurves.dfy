/** The general light-curve script: every row is unpacked into a date and a relative magnitude,
    the dates are shortened by the fixed 2460180, and when a catalogue magnitude is entered the
    relative magnitudes are calibrated against their median. */
module PlotLightcurves {
  import opened Wrappers
  import PyText
  import Stats
  import opened Calibration
  import opened LightCurveFiles

  /** The Julian date every observation of the season starts with. */
  const JulianDateOffset: int := 2460180

  /** The read loop of `plot_lightcurve`: `for julian_date, relmag in file_reader` unpacks each
      row into exactly two fields, and the date is shortened by the fixed offset. */
  method ReadLightCurve(rows: seq<seq<string>>) returns (r: Result<Series, ReadError>)
    ensures r == ReadRows(rows, JulianDateOffset, true)
  {
    var julianDates: seq<real> := [];
    var relMags: seq<real> := [];
    ghost var results := RowResults(rows, JulianDateOffset, true);
    var i := 0;
    while i < |rows|
      invariant 0 <= i <= |rows|
      invariant Collect(results[..i]) == Ok(Series(julianDates, relMags))
    {
      CollectStep(results, i);
      var values := ReadRow(rows[i], i, JulianDateOffset, true);
      if values.Err? {
        CollectErrorPersists(results, i + 1);
        return Err(values.error);
      }
      julianDates := julianDates + [values.value.0];
      relMags := relMags + [values.value.1];
      i := i + 1;
    }
    assert results[..i] == results;
    return Ok(Series(julianDates, relMags));
  }

  /** What `main` computes: `None` when no catalogue magnitude was entered, else the
      calibrated magnitudes. The magnitude text is parsed before the file is read. */
  function MainResult(trueMagText: string, rows: seq<seq<string>>): Result<Option<seq<real>>, ScriptError>
  {
    if trueMagText != "" && PyText.ParseFloat(trueMagText).None? then Err(BadTrueMag)
    else match ReadRows(rows, JulianDateOffset, true)
      case Err(e) => Err(ReadFailed(e))
      case Ok(series) =>
        if trueMagText == "" then Ok(None)
        else match AdjustByMedian(PyText.ParseFloat(trueMagText).value, series.relMags)
          case Err(e) => Err(Numeric(e))
          case Ok(mags) => Ok(Some(mags))
  }

  /** `main` with the steps in the script's order. */
  method RunScript(trueMagText: string, rows: seq<seq<string>>) returns (r: Result<Option<seq<real>>, ScriptError>)
    ensures r == MainResult(trueMagText, rows)
  {
    var trueMag: Option<real> := None;
    if trueMagText != "" {
      trueMag := PyText.ParseFloat(trueMagText);
      if trueMag.None? {
        return Err(BadTrueMag);
      }
    }
    var read := ReadLightCurve(rows);
    if read.Err? {
      return Err(ReadFailed(read.error));
    }
    if trueMagText == "" {
      return Ok(None);
    }
    var mags := AdjustByMedian(trueMag.value, read.value.relMags);
    if mags.Err? {
      return Err(Numeric(mags.error));
    }
    return Ok(Some(mags.value));
  }

  // ---------------------------------------------------------------------------------------
  // Properties

  /** A file reads exactly when every row has exactly two fields and both parse; each date is
      then its value less 2460180, and the relative magnitudes keep the file's order. */
  lemma {:induction false} ReadLightCurveOk(rows: seq<seq<string>>)
    ensures ReadRows(rows, JulianDateOffset, true).Ok? <==>
      forall i :: 0 <= i < |rows| ==> |rows[i]| == 2 && Readable(rows[i], true)
    ensures ReadRows(rows, JulianDateOffset, true).Ok? ==>
      var series := ReadRows(rows, JulianDateOffset, true).value;
      |series.julianDates| == |rows| && |series.relMags| == |rows| &&
      forall i :: 0 <= i < |rows| ==>
        series.julianDates[i] == PyText.ParseFloat(rows[i][0]).value - 2460180.0 &&
        series.relMags[i] == PyText.ParseFloat(rows[i][1]).value
  {
    ReadRowsOk(rows, JulianDateOffset, true);
  }

  /** Unpacking is stricter than indexing: a file this script reads is read the same way when
      fields are taken by index, while a row with a third field only fails here. */
  lemma {:induction false} UnpackingAgreesWithIndexing(rows: seq<seq<string>>, offset: int)
    requires ReadRows(rows, offset, true).Ok?
    ensures ReadRows(rows, offset, false) == ReadRows(rows, offset, true)
  {
    ReadRowsOk(rows, offset, true);
    forall i | 0 <= i < |rows|
      ensures RowResults(rows, offset, false)[i] == RowResults(rows, offset, true)[i]
    {
      assert |rows[i]| == 2;
    }
    assert RowResults(rows, offset, false) == RowResults(rows, offset, true);
  }

  /** A third field makes the unpacking raise on that row. */
  lemma ThirdFieldRejected(row: seq<string>, i: nat, offset: int)
    requires |row| == 3
    ensures ReadRow(row, i, offset, true) == Err(WrongFieldCount(i))
    ensures Readable(row, false) ==> ReadRow(row, i, offset, false).Ok?
  {
  }

  /** Calibration happens exactly when a magnitude was entered. */
  lemma {:induction false} ScalingOnlyWithTrueMag(trueMagText: string, rows: seq<seq<string>>)
    requires MainResult(trueMagText, rows).Ok?
    ensures MainResult(trueMagText, rows).value.None? <==> trueMagText == ""
  {
  }

  /** With a magnitude entered and a readable file, `main` calibrates exactly when the median
      is nonzero, and then gives one magnitude per row with the entered magnitude as median. */
  lemma {:induction false} MainCalibrates(trueMagText: string, rows: seq<seq<string>>)
    requires trueMagText != "" && PyText.ParseFloat(trueMagText).Some?
    requires ReadRows(rows, JulianDateOffset, true).Ok?
    ensures var relMags := ReadRows(rows, JulianDateOffset, true).value.relMags;
      MainResult(trueMagText, rows).Ok? <==> rows != [] && Stats.Median(relMags) != 0.0
    ensures MainResult(trueMagText, rows).Ok? ==>
      MainResult(trueMagText, rows).value.Some? &&
      var mags := MainResult(trueMagText, rows).value.value;
      |mags| == |rows| && Stats.Median(mags) == PyText.ParseFloat(trueMagText).value
  {
    var relMags := ReadRows(rows, JulianDateOffset, true).value.relMags;
    ReadRowsOk(rows, JulianDateOffset, true);
    assert |relMags| == |rows|;
    AdjustByMedianOk(PyText.ParseFloat(trueMagText).value, relMags);
  }

  /** A magnitude that is not a number stops `main` before the file is read, whatever it holds. */
  lemma MainRejectsBadTrueMag(trueMagText: string, rows: seq<seq<string>>)
    requires trueMagText != "" && PyText.ParseFloat(trueMagText).None?
    ensures MainResult(trueMagText, rows) == Err(BadTrueMag)
  {
  }
}
