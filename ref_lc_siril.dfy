/** The reference-star script for Siril exports: it reads dates and relative magnitudes,
    storing the integer part of the first date in a module-level prefix that the plot labels
    read later, and calibrates the relative magnitudes with the star's catalogue magnitude. */
module RefLcSiril {
  import opened Wrappers
  import PyText
  import Stats
  import opened Calibration
  import opened LightCurveFiles

  /** The script's module state. */
  class LightCurveReader {
    /** `JULIAN_DATE_PREFIX`, 0 when the module is loaded. */
    var julianDatePrefix: int

    constructor()
      ensures julianDatePrefix == 0
    {
      julianDatePrefix := 0;
    }

    /** `plot_lightcurve`'s read: the module prefix is overwritten from the first row, as
        `ReadWithPrefix` states. */
    method PlotLightcurve(rows: seq<seq<string>>) returns (r: Result<Series, ReadError>)
      modifies this
      ensures julianDatePrefix == PrefixAfter(rows, old(julianDatePrefix))
      ensures r == if rows == [] then Ok(Series([], [])) else ReadPrefixed(rows)
    {
      var prefix;
      r, prefix := ReadWithPrefix(rows, julianDatePrefix);
      julianDatePrefix := prefix;
    }

    /** `main`: parse the catalogue magnitude, read the file, calibrate. */
    method RunScript(trueMagText: string, rows: seq<seq<string>>) returns (r: Result<seq<real>, ScriptError>)
      modifies this
      ensures PyText.ParseFloat(trueMagText).None? ==> unchanged(this)
      ensures PyText.ParseFloat(trueMagText).Some? ==> julianDatePrefix == PrefixAfter(rows, old(julianDatePrefix))
      ensures r == MainResult(trueMagText, rows)
    {
      var trueMag := PyText.ParseFloat(trueMagText);
      if trueMag.None? {
        return Err(BadTrueMag);
      }
      var read := PlotLightcurve(rows);
      if read.Err? {
        return Err(ReadFailed(read.error));
      }
      var mags := Calibration.AdjustByMedian(trueMag.value, read.value.relMags);
      if mags.Err? {
        return Err(Numeric(mags.error));
      }
      return Ok(mags.value);
    }
  }

  /** The read loop of `plot_lightcurve`, with the module prefix passed in as `before` and
      handed back as `prefix`: the first row overwrites it, and every row appends its date less
      the prefix and its relative magnitude. A file without rows reads nothing and leaves the
      prefix as it was; a first row whose date has no integer part raises before the prefix is
      written, while any later failure leaves it written. */
  method ReadWithPrefix(rows: seq<seq<string>>, before: int) returns (r: Result<Series, ReadError>, prefix: int)
    ensures prefix == PrefixAfter(rows, before)
    ensures r == if rows == [] then Ok(Series([], [])) else ReadPrefixed(rows)
  {
    var julianDates: seq<real> := [];
    var relMags: seq<real> := [];
    var written: Option<int> := None;
    prefix := before;
    var i := 0;
    while i < |rows|
      invariant 0 <= i <= |rows|
      invariant i == 0 ==> written.None? && julianDates == [] && relMags == []
      invariant i > 0 ==> (written.Some? && RowPrefix(rows[0]) == Ok(written.value) &&
        Collect(RowResults(rows, written.value, false)[..i]) == Ok(Series(julianDates, relMags)))
      invariant prefix == if written.Some? then written.value else before
    {
      var entry := rows[i];
      if i == 0 {
        if |entry| == 0 {
          return Err(MissingField(0)), prefix;
        }
        var parsed := PyText.ParseInt(PyText.BeforeDot(entry[0]));
        if parsed.None? {
          return Err(BadNumber(0)), prefix;
        }
        written := Some(parsed.value);
        prefix := parsed.value;
        assert RowResults(rows, prefix, false)[..0] == [];
      }
      ghost var results := RowResults(rows, prefix, false);
      CollectStep(results, i);
      var values := ReadRow(entry, i, prefix, false);
      if values.Err? {
        CollectErrorPersists(results, i + 1);
        return Err(values.error), prefix;
      }
      julianDates := julianDates + [values.value.0];
      relMags := relMags + [values.value.1];
      i := i + 1;
    }
    if written.None? {
      return Ok(Series([], [])), prefix;
    }
    assert RowResults(rows, prefix, false)[..i] == RowResults(rows, prefix, false);
    return Ok(Series(julianDates, relMags)), prefix;
  }

  /** The module prefix after reading `rows`, starting from `before`. */
  function PrefixAfter(rows: seq<seq<string>>, before: int): int
  {
    if rows != [] && RowPrefix(rows[0]).Ok? then RowPrefix(rows[0]).value else before
  }

  /** What `main` computes for the magnitude text and the rows, the prefix aside. */
  function MainResult(trueMagText: string, rows: seq<seq<string>>): Result<seq<real>, ScriptError>
  {
    match PyText.ParseFloat(trueMagText)
    case None => Err(BadTrueMag)
    case Some(trueMag) =>
      var read := if rows == [] then Ok(Series([], [])) else ReadPrefixed(rows);
      match read
      case Err(e) => Err(ReadFailed(e))
      case Ok(series) =>
        match Calibration.AdjustByMedian(trueMag, series.relMags)
        case Err(e) => Err(Numeric(e))
        case Ok(mags) => Ok(mags)
  }

  // ---------------------------------------------------------------------------------------
  // Properties

  /** A readable file is calibrated exactly when the median of its relative magnitudes is
      nonzero, and then in full: one magnitude per row, with the catalogue magnitude as median
      (`MainResultOfRead` and `Calibration.AdjustByMedianOk` give each value). */
  lemma {:induction false} MainCalibrates(trueMagText: string, rows: seq<seq<string>>)
    requires PyText.ParseFloat(trueMagText).Some? && ReadPrefixed(rows).Ok?
    ensures var relMags := ReadPrefixed(rows).value.relMags;
      MainResult(trueMagText, rows).Ok? <==> Stats.Median(relMags) != 0.0
    ensures MainResult(trueMagText, rows).Ok? ==>
      var mags := MainResult(trueMagText, rows).value;
      |mags| == |rows| && Stats.Median(mags) == PyText.ParseFloat(trueMagText).value
  {
    var trueMag := PyText.ParseFloat(trueMagText).value;
    var relMags := ReadPrefixed(rows).value.relMags;
    ReadPrefixedLength(rows);
    MainResultOfRead(trueMagText, rows);
    Calibration.AdjustByMedianOk(trueMag, relMags);
  }

  /** Once the magnitude parses and the file reads, `main` is the adjustment of the relative
      magnitudes. */
  lemma {:induction false} MainResultOfRead(trueMagText: string, rows: seq<seq<string>>)
    requires PyText.ParseFloat(trueMagText).Some? && ReadPrefixed(rows).Ok?
    ensures var adjusted := Calibration.AdjustByMedian(PyText.ParseFloat(trueMagText).value,
                                                       ReadPrefixed(rows).value.relMags);
      MainResult(trueMagText, rows) == if adjusted.Ok? then Ok(adjusted.value) else Err(Numeric(adjusted.error))
  {
  }

  /** A file that reads has one relative magnitude per row. */
  lemma {:induction false} ReadPrefixedLength(rows: seq<seq<string>>)
    requires ReadPrefixed(rows).Ok?
    ensures |ReadPrefixed(rows).value.relMags| == |rows| && |ReadPrefixed(rows).value.julianDates| == |rows|
  {
    ReadPrefixedOk(rows);
    ReadRowsOk(rows, RowPrefix(rows[0]).value, false);
  }

  /** `main` rejects a catalogue magnitude that is not a number before it opens the file; a
      file without rows reads as empty and stops at the NaN median. */
  lemma {:induction false} MainErrors(trueMagText: string, rows: seq<seq<string>>)
    ensures PyText.ParseFloat(trueMagText).None? ==> MainResult(trueMagText, rows) == Err(BadTrueMag)
    ensures PyText.ParseFloat(trueMagText).Some? && rows == [] ==>
      MainResult(trueMagText, rows) == Err(Numeric(Calibration.EmptySeries))
  {
  }
}
