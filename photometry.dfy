/** The flux arithmetic shared by the AstroImageJ scripts' `calculate_flux`: the background of
    a frame is the sky level per pixel times the number of sky pixels, it is subtracted from
    the source count, and the difference is divided by the exposure time of the first frame.
    Every step is a Python `map` over two lists, which stops at the shorter one. */
module Photometry {
  import opened Wrappers

  /** `EXPTIME.iloc[0]` on a table without rows raises an IndexError. */
  datatype FluxError = MissingRow

  /** The dates and the flux per second, as `calculate_flux` returns them. */
  datatype FluxSeries = FluxSeries(julianDates: seq<real>, flux: seq<real>)

  function MinLength(m: nat, n: nat): nat
  {
    if m <= n then m else n
  }

  /** `map(lambda pixel_value, num_pixels: pixel_value*num_pixels, sky, pixels)`. */
  function BackgroundCounts(skyPerPixel: seq<real>, skyPixels: seq<real>): seq<real>
  {
    seq(MinLength(|skyPerPixel|, |skyPixels|), i requires 0 <= i < MinLength(|skyPerPixel|, |skyPixels|) =>
      skyPerPixel[i] * skyPixels[i])
  }

  /** `map(lambda raw_value, bg_value: raw_value-bg_value, counts, background)`. */
  function Subtracted(counts: seq<real>, background: seq<real>): seq<real>
  {
    seq(MinLength(|counts|, |background|), i requires 0 <= i < MinLength(|counts|, |background|) =>
      counts[i] - background[i])
  }

  /** `map(lambda count: count/EXP_TIME, counts)`. */
  function PerSecond(counts: seq<real>, expTime: real): seq<real>
    requires expTime != 0.0
  {
    seq(|counts|, i requires 0 <= i < |counts| => counts[i] / expTime)
  }

  /** The three maps of `calculate_flux` for one exposure time. */
  function FluxFromCounts(counts: seq<real>, skyPerPixel: seq<real>, skyPixels: seq<real>, expTime: real): (r: seq<real>)
    requires expTime != 0.0
    ensures |r| == MinLength(|counts|, MinLength(|skyPerPixel|, |skyPixels|))
  {
    PerSecond(Subtracted(counts, BackgroundCounts(skyPerPixel, skyPixels)), expTime)
  }

  /** `calculate_flux` of the reference-star scripts once the table is read: the dates pass
      through, the exposure time is that of the first row. */
  function CalculateFlux(julianDates: seq<real>, counts: seq<real>, skyPerPixel: seq<real>,
                         skyPixels: seq<real>, expTimes: seq<real>): (r: Result<FluxSeries, FluxError>)
    requires |expTimes| > 0 ==> expTimes[0] != 0.0
    ensures r.Ok? <==> expTimes != []
    ensures r.Ok? ==> (r.value.julianDates == julianDates &&
      |r.value.flux| == MinLength(|counts|, MinLength(|skyPerPixel|, |skyPixels|)))
  {
    if expTimes == [] then Err(MissingRow)
    else Ok(FluxSeries(julianDates, FluxFromCounts(counts, skyPerPixel, skyPixels, expTimes[0])))
  }

  // ---------------------------------------------------------------------------------------
  // Properties

  /** Flux `i` is count `i` less the background of frame `i`, per second of the first
      exposure; the series is as long as the shortest of the three columns. */
  lemma FluxFromCountsAt(counts: seq<real>, skyPerPixel: seq<real>, skyPixels: seq<real>, expTime: real)
    requires expTime != 0.0
    ensures var flux := FluxFromCounts(counts, skyPerPixel, skyPixels, expTime);
      |flux| == MinLength(|counts|, MinLength(|skyPerPixel|, |skyPixels|)) &&
      forall i :: 0 <= i < |flux| ==>
        flux[i] == (counts[i] - skyPerPixel[i] * skyPixels[i]) / expTime
  {
  }

  /** The flux determines the counts again: each count is the flux times the exposure time
      plus the frame's background. */
  lemma CountsFromFlux(counts: seq<real>, skyPerPixel: seq<real>, skyPixels: seq<real>, expTime: real, i: int)
    requires expTime != 0.0
    requires 0 <= i < |FluxFromCounts(counts, skyPerPixel, skyPixels, expTime)|
    ensures counts[i] ==
      FluxFromCounts(counts, skyPerPixel, skyPixels, expTime)[i] * expTime + skyPerPixel[i] * skyPixels[i]
  {
    FluxFromCountsAt(counts, skyPerPixel, skyPixels, expTime);
    var d := counts[i] - skyPerPixel[i] * skyPixels[i];
    assert d / expTime * expTime == d;
  }

  /** `calculate_flux` fails exactly on a table without rows; otherwise the dates come back
      unchanged, and only the first row's exposure time is read. */
  lemma CalculateFluxShape(julianDates: seq<real>, counts: seq<real>, skyPerPixel: seq<real>,
                           skyPixels: seq<real>, expTimes: seq<real>)
    requires |expTimes| > 0 ==> expTimes[0] != 0.0
    ensures CalculateFlux(julianDates, counts, skyPerPixel, skyPixels, expTimes).Err? <==> expTimes == []
    ensures expTimes != [] ==>
      CalculateFlux(julianDates, counts, skyPerPixel, skyPixels, expTimes).value.julianDates == julianDates &&
      CalculateFlux(julianDates, counts, skyPerPixel, skyPixels, expTimes).value.flux ==
        CalculateFlux(julianDates, counts, skyPerPixel, skyPixels, [expTimes[0]]).value.flux
  {
  }

  /** With no background, counts of 100, 200 and 300 over 10 seconds give 10, 20 and 30. */
  lemma FluxExample()
    ensures CalculateFlux([1.0, 2.0, 3.0], [100.0, 200.0, 300.0], [0.0, 0.0, 0.0], [0.0, 0.0, 0.0],
      [10.0, 10.0, 10.0]) == Ok(FluxSeries([1.0, 2.0, 3.0], [10.0, 20.0, 30.0]))
  {
    var flux := FluxFromCounts([100.0, 200.0, 300.0], [0.0, 0.0, 0.0], [0.0, 0.0, 0.0], 10.0);
    FluxFromCountsAt([100.0, 200.0, 300.0], [0.0, 0.0, 0.0], [0.0, 0.0, 0.0], 10.0);
    assert flux == [10.0, 20.0, 30.0];
  }

  /** Over a positive exposure, frames keep their order: a frame with more background
      subtracted counts has more flux. */
  lemma FluxMonotone(counts: seq<real>, skyPerPixel: seq<real>, skyPixels: seq<real>, expTime: real, i: int, j: int)
    requires expTime > 0.0
    requires 0 <= i < |FluxFromCounts(counts, skyPerPixel, skyPixels, expTime)|
    requires 0 <= j < |FluxFromCounts(counts, skyPerPixel, skyPixels, expTime)|
    ensures var flux := FluxFromCounts(counts, skyPerPixel, skyPixels, expTime);
      flux[i] <= flux[j] <==>
        counts[i] - skyPerPixel[i] * skyPixels[i] <= counts[j] - skyPerPixel[j] * skyPixels[j]
  {
    FluxFromCountsAt(counts, skyPerPixel, skyPixels, expTime);
    var di := counts[i] - skyPerPixel[i] * skyPixels[i];
    var dj := counts[j] - skyPerPixel[j] * skyPixels[j];
    assert di / expTime <= dj / expTime <==> di <= dj by {
      if di <= dj {
        assert dj / expTime - di / expTime == (dj - di) / expTime;
      } else {
        assert di / expTime - dj / expTime == (di - dj) / expTime;
      }
    }
  }
}
