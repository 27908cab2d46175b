/** The reference-star script that converts flux with a fitted power law: the figures it
    reports about the flux and the magnitudes, the power law itself aside. */
module RefCalculatedAstroImageJ {
  import opened Wrappers
  import Stats
  import Photometry

  /** `max` or `min` of an empty list: a ValueError. */
  datatype StatsError = EmptySeries

  /** `print_stats`: the maximum and the minimum magnitude, the maximum never below the
      minimum. */
  function PrintStats(mags: seq<real>): (r: Result<(real, real), StatsError>)
    ensures r.Ok? <==> mags != []
    ensures r.Ok? ==> (r.value.0 in mags && r.value.1 in mags &&
      forall i :: 0 <= i < |mags| ==> r.value.1 <= mags[i] <= r.value.0)
    ensures r.Ok? ==> r.value.1 <= r.value.0
  {
    if mags == [] then Err(EmptySeries) else Ok((Stats.Max(mags), Stats.Min(mags)))
  }

  /** The median line of `plot_flux_ligthcurve` lies between the smallest and the largest flux
      of a table with rows. */
  lemma {:induction false} FluxMedianWithinRange(counts: seq<real>, skyPerPixel: seq<real>, skyPixels: seq<real>, expTime: real)
    requires expTime != 0.0
    requires |counts| == |skyPerPixel| == |skyPixels| > 0
    ensures var flux := Photometry.FluxFromCounts(counts, skyPerPixel, skyPixels, expTime);
      |flux| == |counts| && Stats.Min(flux) <= Stats.Median(flux) <= Stats.Max(flux)
  {
    Photometry.FluxFromCountsAt(counts, skyPerPixel, skyPixels, expTime);
    Stats.MedianWithinBounds(Photometry.FluxFromCounts(counts, skyPerPixel, skyPixels, expTime));
  }
}
