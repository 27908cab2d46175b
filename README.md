# Variable-star photometry scripts: the sequence logic, in Dafny

This project models the computations shared by a set of small amateur-astronomy scripts and
proves properties of them. The scripts filter a variable-star catalog down to observable
candidates. They derive a target's flux per second from AstroImageJ measurement tables and
calibrate reference-star light curves against a catalogue magnitude. They shorten Julian dates
by an offset, turn relative magnitudes into magnitudes, and smooth light curves with a moving
average. A last script collects Siril `.dat` exports for conversion to comma-separated files.

Floats are modelled as exact `real`s, so rounding, infinities and NaN are not part of the model.
Table and file reading is replaced by already-split rows of text, or by already-parsed columns.
Each Python exception is modelled as an `Err` of a `Result`.

Modules, one per script or shared component:

- `Wrappers`: `Option` and `Result`.
- `Stats`: numpy's `median` (the median of the sorted permutation), `average`, and the
  builtins `max` and `min`. It proves `median(c·x) = c·median(x)` for a factor of either sign.
- `PyText`: the part of `int()`, `float()`, `str()` and `split(".")` the scripts apply to
  field text.
- `GetCandidates` (`get_candidates.py`): the two filtering loops, with each drop from the data
  frame modelled as a removal from a `seq` and each printed reason returned as a tag.
- `Smoothing` (`moving_average` in both binary-star scripts): numpy's `convolve(..., 'same')`
  of a uniform kernel, the trim, and the refill loop of `np.insert`.
- `Photometry` (the `calculate_flux` arithmetic of the AstroImageJ scripts): background,
  subtraction and division by the first row's exposure time, each a `map` that stops at the
  shorter list.
- `BinaryAstroImageJ` (`plot_binary_astroimagej.py`): the reference-star correction of the
  target counts, both flux series, and `print_stats`.
- `LightCurveFiles`: the shared read loop of the comma-separated light-curve scripts.
- `LightcurvesBinary` (`plot_lightcurves_binary.py`), `RefLcSiril` (`plot_ref_lc_siril.py`),
  `PlotLightcurves` (`plot_lightcurves.py`), `RefLcAstroImageJ` (`plot_ref_lc_astroimagej.py`),
  `RefCalculatedAstroImageJ` (`plot_ref_calculated_astroimagej.py`): each script's own steps.
- `Calibration`: `COEFF = truemag / median` scaling, shared by three scripts.
- `DatSeparation` (`change_dat_separation.py`): the module-level `TARGET_FILES` list as a
  class field, and the header drop and output naming.

Where the design description and the code disagree, the model follows the code:

- Declination: the code rejects a row only when `int(sign + str(deg)) < -40`. So 40 degrees
  south is kept and 41 south is dropped. The design description says 40 south and beyond is
  dropped.
- Period: the code has no lower period bound in `filter_dataframe`, only `period > 5.0`
  rejects. The design description lists a minimum period.
- Right ascension: the code compares the packed number `h*10000 + m*100 + s` with 0 and
  235959.9, not the hour alone.
- Moving average: the smoothed series keeps the input's length only when the input is longer
  than the window (for an even window). With the scripts' window of 20, fewer than 21 values
  raise. The design description claims the length is kept for any window up to the length.

## Model

| member | source | states |
|---|---|---|
| `Stats.Mean` | plot_ref_lc_siril.py:27 | `np.average`: the sum of the series over its length |
| `Stats.Median` | plot_ref_lc_siril.py:26 | `np.median`: the middle value of the sorted series, or the mean of the two middle values for an even length |
| `Stats.Max` | plot_ref_calculated_astroimagej.py:91 | `max` of a non-empty list is one of its elements and no element exceeds it |
| `Stats.Min` | plot_ref_calculated_astroimagej.py:92 | `min` of a non-empty list is one of its elements and no element is below it |
| `Stats.MinAtMostMax` | plot_ref_calculated_astroimagej.py:89-92 | the reported minimum is never above the reported maximum |
| `Stats.SortSorted` | plot_ref_lc_siril.py:26 | the sort behind the median returns a sorted permutation of the series |
| `Stats.MedianOfPermutation` | plot_ref_lc_siril.py:26 | the median can be read off any sorted permutation of the series |
| `Stats.MedianScale` | plot_ref_lc_siril.py:46-47 | median(c·s) = c·median(s) for every real c, negative c included |
| `Stats.MedianWithinBounds` | plot_ref_calculated_astroimagej.py:55 | the median lies between the minimum and the maximum |
| `Stats.MeanWithinBounds` | plot_ref_lc_siril.py:27 | `np.average` lies between the minimum and the maximum |
| `Stats.MeanDifference` | plot_binary_astroimagej.py:98 | the average of element-wise differences is the difference of the averages |
| `Stats.MedianOfConstant` | plot_binary_astroimagej.py:10 | a constant series has that constant as its median |
| `Stats.MeanOfConstant` | plot_ref_lc_siril.py:27 | a constant series has that constant as its average |
| `PyText.ParseInt` | get_candidates.py:42 | `int()` of plain decimal text: an optional sign, then at least one digit, or no value |
| `PyText.ParseFloat` | plot_lightcurves_binary.py:21-22 | `float()` of plain decimal text: an optional sign, digits, an optional '.' and digits, with at least one digit, or no value |
| `PyText.NatToStringRoundTrip` | get_candidates.py:42 | `int(str(n))` gives back a non-negative n |
| `PyText.SignedDigits` | get_candidates.py:42 | `int()` of '-' followed by digits that read as n gives -n; with '+' or no sign it gives n |
| `PyText.IntToStringRoundTrip` | get_candidates.py:42 | `int(str(i))` gives back any integer i |
| `PyText.BeforeDot` | plot_lightcurves_binary.py:19 | `s.split(".")[0]` is the longest prefix of s without '.', followed in s by a '.' when shorter than s |
| `PyText.IntegerPart` | plot_ref_lc_siril.py:18 | `int(s.split(".")[0])` of unsigned text is the value of its digits before the '.' |
| `GetCandidates.ExcludeRows` | get_candidates.py:28-35 | the first stage: the rows in order, each period-0 row logged as an invalid period and every other row kept (what it selects is proved by `ExcludeRowsSelects`) |
| `GetCandidates.DeclinationDeg` | get_candidates.py:42 | `int(row["DE-"] + str(row["DEd"]))`, or no value when that text does not parse |
| `GetCandidates.PackedRa` | get_candidates.py:44 | `RAh*10000 + RAm*100 + RAs` |
| `GetCandidates.Classify` | get_candidates.py:42-60 | the verdict of the elif chain on one row: the first broken constraint, none, or a failure when the declination text does not parse (proved by `ClassifyOk` and `FirstBrokenConstraint`) |
| `GetCandidates.ClassifyOk` | get_candidates.py:42 | a row's verdict is a failure exactly when its declination text does not parse |
| `GetCandidates.FilterRows` | get_candidates.py:38-61 | the second stage: each row classified in order, and kept or logged with its reason, or the failure of the first row whose declination does not parse |
| `GetCandidates.ExcludeInsufficientEntries` | get_candidates.py:28-35 | the loop that drops rows with period 0 from the rebound frame yields exactly `ExcludeRows` |
| `GetCandidates.ExcludeRowsSelects` | get_candidates.py:28-35 | the first stage keeps exactly the rows whose period is not 0, in order, and logs every other row as an invalid period |
| `GetCandidates.ExcludeRowsIdempotent` | get_candidates.py:28-35 | running the first stage on its own output removes nothing |
| `GetCandidates.DeclinationOfSignedDegrees` | get_candidates.py:42 | `int("-" + str(d))` is -d, so "-" with 0 gives 0; "+" gives d, and so does an empty sign string (which pandas does not deliver for a blank cell; see Left out) |
| `GetCandidates.DoubleSignFails` | get_candidates.py:42 | a negative degree after a sign makes `int()` raise |
| `GetCandidates.DeclinationLimit` | get_candidates.py:42-47 | with sign "-", a row is dropped for declination exactly when its degrees exceed 40, so -40 is kept |
| `GetCandidates.CheckConstraints` | get_candidates.py:42-60 | the loop body computes the declination and packed RA, then the elif chain, and equals `Classify` |
| `GetCandidates.FirstBrokenConstraint` | get_candidates.py:46-60 | each reason is logged exactly when all earlier tests pass and its own fails, in the order declination, RA, period, brightness |
| `GetCandidates.AcceptedIff` | get_candidates.py:46-60 | a row passes exactly when dec ≥ -40, 0 ≤ packed RA ≤ 235959.9, period ≤ 5.0 and both minima ≤ 8.0 |
| `GetCandidates.PackedRaOrder` | get_candidates.py:44 | with minutes and seconds in [0, 100), packed RA order is lexicographic (h, m, s) order |
| `GetCandidates.FilterDataframe` | get_candidates.py:38-61 | the loop that drops each failing row from the rebound frame yields exactly `FilterRows` |
| `GetCandidates.FilterRowsOkIff` | get_candidates.py:42 | the second stage raises exactly when some row's declination text does not parse |
| `GetCandidates.FilterRowsSelects` | get_candidates.py:38-61 | the second stage keeps exactly the rows breaking no constraint, in order, and logs every other row with its first broken constraint |
| `GetCandidates.FilterRowsIdempotent` | get_candidates.py:38-61 | filtering the candidates a second time removes nothing |
| `GetCandidates.SelectCandidates` | get_candidates.py:23-25 | `main` writes the second stage's survivors of the first stage's survivors, or fails when the second stage fails |
| `GetCandidates.CandidatesMeetConstraints` | get_candidates.py:10-25 | every written candidate is a catalog row with a nonzero period ≤ 5, dec ≥ -40, packed RA in range and both minima ≤ 8 |
| `Smoothing.ConvolveSame` | plot_lightcurves_binary.py:62 | the 'same' slice of the full convolution with the uniform kernel, with the operands swapped when the kernel is longer; it has max(N, W) values |
| `Smoothing.MovingAverageSpec` | plot_lightcurves_binary.py:60-69 | convolution, trim of W//2 values at each end, and W//2 copies of the first and last kept values, or the error the smoother raises; a result has max(N, W) values |
| `Smoothing.MovingAverage` | plot_lightcurves_binary.py:60-69 | convolve, trim and the `np.insert` refill loop yield exactly `MovingAverageSpec` |
| `Smoothing.RefillStep` | plot_lightcurves_binary.py:67-68 | one pass of the refill loop adds one copy of the first value in front and one of the last value at the end (inserting at `len-1` acts as an append) |
| `Smoothing.MovingAverageOkIff` | plot_lightcurves_binary.py:61-68 | smoothing succeeds exactly when both operands are non-empty and the window is odd or shorter than the series; the result has max(N, W) values |
| `Smoothing.WindowOfTwenty` | plot_binary_astroimagej.py:101-110 | with W = 20 smoothing succeeds exactly for N ≥ 21, and then returns N values |
| `Smoothing.ConvolveSameAt` | plot_lightcurves_binary.py:62 | entry k of `convolve(a, ones(w)/w, 'same')` is the zero-padded window sum ending at k + (min(N, W) - 1)//2, over w |
| `Smoothing.KeptValue` | plot_lightcurves_binary.py:62-64 | every value the trim keeps is the convolution entry at that index |
| `Smoothing.MovingAverageEdges` | plot_lightcurves_binary.py:66-68 | the first W//2 outputs equal output W//2 and the last W//2 equal output N-1-W//2 |
| `Smoothing.MovingAverageInterior` | plot_lightcurves_binary.py:61-64 | for N ≥ W, output k in W//2 .. N-W//2-1 is the mean of a[k-W//2 .. k-W//2+W-1] |
| `Smoothing.WindowOfTwentyInterior` | plot_binary_astroimagej.py:102-105 | with W = 20, output k in 10 .. N-11 is the mean of a[k-10 .. k+9] |
| `Smoothing.MovingAverageIsWindowMean` | plot_lightcurves_binary.py:61-68 | for N ≥ W, every output, padding included, is the mean of some full window of the input |
| `Smoothing.MovingAverageWithinBounds` | plot_binary_astroimagej.py:102-109 | for N ≥ W, every output lies between min(input) and max(input) |
| `Smoothing.MovingAverageOfConstant` | plot_binary_astroimagej.py:102-109 | a constant input of length ≥ W comes back unchanged |
| `Smoothing.MovingAverageShortOddWindow` | plot_lightcurves_binary.py:61-68 | a series shorter than an odd window yields W copies of sum(a)/W, because numpy centres on the kernel |
| `Photometry.FluxFromCounts` | plot_ref_lc_astroimagej.py:24-28 | the three `map`s: background, subtraction and division by the exposure time, with as many values as the shortest of the three columns |
| `Photometry.CalculateFlux` | plot_ref_lc_astroimagej.py:12-29 | `calculate_flux` once the table is read: it fails exactly on a table without rows, and otherwise returns the dates unchanged and one flux per row of the shortest column |
| `Photometry.FluxFromCountsAt` | plot_ref_calculated_astroimagej.py:47-51 | flux i = (count i - sky i · pixels i) / exposure, with the length of the shortest of the three columns |
| `Photometry.CountsFromFlux` | plot_ref_lc_astroimagej.py:24-28 | each count is recovered as flux · exposure + background, so the derivation loses nothing |
| `Photometry.CalculateFluxShape` | plot_ref_lc_astroimagej.py:12-29 | the derivation fails only on a table without rows; the dates come back unchanged and only row 0's exposure time is used |
| `Photometry.FluxExample` | plot_ref_lc_astroimagej.py:24-28 | counts [100, 200, 300], zero background and exposure 10 give [10, 20, 30] |
| `Photometry.FluxMonotone` | plot_ref_lc_astroimagej.py:26-28 | over a positive exposure, flux order is the order of the background-subtracted counts |
| `BinaryAstroImageJ.AdjustedCounts` | plot_binary_astroimagej.py:8-15 | `adjust_t1_source_counts`: it succeeds exactly when 0 < N ≤ len(C2), and then returns N+1 values starting with the raw T1[0] |
| `BinaryAstroImageJ.CalculateFluxBinary` | plot_binary_astroimagej.py:18-45 | the binary `calculate_flux` once the table is read: it fails exactly when the adjustment fails or there are no rows; the dates pass through and the raw flux has one value per row of the shortest column |
| `BinaryAstroImageJ.AdjustT1SourceCounts` | plot_binary_astroimagej.py:8-15 | the append loop yields exactly `AdjustedCounts`, and raises where the source indexes out of range |
| `BinaryAstroImageJ.AdjustedCountsShape` | plot_binary_astroimagej.py:9-14 | the adjustment succeeds exactly when 0 < N ≤ len(C2), and then returns N+1 values: raw T1[0], then the normalised counts |
| `BinaryAstroImageJ.NormalisedAt` | plot_binary_astroimagej.py:13-14 | normalised count i = T1[i] · median(C2) / C2[i] |
| `BinaryAstroImageJ.ConstantReferenceKeepsCounts` | plot_binary_astroimagej.py:10-14 | against a constant reference star each adjusted value equals the raw count it came from |
| `BinaryAstroImageJ.ShiftedFlux` | plot_binary_astroimagej.py:40-43 | flux of counts with one extra value in front pairs count i-1 with background i, with the length of the background |
| `BinaryAstroImageJ.AsWrittenFluxIsShifted` | plot_binary_astroimagej.py:28-45 | as written, the adjusted flux has N values, row 0 uses raw T1[0], and row i ≥ 1 pairs the adjusted count of frame i-1 with the background of frame i; the raw flux is aligned |
| `BinaryAstroImageJ.AsWrittenCounterexample` | plot_binary_astroimagej.py:28-44 | two frames, constant reference, no background: the adjusted flux is [10, 10] while the raw flux is [10, 20] |
| `BinaryAstroImageJ.AlignedFlux` | plot_binary_astroimagej.py:9-14 | with the aligned counts, flux i = (T1[i] · median(C2)/C2[i] - background i) / exposure |
| `BinaryAstroImageJ.AlignedConstantReference` | plot_binary_astroimagej.py:10-14 | with the aligned counts, a constant reference star leaves the adjusted flux equal to the raw flux |
| `BinaryAstroImageJ.Deviations` | plot_binary_astroimagej.py:90 | `MAGS - SMOOTHED_MAGS` raises exactly when the lengths differ and neither is 1; equal lengths subtract element-wise |
| `BinaryAstroImageJ.PrintStats` | plot_binary_astroimagej.py:89-98 | the figures `print_stats` prints: each reported maximum and minimum is a member of its series, and no minimum exceeds its maximum |
| `BinaryAstroImageJ.PrintStatsOk` | plot_binary_astroimagej.py:89-98 | `print_stats` gets through exactly when the series broadcast and neither is empty |
| `BinaryAstroImageJ.StatsOfSmoothed` | plot_binary_astroimagej.py:89-110 | for N ≥ 21 the smoothed series has N values, the average deviation is mean(MAGS) - mean(SMOOTHED), and the smoothed extremes lie within the magnitudes' extremes |
| `LightCurveFiles.ReadRow` | plot_lightcurves_binary.py:21-22 | one pass of the read loop: it succeeds only on a row with at least two fields, exactly two when the row is unpacked |
| `LightCurveFiles.ReadRows` | plot_lightcurves.py:12-15 | the read loop over all rows with a fixed date offset, stopping at the first row that raises |
| `LightCurveFiles.ReadPrefixed` | plot_lightcurves_binary.py:16-22 | the read loop whose offset is the integer part of the first row's date; a file without rows is an error |
| `LightCurveFiles.ReadRowOk` | plot_lightcurves_binary.py:21-22 | one pass succeeds exactly on a readable row, and yields (float(field 0) - offset, float(field 1)) |
| `LightCurveFiles.ReadRowsOk` | plot_lightcurves_binary.py:16-22 | the read loop succeeds exactly when every row is readable, and keeps one date and one magnitude per row in file order |
| `LightCurveFiles.ReadRowsErr` | plot_lightcurves_binary.py:16-22 | a failed read reports the first unreadable row with that row's own error |
| `LightCurveFiles.ExtraFieldsIgnored` | plot_lightcurves_binary.py:21-22 | fields after the second do not change what is read |
| `LightCurveFiles.ReadPrefixedOk` | plot_lightcurves_binary.py:16-21 | the prefixed read succeeds exactly when there are rows, the first date has an integer part and every row reads; every date uses that one prefix |
| `LightCurveFiles.FirstDateOffset` | plot_lightcurves_binary.py:18-21 | the first relative date is in [0, 1), and exactly 0 when the first date has no '.' |
| `LightCurveFiles.DateLessIntegerPart` | plot_ref_lc_siril.py:18-20 | `float(s) - int(s.split(".")[0])` of unsigned text is in [0, 1), and 0 without a '.' |
| `LightcurvesBinary.RelMagToMag` | plot_lightcurves_binary.py:42-43 | one magnitude: r · (-0.1595·r - 3.047) |
| `LightcurvesBinary.PlotLightcurves` | plot_lightcurves_binary.py:9-58 | `plot_lightcurves`: the prefixed read, the smoothed relative magnitudes, the magnitudes and their smoothing, or the first failure |
| `LightcurvesBinary.ReadLightCurve` | plot_lightcurves_binary.py:13-22 | the read loop that sets the prefix on i == 0 yields exactly `ReadPrefixed` |
| `LightcurvesBinary.ConvertToMags` | plot_lightcurves_binary.py:40-43 | the append loop yields one magnitude r·(-0.1595·r - 3.047) per relative magnitude, in order |
| `LightcurvesBinary.RelMagToMagDecreasing` | plot_lightcurves_binary.py:42-43 | above -9.5 a larger relative magnitude gives a smaller magnitude |
| `LightcurvesBinary.ConvertRelMagsOrder` | plot_lightcurves_binary.py:40-43 | the conversion keeps the length, reverses the order of frames above -9.5, and maps 0 to 0 |
| `LightcurvesBinary.PlotLightcurvesSteps` | plot_lightcurves_binary.py:9-58 | reading, smoothing the relative magnitudes, converting and smoothing the magnitudes yield exactly `PlotLightcurves` |
| `LightcurvesBinary.PlotLightcurvesOk` | plot_lightcurves_binary.py:16-54 | a readable file is plotted exactly when it has at least 21 rows, with one magnitude and one smoothed value per row |
| `Calibration.Calibrate` | plot_ref_lc_siril.py:46-47 | `COEFF*x` for every x with `COEFF = truemag / median`: one magnitude per value, with MAGS[i] · median = truemag · x[i] |
| `Calibration.AdjustByMedian` | plot_ref_lc_astroimagej.py:45-47 | calibration by the series' own median: it fails as empty exactly on an empty series, and otherwise keeps the length |
| `Calibration.AverageMedianGap` | plot_ref_lc_siril.py:29 | the printed `abs(average - median)`: non-negative, and one of the two differences |
| `Calibration.CalibratedMedian` | plot_ref_lc_siril.py:46-47 | scaling by truemag / median keeps the length and gives median(MAGS) = truemag |
| `Calibration.AdjustByMedianOk` | plot_ref_lc_astroimagej.py:45-47 | calibration succeeds exactly for a non-empty series with nonzero median; then MAGS[i] · median = truemag · x[i] and median(MAGS) = truemag |
| `Calibration.CalibrationOrder` | plot_lightcurves.py:41-42 | a positive coefficient keeps the order of any two frames, a negative one reverses it |
| `Calibration.CalibrationRoundTrip` | plot_lightcurves.py:41-42 | calibrating back with the roles of truemag and median swapped restores the series |
| `Calibration.AverageMedianGapBound` | plot_ref_lc_siril.py:26-29 | the printed abs(average - median) is at most max - min |
| `Calibration.AverageMedianGapOfConstant` | plot_lightcurves.py:20-23 | for a constant series the printed gap is 0 |
| `PlotLightcurves.MainResult` | plot_lightcurves.py:56-69 | what `main` computes: no magnitudes when the magnitude text is empty, otherwise the calibrated read, or the first failure |
| `PlotLightcurves.ReadLightCurve` | plot_lightcurves.py:10-15 | the unpacking read loop yields exactly `ReadRows` with offset 2460180 and exactly two fields per row |
| `PlotLightcurves.ReadLightCurveOk` | plot_lightcurves.py:12-15 | a file reads exactly when every row has two parsable fields; each date is its value - 2460180 and the magnitudes keep file order |
| `PlotLightcurves.UnpackingAgreesWithIndexing` | plot_lightcurves.py:12 | a file the unpacking loop reads is read the same way by indexing |
| `PlotLightcurves.ThirdFieldRejected` | plot_lightcurves.py:12 | a row with a third field raises on unpacking, where indexing would read it |
| `PlotLightcurves.RunScript` | plot_lightcurves.py:56-69 | `main`'s steps, in order, yield exactly `MainResult` |
| `PlotLightcurves.ScalingOnlyWithTrueMag` | plot_lightcurves.py:60-69 | calibrated magnitudes are produced exactly when the magnitude text is non-empty |
| `PlotLightcurves.MainCalibrates` | plot_lightcurves.py:41-42 | with a magnitude and a readable file, `main` calibrates exactly when the median is nonzero, giving one magnitude per row with median truemag |
| `PlotLightcurves.MainRejectsBadTrueMag` | plot_lightcurves.py:60-62 | non-numeric magnitude text stops `main` before the file is read |
| `RefLcSiril.MainResult` | plot_ref_lc_siril.py:61-72 | what `main` computes: the magnitude parsed, then the prefixed read (no values for a file without rows) calibrated by its median, or the first failure |
| `RefLcSiril.LightCurveReader.constructor` | plot_ref_lc_siril.py:6 | the module prefix starts at 0 |
| `RefLcSiril.LightCurveReader.PlotLightcurve` | plot_ref_lc_siril.py:8-21 | the read overwrites the module prefix from the first row and returns the prefixed read |
| `RefLcSiril.LightCurveReader.RunScript` | plot_ref_lc_siril.py:61-72 | `main` parses the magnitude, reads, calibrates; the prefix is untouched when the magnitude does not parse |
| `RefLcSiril.ReadWithPrefix` | plot_ref_lc_siril.py:9-21 | the loop returns the prefixed read and the prefix after it: the first row's integer part, or the old value when none was written |
| `RefLcSiril.ReadPrefixedLength` | plot_ref_lc_siril.py:15-21 | a file that reads gives one date and one relative magnitude per row |
| `RefLcSiril.MainCalibrates` | plot_ref_lc_siril.py:46-47 | a readable file is calibrated exactly when its median is nonzero, to one magnitude per row with median truemag |
| `RefLcSiril.MainErrors` | plot_ref_lc_siril.py:61-72 | a non-numeric magnitude fails before reading; an empty file stops at the empty median |
| `RefLcAstroImageJ.MainResult` | plot_ref_lc_astroimagej.py:61-72 | what `main` computes: the magnitude parsed, the flux derived, then calibrated by the flux median, or the first failure |
| `RefLcAstroImageJ.MainIsCalibration` | plot_ref_lc_astroimagej.py:24-47 | with rows and a nonzero median flux, `main` is the calibration of the flux, whose row i is (count i - background i) / exposure of row 0 |
| `RefLcAstroImageJ.MainCalibrates` | plot_ref_lc_astroimagej.py:45-47 | then the dates pass through, there is one magnitude per row, and median(MAGS) = truemag |
| `RefLcAstroImageJ.MainErrors` | plot_ref_lc_astroimagej.py:20-47 | a table without rows raises at the exposure time; a zero median flux stops at the coefficient |
| `RefCalculatedAstroImageJ.PrintStats` | plot_ref_calculated_astroimagej.py:89-92 | `print_stats` fails exactly on no magnitudes; it reports two members of the series that bound every value, the maximum never below the minimum |
| `RefCalculatedAstroImageJ.FluxMedianWithinRange` | plot_ref_calculated_astroimagej.py:47-55 | the plotted median flux lies between the smallest and largest flux, and there is one flux per row |
| `DatSeparation.DatPaths` | change_dat_separation.py:11-13 | the directory path of every listed name ending in ".dat", in listing order; never more paths than names |
| `DatSeparation.OutputPath` | change_dat_separation.py:20 | `file + ".csv"`: the input path followed by the suffix |
| `DatSeparation.DropHeader` | change_dat_separation.py:19 | `drop(index=0)`: it fails exactly on an empty table, and the first row followed by the result is the table |
| `DatSeparation.ConvertAll` | change_dat_separation.py:22-25 | `main`'s loop over the list, stopping at the first file that raises; a full run has one output per path |
| `DatSeparation.TargetFiles.constructor` | change_dat_separation.py:8 | `TARGET_FILES` starts empty |
| `DatSeparation.TargetFiles.GetTargetFiles` | change_dat_separation.py:10-13 | the loop appends `DatPaths(listing)` after the list's earlier contents, which are unchanged |
| `DatSeparation.TargetFiles.RunScript` | change_dat_separation.py:22-25 | `main` collects the targets, then converts every path on the whole list |
| `DatSeparation.ConvertEach` | change_dat_separation.py:24-25 | the conversion loop yields exactly `ConvertAll`, stopping at the first file that raises |
| `DatSeparation.DatPathsConcat` | change_dat_separation.py:11-13 | the paths of two listings one after the other are each listing's paths in that order |
| `DatSeparation.DatPathsMembers` | change_dat_separation.py:12-13 | a path is collected exactly when it is "lightcurves/auto_aperture/" + a listed name ending in ".dat" |
| `DatSeparation.DatPathsShape` | change_dat_separation.py:12-13 | every collected path starts with the directory and ends in ".dat"; there are no more paths than names |
| `DatSeparation.RepeatedCallDuplicates` | change_dat_separation.py:8-13 | a second call with the same listing adds every collected path again |
| `DatSeparation.OutputPathInjective` | change_dat_separation.py:20 | distinct inputs have distinct outputs, and "x.dat" is written to a name ending in ".dat.csv" |
| `DatSeparation.DropHeaderKeepsRest` | change_dat_separation.py:17-19 | dropping the header removes exactly the first row and keeps the rest in order |
| `DatSeparation.ConvertAllOk` | change_dat_separation.py:15-25 | a full run writes, for each target in order, its path + ".csv" holding its rows after the first |

## Findings

| source | as written | input that shows it | evidently intended | confidence | as-written member | corrected member |
|---|---|---|---|---|---|---|
| plot_binary_astroimagej.py:9-14 | `adjust_t1_source_counts` starts its list with the raw `T1[0]` and then appends N adjusted counts. `calculate_flux` pairs this N+1 list with the N backgrounds (line 40), so adjusted flux i ≥ 1 uses frame i-1's count and frame N-1's count is dropped | two frames, T1 = [100, 200], constant C2 = [1, 1], no background, exposure 10: adjusted flux [10, 10], raw flux [10, 20] | one adjusted count per frame, aligned with that frame's background, so a constant reference star gives the raw flux | not executed | `BinaryAstroImageJ.AsWrittenCounterexample` | `BinaryAstroImageJ.AlignedConstantReference` |

## Left out

- Reading files and tables (`open`, `pd.read_table`, `pd.read_csv`, `csv.reader`, the UTF-8 byte-order mark), `to_csv`, `os.listdir`, `input()` prompts and the `path.isfile` assertions are not modelled. The model takes already-split rows of text or already-parsed columns, a directory listing as a sequence of names, and files as a map from path to rows.
- Printing is not modelled. Each rejection message of the catalog filter is returned as a `Reason` tag in a log, and `print_stats` returns its figures.
- All plotting (`matplotlib`, `savefig`, `plt.show`) is left out.
- The logarithmic magnitude `-2.5*log10(flux/16468819)` is left out because Dafny has no logarithm. The smoother and the statistics are generic over `seq<real>`, so they apply to those magnitudes.
- The power law `2150.1*flux**-1.485` is left out because it has a non-integer exponent.
- `fitter.py` and its `curve_fit` fit are not part of this model; the fit is a foreign optimiser over the logarithmic model.
- `np.std` is left out because it needs a square root.
- Floats are exact reals: IEEE rounding is not modelled. Infinities and NaN from a division by zero are excluded by preconditions on nonzero exposure time, reference counts and median (`BinaryAstroImageJ.NonZeroReference`), or returned as `Calibration.ZeroMedian` / `Calibration.EmptySeries` where numpy would go on with NaN or infinity.
- NaN fields in the catalog (`NaN > 8.0` is false in Python) are not modelled, since reals have no NaN.
- `PyText.ParseFloat` and `PyText.ParseInt` accept only plain decimal text (optional sign, digits, optional '.' and digits). Whitespace, underscores, exponents, "inf" and "nan", which Python also accepts, are not modelled.
- `GetCandidates.CatalogRow` types the `DE-` column as a string. With `read_csv`'s defaults a blank sign cell becomes NaN, so `row["DE-"] + str(...)` at get_candidates.py:42 raises a TypeError. The model has no NaN sign: its empty sign string parses as a positive declination, which the script never sees.
- `GetCandidates.CatalogRow` types the `DEd` column as an integer. If pandas read it as floats, `str(12.0)` would give "12.0" and `int()` would raise; that case is not modelled.
- pandas index labels are not modelled: the data frame is a sequence of rows, and dropping a row removes it at its position.
- `DatSeparation.Convert` does not model space-separated tokenising or quoting; a file is already a sequence of rows of fields.
