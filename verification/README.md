# Spectral features of current waveforms

A Dafny model of the spectral-feature core of `features/spectral.py` in the
CREAM feature study. The core turns batches of current measurements, rows of
samples at 6400 measurements per second on a 50 Hz mains, into spectral
features. It covers the following:

- the FFT window, whose default is the largest power of two that fits a row
  and which can be recovered from a spectrum's width;
- the bin-to-frequency map of a real FFT;
- the selector of the bins nearest to the harmonics of the power frequency,
  and the harmonic amplitudes it gathers from a spectrum;
- the mains-frequency amplitude: a per-row peak pick and majority vote,
  followed by an exact-bin lookup that fails when no bin matches;
- the piecewise high-pass filter (`zero`, `linear`, `quadratic`, `none`) and
  the high-frequency spectral mean;
- the index-selection feature formulas: the odd-even ratio, the
  tristimulus, the second harmonic, the harmonics energy distribution (HED),
  the total harmonic distortion (THD) and the signal-to-signal-mean ratio
  (SSMR).

Amplitudes and frequencies are Dafny `real`s, an exact idealisation of
float64. A matrix is a `Grid` of rows with a recorded width, restricted to
rectangular grids, so an empty batch still has a shape. A feature with
shape (n, 1) is a sequence with one entry per row. The code's own
`ValueError`s (`InvalidMainsFrequency`, `UnsupportedFilterType`) and numpy's
broadcast error (`BroadcastMismatch`) become `Result` values; the other
errors numpy or Python raise become preconditions. HED and THD divide by an (n, 1) mains
column, so numpy broadcasts over the row counts. Equal counts divide row by
row, and an operand with one row is stretched over the other's rows. Any
other pair of counts is a `BroadcastMismatch`.

The keyword defaults of the source are Dafny default parameters:
n = 20, `limit_to_harmonics` = true, window = None, the 50 Hz power
frequency and the 6400 Hz sampling rate, filter type "zero" and a 1000 Hz
filter frequency. `HighPass.DefaultHighFrequencyMeanZeroesBelow1000Hz` states
what the defaults of `high_frequency_spectral_mean` compute.

The FFT with its normalisation (`normalize`, `np.abs(fft.rfft(...))`) and
the root-mean-square are parameters of the model. They are not interpreted.
`Harmonics.Spectrum` is that parameter applied to the truncated rows; its
property is stated by `Harmonics.SpectrumReadsOnlyWindow`.

Modules, one per file:

- `Wrappers` and `Errors` (`wrappers.dfy`): `Option`, `Result` and the error
  type.
- `Matrices`: grids, sums and means, first argmin and argmax, column
  selection and the row-broadcast divide.
- `Window`: `_get_default_window` and `_get_window_from_spectrum`.
- `Frequencies`: `rfftfreq`, `_get_harmonics_indices` and
  `spectral_frequencies`.
- `Harmonics`: `spectrum` and `harmonics`.
- `Mains`: `_peak_amplitude_frequency` and `_mains_frequency_amplitude`.
- `HighPass`: `high_pass_filter` and `high_frequency_spectral_mean`.
- `Features`: the feature formulas.

Where the doc-comments and the code disagree, the model follows the code:

- `odd_even_ratio` divides x1 by x2, because its index sets use step 20.
- The tristimulus T3 sums x5..x9, the slice 4:9.
- The linear filter gain is f / cutoff, not 1/f.

Both of the first two are listed under Findings below.

## Model

| member | source | states |
|---|---|---|
| Window.FloorLog2 | features/spectral.py:29 | the integer floor of log2 n: 2^k <= n < 2^(k+1) |
| Window.DefaultWindow | features/spectral.py:16-29 | for a non-empty row of length L the window is a power of two w with w <= L < 2w; for an empty row it is 0 |
| Window.DefaultWindowUnique | features/spectral.py:16-29 | the default window is the only power of two p with p <= L < 2p |
| Window.DefaultWindowOfTwoSeconds | features/spectral.py:19-21 | a two-second interval of 12800 samples gets window 8192 |
| Window.DefaultWindowEven | features/spectral.py:16-29 | for a row of at least two samples the default window is even and at least 2 |
| Window.ResolveWindow | features/spectral.py:58-59 | a given window is used as is; for `None` it is 0 for an empty row, and otherwise the power of two w with w <= L < 2w |
| Window.WindowFromSpectrum | features/spectral.py:32-36 | the recovered window is even, and its real FFT has exactly `width` bins |
| Window.WindowFromSpectrumInverts | features/spectral.py:32-36 | for an even window w, recovering the window from the width w/2+1 gives back w |
| Frequencies.BinFrequencies | features/spectral.py:79 | the frequency map of a window w has w//2+1 entries, and none for a negative window |
| Frequencies.BinFrequencyValue | features/spectral.py:79 | bin k lies at exactly k * sampling_rate / w Hz |
| Frequencies.BinFrequenciesIncreasing | features/spectral.py:79 | the map starts at 0 Hz and is strictly increasing for a positive sampling rate |
| Frequencies.BinFrequenciesNonNegative | features/spectral.py:79 | no bin frequency is negative for a non-negative sampling rate |
| Frequencies.LastBinIsNyquist | features/spectral.py:79 | for an even window the last bin is half the sampling rate |
| Frequencies.WindowRoundTrip | features/spectral.py:32-36 | window to bin count to window is the identity on even windows, and the map of a recovered window has the spectrum's width |
| Frequencies.Clamp | features/spectral.py:91 | a negative bin frequency becomes 0 and any other frequency is kept |
| Frequencies.HarmonicIndices | features/spectral.py:86-92 | exactly n indices; index i is the first bin whose clamped frequency is nearest to (i+1) * power_frequency |
| Frequencies.NearestBinUnique | features/spectral.py:92 | the first nearest bin is unique, so the tie-break determines the selection |
| Frequencies.NearestBinOfExactFrequency | features/spectral.py:91-92 | on a non-negative, strictly increasing map, a target equal to a bin's frequency selects that bin |
| Frequencies.HarmonicIndexOfExactBin | features/spectral.py:86-92 | when harmonic i falls exactly on bin k of the map, the selector returns k for it |
| Frequencies.FundamentalAtBin64 | features/spectral.py:79-92 | with window 8192 at 6400 Hz, bin 64 is 50 Hz and it is the fundamental's index |
| Frequencies.SpectralFrequencies | features/spectral.py:65-83 | the full map when not limited; otherwise n frequencies, each the frequency of the nearest bin to its harmonic |
| Harmonics.SpectrumReadsOnlyWindow | features/spectral.py:39-62 | the spectrum depends only on the first window samples of each row: batches of the same shape that agree there have the same spectrum |
| Harmonics.Truncate | features/spectral.py:61 | every row keeps its first min(window, row length) samples |
| Harmonics.HarmonicColumns | features/spectral.py:121-122 | one row per spectrum row and n columns |
| Harmonics.HarmonicColumnsAreNearestBins | features/spectral.py:118-122 | column i of every row is the spectrum value at the nearest bin to the (i+1)-th harmonic |
| Harmonics.Harmonics | features/spectral.py:95-122 | the harmonics of a batch have one row per spectrum row and n columns, after the window is resolved as `spectrum` resolves it |
| Harmonics.HarmonicsAreNearestBins | features/spectral.py:95-122 | harmonic i of every row is the spectrum value at the first bin nearest to (i+1) * power_frequency for the resolved window |
| Harmonics.HarmonicOfExactBin | features/spectral.py:114-122 | a harmonic that falls exactly on bin k reads spectrum column k in every row |
| Harmonics.FundamentalColumnAtBin64 | features/spectral.py:118-122 | on a spectrum of window 8192 the first harmonic is column 64 |
| Harmonics.FundamentalOfTwoSecondInterval | features/spectral.py:95-122 | for 12800-sample rows and the default window, the first harmonic is spectrum column 64 |
| Matrices.ArgMin | features/spectral.py:92 | the first index holding the minimum |
| Matrices.ArgMax | features/spectral.py:139 | the first index holding the maximum |
| Matrices.FirstIndexOf | features/spectral.py:177-180 | the first index equal to the value, and None exactly when the value is absent |
| Matrices.Column | features/spectral.py:182 | the (n, 1) column of entry k of every row |
| Matrices.SelectColumns | features/spectral.py:122 | row i, column j of the result is row i at the j-th selected index |
| Matrices.BroadcastRows | features/spectral.py:241 | numpy's broadcast of two row counts: defined exactly when they are equal or one of them is 1, and then it is the other count (1 when both are 1) |
| Matrices.BroadcastDivide | features/spectral.py:241 | the broadcast row count and the matrix's width; entry (i, j) times the divisor of row i (the only divisor when there is one) gives entry j of matrix row i (the only row when there is one) |
| Matrices.BroadcastDivideColumn | features/spectral.py:285 | the same broadcast for an (n, 1) column over an (m, 1) divisor |
| Mains.PeakFrequencies | features/spectral.py:139-142 | each row's peak frequency is the frequency of the row's first maximal bin |
| Mains.VoteAmong | features/spectral.py:144-145 | the winner among a prefix is in that prefix, and no entry of it is more frequent, or as frequent and smaller |
| Mains.MostCommon | features/spectral.py:144-145 | a most frequent value, the smallest among equally frequent ones |
| Mains.SmallestModeUnique | features/spectral.py:144-145 | at most one value meets the vote's specification |
| Mains.MostCommonIgnoresOrder | features/spectral.py:144-145 | the vote depends only on how often each peak occurs, not on the row order |
| Mains.PeakAmplitudeFrequency | features/spectral.py:125-145 | the most common per-row peak frequency, ties to the smallest |
| Mains.PeakAmplitudeFrequencyIsARowPeak | features/spectral.py:139-145 | the voted frequency is the first peak frequency of some row |
| Mains.MainsTarget | features/spectral.py:173-174 | the frequency the lookup searches for: the caller's mains frequency, or for `None` the smallest most common per-row peak frequency |
| Mains.SpectrumFrequencies | features/spectral.py:167-171 | the frequency map recovered from a spectrum has one entry per bin |
| Mains.MainsFrequencyAmplitude | features/spectral.py:148-182 | Ok exactly when the mains frequency (or, for None, the voted peak) is a bin frequency, giving each row's value at the first such bin; otherwise InvalidMainsFrequency carrying that frequency |
| Mains.ConstantSpectrumMainsAmplitude | features/spectral.py:167-182 | a constant-2.0 spectrum of window 8192 has mains amplitude 2.0 in every row |
| Mains.ThirteenHertzIsRejected | features/spectral.py:176-180 | 13 Hz is no bin of window 8192, so the lookup fails instead of interpolating |
| HighPass.ParseFilterType | features/spectral.py:391-403 | Ok exactly for "zero", "linear", "quadratic" and "none"; otherwise UnsupportedFilterType with the given name |
| HighPass.Gain | features/spectral.py:391-400 | gain 1 for none and at or above the cutoff; below it, 0 for zero, f/cutoff for linear and (f/cutoff)^2 for quadratic; within [0, 1] for a positive cutoff |
| HighPass.FilterFrequencies | features/spectral.py:388-389 | the filter's frequencies use the default sampling rate, one per bin, none negative |
| HighPass.FilterFrequencyValue | features/spectral.py:388-389 | bin k of the filter's frequencies is k times the default sampling rate over the window the spectrum width comes from |
| HighPass.HighPassFilter | features/spectral.py:366-405 | the same shape, every bin scaled by its filter gain; fails exactly for an unknown filter type |
| HighPass.NoFilterIsIdentity | features/spectral.py:399-400 | filter type "none" returns the spectrum unchanged |
| HighPass.ZeroFilterStopsBelowCutoff | features/spectral.py:391-392 | "zero" sets bins below the cutoff to 0 and leaves the others unchanged |
| HighPass.PassbandUnchanged | features/spectral.py:391-405 | every filter leaves the bins at or above the cutoff unchanged |
| HighPass.FilterAttenuates | features/spectral.py:391-405 | with a positive cutoff a non-negative amplitude stays non-negative and does not grow |
| HighPass.HighFrequencySpectralMean | features/spectral.py:452-474 | the mean of every filtered row; fails exactly as the filter does |
| HighPass.DefaultHighFrequencyMeanZeroesBelow1000Hz | features/spectral.py:452-474 | with the default arguments the mean averages each row with its bins below 1000 Hz zeroed and the others kept |
| HighPass.HighFrequencyMeanBounds | features/spectral.py:452-474 | for a non-negative row and a positive cutoff, the high-frequency mean is between 0 and the plain mean, and equals it for "none" |
| Features.Arange | features/spectral.py:200 | every index of `np.arange(start, stop, step)` lies in [start, stop), and the next index after the last one is at or past stop, so no index below stop is missing |
| Features.ArangeValues | features/spectral.py:200 | entry j of `np.arange(start, stop, step)` is start + j * step |
| Features.OddEvenIndexSetsAsWritten | features/spectral.py:200 | with step 20 the two index sets are [0] and [1] |
| Features.OddEvenRatioOfRow | features/spectral.py:200-202 | the odd-even ratio of a row as written is x1 / x2 |
| Features.OddEvenRatio | features/spectral.py:185-202 | one ratio x1 / x2 per row |
| Features.OddEvenIndexSetsCorrected | features/spectral.py:188-192 | with step 2 the index sets are the ten columns 2j and the ten columns 2j+1 |
| Features.OddEvenRatioOfRowCorrected | features/spectral.py:188-192 | the mean of the odd harmonics over the mean of the even harmonics |
| Features.OddEvenRatioCorrected | features/spectral.py:188-192 | one documented odd-even ratio per row |
| Features.OddEvenRatioIgnoresHigherHarmonics | features/spectral.py:200-202 | on the row `OddHeavyHarmonics` (x1 = x2 = 1, x3, x5, ..., x19 = 3, x4, x6, ..., x20 = 1) the ratio as written is 1, while the documented ratio is 2.8 |
| Features.TristimulusOfRow | features/spectral.py:260-265 | T1 = x1/S, T2 = (x2+x3+x4)/S and T3 = (x5..x9)/S, with S the sum of all harmonics |
| Features.Tristimulus | features/spectral.py:244-265 | an (n, 3) matrix holding each row's tristimulus |
| Features.BandsCoverPrefix | features/spectral.py:260-263 | the three bands cover the row's prefix without overlap |
| Features.TristimulusBounds | features/spectral.py:260-265 | for non-negative harmonics with a positive sum, each T is non-negative and T1+T2+T3 <= 1, with equality for at most nine harmonics |
| Features.TristimulusOfRowCorrected | features/spectral.py:250-252 | T1 = x1/S, T2 = (x2+x3+x4)/S and T3 = (x5..x10)/S, so the three values add up to the first ten harmonics over S |
| Features.TristimulusMissesTenthHarmonic | features/spectral.py:263 | on a row whose only non-zero harmonic is the tenth, the values as written sum to 0 and the documented ones to 1 |
| Features.SecondHarmonic | features/spectral.py:351-363 | one entry per row |
| Features.SecondHarmonicIsNearestBin | features/spectral.py:351-363 | the second harmonic is each row's amplitude at the first bin nearest to twice the power frequency |
| Features.SecondHarmonicAtBin128 | features/spectral.py:351-363 | on a spectrum of window 8192 the second harmonic is column 128, at 100 Hz |
| Features.DefaultMainsAmplitude | features/spectral.py:241 | the default lookup succeeds exactly when 50 Hz is a bin at 6400 Hz sampling, giving each row's value at the first such bin; otherwise InvalidMainsFrequency(50) |
| Features.HarmonicsEnergyDistribution | features/spectral.py:224-241 | Ok exactly when the mains lookup succeeds and the row counts broadcast. A failed lookup's error comes first; otherwise the failure is BroadcastMismatch with both counts. On success there are broadcast-count rows of the harmonics' width, and each entry times its row's mains amplitude is the matching harmonic amplitude, with a one-row operand stretched |
| Features.DivideByMains | features/spectral.py:241 | the division step of HED for a known mains column: Ok exactly when the row counts broadcast, otherwise BroadcastMismatch with both counts; each entry times its row's mains amplitude is the matching harmonic amplitude |
| Features.EnergyDistributionOfOneRowSpectrum | features/spectral.py:241 | against a one-row spectrum whose 50 Hz lookup succeeds, the HED has one row per harmonics row, each divided by that single mains amplitude |
| Features.EnergyDistributionOfOneRowHarmonics | features/spectral.py:241 | one harmonics row against a k-row spectrum whose lookup succeeds gives k rows, row i being that harmonics row over row i's mains amplitude |
| Features.EnergyDistributionRejectsMismatchedRows | features/spectral.py:241 | two harmonics rows against a three-row spectrum fail with BroadcastMismatch(2, 3) when the lookup succeeds |
| Features.FundamentalIsMainsAmplitude | features/spectral.py:241 | when 50 Hz is a bin, the first harmonic of a spectrum is its mains amplitude |
| Features.FundamentalEnergyShareIsOne | features/spectral.py:224-241 | when the harmonics come from the same spectrum and 50 Hz is a bin, the fundamental's HED entry is 1 in every row |
| Features.TotalHarmonicDistortion | features/spectral.py:268-285 | fails exactly as HED does (the lookup error first, then BroadcastMismatch); on success there are broadcast-count entries, and each entry times its row's mains amplitude is the rms of the matching harmonics row |
| Features.RmsOverMains | features/spectral.py:285 | the division step of THD for a known mains column: Ok exactly when the row counts broadcast, otherwise BroadcastMismatch; each entry times its row's mains amplitude is the rms of the matching harmonics row |
| Features.SignalToSignalMeanRatio | features/spectral.py:332-348 | each row's ratio times its mean is the row's maximum |
| Features.SignalToSignalMeanRatioBounds | features/spectral.py:332-348 | for a non-negative row with a positive sum, the SSMR lies between 1 and the number of bins |

## Left out

- `fft.rfft` and `normalize` are foreign calls. The magnitude spectrum is a parameter `magnitude: Matrix -> Matrix`. `Harmonics.Harmonics` requires it to return the `window / 2 + 1` bins a real FFT produces.
- Harmonics.Harmonics: a window longer than the row, whose spectrum has fewer bins than the frequency map, is not modelled.
- `rms` from `features.helpers` is a parameter `rowRms` of `Features.TotalHarmonicDistortion`, not a definition.
- Floating-point rounding and `np.log2`/`np.floor` are not modelled. Amplitudes and frequencies are exact reals, and the default window is an integer power-of-two characterisation.
- Division by zero in numpy yields inf or NaN rather than an error. Each division is therefore guarded by a precondition:
  - a non-zero x2 for the odd-even ratio;
  - a non-zero row sum for the tristimulus and the SSMR;
  - a non-zero mains amplitude for HED and THD.
- Several numpy exceptions are preconditions rather than error values:
  - `rfftfreq(0)` raises ZeroDivisionError, which happens for a window of 0 or a spectrum of width 1;
  - `np.dstack` raises on an empty list (n = 0);
  - `np.argmax` and `np.argmin` raise on empty inputs;
  - numpy raises IndexError for columns beyond a row.
- HighPass.HighFrequencySpectralMean: requires a width of at least 2. For width 0 the source returns NaN means for a known filter type and raises for an unknown one. NaN has no `real` counterpart, so that case is not modelled. Width 1 implies window 0, where `rfftfreq` divides by zero.
- `_mains_frequency_amplitude` takes a `power_frequency` argument but only passes it to `spectral_frequencies` with `limit_to_harmonics=False`, where it has no effect. It is dropped from the model.
- `high_pass_filter` always uses the default sampling rate for its frequencies, so the model fixes it as a constant (`HighPass.FilterFrequencies`).
- The `all=True` result of `_peak_amplitude_frequency` is `Mains.PeakFrequencies`.
- `spectral_flatness` and `high_frequency_spectral_flatness` are not part of this model: the epsilon clamp and the geometric mean need nth roots.
- `spectral_centroid`, `harmonic_spectral_centroid` and `high_frequency_spectral_centroid` are not part of this model. They take the window from the raw current rather than from the spectrum.
- `features/helpers.py` is not part of this model.
- Features.SecondHarmonic: its own contract states only the shape. Its meaning is stated by `Features.SecondHarmonicIsNearestBin` and `Features.SecondHarmonicAtBin128`.
- Harmonics.HarmonicColumns: its own contract states only the shape. Its meaning is stated by `Harmonics.HarmonicColumnsAreNearestBins`.
- Harmonics.Harmonics: its own contract states only the shape. Its meaning is stated by `Harmonics.HarmonicsAreNearestBins` and `Harmonics.HarmonicOfExactBin`.

## Findings

| source | as written | input that shows it | evidently intended | confidence | as-written member | corrected member |
|---|---|---|---|---|---|---|
| features/spectral.py:200-202 | `np.arange(0, 20, step=20)` and `np.arange(1, 20, step=20)` select only columns 0 and 1, so the odd-even ratio is x1 / x2 | x1 = x2 = 1, x3, x5, ..., x19 = 3 and x4, x6, ..., x20 = 1: the ratio as written is 1 | step 2: the mean of x1, x3, ..., x19 over the mean of x2, x4, ..., x20, as the doc-comment's formula says (2.8 on this input) | not executed | Features.OddEvenRatioIgnoresHigherHarmonics | Features.OddEvenRatioOfRowCorrected |
| features/spectral.py:263 | T3 sums the slice 4:9, that is x5..x9 | ten harmonics of which only x10 is non-zero: T1 + T2 + T3 as written is 0 | the slice 4:10, x5..x10, as the doc-comment's formula says (the three values then sum to 1 on this input) | not executed | Features.TristimulusMissesTenthHarmonic | Features.TristimulusOfRowCorrected |
