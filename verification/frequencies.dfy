/** The bin-to-frequency map of a real FFT and the selector of the bins
    nearest to the harmonics of the power frequency. */
module Frequencies {
  import opened Matrices
  import opened Window

  /** Module defaults: 50 Hz mains, 6400 measurements per second. */
  const PowerFrequency: real := 50.0
  const SamplingRate: real := 6400.0

  /** `fft.rfftfreq(window) * sampling_rate`: bin k is k / window of the
      sampling rate, for k = 0 .. window // 2. A negative window yields no
      bins; window 0 raises ZeroDivisionError in numpy and is excluded. */
  function BinFrequencies(window: int, samplingRate: real): (f: seq<real>)
    requires window != 0
    ensures |f| == if window < 0 then 0 else window / 2 + 1
  {
    // Python's `window // 2` agrees with Dafny's `/` for a positive divisor
    var count := window / 2 + 1;
    seq(if count < 0 then 0 else count, k => (k as real) * samplingRate / (window as real))
  }

  /** Every bin k of a positive window sits at exactly k * samplingRate / window Hz. */
  lemma BinFrequencyValue(window: int, samplingRate: real, k: nat)
    requires window >= 1 && k <= window / 2
    ensures BinFrequencies(window, samplingRate)[k] * (window as real) == (k as real) * samplingRate
  {
  }

  /** The map starts at 0 Hz, has the uniform spacing samplingRate / window,
      and is strictly increasing for a positive sampling rate. */
  lemma BinFrequenciesIncreasing(window: int, samplingRate: real)
    requires window >= 1 && samplingRate > 0.0
    ensures BinFrequencies(window, samplingRate)[0] == 0.0
    ensures forall j, k :: 0 <= j < k < |BinFrequencies(window, samplingRate)| ==>
              BinFrequencies(window, samplingRate)[j] < BinFrequencies(window, samplingRate)[k]
  {
    var f := BinFrequencies(window, samplingRate);
    var w := window as real;
    forall j, k | 0 <= j < k < |f| ensures f[j] < f[k] {
      assert (j as real) * samplingRate < (k as real) * samplingRate;
      DivideMonotone((j as real) * samplingRate, (k as real) * samplingRate, w);
    }
  }

  /** For a non-negative sampling rate no bin frequency is negative. */
  lemma BinFrequenciesNonNegative(window: int, samplingRate: real)
    requires window != 0 && samplingRate >= 0.0
    ensures NonNegative(BinFrequencies(window, samplingRate))
  {
    var f := BinFrequencies(window, samplingRate);
    forall k | 0 <= k < |f| ensures 0.0 <= f[k] {
      assert window > 0;
      assert (k as real) * samplingRate >= 0.0;
    }
  }

  /** For an even window the last bin is the Nyquist frequency. */
  lemma LastBinIsNyquist(window: int, samplingRate: real)
    requires window >= 2 && window % 2 == 0
    ensures BinFrequencies(window, samplingRate)[window / 2] == samplingRate / 2.0
  {
    var w := window as real;
    assert ((window / 2) as real) == w / 2.0;
  }

  /** The window recovered from a spectrum reproduces the spectrum's width,
      and an even window survives the round trip through its bin count. */
  lemma WindowRoundTrip(width: nat, window: int, samplingRate: real)
    requires width >= 2
    requires window >= 2 && window % 2 == 0
    ensures |BinFrequencies(WindowFromSpectrum(width), samplingRate)| == width
    ensures WindowFromSpectrum(|BinFrequencies(window, samplingRate)|) == window
  {
  }

  /** Negative frequencies are clamped to 0 before the distance is taken. */
  function Clamp(f: real): (c: real)
    ensures c >= 0.0 && (f >= 0.0 ==> c == f)
    ensures f < 0.0 ==> c == 0.0
  {
    if f < 0.0 then 0.0 else f
  }

  /** |max(f, 0) - target|. */
  function Distance(f: real, target: real): real
  {
    Abs(Clamp(f) - target)
  }

  function Distances(freqs: seq<real>, target: real): (d: seq<real>)
    ensures |d| == |freqs|
    ensures forall k :: 0 <= k < |freqs| ==> d[k] == Distance(freqs[k], target)
  {
    seq(|freqs|, k requires 0 <= k < |freqs| => Distance(freqs[k], target))
  }

  /** `k` is the first bin among those closest to `target`. */
  ghost predicate IsNearestBin(freqs: seq<real>, target: real, k: int) {
    && 0 <= k < |freqs|
    && (forall j :: 0 <= j < |freqs| ==> Distance(freqs[k], target) <= Distance(freqs[j], target))
    && (forall j :: 0 <= j < k ==> Distance(freqs[k], target) < Distance(freqs[j], target))
  }

  /** The i-th (0-based) target: the (i+1)-th multiple of the power frequency. */
  function HarmonicTarget(i: nat, powerFrequency: real): real
  {
    ((i + 1) as real) * powerFrequency
  }

  /** `_get_harmonics_indices`: for each of the first n harmonics, the first
      bin whose clamped frequency is nearest to it. numpy's argmin raises on
      no bins and `np.dstack` on an empty list (n = 0). */
  function HarmonicIndices(freqs: seq<real>, n: nat := 20, powerFrequency: real := PowerFrequency): (idx: seq<nat>)
    requires |freqs| > 0 && n > 0
    ensures |idx| == n
    ensures forall i :: 0 <= i < n ==> IsNearestBin(freqs, HarmonicTarget(i, powerFrequency), idx[i])
  {
    seq(n, i requires 0 <= i < n => ArgMin(Distances(freqs, HarmonicTarget(i, powerFrequency))))
  }

  /** At most one bin is the first nearest bin of a target. */
  lemma NearestBinUnique(freqs: seq<real>, target: real, a: int, b: int)
    requires IsNearestBin(freqs, target, a) && IsNearestBin(freqs, target, b)
    ensures a == b
  {
    var da, db := Distance(freqs[a], target), Distance(freqs[b], target);
    assert da <= db && db <= da;
  }

  /** When a target is exactly the frequency of a bin of a non-negative,
      strictly increasing map, that bin is the one selected. */
  lemma NearestBinOfExactFrequency(freqs: seq<real>, target: real, k: nat, j: int)
    requires NonNegative(freqs)
    requires forall a, b :: 0 <= a < b < |freqs| ==> freqs[a] < freqs[b]
    requires k < |freqs| && freqs[k] == target
    requires IsNearestBin(freqs, target, j)
    ensures j == k
  {
    assert Distance(freqs[k], target) == 0.0;
    assert freqs[j] == freqs[k];
  }

  /** The harmonic selector picks bin k for harmonic i whenever the target
      (i+1) * powerFrequency is exactly bin k's frequency. */
  lemma HarmonicIndexOfExactBin(window: int, samplingRate: real, n: nat, powerFrequency: real, i: nat, k: nat)
    requires window >= 1 && samplingRate > 0.0
    requires i < n
    requires k < |BinFrequencies(window, samplingRate)|
    requires BinFrequencies(window, samplingRate)[k] == HarmonicTarget(i, powerFrequency)
    ensures HarmonicIndices(BinFrequencies(window, samplingRate), n, powerFrequency)[i] == k
  {
    var f := BinFrequencies(window, samplingRate);
    BinFrequenciesIncreasing(window, samplingRate);
    BinFrequenciesNonNegative(window, samplingRate);
    NearestBinOfExactFrequency(f, HarmonicTarget(i, powerFrequency), k, HarmonicIndices(f, n, powerFrequency)[i]);
  }

  /** With window 8192 at 6400 Hz the bins are 0.78125 Hz apart and the
      50 Hz fundamental falls exactly on bin 64. */
  lemma FundamentalAtBin64()
    ensures BinFrequencies(8192, SamplingRate)[64] == 50.0
    ensures HarmonicIndices(BinFrequencies(8192, SamplingRate), 20, PowerFrequency)[0] == 64
  {
    assert BinFrequencies(8192, SamplingRate)[64] == 64.0 * 6400.0 / 8192.0;
    HarmonicIndexOfExactBin(8192, SamplingRate, 20, PowerFrequency, 0, 64);
  }

  /** `spectral_frequencies`: the full map, or (limit_to_harmonics) the
      frequencies of the bins nearest to the first n harmonics. */
  function SpectralFrequencies(window: int, n: nat := 20, limitToHarmonics: bool := true,
                               powerFrequency: real := PowerFrequency,
                               samplingRate: real := SamplingRate): (r: seq<real>)
    requires window != 0
    requires limitToHarmonics ==> window >= 1 && n > 0
    ensures !limitToHarmonics ==> r == BinFrequencies(window, samplingRate)
    ensures limitToHarmonics ==> |r| == n
    ensures limitToHarmonics ==> forall i :: 0 <= i < n ==>
              exists k :: IsNearestBin(BinFrequencies(window, samplingRate), HarmonicTarget(i, powerFrequency), k)
                          && r[i] == BinFrequencies(window, samplingRate)[k]
  {
    var freqs := BinFrequencies(window, samplingRate);
    if limitToHarmonics then
      var idx := HarmonicIndices(freqs, n, powerFrequency);
      assert forall i :: 0 <= i < n ==> IsNearestBin(freqs, HarmonicTarget(i, powerFrequency), idx[i]);
      Select(freqs, idx)
    else
      freqs
  }
}
