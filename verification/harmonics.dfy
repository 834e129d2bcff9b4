/** Harmonic amplitudes: the spectrum columns at the bins nearest to the
    harmonics of the power frequency. The magnitude spectrum itself
    (normalisation followed by `np.abs(fft.rfft(...))`) is a parameter. */
module Harmonics {
  import opened Wrappers
  import opened Matrices
  import opened Window
  import opened Frequencies

  /** `current[:, :window]`: the first `window` measurements of every row. */
  function Truncate(current: Matrix, window: nat): (t: Matrix)
    ensures |t.rows| == |current.rows| && t.width == Min(window, current.width)
    ensures forall i :: 0 <= i < |current.rows| ==> t.rows[i] == current.rows[i][..t.width]
  {
    var w := Min(window, current.width);
    Grid(seq(|current.rows|, i requires 0 <= i < |current.rows| => current.rows[i][..w]), w)
  }

  /** `spectrum(current, window)`: the magnitude spectrum of the truncated
      rows; `magnitude` stands for normalisation and the real FFT. */
  function Spectrum(current: Matrix, window: Option<nat> := None, magnitude: Matrix -> Matrix): Matrix
  {
    magnitude(Truncate(current, ResolveWindow(window, current.width)))
  }

  /** The spectrum reads only the first `window` samples of every row: two
      batches of the same shape that agree there have the same spectrum. */
  lemma SpectrumReadsOnlyWindow(a: Matrix, b: Matrix, window: Option<nat>, magnitude: Matrix -> Matrix)
    requires |a.rows| == |b.rows| && a.width == b.width
    requires forall i :: 0 <= i < |a.rows| ==>
               a.rows[i][..Min(ResolveWindow(window, a.width), a.width)]
               == b.rows[i][..Min(ResolveWindow(window, a.width), a.width)]
    ensures Spectrum(a, window, magnitude) == Spectrum(b, window, magnitude)
  {
    var w := ResolveWindow(window, a.width);
    var ta, tb := Truncate(a, w), Truncate(b, w);
    assert ta.rows == tb.rows;
  }

  /** The columns of a spectrum of `window` at the first n harmonic bins. */
  function HarmonicColumns(spec: Matrix, window: int, n: nat, powerFrequency: real,
                           samplingRate: real): (h: Matrix)
    requires window >= 1 && n > 0 && spec.width == window / 2 + 1
    ensures |h.rows| == |spec.rows| && h.width == n
  {
    SelectColumns(spec, HarmonicIndices(BinFrequencies(window, samplingRate), n, powerFrequency))
  }

  /** Column i is, in every row, the amplitude at the first bin nearest to the
      (i+1)-th multiple of the power frequency. */
  lemma HarmonicColumnsAreNearestBins(spec: Matrix, window: int, n: nat, powerFrequency: real,
                                      samplingRate: real, r: nat, i: nat)
    requires window >= 1 && n > 0 && spec.width == window / 2 + 1
    requires r < |spec.rows| && i < n
    ensures exists k :: IsNearestBin(BinFrequencies(window, samplingRate), HarmonicTarget(i, powerFrequency), k)
                        && HarmonicColumns(spec, window, n, powerFrequency, samplingRate).rows[r][i] == spec.rows[r][k]
  {
    var idxs := HarmonicIndices(BinFrequencies(window, samplingRate), n, powerFrequency);
    assert IsNearestBin(BinFrequencies(window, samplingRate), HarmonicTarget(i, powerFrequency), idxs[i]);
  }

  /** `harmonics`: for every row of the spectrum, the amplitudes of the first
      n harmonics in harmonic order. The caller's spectrum must have the
      `window / 2 + 1` bins a real FFT of that window produces. */
  function Harmonics(current: Matrix, n: nat := 20, window: Option<nat> := None,
                     powerFrequency: real := PowerFrequency, samplingRate: real := SamplingRate,
                     magnitude: Matrix -> Matrix): (h: Matrix)
    requires n > 0
    requires ResolveWindow(window, current.width) >= 1
    requires Spectrum(current, window, magnitude).width == ResolveWindow(window, current.width) / 2 + 1
    ensures |h.rows| == |Spectrum(current, window, magnitude).rows| && h.width == n
  {
    HarmonicColumns(Spectrum(current, window, magnitude), ResolveWindow(window, current.width),
                    n, powerFrequency, samplingRate)
  }

  /** Harmonic i of every row of a batch is the spectrum amplitude at the
      first bin nearest to the (i+1)-th multiple of the power frequency. */
  lemma HarmonicsAreNearestBins(current: Matrix, n: nat, window: Option<nat>, powerFrequency: real,
                                samplingRate: real, magnitude: Matrix -> Matrix, r: nat, i: nat)
    requires n > 0 && i < n
    requires ResolveWindow(window, current.width) >= 1
    requires Spectrum(current, window, magnitude).width == ResolveWindow(window, current.width) / 2 + 1
    requires r < |Spectrum(current, window, magnitude).rows|
    ensures var w := ResolveWindow(window, current.width);
            exists k :: IsNearestBin(BinFrequencies(w, samplingRate), HarmonicTarget(i, powerFrequency), k)
                        && Harmonics(current, n, window, powerFrequency, samplingRate, magnitude).rows[r][i]
                           == Spectrum(current, window, magnitude).rows[r][k]
  {
    HarmonicColumnsAreNearestBins(Spectrum(current, window, magnitude), ResolveWindow(window, current.width),
                                  n, powerFrequency, samplingRate, r, i);
  }

  /** A harmonic whose frequency is exactly bin k's frequency reads column k
      of the spectrum. */
  lemma HarmonicOfExactBin(current: Matrix, n: nat, window: Option<nat>, powerFrequency: real,
                           samplingRate: real, magnitude: Matrix -> Matrix, i: nat, k: nat)
    requires n > 0 && i < n && samplingRate > 0.0
    requires ResolveWindow(window, current.width) >= 1
    requires Spectrum(current, window, magnitude).width == ResolveWindow(window, current.width) / 2 + 1
    requires k < |BinFrequencies(ResolveWindow(window, current.width), samplingRate)|
    requires BinFrequencies(ResolveWindow(window, current.width), samplingRate)[k] == HarmonicTarget(i, powerFrequency)
    ensures var h := Harmonics(current, n, window, powerFrequency, samplingRate, magnitude);
            var spec := Spectrum(current, window, magnitude);
            forall r :: 0 <= r < |spec.rows| ==> h.rows[r][i] == spec.rows[r][k]
  {
    var w := ResolveWindow(window, current.width);
    HarmonicIndexOfExactBin(w, samplingRate, n, powerFrequency, i, k);
  }

  /** With the module defaults and window 8192 the first harmonic column is
      spectrum column 64 (50 Hz). */
  lemma FundamentalColumnAtBin64(spec: Matrix, n: nat)
    requires spec.width == 4097 && n >= 1
    ensures forall r :: 0 <= r < |spec.rows| ==>
              HarmonicColumns(spec, 8192, n, PowerFrequency, SamplingRate).rows[r][0] == spec.rows[r][64]
  {
    FundamentalAtBin64();
    assert BinFrequencies(8192, SamplingRate)[64] == HarmonicTarget(0, PowerFrequency);
    HarmonicIndexOfExactBin(8192, SamplingRate, n, PowerFrequency, 0, 64);
  }

  /** A two-second interval (12800 samples) gets the default window 8192, so
      its first harmonic is spectrum column 64. */
  lemma FundamentalOfTwoSecondInterval(current: Matrix, magnitude: Matrix -> Matrix)
    requires current.width == 12800
    requires Spectrum(current, None, magnitude).width == ResolveWindow(None, current.width) / 2 + 1
    ensures var h := Harmonics(current, 20, None, PowerFrequency, SamplingRate, magnitude);
            var spec := Spectrum(current, None, magnitude);
            forall r :: 0 <= r < |spec.rows| ==> h.rows[r][0] == spec.rows[r][64]
  {
    DefaultWindowOfTwoSeconds();
    var spec := Spectrum(current, None, magnitude);
    assert spec.width == 4097;
    assert Harmonics(current, 20, None, PowerFrequency, SamplingRate, magnitude)
        == HarmonicColumns(spec, 8192, 20, PowerFrequency, SamplingRate);
    FundamentalColumnAtBin64(spec, 20);
  }
}
