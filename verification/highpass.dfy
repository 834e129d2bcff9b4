/** The high-pass filter over a spectrum and the high-frequency spectral
    mean built on it. The filter always uses the module's default sampling
    rate for its bin frequencies, whatever the caller's settings. */
module HighPass {
  import opened Wrappers
  import opened Errors
  import opened Matrices
  import opened Window
  import opened Frequencies
  import opened Mains

  datatype FilterKind = Zero | Linear | Quadratic | NoFilter

  /** The defaults of `high_pass_filter` and the high-frequency features. */
  const DefaultFilterType: string := "zero"
  const DefaultCutoff: real := 1000.0

  /** The filter-type names the source dispatches on; anything else raises. */
  function ParseFilterType(filterType: string): (r: Result<FilterKind, SpectralError>)
    ensures r.Ok? <==> filterType in {"zero", "linear", "quadratic", "none"}
    ensures r.Err? ==> r.error == UnsupportedFilterType(filterType)
  {
    if filterType == "zero" then Ok(Zero)
    else if filterType == "linear" then Ok(Linear)
    else if filterType == "quadratic" then Ok(Quadratic)
    else if filterType == "none" then Ok(NoFilter)
    else Err(UnsupportedFilterType(filterType))
  }

  /** The gain a filter applies to a bin at frequency `f` (never negative). */
  function Gain(kind: FilterKind, f: real, cutoff: real): (g: real)
    requires f >= 0.0
    ensures kind == NoFilter || f >= cutoff ==> g == 1.0
    ensures kind == Zero && f < cutoff ==> g == 0.0
    ensures kind == Linear && f < cutoff ==> g * cutoff == f
    ensures kind == Quadratic && f < cutoff ==> g * cutoff * cutoff == f * f
    ensures cutoff > 0.0 ==> 0.0 <= g <= 1.0
  {
    match kind
    case NoFilter => 1.0
    case Zero => if f < cutoff then 0.0 else 1.0
    case Linear => if f < cutoff then f / cutoff else 1.0
    case Quadratic =>
      if f < cutoff then
        var q := f / cutoff;
        assert 0.0 <= q <= 1.0;
        assert q * q <= q by { ScaleAtMost(q, q); }
        q * q
      else 1.0
  }

  /** The bin frequencies `high_pass_filter` uses: the default sampling rate. */
  function FilterFrequencies(width: nat): (f: seq<real>)
    requires width != 1
    ensures |f| == width
    ensures NonNegative(f)
  {
    BinFrequenciesNonNegative(WindowFromSpectrum(width), SamplingRate);
    SpectrumFrequencies(width, SamplingRate)
  }

  /** Bin k of the filter's frequencies is k * SamplingRate / window Hz, for
      the window the spectrum width comes from. */
  lemma FilterFrequencyValue(width: nat, k: nat)
    requires width >= 2 && k < width
    ensures FilterFrequencies(width)[k] * (WindowFromSpectrum(width) as real) == (k as real) * SamplingRate
  {
    BinFrequencyValue(WindowFromSpectrum(width), SamplingRate, k);
  }

  /** `high_pass_filter`: every bin scaled by its gain, same shape, or
      UnsupportedFilterType. */
  function HighPassFilter(spec: Matrix, filterType: string := DefaultFilterType,
                          cutoff: real := DefaultCutoff): (r: Result<Matrix, SpectralError>)
    requires spec.width != 1
    ensures r.Ok? <==> filterType in {"zero", "linear", "quadratic", "none"}
    ensures r.Err? ==> r.error == UnsupportedFilterType(filterType)
    ensures r.Ok? ==> |r.value.rows| == |spec.rows| && r.value.width == spec.width
    ensures r.Ok? ==> forall i, k {:trigger r.value.rows[i][k]} :: 0 <= i < |spec.rows| && 0 <= k < spec.width ==>
              r.value.rows[i][k] == spec.rows[i][k] * Gain(ParseFilterType(filterType).value, FilterFrequencies(spec.width)[k], cutoff)
  {
    var kind :- ParseFilterType(filterType);
    var freqs := FilterFrequencies(spec.width);
    Ok(Grid(seq(|spec.rows|, i requires 0 <= i < |spec.rows| =>
              seq(spec.width, k requires 0 <= k < spec.width => spec.rows[i][k] * Gain(kind, freqs[k], cutoff))),
            spec.width))
  }

  /** Filter type "none" is the identity. */
  lemma NoFilterIsIdentity(spec: Matrix, cutoff: real)
    requires spec.width != 1
    ensures HighPassFilter(spec, "none", cutoff) == Ok(spec)
  {
    var r := HighPassFilter(spec, "none", cutoff).value;
    forall i | 0 <= i < |spec.rows| ensures r.rows[i] == spec.rows[i] {
      assert forall k :: 0 <= k < spec.width ==> r.rows[i][k] == spec.rows[i][k];
    }
    assert r.rows == spec.rows;
  }

  /** Filter type "zero" sets the bins below the cutoff to 0 and leaves the
      bins at or above it unchanged. */
  lemma ZeroFilterStopsBelowCutoff(spec: Matrix, cutoff: real, i: nat, k: nat)
    requires spec.width != 1 && i < |spec.rows| && k < spec.width
    ensures var r := HighPassFilter(spec, "zero", cutoff).value;
            && (FilterFrequencies(spec.width)[k] < cutoff ==> r.rows[i][k] == 0.0)
            && (FilterFrequencies(spec.width)[k] >= cutoff ==> r.rows[i][k] == spec.rows[i][k])
  {
  }

  /** Every filter passes the bins at or above the cutoff unchanged. */
  lemma PassbandUnchanged(spec: Matrix, filterType: string, cutoff: real, i: nat, k: nat)
    requires spec.width != 1 && i < |spec.rows| && k < spec.width
    requires ParseFilterType(filterType).Ok?
    requires FilterFrequencies(spec.width)[k] >= cutoff
    ensures HighPassFilter(spec, filterType, cutoff).value.rows[i][k] == spec.rows[i][k]
  {
  }

  /** For a positive cutoff every filter attenuates: a non-negative spectrum
      stays non-negative and no amplitude grows. */
  lemma FilterAttenuates(spec: Matrix, filterType: string, cutoff: real, i: nat, k: nat)
    requires spec.width != 1 && i < |spec.rows| && k < spec.width
    requires ParseFilterType(filterType).Ok?
    requires cutoff > 0.0 && spec.rows[i][k] >= 0.0
    ensures 0.0 <= HighPassFilter(spec, filterType, cutoff).value.rows[i][k] <= spec.rows[i][k]
  {
    var v := HighPassFilter(spec, filterType, cutoff).value.rows[i][k];
    var g := FilteredEntry(spec, filterType, cutoff, i, k);
    ScaledAtMost(v, spec.rows[i][k], g);
  }

  /** The gain one entry of the filtered spectrum was scaled by. */
  lemma FilteredEntry(spec: Matrix, filterType: string, cutoff: real, i: nat, k: nat) returns (g: real)
    requires spec.width != 1 && i < |spec.rows| && k < spec.width
    requires ParseFilterType(filterType).Ok?
    requires cutoff > 0.0
    ensures 0.0 <= g <= 1.0
    ensures HighPassFilter(spec, filterType, cutoff).value.rows[i][k] == spec.rows[i][k] * g
  {
    var kind := ParseFilterType(filterType).value;
    var freqs := FilterFrequencies(spec.width);
    assert freqs[k] >= 0.0;
    g := Gain(kind, freqs[k], cutoff);
    var r := HighPassFilter(spec, filterType, cutoff);
    assert r.Ok?;
  }

  /** `high_frequency_spectral_mean`: the mean amplitude of each filtered row.
      numpy's mean of a row without bins is NaN, so the width must be at
      least 2 (width 1 implies window 0). */
  function HighFrequencySpectralMean(spec: Matrix, filterType: string := DefaultFilterType,
                                     cutoff: real := DefaultCutoff): (r: Result<seq<real>, SpectralError>)
    requires spec.width >= 2
    ensures r.Ok? <==> filterType in {"zero", "linear", "quadratic", "none"}
    ensures r.Err? ==> r.error == UnsupportedFilterType(filterType)
    ensures r.Ok? ==> |r.value| == |spec.rows|
    ensures r.Ok? ==> forall i :: 0 <= i < |spec.rows| ==>
              r.value[i] == Mean(HighPassFilter(spec, filterType, cutoff).value.rows[i])
  {
    var filtered :- HighPassFilter(spec, filterType, cutoff);
    Ok(seq(|filtered.rows|, i requires 0 <= i < |filtered.rows| => Mean(filtered.rows[i])))
  }

  /** For a non-negative spectrum and a positive cutoff the high-frequency
      mean lies between 0 and the row's plain mean, which it equals for "none". */
  lemma HighFrequencyMeanBounds(spec: Matrix, filterType: string, cutoff: real, i: nat)
    requires spec.width >= 2 && i < |spec.rows|
    requires ParseFilterType(filterType).Ok?
    requires cutoff > 0.0 && NonNegative(spec.rows[i])
    ensures var m := HighFrequencySpectralMean(spec, filterType, cutoff).value[i];
            0.0 <= m <= Mean(spec.rows[i])
    ensures filterType == "none" ==> HighFrequencySpectralMean(spec, filterType, cutoff).value[i] == Mean(spec.rows[i])
  {
    var row := HighPassFilter(spec, filterType, cutoff).value.rows[i];
    forall k | 0 <= k < spec.width ensures 0.0 <= row[k] <= spec.rows[i][k] {
      FilterAttenuates(spec, filterType, cutoff, i, k);
    }
    var w := spec.width as real;
    SumNonNegative(row);
    SumMonotone(row, spec.rows[i]);
    assert HighFrequencySpectralMean(spec, filterType, cutoff).value[i] == Sum(row) / w;
    assert Mean(spec.rows[i]) == Sum(spec.rows[i]) / w;
    DivNonNegative(Sum(row), w);
    DivideAtMost(Sum(row), Sum(spec.rows[i]), w);
    if filterType == "none" {
      NoFilterIsIdentity(spec, cutoff);
    }
  }

  /** With the default arguments the high-frequency mean averages a row
      whose bins below 1000 Hz are zeroed and whose other bins are kept. */
  lemma DefaultHighFrequencyMeanZeroesBelow1000Hz(spec: Matrix, i: nat)
    requires spec.width >= 2 && i < |spec.rows|
    ensures var r := HighFrequencySpectralMean(spec);
            var row := HighPassFilter(spec).value.rows[i];
            && r.Ok? && r.value[i] == Mean(row)
            && forall k :: 0 <= k < spec.width ==>
                 row[k] == (if FilterFrequencies(spec.width)[k] < 1000.0 then 0.0 else spec.rows[i][k])
  {
    forall k | 0 <= k < spec.width
      ensures HighPassFilter(spec).value.rows[i][k]
              == (if FilterFrequencies(spec.width)[k] < 1000.0 then 0.0 else spec.rows[i][k])
    {
      ZeroFilterStopsBelowCutoff(spec, 1000.0, i, k);
    }
  }
}
