/** The mains-frequency amplitude: a majority vote over per-row spectral
    peaks, and the exact-bin lookup that reads one spectrum column. */
module Mains {
  import opened Wrappers
  import opened Errors
  import opened Matrices
  import opened Window
  import opened Frequencies

  /** `k` is the first bin holding the row's greatest amplitude. */
  ghost predicate IsFirstPeak(row: seq<real>, k: int) {
    && 0 <= k < |row|
    && (forall j :: 0 <= j < |row| ==> row[j] <= row[k])
    && (forall j :: 0 <= j < k ==> row[j] < row[k])
  }

  /** `freqs[np.argmax(spectrum_amp, axis=1)]`: every row's peak frequency
      (the `all=True` result). */
  function PeakFrequencies(spec: Matrix, freqs: seq<real>): (p: seq<real>)
    requires 0 < spec.width <= |freqs|
    ensures |p| == |spec.rows|
    ensures forall i :: 0 <= i < |spec.rows| ==> IsFirstPeak(spec.rows[i], ArgMax(spec.rows[i]))
                                                 && p[i] == freqs[ArgMax(spec.rows[i])]
  {
    seq(|spec.rows|, i requires 0 <= i < |spec.rows| => freqs[ArgMax(spec.rows[i])])
  }

  /** `v` is what `values[np.argmax(counts)]` returns after `np.unique`: a
      most frequent value of `s`, the smallest one among equally frequent
      values (np.unique sorts ascending, argmax takes the first maximum). */
  ghost predicate IsSmallestMode(s: seq<real>, v: real) {
    && v in s
    && (forall u :: u in s ==> Count(s, u) <= Count(s, v))
    && (forall u :: u in s && Count(s, u) == Count(s, v) ==> v <= u)
  }

  /** `a` beats `b` in the vote: more frequent, or as frequent and smaller. */
  predicate Beats(s: seq<real>, a: real, b: real) {
    Count(s, a) > Count(s, b) || (Count(s, a) == Count(s, b) && a < b)
  }

  /** The vote winner among the first k entries of s, counted over all of s. */
  function VoteAmong(s: seq<real>, k: nat): (v: real)
    requires 0 < k <= |s|
    ensures v in s[..k]
    ensures forall j :: 0 <= j < k ==> !Beats(s, s[j], v)
  {
    if k == 1 then s[0]
    else
      var v := VoteAmong(s, k - 1);
      assert s[..k - 1] <= s[..k];
      if Beats(s, s[k - 1], v) then s[k - 1] else v
  }

  /** The most common value of `s`, ties to the smallest. */
  function MostCommon(s: seq<real>): (v: real)
    requires |s| > 0
    ensures IsSmallestMode(s, v)
  {
    var v := VoteAmong(s, |s|);
    assert s[..|s|] == s;
    v
  }

  /** The vote has one winner: the specification determines it. */
  lemma SmallestModeUnique(s: seq<real>, a: real, b: real)
    requires IsSmallestMode(s, a) && IsSmallestMode(s, b)
    ensures a == b
  {
  }

  /** The vote depends only on which peaks occur how often, not on the order
      of the rows. */
  lemma MostCommonIgnoresOrder(s: seq<real>, t: seq<real>)
    requires |s| > 0 && |t| > 0 && multiset(s) == multiset(t)
    ensures MostCommon(s) == MostCommon(t)
  {
    var v := MostCommon(s);
    assert forall u :: u in s <==> u in t by {
      forall u ensures u in s <==> u in t {
        assert u in s <==> u in multiset(s);
        assert u in t <==> u in multiset(t);
      }
    }
    assert IsSmallestMode(t, v);
    SmallestModeUnique(t, v, MostCommon(t));
  }

  /** `_peak_amplitude_frequency`: the most common per-row peak frequency.
      numpy raises on an empty batch or on rows without bins. */
  function PeakAmplitudeFrequency(spec: Matrix, freqs: seq<real>): (f: real)
    requires |spec.rows| > 0 && 0 < spec.width <= |freqs|
    ensures IsSmallestMode(PeakFrequencies(spec, freqs), f)
  {
    MostCommon(PeakFrequencies(spec, freqs))
  }

  /** The voted frequency is some row's peak frequency. */
  lemma PeakAmplitudeFrequencyIsARowPeak(spec: Matrix, freqs: seq<real>)
    requires |spec.rows| > 0 && 0 < spec.width <= |freqs|
    ensures exists i, k :: 0 <= i < |spec.rows| && IsFirstPeak(spec.rows[i], k)
                          && PeakAmplitudeFrequency(spec, freqs) == freqs[k]
  {
    var p := PeakFrequencies(spec, freqs);
    var f := PeakAmplitudeFrequency(spec, freqs);
    var i :| 0 <= i < |p| && p[i] == f;
    assert IsFirstPeak(spec.rows[i], ArgMax(spec.rows[i]));
  }

  /** The bin frequencies of the window a spectrum of this width came from. */
  function SpectrumFrequencies(width: nat, samplingRate: real): (f: seq<real>)
    requires width != 1
    ensures |f| == width
  {
    BinFrequencies(WindowFromSpectrum(width), samplingRate)
  }

  /** The frequency the lookup searches for: the caller's, or for `None` the
      voted peak frequency. */
  function MainsTarget(spec: Matrix, mainsFrequency: Option<real>, samplingRate: real): (t: real)
    requires spec.width != 1
    requires mainsFrequency.None? ==> |spec.rows| > 0 && spec.width >= 2
    ensures mainsFrequency.Some? ==> t == mainsFrequency.value
    ensures mainsFrequency.None? ==>
              IsSmallestMode(PeakFrequencies(spec, SpectrumFrequencies(spec.width, samplingRate)), t)
  {
    match mainsFrequency
    case Some(f) => f
    case None => PeakAmplitudeFrequency(spec, SpectrumFrequencies(spec.width, samplingRate))
  }

  /** `_mains_frequency_amplitude`: the (n, 1) column of the spectrum at the
      first bin whose frequency equals the mains frequency exactly, or
      InvalidMainsFrequency when no bin does. A spectrum of width 1 implies
      window 0, where numpy's rfftfreq divides by zero. */
  function MainsFrequencyAmplitude(spec: Matrix, mainsFrequency: Option<real> := Some(PowerFrequency),
                                   samplingRate: real := SamplingRate): (r: Result<seq<real>, SpectralError>)
    requires spec.width != 1
    requires mainsFrequency.None? ==> |spec.rows| > 0 && spec.width >= 2
    ensures var freqs := SpectrumFrequencies(spec.width, samplingRate);
            var target := MainsTarget(spec, mainsFrequency, samplingRate);
            && (r.Ok? <==> target in freqs)
            && (r.Err? ==> r.error == InvalidMainsFrequency(target))
            && (r.Ok? ==> |r.value| == |spec.rows|
                          && exists k :: IsFirstBinAt(freqs, target, k)
                                         && forall i :: 0 <= i < |spec.rows| ==> r.value[i] == spec.rows[i][k])
  {
    var freqs := SpectrumFrequencies(spec.width, samplingRate);
    var target := MainsTarget(spec, mainsFrequency, samplingRate);
    match FirstIndexOf(freqs, target)
    case None => Err(InvalidMainsFrequency(target))
    case Some(k) =>
      assert IsFirstBinAt(freqs, target, k);
      Ok(Column(spec, k))
  }

  /** `k` is the first bin whose frequency is exactly `f`. */
  ghost predicate IsFirstBinAt(freqs: seq<real>, f: real, k: int) {
    0 <= k < |freqs| && freqs[k] == f && forall j :: 0 <= j < k ==> freqs[j] != f
  }

  /** A spectrum of window 8192 whose every amplitude is 2.0 has mains
      amplitude 2.0 in every row at the default 50 Hz and 6400 Hz. */
  lemma ConstantSpectrumMainsAmplitude(spec: Matrix)
    requires spec.width == 4097
    requires forall i, k :: 0 <= i < |spec.rows| && 0 <= k < 4097 ==> spec.rows[i][k] == 2.0
    ensures var r := MainsFrequencyAmplitude(spec, Some(PowerFrequency), SamplingRate);
            r.Ok? && forall i :: 0 <= i < |r.value| ==> r.value[i] == 2.0
  {
    FundamentalAtBin64();
    assert SpectrumFrequencies(4097, SamplingRate) == BinFrequencies(8192, SamplingRate);
    assert PowerFrequency in SpectrumFrequencies(4097, SamplingRate);
  }

  /** 13 Hz is not a multiple of the bin spacing 0.78125 Hz of window 8192,
      so the lookup fails instead of interpolating. */
  lemma ThirteenHertzIsRejected(spec: Matrix)
    requires spec.width == 4097
    ensures MainsFrequencyAmplitude(spec, Some(13.0), SamplingRate) == Err(InvalidMainsFrequency(13.0))
  {
    var freqs := SpectrumFrequencies(4097, SamplingRate);
    assert freqs == BinFrequencies(8192, SamplingRate);
    forall k | 0 <= k < |freqs| ensures freqs[k] != 13.0 {
      BinFrequencyValue(8192, SamplingRate, k);
      if k <= 16 {
        assert freqs[k] * 8192.0 <= 16.0 * 6400.0;
      } else {
        assert freqs[k] * 8192.0 >= 17.0 * 6400.0;
      }
    }
  }
}
