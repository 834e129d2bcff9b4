/** The index-selection feature formulas over harmonic amplitudes and
    spectra. Every formula works row by row; an (n, 1) result is a sequence
    with one entry per row. */
module Features {
  import opened Wrappers
  import opened Errors
  import opened Matrices
  import opened Window
  import opened Frequencies
  import opened Harmonics
  import opened Mains

  /** `np.arange(start, stop, step)` for a positive step. */
  function Arange(start: nat, stop: nat, step: nat): (r: seq<nat>)
    requires step > 0
    ensures forall j :: 0 <= j < |r| ==> start <= r[j] < stop
    ensures start + |r| * step >= stop
    decreases stop - start
  {
    if start >= stop then []
    else
      var rest := Arange(start + step, stop, step);
      assert start + |[start] + rest| * step == (start + step) + |rest| * step;
      [start] + rest
  }

  /** Entry j of `np.arange(start, stop, step)` is start + j * step. */
  lemma {:induction false} ArangeValues(start: nat, stop: nat, step: nat)
    requires step > 0
    ensures forall j :: 0 <= j < |Arange(start, stop, step)| ==> Arange(start, stop, step)[j] == start + j * step
    decreases stop - start
  {
    if start < stop {
      var rest := Arange(start + step, stop, step);
      ArangeValues(start + step, stop, step);
      forall j | 0 <= j < |Arange(start, stop, step)|
        ensures Arange(start, stop, step)[j] == start + j * step
      {
        if j > 0 {
          assert Arange(start, stop, step)[j] == rest[j - 1];
          assert (j - 1) * step + step == j * step;
        }
      }
    }
  }

  /** The index sets of `odd_even_ratio` as written: step 20 leaves one index each. */
  lemma OddEvenIndexSetsAsWritten()
    ensures Arange(0, 20, 20) == [0] && Arange(1, 20, 20) == [1]
  {
  }

  /** With step 2 each index set has the ten odd or ten even harmonics. */
  lemma OddEvenIndexSetsCorrected()
    ensures |Arange(0, 20, 2)| == 10 && |Arange(1, 20, 2)| == 10
    ensures forall j :: 0 <= j < 10 ==> Arange(0, 20, 2)[j] == 2 * j && Arange(1, 20, 2)[j] == 2 * j + 1
  {
    ArangeValues(0, 20, 2);
    ArangeValues(1, 20, 2);
  }

  /** `odd_even_ratio` of one row as written: `np.arange(0, 20, step=20)` is
      [0] and `np.arange(1, 20, step=20)` is [1], so each mean is over a
      single column and the ratio is x1 / x2. */
  function OddEvenRatioOfRow(x: seq<real>): (r: real)
    requires |x| >= 2 && x[1] != 0.0
    ensures r == x[0] / x[1]
  {
    var odd, even := Arange(0, 20, 20), Arange(1, 20, 20);
    OddEvenIndexSetsAsWritten();
    assert Select(x, odd) == [x[0]] && Select(x, even) == [x[1]];
    MeanSingleton(x[0]);
    MeanSingleton(x[1]);
    Mean(Select(x, odd)) / Mean(Select(x, even))
  }

  /** `odd_even_ratio`: the (n, 1) column of per-row ratios. */
  function OddEvenRatio(h: Matrix): (r: seq<real>)
    requires h.width >= 2
    requires forall i :: 0 <= i < |h.rows| ==> h.rows[i][1] != 0.0
    ensures |r| == |h.rows|
    ensures forall i :: 0 <= i < |h.rows| ==> r[i] == h.rows[i][0] / h.rows[i][1]
  {
    seq(|h.rows|, i requires 0 <= i < |h.rows| => OddEvenRatioOfRow(h.rows[i]))
  }

  /** The odd harmonics x1, x3, ..., x19 (0-based columns 0, 2, ..., 18). */
  function OddHarmonics(x: seq<real>): (o: seq<real>)
    requires |x| >= 20
  {
    seq(10, j requires 0 <= j < 10 => x[2 * j])
  }

  /** The even harmonics x2, x4, ..., x20 (0-based columns 1, 3, ..., 19). */
  function EvenHarmonics(x: seq<real>): (e: seq<real>)
    requires |x| >= 20
  {
    seq(10, j requires 0 <= j < 10 => x[2 * j + 1])
  }

  /** The odd-even ratio of one row as documented (step 2): the mean of the
      odd harmonics over the mean of the even harmonics. */
  function OddEvenRatioOfRowCorrected(x: seq<real>): (r: real)
    requires |x| >= 20 && Sum(EvenHarmonics(x)) != 0.0
    ensures r == Mean(OddHarmonics(x)) / Mean(EvenHarmonics(x))
  {
    var odd, even := Arange(0, 20, 2), Arange(1, 20, 2);
    OddEvenIndexSetsCorrected();
    assert Select(x, odd) == OddHarmonics(x);
    assert Select(x, even) == EvenHarmonics(x);
    Mean(Select(x, odd)) / Mean(Select(x, even))
  }

  /** The corrected `odd_even_ratio` over a batch. */
  function OddEvenRatioCorrected(h: Matrix): (r: seq<real>)
    requires h.width >= 20
    requires forall i :: 0 <= i < |h.rows| ==> Sum(EvenHarmonics(h.rows[i])) != 0.0
    ensures |r| == |h.rows|
    ensures forall i :: 0 <= i < |h.rows| ==>
              r[i] == Mean(OddHarmonics(h.rows[i])) / Mean(EvenHarmonics(h.rows[i]))
  {
    seq(|h.rows|, i requires 0 <= i < |h.rows| => OddEvenRatioOfRowCorrected(h.rows[i]))
  }

  /** Harmonics whose first two amplitudes are equal but whose higher odd
      harmonics are three times the even ones: the ratio as written is 1,
      the documented ratio is 2.8. */
  lemma OddEvenRatioIgnoresHigherHarmonics()
    ensures var x := OddHeavyHarmonics();
            Sum(EvenHarmonics(x)) != 0.0
            && OddEvenRatioOfRow(x) == 1.0 && OddEvenRatioOfRowCorrected(x) == 2.8
  {
    var x := OddHeavyHarmonics();
    OddHeavyFirstPair();
    OddHeavyMeans();
    EqualPairRatio(x);
    RatioOfMeans(x, 2.8, 1.0);
  }

  lemma OddHeavyFirstPair()
    ensures OddHeavyHarmonics()[0] == 1.0 && OddHeavyHarmonics()[1] == 1.0
  {
  }

  lemma EqualPairRatio(x: seq<real>)
    requires |x| >= 2 && x[0] == 1.0 && x[1] == 1.0
    ensures OddEvenRatioOfRow(x) == 1.0
  {
  }

  lemma RatioOfMeans(x: seq<real>, a: real, b: real)
    requires |x| >= 20 && b != 0.0
    requires Mean(OddHarmonics(x)) == a && Mean(EvenHarmonics(x)) == b
    ensures Sum(EvenHarmonics(x)) != 0.0 && OddEvenRatioOfRowCorrected(x) == a / b
  {
  }

  lemma OddHeavyMeans()
    ensures Mean(OddHarmonics(OddHeavyHarmonics())) == 2.8
    ensures Mean(EvenHarmonics(OddHeavyHarmonics())) == 1.0
  {
    OddHeavyHarmonicSums();
  }

  /** x1 = x2 = 1, then x3, x5, ... = 3 and x4, x6, ... = 1. */
  function OddHeavyHarmonics(): (x: seq<real>)
    ensures |x| == 20
  {
    [1.0, 1.0] + Interleave(9, 3.0, 1.0)
  }

  lemma OddHeavyHarmonicSums()
    ensures Sum(OddHarmonics(OddHeavyHarmonics())) == 28.0
    ensures Sum(EvenHarmonics(OddHeavyHarmonics())) == 10.0
  {
    var x := OddHeavyHarmonics();
    assert OddHarmonics(x) == [1.0] + Constant(9, 3.0);
    assert EvenHarmonics(x) == Constant(10, 1.0);
    SumConcat([1.0], Constant(9, 3.0));
    SumSingleton(1.0);
    SumConstant(9, 3.0);
    SumConstant(10, 1.0);
  }

  /** n pairs a, b, a, b, ... */
  function Interleave(n: nat, a: real, b: real): (s: seq<real>)
    ensures |s| == 2 * n
    ensures forall k :: 0 <= k < 2 * n ==> s[k] == if k % 2 == 0 then a else b
  {
    seq(2 * n, k => if k % 2 == 0 then a else b)
  }

  /** `tristiumulus` of one row as written: T1 = x1 / S,
      T2 = (x2 + x3 + x4) / S and T3 = the sum of the slice 4:9, i.e.
      x5 .. x9, over S, the sum of all harmonics. */
  function TristimulusOfRow(x: seq<real>): (t: seq<real>)
    requires |x| >= 4 && Sum(x) != 0.0
    ensures |t| == 3
    ensures t[0] == x[0] / Sum(x)
    ensures t[1] == (x[1] + x[2] + x[3]) / Sum(x)
    ensures t[2] == Sum(x[4..Min(9, |x|)]) / Sum(x)
  {
    var s := Sum(x);
    var mid := Select(x, [1, 2, 3]);
    assert mid == [x[1], x[2], x[3]];
    assert Sum(mid) == x[1] + x[2] + x[3] by {
      SumSplit(mid, 1);
      SumSplit(mid[1..], 1);
      SumSingleton(mid[1..][1..][0]);
      assert mid[1..][1..] == [x[3]];
      SumSingleton(x[1]);
      assert mid[..1] == [x[1]];
      assert mid[1..][..1] == [x[2]];
      SumSingleton(x[2]);
    }
    [x[0] / s, Sum(mid) / s, Sum(x[4..Min(9, |x|)]) / s]
  }

  /** `tristiumulus`: the (n, 3) matrix of per-row tristimulus values. */
  function Tristimulus(h: Matrix): (t: Matrix)
    requires h.width >= 4
    requires forall i :: 0 <= i < |h.rows| ==> Sum(h.rows[i]) != 0.0
    ensures |t.rows| == |h.rows| && t.width == 3
    ensures forall i :: 0 <= i < |h.rows| ==> t.rows[i] == TristimulusOfRow(h.rows[i])
  {
    Grid(seq(|h.rows|, i requires 0 <= i < |h.rows| => TristimulusOfRow(h.rows[i])), 3)
  }

  /** The three bands x1, x2..x4 and x5..x(end) cover the row's first `end`
      entries without overlap. */
  lemma BandsCoverPrefix(x: seq<real>, end: nat)
    requires 4 <= end <= |x|
    ensures x[0] + (x[1] + x[2] + x[3]) + Sum(x[4..end]) == Sum(x[..end])
  {
    var p := x[..end];
    SumSplit(p, 4);
    assert p[4..] == x[4..end];
    var q := p[..4];
    SumSplit(q, 1);
    SumSplit(q[1..], 1);
    SumSplit(q[1..][1..], 1);
    SumSingleton(q[0]);
  }

  /** For non-negative harmonics with a positive sum every tristimulus value
      is non-negative and they add up to at most 1, exactly 1 when there are
      at most nine harmonics. */
  lemma TristimulusBounds(x: seq<real>)
    requires |x| >= 4 && NonNegative(x) && Sum(x) > 0.0
    ensures var t := TristimulusOfRow(x);
            && t[0] >= 0.0 && t[1] >= 0.0 && t[2] >= 0.0
            && t[0] + t[1] + t[2] <= 1.0
            && (|x| <= 9 ==> t[0] + t[1] + t[2] == 1.0)
  {
    var t := TristimulusOfRow(x);
    var b1, b2, b3, s := x[0], x[1] + x[2] + x[3], Sum(x[4..Min(9, |x|)]), Sum(x);
    assert t == [b1 / s, b2 / s, b3 / s];
    TristimulusBands(x);
    QuotientBounds(t, b1, b2, b3, s);
  }

  /** The three tristimulus bands of a non-negative row are non-negative and
      together at most the row sum; exactly the row sum for at most nine harmonics. */
  lemma TristimulusBands(x: seq<real>)
    requires |x| >= 4 && NonNegative(x)
    ensures var b3 := Sum(x[4..Min(9, |x|)]);
            && x[0] >= 0.0 && x[1] + x[2] + x[3] >= 0.0 && b3 >= 0.0
            && x[0] + (x[1] + x[2] + x[3]) + b3 <= Sum(x)
            && (|x| <= 9 ==> x[0] + (x[1] + x[2] + x[3]) + b3 == Sum(x))
  {
    var end := Min(9, |x|);
    SumNonNegative(x[4..end]);
    BandsCoverPrefix(x, end);
    SumSplit(x, end);
    SumNonNegative(x[end..]);
    if |x| <= 9 {
      assert x[..end] == x;
    }
  }

  /** The tristimulus of one row as documented: T3 over x5 .. x10, so the
      three values share out the first ten harmonics. */
  function TristimulusOfRowCorrected(x: seq<real>): (t: seq<real>)
    requires |x| >= 4 && Sum(x) != 0.0
    ensures |t| == 3
    ensures t[0] == x[0] / Sum(x)
    ensures t[1] == (x[1] + x[2] + x[3]) / Sum(x)
    ensures t[2] == Sum(x[4..Min(10, |x|)]) / Sum(x)
    ensures t[0] + t[1] + t[2] == Sum(x[..Min(10, |x|)]) / Sum(x)
  {
    var s := Sum(x);
    var end := Min(10, |x|);
    BandsCoverPrefix(x, end);
    AddDivide(x[0], x[1] + x[2] + x[3], Sum(x[4..end]), s);
    [x[0] / s, (x[1] + x[2] + x[3]) / s, Sum(x[4..end]) / s]
  }

  /** Ten harmonics of which only the tenth is non-zero: the slice 4:9 misses
      it, so the tristimulus as written sums to 0 where the documented one
      sums to 1. */
  lemma TristimulusMissesTenthHarmonic()
    ensures var x := Constant(9, 0.0) + [1.0];
            Sum(x) == 1.0
            && var t, c := TristimulusOfRow(x), TristimulusOfRowCorrected(x);
            t[0] + t[1] + t[2] == 0.0 && c[0] + c[1] + c[2] == 1.0
  {
    var x := Constant(9, 0.0) + [1.0];
    SumConcat(Constant(9, 0.0), [1.0]);
    SumConstant(9, 0.0);
    SumSingleton(1.0);
    assert x[4..9] == Constant(5, 0.0);
    SumConstant(5, 0.0);
    assert x[..10] == x;
  }

  /** `second_harmonic`: the (n, 1) column of the second harmonic. */
  function SecondHarmonic(h: Matrix): (r: seq<real>)
    requires h.width >= 2
    ensures |r| == |h.rows|
  {
    Column(h, 1)
  }

  /** The second harmonic read from a spectrum is, in every row, the
      amplitude at the first bin nearest to twice the power frequency. */
  lemma SecondHarmonicIsNearestBin(spec: Matrix, window: int, n: nat, powerFrequency: real,
                                   samplingRate: real, r: nat)
    requires window >= 1 && n >= 2 && spec.width == window / 2 + 1 && r < |spec.rows|
    ensures var s := SecondHarmonic(HarmonicColumns(spec, window, n, powerFrequency, samplingRate));
            exists k :: IsNearestBin(BinFrequencies(window, samplingRate), 2.0 * powerFrequency, k)
                        && s[r] == spec.rows[r][k]
  {
    HarmonicColumnsAreNearestBins(spec, window, n, powerFrequency, samplingRate, r, 1);
    assert HarmonicTarget(1, powerFrequency) == 2.0 * powerFrequency;
  }

  /** The second harmonic of a spectrum's harmonic columns is, in every row,
      the amplitude at the bin nearest to twice the power frequency; with the
      defaults and window 8192 that is 100 Hz at bin 128. */
  lemma SecondHarmonicAtBin128(spec: Matrix, n: nat)
    requires spec.width == 4097 && n >= 2
    ensures var s := SecondHarmonic(HarmonicColumns(spec, 8192, n, PowerFrequency, SamplingRate));
            forall i :: 0 <= i < |spec.rows| ==> s[i] == spec.rows[i][128]
  {
    assert BinFrequencies(8192, SamplingRate)[128] == 128.0 * 6400.0 / 8192.0;
    HarmonicIndexOfExactBin(8192, SamplingRate, n, PowerFrequency, 1, 128);
  }

  /** The default mains amplitude of `harmonics_energy_distribution` and
      `total_harmonic_distortion`: 50 Hz at 6400 Hz sampling. */
  function DefaultMainsAmplitude(spec: Matrix): (r: Result<seq<real>, SpectralError>)
    requires spec.width != 1
    ensures var freqs := SpectrumFrequencies(spec.width, SamplingRate);
            && (r.Ok? <==> PowerFrequency in freqs)
            && (r.Err? ==> r.error == InvalidMainsFrequency(PowerFrequency))
            && (r.Ok? ==> |r.value| == |spec.rows|
                          && exists k :: IsFirstBinAt(freqs, PowerFrequency, k)
                                         && forall i :: 0 <= i < |spec.rows| ==> r.value[i] == spec.rows[i][k])
  {
    MainsFrequencyAmplitude(spec)
  }

  /** A non-zero mains amplitude in every row, as the divisions need. */
  predicate MainsAmplitudeNonZero(spec: Matrix)
    requires spec.width != 1
  {
    var m := DefaultMainsAmplitude(spec);
    m.Ok? ==> forall i :: 0 <= i < |m.value| ==> m.value[i] != 0.0
  }

  /** `harmonics_energy_distribution`: every harmonic amplitude divided by
      its row's mains amplitude. numpy broadcasts a one-row operand over the
      other's rows; any other pair of row counts raises (BroadcastMismatch).
      The mains lookup runs first, so its error comes first. */
  function HarmonicsEnergyDistribution(h: Matrix, spec: Matrix): (r: Result<Matrix, SpectralError>)
    requires spec.width != 1
    requires MainsAmplitudeNonZero(spec)
    ensures var m := DefaultMainsAmplitude(spec);
            var rows := BroadcastRows(|h.rows|, |spec.rows|);
            && (r.Ok? <==> m.Ok? && rows.Some?)
            && (m.Err? ==> r == Err(m.error))
            && (m.Ok? && rows.None? ==> r == Err(BroadcastMismatch(|h.rows|, |spec.rows|)))
            && (r.Ok? ==> |r.value.rows| == rows.value && r.value.width == h.width)
    ensures var m := DefaultMainsAmplitude(spec);
            r.Ok? ==> forall i, j {:trigger r.value.rows[i][j]} :: 0 <= i < |r.value.rows| && 0 <= j < h.width ==>
                        r.value.rows[i][j] * m.value[Source(i, |spec.rows|)] == h.rows[Source(i, |h.rows|)][j]
  {
    var m := DefaultMainsAmplitude(spec);
    if m.Err? then Err(m.error) else DivideByMains(h, m.value)
  }

  /** The division step of HED once the mains column `m` is known: numpy's
      row broadcast of the harmonics over `m`, or BroadcastMismatch. */
  function DivideByMains(h: Matrix, m: seq<real>): (r: Result<Matrix, SpectralError>)
    requires forall i :: 0 <= i < |m| ==> m[i] != 0.0
    ensures var rows := BroadcastRows(|h.rows|, |m|);
            && (r.Ok? <==> rows.Some?)
            && (rows.None? ==> r == Err(BroadcastMismatch(|h.rows|, |m|)))
            && (r.Ok? ==> |r.value.rows| == rows.value && r.value.width == h.width)
    ensures r.Ok? ==> forall i, j {:trigger r.value.rows[i][j]} :: 0 <= i < |r.value.rows| && 0 <= j < h.width ==>
                        r.value.rows[i][j] * m[Source(i, |m|)] == h.rows[Source(i, |h.rows|)][j]
  {
    if BroadcastRows(|h.rows|, |m|).None? then Err(BroadcastMismatch(|h.rows|, |m|))
    else Ok(BroadcastDivide(h, m))
  }

  /** A one-row spectrum's single mains amplitude divides every harmonics row. */
  lemma EnergyDistributionOfOneRowSpectrum(h: Matrix, spec: Matrix)
    requires spec.width != 1 && |spec.rows| == 1
    requires MainsAmplitudeNonZero(spec) && DefaultMainsAmplitude(spec).Ok?
    ensures var r := HarmonicsEnergyDistribution(h, spec);
            var m := DefaultMainsAmplitude(spec).value;
            && r.Ok? && |r.value.rows| == |h.rows|
            && forall i, j :: 0 <= i < |h.rows| && 0 <= j < h.width ==> r.value.rows[i][j] * m[0] == h.rows[i][j]
  {
    var r := HarmonicsEnergyDistribution(h, spec).value;
    assert forall i :: 0 <= i < |h.rows| ==> Source(i, 1) == 0 && Source(i, |h.rows|) == i;
  }

  /** One harmonics row against a spectrum of several rows is stretched: row
      i of the HED is that harmonics row over row i's mains amplitude. */
  lemma EnergyDistributionOfOneRowHarmonics(h: Matrix, spec: Matrix)
    requires spec.width != 1 && |h.rows| == 1
    requires MainsAmplitudeNonZero(spec) && DefaultMainsAmplitude(spec).Ok?
    ensures var r := HarmonicsEnergyDistribution(h, spec);
            var m := DefaultMainsAmplitude(spec).value;
            && r.Ok? && |r.value.rows| == |spec.rows|
            && forall i, j :: 0 <= i < |spec.rows| && 0 <= j < h.width ==> r.value.rows[i][j] * m[i] == h.rows[0][j]
  {
    var r := HarmonicsEnergyDistribution(h, spec).value;
    assert forall i :: 0 <= i < |spec.rows| ==> Source(i, 1) == 0 && Source(i, |spec.rows|) == i;
  }

  /** A batch of two harmonics rows against a three-row spectrum cannot be
      broadcast. */
  lemma EnergyDistributionRejectsMismatchedRows(h: Matrix, spec: Matrix)
    requires spec.width != 1 && |h.rows| == 2 && |spec.rows| == 3
    requires MainsAmplitudeNonZero(spec) && DefaultMainsAmplitude(spec).Ok?
    ensures HarmonicsEnergyDistribution(h, spec) == Err(BroadcastMismatch(2, 3))
  {
  }

  /** When 50 Hz is one of a spectrum's bins, the first harmonic column read
      from that spectrum is its default mains amplitude. */
  lemma FundamentalIsMainsAmplitude(spec: Matrix, n: nat)
    requires spec.width >= 2 && n >= 1
    requires PowerFrequency in SpectrumFrequencies(spec.width, SamplingRate)
    ensures var h := HarmonicColumns(spec, WindowFromSpectrum(spec.width), n, PowerFrequency, SamplingRate);
            var m := DefaultMainsAmplitude(spec);
            m.Ok? && forall i :: 0 <= i < |spec.rows| ==> h.rows[i][0] == m.value[i]
  {
    var w := WindowFromSpectrum(spec.width);
    var freqs := SpectrumFrequencies(spec.width, SamplingRate);
    var m := DefaultMainsAmplitude(spec);
    var k :| IsFirstBinAt(freqs, PowerFrequency, k) && forall i :: 0 <= i < |spec.rows| ==> m.value[i] == spec.rows[i][k];
    assert HarmonicTarget(0, PowerFrequency) == PowerFrequency;
    HarmonicIndexOfExactBin(w, SamplingRate, n, PowerFrequency, 0, k);
  }

  /** When the harmonics come from the same spectrum and 50 Hz is one of its
      bins, the fundamental's energy share is exactly 1 in every row. */
  lemma FundamentalEnergyShareIsOne(spec: Matrix, n: nat)
    requires spec.width >= 2 && n >= 1
    requires PowerFrequency in SpectrumFrequencies(spec.width, SamplingRate)
    requires MainsAmplitudeNonZero(spec)
    ensures var h := HarmonicColumns(spec, WindowFromSpectrum(spec.width), n, PowerFrequency, SamplingRate);
            var r := HarmonicsEnergyDistribution(h, spec);
            r.Ok? && forall i :: 0 <= i < |spec.rows| ==> r.value.rows[i][0] == 1.0
  {
    var h := HarmonicColumns(spec, WindowFromSpectrum(spec.width), n, PowerFrequency, SamplingRate);
    FundamentalIsMainsAmplitude(spec, n);
    ShareOfDivisorIsOne(h, spec);
  }

  /** Dividing a column by itself gives 1 in every row. */
  lemma ShareOfDivisorIsOne(h: Matrix, spec: Matrix)
    requires spec.width != 1 && |h.rows| == |spec.rows| && h.width >= 1
    requires MainsAmplitudeNonZero(spec)
    requires var m := DefaultMainsAmplitude(spec);
             m.Ok? && forall i :: 0 <= i < |spec.rows| ==> h.rows[i][0] == m.value[i]
    ensures var r := HarmonicsEnergyDistribution(h, spec);
            r.Ok? && forall i :: 0 <= i < |spec.rows| ==> r.value.rows[i][0] == 1.0
  {
    var m := DefaultMainsAmplitude(spec).value;
    var r := HarmonicsEnergyDistribution(h, spec).value;
    forall i | 0 <= i < |spec.rows| ensures r.rows[i][0] == 1.0 {
      SourceOfEqualRows(i, |spec.rows|);
      assert r.rows[i][0] * m[i] == h.rows[i][0];
      ShareOfRow(r.rows[i][0], h.rows[i][0], m[i]);
    }
  }

  /** `total_harmonic_distortion`: each row's root-mean-square harmonic
      amplitude (`rowRms`, computed outside this core) over its mains
      amplitude, with the rows broadcast as in the energy distribution;
      fails as the mains lookup or the broadcast fails. */
  function TotalHarmonicDistortion(h: Matrix, spec: Matrix, rowRms: seq<real> -> real): (r: Result<seq<real>, SpectralError>)
    requires spec.width != 1
    requires MainsAmplitudeNonZero(spec)
    ensures var m := DefaultMainsAmplitude(spec);
            var rows := BroadcastRows(|h.rows|, |spec.rows|);
            && (r.Ok? <==> m.Ok? && rows.Some?)
            && (m.Err? ==> r == Err(m.error))
            && (m.Ok? && rows.None? ==> r == Err(BroadcastMismatch(|h.rows|, |spec.rows|)))
            && (r.Ok? ==> |r.value| == rows.value)
    ensures var m := DefaultMainsAmplitude(spec);
            r.Ok? ==> forall i {:trigger r.value[i]} :: 0 <= i < |r.value| ==>
                        r.value[i] * m.value[Source(i, |spec.rows|)] == rowRms(h.rows[Source(i, |h.rows|)])
  {
    var m := DefaultMainsAmplitude(spec);
    if m.Err? then Err(m.error) else RmsOverMains(h, rowRms, m.value)
  }

  /** The division step of THD once the mains column `m` is known: numpy's
      row broadcast of the (n, 1) rms column over `m`, or BroadcastMismatch. */
  function RmsOverMains(h: Matrix, rowRms: seq<real> -> real, m: seq<real>): (r: Result<seq<real>, SpectralError>)
    requires forall i :: 0 <= i < |m| ==> m[i] != 0.0
    ensures var rows := BroadcastRows(|h.rows|, |m|);
            && (r.Ok? <==> rows.Some?)
            && (rows.None? ==> r == Err(BroadcastMismatch(|h.rows|, |m|)))
            && (r.Ok? ==> |r.value| == rows.value)
    ensures r.Ok? ==> forall i {:trigger r.value[i]} :: 0 <= i < |r.value| ==>
                        r.value[i] * m[Source(i, |m|)] == rowRms(h.rows[Source(i, |h.rows|)])
  {
    if BroadcastRows(|h.rows|, |m|).None? then Err(BroadcastMismatch(|h.rows|, |m|))
    else Ok(BroadcastDivideColumn(RmsColumn(h, rowRms), m))
  }

  /** `rms(harmonics_amp)`: the (n, 1) column of per-row rms values. */
  function RmsColumn(h: Matrix, rowRms: seq<real> -> real): (c: seq<real>)
    ensures |c| == |h.rows|
    ensures forall i :: 0 <= i < |h.rows| ==> c[i] == rowRms(h.rows[i])
  {
    seq(|h.rows|, i requires 0 <= i < |h.rows| => rowRms(h.rows[i]))
  }

  /** `signal_to_signal_mean_ratio`: each row's maximum over its mean. */
  function SignalToSignalMeanRatio(spec: Matrix): (r: seq<real>)
    requires spec.width >= 1
    requires forall i :: 0 <= i < |spec.rows| ==> Sum(spec.rows[i]) != 0.0
    ensures |r| == |spec.rows|
    ensures forall i :: 0 <= i < |spec.rows| ==>
              Mean(spec.rows[i]) != 0.0 && r[i] * Mean(spec.rows[i]) == Max(spec.rows[i])
  {
    seq(|spec.rows|, i requires 0 <= i < |spec.rows| => Max(spec.rows[i]) / Mean(spec.rows[i]))
  }

  /** For a non-negative spectrum row with a positive sum, the peak-to-mean
      ratio lies between 1 (a flat row) and the number of bins (a single
      non-zero bin). */
  lemma SignalToSignalMeanRatioBounds(spec: Matrix, i: nat)
    requires spec.width >= 1 && i < |spec.rows|
    requires forall j :: 0 <= j < |spec.rows| ==> Sum(spec.rows[j]) != 0.0
    requires NonNegative(spec.rows[i]) && Sum(spec.rows[i]) > 0.0
    ensures 1.0 <= SignalToSignalMeanRatio(spec)[i] <= spec.width as real
  {
    var x := spec.rows[i];
    var n := |x| as real;
    var m := Max(x);
    SumAtMostLengthTimes(x, m);
    MaxAtMostSum(x);
    RatioBounds(m, Sum(x), n);
  }

}
