/** The FFT window length: its default (largest power of two that fits the
    row) and its recovery from a spectrum's width. */
module Window {
  import opened Wrappers

  function Pow2(k: nat): (p: nat)
    ensures p >= 1
  {
    if k == 0 then 1 else 2 * Pow2(k - 1)
  }

  ghost predicate IsPowerOfTwo(n: int) {
    exists k: nat :: Pow2(k) == n
  }

  /** `floor(log2(n))`, computed on integers. */
  function FloorLog2(n: nat): (k: nat)
    requires n >= 1
    ensures Pow2(k) <= n < 2 * Pow2(k)
  {
    if n == 1 then 0 else 1 + FloorLog2(n / 2)
  }

  /** `int(2**floor(log2(rowLength)))`. For an empty row numpy evaluates
      log2(0) to -inf and the expression to 0. */
  function DefaultWindow(rowLength: nat): (w: nat)
    ensures rowLength == 0 ==> w == 0
    ensures rowLength >= 1 ==> IsPowerOfTwo(w) && w <= rowLength < 2 * w
  {
    if rowLength == 0 then 0 else Pow2(FloorLog2(rowLength))
  }

  /** The window used when the caller passes `window=None`. */
  function ResolveWindow(window: Option<nat>, rowLength: nat): (w: nat)
    ensures window.Some? ==> w == window.value
    ensures window.None? && rowLength == 0 ==> w == 0
    ensures window.None? && rowLength >= 1 ==> IsPowerOfTwo(w) && w <= rowLength < 2 * w
  {
    match window
    case None => DefaultWindow(rowLength)
    case Some(w) => w
  }

  /** `(spectrum_amp.shape[1] - 1) * 2`: the window whose real FFT has
      `width` bins. */
  function WindowFromSpectrum(width: nat): (w: int)
    ensures w % 2 == 0
    ensures w / 2 + 1 == width
  {
    (width - 1) * 2
  }

  lemma {:induction false} Pow2StrictlyIncreasing(a: nat, b: nat)
    requires a < b
    ensures 2 * Pow2(a) <= Pow2(b)
  {
    if a + 1 < b {
      Pow2StrictlyIncreasing(a, b - 1);
    }
  }

  /** The default window is THE power of two `p` with `p <= L < 2p`. */
  lemma DefaultWindowUnique(rowLength: nat, p: nat)
    requires rowLength >= 1
    requires IsPowerOfTwo(p) && p <= rowLength < 2 * p
    ensures DefaultWindow(rowLength) == p
  {
    var w := DefaultWindow(rowLength);
    var a: nat :| Pow2(a) == p;
    var b: nat :| Pow2(b) == w;
    if a < b {
      Pow2StrictlyIncreasing(a, b);
    } else if b < a {
      Pow2StrictlyIncreasing(b, a);
    }
  }

  /** A two-second interval at 6400 samples per second (12800 samples) gets
      the window 8192. */
  lemma DefaultWindowOfTwoSeconds()
    ensures DefaultWindow(12800) == 8192
  {
    assert Pow2(13) == 8192;
    DefaultWindowUnique(12800, 8192);
  }

  /** Every default window of a row with at least two samples is even. */
  lemma DefaultWindowEven(rowLength: nat)
    requires rowLength >= 2
    ensures DefaultWindow(rowLength) % 2 == 0 && DefaultWindow(rowLength) >= 2
  {
    var w := DefaultWindow(rowLength);
    var k: nat :| Pow2(k) == w;
    assert k != 0;
  }

  /** A spectrum of an even window `w` has `w / 2 + 1` bins; recovering the
      window from that width gives back `w`. */
  lemma WindowFromSpectrumInverts(w: int)
    requires w >= 0 && w % 2 == 0
    ensures WindowFromSpectrum(w / 2 + 1) == w
  {
  }
}
