/** Filter dispatch: `apply_bandpass_filter` of the acquisition tool and
    `apply_lowpass_filter` of the viewer. The Butterworth design and the
    forward-backward filtering itself are numerics from SciPy; they are the
    parameter `filt`, of which only two facts are used: it returns a signal of
    the input's length, and `filtfilt` refuses a signal that is not longer
    than its default pad length, three times the number of filter
    coefficients. */
module Filters {
  import opened Optional

  /** The normalised critical frequencies handed to `butter`. */
  datatype Band = LowPass(cutoff: real) | BandPass(low: real, high: real)

  /** `butter(order, Wn, btype=...)`. */
  datatype Design = Design(order: nat, band: Band)

  /** `filtfilt(b, a, sig)` for the coefficients of a design: zero-phase
      filtering keeps the signal's length. */
  type ZeroPhaseFilter = f: (Design, seq<real>) -> seq<real>
    | forall d, s :: |f(d, s)| == |s|
    witness (d: Design, s: seq<real>) => s

  /** Coefficients in each of `b` and `a`: order + 1 for a low-pass, and
      2 * order + 1 for a band-pass, whose order doubles. */
  function CoefficientCount(d: Design): (n: nat)
    ensures n > d.order
  {
    match d.band
    case LowPass(_) => d.order + 1
    case BandPass(_, _) => 2 * d.order + 1
  }

  /** `filtfilt`'s default `padlen`, `3 * max(len(a), len(b))`. */
  function PadLen(d: Design): nat {
    3 * CoefficientCount(d)
  }

  /** `filtfilt(b, a, sig)`: `None` where it raises because the signal is not
      longer than the pad length. */
  function FiltFilt(filt: ZeroPhaseFilter, d: Design, sig: seq<real>): (r: Option<seq<real>>)
    ensures r.Some? <==> |sig| > PadLen(d)
    ensures r.Some? ==> |r.value| == |sig| && r.value == filt(d, sig)
  {
    if |sig| > PadLen(d) then Some(filt(d, sig)) else None
  }

  /** The design `apply_bandpass_filter` asks for: frequencies are divided
      by the Nyquist rate `0.5 * fs`; a non-positive `lowcut` selects a
      low-pass at `highcut`. */
  function BandDesign(lowcut: real, highcut: real, fs: real, order: nat): (d: Design)
    requires fs > 0.0
    ensures d.order == order
    ensures d.band.LowPass? <==> lowcut <= 0.0
    ensures d.band.LowPass? ==> d.band.cutoff * (0.5 * fs) == highcut
    ensures d.band.BandPass? ==> d.band.low * (0.5 * fs) == lowcut && d.band.high * (0.5 * fs) == highcut
  {
    var nyq := 0.5 * fs;
    if lowcut <= 0.0 then Design(order, LowPass(highcut / nyq))
    else Design(order, BandPass(lowcut / nyq, highcut / nyq))
  }

  /** The designs SciPy's `butter` accepts: every normalised frequency
      strictly between 0 and 1, and a band's low edge below its high edge. */
  predicate ButterAccepts(d: Design) {
    match d.band
    case LowPass(cutoff) => 0.0 < cutoff < 1.0
    case BandPass(low, high) => 0.0 < low < high < 1.0
  }

  /** The designs the two tools ask for are ones `butter` accepts: the
      acquisition tool's 0.5 to 30 Hz band at 500 Hz, and the viewer's
      50 Hz low-pass at 500 Hz. */
  lemma ToolDesignsAccepted()
    ensures ButterAccepts(BandDesign(0.5, 30.0, 500.0, 5))
    ensures ButterAccepts(Design(5, LowPass(50.0 / (0.5 * 500.0))))
  {
  }

  /** `apply_bandpass_filter(sig, lowcut, highcut, fs, order)` as written:
      a signal shorter than `3 * order` comes back unchanged; any other is
      filtered with the design above, and `None` stands for the exception
      `filtfilt` raises on a signal it finds too short. */
  function BandpassFilter(sig: seq<real>, lowcut: real, highcut: real, fs: real, order: nat,
                          filt: ZeroPhaseFilter): (r: Option<seq<real>>)
    requires fs > 0.0
    ensures |sig| < 3 * order ==> r == Some(sig)
    ensures |sig| >= 3 * order ==> r == FiltFilt(filt, BandDesign(lowcut, highcut, fs, order), sig)
    ensures r.Some? ==> |r.value| == |sig|
  {
    if |sig| < 3 * order then Some(sig)
    else FiltFilt(filt, BandDesign(lowcut, highcut, fs, order), sig)
  }

  /** The guard `len(sig) < order * 3` is shorter than a band-pass's pad
      length: with the defaults (order 5, `lowcut` 0.5 Hz) a recording of 15
      samples passes the guard and `filtfilt` rejects it. */
  lemma BandpassGuardTooShort(sig: seq<real>, filt: ZeroPhaseFilter)
    requires |sig| == 15
    ensures BandpassFilter(sig, 0.5, 30.0, 500.0, 5, filt) == None
  {
    assert PadLen(BandDesign(0.5, 30.0, 500.0, 5)) == 33;
  }

  /** A corrected `apply_bandpass_filter` that never fails: the no-op guard
      is widened to the pad length, so a signal too short for `filtfilt`
      comes back unchanged. Signals of 15 to 33 samples, which the original
      guard meant to filter, are left unfiltered by this correction. */
  function BandpassFilterSafe(sig: seq<real>, lowcut: real, highcut: real, fs: real, order: nat,
                              filt: ZeroPhaseFilter): (r: seq<real>)
    requires fs > 0.0
    ensures |r| == |sig|
    ensures |sig| <= PadLen(BandDesign(lowcut, highcut, fs, order)) ==> r == sig
    ensures |sig| > PadLen(BandDesign(lowcut, highcut, fs, order)) ==>
              Some(r) == FiltFilt(filt, BandDesign(lowcut, highcut, fs, order), sig)
  {
    var d := BandDesign(lowcut, highcut, fs, order);
    if |sig| <= PadLen(d) then sig else filt(d, sig)
  }

  /** Wherever the guard of `apply_bandpass_filter` lets a signal through,
      the corrected filter agrees with it; it differs only where the
      original raises. */
  lemma SafeAgreesWhereDefined(sig: seq<real>, lowcut: real, highcut: real, fs: real, order: nat,
                               filt: ZeroPhaseFilter)
    requires fs > 0.0
    ensures BandpassFilter(sig, lowcut, highcut, fs, order, filt).Some? ==>
              BandpassFilter(sig, lowcut, highcut, fs, order, filt).value
              == BandpassFilterSafe(sig, lowcut, highcut, fs, order, filt)
  {
    var d := BandDesign(lowcut, highcut, fs, order);
    assert PadLen(d) >= 3 * order;
  }

  /** `apply_lowpass_filter(sig, cutoff, fs, order)` of the viewer: a signal
      shorter than 19 samples comes back unchanged, any other is low-pass
      filtered at `cutoff / (0.5 * fs)`. */
  function LowpassFilter(sig: seq<real>, cutoff: real, fs: real, order: nat,
                         filt: ZeroPhaseFilter): (r: Option<seq<real>>)
    requires fs > 0.0
    ensures |sig| < 19 ==> r == Some(sig)
    ensures r.Some? ==> |r.value| == |sig|
  {
    if |sig| < 19 then Some(sig)
    else FiltFilt(filt, Design(order, LowPass(cutoff / (0.5 * fs))), sig)
  }

  /** With the order the viewer uses (5, or any lower), the guard of 19
      samples is exactly long enough: the low-pass never fails, and a long
      enough signal really is filtered. */
  lemma LowpassNeverFails(sig: seq<real>, cutoff: real, fs: real, order: nat, filt: ZeroPhaseFilter)
    requires fs > 0.0 && order <= 5
    ensures LowpassFilter(sig, cutoff, fs, order, filt).Some?
    ensures |sig| >= 19 ==>
              LowpassFilter(sig, cutoff, fs, order, filt).value
              == filt(Design(order, LowPass(cutoff / (0.5 * fs))), sig)
  {
    assert PadLen(Design(order, LowPass(cutoff / (0.5 * fs)))) <= 18;
  }
}
