/** Short-time spectra, their frequency/bin conversions and the per-frame memoizing store
    (src/util/spectrum.rs). */
module Spectral {

  import opened Util

  datatype Complex = Complex(re: real, im: real)

  /** `x.round() as usize`: to the nearest integer with halves away from zero, then saturated
      at 0 for negative values. */
  function RoundToUsize(x: real): (r: nat)
    ensures x >= 0.0 ==> r as real - 0.5 <= x < r as real + 0.5
    ensures x < 0.0 ==> r == 0
  {
    if x < 0.0 then 0 else (x + 0.5).Floor
  }

  lemma RoundToUsizeMonotone(a: real, b: real)
    requires a <= b
    ensures RoundToUsize(a) <= RoundToUsize(b)
  {
  }

  /** Rounding an integer gives it back. */
  lemma RoundToUsizeExact(k: nat)
    ensures RoundToUsize(k as real) == k
  {
  }

  /** The bin that holds frequency `f` in a spectrum whose bins are `sampleRate / size` apart. */
  function AbsoluteBin(size: nat, f: real, sampleRate: nat): nat
    requires sampleRate > 0
  {
    RoundToUsize(f * size as real / sampleRate as real)
  }

  /** The frequency of bin `bin` in a spectrum whose bins are `sampleRate / size` apart. */
  function BinFrequency(size: nat, bin: nat, sampleRate: nat): real
    requires size > 0
  {
    bin as real * sampleRate as real / size as real
  }

  /** A higher frequency never maps to a lower bin. */
  lemma BinForMonotone(size: nat, f1: real, f2: real, sampleRate: nat)
    requires sampleRate > 0 && f1 <= f2
    ensures AbsoluteBin(size, f1, sampleRate) <= AbsoluteBin(size, f2, sampleRate)
  {
    var c := size as real / sampleRate as real;
    assert f1 * size as real / sampleRate as real == f1 * c;
    assert f2 * size as real / sampleRate as real == f2 * c;
    assert f1 * c <= f2 * c;
    RoundToUsizeMonotone(f1 * c, f2 * c);
  }

  /** `AbsoluteBin` inverts `BinFrequency`. */
  lemma {:induction false} BinForFreq(size: nat, bin: nat, sampleRate: nat)
    requires size > 0 && sampleRate > 0
    ensures AbsoluteBin(size, BinFrequency(size, bin, sampleRate), sampleRate) == bin
  {
    var sz, sr := size as real, sampleRate as real;
    var x := BinFrequency(size, bin, sampleRate);
    assert x * sz == bin as real * sr;
    assert x * sz / sr == bin as real;
    AbsoluteBinIs(size, x, sampleRate, bin as real);
    RoundToUsizeExact(bin);
  }

  lemma AbsoluteBinIs(size: nat, f: real, sampleRate: nat, scaled: real)
    requires sampleRate > 0 && f * (size as real) / (sampleRate as real) == scaled
    ensures AbsoluteBin(size, f, sampleRate) == RoundToUsize(scaled)
  {
  }

  /** The distance in frequency between neighbouring bins of a real FFT of `windowLen` samples. */
  function BinSpacing(windowLen: nat, sampleRate: nat): real
    requires windowLen > 0
  {
    sampleRate as real / windowLen as real
  }

  /** The bins of a real FFT of `windowLen` samples are `BinSpacing` apart, so the bin
      `AbsoluteBin(windowLen, f, sampleRate)` is centred within half a bin of `f`. */
  lemma BinForNearest(windowLen: nat, f: real, sampleRate: nat)
    requires windowLen > 0 && sampleRate > 0 && f >= 0.0
    ensures var d := BinFrequency(windowLen, AbsoluteBin(windowLen, f, sampleRate), sampleRate) - f;
            -0.5 * BinSpacing(windowLen, sampleRate) <= d <= 0.5 * BinSpacing(windowLen, sampleRate)
  {
    var n, sr := windowLen as real, sampleRate as real;
    var c := BinSpacing(windowLen, sampleRate);
    var x := f * n / sr;
    AbsoluteBinIs(windowLen, f, sampleRate, x);
    var k := RoundToUsize(x);
    assert x * c == f;
    assert BinFrequency(windowLen, k, sampleRate) == k as real * c;
    var t := k as real - x;
    assert -0.5 <= t <= 0.5;
    assert BinFrequency(windowLen, k, sampleRate) - f == t * c;
    MulDivBetween(t, c);
  }

  lemma MulDivBetween(t: real, c: real)
    requires -0.5 <= t <= 0.5 && c >= 0.0
    ensures -0.5 * c <= t * c <= 0.5 * c
  {
  }

  /** The number of bins a real FFT of `windowLen` samples produces. */
  function SpectrumLen(windowLen: nat): nat { windowLen / 2 + 1 }

  /** What the store's slicing uses as the bin spacing divisor, as written: the length of the
      one-sided spectrum rather than the window length. */
  function BinsAsWritten(windowLen: nat, f: real, sampleRate: nat): nat
    requires sampleRate > 0
  {
    AbsoluteBin(SpectrumLen(windowLen), f, sampleRate)
  }

  /** With the one-sided length as divisor, 1000 Hz in a 4096-sample window at 48 kHz lands in
      bin 43, whose centre is about 504 Hz, far more than half a bin (about 5.9 Hz) from 1000 Hz. */
  lemma BinsAsWrittenMisplaced()
    ensures BinsAsWritten(4096, 1000.0, 48000) == 43
    ensures BinFrequency(4096, 43, 48000) < 1000.0 - 0.5 * BinSpacing(4096, 48000)
  {
    assert 1000.0 * 2049.0 / 48000.0 == 42.6875;
  }

  /** The frequencies a spectrum covers: all of them, or `[fMin, fMax]`. */
  datatype FrequencyRange = Unbounded | Between(fMin: real, fMax: real) {
    predicate Contains(f: real)
    {
      match this
      case Unbounded => f >= 0.0
      case Between(lo, hi) => lo <= f <= hi
    }

    /** What the store's constructor asserts of a range. */
    predicate Valid()
    {
      Between? ==> 0.0 < fMin < fMax
    }
  }

  /** A slice `bins` of a spectrum of `origLen` bins, starting at absolute bin `bin0`, covering
      the frequencies of `range`. */
  datatype Spectrum = Spectrum(bins: seq<Complex>, bin0: nat, origLen: nat, range: FrequencyRange) {

    /** The slice is the one cut at `sampleRate` with bins `sampleRate / size` apart: bins `bin0`
        to `bin0 + |bins|` of the full spectrum, the ends being the bins of the range's ends. */
    predicate CutBy(size: nat, sampleRate: nat)
    {
      && sampleRate > 0 && range.Valid()
      && bin0 + |bins| <= origLen
      && match range
         case Unbounded => bin0 == 0 && |bins| == origLen
         case Between(lo, hi) =>
           lo <= hi && bin0 == AbsoluteBin(size, lo, sampleRate)
           && bin0 + |bins| == AbsoluteBin(size, hi, sampleRate)
    }

    /** The slice the store cuts, which uses the full spectrum's length as the divisor. */
    predicate ComputedAt(sampleRate: nat)
    {
      CutBy(origLen, sampleRate)
    }

    /** The bin of `f` relative to the slice, with the full spectrum's length as the divisor; the
        subtraction cannot underflow because the range starts at `bin0`, and the ends of the range
        map to `0` and `|bins|`. */
    function BinFor(f: real, sampleRate: nat): (r: nat)
      requires ComputedAt(sampleRate) && range.Contains(f)
      ensures r + bin0 == AbsoluteBin(origLen, f, sampleRate)
      ensures r <= |bins| || range.Unbounded?
    {
      var abs := AbsoluteBin(origLen, f, sampleRate);
      if range.Unbounded? then abs
      else
        BinForMonotone(origLen, range.fMin, f, sampleRate);
        BinForMonotone(origLen, f, range.fMax, sampleRate);
        abs - bin0
    }

    /** The frequency of bin `bin` of the slice, with the full spectrum's length as the divisor. */
    function Freq(bin: nat, sampleRate: nat): (f: real)
      requires origLen > 0
      ensures f == BinFrequency(origLen, bin0 + bin, sampleRate)
      ensures sampleRate > 0 ==> AbsoluteBin(origLen, f, sampleRate) == bin0 + bin
    {
      if sampleRate > 0 then
        BinForFreq(origLen, bin0 + bin, sampleRate);
        BinFrequency(origLen, bin0 + bin, sampleRate)
      else BinFrequency(origLen, bin0 + bin, sampleRate)
    }
  }

  /** A slice's frequency and bin conversions are inverse on the slice. */
  lemma SliceBinFreq(s: Spectrum, bin: nat, sampleRate: nat)
    requires s.ComputedAt(sampleRate) && s.origLen > 0 && s.range.Contains(s.Freq(bin, sampleRate))
    ensures s.BinFor(s.Freq(bin, sampleRate), sampleRate) == bin
  {
  }

  /** Cuts the full spectrum `full` to `range` at `sampleRate`, as written: the bins of the
      range's ends are computed with `|full|`, the one-sided spectrum's length, as the divisor.
      Slicing past the end of `full` panics; so does any range at sample rate 0, where both ends
      saturate to the largest `usize`. */
  function Slice(full: seq<Complex>, range: FrequencyRange, sampleRate: nat): (o: Outcome<Spectrum>)
    requires range.Valid()
    ensures range.Unbounded? ==> o == Done(Ok(Spectrum(full, 0, |full|, Unbounded)))
    ensures range.Between? && sampleRate == 0 ==> o.Panic?
    ensures range.Between? && sampleRate > 0 ==>
              var lo, hi := AbsoluteBin(|full|, range.fMin, sampleRate), AbsoluteBin(|full|, range.fMax, sampleRate);
              lo <= hi && (o.Panic? <==> hi > |full|)
              && (o.Done? ==> o == Done(Ok(Spectrum(full[lo..hi], lo, |full|, range))))
    ensures o.Done? ==> o.result.Ok? && (sampleRate > 0 ==> o.result.value.ComputedAt(sampleRate))
  {
    match range
    case Unbounded => Done(Ok(Spectrum(full, 0, |full|, Unbounded)))
    case Between(fMin, fMax) =>
      if sampleRate == 0 then Panic("range start index out of range for slice")
      else
        var lo := AbsoluteBin(|full|, fMin, sampleRate);
        var hi := AbsoluteBin(|full|, fMax, sampleRate);
        BinForMonotone(|full|, fMin, fMax, sampleRate);
        if hi > |full| then Panic("range end index out of range for slice")
        else Done(Ok(Spectrum(full[lo..hi], lo, |full|, range)))
  }

  /** At 48 kHz with the default window of 4096 samples (2049 bins) and the default range, the
      store as written keeps bins 1 to 337, while the bin of 7902.13 Hz is 674. */
  lemma DefaultRangeAsWritten(full: seq<Complex>)
    requires |full| == SpectrumLen(4096)
    ensures Slice(full, Between(16.35, 7902.13), 48000)
            == Done(Ok(Spectrum(full[1..337], 1, 2049, Between(16.35, 7902.13))))
    ensures AbsoluteBin(4096, 7902.13, 48000) == 674
  {
    AbsoluteBinIs(2049, 16.35, 48000, 223341.0 / 320000.0);
    AbsoluteBinIs(2049, 7902.13, 48000, 539715479.0 / 1600000.0);
    AbsoluteBinIs(4096, 7902.13, 48000, 6321704.0 / 9375.0);
  }

  /** The cut the store evidently intends: the bins of the range's ends computed with the window
      length as the divisor, so that the first bin kept is the one nearest to `fMin`. */
  function SliceCorrected(full: seq<Complex>, windowLen: nat, range: FrequencyRange, sampleRate: nat)
    : (o: Outcome<Spectrum>)
    requires windowLen > 0 && range.Valid()
    ensures range.Unbounded? ==> o == Done(Ok(Spectrum(full, 0, |full|, Unbounded)))
    ensures range.Between? && sampleRate == 0 ==> o.Panic?
    ensures range.Between? && sampleRate > 0 ==>
              var lo, hi := AbsoluteBin(windowLen, range.fMin, sampleRate), AbsoluteBin(windowLen, range.fMax, sampleRate);
              lo <= hi && (o.Panic? <==> hi > |full|)
              && (o.Done? ==> o == Done(Ok(Spectrum(full[lo..hi], lo, |full|, range))))
    ensures o.Done? && sampleRate > 0 ==> o.result.Ok? && o.result.value.CutBy(windowLen, sampleRate)
    ensures o.Done? && sampleRate > 0 && range.Between? ==>
              var d := BinFrequency(windowLen, o.result.value.bin0, sampleRate) - range.fMin;
              -0.5 * BinSpacing(windowLen, sampleRate) <= d <= 0.5 * BinSpacing(windowLen, sampleRate)
  {
    match range
    case Unbounded => Done(Ok(Spectrum(full, 0, |full|, Unbounded)))
    case Between(fMin, fMax) =>
      if sampleRate == 0 then Panic("range start index out of range for slice")
      else
        var lo := AbsoluteBin(windowLen, fMin, sampleRate);
        var hi := AbsoluteBin(windowLen, fMax, sampleRate);
        BinForMonotone(windowLen, fMin, fMax, sampleRate);
        BinForNearest(windowLen, fMin, sampleRate);
        if hi > |full| then Panic("range end index out of range for slice")
        else Done(Ok(Spectrum(full[lo..hi], lo, |full|, range)))
  }

  /** The bin of `f` relative to a slice cut with the window length as the divisor; its centre
      lies within half a bin of `f`. */
  function BinForCorrected(s: Spectrum, windowLen: nat, f: real, sampleRate: nat): (r: nat)
    requires windowLen > 0 && s.CutBy(windowLen, sampleRate) && s.range.Contains(f)
    ensures r + s.bin0 == AbsoluteBin(windowLen, f, sampleRate)
    ensures r <= |s.bins| || s.range.Unbounded?
    ensures var d := BinFrequency(windowLen, s.bin0 + r, sampleRate) - f;
            -0.5 * BinSpacing(windowLen, sampleRate) <= d <= 0.5 * BinSpacing(windowLen, sampleRate)
  {
    var abs := AbsoluteBin(windowLen, f, sampleRate);
    BinForNearest(windowLen, f, sampleRate);
    if s.range.Unbounded? then abs
    else
      BinForMonotone(windowLen, s.range.fMin, f, sampleRate);
      BinForMonotone(windowLen, f, s.range.fMax, sampleRate);
      abs - s.bin0
  }

  /** The frequency of bin `bin` of a slice cut with the window length as the divisor; it maps
      back to that bin. */
  function FreqCorrected(s: Spectrum, windowLen: nat, bin: nat, sampleRate: nat): (f: real)
    requires windowLen > 0
    ensures f == BinFrequency(windowLen, s.bin0 + bin, sampleRate)
    ensures sampleRate > 0 ==> AbsoluteBin(windowLen, f, sampleRate) == s.bin0 + bin
  {
    if sampleRate > 0 then
      BinForFreq(windowLen, s.bin0 + bin, sampleRate);
      BinFrequency(windowLen, s.bin0 + bin, sampleRate)
    else BinFrequency(windowLen, s.bin0 + bin, sampleRate)
  }

  /** The Hann-windowed copy of `data`: sample `n` scaled by `coefficient(n, |data|)`. */
  function Windowed(data: seq<real>, coefficient: (nat, nat) -> real): (r: seq<real>)
    ensures |r| == |data|
  {
    seq(|data|, n requires 0 <= n < |data| => data[n] * coefficient(n, |data|))
  }

  function Scale(z: Complex, c: real): Complex
  {
    Complex(z.re * c, z.im * c)
  }

  /** Every coefficient multiplied by `c`. */
  function Scaled(s: seq<Complex>, c: real): (r: seq<Complex>)
    ensures |r| == |s|
  {
    seq(|s|, k requires 0 <= k < |s| => Scale(s[k], c))
  }

  /** A short-time Fourier transform over a fixed window. The window coefficient (the cosine),
      the forward real FFT and `1 / sqrt(windowLen)` are parameters. */
  class Stft {
    const windowLen: nat
    const input: array<real>
    const output: array<Complex>
    const coefficient: (nat, nat) -> real
    const fft: seq<real> -> seq<Complex>
    const normalization: real

    /** A real FFT of `windowLen` samples yields `windowLen / 2 + 1` bins. */
    ghost predicate Valid()
      reads this
    {
      && input.Length == windowLen
      && output.Length == SpectrumLen(windowLen)
      && forall s: seq<real> :: |fft(s)| == SpectrumLen(windowLen)
    }

    constructor (windowLen: nat, coefficient: (nat, nat) -> real, fft: seq<real> -> seq<Complex>, normalization: real)
      requires forall s: seq<real> :: |fft(s)| == SpectrumLen(windowLen)
      ensures Valid() && fresh(input) && fresh(output)
      ensures this.windowLen == windowLen && this.coefficient == coefficient
      ensures this.fft == fft && this.normalization == normalization
      ensures forall k | 0 <= k < output.Length :: output[k] == Complex(0.0, 0.0)
    {
      this.windowLen := windowLen;
      this.coefficient := coefficient;
      this.fft := fft;
      this.normalization := normalization;
      input := new real[windowLen](_ => 0.0);
      output := new Complex[SpectrumLen(windowLen)](_ => Complex(0.0, 0.0));
    }

    /** Windows a copy of `data` in place, transforms it and normalizes the bins in place. The
        source asserts that `data` is exactly one window long. */
    method Compute(data: seq<real>)
      requires Valid() && |data| == windowLen
      modifies input, output
      ensures output[..] == Scaled(fft(Windowed(data, coefficient)), normalization)
    {
      forall n | 0 <= n < windowLen {
        input[n] := data[n];
      }
      assert input[..] == data;
      ApplyWindow();
      var bins := fft(input[..]);
      forall k | 0 <= k < output.Length {
        output[k] := bins[k];
      }
      assert output[..] == bins;
      Normalize();
    }

    /** Multiplies each input sample by its window coefficient, in place. */
    method ApplyWindow()
      requires Valid()
      modifies input
      ensures input[..] == Windowed(old(input[..]), coefficient)
    {
      ghost var data := input[..];
      var n := 0;
      while n < windowLen
        invariant 0 <= n <= windowLen
        invariant forall i | 0 <= i < n :: input[i] == data[i] * coefficient(i, windowLen)
        invariant forall i | n <= i < windowLen :: input[i] == data[i]
      {
        input[n] := input[n] * coefficient(n, windowLen);
        n := n + 1;
      }
      assert forall i | 0 <= i < windowLen :: input[..][i] == Windowed(data, coefficient)[i];
    }

    /** Multiplies each output bin by the normalization, in place. */
    method Normalize()
      requires Valid()
      modifies output
      ensures output[..] == Scaled(old(output[..]), normalization)
    {
      ghost var bins := output[..];
      var k := 0;
      while k < output.Length
        invariant 0 <= k <= output.Length
        invariant forall i | 0 <= i < k :: output[i] == Scale(bins[i], normalization)
        invariant forall i | k <= i < output.Length :: output[i] == bins[i]
      {
        output[k] := Scale(output[k], normalization);
        k := k + 1;
      }
      assert output[..] == Scaled(bins, normalization);
    }

    function Get(): (r: seq<Complex>)
      reads this, output
      requires Valid()
      ensures |r| == SpectrumLen(windowLen)
    {
      output[..]
    }
  }

  /** A spectrum computed at most once per frame identity, cut to a frequency range. */
  class SpectrumStore {
    const stft: Stft
    const windowLen: nat
    const lastId: LastFrameId
    const range: FrequencyRange

    ghost predicate Valid()
      reads this, stft
    {
      stft.Valid() && windowLen == stft.windowLen && windowLen > 0 && range.Valid()
    }

    /** The source asserts `0 < fMin < fMax` of a range. */
    constructor (stft: Stft, range: FrequencyRange)
      requires stft.Valid() && stft.windowLen > 0 && range.Valid()
      ensures Valid() && fresh(lastId)
      ensures this.stft == stft && windowLen == stft.windowLen && this.range == range
      ensures lastId.id == DefaultFrameId
    {
      this.stft := stft;
      windowLen := stft.windowLen;
      lastId := new LastFrameId();
      this.range := range;
    }

    /** Recomputes the spectrum iff `id` is new (a new window must then be exactly `windowLen`
        samples, or the transform's assertion fails), then cuts the full spectrum to the range. */
    method Compute(id: FrameId, data: seq<real>, sampleRate: nat) returns (o: Outcome<Spectrum>)
      requires Valid()
      modifies lastId, stft.input, stft.output
      ensures lastId.id == id
      ensures old(lastId.id) != id && |data| != windowLen ==> o.Panic?
      ensures old(lastId.id) != id && |data| == windowLen ==>
                stft.Get() == Scaled(stft.fft(Windowed(data, stft.coefficient)), stft.normalization)
      ensures old(lastId.id) == id ==> stft.output[..] == old(stft.output[..])
      ensures !(old(lastId.id) != id && |data| != windowLen) ==>
                o == Slice(stft.Get(), range, sampleRate)
    {
      var changed := lastId.Update(id);
      if changed {
        if |data| != windowLen {
          return Panic("invalid window size");
        }
        stft.Compute(data);
      }
      o := Slice(stft.output[..], range, sampleRate);
    }
  }
}
