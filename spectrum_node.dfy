/** The node that turns audio into a spectrum of one window (src/processors/spectrum.rs). */
module SpectrumProcessor {

  import opened Util
  import opened Node
  import opened Inputs
  import opened Options
  import opened Audio
  import opened Spectral

  const WindowSizeKey: string := "window-size"
  const RangeKey: string := "frequency-range"
  const DefaultWindowSize: int := 4096
  /** C0 and B8 of scientific pitch notation. */
  const DefaultFMin: real := 16.35
  const DefaultFMax: real := 7902.13

  /** The node advertises spectra only. */
  const Capabilities: set<Capability> := {Capability.ProvideSpectrum}

  /** What construction keeps: the audio input, the window length and the range to cut. */
  datatype Params = Params(input: NodeRef, windowLen: nat, range: FrequencyRange)

  /** The `window-size` option: a whole number (rounded to an `i32` with saturation), 4096 when
      absent. */
  function WindowSize(options: Options): (r: Result<int>)
    ensures r.Err? ==> r.error == InvalidOptions
    ensures WindowSizeKey !in options ==> r == Ok(DefaultWindowSize)
    ensures WindowSizeKey in options ==>
              (r.Ok? <==> AsI32(options[WindowSizeKey]).Some?)
              && (r.Ok? ==> r.value == AsI32(options[WindowSizeKey]).value)
  {
    var value := match Lookup(options, WindowSizeKey)
                 case Some(v) => v
                 case None => FromNumber(DefaultWindowSize as real);
    match AsI32(value)
    case Some(k) => Ok(k)
    case None => Err(InvalidOptions)
  }

  /** The `frequency-range` option: exactly two numbers, the first below the second;
      `(16.35, 7902.13)` when absent. */
  function Range(options: Options): (r: Result<(real, real)>)
    ensures r.Err? ==> r.error == InvalidOptions
    ensures RangeKey !in options ==> r == Ok((DefaultFMin, DefaultFMax))
    ensures RangeKey in options ==>
              var v := options[RangeKey];
              (r.Ok? <==> v.Sequence? && |v.items| == 2 && v.items[0].Number? && v.items[1].Number?
                          && v.items[0].number < v.items[1].number)
              && (r.Ok? ==> r.value == (v.items[0].number, v.items[1].number))
    ensures r.Ok? ==> r.value.0 < r.value.1
  {
    var value := match Lookup(options, RangeKey)
                 case Some(v) => v
                 case None => FromPair(FromNumber(DefaultFMin), FromNumber(DefaultFMax));
    var slice :- match AsSlice(value) case Some(s) => Ok(s) case None => Err(InvalidOptions);
    if |slice| == 2 && slice[0].Number? && slice[1].Number? && slice[0].number < slice[1].number
    then Ok((slice[0].number, slice[1].number))
    else Err(InvalidOptions)
  }

  /** Construction: one audio input, then the two options, then the transform and the store. A
      negative window size wraps around to an enormous buffer length whose allocation aborts; a
      window of no samples is not a transform the model covers, and is counted as an abort too;
      a range starting at or below 0 fails the store's assertion. */
  function New(inputs: seq<NodeRef>, options: Options): (o: Outcome<Params>)
    ensures ValidateOne(inputs, Requires(ProvideAudioData)).Err? ==> o == Done(Err(InvalidInputs))
    ensures ValidateOne(inputs, Requires(ProvideAudioData)).Ok? ==>
              (o == Done(Err(InvalidOptions)) <==> WindowSize(options).Err? || Range(options).Err?)
    ensures o.Panic? <==> ValidateOne(inputs, Requires(ProvideAudioData)).Ok?
                          && WindowSize(options).Ok? && Range(options).Ok?
                          && (WindowSize(options).value <= 0 || Range(options).value.0 <= 0.0)
    ensures o.Done? && o.result.Ok? ==>
              var p := o.result.value;
              && p.input == inputs[0]
              && p.windowLen as int == WindowSize(options).value && p.windowLen > 0
              && p.range == Between(Range(options).value.0, Range(options).value.1)
              && p.range.Valid()
  {
    match ValidateOne(inputs, Requires(ProvideAudioData))
    case Err(e) => Done(Err(e))
    case Ok(input) =>
      match WindowSize(options)
      case Err(e) => Done(Err(e))
      case Ok(k) =>
        match Range(options)
        case Err(e) => Done(Err(e))
        case Ok((fMin, fMax)) =>
          if k < 0 then Panic("capacity overflow")
          else if k == 0 then Panic("zero-length transform")
          else if !(fMin > 0.0) then Panic("assertion failed: f_min > 0.0")
          else Done(Ok(Params(input, k, Between(fMin, fMax))))
  }

  /** The node's state: its input and the memoizing store of its spectrum. */
  class SpectrumNode {
    const input: NodeRef
    const store: SpectrumStore

    ghost predicate Valid()
      reads this, store, store.stft
    {
      store.Valid()
    }

    /** Builds the transform over `p.windowLen` samples (its window coefficient, its FFT and its
        normalization come from outside the model) and a store cutting to `p.range`. */
    constructor (p: Params, coefficient: (nat, nat) -> real, fft: seq<real> -> seq<Complex>, normalization: real)
      requires p.windowLen > 0 && p.range.Valid()
      requires forall s: seq<real> :: |fft(s)| == SpectrumLen(p.windowLen)
      ensures Valid() && input == p.input
      ensures store.windowLen == p.windowLen && store.range == p.range
      ensures store.lastId.id == DefaultFrameId
      ensures fresh(store) && fresh(store.stft) && fresh(store.lastId)
      ensures fresh(store.stft.input) && fresh(store.stft.output)
    {
      input := p.input;
      var stft := new Stft(p.windowLen, coefficient, fft, normalization);
      store := new SpectrumStore(stft, p.range);
    }

    /** A pull: `audio` is the buffer the input provided; exactly one window of its newest
        samples is handed to the store. */
    method ProvideSpectrum(id: FrameId, audio: AudioBuffer) returns (o: Outcome<Spectrum>)
      requires Valid() && audio.Valid()
      modifies store.lastId, store.stft.input, store.stft.output
      ensures Valid()
      ensures store.lastId.id == id
      ensures old(store.lastId.id) != id && |audio.Exact(store.windowLen)| != store.windowLen ==> o.Panic?
      ensures old(store.lastId.id) != id && |audio.Exact(store.windowLen)| == store.windowLen ==>
                store.stft.Get() == Scaled(store.stft.fft(Windowed(audio.Exact(store.windowLen), store.stft.coefficient)),
                                           store.stft.normalization)
      ensures old(store.lastId.id) == id ==> store.stft.output[..] == old(store.stft.output[..])
      ensures !(old(store.lastId.id) != id && |audio.Exact(store.windowLen)| != store.windowLen) ==>
                o == Slice(store.stft.Get(), store.range, audio.sampleRate)
    {
      var data := audio.Exact(store.windowLen);
      o := store.Compute(id, data, audio.sampleRate);
    }
  }

  /** Once a full window has been pushed into a buffer that keeps at least a window, the node
      receives exactly one window of samples. */
  lemma WarmBufferGivesWindow(audio: AudioBuffer, n: nat)
    requires audio.Valid() && n <= audio.bufSize && n <= |audio.history|
    ensures audio.Exact(n) == Last(audio.history, n)
  {
  }

  /** Before that, or when the buffer keeps less than a window, the node receives fewer samples
      than its window, and a pull for a new frame aborts. */
  lemma ColdBufferGivesLess(audio: AudioBuffer, n: nat)
    requires audio.Valid() && (audio.bufSize < n || |audio.history| < n)
    ensures |audio.Exact(n)| < n
  {
  }
}
