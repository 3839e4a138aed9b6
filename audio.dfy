/** The sample buffer an audio source fills and its consumers read (src/util/audio.rs). */
module Audio {

  import opened Arith

  /** How many frames' worth of samples a buffer guarantees to keep. */
  const BufferFrames: nat := 250

  /** The last `k` elements of `s`. */
  function Last<T>(s: seq<T>, k: nat): (r: seq<T>)
    requires k <= |s|
    ensures |r| == k
  {
    s[|s| - k..]
  }

  /** A growable sample vector that is compacted to its newest `bufSize` samples whenever a push
      would take it past `2 * bufSize`. `history` is every sample ever pushed, oldest first. */
  class AudioBuffer {
    const frameSize: nat
    const sampleRate: nat
    const bufSize: nat
    var samples: seq<real>
    ghost var history: seq<real>

    /** The stored samples are the newest ones pushed: never more than `2 * bufSize`, and never
        fewer than `bufSize` once that many have been pushed. */
    ghost predicate Valid()
      reads this
    {
      && bufSize == frameSize * BufferFrames
      && |samples| <= 2 * bufSize
      && |samples| <= |history| && samples == Last(history, |samples|)
      && |samples| >= Min(|history|, bufSize)
    }

    /** `fps` divides the sample rate, so it must be positive. */
    constructor (sampleRate: nat, fps: nat)
      requires fps > 0
      ensures Valid()
      ensures this.sampleRate == sampleRate && frameSize == sampleRate / fps
      ensures bufSize == frameSize * BufferFrames
      ensures samples == [] && history == []
    {
      this.sampleRate := sampleRate;
      frameSize := sampleRate / fps;
      bufSize := sampleRate / fps * BufferFrames;
      samples := [];
      history := [];
    }

    /** Appends a chunk of at most `bufSize` samples (the source asserts the bound), first
        dropping all but the newest `bufSize` samples when the chunk would not fit in
        `2 * bufSize`; the guard and the bound make `|samples| - bufSize` non-negative. */
    method Push(data: seq<real>)
      requires Valid() && |data| <= bufSize
      modifies this
      ensures Valid()
      ensures history == old(history) + data
      ensures |old(samples)| + |data| <= 2 * bufSize ==> samples == old(samples) + data
      ensures |old(samples)| + |data| > 2 * bufSize ==>
                |old(samples)| > bufSize && samples == Last(old(samples), bufSize) + data
    {
      if |samples| + |data| > 2 * bufSize {
        var newHead := |samples| - bufSize;
        samples := samples[newHead..];
      }
      samples := samples + data;
      history := history + data;
    }

    /** The newest `min(n, bufSize)` samples, or every stored sample when fewer are stored. */
    function Exact(n: nat): (r: seq<real>)
      reads this
      requires Valid()
      ensures r == Last(history, Min(Min(n, bufSize), |history|))
    {
      var len := Min(n, bufSize);
      var head := if |samples| >= len then |samples| - len else 0;
      samples[head..]
    }

    /** The newest `frames` frames of samples, saturated like `Exact`. */
    function Frames(frames: nat): (r: seq<real>)
      reads this
      requires Valid()
      ensures r == Last(history, Min(Min(frameSize * frames, bufSize), |history|))
    {
      Exact(frameSize * frames)
    }
  }

  /** Two consecutive reads between pushes agree with each other: a wider window ends with the
      narrower one. */
  lemma ExactNested(b: AudioBuffer, m: nat, n: nat)
    requires b.Valid() && m <= n
    ensures |b.Exact(m)| <= |b.Exact(n)|
    ensures b.Exact(m) == Last(b.Exact(n), |b.Exact(m)|)
  {
  }
}
