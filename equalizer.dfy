/** The bar-graph node that draws a spectrum into a frame (src/processors/equalizer.rs). */
module EqualizerProcessor {

  import opened Util
  import opened Node
  import opened Inputs
  import opened Video
  import opened Arith
  import Spectral

  /** The node advertises video frames only. */
  const Capabilities: set<Capability> := {Capability.ProvideVideoFrame}

  /** Construction: exactly one input, which provides spectra; the node keeps it. */
  function New(inputs: seq<NodeRef>): (r: Result<NodeRef>)
    ensures r.Ok? <==> |inputs| == 1 && HasCapability(inputs[0], ProvideSpectrum)
    ensures r.Ok? ==> r.value == inputs[0]
    ensures r.Err? ==> r.error == InvalidInputs
  {
    ValidateOne(inputs, Requires(ProvideSpectrum))
  }

  /** The width in pixels of one bar: `width / nBins` rounded up. */
  function BinWidth(width: nat, nBins: nat): nat
    requires nBins > 0
  {
    (width + nBins - 1) / nBins
  }

  /** The bar width is the ceiling of `width / nBins`: the smallest `w` with `w * nBins >= width`. */
  lemma BinWidthIsCeiling(width: nat, nBins: nat)
    requires nBins > 0
    ensures BinWidth(width, nBins) * nBins >= width
    ensures BinWidth(width, nBins) > 0 ==> (BinWidth(width, nBins) - 1) * nBins < width
  {
    var q, r := (width + nBins - 1) / nBins, (width + nBins - 1) % nBins;
    assert q * nBins + r == width + nBins - 1;
    assert q > 0 ==> (q - 1) * nBins == q * nBins - nBins;
  }

  /** Rounding the bar width up keeps the bar index of every column inside the spectrum. */
  lemma BinInBounds(width: nat, nBins: nat, x: nat)
    requires nBins > 0 && x < width
    ensures BinWidth(width, nBins) > 0
    ensures x / BinWidth(width, nBins) < nBins
  {
    BinWidthIsCeiling(width, nBins);
    var w := BinWidth(width, nBins);
    var b := x / w;
    assert b * w <= x;
  }

  /** The bin whose bar column `x` shows. */
  function BinOf(width: nat, nBins: nat, x: nat): (b: nat)
    requires nBins > 0 && x < width
    ensures b < nBins
  {
    BinInBounds(width, nBins, x);
    x / BinWidth(width, nBins)
  }

  /** The height of a bar for a bin of the given amplitude, bars lower than 5 pixels dropped. */
  function BarHeight(amplitude: real, frameHeight: nat): (h: nat)
    ensures h == 0 || h >= 5
    ensures var rounded := Spectral.RoundToUsize(amplitude * frameHeight as real);
            h == if rounded < 5 then 0 else rounded
  {
    var h := Spectral.RoundToUsize(amplitude * frameHeight as real);
    if h < 5 then 0 else h
  }

  /** Whether row `y` is lit by a bar of height `barHeight`, as written: the unsigned
      `frameHeight - barHeight` overflows for a bar taller than the frame, which aborts. */
  function LitAsWritten(y: nat, frameHeight: nat, barHeight: nat): (o: Outcome<bool>)
    ensures o.Panic? <==> barHeight > frameHeight
  {
    if barHeight > frameHeight then Panic("attempt to subtract with overflow")
    else Done(Ok(y >= frameHeight - barHeight))
  }

  /** Whether row `y` is lit by a bar of height `barHeight`, the bar clipped to the frame. */
  function Lit(y: nat, frameHeight: nat, barHeight: nat): bool
  {
    y >= frameHeight - Min(barHeight, frameHeight)
  }

  /** A row of the frame is lit iff it is among the bottom `barHeight` rows. */
  lemma LitIsBottomRows(y: nat, frameHeight: nat, barHeight: nat)
    requires y < frameHeight
    ensures Lit(y, frameHeight, barHeight) <==> frameHeight - y <= barHeight
  {
  }

  /** For bars that fit in the frame the clipped rule is the rule as written. */
  lemma LitAgreesWhenBarFits(y: nat, frameHeight: nat, barHeight: nat)
    requires barHeight <= frameHeight
    ensures LitAsWritten(y, frameHeight, barHeight) == Done(Ok(Lit(y, frameHeight, barHeight)))
  {
  }

  /** A bin of amplitude 1.2 in a 720-row frame asks for an 864-row bar, and the rule as written
      aborts on it. */
  lemma TallBarUnderflows()
    ensures BarHeight(1.2, 720) == 864
    ensures LitAsWritten(0, 720, BarHeight(1.2, 720)).Panic?
  {
    assert 1.2 * 720 as real == 864 as real;
    Spectral.RoundToUsizeExact(864);
  }

  /** What the node does to one pixel: colour it white when its column's bar reaches its row. */
  function Painter(width: nat, height: nat, amplitudes: seq<real>): (nat, nat, Pixel) -> Pixel
  {
    (x: nat, y: nat, p: Pixel) =>
      if amplitudes != [] && x < width && Lit(y, height, BarHeight(amplitudes[BinOf(width, |amplitudes|, x)], height))
      then SetGrayscale(p, 255) else p
  }

  /** Whether the bar of column `x` is taller than the frame, so that the unsigned subtraction
      of the rule as written overflows on every pixel of that column. */
  predicate TooTall(width: nat, height: nat, amplitudes: seq<real>, x: nat)
    requires |amplitudes| > 0 && x < width
  {
    BarHeight(amplitudes[BinOf(width, |amplitudes|, x)], height) > height
  }

  /** A pull: `amplitudes` are the norms of the bins of the spectrum the input provided. The
      node aborts as soon as it visits a pixel, which happens iff the frame has rows, and that
      pixel either indexes outside an empty spectrum or lies in a column whose bar is taller than
      the frame. Otherwise every column's bar fits, the rule as written is the clipped one, and
      the frame is painted. */
  method ProvideVideoFrame(frame: VideoFrame, amplitudes: seq<real>) returns (o: Outcome<()>)
    requires frame.Valid() && frame.width > 0
    modifies frame.buf
    ensures o.Panic? <==>
              frame.height > 0
              && (amplitudes == []
                  || exists x | 0 <= x < frame.width :: TooTall(frame.width, frame.height, amplitudes, x))
    ensures o.Done? ==> o.result.Ok?
    ensures o.Done? ==>
              frame.buf[..] == MapPixels(old(frame.buf[..]), frame.width,
                                         Painter(frame.width, frame.height, amplitudes))
    ensures o.Panic? ==> frame.buf[..] == old(frame.buf[..])
  {
    if frame.height > 0 {
      if amplitudes == [] {
        return Panic("index out of bounds");
      }
      if exists x | 0 <= x < frame.width :: TooTall(frame.width, frame.height, amplitudes, x) {
        return Panic("attempt to subtract with overflow");
      }
    }
    frame.Apply(Painter(frame.width, frame.height, amplitudes));
    o := Done(Ok(()));
  }

  /** After a pull, pixel `(x, y)` is white iff the bar of its column `x / binWidth` covers row
      `y`, and otherwise keeps its old value. */
  lemma PaintedPixel(s: seq<u8>, width: nat, height: nat, amplitudes: seq<real>, x: nat, y: nat)
    requires width > 0 && |s| == 4 * (width * height) && |amplitudes| > 0
    requires x < width && y < height
    ensures BinOf(width, |amplitudes|, x) < |amplitudes|
    ensures 4 * (y * width + x) + 4 <= |s|
    ensures |MapPixels(s, width, Painter(width, height, amplitudes))| == |s|
    ensures var bar := BarHeight(amplitudes[BinOf(width, |amplitudes|, x)], height);
            var p := y * width + x;
            PixelAt(MapPixels(s, width, Painter(width, height, amplitudes)), p)
              == if height - y <= bar then SetGrayscale(PixelAt(s, p), 255) else PixelAt(s, p)
  {
    var f := Painter(width, height, amplitudes);
    MapPixelsAt(s, width, height, f, x, y);
    PainterBottomRows(width, height, amplitudes, x, y, PixelAt(s, y * width + x));
  }

  /** The closure lights a pixel iff its row is among the bottom rows its column's bar covers. */
  lemma PainterBottomRows(width: nat, height: nat, amplitudes: seq<real>, x: nat, y: nat, p: Pixel)
    requires |amplitudes| > 0 && x < width && y < height
    ensures BinOf(width, |amplitudes|, x) < |amplitudes|
    ensures Painter(width, height, amplitudes)(x, y, p)
              == if height - y <= BarHeight(amplitudes[BinOf(width, |amplitudes|, x)], height)
                 then SetGrayscale(p, 255) else p
  {
    var bar := BarHeight(amplitudes[BinOf(width, |amplitudes|, x)], height);
    PainterAt(width, height, amplitudes, x, y, p);
    LitIsBottomRows(y, height, bar);
  }

  lemma PainterAt(width: nat, height: nat, amplitudes: seq<real>, x: nat, y: nat, p: Pixel)
    requires |amplitudes| > 0 && x < width
    ensures BinOf(width, |amplitudes|, x) < |amplitudes|
    ensures Painter(width, height, amplitudes)(x, y, p)
              == if Lit(y, height, BarHeight(amplitudes[BinOf(width, |amplitudes|, x)], height))
                 then SetGrayscale(p, 255) else p
  {
  }
}
