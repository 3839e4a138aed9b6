/** Raw BGRx frames, pixel views and the validated video configuration (src/util/video.rs). */
module Video {

  import Arith

  newtype u8 = x: int | 0 <= x < 256

  /** The four bytes of one pixel, in buffer order: blue, green, red, unused. */
  type Pixel = s: seq<u8> | |s| == 4 witness [0, 0, 0, 0]

  const BlueOffset: nat := 0
  const GreenOffset: nat := 1
  const RedOffset: nat := 2

  /** The red byte: writing it back changes nothing. */
  function Red(p: Pixel): (v: u8)
    ensures SetRed(p, v) == p
  {
    p[RedOffset]
  }

  /** The green byte: writing it back changes nothing. */
  function Green(p: Pixel): (v: u8)
    ensures SetGreen(p, v) == p
  {
    p[GreenOffset]
  }

  /** The blue byte: writing it back changes nothing. */
  function Blue(p: Pixel): (v: u8)
    ensures SetBlue(p, v) == p
  {
    p[BlueOffset]
  }

  /** Writes the red byte and no other. */
  function SetRed(p: Pixel, value: u8): (r: Pixel)
    ensures r[RedOffset] == value
    ensures forall k | 0 <= k < 4 && k != RedOffset :: r[k] == p[k]
  {
    p[RedOffset := value]
  }

  /** Writes the green byte and no other. */
  function SetGreen(p: Pixel, value: u8): (r: Pixel)
    ensures r[GreenOffset] == value
    ensures forall k | 0 <= k < 4 && k != GreenOffset :: r[k] == p[k]
  {
    p[GreenOffset := value]
  }

  /** Writes the blue byte and no other. */
  function SetBlue(p: Pixel, value: u8): (r: Pixel)
    ensures r[BlueOffset] == value
    ensures forall k | 0 <= k < 4 && k != BlueOffset :: r[k] == p[k]
  {
    p[BlueOffset := value]
  }

  /** Writes the three colour bytes; the unused fourth byte keeps its value. */
  function SetGrayscale(p: Pixel, value: u8): (r: Pixel)
    ensures Red(r) == value && Green(r) == value && Blue(r) == value
    ensures r[3] == p[3]
  {
    [value, value, value, p[3]]
  }

  /** Each setter is read back by its getter and leaves the other channels as they were. */
  lemma ChannelsIndependent(p: Pixel, v: u8)
    ensures Red(SetRed(p, v)) == v && Green(SetRed(p, v)) == Green(p) && Blue(SetRed(p, v)) == Blue(p)
    ensures Green(SetGreen(p, v)) == v && Red(SetGreen(p, v)) == Red(p) && Blue(SetGreen(p, v)) == Blue(p)
    ensures Blue(SetBlue(p, v)) == v && Red(SetBlue(p, v)) == Red(p) && Green(SetBlue(p, v)) == Green(p)
    ensures SetRed(SetGreen(SetBlue(p, v), v), v) == SetGrayscale(p, v)
  {
  }

  /** A byte as an intensity in [0, 1]. */
  function ToF(b: u8): (v: real)
    ensures 0.0 <= v <= 1.0
  {
    b as real / 255.0
  }

  /** An intensity as a byte: scaled by 255, truncated toward zero and saturated, as `as u8`
      does on a float. */
  function FromF(v: real): (b: u8)
    ensures v <= 0.0 ==> b == 0
    ensures v >= 1.0 ==> b == 255
    ensures 0.0 <= v < 1.0 ==> ToF(b) <= v < ToF(b) + 1.0 / 255.0
  {
    var t := v * 255.0;
    if t <= 0.0 then 0 else if t >= 255.0 then 255 else t.Floor as u8
  }

  /** On exact reals the byte/intensity conversion round-trips. */
  lemma FromToF(b: u8)
    ensures FromF(ToF(b)) == b
  {
    assert ToF(b) * 255.0 == b as real;
  }

  /** Writes the red channel from an intensity; the other bytes keep their values. */
  function SetRedF(p: Pixel, v: real): (r: Pixel)
    ensures Red(r) == FromF(v) && Green(r) == Green(p) && Blue(r) == Blue(p) && r[3] == p[3]
    ensures 0.0 <= v <= 1.0 ==> ToF(Red(r)) <= v < ToF(Red(r)) + 1.0 / 255.0 || Red(r) as int == 255
  {
    SetRed(p, FromF(v))
  }

  /** Writes the green channel from an intensity; the other bytes keep their values. */
  function SetGreenF(p: Pixel, v: real): (r: Pixel)
    ensures Green(r) == FromF(v) && Red(r) == Red(p) && Blue(r) == Blue(p) && r[3] == p[3]
    ensures 0.0 <= v <= 1.0 ==> ToF(Green(r)) <= v < ToF(Green(r)) + 1.0 / 255.0 || Green(r) as int == 255
  {
    SetGreen(p, FromF(v))
  }

  /** Writes the blue channel from an intensity; the other bytes keep their values. */
  function SetBlueF(p: Pixel, v: real): (r: Pixel)
    ensures Blue(r) == FromF(v) && Red(r) == Red(p) && Green(r) == Green(p) && r[3] == p[3]
    ensures 0.0 <= v <= 1.0 ==> ToF(Blue(r)) <= v < ToF(Blue(r)) + 1.0 / 255.0 || Blue(r) as int == 255
  {
    SetBlue(p, FromF(v))
  }

  /** The pixel with linear index `p` (row-major, `p == y * width + x`) of a byte buffer. */
  function PixelAt(s: seq<u8>, p: nat): Pixel
    requires 4 * p + 4 <= |s|
  {
    s[4 * p..4 * p + 4]
  }

  /** Byte `i` of the buffer obtained by replacing every pixel `(x, y)` of `s` with
      `f(x, y, pixel)`. */
  ghost function MappedByte(s: seq<u8>, width: nat, f: (nat, nat, Pixel) -> Pixel, i: nat): u8
    requires width > 0 && |s| % 4 == 0 && i < |s|
  {
    var p := i / 4;
    f(p % width, p / width, PixelAt(s, p))[i % 4]
  }

  /** The buffer each pixel of which has been replaced by `f` of its coordinates and old value. */
  ghost function MapPixels(s: seq<u8>, width: nat, f: (nat, nat, Pixel) -> Pixel): (r: seq<u8>)
    requires width > 0 && |s| % 4 == 0
    ensures |r| == |s|
  {
    seq(|s|, i requires 0 <= i < |s| => MappedByte(s, width, f, i))
  }

  /** Byte `i` of either buffer after replacing each pair of same-coordinate pixels `(p1, p2)`
      of `s1` and `s2` with `f(x, y, p1, p2)`. */
  ghost function ZippedByte(s1: seq<u8>, s2: seq<u8>, width: nat,
                            f: (nat, nat, Pixel, Pixel) -> (Pixel, Pixel), i: nat, first: bool): u8
    requires width > 0 && |s1| % 4 == 0 && |s1| == |s2| && i < |s1|
  {
    var p := i / 4;
    var pair := f(p % width, p / width, PixelAt(s1, p), PixelAt(s2, p));
    if first then pair.0[i % 4] else pair.1[i % 4]
  }

  ghost function ZipPixels(s1: seq<u8>, s2: seq<u8>, width: nat,
                           f: (nat, nat, Pixel, Pixel) -> (Pixel, Pixel), first: bool): (r: seq<u8>)
    requires width > 0 && |s1| % 4 == 0 && |s1| == |s2|
    ensures |r| == |s1|
  {
    seq(|s1|, i requires 0 <= i < |s1| => ZippedByte(s1, s2, width, f, i, first))
  }

  /** The pixel `(x, y)` has linear index `y * width + x`, inside the frame. */
  lemma LinearIndex(width: nat, height: nat, x: nat, y: nat)
    requires x < width && y < height
    ensures y * width + x < width * height
    ensures (y * width + x) % width == x && (y * width + x) / width == y
  {
    Arith.DivModUnique(y * width + x, width, y, x);
    Arith.MulGap(height, y, width);
  }

  /** Byte `k` of pixel `n` of a mapped buffer is byte `k` of what `f` makes of that pixel. */
  lemma MappedPixel(s: seq<u8>, width: nat, f: (nat, nat, Pixel) -> Pixel, n: nat, k: nat)
    requires width > 0 && |s| % 4 == 0 && k < 4 && 4 * n + 4 <= |s|
    ensures MappedByte(s, width, f, 4 * n + k) == f(n % width, n / width, PixelAt(s, n))[k]
  {
    Arith.DivModUnique(4 * n + k, 4, n, k);
  }

  lemma ZippedPixel(s1: seq<u8>, s2: seq<u8>, width: nat, f: (nat, nat, Pixel, Pixel) -> (Pixel, Pixel),
                    n: nat, k: nat)
    requires width > 0 && |s1| % 4 == 0 && |s1| == |s2| && k < 4 && 4 * n + 4 <= |s1|
    ensures ZippedByte(s1, s2, width, f, 4 * n + k, true)
              == f(n % width, n / width, PixelAt(s1, n), PixelAt(s2, n)).0[k]
    ensures ZippedByte(s1, s2, width, f, 4 * n + k, false)
              == f(n % width, n / width, PixelAt(s1, n), PixelAt(s2, n)).1[k]
  {
    Arith.DivModUnique(4 * n + k, 4, n, k);
  }

  /** `t` with pixel `n` replaced by `q`. */
  function WithPixel(t: seq<u8>, n: nat, q: Pixel): (r: seq<u8>)
    requires 4 * n + 4 <= |t|
    ensures |r| == |t|
  {
    t[..4 * n] + q + t[4 * n + 4..]
  }

  /** The first `m` pixels of `t` hold what `f` made of those of `s0`; the rest are still
      those of `s0`. */
  ghost predicate MappedPrefix(t: seq<u8>, s0: seq<u8>, width: nat, f: (nat, nat, Pixel) -> Pixel, m: nat)
    requires width > 0 && |s0| % 4 == 0 && |t| == |s0| && 4 * m <= |t|
  {
    && (forall i | 0 <= i < 4 * m :: t[i] == MappedByte(s0, width, f, i))
    && (forall i | 4 * m <= i < |t| :: t[i] == s0[i])
  }

  /** Mapping pixel `n` of a buffer mapped up to `n` maps it up to `n + 1`. */
  lemma MapStep(t: seq<u8>, s0: seq<u8>, width: nat, f: (nat, nat, Pixel) -> Pixel, n: nat)
    requires width > 0 && |s0| % 4 == 0 && |t| == |s0| && 4 * n + 4 <= |t|
    requires MappedPrefix(t, s0, width, f, n)
    ensures PixelAt(t, n) == PixelAt(s0, n)
    ensures MappedPrefix(WithPixel(t, n, f(n % width, n / width, PixelAt(s0, n))), s0, width, f, n + 1)
  {
    assert PixelAt(t, n) == PixelAt(s0, n);
    var t' := WithPixel(t, n, f(n % width, n / width, PixelAt(s0, n)));
    forall i | 4 * n <= i < 4 * n + 4 ensures t'[i] == MappedByte(s0, width, f, i) {
      MappedPixel(s0, width, f, n, i - 4 * n);
    }
  }

  /** The first `m` pixel pairs of `t1` and `t2` hold what `f` made of those of `s1` and `s2`;
      the rest are still those of `s1` and `s2`. */
  ghost predicate ZippedPrefix(t1: seq<u8>, t2: seq<u8>, s1: seq<u8>, s2: seq<u8>, width: nat,
                               f: (nat, nat, Pixel, Pixel) -> (Pixel, Pixel), m: nat)
    requires width > 0 && |s1| % 4 == 0 && |t1| == |t2| == |s1| == |s2| && 4 * m <= |t1|
  {
    && (forall i | 0 <= i < 4 * m :: t1[i] == ZippedByte(s1, s2, width, f, i, true))
    && (forall i | 0 <= i < 4 * m :: t2[i] == ZippedByte(s1, s2, width, f, i, false))
    && (forall i | 4 * m <= i < |t1| :: t1[i] == s1[i] && t2[i] == s2[i])
  }

  /** Replacing pixel pair `n` of buffers zipped up to `n` zips them up to `n + 1`. */
  lemma ZipStep(t1: seq<u8>, t2: seq<u8>, s1: seq<u8>, s2: seq<u8>, width: nat,
                f: (nat, nat, Pixel, Pixel) -> (Pixel, Pixel), n: nat)
    requires width > 0 && |s1| % 4 == 0 && |t1| == |t2| == |s1| == |s2| && 4 * n + 4 <= |t1|
    requires ZippedPrefix(t1, t2, s1, s2, width, f, n)
    ensures PixelAt(t1, n) == PixelAt(s1, n) && PixelAt(t2, n) == PixelAt(s2, n)
    ensures var pair := f(n % width, n / width, PixelAt(s1, n), PixelAt(s2, n));
            ZippedPrefix(WithPixel(t1, n, pair.0), WithPixel(t2, n, pair.1), s1, s2, width, f, n + 1)
  {
    assert PixelAt(t1, n) == PixelAt(s1, n) && PixelAt(t2, n) == PixelAt(s2, n);
    var pair := f(n % width, n / width, PixelAt(s1, n), PixelAt(s2, n));
    var t1', t2' := WithPixel(t1, n, pair.0), WithPixel(t2, n, pair.1);
    forall i | 4 * n <= i < 4 * n + 4
      ensures t1'[i] == ZippedByte(s1, s2, width, f, i, true)
      ensures t2'[i] == ZippedByte(s1, s2, width, f, i, false)
    {
      ZippedPixel(s1, s2, width, f, n, i - 4 * n);
    }
  }

  /** The row after row `y` starts `width` pixels later. */
  lemma NextRow(y: nat, width: nat)
    ensures y * width + width == (y + 1) * width
  {
  }

  /** Reading back a mapped buffer pixel by pixel: the pixel `(x, y)` of `MapPixels(s, width, f)`
      is `f(x, y, old pixel)`. */
  lemma MapPixelsAt(s: seq<u8>, width: nat, height: nat, f: (nat, nat, Pixel) -> Pixel, x: nat, y: nat)
    requires width > 0 && |s| == 4 * (width * height) && x < width && y < height
    ensures 4 * (y * width + x) + 4 <= |s|
    ensures PixelAt(MapPixels(s, width, f), y * width + x) == f(x, y, PixelAt(s, y * width + x))
  {
    LinearIndex(width, height, x, y);
    var p := y * width + x;
    var n := width * height;
    assert p < n && |s| == 4 * n;
    PixelOfMap(s, width, f, p);
  }

  /** Pixel `p` of a mapped buffer is what `f` makes of pixel `p`. */
  lemma PixelOfMap(s: seq<u8>, width: nat, f: (nat, nat, Pixel) -> Pixel, p: nat)
    requires width > 0 && |s| % 4 == 0 && 4 * p + 4 <= |s|
    ensures PixelAt(MapPixels(s, width, f), p) == f(p % width, p / width, PixelAt(s, p))
  {
    var m := MapPixels(s, width, f);
    forall k | 0 <= k < 4
      ensures PixelAt(m, p)[k] == f(p % width, p / width, PixelAt(s, p))[k]
    {
      MappedPixel(s, width, f, p, k);
    }
  }

  class VideoFrame {
    const width: nat
    const height: nat
    const stride: nat
    const buf: array<u8>

    /** Stride is four bytes per pixel; the buffer holds `height` rows of `stride` bytes, that is
        four bytes for each of the `width * height` pixels, so whole pixels. */
    ghost predicate Valid()
      reads this
    {
      stride == 4 * width && buf.Length == 4 * (width * height) && buf.Length % 4 == 0
    }

    /** A zeroed frame. */
    constructor (width: nat, height: nat)
      ensures Valid() && fresh(buf)
      ensures this.width == width && this.height == height && stride == 4 * width
      ensures buf.Length == 4 * width * height
      ensures forall i | 0 <= i < buf.Length :: buf[i] == 0
    {
      this.width := width;
      this.height := height;
      stride := 4 * width;
      buf := new u8[4 * width * height](_ => 0);
    }

    /** `frame.clone()`: a new frame of the same dimensions and contents. */
    constructor Clone(other: VideoFrame)
      requires other.Valid()
      ensures Valid() && fresh(buf)
      ensures width == other.width && height == other.height
      ensures buf[..] == other.buf[..]
    {
      width := other.width;
      height := other.height;
      stride := other.stride;
      buf := new u8[other.buf.Length](i reads other.buf requires 0 <= i < other.buf.Length => other.buf[i]);
    }

    /** Overwrites this frame with an equally sized one; the source asserts equal dimensions. */
    method CopyFrom(other: VideoFrame)
      requires Valid() && other.Valid()
      requires width == other.width && height == other.height
      modifies buf
      ensures buf[..] == old(other.buf[..])
    {
      forall i | 0 <= i < buf.Length {
        buf[i] := other.buf[i];
      }
    }

    /** Zeroes every byte; dimensions are constant. */
    method Clear()
      requires Valid()
      modifies buf
      ensures forall i | 0 <= i < buf.Length :: buf[i] == 0
    {
      forall i | 0 <= i < buf.Length {
        buf[i] := 0;
      }
    }

    /** The first `m` pixels of the buffer hold what `f` made of those of `s0`; the rest are
        still those of `s0`. */
    ghost predicate MappedUpTo(s0: seq<u8>, f: (nat, nat, Pixel) -> Pixel, m: nat)
      reads this, buf
      requires Valid() && width > 0 && |s0| == buf.Length && 4 * m <= buf.Length
    {
      MappedPrefix(buf[..], s0, width, f, m)
    }

    /** Replaces every pixel `(x, y)` with `f(x, y, pixel)`, visiting rows top to bottom and each
        row left to right. `chunks_exact_mut` panics on a zero stride, hence `width > 0`. */
    method Apply(f: (nat, nat, Pixel) -> Pixel)
      requires Valid() && width > 0
      modifies buf
      ensures buf[..] == MapPixels(old(buf[..]), width, f)
    {
      ghost var s0 := buf[..];
      var y := 0;
      while y < height
        invariant 0 <= y <= height && 4 * (y * width) <= buf.Length
        invariant MappedUpTo(s0, f, y * width)
      {
        ApplyRow(f, y, s0);
        NextRow(y, width);
        y := y + 1;
      }
      MapComplete(s0, f);
    }

    /** Once every pixel has been replaced, the buffer is the mapped buffer. */
    lemma MapComplete(s0: seq<u8>, f: (nat, nat, Pixel) -> Pixel)
      requires Valid() && width > 0 && |s0| == buf.Length && MappedUpTo(s0, f, height * width)
      ensures buf[..] == MapPixels(s0, width, f)
    {
      assert 4 * (height * width) == buf.Length;
      assert forall i | 0 <= i < buf.Length :: buf[..][i] == MapPixels(s0, width, f)[i];
    }

    /** One row of `Apply`: its pixels, left to right. */
    method ApplyRow(f: (nat, nat, Pixel) -> Pixel, y: nat, ghost s0: seq<u8>)
      requires Valid() && width > 0 && y < height && |s0| == buf.Length
      requires 4 * (y * width) <= buf.Length && MappedUpTo(s0, f, y * width)
      modifies buf
      ensures 4 * (y * width + width) <= buf.Length && MappedUpTo(s0, f, y * width + width)
    {
      var x := 0;
      while x < width
        invariant 0 <= x <= width && 4 * (y * width + x) <= buf.Length
        invariant MappedUpTo(s0, f, y * width + x)
      {
        var base := PixelBase(x, y);
        MapPixelStep(f, x, y, y * width + x, base, s0);
        x := x + 1;
      }
    }

    /** The pixel `(x, y)` of `Apply`, whose linear index is `n` and whose bytes start at `base`. */
    method MapPixelStep(f: (nat, nat, Pixel) -> Pixel, x: nat, y: nat, n: nat, base: nat, ghost s0: seq<u8>)
      requires Valid() && width > 0 && |s0| == buf.Length
      requires n % width == x && n / width == y && base == 4 * n && base + 4 <= buf.Length
      requires MappedUpTo(s0, f, n)
      modifies buf
      ensures MappedUpTo(s0, f, n + 1)
    {
      MapStep(buf[..], s0, width, f, n);
      var px: Pixel := buf[base..base + 4];
      assert px == PixelAt(buf[..], n);
      WritePixel(n, f(x, y, px));
    }

    /** Stores `q` as pixel `n`; every other byte is kept. */
    method WritePixel(n: nat, q: Pixel)
      requires 4 * n + 4 <= buf.Length
      modifies buf
      ensures buf[..] == WithPixel(old(buf[..]), n, q)
    {
      buf[4 * n] := q[0];
      buf[4 * n + 1] := q[1];
      buf[4 * n + 2] := q[2];
      buf[4 * n + 3] := q[3];
      assert forall i | 0 <= i < buf.Length :: buf[..][i] == WithPixel(old(buf[..]), n, q)[i];
    }

    /** The first `m` pixel pairs of this frame and `other` hold what `f` made of those of `s1`
        and `s2`; the rest are still those of `s1` and `s2`. */
    ghost predicate ZippedUpTo(other: VideoFrame, s1: seq<u8>, s2: seq<u8>,
                               f: (nat, nat, Pixel, Pixel) -> (Pixel, Pixel), m: nat)
      reads this, buf, other, other.buf
      requires Valid() && other.Valid() && width > 0 && width == other.width && height == other.height
      requires |s1| == |s2| == buf.Length && 4 * m <= buf.Length
    {
      ZippedPrefix(buf[..], other.buf[..], s1, s2, width, f, m)
    }

    /** Replaces each pair of same-coordinate pixels of this frame and `other` with
        `f(x, y, p1, p2)`; the source asserts equal dimensions. */
    method ApplyZip(other: VideoFrame, f: (nat, nat, Pixel, Pixel) -> (Pixel, Pixel))
      requires Valid() && other.Valid() && width > 0
      requires width == other.width && height == other.height
      requires buf != other.buf
      modifies buf, other.buf
      ensures buf[..] == ZipPixels(old(buf[..]), old(other.buf[..]), width, f, true)
      ensures other.buf[..] == ZipPixels(old(buf[..]), old(other.buf[..]), width, f, false)
    {
      ghost var s1, s2 := buf[..], other.buf[..];
      var y := 0;
      while y < height
        invariant 0 <= y <= height && 4 * (y * width) <= buf.Length
        invariant ZippedUpTo(other, s1, s2, f, y * width)
      {
        ApplyZipRow(other, f, y, s1, s2);
        NextRow(y, width);
        y := y + 1;
      }
      ZipComplete(other, s1, s2, f);
    }

    /** Once every pixel pair has been replaced, both buffers are the zipped buffers. */
    lemma ZipComplete(other: VideoFrame, s1: seq<u8>, s2: seq<u8>, f: (nat, nat, Pixel, Pixel) -> (Pixel, Pixel))
      requires Valid() && other.Valid() && width > 0 && width == other.width && height == other.height
      requires |s1| == |s2| == buf.Length && ZippedUpTo(other, s1, s2, f, height * width)
      ensures buf[..] == ZipPixels(s1, s2, width, f, true)
      ensures other.buf[..] == ZipPixels(s1, s2, width, f, false)
    {
      assert 4 * (height * width) == buf.Length;
      assert forall i | 0 <= i < buf.Length :: buf[..][i] == ZipPixels(s1, s2, width, f, true)[i];
      assert forall i | 0 <= i < buf.Length :: other.buf[..][i] == ZipPixels(s1, s2, width, f, false)[i];
    }

    /** One row of `ApplyZip`: its pixel pairs, left to right. */
    method ApplyZipRow(other: VideoFrame, f: (nat, nat, Pixel, Pixel) -> (Pixel, Pixel), y: nat,
                       ghost s1: seq<u8>, ghost s2: seq<u8>)
      requires Valid() && other.Valid() && width > 0 && y < height
      requires width == other.width && height == other.height && buf != other.buf
      requires |s1| == |s2| == buf.Length
      requires 4 * (y * width) <= buf.Length && ZippedUpTo(other, s1, s2, f, y * width)
      modifies buf, other.buf
      ensures 4 * (y * width + width) <= buf.Length && ZippedUpTo(other, s1, s2, f, y * width + width)
    {
      var x := 0;
      while x < width
        invariant 0 <= x <= width && 4 * (y * width + x) <= buf.Length
        invariant ZippedUpTo(other, s1, s2, f, y * width + x)
      {
        var base := PixelBase(x, y);
        ZipPixelStep(other, f, x, y, y * width + x, base, s1, s2);
        x := x + 1;
      }
    }

    /** The pixel pair `(x, y)` of `ApplyZip`, whose linear index is `n` and whose bytes start at
        `base` in both frames. */
    method ZipPixelStep(other: VideoFrame, f: (nat, nat, Pixel, Pixel) -> (Pixel, Pixel), x: nat, y: nat,
                        n: nat, base: nat, ghost s1: seq<u8>, ghost s2: seq<u8>)
      requires Valid() && other.Valid() && width > 0
      requires width == other.width && height == other.height && buf != other.buf
      requires |s1| == |s2| == buf.Length
      requires n % width == x && n / width == y && base == 4 * n && base + 4 <= buf.Length
      requires ZippedUpTo(other, s1, s2, f, n)
      modifies buf, other.buf
      ensures ZippedUpTo(other, s1, s2, f, n + 1)
    {
      ZipStep(buf[..], other.buf[..], s1, s2, width, f, n);
      var p1: Pixel := buf[base..base + 4];
      var p2: Pixel := other.buf[base..base + 4];
      assert p1 == PixelAt(buf[..], n) && p2 == PixelAt(other.buf[..], n);
      var pair := f(x, y, p1, p2);
      WritePixel(n, pair.0);
      other.WritePixel(n, pair.1);
    }

    /** The pixel `(x, y)` starts at byte `y * stride + 4 * x`, which is four times its linear
        index; its coordinates are recovered from that index by `%` and `/`. */
    method PixelBase(x: nat, y: nat) returns (base: nat)
      requires Valid() && x < width && y < height
      ensures base == 4 * (y * width + x) && base + 4 <= buf.Length
      ensures (y * width + x) % width == x && (y * width + x) / width == y
    {
      LinearIndex(width, height, x, y);
      assert y * stride == 4 * (y * width);
      base := y * stride + 4 * x;
    }
  }

  /** Frame dimensions and rate; every value built by `VideoConfigBuilder` is valid. */
  datatype VideoConfig = VideoConfig(width: nat, height: nat, fps: nat)

  const DefaultVideoConfig := VideoConfig(1280, 720, 24)

  predicate ValidWidth(value: nat) { 352 <= value <= 7680 && value % 2 == 0 }
  predicate ValidHeight(value: nat) { 240 <= value <= 4320 && value % 2 == 0 }
  predicate ValidFps(value: nat) { 1 <= value <= 60 }

  predicate ValidConfig(c: VideoConfig)
  {
    ValidWidth(c.width) && ValidHeight(c.height) && ValidFps(c.fps)
  }

  class VideoConfigBuilder {
    var config: VideoConfig

    ghost predicate Valid()
      reads this
    {
      ValidConfig(config)
    }

    /** `VideoConfig::builder()` starts from the default 1280x720 at 24 frames per second. */
    constructor ()
      ensures Valid() && config == DefaultVideoConfig
    {
      config := DefaultVideoConfig;
    }

    /** The source asserts the range and evenness of the width. */
    method Width(value: nat)
      requires Valid() && ValidWidth(value)
      modifies this
      ensures Valid() && config == old(config).(width := value)
    {
      config := config.(width := value);
    }

    /** The source asserts the range and evenness of the height. */
    method Height(value: nat)
      requires Valid() && ValidHeight(value)
      modifies this
      ensures Valid() && config == old(config).(height := value)
    {
      config := config.(height := value);
    }

    /** The source asserts the range of the rate. */
    method Fps(value: nat)
      requires Valid() && ValidFps(value)
      modifies this
      ensures Valid() && config == old(config).(fps := value)
    {
      config := config.(fps := value);
    }

    function Build(): (c: VideoConfig)
      reads this
      requires Valid()
      ensures ValidConfig(c) && c == config
    {
      config
    }
  }
}
