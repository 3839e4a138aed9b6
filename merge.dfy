/** The node that blends the frames of several inputs (src/processors/merge.rs). */
module MergeProcessor {

  import opened Util
  import opened Node
  import opened Options
  import opened Video
  import opened Arith

  const ContributionsKey: string := "contributions"
  const ModeKey: string := "mode"

  /** The node advertises video frames only. */
  const Capabilities: set<Capability> := {Capability.ProvideVideoFrame}

  /** How an input's weighted channel is combined with the channel blended so far. */
  datatype Mode = Sum | Product {
    function Apply(a: real, b: real): (r: real)
      ensures Sum? && b == 0.0 ==> r == a
      ensures Product? && b == 1.0 ==> r == a
      ensures Product? && (a == 0.0 || b == 0.0) ==> r == 0.0
      ensures 0.0 <= a && 0.0 <= b ==> 0.0 <= r
      ensures Sum? && 0.0 <= b ==> a <= r
      ensures Product? && 0.0 <= a && 0.0 <= b <= 1.0 ==> r <= a
    {
      match this
      case Sum => a + b
      case Product => a * b
    }
  }

  /** What construction keeps: every input, one weight per blended input, and the mode. */
  datatype Params = Params(inputs: seq<NodeRef>, contributions: seq<real>, mode: Mode)

  /** Every input provides video frames. */
  predicate AllProvideFrames(inputs: seq<NodeRef>)
  {
    forall i | 0 <= i < |inputs| :: HasCapability(inputs[i], Capability.ProvideVideoFrame)
  }

  /** The `contributions` option: a number or a list of numbers; `n` equal shares of `1 / n`
      when absent. */
  function ParseContributions(options: Options, n: nat): (r: Result<seq<real>>)
    requires n > 0
    ensures r.Err? ==> r.error == InvalidOptions
    ensures ContributionsKey !in options ==>
              r.Ok? && |r.value| == n && forall i | 0 <= i < n :: r.value[i] == 1.0 / n as real
    ensures ContributionsKey in options ==> r == AsNumbers(options[ContributionsKey])
  {
    match Lookup(options, ContributionsKey)
    case Some(value) => AsNumbers(value)
    case None => Ok(seq(n, _ => 1.0 / n as real))
  }

  /** The `mode` option: the string "sum" or "product", `Sum` when absent. */
  function ParseMode(options: Options): (r: Result<Mode>)
    ensures r.Err? ==> r.error == InvalidOptions
    ensures ModeKey !in options ==> r == Ok(Sum)
    ensures ModeKey in options ==>
              (r.Ok? <==> options[ModeKey] == String("sum") || options[ModeKey] == String("product"))
    ensures r == Ok(Product) <==> ModeKey in options && options[ModeKey] == String("product")
  {
    match Lookup(options, ModeKey)
    case None => Ok(Sum)
    case Some(value) =>
      match AsStr(value)
      case Some(text) =>
        if text == "sum" then Ok(Sum)
        else if text == "product" then Ok(Product)
        else Err(InvalidOptions)
      case None => Err(InvalidOptions)
  }

  /** Construction: a nonempty list of frame providers, checked before the options. */
  function New(inputs: seq<NodeRef>, options: Options): (r: Result<Params>)
    ensures !AllProvideFrames(inputs) || inputs == [] ==> r == Err(InvalidInputs)
    ensures AllProvideFrames(inputs) && inputs != [] ==>
              (r.Ok? <==> ParseContributions(options, |inputs|).Ok? && ParseMode(options).Ok?)
    ensures r.Err? ==> r.error == InvalidInputs || r.error == InvalidOptions
    ensures r.Ok? ==> r.value.inputs == inputs
    ensures r.Ok? ==> r.value.contributions == ParseContributions(options, |inputs|).value
    ensures r.Ok? ==> r.value.mode == ParseMode(options).value
  {
    if exists i | 0 <= i < |inputs| :: !HasCapability(inputs[i], Capability.ProvideVideoFrame) then
      Err(InvalidInputs)
    else if inputs == [] then Err(InvalidInputs)
    else
      var contributions :- ParseContributions(options, |inputs|);
      var mode :- ParseMode(options);
      Ok(Params(inputs, contributions, mode))
  }

  /** Each colour channel of the first input's pixel is weighted by `c`. */
  function Scale(c: real): (nat, nat, Pixel) -> Pixel
  {
    (x: nat, y: nat, p: Pixel) =>
      var p1 := SetRedF(p, c * ToF(Red(p)));
      var p2 := SetGreenF(p1, c * ToF(Green(p1)));
      SetBlueF(p2, c * ToF(Blue(p2)))
  }

  /** Each colour channel of the output pixel becomes `mode(out, c * in)`; the pixel of the input
      is left as it is. */
  function Blend(mode: Mode, c: real): (nat, nat, Pixel, Pixel) -> (Pixel, Pixel)
  {
    (x: nat, y: nat, out: Pixel, input: Pixel) =>
      var q1 := SetRedF(out, mode.Apply(ToF(Red(out)), c * ToF(Red(input))));
      var q2 := SetGreenF(q1, mode.Apply(ToF(Green(q1)), c * ToF(Green(input))));
      (SetBlueF(q2, mode.Apply(ToF(Blue(q2)), c * ToF(Blue(input)))), input)
  }

  /** What the inputs draw: `pull(i, s)` is the buffer input `i` leaves in a frame handed to it
      holding `s`. */
  ghost predicate KeepsLength(pull: (nat, seq<u8>) -> seq<u8>)
  {
    forall i: nat, s: seq<u8> {:trigger pull(i, s)} :: |pull(i, s)| == |s|
  }

  function Zeros(n: nat): (r: seq<u8>)
    ensures |r| == n && forall i | 0 <= i < n :: r[i] == 0
  {
    seq(n, _ => 0)
  }

  /** The output after blending inputs `i` up to `end` (exclusive) into `out`, input `i` drawing
      into a scratch frame holding `scratch`, which is zeroed after each blend. */
  ghost function BlendFrom(out: seq<u8>, scratch: seq<u8>, width: nat, mode: Mode, cs: seq<real>,
                           pull: (nat, seq<u8>) -> seq<u8>, i: nat, end: nat): (r: seq<u8>)
    requires width > 0 && |out| % 4 == 0 && |out| == |scratch| && end <= |cs| && KeepsLength(pull)
    ensures |r| == |out|
    decreases end - i
  {
    if i >= end then out
    else
      var drawn := pull(i, scratch);
      BlendFrom(ZipPixels(out, drawn, width, Blend(mode, cs[i]), true), Zeros(|out|),
                width, mode, cs, pull, i + 1, end)
  }

  /** The frame a pull produces from a frame holding `s0`: input 0 draws into it and is weighted
      by contribution 0; the scratch frame starts as a copy of that result; then inputs `1..` are
      blended in, as many as there are both inputs and contributions. */
  ghost function Merged(s0: seq<u8>, width: nat, p: Params, pull: (nat, seq<u8>) -> seq<u8>): (r: seq<u8>)
    requires width > 0 && |s0| % 4 == 0 && |p.inputs| > 0 && |p.contributions| > 0 && KeepsLength(pull)
    ensures |r| == |s0|
  {
    var first := MapPixels(pull(0, s0), width, Scale(p.contributions[0]));
    BlendFrom(first, first, width, p.mode, p.contributions, pull, 1, Min(|p.inputs|, |p.contributions|))
  }

  /** Overwrites a frame with what an input drew into it. */
  method Draw(frame: VideoFrame, s: seq<u8>)
    requires frame.Valid() && |s| == frame.buf.Length
    modifies frame.buf
    ensures frame.buf[..] == s
  {
    forall i | 0 <= i < frame.buf.Length {
      frame.buf[i] := s[i];
    }
  }

  /** One step of the blending loop: input `i` draws into the scratch frame, which is blended
      into `frame` with weight `c` and then zeroed. */
  method BlendInput(frame: VideoFrame, scratch: VideoFrame, mode: Mode, c: real,
                    pull: (nat, seq<u8>) -> seq<u8>, i: nat)
    requires frame.Valid() && scratch.Valid() && frame.width > 0 && KeepsLength(pull)
    requires scratch.width == frame.width && scratch.height == frame.height && scratch.buf != frame.buf
    modifies frame.buf, scratch.buf
    ensures frame.buf[..] == ZipPixels(old(frame.buf[..]), pull(i, old(scratch.buf[..])), frame.width,
                                       Blend(mode, c), true)
    ensures scratch.buf[..] == Zeros(scratch.buf.Length)
  {
    Draw(scratch, pull(i, scratch.buf[..]));
    frame.ApplyZip(scratch, Blend(mode, c));
    scratch.Clear();
    assert scratch.buf[..] == Zeros(scratch.buf.Length);
  }

  /** A pull. Indexing the first input or the first contribution aborts when there is none. */
  method ProvideVideoFrame(p: Params, frame: VideoFrame, pull: (nat, seq<u8>) -> seq<u8>)
    returns (o: Outcome<()>)
    requires frame.Valid() && frame.width > 0 && KeepsLength(pull)
    modifies frame.buf
    ensures o.Panic? <==> p.inputs == [] || p.contributions == []
    ensures o.Done? ==> o.result.Ok? && frame.buf[..] == Merged(old(frame.buf[..]), frame.width, p, pull)
  {
    ghost var s0 := frame.buf[..];
    if |p.inputs| == 0 {
      return Panic("index out of bounds");
    }
    Draw(frame, pull(0, frame.buf[..]));
    if |p.contributions| == 0 {
      return Panic("index out of bounds");
    }
    var c1 := p.contributions[0];
    frame.Apply(Scale(c1));
    ghost var first := frame.buf[..];
    ghost var end := Min(|p.inputs|, |p.contributions|);
    if |p.inputs| > 1 {
      var scratch := new VideoFrame.Clone(frame);
      var i := 1;
      while i < |p.inputs| && i < |p.contributions|
        invariant 1 <= i <= end
        invariant scratch.Valid() && scratch.width == frame.width && scratch.height == frame.height
        invariant scratch.buf != frame.buf
        invariant BlendFrom(frame.buf[..], scratch.buf[..], frame.width, p.mode, p.contributions, pull, i, end)
                  == BlendFrom(first, first, frame.width, p.mode, p.contributions, pull, 1, end)
        decreases end - i
      {
        BlendInput(frame, scratch, p.mode, p.contributions[i], pull, i);
        i := i + 1;
      }
    }
    o := Done(Ok(()));
  }

  /** Contributions beyond the number of inputs are never used. */
  lemma {:induction false} ExtraContributionsIgnored(s0: seq<u8>, width: nat, p: Params,
                                                    pull: (nat, seq<u8>) -> seq<u8>, n: nat)
    requires width > 0 && |s0| % 4 == 0 && 0 < |p.inputs| <= n <= |p.contributions| && KeepsLength(pull)
    ensures Merged(s0, width, p, pull) == Merged(s0, width, p.(contributions := p.contributions[..n]), pull)
  {
    var p' := p.(contributions := p.contributions[..n]);
    assert p'.contributions[0] == p.contributions[0];
    var first := MapPixels(pull(0, s0), width, Scale(p.contributions[0]));
    var end := |p.inputs|;
    assert Min(|p.inputs|, |p.contributions|) == end == Min(|p'.inputs|, |p'.contributions|);
    BlendFromPrefix(first, first, width, p.mode, p.contributions, pull, 1, end, n);
  }

  /** Blending depends only on the contributions below `end`. */
  lemma {:induction false} BlendFromPrefix(out: seq<u8>, scratch: seq<u8>, width: nat, mode: Mode, cs: seq<real>,
                                          pull: (nat, seq<u8>) -> seq<u8>, i: nat, end: nat, n: nat)
    requires width > 0 && |out| % 4 == 0 && |out| == |scratch| && end <= n <= |cs| && KeepsLength(pull)
    ensures BlendFrom(out, scratch, width, mode, cs, pull, i, end)
            == BlendFrom(out, scratch, width, mode, cs[..n], pull, i, end)
    decreases end - i
  {
    if i < end {
      var drawn := pull(i, scratch);
      assert cs[..n][i] == cs[i];
      BlendFromPrefix(ZipPixels(out, drawn, width, Blend(mode, cs[i]), true), Zeros(|out|),
                      width, mode, cs, pull, i + 1, end, n);
    }
  }

  /** Inputs are pulled only up to the number of contributions: inputs that have none may draw
      anything. */
  lemma {:induction false} UnweightedInputsIgnored(s0: seq<u8>, width: nat, p: Params,
                                                  pull: (nat, seq<u8>) -> seq<u8>,
                                                  pull': (nat, seq<u8>) -> seq<u8>)
    requires width > 0 && |s0| % 4 == 0 && 0 < |p.contributions| <= |p.inputs|
    requires KeepsLength(pull) && KeepsLength(pull')
    requires forall i: nat, s: seq<u8> | i < |p.contributions| :: pull(i, s) == pull'(i, s)
    ensures Merged(s0, width, p, pull) == Merged(s0, width, p, pull')
  {
    var first := MapPixels(pull(0, s0), width, Scale(p.contributions[0]));
    assert first == MapPixels(pull'(0, s0), width, Scale(p.contributions[0]));
    BlendFromSamePulls(first, first, width, p.mode, p.contributions, pull, pull', 1, |p.contributions|);
  }

  lemma {:induction false} BlendFromSamePulls(out: seq<u8>, scratch: seq<u8>, width: nat, mode: Mode, cs: seq<real>,
                                             pull: (nat, seq<u8>) -> seq<u8>, pull': (nat, seq<u8>) -> seq<u8>,
                                             i: nat, end: nat)
    requires width > 0 && |out| % 4 == 0 && |out| == |scratch| && end <= |cs|
    requires KeepsLength(pull) && KeepsLength(pull')
    requires forall j: nat, s: seq<u8> | j < end :: pull(j, s) == pull'(j, s)
    ensures BlendFrom(out, scratch, width, mode, cs, pull, i, end)
            == BlendFrom(out, scratch, width, mode, cs, pull', i, end)
    decreases end - i
  {
    if i < end {
      var drawn := pull(i, scratch);
      assert drawn == pull'(i, scratch);
      BlendFromSamePulls(ZipPixels(out, drawn, width, Blend(mode, cs[i]), true), Zeros(|out|),
                         width, mode, cs, pull, pull', i + 1, end);
    }
  }

  /** With a single input, or a single contribution, a pull only weights the first input. */
  lemma SingleContributionOnlyScales(s0: seq<u8>, width: nat, p: Params, pull: (nat, seq<u8>) -> seq<u8>)
    requires width > 0 && |s0| % 4 == 0 && |p.inputs| > 0 && |p.contributions| > 0 && KeepsLength(pull)
    requires |p.inputs| == 1 || |p.contributions| == 1
    ensures Merged(s0, width, p, pull) == MapPixels(pull(0, s0), width, Scale(p.contributions[0]))
  {
  }
}
