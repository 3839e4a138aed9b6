/** The exponential smoothing node (src/processors/average.rs). */
module AverageProcessor {

  import opened Util
  import opened Node
  import opened Inputs
  import opened Options

  /** The option naming the weight of the newest value. */
  const SmoothingKey: string := "smoothing-factor"
  const DefaultSmoothing: real := 0.5

  /** The node advertises numbers only. */
  const Capabilities: set<Capability> := {ProvideNumber}

  /** What construction keeps: the single input and the smoothing factor. */
  datatype Params = Params(input: NodeRef, alpha: real)

  /** Construction: one input providing numbers, then a numeric smoothing factor (0.5 when
      absent). The inputs are checked before the options. */
  function New(inputs: seq<NodeRef>, options: Options): (r: Result<Params>)
    ensures r.Ok? <==> |inputs| == 1 && HasCapability(inputs[0], ProvideNumber)
                       && (SmoothingKey in options ==> options[SmoothingKey].Number?)
    ensures r.Ok? ==> r.value.input == inputs[0]
    ensures r.Ok? ==> r.value.alpha == if SmoothingKey in options then options[SmoothingKey].number
                                       else DefaultSmoothing
    ensures r.Err? ==> r.error == if ValidateOne(inputs, Requires(ProvideNumber)).Err?
                                 then InvalidInputs else InvalidOptions
  {
    var input :- ValidateOne(inputs, Requires(ProvideNumber));
    var value := match Lookup(options, SmoothingKey)
                 case Some(v) => v
                 case None => FromNumber(DefaultSmoothing);
    match AsF32(value)
    case Some(alpha) => Ok(Params(input, alpha))
    case None => Err(InvalidOptions)
  }

  /** One smoothing step: the new value weighted by `alpha`, the old average by `1 - alpha`. */
  function Smooth(alpha: real, average: real, current: real): (r: real)
    ensures r - average == alpha * (current - average)
    ensures r - current == (1.0 - alpha) * (average - current)
  {
    alpha * current + (1.0 - alpha) * average
  }

  /** The average after the given values were pulled, oldest first, from a start of 0. */
  function Averaged(alpha: real, pulled: seq<real>): real
  {
    if pulled == [] then 0.0
    else Smooth(alpha, Averaged(alpha, pulled[..|pulled| - 1]), pulled[|pulled| - 1])
  }

  /** The node's state: the running average over every value pulled from the input so far. */
  class Average {
    const input: NodeRef
    const alpha: real
    var average: real
    ghost var pulled: seq<real>

    ghost predicate Valid()
      reads this
    {
      average == Averaged(alpha, pulled)
    }

    constructor (p: Params)
      ensures Valid()
      ensures input == p.input && alpha == p.alpha
      ensures average == 0.0 && pulled == []
    {
      input := p.input;
      alpha := p.alpha;
      average := 0.0;
      pulled := [];
    }

    /** A pull: `current` is what the input provided for this frame; the new average is stored
        and returned. */
    method ProvideNumber(current: real) returns (r: real)
      requires Valid()
      modifies this
      ensures Valid()
      ensures pulled == old(pulled) + [current]
      ensures average == Smooth(alpha, old(average), current)
      ensures r == average
    {
      average := (alpha * current) + (1.0 - alpha) * average;
      pulled := pulled + [current];
      assert pulled[..|pulled| - 1] == old(pulled);
      r := average;
    }
  }

  /** With a smoothing factor of 1 the node returns the newest value. */
  lemma FullSmoothingTracksInput(pulled: seq<real>)
    requires |pulled| > 0
    ensures Averaged(1.0, pulled) == pulled[|pulled| - 1]
  {
  }

  /** With a smoothing factor of 0 the average stays at its initial 0 for ever. */
  lemma {:induction false} NoSmoothingStaysZero(pulled: seq<real>)
    ensures Averaged(0.0, pulled) == 0.0
  {
    if pulled != [] {
      NoSmoothingStaysZero(pulled[..|pulled| - 1]);
    }
  }

  /** For a factor in [0, 1] the average is a convex combination of 0 and the pulled values,
      so it stays within any interval that holds 0 and every value. */
  lemma {:induction false} AveragedBounded(alpha: real, pulled: seq<real>, lo: real, hi: real)
    requires 0.0 <= alpha <= 1.0 && lo <= 0.0 <= hi
    requires forall i | 0 <= i < |pulled| :: lo <= pulled[i] <= hi
    ensures lo <= Averaged(alpha, pulled) <= hi
  {
    if pulled != [] {
      var init := pulled[..|pulled| - 1];
      AveragedBounded(alpha, init, lo, hi);
      var a, x := Averaged(alpha, init), pulled[|pulled| - 1];
      ConvexBetween(alpha, a, x, lo, hi);
    }
  }

  lemma ConvexBetween(alpha: real, a: real, x: real, lo: real, hi: real)
    requires 0.0 <= alpha <= 1.0 && lo <= a <= hi && lo <= x <= hi
    ensures lo <= Smooth(alpha, a, x) <= hi
  {
    var beta := 1.0 - alpha;
    NonNegProduct(alpha, x - lo);
    NonNegProduct(alpha, hi - x);
    NonNegProduct(beta, a - lo);
    NonNegProduct(beta, hi - a);
    assert Smooth(alpha, a, x) - lo == alpha * (x - lo) + beta * (a - lo);
    assert hi - Smooth(alpha, a, x) == alpha * (hi - x) + beta * (hi - a);
  }

  lemma NonNegProduct(a: real, b: real)
    requires a >= 0.0 && b >= 0.0
    ensures a * b >= 0.0
  {
  }
}
