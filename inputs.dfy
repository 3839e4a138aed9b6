/** Arity and capability checks on the inputs handed to a node constructor (src/util/inputs.rs). */
module Inputs {

  import opened Util
  import opened Node

  /** A capability an input must have, or two of which it must have one. */
  datatype Validator = Requires(cap: Capability) | Either(first: Capability, second: Capability)

  function Check(v: Validator, input: NodeRef): (b: bool)
    ensures v.Requires? ==> (b <==> HasCapability(input, v.cap))
    ensures v.Either? ==> (b <==> HasCapability(input, v.first) || HasCapability(input, v.second))
  {
    match v
    case Requires(cap) => HasCapability(input, cap)
    case Either(first, second) => exists cap | cap in [first, second] :: HasCapability(input, cap)
  }

  /** Validation against `()`: a node that takes no inputs. */
  function ValidateNone(inputs: seq<NodeRef>): (r: Result<()>)
    ensures r.Ok? <==> inputs == []
    ensures r.Err? ==> r.error == InvalidInputs
  {
    if |inputs| > 0 then Err(InvalidInputs) else Ok(())
  }

  /** Validation against a single validator: exactly one input, which passes it. */
  function ValidateOne(inputs: seq<NodeRef>, v: Validator): (r: Result<NodeRef>)
    ensures r.Ok? <==> |inputs| == 1 && Check(v, inputs[0])
    ensures r.Ok? ==> r.value == inputs[0]
    ensures r.Err? ==> r.error == InvalidInputs
  {
    if |inputs| == 0 then Err(InvalidInputs)
    else if |inputs| > 1 then Err(InvalidInputs)
    else if Check(v, inputs[0]) then Ok(inputs[0])
    else Err(InvalidInputs)
  }

  /** What pair validation is meant to accept: exactly two inputs, passing the validators in
      order. */
  predicate PairAccepted(inputs: seq<NodeRef>, v0: Validator, v1: Validator)
  {
    |inputs| == 2 && Check(v0, inputs[0]) && Check(v1, inputs[1])
  }

  /** What pair validation accepts as written: zipping the inputs with the validators pulls a
      third input, if there is one, before finding the validators exhausted, so that input is
      consumed unchecked and never seen by the final emptiness test. */
  predicate PairAcceptedAsWritten(inputs: seq<NodeRef>, v0: Validator, v1: Validator)
  {
    (|inputs| == 2 || |inputs| == 3) && Check(v0, inputs[0]) && Check(v1, inputs[1])
  }

  /** Pair validation as written: `inputs.zip(validators)` advances the inputs first. `ni` and
      `nv` count the items taken from each iterator. */
  method ValidatePairAsWritten(inputs: seq<NodeRef>, v0: Validator, v1: Validator)
    returns (r: Result<(NodeRef, NodeRef)>)
    ensures r.Ok? <==> PairAcceptedAsWritten(inputs, v0, v1)
    ensures r.Ok? ==> r.value == (inputs[0], inputs[1])
    ensures r.Err? ==> r.error == InvalidInputs
  {
    var validators := [v0, v1];
    var validated: seq<NodeRef> := [];
    var ni, nv := 0, 0;
    var done := false;
    while !done
      invariant 0 <= nv <= 2 && nv <= ni <= |inputs|
      invariant validated == inputs[..nv]
      invariant forall k | 0 <= k < nv :: Check(validators[k], inputs[k])
      invariant !done ==> ni == nv
      invariant done ==> (ni == nv && ni == |inputs|) || (nv == 2 && ni == 3)
      decreases if done then 0 else 1, |inputs| - ni
    {
      if ni < |inputs| {
        var input := inputs[ni];
        ni := ni + 1;
        if nv < 2 {
          var validator := validators[nv];
          nv := nv + 1;
          if !Check(validator, input) {
            return Err(InvalidInputs);
          }
          validated := validated + [input];
        } else {
          done := true;
        }
      } else {
        done := true;
      }
    }
    if ni < |inputs| || nv < 2 {
      return Err(InvalidInputs);
    }
    r := Ok((validated[0], validated[1]));
  }

  /** Pair validation with the zip the other way round, `validators.zip(inputs)`, so that no
      input is taken once the validators are exhausted. */
  method ValidatePair(inputs: seq<NodeRef>, v0: Validator, v1: Validator)
    returns (r: Result<(NodeRef, NodeRef)>)
    ensures r.Ok? <==> PairAccepted(inputs, v0, v1)
    ensures r.Ok? ==> r.value == (inputs[0], inputs[1])
    ensures r.Err? ==> r.error == InvalidInputs
  {
    var validators := [v0, v1];
    var validated: seq<NodeRef> := [];
    var ni, nv := 0, 0;
    var done := false;
    while !done
      invariant 0 <= nv <= 2 && ni <= |inputs| && ni <= nv <= ni + 1
      invariant validated == inputs[..ni]
      invariant forall k | 0 <= k < ni :: Check(validators[k], inputs[k])
      invariant !done ==> ni == nv
      invariant done ==> (ni == nv && nv == 2) || (nv == ni + 1 && ni == |inputs|)
      decreases if done then 0 else 1, 2 - nv
    {
      if nv < 2 {
        var validator := validators[nv];
        nv := nv + 1;
        if ni < |inputs| {
          var input := inputs[ni];
          ni := ni + 1;
          if !Check(validator, input) {
            return Err(InvalidInputs);
          }
          validated := validated + [input];
        } else {
          done := true;
        }
      } else {
        done := true;
      }
    }
    if ni < |inputs| || nv < 2 || ni < 2 {
      return Err(InvalidInputs);
    }
    r := Ok((validated[0], validated[1]));
  }

  /** Three inputs whose first two pass are accepted as written, and rejected as intended. */
  lemma ThirdInputIgnored(a: NodeRef, b: NodeRef, c: NodeRef, v0: Validator, v1: Validator)
    requires Check(v0, a) && Check(v1, b)
    ensures PairAcceptedAsWritten([a, b, c], v0, v1)
    ensures !PairAccepted([a, b, c], v0, v1)
  {
  }
}
