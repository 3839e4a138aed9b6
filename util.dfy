/** Errors, results and frame identities shared by every node of the engine (src/util.rs). */
module Util {

  datatype Option<T> = None | Some(value: T)

  /** Structural reasons a pipeline definition is rejected. */
  datatype PipelineFault = SourceProcessorsSinkOrder | Cycle | UnknownInput | InvalidSyntax

  /** The error values a constructor or the graph builder returns (never a panic). */
  datatype Error =
    | System
    | InvalidInputs
    | InvalidOptions
    | UnknownNode(nodeType: string)
    | InvalidPipeline(fault: PipelineFault)

  datatype Result<T> = Ok(value: T) | Err(error: Error) {
    predicate IsFailure() { Err? }
    function PropagateFailure<U>(): Result<U> requires Err? { Err(error) }
    function Extract(): T requires Ok? { value }
  }

  /** What a Rust call that returns a `Result` may also do: abort the process with a panic
      (a failed `assert!`, an out-of-range index, an `unwrap` of `None`). */
  datatype Outcome<T> = Done(result: Result<T>) | Panic(reason: string)

  /** Lifts a result that cannot panic. */
  function Returns<T>(r: Result<T>): (o: Outcome<T>)
    ensures o.Done? && o.result == r
  {
    Done(r)
  }

  /** An identifier of one logical tick. */
  datatype FrameId = FrameId(n: nat)

  /** The default identifier, which the generator never hands out. */
  const DefaultFrameId := FrameId(0)

  /** The last frame identity a node computed for; `Update` is the store-if-different step
      every memoizing node performs on a pull. */
  class LastFrameId {
    var id: FrameId

    constructor ()
      ensures id == DefaultFrameId
    {
      id := DefaultFrameId;
    }

    /** Stores `other` and reports whether it differed from the stored identity. */
    method Update(other: FrameId) returns (changed: bool)
      modifies this
      ensures changed <==> old(id) != other
      ensures id == other
    {
      if id != other {
        id := other;
        changed := true;
      } else {
        changed := false;
      }
    }
  }

  /** The process-wide generator of frame identities (an atomic counter starting at 1). */
  class FrameIdGenerator {
    var next: nat

    ghost predicate Valid()
      reads this
    {
      next >= 1
    }

    constructor ()
      ensures Valid() && next == 1
    {
      next := 1;
    }

    /** Returns the current counter value as a fresh identity and advances the counter. */
    method Get() returns (id: FrameId)
      requires Valid()
      modifies this
      ensures Valid()
      ensures id == FrameId(old(next)) && next == old(next) + 1
      ensures id != DefaultFrameId
    {
      id := FrameId(next);
      next := next + 1;
    }
  }
}
