/** Small value types and integer helpers shared by the component models. */
module Prelude {

  datatype Option<+T> = None | Some(value: T)

  datatype Result<+T, +E> = Ok(value: T) | Err(error: E)

  function Min(a: int, b: int): int { if a < b then a else b }

  function Max(a: int, b: int): int { if a > b then a else b }

  /** `max(low, min(high, value))`: the clamp every component of the program spells this way. */
  function Clamp(value: int, low: int, high: int): int { Max(low, Min(high, value)) }

  function RMin(a: real, b: real): real { if b < a then b else a }

  function RMax(a: real, b: real): real { if b > a then b else a }

  function RClamp(value: real, low: real, high: real): real { RMax(low, RMin(high, value)) }

  function Ceil(x: real): int { -(-x).Floor }

  /** The sequence without its entry at `i`. */
  function RemoveAt<T>(s: seq<T>, i: nat): (r: seq<T>)
    requires i < |s|
    ensures |r| == |s| - 1
    ensures forall k :: 0 <= k < |r| ==> r[k] == if k < i then s[k] else s[k + 1]
  {
    seq(|s| - 1, k requires 0 <= k < |s| - 1 => if k < i then s[k] else s[k + 1])
  }

  lemma InSteps(a: int, b: int, step: int)
    requires a <= b && step >= 0
    ensures a * step <= b * step
  {
    assert (b - a) * step >= 0;
  }
}
