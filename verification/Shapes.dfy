/** Shapes of dense tensors. */
module Shapes {
  import opened IntMath

  /** The number of elements of a shape. */
  function Numel(shape: seq<nat>): nat {
    if shape == [] then 1 else Mul(shape[0], Numel(shape[1..]))
  }
}
