/** Small shared vocabulary: optional values, rounding, and sums of sequences. */
module Prelude {

  datatype Option<+T> = None | Some(value: T)

  function MinReal(a: real, b: real): real { if a <= b then a else b }

  function MaxInt(a: int, b: int): int { if a >= b then a else b }

  /** Least integer that is not below `x` (Lua's and JavaScript's `ceil`). */
  function Ceil(x: real): (n: int)
    ensures n as real - 1.0 < x <= n as real
  {
    -((-x).Floor)
  }

  /** An integer is at or above `x` exactly when it is at or above `Ceil(x)`. */
  lemma CeilIsLeast(x: real, n: int)
    ensures n >= Ceil(x) <==> n as real >= x
  {
  }
}
