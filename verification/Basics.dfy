/** Small things that several modules use. */
module Basics {
  datatype Option<+T> = None | Some(value: T)

  function Pow2(n: nat): (p: nat)
    ensures p >= 1
  {
    if n == 0 then 1 else 2 * Pow2(n - 1)
  }

  function Abs(x: real): real {
    if x >= 0.0 then x else -x
  }

  function Square(x: real): real {
    x * x
  }
}
