/** The pure helpers of the sidebar script, over exact reals. */
module Numeric {

  function Abs(x: real): real {
    if x < 0.0 then -x else x
  }

  function Max(x: real, y: real): real {
    if x < y then y else x
  }

  function Min(x: real, y: real): real {
    if x < y then x else y
  }

  function Clamp(x: real, low: real, high: real): real {
    Min(high, Max(low, x))
  }

  /** Three decimals, halves towards plus infinity as JavaScript rounds them. */
  function Round3(x: real): real {
    (x * 1000.0 + 0.5).Floor as real / 1000.0
  }

  lemma ProductNotNegative(a: real, b: real)
    requires a >= 0.0 && b >= 0.0
    ensures a * b >= 0.0
  {
  }

  lemma SquareNotNegative(x: real)
    ensures x * x >= 0.0
  {
    if x < 0.0 {
      ProductNotNegative(-x, -x);
      assert x * x == -x * -x;
    }
  }

  lemma ProductSign(x: real, y: real, product: real)
    requires product == x * y && ((x > 0.0 && y > 0.0) || (x < 0.0 && y < 0.0))
    ensures product > 0.0
  {
  }
}
