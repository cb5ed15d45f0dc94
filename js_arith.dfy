/** JavaScript number arithmetic on integers: the remainder operator,
    whose result takes the sign of the dividend. */
module JsArith {
  type Positive = n: int | n > 0 witness 1

  /** JavaScript's `a % b` for a positive `b`. */
  function JsRem(a: int, b: Positive): (r: int)
    ensures a >= 0 ==> 0 <= r < b
    ensures a < 0 ==> 0 - b < r <= 0
    ensures a == TruncDiv(a, b) * b + r
  {
    if a >= 0 then a % b else -((-a) % b)
  }

  /** The quotient rounded toward zero, `Math.trunc(a / b)`. */
  function TruncDiv(a: int, b: Positive): (q: int)
    ensures a >= 0 ==> q * b <= a < (q + 1) * b
    ensures a < 0 ==> (q - 1) * b < a <= q * b
  {
    if a >= 0 then a / b else -((-a) / b)
  }

  /** On `0..b` the remainder is the identity, except that `b % b` is 0. */
  lemma JsRemOfRange(a: int, b: Positive)
    requires 0 <= a <= b
    ensures JsRem(a, b) == if a == b then 0 else a
  {
    if a == b {
      assert a % b == 0;
    } else {
      assert a % b == a;
    }
  }
}
