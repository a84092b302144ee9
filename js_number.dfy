/** JavaScript's `%` operator on integers, which truncates toward zero. */
module JsNumber {

  function Abs(x: int): (r: int)
    ensures r >= 0
  {
    if x < 0 then -x else x
  }

  /**
   * `a % b` as JavaScript computes it: the remainder takes the sign of the dividend `a`
   * (Dafny's own `%` never returns a negative remainder).
   */
  function Rem(a: int, b: int): (r: int)
    requires b != 0
    ensures a >= 0 ==> 0 <= r < Abs(b)
    ensures a < 0 ==> -Abs(b) < r <= 0
    ensures a >= 0 ==> r == a % b
    ensures a < 0 ==> r == -((-a) % b)
  {
    if a >= 0 then a % b else -((-a) % b)
  }

  /** The truncating remainder differs from Dafny's for negative dividends: `-1 % 3` is `-1`. */
  lemma RemOfNegative()
    ensures Rem(-1, 3) == -1
    ensures (-1) % 3 == 2
  {
  }
}
