/** Decimal rounding over exact numbers: nearest, ties to the even neighbour. */
module Rounding {

  function RoundHalfEven(x: real): int {
    var below := x.Floor;
    var rest := x - below as real;
    if rest < 0.5 || (rest == 0.5 && below % 2 == 0) then below else below + 1
  }

  /** The result is a nearest integer, the even one where two are equally near; integers are left
      alone. */
  lemma RoundsToNearest(x: real)
    ensures -0.5 <= RoundHalfEven(x) as real - x <= 0.5
    ensures x - x.Floor as real == 0.5 ==> RoundHalfEven(x) % 2 == 0
    ensures x == x.Floor as real ==> RoundHalfEven(x) as real == x
  {
  }

  /** An even whole number passes through rounding; an odd one would flip the ties. */
  lemma RoundShifts(x: real, k: int)
    requires k % 2 == 0
    ensures RoundHalfEven(x + k as real) == RoundHalfEven(x) + k
  {
    assert (x + k as real).Floor == x.Floor + k;
  }
}
