/** Real numbers: rounding as Python's `round` does it, and a few facts about products and quotients. */
module Reals {

  function MaxReal(x: real, y: real): real { if x < y then y else x }

  function Abs(x: real): real { if x < 0.0 then -x else x }

  /** Dividing and multiplying by the same number. */
  lemma DivideMultiply(x: real, d: real)
    requires d != 0.0
    ensures (x / d) * d == x
  {
  }

  lemma MultiplyDivide(x: real, d: real)
    requires d != 0.0
    ensures x * d / d == x
  {
  }

  lemma DivideIsMonotone(x: real, y: real, d: real)
    requires x <= y && d > 0.0
    ensures x / d <= y / d
  {
  }

  lemma MultiplyIsMonotone(x: real, y: real, d: real)
    requires x <= y && d >= 0.0
    ensures d * x <= d * y
  {
  }

  lemma DivideCompares(x: real, y: real, d: real)
    requires d > 0.0
    ensures x / d > y <==> x > y * d
  {
    DivideMultiply(x, d);
    if x / d > y { Scales(y, x / d, d); } else { MultiplyIsMonotone(x / d, y, d); }
  }

  lemma Scales(x: real, y: real, d: real)
    requires x < y && d > 0.0
    ensures x * d < y * d
  {
  }

  /** Rounds to the nearest integer; a tie goes to the even one. */
  function RoundHalfEven(x: real): int {
    var below := x.Floor;
    var rest := x - below as real;
    if rest < 0.5 || (rest == 0.5 && below % 2 == 0) then below else below + 1
  }

  lemma RoundIsMonotone(x: real, y: real)
    requires x <= y
    ensures RoundHalfEven(x) <= RoundHalfEven(y)
  {
  }

  lemma RoundIsNearest(x: real)
    ensures -0.5 <= x - RoundHalfEven(x) as real <= 0.5
    ensures x >= 0.0 ==> RoundHalfEven(x) >= 0
  {
  }

  lemma TiesGoToEven(k: int)
    ensures RoundHalfEven(k as real + 0.5) % 2 == 0
  {
    assert (k as real + 0.5).Floor == k;
  }

  /** A number between two integers is rounded to a number between them. */
  lemma RoundStaysBetween(low: int, x: real, high: int)
    requires low as real <= x <= high as real
    ensures low <= RoundHalfEven(x) <= high
  {
  }
}
