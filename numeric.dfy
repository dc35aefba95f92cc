/** Integer conversions of the C runtime, stated over exact reals.
    Every C++ `float` of the programs is modelled as a mathematical `real`. */
module Numeric {

  function Abs(v: int): nat
  {
    if v < 0 then -v else v
  }

  function AbsR(v: real): real
  {
    if v < 0.0 then -v else v
  }

  function MaxR(a: real, b: real): real
  {
    if a > b then a else b
  }

  function MinR(a: real, b: real): real
  {
    if a < b then a else b
  }

  /** C `round`: the nearest integer, halfway cases rounded away from zero. */
  function Round(v: real): (r: int)
    ensures v - 0.5 <= r as real <= v + 0.5
    ensures r as real == v + 0.5 ==> v >= 0.0
    ensures r as real == v - 0.5 ==> v <= 0.0
  {
    if v >= 0.0 then (v + 0.5).Floor else -((-v + 0.5).Floor)
  }

  /** C's implicit float-to-int conversion: the fraction is discarded (rounds toward zero). */
  function Trunc(v: real): (r: int)
    ensures v >= 0.0 ==> 0 <= r && r as real <= v < r as real + 1.0
    ensures v < 0.0 ==> r <= 0 && r as real - 1.0 < v <= r as real
  {
    if v >= 0.0 then v.Floor else -((-v).Floor)
  }

  /** Rounding an integral value gives that value back. */
  lemma RoundOfInt(n: int)
    ensures Round(n as real) == n
  {
  }

  /** `round` is symmetric about zero. */
  lemma RoundOdd(v: real)
    ensures Round(-v) == -Round(v)
  {
  }

  /** Two reals closer than one unit round to integers at most one apart. */
  lemma RoundCloseValues(a: real, b: real)
    requires -1.0 < a - b < 1.0
    ensures -1 <= Round(a) - Round(b) <= 1
  {
  }

  /** Truncating an integral value gives that value back. */
  lemma TruncOfInt(n: int)
    ensures Trunc(n as real) == n
  {
  }

  /** Truncation toward zero never reverses the order of two values. */
  lemma TruncMonotone(u: real, v: real)
    requires u <= v
    ensures Trunc(u) <= Trunc(v)
  {
  }
}
