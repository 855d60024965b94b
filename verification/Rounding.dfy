/** Decimal rounding as Python formats and rounds numbers: half to even. */
module Rounding {

  /** Round half to even, as Python formats a number. */
  function RoundHalfEven(x: real): int {
    var f := x.Floor;
    var r := x - f as real;
    if r < 0.5 || (r == 0.5 && f % 2 == 0) then f else f + 1
  }

  /** The rounded value is a nearest integer, and the even one of two. */
  lemma RoundIsNearest(x: real)
    ensures var r := RoundHalfEven(x);
            && -0.5 <= x - r as real <= 0.5
            && ((x - r as real == 0.5 || x - r as real == -0.5) ==> r % 2 == 0)
  {}

  lemma RoundIsMonotone(x: real, y: real)
    requires x <= y
    ensures RoundHalfEven(x) <= RoundHalfEven(y)
  {
    assert x.Floor <= y.Floor;
  }

  function Round2(x: real): real {
    RoundHalfEven(x * 100.0) as real / 100.0
  }

  function Round3(x: real): real {
    RoundHalfEven(x * 1000.0) as real / 1000.0
  }

  function Round4(x: real): real {
    RoundHalfEven(x * 10000.0) as real / 10000.0
  }

  function Round6(x: real): real {
    RoundHalfEven(x * 1000000.0) as real / 1000000.0
  }

  /** Rounding to cents again changes nothing. */
  lemma Round2IsIdempotent(x: real)
    ensures Round2(Round2(x)) == Round2(x)
  {
    var n := RoundHalfEven(x * 100.0);
    assert Round2(x) * 100.0 == n as real;
    assert (n as real).Floor == n;
  }

  // ----- Numbers as they are written -----

  /** `written` is a multiple of `1 / unit` nearest to `exact`. */
  predicate WrittenTo(unit: real, written: real, exact: real) {
    var n := (written * unit).Floor as real;
    written * unit == n && -0.5 <= n - exact * unit <= 0.5
  }

  lemma RoundedIsWritten(unit: real, exact: real)
    requires unit > 0.0
    ensures WrittenTo(unit, RoundHalfEven(exact * unit) as real / unit, exact)
  {
    var n := RoundHalfEven(exact * unit);
    RoundIsNearest(exact * unit);
    assert n as real / unit * unit == n as real;
  }

  lemma WrittenTo6(exact: real)
    ensures WrittenTo(1000000.0, Round6(exact), exact)
  {
    RoundedIsWritten(1000000.0, exact);
  }

  lemma WrittenTo4(exact: real)
    ensures WrittenTo(10000.0, Round4(exact), exact)
  {
    RoundedIsWritten(10000.0, exact);
  }

  lemma WrittenTo3(exact: real)
    ensures WrittenTo(1000.0, Round3(exact), exact)
  {
    RoundedIsWritten(1000.0, exact);
  }

  lemma WrittenTo2(exact: real)
    ensures WrittenTo(100.0, Round2(exact), exact)
  {
    RoundedIsWritten(100.0, exact);
  }
}
