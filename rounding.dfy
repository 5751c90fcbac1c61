/** Rounding to two decimals, as Python's round(x, 2) does it, on exact reals:
    the nearest hundredth, and on a tie the even hundredth. */
module Rounding {

  function Abs(x: real): real {
    if x < 0.0 then -x else x
  }

  /** x is a whole number of hundredths (of cents, for a currency amount). */
  predicate OnCentGrid(x: real) {
    (x * 100.0).Floor as real == x * 100.0
  }

  /** The whole number of hundredths nearest to x; a tie goes to the even one. */
  function NearestHundredths(x: real): int {
    var y := x * 100.0;
    var f := y.Floor;
    var frac := y - f as real;
    if frac < 0.5 then f
    else if frac > 0.5 then f + 1
    else if f % 2 == 0 then f
    else f + 1
  }

  /** round(x, 2). Its properties are the lemmas below; they are kept out of
      its signature so that callers see only the facts they ask for. */
  function Round2(x: real): real {
    NearestHundredths(x) as real / 100.0
  }

  /** The nearest whole number of hundredths is at most half a hundredth away. */
  lemma NearestHundredthsBounds(x: real)
    ensures -0.5 <= NearestHundredths(x) as real - x * 100.0 <= 0.5
  {
    var y := x * 100.0;
    var f := y.Floor;
    assert f as real <= y < f as real + 1.0;
  }

  /** round(x, 2) is a whole number of cents within half a cent of x. */
  lemma Round2Bounds(x: real)
    ensures OnCentGrid(Round2(x))
    ensures -0.005 <= Round2(x) - x <= 0.005
  {
    NearestHundredthsBounds(x);
    var c := NearestHundredths(x);
    var r := c as real / 100.0;
    assert Round2(x) == r;
    assert r * 100.0 == c as real;
    assert (r * 100.0).Floor == c;
    assert r - x == (c as real - x * 100.0) / 100.0;
  }

  /** An amount already on the cent grid is left as it is. */
  lemma Round2OnGrid(x: real)
    requires OnCentGrid(x)
    ensures Round2(x) == x
  {
    var y := x * 100.0;
    assert y.Floor as real == y;
    assert NearestHundredths(x) == y.Floor;
  }

  /** Rounding an amount that is already rounded changes nothing. */
  lemma Round2Idempotent(x: real)
    ensures Round2(Round2(x)) == Round2(x)
  {
    Round2Bounds(x);
    Round2OnGrid(Round2(x));
  }

  /** Rounding never reverses the order of two amounts. */
  lemma Round2Monotone(x: real, y: real)
    requires x <= y
    ensures Round2(x) <= Round2(y)
  {
    if x < y {
      NearestHundredthsBounds(x);
      NearestHundredthsBounds(y);
      var cx, cy := NearestHundredths(x), NearestHundredths(y);
      assert x * 100.0 < y * 100.0;
      assert cx as real - 1.0 <= x * 100.0 - 0.5;
      assert y * 100.0 - 0.5 <= cy as real;
      assert cx <= cy;
    }
  }

  /** A tie goes to the even cent, as in Python. */
  lemma Round2TiesToEven()
    ensures Round2(0.125) == 0.12 && Round2(0.375) == 0.38 && Round2(2.5) == 2.5
  {
    assert (0.125 * 100.0).Floor == 12;
    assert (0.375 * 100.0).Floor == 37;
    Round2OnGrid(2.5);
  }
}
