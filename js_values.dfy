/** JavaScript number idioms the dish-creation screen relies on, stated over exact reals. */
module JsValues {

  /** An optional field of a record (`field?: T`); `None` is `undefined` (and, for images, `null`). */
  datatype Option<+T> = None | Some(value: T)

  /** JavaScript truthiness of an optional number: set and non-zero. */
  predicate IsTruthy(x: Option<real>)
  {
    x.Some? && x.value != 0.0
  }

  /** JavaScript truthiness of an optional string: set and non-empty. */
  predicate IsTruthyString(x: Option<string>)
  {
    x.Some? && x.value != ""
  }

  /** `x || d` on an optional number: an unset or zero `x` reads as `d`. */
  function OrElse(x: Option<real>, d: real): (r: real)
    ensures IsTruthy(x) ==> r == x.value
    ensures !IsTruthy(x) ==> r == d
    ensures r == 0.0 ==> d == 0.0
  {
    if IsTruthy(x) then x.value else d
  }

  /** An amount that is a whole number of cents. */
  predicate IsCents(x: real)
  {
    (x * 100.0).Floor as real == x * 100.0
  }

  /** Rounds a non-negative amount to the nearest cent, a half cent going up. */
  function RoundHalfUpToCents(y: real): (r: real)
    requires y >= 0.0
    ensures r >= 0.0
    ensures IsCents(r)
    ensures y - 0.005 < r <= y + 0.005
  {
    var n := (y * 100.0 + 0.5).Floor;
    assert (n as real / 100.0) * 100.0 == n as real;
    n as real / 100.0
  }

  /**
   * `parseFloat(x.toFixed(2))`: the magnitude is rounded to two decimals with
   * ties away from zero and the sign is kept. Binary floating point is not modelled.
   */
  function Round2(x: real): (r: real)
    ensures IsCents(r)
    ensures -0.005 <= r - x <= 0.005
    ensures x >= 0.0 ==> r >= 0.0
    ensures x <= 0.0 ==> r <= 0.0
  {
    if x < 0.0 then
      var m := RoundHalfUpToCents(-x);
      NegatedCents(m);
      -m
    else RoundHalfUpToCents(x)
  }

  /** The negation of a whole number of cents is one. */
  lemma NegatedCents(m: real)
    requires IsCents(m)
    ensures IsCents(-m)
  {
    var k := (m * 100.0).Floor;
    assert (-m) * 100.0 == (-k) as real;
  }

  /** Rounding an amount that is already a whole number of cents changes nothing. */
  lemma Round2OfCents(x: real)
    requires IsCents(x)
    ensures Round2(x) == x
  {
    var n := (x * 100.0).Floor;
    if x < 0.0 {
      assert (-x) * 100.0 + 0.5 == -(n as real) + 0.5;
      assert ((-x) * 100.0 + 0.5).Floor == -n;
    } else {
      assert (x * 100.0 + 0.5).Floor == n;
    }
  }

  /** `toFixed(2)` followed by `parseFloat` twice is the same as once. */
  lemma Round2Idempotent(x: real)
    ensures Round2(Round2(x)) == Round2(x)
  {
    Round2OfCents(Round2(x));
  }

  /** The outcome of the JavaScript division `a / b` of two finite numbers. */
  datatype Quotient = Finite(value: real) | NotFinite

  /** JavaScript `/`: a zero divisor gives Infinity or NaN instead of failing. */
  function Divide(a: real, b: real): (q: Quotient)
    ensures q.NotFinite? <==> b == 0.0
    ensures q.Finite? ==> q.value * b == a
  {
    if b == 0.0 then NotFinite else Finite(a / b)
  }
}
