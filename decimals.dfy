/** Python's decimal.Decimal for finite values, and the digit counting pydantic applies
    to a `condecimal(max_digits=…, decimal_places=…)` field. */
module Decimals {

  import opened Wrappers

  /** A finite Decimal as Decimal.as_tuple() shows it:
      value = (-1)^negative * coefficient * 10^exponent. */
  datatype Decimal = Decimal(negative: bool, coefficient: nat, exponent: int)

  function Pow10(k: nat): (r: nat)
    ensures r >= 1
  {
    if k == 0 then 1 else 10 * Pow10(k - 1)
  }

  /** Number of decimal digits of n (0 has one digit, as in Decimal(0).as_tuple()). */
  function NumDigits(n: nat): (r: nat)
    ensures r >= 1
  {
    if n < 10 then 1 else 1 + NumDigits(n / 10)
  }

  /** The value is strictly positive. */
  predicate IsPositive(d: Decimal) {
    !d.negative && d.coefficient > 0
  }

  /** Decimal.normalize(): trailing zeros of the coefficient move into the exponent;
      a zero becomes 0 with exponent 0. */
  function Normalize(d: Decimal): (r: Decimal)
    ensures r.negative == d.negative
    ensures r.coefficient == 0 <==> d.coefficient == 0
    ensures r.coefficient == 0 ==> r.exponent == 0
    ensures r.coefficient % 10 != 0 || r.coefficient == 0
    decreases d.coefficient
  {
    if d.coefficient == 0 then Decimal(d.negative, 0, 0)
    else if d.coefficient % 10 == 0 then Normalize(Decimal(d.negative, d.coefficient / 10, d.exponent + 1))
    else d
  }

  /** coefficient * 10^exponent as a whole number of 10^-k units, when it is one. */
  function ScaledMagnitude(coefficient: nat, exponent: int, k: nat): Option<nat>
  {
    if exponent + k >= 0 then Some(coefficient * Pow10(exponent + k))
    else if coefficient % Pow10(-exponent - k) == 0 then Some(coefficient / Pow10(-exponent - k))
    else None
  }

  /** The value as a whole number of 10^-k units, when it is one. */
  function ScaledOf(d: Decimal, k: nat): Option<int>
  {
    match ScaledMagnitude(d.coefficient, d.exponent, k)
    case None => None
    case Some(m) => Some(if d.negative then -(m as int) else m as int)
  }

  /** The value as a whole number of hundredths, when it is one. */
  function CentsOf(d: Decimal): Option<int>
  {
    ScaledOf(d, 2)
  }

  /** The magnitude of the value exceeds n. */
  predicate MagnitudeAbove(d: Decimal, n: nat) {
    if d.exponent >= 0 then d.coefficient * Pow10(d.exponent) > n
    else d.coefficient > n * Pow10(-d.exponent)
  }

  /** What pydantic counts on the normalized value: all digits, and digits after the point. */
  datatype DigitCount = DigitCount(digits: nat, decimals: nat)

  function CountDigits(d: Decimal): DigitCount
  {
    var n := Normalize(d);
    var len := NumDigits(n.coefficient);
    if n.exponent >= 0 then DigitCount(len + n.exponent, 0)
    else
      var places: nat := -n.exponent;
      DigitCount(if len > places then len else places, places)
  }

  // ---- arithmetic facts ----

  lemma {:induction false} Pow10Add(a: nat, b: nat)
    ensures Pow10(a + b) == Pow10(a) * Pow10(b)
    decreases a
  {
    if a > 0 {
      Pow10Add(a - 1, b);
      assert Pow10(a + b) == 10 * Pow10(a - 1 + b);
    }
  }

  /** n has at most k digits exactly when n < 10^k. */
  lemma {:induction false} NumDigitsBound(n: nat, k: nat)
    ensures NumDigits(n) <= k <==> (k >= 1 && n < Pow10(k))
    decreases n
  {
    if n >= 10 {
      if k >= 1 {
        NumDigitsBound(n / 10, k - 1);
        assert n < Pow10(k) <==> n / 10 < Pow10(k - 1);
        if k - 1 == 0 {
          assert !(n < Pow10(k));
        }
      }
    } else if k >= 1 {
      assert Pow10(k) >= 10 by { assert Pow10(k) == 10 * Pow10(k - 1); }
    }
  }

  /** Appending e zeros to a non-zero number adds e digits. */
  lemma {:induction false} NumDigitsShift(c: nat, e: nat)
    requires c >= 1
    ensures NumDigits(c * Pow10(e)) == NumDigits(c) + e
    decreases e
  {
    if e > 0 {
      NumDigitsShift(c, e - 1);
      var x := c * Pow10(e - 1);
      assert c * Pow10(e) == 10 * x;
      assert x >= 1;
      assert (10 * x) / 10 == x;
    }
  }

  /** A multiple of 10^k, k >= 1, ends in 0. */
  lemma MultipleOfPow10EndsInZero(c: nat, k: nat)
    requires k >= 1
    ensures c % Pow10(k) == 0 ==> c % 10 == 0
  {
    var p := Pow10(k - 1);
    assert Pow10(k) == 10 * p;
    if c % Pow10(k) == 0 {
      var q := c / Pow10(k);
      assert c == Pow10(k) * q;
      assert c == 10 * (p * q);
    }
  }

  /** Dividing out one factor ten keeps the number of whole hundredths. */
  lemma ShiftCents(c: nat, e: int)
    requires c % 10 == 0
    ensures CentsOf(Decimal(false, c / 10, e + 1)) == CentsOf(Decimal(false, c, e))
  {
    var q := c / 10;
    assert c == 10 * q;
    if e >= -2 {
      assert Pow10(e + 3) == 10 * Pow10(e + 2);
      assert q * Pow10(e + 3) == q * (10 * Pow10(e + 2)) == c * Pow10(e + 2);
    } else if e == -3 {
      assert Pow10(1) == 10;
    } else {
      var k: nat := -e - 3;
      var p := Pow10(k);
      assert Pow10(-e - 2) == 10 * p;
      DivModScale(q, p);
    }
  }

  lemma MulNonNegative(x: int, y: int)
    requires x >= 0 && y >= 0
    ensures x * y >= 0
  {
  }

  lemma DivModUnique(a: int, b: int, q: int, r: int)
    requires b > 0 && a == b * q + r && 0 <= r < b
    ensures a / b == q && a % b == r
  {
    var q0, r0 := a / b, a % b;
    assert a == b * q0 + r0 && 0 <= r0 < b;
    assert b * q - b * q0 == r0 - r;
    assert b * (q - q0 - 1) == b * q - b * q0 - b;
    assert b * (q0 - q - 1) == b * q0 - b * q - b;
    if q > q0 {
      MulNonNegative(b, q - q0 - 1);
    } else if q < q0 {
      MulNonNegative(b, q0 - q - 1);
    }
  }

  lemma DivModScale(q: nat, p: nat)
    requires p >= 1
    ensures (10 * q) % (10 * p) == 0 <==> q % p == 0
    ensures q % p == 0 ==> (10 * q) / (10 * p) == q / p
  {
    var d := q / p;
    var m := q % p;
    assert q == p * d + m && 0 <= m < p;
    assert 10 * q == (10 * p) * d + 10 * m;
    DivModUnique(10 * q, 10 * p, d, 10 * m);
  }

  lemma SignedCents(d: Decimal)
    ensures CentsOf(d) == match CentsOf(Decimal(false, d.coefficient, d.exponent))
                          case None => None
                          case Some(m) => Some(if d.negative then -m else m)
  {
  }

  /** Normalizing does not change the value. */
  lemma {:induction false} NormalizeKeepsCents(d: Decimal)
    ensures CentsOf(Normalize(d)) == CentsOf(d)
    decreases d.coefficient
  {
    if d.coefficient == 0 {
      if d.exponent < -2 {
        assert 0 % Pow10(-d.exponent - 2) == 0;
      }
    } else if d.coefficient % 10 == 0 {
      var next := Decimal(d.negative, d.coefficient / 10, d.exponent + 1);
      NormalizeKeepsCents(next);
      ShiftCents(d.coefficient, d.exponent);
      SignedCents(d);
      SignedCents(next);
    }
  }
}
