/** Python's `round` and `//`, computed with JavaScript's operators in exact arithmetic. */
module PythonMath {

  // ---------------------------------------------------------------- powers

  function Pow(base: int, exponent: nat): int {
    if exponent == 0 then 1 else base * Pow(base, exponent - 1)
  }

  lemma {:induction false} PowPositive(base: int, exponent: nat)
    requires base > 0
    ensures Pow(base, exponent) > 0
  {
    if exponent > 0 {
      PowPositive(base, exponent - 1);
    }
  }

  lemma {:induction false} TenIsTwiceFive(exponent: nat)
    ensures Pow(10, exponent) == Pow(2, exponent) * Pow(5, exponent)
  {
    if exponent > 0 {
      TenIsTwiceFive(exponent - 1);
      var p, q := Pow(2, exponent - 1), Pow(5, exponent - 1);
      assert 10 * (p * q) == (2 * p) * (5 * q);
    }
  }

  predicate Odd(n: int) { n % 2 == 1 }

  lemma OddTimesOdd(i: int, j: int)
    ensures (2 * i + 1) * (2 * j + 1) == 2 * (2 * (i * j) + i + j) + 1
  {
  }

  lemma OddIs(n: int, half: int)
    requires n == 2 * half || n == 2 * half + 1
    ensures Odd(n) <==> n == 2 * half + 1
  {
  }

  lemma OddProduct(a: int, b: int)
    ensures Odd(a * b) <==> Odd(a) && Odd(b)
  {
    var i, j := a / 2, b / 2;
    if Odd(a) && Odd(b) {
      OddTimesOdd(i, j);
      assert a == 2 * i + 1 && b == 2 * j + 1;
      OddIs(a * b, 2 * (i * j) + i + j);
    } else if !Odd(a) {
      assert a == 2 * i;
      OddIs(a * b, i * b);
    } else {
      assert b == 2 * j;
      OddIs(a * b, a * j);
    }
  }

  lemma {:induction false} PowersOfFiveAreOdd(exponent: nat)
    ensures Odd(Pow(5, exponent))
  {
    if exponent > 0 {
      PowersOfFiveAreOdd(exponent - 1);
      OddProduct(5, Pow(5, exponent - 1));
    }
  }

  /** A power of two dividing an odd multiple of `x` divides `x`. */
  lemma {:induction false} PowerOfTwoDivides(x: int, odd: int, y: int, k: nat) returns (h: int)
    requires Odd(odd) && x * odd == y * Pow(2, k)
    ensures x == h * Pow(2, k)
    decreases k
  {
    if k == 0 {
      h := x;
    } else {
      var p := Pow(2, k - 1);
      assert x * odd == 2 * (y * p);
      OddProduct(x, odd);
      var half := x / 2;
      assert x == 2 * half;
      assert half * odd == y * p by {
        assert 2 * (half * odd) == 2 * (y * p);
      }
      h := PowerOfTwoDivides(half, odd, y, k - 1);
      assert 2 * (h * p) == h * (2 * p);
    }
  }

  // ---------------------------------------------------------------- round

  /** A value counted in units of its last digit. */
  function Scaled(value: real, digits: nat): real {
    value * Pow(10, digits) as real
  }

  function Halves(value: real, digits: nat): real {
    value * Pow(2, digits + 1) as real
  }

  /** The nearest integer, the one away from zero of two that are equally near. */
  function NearestAway(x: real): int {
    if x < 0.0 then -(-x + 0.5).Floor else (x + 0.5).Floor
  }

  /** Whether a value is an odd multiple of 2^-(digits + 1). */
  predicate OddHalves(value: real, digits: nat) {
    Halves(value, digits).Floor as real == Halves(value, digits) && Odd(Halves(value, digits).Floor)
  }

  /**
   * `pythonRound`, counted in units of the last digit kept. `toFixed` (ECMA-262, 21.1.3.3) is the
   * nearest decimal, a tie going away from zero.
   */
  function RoundedUnits(value: real, digits: nat): int {
    if !OddHalves(value, digits) then NearestAway(Scaled(value, digits))
    else
      var below := Scaled(value, digits).Floor;
      if below % 2 == 0 then below else below + 1
  }

  function PythonRound(value: real, digits: nat): real {
    PowPositive(10, digits);
    RoundedUnits(value, digits) as real / Pow(10, digits) as real
  }

  /** Every finite double is an integer over a power of two. */
  ghost predicate Dyadic(value: real) {
    exists m: int, k: nat :: OverPower(value, m, k)
  }

  ghost predicate OverPower(value: real, m: int, k: nat) {
    value * Pow(2, k) as real == m as real
  }

  /** Exactly between two neighbouring integers. */
  predicate Halfway(x: real) {
    x - x.Floor as real == 0.5
  }

  lemma ScaledIsHalves(value: real, digits: nat)
    ensures 2.0 * Scaled(value, digits) == Halves(value, digits) * Pow(5, digits) as real
  {
    TenIsTwiceFive(digits);
    Regroup(value, Pow(2, digits), Pow(5, digits));
    assert Pow(2, digits + 1) == 2 * Pow(2, digits);
  }

  lemma Regroup(value: real, p: int, q: int)
    ensures 2.0 * (value * (p * q) as real) == (value * (2 * p) as real) * q as real
  {
    var a, b := p as real, q as real;
    assert (p * q) as real == a * b && (2 * p) as real == 2.0 * a;
    assert 2.0 * (value * (a * b)) == (value * (2.0 * a)) * b;
  }

  lemma FloorIs(x: real, n: int)
    requires n as real <= x < n as real + 1.0
    ensures x.Floor == n
  {
  }

  lemma HalfOfOdd(x: real, n: int, floor: int)
    requires x == n as real + 0.5 && floor == x.Floor
    ensures Halfway(x)
  {
    FloorIs(x, n);
  }

  /** An odd multiple of 2^-(digits + 1) is halfway, whatever the value. */
  lemma OddHalvesAreHalfway(value: real, digits: nat)
    requires OddHalves(value, digits)
    ensures Halfway(Scaled(value, digits))
  {
    var h := Halves(value, digits).Floor;
    hide Scaled, Halves, Halfway, Pow;
    ScaledIsHalves(value, digits);
    PowersOfFiveAreOdd(digits);
    OddProduct(h, Pow(5, digits));
    assert h as real * Pow(5, digits) as real == (h * Pow(5, digits)) as real;
    var odd := h * Pow(5, digits);
    assert odd == 2 * (odd / 2) + 1;
    var n := odd / 2;
    assert odd as real == 2.0 * n as real + 1.0;
    HalfOfOdd(Scaled(value, digits), n, Scaled(value, digits).Floor);
  }

  /** A double is halfway at some digits exactly when it is an odd multiple of 2^-(digits + 1). */
  lemma HalfwayIsOddHalves(value: real, digits: nat)
    requires Dyadic(value)
    ensures Halfway(Scaled(value, digits)) <==> OddHalves(value, digits)
  {
    if OddHalves(value, digits) {
      OddHalvesAreHalfway(value, digits);
    } else if Halfway(Scaled(value, digits)) {
      var m: int, k: nat :| OverPower(value, m, k);
      DyadicTie(value, digits, m, k);
    }
  }

  lemma DyadicTie(value: real, digits: nat, m: int, k: nat)
    requires OverPower(value, m, k) && Halfway(Scaled(value, digits))
    ensures OddHalves(value, digits)
  {
    var odd := 2 * Scaled(value, digits).Floor + 1;
    hide OverPower, Scaled, Halves, Pow;
    ScaledIsHalves(value, digits);
    assert Halves(value, digits) * Pow(5, digits) as real == odd as real;
    hide Halfway;
    HalvesOfDyadic(value, m, k, digits, odd);
    PowersOfFiveAreOdd(digits);
    var h := PowerOfTwoDivides(m * Pow(2, digits + 1), Pow(5, digits), odd, k);
    HalvesAre(value, m, k, digits, h);
    OddQuotient(h, Pow(5, digits), odd, Halves(value, digits));
  }

  lemma OddQuotient(h: int, fives: int, odd: int, halves: real)
    requires halves == h as real && halves * fives as real == odd as real && Odd(odd)
    ensures halves.Floor == h && Odd(h)
  {
    assert (h * fives) as real == odd as real;
    OddProduct(h, fives);
  }

  lemma HalvesOfDyadic(value: real, m: int, k: nat, digits: nat, odd: int)
    requires OverPower(value, m, k) && Halves(value, digits) * Pow(5, digits) as real == odd as real
    ensures m * Pow(2, digits + 1) * Pow(5, digits) == odd * Pow(2, k)
  {
    hide Pow;
    Exchange(value, m, Pow(2, k), Pow(2, digits + 1), Pow(5, digits), odd);
  }

  lemma Exchange(value: real, m: int, p: int, doubled: int, fives: int, odd: int)
    requires value * p as real == m as real && (value * doubled as real) * fives as real == odd as real
    ensures m * doubled * fives == odd * p
  {
    var a, b, c := p as real, doubled as real, fives as real;
    assert (m * doubled * fives) as real == m as real * b * c;
    assert (odd * p) as real == odd as real * a;
    assert (value * a) * b * c == ((value * b) * c) * a;
  }

  lemma HalvesAre(value: real, m: int, k: nat, digits: nat, h: int)
    requires OverPower(value, m, k) && m * Pow(2, digits + 1) == h * Pow(2, k)
    ensures Halves(value, digits) == h as real
  {
    PowPositive(2, k);
    hide Pow;
    Cancel(value, m, Pow(2, k), Pow(2, digits + 1), h);
  }

  lemma Cancel(value: real, m: int, p: int, doubled: int, h: int)
    requires value * p as real == m as real && m * doubled == h * p && p > 0
    ensures value * doubled as real == h as real
  {
    var a, b := p as real, doubled as real;
    assert m as real * b == h as real * a by {
      assert (m * doubled) as real == (h * p) as real;
    }
    assert (value * b) * a == (value * a) * b;
    CancelFactor(value * b, h as real, a);
  }

  lemma CancelFactor(a: real, b: real, p: real)
    requires a * p == b * p && p > 0.0
    ensures a == b
  {
    assert (a - b) * p == 0.0;
  }

  /** The nearest integer to a number, and the even one of two that are equally near. */
  predicate NearestEven(n: int, x: real) {
    && n as real - 0.5 <= x <= n as real + 0.5
    && (x == n as real - 0.5 || x == n as real + 0.5 ==> n % 2 == 0)
  }

  lemma NearestEvenIsUnique(n: int, other: int, x: real)
    requires NearestEven(n, x) && NearestEven(other, x)
    ensures n == other
  {
    assert -1 <= n - other <= 1;
  }

  lemma NearestAwayMeans(x: real)
    ensures NearestEven(NearestAway(x), x) <==> !Halfway(x) || NearestAway(x) % 2 == 0
  {
    var n := NearestAway(x);
    assert n as real - 0.5 <= x <= n as real + 0.5;
    assert x.Floor == n || x.Floor == n - 1;
  }

  /**
   * `round` over the reals: it finds the nearest decimal with ties to even, except for a tie that is
   * no odd multiple of 2^-(digits + 1) and whose neighbour away from zero is odd.
   */
  lemma RoundMeans(value: real, digits: nat)
    ensures NearestEven(RoundedUnits(value, digits), Scaled(value, digits))
            <==> OddHalves(value, digits) || !Halfway(Scaled(value, digits))
                 || NearestAway(Scaled(value, digits)) % 2 == 0
  {
    if OddHalves(value, digits) {
      OddHalvesAreHalfway(value, digits);
    } else {
      NearestAwayMeans(Scaled(value, digits));
    }
  }

  /** The number answered is a whole number of units of its last digit, at most half a unit from the value. */
  lemma RoundIsClose(value: real, digits: nat)
    ensures PythonRound(value, digits) * Pow(10, digits) as real == RoundedUnits(value, digits) as real
    ensures Dyadic(value) ==>
              -0.5 <= (PythonRound(value, digits) - value) * Pow(10, digits) as real <= 0.5
  {
    hide Pow, Scaled, Halves, RoundedUnits, PythonRound, Dyadic, OddHalves;
    RoundIsQuotient(value, digits);
    if Dyadic(value) {
      RoundsHalfToEven(value, digits);
      ScaledIs(value, digits);
      WithinHalf(PythonRound(value, digits), value, Pow(10, digits) as real, RoundedUnits(value, digits));
    }
  }

  lemma ScaledIs(value: real, digits: nat)
    ensures Scaled(value, digits) == value * Pow(10, digits) as real
  {
  }

  lemma RoundIsQuotient(value: real, digits: nat)
    ensures PythonRound(value, digits) * Pow(10, digits) as real == RoundedUnits(value, digits) as real
  {
    PowPositive(10, digits);
    hide RoundedUnits, Pow;
    QuotientTimes(RoundedUnits(value, digits) as real, Pow(10, digits) as real);
  }

  lemma QuotientTimes(x: real, unit: real)
    requires unit > 0.0
    ensures x / unit * unit == x
  {
  }

  lemma WithinHalf(answer: real, value: real, unit: real, units: int)
    requires answer * unit == units as real && NearestEven(units, value * unit)
    ensures -0.5 <= (answer - value) * unit <= 0.5
  {
    assert (answer - value) * unit == answer * unit - value * unit;
  }

  /** Over every double `pythonRound` is Python's: the nearest decimal, and the even one of a tie. */
  lemma RoundsHalfToEven(value: real, digits: nat)
    requires Dyadic(value)
    ensures NearestEven(RoundedUnits(value, digits), Scaled(value, digits))
    ensures forall n | NearestEven(n, Scaled(value, digits)) :: n == RoundedUnits(value, digits)
  {
    hide Scaled, OddHalves, RoundedUnits, Dyadic;
    HalfwayIsOddHalves(value, digits);
    RoundMeans(value, digits);
    forall n | NearestEven(n, Scaled(value, digits)) ensures n == RoundedUnits(value, digits) {
      NearestEvenIsUnique(n, RoundedUnits(value, digits), Scaled(value, digits));
    }
  }

  // ---------------------------------------------------------------- floor division

  /** JavaScript's `%`: the remainder of a truncated quotient, so it takes the dividend's sign. */
  function Remainder(dividend: real, divisor: real): real
    requires divisor != 0.0
  {
    var quotient := dividend / divisor;
    dividend - divisor * Truncated(quotient) as real
  }

  function FloorDivide(dividend: real, divisor: real): int
    requires divisor != 0.0
  {
    var remainder := Remainder(dividend, divisor);
    var borrow := if remainder != 0.0 && (remainder < 0.0) != (divisor < 0.0) then 1.0 else 0.0;
    var quotient := (dividend - remainder) / divisor - borrow;
    if quotient == 0.0 then 0
    else if quotient - quotient.Floor as real > 0.5 then quotient.Floor + 1
    else quotient.Floor
  }

  function Truncated(x: real): int {
    if x >= 0.0 then x.Floor else -(-x).Floor
  }

  /** The remainder is the divisor times the fraction that truncation drops. */
  lemma RemainderIs(dividend: real, divisor: real, quotient: real)
    requires divisor != 0.0 && quotient == dividend / divisor
    ensures Remainder(dividend, divisor) == divisor * (quotient - Truncated(quotient) as real)
    ensures (dividend - Remainder(dividend, divisor)) / divisor == Truncated(quotient) as real
  {
    var t := Truncated(quotient) as real;
    assert dividend == divisor * quotient;
    assert dividend - Remainder(dividend, divisor) == divisor * t;
    assert divisor * quotient - divisor * t == divisor * (quotient - t);
    QuotientOfMultiple(divisor, t);
  }

  lemma QuotientOfMultiple(divisor: real, times: real)
    requires divisor != 0.0
    ensures (divisor * times) / divisor == times
  {
  }

  lemma SignOfProduct(divisor: real, fraction: real)
    requires divisor != 0.0
    ensures divisor * fraction == 0.0 <==> fraction == 0.0
    ensures fraction > 0.0 ==> (divisor * fraction < 0.0 <==> divisor < 0.0)
    ensures fraction < 0.0 ==> (divisor * fraction < 0.0 <==> divisor > 0.0)
  {
  }

  /** The borrow makes the truncated quotient the floor, whatever the two signs are. */
  lemma FloorDivideIsFloor(dividend: real, divisor: real)
    requires divisor != 0.0
    ensures FloorDivide(dividend, divisor) == (dividend / divisor).Floor
  {
    var quotient := dividend / divisor;
    var fraction := quotient - Truncated(quotient) as real;
    RemainderIs(dividend, divisor, quotient);
    SignOfProduct(divisor, fraction);
    hide Remainder;
    assert Truncated(quotient) as real == (quotient - fraction);
    WholeFloor(Truncated(quotient));
    WholeFloor(Truncated(quotient) - 1);
  }

  lemma WholeFloor(n: int)
    ensures (n as real).Floor == n && (n as real) - ((n as real).Floor) as real == 0.0
  {
  }
}
