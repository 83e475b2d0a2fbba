/** Exact decimal arithmetic: powers of ten and rounding to a multiple of a quantum. */
module Decimals {

  function Pow10(e: int): (p: real)
    ensures p > 0.0
    decreases if e < 0 then -e else e
  {
    if e == 0 then 1.0 else if e > 0 then 10.0 * Pow10(e - 1) else Pow10(e + 1) / 10.0
  }

  lemma {:induction false} Pow10Step(e: int)
    ensures Pow10(e + 1) == 10.0 * Pow10(e)
  {
  }

  lemma {:induction false} Pow10Monotone(a: int, b: int)
    requires a <= b
    ensures Pow10(a) <= Pow10(b)
    decreases b - a
  {
    if a < b {
      Pow10Step(a);
      Pow10Monotone(a + 1, b);
    }
  }

  ghost predicate IsMultiple(x: real, m: real) {
    exists k: int :: IsTimes(x, k, m)
  }

  predicate IsTimes(x: real, k: int, m: real) {
    x == k as real * m
  }

  /** A larger power of ten is a whole number of smaller ones. */
  lemma {:induction false} Pow10Divides(a: int, b: int) returns (n: int)
    requires b <= a
    ensures n >= 1 && IsTimes(Pow10(a), n, Pow10(b))
    decreases a - b
  {
    if a == b {
      n := 1;
    } else {
      var m := Pow10Divides(a - 1, b);
      Pow10Step(a - 1);
      n := 10 * m;
      calc {
        Pow10(a);
        10.0 * (m as real * Pow10(b));
        n as real * Pow10(b);
      }
    }
  }

  lemma MultipleOfCoarserIsMultipleOfFiner(x: real, a: int, b: int)
    requires b <= a && IsMultiple(x, Pow10(a))
    ensures IsMultiple(x, Pow10(b))
  {
    var k: int :| IsTimes(x, k, Pow10(a));
    var n := Pow10Divides(a, b);
    var p := Pow10(b);
    assert k as real * (n as real * p) == (k * n) as real * p;
    assert IsTimes(x, k * n, p);
  }

  // ---------------------------------------------------------------- rounding

  /** ROUND_HALF_UP to an integer: ties go away from zero. */
  function HalfUp(x: real): int {
    if x >= 0.0 then (x + 0.5).Floor else -((0.5 - x).Floor)
  }

  function RoundTo(x: real, quantum: real): real
    requires quantum > 0.0
  {
    HalfUp(x / quantum) as real * quantum
  }

  lemma Scale(a: real, b: real, m: real)
    requires a <= b && m >= 0.0
    ensures a * m <= b * m
  {
  }

  /** Within half a quantum, and a whole number of quanta. */
  lemma RoundToError(x: real, m: real)
    requires m > 0.0
    ensures -m / 2.0 <= RoundTo(x, m) - x <= m / 2.0
    ensures IsMultiple(RoundTo(x, m), m)
    ensures x > 0.0 ==> RoundTo(x, m) >= 0.0
    ensures x <= 0.0 ==> RoundTo(x, m) <= 0.0
  {
    var y := x / m;
    var k := HalfUp(y) as real;
    assert y - 0.5 <= k <= y + 0.5;
    assert y * m == x;
    Scale(y - 0.5, k, m);
    Scale(k, y + 0.5, m);
    assert (y - 0.5) * m == x - m / 2.0 && (y + 0.5) * m == x + m / 2.0;
    assert IsTimes(RoundTo(x, m), HalfUp(y), m);
    if x > 0.0 {
      assert y > 0.0;
      Scale(0.0, k, m);
    } else {
      Scale(y, 0.0, 1.0 / m);
      assert y <= 0.0;
      Scale(k, 0.0, m);
    }
  }

  /** Of two equally near multiples the one away from zero is taken. */
  lemma TiesGoAwayFromZero(x: real, m: real)
    requires m > 0.0
    ensures x >= 0.0 ==> RoundTo(x, m) - x > -m / 2.0
    ensures x <= 0.0 ==> RoundTo(x, m) - x < m / 2.0
  {
    var y := x / m;
    var k := HalfUp(y) as real;
    assert y * m == x;
    SignOfQuotient(x, m);
    assert y >= 0.0 ==> k > y - 0.5;
    assert y <= 0.0 ==> k < y + 0.5;
    assert (y - 0.5) * m == x - m / 2.0 && (y + 0.5) * m == x + m / 2.0;
    ScaleIff(y - 0.5, k, m);
    ScaleIff(k, y + 0.5, m);
  }

  lemma SignOfQuotient(x: real, m: real)
    requires m > 0.0
    ensures x >= 0.0 <==> x / m >= 0.0
    ensures x <= 0.0 <==> x / m <= 0.0
  {
    assert (x / m) * m == x;
    ScaleIff(x / m, 0.0, m);
    ScaleIff(0.0, x / m, m);
    assert 0.0 * m == 0.0;
  }

  lemma RoundToMonotone(x: real, y: real, m: real)
    requires m > 0.0 && x <= y
    ensures RoundTo(x, m) <= RoundTo(y, m)
  {
    Scale(x, y, 1.0 / m);
    assert x / m <= y / m;
    assert HalfUp(x / m) <= HalfUp(y / m);
    Scale(HalfUp(x / m) as real, HalfUp(y / m) as real, m);
  }

  lemma ZeroProduct(d: real, m: real)
    requires m > 0.0 && d * m == 0.0
    ensures d == 0.0
  {
    assert d > 0.0 ==> d * m > 0.0;
    assert d < 0.0 ==> (-d) * m > 0.0;
  }

  /** Multiples are fixed points, and nothing else is. */
  lemma RoundToFixes(x: real, m: real)
    requires m > 0.0
    ensures IsMultiple(x, m) <==> RoundTo(x, m) == x
  {
    RoundToError(x, m);
    if IsMultiple(x, m) {
      var k: int :| IsTimes(x, k, m);
      var y := x / m;
      ZeroProduct(y - k as real, m);
      assert HalfUp(k as real) == k;
    }
  }

  lemma ScaleIff(a: real, b: real, m: real)
    requires m > 0.0
    ensures a >= b <==> a * m >= b * m
  {
    if a < b {
      assert (b - a) * m > 0.0;
    } else {
      Scale(b, a, m);
    }
  }

  lemma HalfQuanta(x: real, y: real, m: real)
    requires m > 0.0 && y * m == x
    ensures y >= 0.5 <==> x >= m / 2.0
  {
    ScaleIff(y, 0.5, m);
  }

  /** Half a quantum is exactly what it takes to round to something. */
  lemma RoundToPositiveIff(x: real, m: real)
    requires m > 0.0 && x > 0.0
    ensures RoundTo(x, m) > 0.0 <==> x >= m / 2.0
  {
    var y := x / m;
    var k := HalfUp(y);
    HalfQuanta(x, y, m);
    ScaleIff(0.0, y, m);
    assert k >= 1 <==> y >= 0.5;
    ScaleIff(0.0, k as real, m);
  }

  // ---------------------------------------------------------------- order of magnitude

  /** Exponent of the leading digit. */
  function Adjusted(x: real): int
    requires x > 0.0
    decreases x < 1.0, if x < 1.0 then (1.0 / x).Floor else x.Floor
  {
    if x >= 10.0 then Adjusted(x / 10.0) + 1
    else if x >= 1.0 then 0
    else
      assert (1.0 / (10.0 * x)) == (1.0 / x) / 10.0;
      Adjusted(10.0 * x) - 1
  }

  lemma Pow10OfZero()
    ensures Pow10(0) == 1.0
  {
  }

  lemma {:induction false} AdjustedBounds(x: real)
    requires x > 0.0
    ensures Pow10(Adjusted(x)) <= x < Pow10(Adjusted(x) + 1)
    decreases x < 1.0, if x < 1.0 then (1.0 / x).Floor else x.Floor
  {
    hide Pow10;
    Pow10Step(Adjusted(x));
    if x >= 10.0 {
      AdjustedBounds(x / 10.0);
      Pow10Step(Adjusted(x / 10.0));
    } else if x < 1.0 {
      assert (1.0 / (10.0 * x)) == (1.0 / x) / 10.0;
      AdjustedBounds(10.0 * x);
      Pow10Step(Adjusted(10.0 * x));
    } else {
      Pow10OfZero();
    }
  }

  /** The decade of a number is the only one that contains it. */
  lemma AdjustedUnique(x: real, e: int)
    requires x > 0.0 && Pow10(e) <= x < Pow10(e + 1)
    ensures Adjusted(x) == e
  {
    AdjustedBounds(x);
    if Adjusted(x) < e {
      Pow10Monotone(Adjusted(x) + 1, e);
    } else if e < Adjusted(x) {
      Pow10Monotone(e + 1, Adjusted(x));
    }
  }
}
