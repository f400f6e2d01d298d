/**
 The overflow predicates of include/ptl/type_safe/detail/integer_checking.hpp, for integers of any
 width. A signed type holds -max - 1 .. max and an unsigned one 0 .. max; C++ division truncates
 toward zero. `numeric_limits<T>::max` and `min` in the subtraction predicate are read as calls.
 */
module IntegerChecking {

  /** A signed type by its greatest value; two's complement puts the least one below the negation. */
  datatype Signed = Signed(max: nat)
  {
    function Min(): int { -1 - max }

    predicate Holds(x: int) { Min() <= x <= max }
  }

  datatype Unsigned = Unsigned(max: nat)
  {
    predicate Holds(x: int) { 0 <= x <= max }
  }

  /** Division as C++ defines it. */
  function Quotient(a: int, b: int): int
    requires b != 0
  {
    if a >= 0 then a / b else -(-a / b)
  }

  // ---------------------------------------------------------------- the predicates

  predicate AdditionUndefined(t: Signed, a: int, b: int)
  {
    if b < 0 then a < t.Min() - b else a > t.max - b
  }

  predicate UnsignedAdditionUndefined(t: Unsigned, a: int, b: int)
  {
    a > t.max - b
  }

  predicate SubtractionUndefined(t: Signed, a: int, b: int)
  {
    if b < 0 then a > t.max + b else a < t.Min() + b
  }

  predicate UnsignedSubtractionUndefined(a: int, b: int)
  {
    a < b
  }

  predicate MultiplicationUndefined(t: Signed, a: int, b: int)
  {
    if a <= 0 then
      if b <= 0 then a != 0 && b < Quotient(t.max, a)
      else a < Quotient(t.Min(), b)
    else
      if b <= 0 then b < Quotient(t.Min(), a)
      else a > Quotient(t.max, b)
  }

  predicate UnsignedMultiplicationUndefined(t: Unsigned, a: int, b: int)
  {
    b != 0 && a > Quotient(t.max, b)
  }

  predicate DivisionUndefined(t: Signed, a: int, b: int)
  {
    b == 0 || (b == -1 && a == t.Min())
  }

  predicate UnsignedDivisionUndefined(b: int)
  {
    b == 0
  }

  // ---------------------------------------------------------------- exactness

  lemma AdditionExact(t: Signed, a: int, b: int)
    requires t.Holds(a) && t.Holds(b)
    ensures AdditionUndefined(t, a, b) <==> !t.Holds(a + b)
    ensures if b < 0 then t.Holds(t.Min() - b) else t.Holds(t.max - b)
  {
  }

  lemma UnsignedAdditionExact(t: Unsigned, a: int, b: int)
    requires t.Holds(a) && t.Holds(b)
    ensures UnsignedAdditionUndefined(t, a, b) <==> !t.Holds(a + b)
    ensures t.Holds(t.max - b)
  {
  }

  lemma SubtractionExact(t: Signed, a: int, b: int)
    requires t.Holds(a) && t.Holds(b)
    ensures SubtractionUndefined(t, a, b) <==> !t.Holds(a - b)
    ensures if b < 0 then t.Holds(t.max + b) else t.Holds(t.Min() + b)
  {
  }

  lemma UnsignedSubtractionExact(t: Unsigned, a: int, b: int)
    requires t.Holds(a) && t.Holds(b)
    ensures UnsignedSubtractionUndefined(a, b) <==> !t.Holds(a - b)
  {
  }

  /** For positive divisors a quotient separates the products in range from those beyond it. */
  lemma QuotientBound(m: nat, x: int, d: int)
    requires d > 0
    ensures x * d <= m <==> x <= m / d
  {
    var q := m / d;
    DivisionParts(m, d, q);
    if x <= q {
      Monotone(x, q, d);
    } else {
      Monotone(q + 1, x, d);
    }
  }

  lemma DivisionParts(m: nat, d: int, q: nat)
    requires d > 0 && q == m / d
    ensures q * d <= m < (q + 1) * d
  {
    assert m == q * d + m % d;
    assert (q + 1) * d == q * d + d;
  }

  lemma Monotone(x: int, y: int, d: int)
    requires d > 0 && x <= y
    ensures x * d <= y * d
  {
    assert (y - x) * d >= 0;
  }

  /**
   All four quadrants. Whichever division a quadrant performs, its divisor is not zero and its
   quotient is in range.
   */
  lemma MultiplicationExact(t: Signed, a: int, b: int)
    requires t.Holds(a) && t.Holds(b)
    ensures MultiplicationUndefined(t, a, b) <==> !t.Holds(a * b)
  {
    if a <= 0 && b <= 0 {
      if a != 0 { NegativeTimesNegative(t, a, b); }
    } else if a <= 0 {
      NegativeTimesPositive(t, a, b);
    } else if b <= 0 {
      NegativeTimesPositive(t, b, a);
    } else {
      QuotientBound(t.max, a, b);
      assert a * b >= 0;
    }
  }

  lemma NegativeTimesNegative(t: Signed, a: int, b: int)
    requires a < 0 && b <= 0
    ensures b < Quotient(t.max, a) <==> !t.Holds(a * b)
  {
    QuotientBound(t.max, -b, -a);
    assert -b * -a == a * b >= 0;
    NegativeDivisor(t.max, a);
  }

  /** Euclidean division by a negative number negates the quotient. */
  lemma NegativeDivisor(m: nat, a: int)
    requires a < 0
    ensures m / a == -(m / -a)
  {
    var q := m / -a;
    assert m == (-q) * a + m % -a;
    assert 0 <= m % -a < -a;
    var d := m / a + q;
    assert d * a == m % -a - m % a;
    assert d > 0 ==> d * a <= a;
    assert d < 0 ==> d * a >= -a;
  }

  lemma NegativeTimesPositive(t: Signed, a: int, b: int)
    requires a <= 0 && b > 0
    ensures a < Quotient(t.Min(), b) <==> !t.Holds(a * b)
  {
    QuotientBound(t.max + 1, -a, b);
    assert -a * b == -(a * b);
    assert a * b <= 0;
  }

  lemma UnsignedMultiplicationExact(t: Unsigned, a: int, b: int)
    requires t.Holds(a) && t.Holds(b)
    ensures UnsignedMultiplicationUndefined(t, a, b) <==> !t.Holds(a * b)
  {
    assert a * b >= 0;
    if b != 0 { QuotientBound(t.max, a, b); }
  }

  lemma DivisionExact(t: Signed, a: int, b: int)
    requires t.Holds(a) && t.Holds(b)
    ensures DivisionUndefined(t, a, b) <==> b == 0 || !t.Holds(Quotient(a, b))
  {
    if b != 0 { QuotientMagnitude(a, b); }
  }

  lemma UnsignedDivisionExact(t: Unsigned, a: int, b: int)
    requires t.Holds(a) && t.Holds(b)
    ensures UnsignedDivisionUndefined(b) <==> b == 0 || !t.Holds(Quotient(a, b))
  {
    if b != 0 { QuotientMagnitude(a, b); }
  }

  function Abs(x: int): nat { if x < 0 then -x else x }

  lemma PositiveQuotient(m: nat, d: nat)
    requires d > 0
    ensures 0 <= m / d <= m
    ensures d == 1 ==> m / d == m
    ensures d > 1 && m > 0 ==> m / d < m
  {
    var q := m / d;
    DivisionParts(m, d, q);
    if q > 0 {
      Monotone(1, d, q);
      if d > 1 { Monotone(2, d, q); }
    }
  }

  lemma QuotientParts(a: int, b: int)
    requires b != 0
    ensures Quotient(a, b) == if (a >= 0) == (b > 0) then Abs(a) / Abs(b) else -(Abs(a) / Abs(b))
  {
    if b < 0 { NegativeDivisor(Abs(a), b); }
  }

  /** Truncating division: the sign of the exact quotient, and a magnitude that only a divisor of 1 or -1 keeps. */
  lemma QuotientMagnitude(a: int, b: int)
    requires b != 0
    ensures Abs(Quotient(a, b)) <= Abs(a)
    ensures b == 1 ==> Quotient(a, b) == a
    ensures b == -1 ==> Quotient(a, b) == -a
    ensures b != 1 && b != -1 && a != 0 ==> Abs(Quotient(a, b)) < Abs(a)
    ensures (a >= 0) == (b > 0) ==> Quotient(a, b) >= 0
    ensures (a >= 0) != (b > 0) ==> Quotient(a, b) <= 0
  {
    QuotientParts(a, b);
    PositiveQuotient(Abs(a), Abs(b));
  }

  /** Evaluating a predicate never divides by zero and never leaves the type. */
  lemma EvaluationDefined(t: Signed, a: int, b: int)
    requires t.Holds(a) && t.Holds(b)
    ensures a < 0 && b <= 0 ==> t.Holds(Quotient(t.max, a))
    ensures a <= 0 && b > 0 ==> t.Holds(Quotient(t.Min(), b))
    ensures a > 0 && b <= 0 ==> t.Holds(Quotient(t.Min(), a))
    ensures a > 0 && b > 0 ==> t.Holds(Quotient(t.max, b))
  {
    if a != 0 { QuotientMagnitude(t.max, a); QuotientMagnitude(t.Min(), a); }
    if b != 0 { QuotientMagnitude(t.max, b); QuotientMagnitude(t.Min(), b); }
  }

  lemma UnsignedEvaluationDefined(t: Unsigned, b: int)
    requires t.Holds(b)
    ensures b != 0 ==> t.Holds(Quotient(t.max, b))
  {
    if b != 0 { QuotientMagnitude(t.max, b); }
  }
}
