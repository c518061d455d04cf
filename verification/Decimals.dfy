/**
  Decimal arithmetic of shopspring/decimal v1.4.0 on values: Add, Sub and Mul
  are exact; Div rounds to 16 places and Round to whole units, both half away
  from zero; BigInt drops the fraction.
 */
module Decimals {

  /** The nearest integer, halves away from zero. */
  function HalfAway(x: real): int {
    if x >= 0.0 then (x + 0.5).Floor else -((0.5 - x).Floor)
  }

  /** Round(0). */
  function Round(x: real): real { HalfAway(x) as real }

  /** 10^16, the scale of a quotient. */
  const SCALE: real := 10000000000000000.0

  /** Half a unit in the 16th place. */
  const EPS: real := 0.00000000000000005

  function Div(a: real, b: real): real
    requires b != 0.0
  {
    Round(a / b * SCALE) / SCALE
  }

  /** BigInt of a non-negative or negative value: the fraction is dropped. */
  function BigInt(x: real): int {
    if x >= 0.0 then x.Floor else -((-x).Floor)
  }

  predicate Whole(x: real) { x == x.Floor as real }

  lemma RoundNear(x: real)
    ensures -0.5 <= Round(x) - x <= 0.5
    ensures x >= 0.0 ==> Round(x) >= 0.0
  {
  }

  /** The nearest whole amount, halves away from zero; no other function is. */
  lemma RoundIsNearest(x: real, n: int)
    ensures Round(x) == n as real <==>
      if x >= 0.0 then n as real - 0.5 <= x < n as real + 0.5 else n as real - 0.5 < x <= n as real + 0.5
    ensures Round(-x) == -Round(x)
  {
    if x >= 0.0 {
      if n as real - 0.5 <= x < n as real + 0.5 {
        FloorIs(x + 0.5, n);
      }
    } else if n as real - 0.5 < x <= n as real + 0.5 {
      FloorIs(0.5 - x, -n);
    }
  }

  /** Towards zero: the whole part of a non-negative amount, and the same of its negation. */
  lemma BigIntTruncates(x: real, n: int)
    requires x >= 0.0
    ensures BigInt(x) == n <==> n as real <= x < n as real + 1.0
    ensures BigInt(-x) == -BigInt(x)
  {
    if n as real <= x < n as real + 1.0 {
      FloorIs(x, n);
    }
  }

  lemma RoundWhole(x: real)
    ensures Round(x) == x <==> Whole(x)
  {
    if Whole(x) {
      if x >= 0.0 {
        FloorIs(x + 0.5, x.Floor);
      } else {
        FloorIs(0.5 - x, -x.Floor);
      }
    } else if Round(x) == x {
      FloorIs(x, HalfAway(x));
    }
  }

  lemma FloorIs(x: real, i: int)
    requires i as real <= x < i as real + 1.0
    ensures x.Floor == i
  {
  }

  /** Rounding commutes with adding a whole amount, as long as the sign stays. */
  lemma RoundShift(x: real, n: nat)
    requires x >= 0.0
    ensures Round(x + n as real) == Round(x) + n as real
  {
    FloorShift(x + 0.5, n);
  }

  lemma FloorShift(x: real, n: nat)
    ensures (x + n as real).Floor == x.Floor + n
  {
    FloorIs(x + n as real, x.Floor + n);
  }

  lemma DivNear(a: real, b: real)
    requires b != 0.0
    ensures -0.00000000000000005 <= Div(a, b) - a / b <= 0.00000000000000005
    ensures a >= 0.0 && b > 0.0 ==> Div(a, b) >= 0.0
  {
    var q := a / b;
    RoundNear(q * SCALE);
    Unscale(Round(q * SCALE), q);
    if a >= 0.0 && b > 0.0 {
      QuotientSign(a, b);
    }
  }

  /** A quotient has 16 decimal places at most. */
  lemma DivPlaces(a: real, b: real)
    requires b != 0.0
    ensures Whole(Div(a, b) * 10000000000000000.0)
  {
    var n := HalfAway(a / b * SCALE);
    assert Div(a, b) * SCALE == n as real;
    FloorIs(n as real, n);
  }

  lemma QuotientSign(a: real, b: real)
    requires a >= 0.0 && b > 0.0
    ensures a / b >= 0.0
  {
  }

  lemma Unscale(r: real, q: real)
    requires -0.5 <= r - q * SCALE <= 0.5
    ensures -EPS <= r / SCALE - q <= EPS
  {
  }

  /** A quotient with at most 16 places is exact. */
  lemma DivExact(a: real, b: real)
    requires b != 0.0 && Whole(a / b * SCALE)
    ensures Div(a, b) == a / b
  {
    RoundWhole(a / b * SCALE);
    assert a / b * SCALE / SCALE == a / b;
  }
}
