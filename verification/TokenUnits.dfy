/** Conversion between token units on chain and decimal amounts in the ledger. */
module TokenUnits {
  import opened Decimals

  function Pow10(n: nat): (r: nat)
    ensures r > 0
  {
    if n == 0 then 1 else 10 * Pow10(n - 1)
  }

  /** What the listener credits for an event of v units. */
  function Credited(v: nat, decimals: nat): real {
    Div(v as real, Pow10(decimals) as real)
  }

  /** The units that a withdrawal of amount a sends; both configured tokens have 6 decimals. */
  function Sent(a: real): int {
    BigInt(a * 1000000.0)
  }

  lemma {:induction false} PowSplit(a: nat, b: nat)
    ensures Pow10(a + b) == Pow10(a) * Pow10(b)
  {
    if a == 0 {
    } else {
      PowSplit(a - 1, b);
      assert Pow10(a + b) == 10 * Pow10(a - 1 + b);
      Associate(10, Pow10(a - 1), Pow10(b));
    }
  }

  lemma Associate(x: int, y: int, z: int)
    ensures x * (y * z) == (x * y) * z
  {
  }

  lemma Pow16()
    ensures Pow10(16) == 10000000000000000 && Pow10(6) == 1000000
  {
    PowSplit(8, 8);
    assert Pow10(8) == 100000000 by { PowSplit(4, 4); assert Pow10(4) == 10000; }
    assert Pow10(6) == 1000000 by { PowSplit(3, 3); assert Pow10(3) == 1000; }
  }

  lemma ExactQuotient(v: nat, d: nat, e: nat)
    requires d > 0 && d * e == 10000000000000000
    ensures Div(v as real, d as real) == v as real / d as real
  {
    CastProduct(d, e);
    CastProduct(v, e);
    QuotientTimes(v as real, d as real, e as real, SCALE);
    WholeNat(v * e);
    DivExact(v as real, d as real);
  }

  lemma CastProduct(a: nat, b: nat)
    ensures (a * b) as real == a as real * b as real
  {
  }

  lemma QuotientTimes(v: real, d: real, e: real, k: real)
    requires d > 0.0 && k == d * e
    ensures v / d * k == v * e
  {
    var q := v / d;
    assert q * d == v;
    assert q * (d * e) == q * d * e;
  }

  lemma WholeNat(n: nat)
    ensures Whole(n as real)
  {
  }

  /** With at most 16 decimals a deposit credits the exact quotient. */
  lemma CreditIsExact(v: nat, decimals: nat)
    requires decimals <= 16
    ensures Credited(v, decimals) == v as real / Pow10(decimals) as real
  {
    PowSplit(decimals, 16 - decimals);
    Pow16();
    ExactQuotient(v, Pow10(decimals), Pow10(16 - decimals));
  }

  /** A contract without configured decimals is taken to have 18: then the credit is exact for multiples of 100 units only. */
  lemma CreditOf18(v: nat)
    ensures Credited(v, 18) == v as real / Pow10(18) as real <==> v % 100 == 0
  {
    PowSplit(2, 16);
    Pow16();
    assert Pow10(2) == 100;
    var d := Pow10(18) as real;
    var q := v as real / d;
    assert d == 100.0 * SCALE;
    assert q * SCALE == v as real / 100.0 by {
      assert q * d == v as real;
    }
    RoundWhole(q * SCALE);
    Hundredth(v);
    if Credited(v, 18) == q {
      assert Round(q * SCALE) / SCALE * SCALE == q * SCALE;
    }
  }

  lemma Hundredth(v: nat)
    ensures Whole(v as real / 100.0) <==> v % 100 == 0
  {
    var x := v as real / 100.0;
    FloorIs(x, v / 100);
    assert x == (v / 100) as real + (v % 100) as real / 100.0;
  }

  /** Depositing v units and withdrawing the credit sends v units. */
  lemma UnitsRoundTrip(v: nat)
    ensures Credited(v, 6) == v as real / 1000000.0
    ensures Sent(Credited(v, 6)) == v
  {
    CreditIsExact(v, 6);
    Pow16();
    var a := v as real / 1000000.0;
    assert a * 1000000.0 == v as real;
  }

  /** A withdrawal sends the whole units of its amount and loses less than one. */
  lemma Dust(a: real)
    requires a >= 0.0
    ensures Sent(a) >= 0 && 0.0 <= a - Sent(a) as real / 1000000.0 < 0.000001
  {
    var n := (a * 1000000.0).Floor;
    assert n as real <= a * 1000000.0 < n as real + 1.0;
  }

  /** Nothing is lost exactly when the amount has at most 6 places. */
  lemma NoDust(a: real)
    requires a >= 0.0
    ensures a == Sent(a) as real / 1000000.0 <==> Whole(a * 1000000.0)
  {
  }
}
