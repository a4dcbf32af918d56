/** The exponential prices of the clicker game, with the growth factor 1.15 as the fraction 23/20. */
module Prices {

  function Pow(base: nat, n: nat): nat {
    if n == 0 then 1 else base * Pow(base, n - 1)
  }

  /** floor(initial * 1.15^count) */
  function Cost(initial: nat, count: nat): nat {
    PowPositive(20, count);
    initial * Pow(23, count) / Pow(20, count)
  }

  /** The power is the repeated product. */
  lemma {:induction false} PowProduct(base: nat, m: nat, n: nat)
    ensures Pow(base, 0) == 1 && Pow(base, 1) == base && Pow(base, m + n) == Pow(base, m) * Pow(base, n)
  {
    assert Pow(base, 1) == base * Pow(base, 0);
    if m > 0 {
      PowProduct(base, m - 1, n);
      assert Pow(base, m + n) == base * (Pow(base, m - 1) * Pow(base, n));
      assert base * (Pow(base, m - 1) * Pow(base, n)) == base * Pow(base, m - 1) * Pow(base, n);
    }
  }

  lemma {:induction false} PowPositive(base: nat, n: nat)
    requires base > 0
    ensures Pow(base, n) > 0
  {
    if n > 0 { PowPositive(base, n - 1); }
  }

  lemma {:induction false} PowOrdered(n: nat)
    ensures Pow(20, n) <= Pow(23, n)
  {
    if n > 0 { PowOrdered(n - 1); }
  }

  lemma {:induction false} DivBounds(a: nat, b: nat)
    requires b > 0
    ensures (a / b) * b <= a < (a / b) * b + b
  {
    assert a == (a / b) * b + a % b;
  }

  lemma {:induction false} AtMostQuotient(x: nat, a: nat, b: nat)
    requires b > 0 && x * b <= a
    ensures x <= a / b
  {
    DivBounds(a, b);
    assert (a / b + 1) * b == (a / b) * b + b;
    if x > a / b { Times(a / b + 1, x, b); }
  }

  lemma {:induction false} Times(x: int, y: int, b: nat)
    requires x <= y
    ensures x * b <= y * b
  {
    assert (y - x) * b >= 0;
  }

  lemma {:induction false} CostBounds(initial: nat, n: nat)
    ensures Cost(initial, n) * Pow(20, n) <= initial * Pow(23, n) < Cost(initial, n) * Pow(20, n) + Pow(20, n)
  {
    PowPositive(20, n);
    DivBounds(initial * Pow(23, n), Pow(20, n));
  }

  /** A price is at least the initial one, and each purchase raises it by at least 15. */
  lemma {:induction false} CostRises(initial: nat, n: nat)
    requires initial >= 100
    ensures Cost(initial, n + 1) >= Cost(initial, n) + 15
  {
    var p, q, c := Pow(20, n), Pow(23, n), Cost(initial, n);
    CostBounds(initial, n);
    PowPositive(20, n);
    PowOrdered(n);
    assert initial * q >= 100 * p by {
      assert initial * q >= initial * p by { Times(p, q, initial); }
      assert initial * p >= 100 * p by { Times(100, initial, p); }
    }
    assert (c + 15) * (20 * p) == 20 * (c * p) + 300 * p;
    assert initial * (23 * q) == 23 * (initial * q);
    AtMostQuotient(c + 15, initial * (23 * q), 20 * p);
  }

  /** The price of the units from to (and without) to. */
  function SumCosts(initial: nat, from: nat, to: nat): nat
    requires from <= to
  {
    if from == to then 0 else SumCosts(initial, from, to - 1) + Cost(initial, to - 1)
  }

  /** 1.15^from carried to the denominator of 1.15^to. */
  function Carried(from: nat, to: nat): nat
    requires from <= to
  {
    Pow(23, from) * Pow(20, to - from)
  }

  lemma {:induction false} CarriedNext(from: nat, to: nat)
    requires from <= to
    ensures Carried(from, to + 1) == 20 * Carried(from, to)
    ensures Carried(from, from) == Pow(23, from)
    ensures Pow(20, to + 1) == 20 * Pow(20, to) && Pow(23, to + 1) == 23 * Pow(23, to)
  {
    assert Pow(20, to + 1 - from) == 20 * Pow(20, to - from);
    assert Pow(20, 0) == 1;
  }

  function Mul(x: int, y: int): int {
    x * y
  }

  lemma {:induction false} MulScale(x: int, k: int, y: int)
    ensures Mul(x, k * y) == k * Mul(x, y)
  {
  }

  lemma {:induction false} MulAdd(x: int, y: int, z: int)
    ensures Mul(x + y, z) == Mul(x, z) + Mul(y, z)
    ensures Mul(z, x + y) == Mul(z, x) + Mul(z, y)
  {
  }

  /** m prices with the sum s against the geometric sum, cleared of fractions: p, q and b are 20^to,
      23^to and the carried 23^from. */
  predicate IsClose(initial: nat, m: nat, s: nat, p: nat, q: nat, b: nat) {
    var cut := 20 * Mul(initial, q) - 20 * Mul(initial, b) - 3 * Mul(s, p);
    0 <= cut <= 3 * Mul(m, p) && (m > 0 ==> cut < 3 * Mul(m, p))
  }

  /** What the units from to (and without) to cost is at most the geometric sum
      initial * (1.15^to - 1.15^from) / 0.15, and less than one dollar for each unit below it. */
  lemma {:induction false} SumWithinGeometric(initial: nat, from: nat, to: nat)
    requires from <= to
    ensures IsClose(initial, to - from, SumCosts(initial, from, to), Pow(20, to), Pow(23, to), Carried(from, to))
  {
    hide Pow, Carried, Cost, IsClose;
    CarriedNext(from, from);
    if from == to {
      NoneIsClose(initial, Pow(20, to), Pow(23, to));
    } else {
      var n := to - 1;
      SumWithinGeometric(initial, from, n);
      CostBounds(initial, n);
      PowPositive(20, n);
      CarriedNext(from, n);
      GeometricStep(initial, n - from, SumCosts(initial, from, n), Cost(initial, n), Pow(20, n), Pow(23, n),
        Carried(from, n));
    }
  }

  lemma {:induction false} NoneIsClose(initial: nat, p: nat, q: nat)
    ensures IsClose(initial, 0, 0, p, q, q)
  {
  }

  lemma {:induction false} GeometricStep(initial: nat, m: nat, s: nat, c: nat, p: nat, q: nat, b: nat)
    requires Mul(c, p) <= Mul(initial, q) < Mul(c, p) + p && IsClose(initial, m, s, p, q, b)
    ensures IsClose(initial, m + 1, s + c, 20 * p, 23 * q, 20 * b)
  {
    MulScale(initial, 23, q);
    MulScale(initial, 20, b);
    MulScale(s + c, 20, p);
    MulScale(m + 1, 20, p);
    MulAdd(s, c, p);
    MulAdd(m, 1, p);
    assert Mul(1, p) == p;
    hide Mul;
  }

  /** The same with the geometric sum in one piece. */
  lemma {:induction false} CloseToGeometric(initial: nat, m: nat, s: nat, p: nat, q: nat, b: nat)
    requires IsClose(initial, m, s, p, q, b)
    ensures 3 * s * p <= 20 * initial * (q - b) <= 3 * (s + m) * p
  {
    MulAdd(q - b, b, initial);
    MulAdd(s, m, p);
    Unfold(20, initial, q - b);
    Unfold(3, s, p);
    Unfold(3, s + m, p);
    hide Mul;
  }

  lemma {:induction false} Unfold(k: int, x: int, y: int)
    ensures k * x * y == k * Mul(x, y)
  {
  }
}
