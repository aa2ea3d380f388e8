/** Euclid's algorithm under the truncating division of the worker's language, on integers of
    either sign. */
module Euclid {

  function Abs(x: int): nat {
    if x < 0 then -x else x
  }

  /** Integer division that rounds toward zero. Dafny's own `/` is Euclidean. */
  function TruncDiv(a: int, b: int): int
    requires b != 0
  {
    if (a < 0) == (b < 0) then Abs(a) / Abs(b) else -(Abs(a) / Abs(b))
  }

  function TruncRem(a: int, b: int): int
    requires b != 0
  {
    a - TruncDiv(a, b) * b
  }

  lemma NatRemainder(a: nat, b: nat)
    requires b > 0
    ensures a - a / b * b == a % b
    ensures b <= a ==> 2 * (a % b) < a
  {
    if b <= a {
      assert a / b * b >= b;
    }
  }

  /** The quotient times the divisor has the dividend's sign. */
  lemma QuotientTimesDivisor(a: int, b: int)
    requires b != 0
    ensures var p := Abs(a) / Abs(b) * Abs(b);
            TruncDiv(a, b) * b == if a < 0 then -p else p
  {
    SignedProduct(Abs(a) / Abs(b), b);
  }

  lemma SignedProduct(q: int, b: int)
    ensures q * b == if b < 0 then -(q * Abs(b)) else q * Abs(b)
    ensures (-q) * b == -(q * b)
  {
    assert q * (-b) == -(q * b);
  }

  /** The remainder is smaller than the divisor, keeps the dividend's sign, and is less than half
      of a dividend that is at least as large as the divisor. */
  lemma RemainderShrinks(a: int, b: int)
    requires b != 0
    ensures TruncRem(a, b) == if a < 0 then -(Abs(a) % Abs(b)) else Abs(a) % Abs(b)
    ensures Abs(TruncRem(a, b)) < Abs(b)
    ensures Abs(b) <= Abs(a) ==> 2 * Abs(TruncRem(a, b)) < Abs(a)
  {
    NatRemainder(Abs(a), Abs(b));
    QuotientTimesDivisor(a, b);
  }

  /** How many times `while b != 0: (a, b) := (b, a rem b)` runs. */
  function Steps(a: int, b: int): nat
    decreases Abs(b)
  {
    if b == 0 then 0 else
      RemainderShrinks(a, b);
      1 + Steps(b, TruncRem(a, b))
  }

  function FloorLog2(x: nat): nat
    requires x > 0
  {
    if x == 1 then 0 else 1 + FloorLog2(x / 2)
  }

  ghost function Pow2(e: nat): nat {
    if e == 0 then 1 else 2 * Pow2(e - 1)
  }

  lemma {:induction false} FloorLog2IsFloor(x: nat)
    requires x > 0
    ensures Pow2(FloorLog2(x)) <= x < Pow2(FloorLog2(x) + 1)
  {
    if x > 1 {
      FloorLog2IsFloor(x / 2);
    } else {
      assert Pow2(1) == 2 * Pow2(0);
    }
  }

  lemma {:induction false} FloorLog2Monotone(x: nat, y: nat)
    requires 0 < x <= y
    ensures FloorLog2(x) <= FloorLog2(y)
    decreases y
  {
    if x > 1 {
      FloorLog2Monotone(x / 2, y / 2);
    }
  }

  /** Every two steps at least halve the divisor, so the loop is logarithmic. */
  lemma {:induction false} StepsLogarithmic(a: int, b: int)
    requires b != 0
    ensures Steps(a, b) <= 2 * FloorLog2(Abs(b)) + 2
    decreases Abs(b)
  {
    var b1 := TruncRem(a, b);
    RemainderShrinks(a, b);
    if b1 != 0 {
      var b2 := TruncRem(b, b1);
      RemainderShrinks(b, b1);
      assert Steps(a, b) == 2 + Steps(b1, b2);
      if b2 != 0 {
        StepsLogarithmic(b1, b2);
        FloorLog2Monotone(2 * Abs(b2), Abs(b));
        assert FloorLog2(2 * Abs(b2)) == 1 + FloorLog2(Abs(b2));
      } else {
        assert Steps(b1, b2) == 0;
      }
    } else {
      assert Steps(b, b1) == 0;
    }
  }

  // ----- common divisors

  ghost predicate Divides(d: int, x: int) {
    exists k :: x == d * k
  }

  lemma DividesLinear(d: int, x: int, q: int, y: int)
    requires Divides(d, x) && Divides(d, y)
    ensures Divides(d, x + q * y)
  {
    var k :| x == d * k;
    var l :| y == d * l;
    assert x + q * y == d * (k + q * l) by {
      assert q * (d * l) == d * (q * l);
      assert d * (k + q * l) == d * k + d * (q * l);
    }
  }

  /** One step keeps the common divisors of the pair. */
  lemma StepKeepsDivisors(d: int, a: int, b: int)
    requires b != 0
    ensures Divides(d, a) && Divides(d, b) <==> Divides(d, b) && Divides(d, TruncRem(a, b))
  {
    var q := TruncDiv(a, b);
    if Divides(d, a) && Divides(d, b) {
      DividesLinear(d, a, -q, b);
      assert (-q) * b == -(q * b);
    }
    if Divides(d, b) && Divides(d, TruncRem(a, b)) {
      DividesLinear(d, TruncRem(a, b), q, b);
    }
  }

  lemma DividesZero(d: int)
    ensures Divides(d, 0)
  {
    assert 0 == d * 0;
  }
}
