/** Powers of two and bitwise "or" on natural numbers. */
module Arith {

  function Pow2(k: nat): nat {
    if k == 0 then 1 else 2 * Pow2(k - 1)
  }

  lemma {:induction false} Pow2Monotone(a: nat, b: nat)
    requires a <= b
    ensures Pow2(a) <= Pow2(b)
  {
    if a < b { Pow2Monotone(a, b - 1); }
  }

  /** `a | b`. */
  function Or(a: nat, b: nat): nat {
    if a == 0 then b
    else if b == 0 then a
    else 2 * Or(a / 2, b / 2) + (if a % 2 == 1 || b % 2 == 1 then 1 else 0)
  }

  lemma {:induction false} OrAbove(a: nat, b: nat)
    ensures a <= Or(a, b) && b <= Or(a, b)
  {
    if a != 0 && b != 0 {
      OrAbove(a / 2, b / 2);
    }
  }

  lemma {:induction false} OrBelow(a: nat, b: nat, k: nat)
    requires a < Pow2(k) && b < Pow2(k)
    ensures Or(a, b) < Pow2(k)
  {
    if a != 0 && b != 0 {
      OrBelow(a / 2, b / 2, k - 1);
    }
  }

  /** The two top bits of `a | b`, when the top bit of `b` is just below that of `a`. */
  lemma {:induction false} OrTop(a: nat, b: nat, k: nat)
    requires Pow2(k + 1) <= a && Pow2(k) <= b
    ensures Or(a, b) >= Pow2(k + 1) + (if a < Pow2(k + 2) && b < Pow2(k + 1) then Pow2(k) else 0)
  {
    OrAbove(a, b);
    if k > 0 {
      OrTop(a / 2, b / 2, k - 1);
    } else if a < 4 && b < 2 {
      assert Or(a, b) == 2 * Or(a / 2, b / 2) + 1;
      OrAbove(a / 2, b / 2);
    }
  }

  /** The power of two just above `x`. */
  lemma {:induction false} Above(x: nat) returns (k: nat)
    requires x > 0
    ensures Pow2(k) <= x < Pow2(k + 1)
  {
    if x == 1 {
      k := 0;
      assert Pow2(1) == 2;
    } else {
      k := Above(x / 2);
      k := k + 1;
    }
  }

  /** Where no two ones meet, "or" is addition. */
  lemma {:induction false} OrDisjoint(a: nat, b: nat, p: nat, k: nat)
    requires p == Pow2(k) && b < p
    ensures Or(a * p, b) == a * p + b
  {
    if k > 0 && a != 0 && b != 0 {
      var h := Pow2(k - 1);
      assert a * p == 2 * (a * h);
      assert a * h > 0;
      OrDisjoint(a, b / 2, h, k - 1);
      OrEven(a * h, b);
    }
  }

  lemma OrEven(a: nat, b: nat)
    requires a > 0 && b > 0
    ensures Or(2 * a, b) == 2 * Or(a, b / 2) + b % 2
  {
  }

  /** "Or" bit by bit: the lowest one, and the others. */
  lemma OrBits(a: nat, b: nat)
    ensures Or(a, b) / 2 == Or(a / 2, b / 2)
    ensures Or(a, b) % 2 == if a % 2 == 1 || b % 2 == 1 then 1 else 0
  {
  }

  predicate IsPower(n: nat) {
    n == 1 || (n > 0 && n % 2 == 0 && IsPower(n / 2))
  }

  lemma {:induction false} PowerIsPow2(n: nat)
    ensures IsPower(n) <==> exists k: nat :: n == Pow2(k)
  {
    if IsPower(n) {
      var k := Exponent(n);
    }
    forall k: nat | n == Pow2(k)
      ensures IsPower(n)
    {
      Pow2IsPower(k);
    }
  }

  lemma {:induction false} Exponent(n: nat) returns (k: nat)
    requires IsPower(n)
    ensures n == Pow2(k)
  {
    k := 0;
    if n > 1 {
      k := Exponent(n / 2);
      k := k + 1;
    }
  }

  lemma {:induction false} Pow2IsPower(k: nat)
    ensures Pow2(k) > 0 && IsPower(Pow2(k))
  {
    hide IsPower;
    if k > 0 {
      Pow2IsPower(k - 1);
      PowerStep(Pow2(k));
    } else {
      OneIsPower();
    }
  }

  lemma OneIsPower()
    ensures IsPower(1)
  {
  }

  lemma {:induction false} PowerStep(n: nat)
    requires n > 1
    ensures IsPower(n) <==> n % 2 == 0 && IsPower(n / 2)
  {
  }

  /** Numbers whose bits are all ones, one bit at a time. */
  lemma {:induction false} OnesStep(y: nat)
    requires y > 0
    ensures IsPower(y + 1) <==> y % 2 == 1 && IsPower(y / 2 + 1)
  {
    hide IsPower;
    PowerStep(y + 1);
    if y % 2 == 1 {
      assert (y + 1) / 2 == y / 2 + 1;
    }
  }
}
