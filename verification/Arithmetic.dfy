/** Small facts about products and quotients, kept out of the other proofs. */
module Arithmetic {

  function Pow2(n: nat): (p: nat)
    ensures p > 0
  {
    if n == 0 then 1 else 2 * Pow2(n - 1)
  }

  lemma {:induction false} Pow2Plus5(n: nat)
    ensures Pow2(n + 5) == 32 * Pow2(n)
  {
    assert Pow2(n + 5) == 2 * Pow2(n + 4);
    assert Pow2(n + 4) == 2 * Pow2(n + 3);
    assert Pow2(n + 3) == 2 * Pow2(n + 2);
    assert Pow2(n + 2) == 2 * Pow2(n + 1);
  }

  lemma {:induction false} Pow2Values()
    ensures Pow2(5) == 32 && Pow2(8) == 256 && Pow2(25) == 0x200_0000 && Pow2(30) == 0x4000_0000
  {
    var p5, p10, p15, p20 := Pow2(5), Pow2(10), Pow2(15), Pow2(20);
    Pow2Plus5(0);
    Pow2Plus5(5);
    Pow2Plus5(10);
    Pow2Plus5(15);
    Pow2Plus5(20);
    Pow2Plus5(25);
    Pow2Plus5(3);
  }

  lemma {:induction false} MulMonotone(a: nat, b: nat, p: nat)
    requires a <= b
    ensures a * p <= b * p
  {
    assert (b - a) * p >= 0;
  }

  /** A quotient is fixed by the interval it names. */
  lemma {:induction false} DivModUnique(i: nat, p: nat, a: nat)
    requires p > 0 && a * p <= i < (a + 1) * p
    ensures i == a * p + i % p && i / p == a
  {
    var q := i / p;
    assert i == q * p + i % p;
    if q < a {
      MulMonotone(q + 1, a, p);
      assert false;
    }
    if q > a {
      MulMonotone(a + 1, q, p);
      assert false;
    }
  }
}
