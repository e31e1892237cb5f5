/** The numbers of the model, as their standards define them. */
module Constants {
  import opened Arithmetic
  import opened Bytes
  import opened Notes
  import opened JoinSplit
  import opened NoteCiphertext

  /** The order of the Barreto-Naehrig curve with parameter `u`. */
  function CurveOrder(u: nat): nat
  {
    36 * u * u * u * u + 36 * u * u * u + 18 * u * u + 6 * u + 1
  }

  /** The scalar field is that of alt_bn128 (EIP-197). */
  lemma {:induction false} FieldIsBN254()
    ensures SNARK_SCALAR_FIELD == CurveOrder(4965661367192848881)
  {
  }

  /** The order of edwards25519 (section 5.1 of RFC 8032). */
  lemma {:induction false} OrderIsEd25519()
    ensures ED25519_L == Pow2(252) + 27742317777372353535851937790883648493
  {
    Pow2Of120();
    Pow2Sum(120, 120);
    Pow2Sum(240, 12);
    assert Pow2(12) == 4096;
  }

  lemma {:induction false} Pow2Sum(m: nat, n: nat)
    ensures Pow2(m + n) == Pow2(m) * Pow2(n)
  {
    if m > 0 {
      Pow2Sum(m - 1, n);
      assert Pow2(m + n) == 2 * (Pow2(m - 1) * Pow2(n)) == (2 * Pow2(m - 1)) * Pow2(n);
    }
  }

  lemma {:induction false} Pow2Of120()
    ensures Pow2(120) == 0x1_00000000_00000000_00000000_000000
  {
    Pow2Values();
    Pow2Sum(30, 30);
    Pow2Sum(60, 60);
  }

  /** The circuit's and the contract's values are 120 bits wide: fifteen bytes, of the sixteen a
    * note has for its value. */
  lemma {:induction false} ValueWidth(v: nat)
    ensures v < VALUE_BOUND <==> Fits(v, 15)
    ensures VALUE_BOUND == Pow2(120)
  {
    Pow2Of120();
    Pow256IsPow2(15);
    FitsExactly(v, 15);
  }
}
