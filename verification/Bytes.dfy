/** Big-endian byte strings (big.Int.FillBytes, SetBytes) and XOR of unsigned integers. */
module Bytes {
  import opened Arithmetic

  type Byte = b: nat | b < 256

  /** `n` times `x`. */
  function Repeat<T>(x: T, n: nat): (s: seq<T>)
    ensures |s| == n && forall i :: 0 <= i < n ==> s[i] == x
  {
    if n == 0 then [] else Repeat(x, n - 1) + [x]
  }

  function Pow256(k: nat): (p: nat)
    ensures p > 0
  {
    if k == 0 then 1 else 256 * Pow256(k - 1)
  }

  lemma {:induction false} Pow256Grows(m: nat, n: nat)
    requires m <= n
    ensures Pow256(m) <= Pow256(n)
  {
    if m < n {
      Pow256Grows(m, n - 1);
    }
  }

  /** The number fits in `k` bytes. */
  predicate Fits(n: nat, k: nat)
  {
    if k == 0 then n == 0 else Fits(n / 256, k - 1)
  }

  lemma {:induction false} FitsExactly(n: nat, k: nat)
    ensures Fits(n, k) <==> n < Pow256(k)
  {
    if k > 0 {
      FitsExactly(n / 256, k - 1);
    }
  }

  lemma {:induction false} FitsMore(n: nat, k: nat, m: nat)
    requires Fits(n, k) && k <= m
    ensures Fits(n, m)
  {
    FitsExactly(n, k);
    FitsExactly(n, m);
    Pow256Grows(k, m);
  }

  /** SetBytes: the unsigned big-endian value. */
  function FromBE(bs: seq<Byte>): (n: nat)
    ensures Fits(n, |bs|)
  {
    if bs == [] then 0 else 256 * FromBE(bs[..|bs| - 1]) + bs[|bs| - 1]
  }

  /** FillBytes: `k` bytes, zero-padded on the left; the original panics on overflow. */
  function ToBE(n: nat, k: nat): (bs: seq<Byte>)
    requires Fits(n, k)
    ensures |bs| == k && FromBE(bs) == n
  {
    if k == 0 then [] else
      var init := ToBE(n / 256, k - 1);
      assert (init + [n % 256])[..k - 1] == init;
      init + [n % 256]
  }

  lemma {:induction false} ToBEFromBE(bs: seq<Byte>)
    ensures ToBE(FromBE(bs), |bs|) == bs
  {
    if bs != [] {
      ToBEFromBE(bs[..|bs| - 1]);
      assert FromBE(bs) / 256 == FromBE(bs[..|bs| - 1]);
    }
  }

  /** Leading zero bytes do not change a value. */
  lemma {:induction false} FromBEPad(bs: seq<Byte>)
    ensures FromBE([0] + bs) == FromBE(bs)
  {
    if bs != [] {
      FromBEPad(bs[..|bs| - 1]);
      assert ([0] + bs)[..|bs|] == [0] + bs[..|bs| - 1];
    } else {
      assert [0] + bs == [0] && [0][..0] == [];
    }
  }

  lemma {:induction false} FromBEPadded(k: nat, bs: seq<Byte>)
    ensures FromBE(Repeat<Byte>(0, k) + bs) == FromBE(bs)
  {
    if k > 0 {
      FromBEPad(bs);
      FromBEPadded(k - 1, [0] + bs);
      assert Repeat<Byte>(0, k) + bs == Repeat<Byte>(0, k - 1) + ([0] + bs);
    } else {
      assert Repeat<Byte>(0, 0) + bs == bs;
    }
  }

  lemma {:induction false} Pow256IsPow2(k: nat)
    ensures Pow256(k) == Pow2(8 * k)
  {
    if k > 0 {
      Pow256IsPow2(k - 1);
      var n := 8 * k;
      assert Pow2(n) == 2 * Pow2(n - 1) == 4 * Pow2(n - 2) == 8 * Pow2(n - 3) == 16 * Pow2(n - 4);
      assert Pow2(n - 4) == 2 * Pow2(n - 5) == 4 * Pow2(n - 6) == 8 * Pow2(n - 7) == 16 * Pow2(n - 8);
    }
  }

  /** Bitwise exclusive or. */
  function Xor(a: nat, b: nat): nat
  {
    if a == 0 && b == 0 then 0 else 2 * Xor(a / 2, b / 2) + (if a % 2 == b % 2 then 0 else 1)
  }

  lemma {:induction false} XorCancels(a: nat, b: nat)
    ensures Xor(Xor(a, b), b) == a
  {
    if a != 0 || b != 0 {
      XorCancels(a / 2, b / 2);
    }
  }

  lemma {:induction false} XorCommutes(a: nat, b: nat)
    ensures Xor(a, b) == Xor(b, a)
  {
    if a != 0 || b != 0 {
      XorCommutes(a / 2, b / 2);
    }
  }

  lemma {:induction false} XorZero(a: nat)
    ensures Xor(a, 0) == a
  {
    if a != 0 {
      XorZero(a / 2);
    }
  }

  lemma {:induction false} XorBound(a: nat, b: nat, n: nat)
    requires a < Pow2(n) && b < Pow2(n)
    ensures Xor(a, b) < Pow2(n)
  {
    if a != 0 || b != 0 {
      XorBound(a / 2, b / 2, n - 1);
    }
  }

  lemma {:induction false} XorFits(a: nat, b: nat, k: nat)
    requires Fits(a, k) && Fits(b, k)
    ensures Fits(Xor(a, b), k)
  {
    FitsExactly(a, k);
    FitsExactly(b, k);
    FitsExactly(Xor(a, b), k);
    Pow256IsPow2(k);
    XorBound(a, b, 8 * k);
  }

  /** Pairs of XORs exchange. */
  lemma {:induction false} XorExchange(a: nat, b: nat, c: nat, d: nat)
    ensures Xor(Xor(a, b), Xor(c, d)) == Xor(Xor(a, c), Xor(b, d))
  {
    if a != 0 || b != 0 || c != 0 || d != 0 {
      XorExchange(a / 2, b / 2, c / 2, d / 2);
      XorHalves(a, b);
      XorHalves(c, d);
      XorHalves(a, c);
      XorHalves(b, d);
    }
  }

  lemma {:induction false} XorHalves(a: nat, b: nat)
    ensures Xor(a, b) / 2 == Xor(a / 2, b / 2)
    ensures Xor(a, b) % 2 == if a % 2 == b % 2 then 0 else 1
  {
  }

  /** n >> k */
  function ShiftRight(n: nat, k: nat): nat
  {
    if k == 0 then n else ShiftRight(n / 2, k - 1)
  }

  /** n & (2^k - 1) */
  function LowBits(n: nat, k: nat): (r: nat)
    ensures r < Pow2(k)
  {
    if k == 0 then 0 else 2 * LowBits(n / 2, k - 1) + n % 2
  }

  /** XOR acts separately on the bits above and below position `k`. */
  lemma {:induction false} XorSplits(a: nat, b: nat, k: nat)
    ensures ShiftRight(Xor(a, b), k) == Xor(ShiftRight(a, k), ShiftRight(b, k))
    ensures LowBits(Xor(a, b), k) == Xor(LowBits(a, k), LowBits(b, k))
  {
    XorShifts(a, b, k);
    XorLows(a, b, k);
  }

  lemma {:induction false} XorShifts(a: nat, b: nat, k: nat)
    ensures ShiftRight(Xor(a, b), k) == Xor(ShiftRight(a, k), ShiftRight(b, k))
  {
    if k > 0 {
      XorHalves(a, b);
      XorShifts(a / 2, b / 2, k - 1);
    }
  }

  lemma {:induction false} LowOfXor(a: nat, b: nat, k: nat)
    requires k > 0
    ensures LowBits(Xor(a, b), k) == 2 * LowBits(Xor(a / 2, b / 2), k - 1) + (if a % 2 == b % 2 then 0 else 1)
  {
    XorHalves(a, b);
  }

  lemma {:induction false} XorLows(a: nat, b: nat, k: nat)
    ensures LowBits(Xor(a, b), k) == Xor(LowBits(a, k), LowBits(b, k))
  {
    if k > 0 {
      var x, y := LowBits(a / 2, k - 1), LowBits(b / 2, k - 1);
      XorLows(a / 2, b / 2, k - 1);
      LowOfXor(a, b, k);
      XorOfLow(x, a % 2, y, b % 2);
    } else {
      XorZero(0);
    }
  }

  lemma {:induction false} XorOfLow(x: nat, i: nat, y: nat, j: nat)
    requires i < 2 && j < 2
    ensures Xor(2 * x + i, 2 * y + j) == 2 * Xor(x, y) + (if i == j then 0 else 1)
  {
    XorHalves(2 * x + i, 2 * y + j);
  }

  lemma {:induction false} SmallIsLow(n: nat, k: nat)
    requires n < Pow2(k)
    ensures ShiftRight(n, k) == 0 && LowBits(n, k) == n
  {
    if k > 0 {
      SmallIsLow(n / 2, k - 1);
    }
  }
}
