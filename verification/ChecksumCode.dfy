/** The code behind the bech32 checksum (BIP-173, section "Checksum design"): the five
  * generator constants are one polynomial over GF(32) and its multiples, and a checksum
  * step is multiplication by x modulo that polynomial.  Published strings of BIP-350,
  * section "Test vectors", fix the remaining constant. */
module ChecksumCode {
  import opened Arithmetic
  import opened Bytes
  import opened Bech32

  /** An element of GF(32), as the coefficients of a polynomial over GF(2), highest first. */
  datatype Element = Element(e: bool, d: bool, c: bool, b: bool, a: bool)

  function Sum(x: Element, y: Element): Element
  {
    Element(x.e != y.e, x.d != y.d, x.c != y.c, x.b != y.b, x.a != y.a)
  }

  /** Multiplication by the variable, whose fifth power is its cube and one. */
  function Twice(x: Element): Element
  {
    Element(x.d, x.c != x.e, x.b, x.a, x.e)
  }

  function Val(x: Element): Word
  {
    (if x.e then 16 else 0) + (if x.d then 8 else 0) + (if x.c then 4 else 0)
      + (if x.b then 2 else 0) + (if x.a then 1 else 0)
  }

  function Elem(w: Word): Element
  {
    var u: nat := if w >= 16 then w - 16 else w;
    var v: nat := if u >= 8 then u - 8 else u;
    var t: nat := if v >= 4 then v - 4 else v;
    Element(w >= 16, u >= 8, v >= 4, t >= 2, t == 1 || t == 3)
  }

  lemma {:induction false} ElemVal(x: Element)
    ensures Elem(Val(x)) == x
  {
  }

  lemma {:induction false} ValElem(w: Word)
    ensures Val(Elem(w)) == w
  {
  }

  function Add(a: Word, b: Word): Word
  {
    Val(Sum(Elem(a), Elem(b)))
  }

  function Double(w: Word): Word
  {
    Val(Twice(Elem(w)))
  }

  lemma {:induction false} AddIsXor(a: Word, b: Word)
    ensures Add(a, b) == Xor(a, b)
  {
    ValElem(a);
    ValElem(b);
    XorOfVals(Elem(a), Elem(b));
  }

  /** The coefficients above the lowest, moved down. */
  function Halve(x: Element): (h: Element)
    ensures Val(x) == 2 * Val(h) + if x.a then 1 else 0
  {
    Element(false, x.e, x.d, x.c, x.b)
  }

  lemma {:induction false} XorOfVals(x: Element, y: Element)
    ensures Xor(Val(x), Val(y)) == Val(Sum(x, y))
    decreases Val(x) + Val(y)
  {
    if Val(x) + Val(y) > 0 {
      XorOfVals(Halve(x), Halve(y));
      XorAbove(Val(Halve(x)), Val(Halve(y)), x.a, y.a);
      SumHalves(x, y);
    }
  }

  lemma {:induction false} SumHalves(x: Element, y: Element)
    ensures Val(Sum(x, y)) == 2 * Val(Sum(Halve(x), Halve(y))) + if x.a != y.a then 1 else 0
  {
    assert Halve(Sum(x, y)) == Sum(Halve(x), Halve(y));
  }

  lemma {:induction false} XorAbove(m: nat, n: nat, p: bool, q: bool)
    ensures Xor(2 * m + (if p then 1 else 0), 2 * n + (if q then 1 else 0)) == 2 * Xor(m, n) + (if p != q then 1 else 0)
  {
  }

  function Select(bit: bool, x: Element): Element
  {
    if bit then x else Element(false, false, false, false, false)
  }

  /** The sum of the multiples of `y` by the powers of the variable that occur in `x`. */
  function Product(x: Element, y: Element): Element
  {
    var y1 := Twice(y);
    var y2 := Twice(y1);
    var y3 := Twice(y2);
    var y4 := Twice(y3);
    Sum(Select(x.a, y), Sum(Select(x.b, y1), Sum(Select(x.c, y2), Sum(Select(x.d, y3), Select(x.e, y4)))))
  }

  function Times(a: Word, w: Word): Word
  {
    Val(Product(Elem(a), Elem(w)))
  }

  /** Multiplication by repeated doubling, lowest bit first. */
  lemma {:induction false} TimesHalves(a: Word, w: Word)
    ensures Times(a, w) == Add(if a % 2 == 1 then w else 0, Times(a / 2, Double(w)))
  {
    var x, y := Elem(a), Elem(w);
    ValElem(a);
    HalfElem(x);
    ElemVal(Twice(y));
    ElemVal(Product(Elem(a / 2), Twice(y)));
    assert Elem(0) == Element(false, false, false, false, false);
  }

  lemma {:induction false} HalfElem(x: Element)
    ensures Elem(Val(x) / 2) == Halve(x) && (Val(x) % 2 == 1 <==> x.a)
  {
    ElemVal(Halve(x));
  }

  function AddEach(a: seq<Word>, b: seq<Word>): (c: seq<Word>)
    requires |a| == |b|
    ensures |c| == |a|
  {
    if a == [] then [] else AddEach(a[..|a| - 1], b[..|b| - 1]) + [Add(a[|a| - 1], b[|b| - 1])]
  }

  function DoubleEach(ws: seq<Word>): (r: seq<Word>)
    ensures |r| == |ws|
  {
    if ws == [] then [] else DoubleEach(ws[..|ws| - 1]) + [Double(ws[|ws| - 1])]
  }

  function TimesEach(a: Word, ws: seq<Word>): (r: seq<Word>)
    ensures |r| == |ws|
  {
    if ws == [] then [] else TimesEach(a, ws[..|ws| - 1]) + [Times(a, ws[|ws| - 1])]
  }

  /** The generator polynomial below its leading term, highest coefficient first. */
  const GENERATOR: seq<Word> := [29, 22, 20, 21, 29, 18]

  /** Multiplication by x and addition of `v`, modulo x^6 + GENERATOR. */
  function TimesX(c: seq<Word>, v: Word): (r: seq<Word>)
    requires |c| == 6
    ensures |r| == 6
  {
    AddEach(c[1..] + [v], TimesEach(c[0], GENERATOR))
  }

  lemma {:induction false} PackAdds(a: seq<Word>, b: seq<Word>)
    requires |a| == |b|
    ensures Xor(Pack(a), Pack(b)) == Pack(AddEach(a, b))
  {
    if a != [] {
      var n := |a| - 1;
      var init, x, y := AddEach(a[..n], b[..n]), a[n], b[n];
      PackAdds(a[..n], b[..n]);
      AddsLast(Pack(a[..n]), Pack(b[..n]), x, y);
      PackAppend(init, Add(x, y));
      assert AddEach(a, b) == init + [Add(x, y)];
    }
  }

  lemma {:induction false} AddsLast(x: nat, y: nat, a: Word, b: Word)
    ensures Xor(32 * x + a, 32 * y + b) == 32 * Xor(x, y) + Add(a, b)
  {
    XorLow(x, a);
    XorLow(y, b);
    XorExchange(32 * x, a, 32 * y, b);
    XorTimes32(x, y);
    AddIsXor(a, b);
    XorLow(Xor(x, y), Add(a, b));
  }

  lemma {:induction false} TimesZero(ws: seq<Word>)
    ensures Pack(TimesEach(0, ws)) == 0
  {
    if ws != [] {
      TimesZero(ws[..|ws| - 1]);
      assert TimesEach(0, ws)[..|ws| - 1] == TimesEach(0, ws[..|ws| - 1]);
    }
  }

  lemma {:induction false} TimesUnfolds(a: Word, ws: seq<Word>)
    ensures TimesEach(a, ws)
         == AddEach(if a % 2 == 1 then ws else TimesEach(0, ws), TimesEach(a / 2, DoubleEach(ws)))
  {
    if ws != [] {
      var n := |ws| - 1;
      TimesUnfolds(a, ws[..n]);
      TimesHalves(a, ws[n]);
      assert DoubleEach(ws)[..n] == DoubleEach(ws[..n]);
      assert TimesEach(0, ws)[..n] == TimesEach(0, ws[..n]);
      var d := TimesEach(a / 2, DoubleEach(ws));
      assert d[..n] == TimesEach(a / 2, DoubleEach(ws[..n]));
    }
  }

  /** A polynomial and its doublings, as packed constants. */
  function Doublings(ws: seq<Word>, k: nat): seq<nat>
    decreases k
  {
    if k == 0 then [] else [Pack(ws)] + Doublings(DoubleEach(ws), k - 1)
  }

  /** Mixing the doublings selected by the bits of `a` multiplies by `a`. */
  lemma {:induction false} MixMultiplies(a: Word, ws: seq<Word>, k: nat)
    requires a < Pow2(k)
    ensures Mix(a, Doublings(ws, k)) == Pack(TimesEach(a, ws))
  {
    if a == 0 {
      MixOfZero(Doublings(ws, k));
      TimesZero(ws);
    } else {
      var ds := DoubleEach(ws);
      MixMultiplies(a / 2, ds, k - 1);
      assert Doublings(ws, k)[1..] == Doublings(ds, k - 1);
      TimesUnfolds(a, ws);
      TimesZero(ws);
      PackAdds(if a % 2 == 1 then ws else TimesEach(0, ws), TimesEach(a / 2, ds));
    }
  }

  lemma {:induction false} PackAppend(ws: seq<Word>, v: Word)
    ensures Pack(ws + [v]) == 32 * Pack(ws) + v
  {
    assert (ws + [v])[..|ws|] == ws;
  }

  function Number(c: seq<Word>): nat
    requires |c| == 6
  {
    var (x0: nat, x1: nat, x2: nat, x3: nat, x4: nat, x5: nat) := (c[0], c[1], c[2], c[3], c[4], c[5]);
    33554432 * x0 + 1048576 * x1 + 32768 * x2 + 1024 * x3 + 32 * x4 + x5
  }

  lemma {:induction false} PackSix(c: seq<Word>)
    requires |c| == 6
    ensures Pack(c) == Number(c)
  {
    PackAppend([], c[0]);
    PackAppend(c[..1], c[1]);
    PackAppend(c[..2], c[2]);
    PackAppend(c[..3], c[3]);
    PackAppend(c[..4], c[4]);
    PackAppend(c[..5], c[5]);
    assert [] + [c[0]] == c[..1] && c[..1] + [c[1]] == c[..2] && c[..2] + [c[2]] == c[..3];
    assert c[..3] + [c[3]] == c[..4] && c[..4] + [c[4]] == c[..5] && c[..5] + [c[5]] == c;
  }

  /** One doubling, word by word. */
  lemma {:induction false} DoubleEachAt(ws: seq<Word>, i: nat)
    requires i < |ws|
    ensures DoubleEach(ws)[i] == Double(ws[i])
  {
    if i < |ws| - 1 {
      DoubleEachAt(ws[..|ws| - 1], i);
    }
  }

  lemma {:induction false} DoubleSix(ws: seq<Word>)
    requires |ws| == 6
    ensures DoubleEach(ws)
         == [Double(ws[0]), Double(ws[1]), Double(ws[2]), Double(ws[3]), Double(ws[4]), Double(ws[5])]
  {
    forall i | 0 <= i < 6 ensures DoubleEach(ws)[i] == Double(ws[i]) {
      DoubleEachAt(ws, i);
    }
  }

  lemma {:induction false} Doubled()
    ensures DoubleEach(GENERATOR) == [19, 5, 1, 3, 19, 13]
    ensures DoubleEach([19, 5, 1, 3, 19, 13]) == [15, 10, 2, 6, 15, 26]
    ensures DoubleEach([15, 10, 2, 6, 15, 26]) == [30, 20, 4, 12, 30, 29]
    ensures DoubleEach([30, 20, 4, 12, 30, 29]) == [21, 1, 8, 24, 21, 19]
  {
    DoubleSix(GENERATOR);
    DoubleSix([19, 5, 1, 3, 19, 13]);
    DoubleSix([15, 10, 2, 6, 15, 26]);
    DoubleSix([30, 20, 4, 12, 30, 29]);
  }

  /** The generator constants of the checksum are the polynomial and its four doublings. */
  lemma {:induction false} GeneratorsArePolynomial()
    ensures GENERATORS == Doublings(GENERATOR, 5)
  {
    Doubled();
    PackSix(GENERATOR);
    PackSix([19, 5, 1, 3, 19, 13]);
    PackSix([15, 10, 2, 6, 15, 26]);
    PackSix([30, 20, 4, 12, 30, 29]);
    PackSix([21, 1, 8, 24, 21, 19]);
  }

  lemma {:induction false} HighAndLow(x: nat, r: nat, k: nat)
    requires r < Pow2(k)
    ensures ShiftRight(Pow2(k) * x + r, k) == x && LowBits(Pow2(k) * x + r, k) == r
  {
    if k > 0 {
      var n, m := Pow2(k) * x + r, Pow2(k - 1) * x + r / 2;
      assert Pow2(k) * x == 2 * (Pow2(k - 1) * x);
      assert n / 2 == m && n % 2 == r % 2;
      HighAndLow(x, r / 2, k - 1);
    }
  }

  lemma {:induction false} TopWord(c: seq<Word>)
    requires |c| == 6
    ensures ShiftRight(Pack(c), 25) == c[0] && LowBits(Pack(c), 25) == Pack(c[1..])
  {
    PackHead(c);
    FromZeroIsPack(c[1..]);
    Pow2Values();
    HighAndLow(c[0], Pack(c[1..]), 25);
  }

  lemma {:induction false} PackHead(c: seq<Word>)
    requires |c| == 6
    ensures Pack(c) == 33554432 * c[0] + Pack(c[1..])
  {
    PackSix(c);
    PackSix([0] + c[1..]);
    PackPadded(c[1..]);
  }

  lemma {:induction false} PackPadded(ws: seq<Word>)
    ensures Pack([0] + ws) == Pack(ws)
  {
    var z: seq<Word> := [0] + ws;
    if ws == [] {
      PackAppend([], 0);
      assert [] + [0] == z;
    } else {
      PackPadded(ws[..|ws| - 1]);
      assert z[..|z| - 1] == [0] + ws[..|ws| - 1];
    }
  }

  /** A checksum step multiplies the state by x and adds the word, modulo the generator. */
  lemma {:induction false} StepIsTimesX(c: seq<Word>, v: Word)
    requires |c| == 6
    ensures Step(Pack(c), v) == Pack(TimesX(c, v))
  {
    TopWord(c);
    Pow2Values();
    GeneratorsArePolynomial();
    MixMultiplies(c[0], GENERATOR, 5);
    var low := Pack(c[1..]);
    XorLow(low, v);
    PackAppend(c[1..], v);
    PackAdds(c[1..] + [v], TimesEach(c[0], GENERATOR));
  }

  // ---------------------------------------------------------------------------
  // A published string
  // ---------------------------------------------------------------------------

  lemma {:induction false} TimesXIs(c: seq<Word>, v: Word)
    requires |c| == 6
    ensures TimesX(c, v)
         == [Add(c[1], Times(c[0], 29)), Add(c[2], Times(c[0], 22)), Add(c[3], Times(c[0], 20)),
             Add(c[4], Times(c[0], 21)), Add(c[5], Times(c[0], 29)), Add(v, Times(c[0], 18))]
  {
    var t := TimesX(c, v);
    TimesXAt(c, v, 0);
    TimesXAt(c, v, 1);
    TimesXAt(c, v, 2);
    TimesXAt(c, v, 3);
    TimesXAt(c, v, 4);
    TimesXAt(c, v, 5);
    assert t == [t[0], t[1], t[2], t[3], t[4], t[5]];
  }

  lemma {:induction false} TimesXAt(c: seq<Word>, v: Word, i: nat)
    requires |c| == 6 && i < 6
    ensures TimesX(c, v)[i] == Add(if i < 5 then c[i + 1] else v, Times(c[0], GENERATOR[i]))
  {
    var b, t := c[1..] + [v], TimesEach(c[0], GENERATOR);
    TimesEachAt(c[0], GENERATOR, i);
    AddEachAt(b, t, i);
  }

  lemma {:induction false} TimesEachAt(a: Word, ws: seq<Word>, i: nat)
    requires i < |ws|
    ensures TimesEach(a, ws)[i] == Times(a, ws[i])
  {
    if i < |ws| - 1 {
      TimesEachAt(a, ws[..|ws| - 1], i);
    }
  }

  lemma {:induction false} AddEachAt(a: seq<Word>, b: seq<Word>, i: nat)
    requires |a| == |b| && i < |a|
    ensures AddEach(a, b)[i] == Add(a[i], b[i])
  {
    if i < |a| - 1 {
      AddEachAt(a[..|a| - 1], b[..|b| - 1], i);
    }
  }

  lemma {:induction false} FirstStates()
    ensures TimesX([0, 0, 0, 0, 0, 1], 3) == [0, 0, 0, 0, 1, 3]
    ensures TimesX([0, 0, 0, 0, 1, 3], 0) == [0, 0, 0, 1, 3, 0]
  {
    TimesXIs([0, 0, 0, 0, 0, 1], 3);
    TimesXIs([0, 0, 0, 0, 1, 3], 0);
  }

  lemma {:induction false} ThirdState()
    ensures TimesX([0, 0, 0, 1, 3, 0], 1) == [0, 0, 1, 3, 0, 1]
  {
    TimesXIs([0, 0, 0, 1, 3, 0], 1);
  }

  lemma {:induction false} NextStates()
    ensures TimesX([0, 0, 1, 3, 0, 1], 31) == [0, 1, 3, 0, 1, 31]
    ensures TimesX([0, 1, 3, 0, 1, 31], 0) == [1, 3, 0, 1, 31, 0]
  {
    TimesXIs([0, 0, 1, 3, 0, 1], 31);
    TimesXIs([0, 1, 3, 0, 1, 31], 0);
  }

  /** The state after the words of `ws`, from the state 1. */
  function Run(ws: seq<Word>): (c: seq<Word>)
    ensures |c| == 6
  {
    if ws == [] then [0, 0, 0, 0, 0, 1] else TimesX(Run(ws[..|ws| - 1]), ws[|ws| - 1])
  }

  /** The checksum of a string is the remainder of its polynomial modulo the generator. */
  lemma {:induction false} PolymodIsRemainder(ws: seq<Word>)
    ensures Polymod(ws) == Pack(Run(ws))
  {
    if ws == [] {
      PackSix(Run(ws));
    } else {
      var n := |ws| - 1;
      PolymodIsRemainder(ws[..n]);
      StepIsTimesX(Run(ws[..n]), ws[n]);
    }
  }

  lemma {:induction false} RunTo(ws: seq<Word>, k: nat, c: seq<Word>, next: seq<Word>)
    requires k < |ws| && |c| == 6 && Run(ws[..k]) == c && TimesX(c, ws[k]) == next
    ensures Run(ws[..k + 1]) == next
  {
    assert ws[..k + 1][..k] == ws[..k];
  }

  /** The words of "a" and of "lqfn3a". */
  predicate ShortestString(ws: seq<Word>)
  {
    |ws| == 9 && ws[0] == 3 && ws[1] == 0 && ws[2] == 1 && IsTail(ws[3..])
  }

  predicate IsTail(ws: seq<Word>)
  {
    |ws| == 6 && ws[0] == 31 && ws[1] == 0 && ws[2] == 9 && ws[3] == 19 && ws[4] == 17 && ws[5] == 29
  }

  lemma {:induction false} FirstTwo(ws: seq<Word>)
    requires ShortestString(ws)
    ensures Run(ws[..2]) == [0, 0, 0, 1, 3, 0]
  {
    FirstStates();
    RunTo(ws, 0, [0, 0, 0, 0, 0, 1], [0, 0, 0, 0, 1, 3]);
    RunTo(ws, 1, [0, 0, 0, 0, 1, 3], [0, 0, 0, 1, 3, 0]);
  }

  lemma {:induction false} FirstThree(ws: seq<Word>)
    requires ShortestString(ws)
    ensures Run(ws[..3]) == [0, 0, 1, 3, 0, 1]
  {
    FirstTwo(ws);
    ThirdState();
    RunTo(ws, 2, [0, 0, 0, 1, 3, 0], [0, 0, 1, 3, 0, 1]);
  }

  lemma {:induction false} FirstHalf(ws: seq<Word>)
    requires ShortestString(ws)
    ensures Run(ws[..5]) == [1, 3, 0, 1, 31, 0]
  {
    FirstThree(ws);
    NextStates();
    RunTo(ws, 3, [0, 0, 1, 3, 0, 1], [0, 1, 3, 0, 1, 31]);
    RunTo(ws, 4, [0, 1, 3, 0, 1, 31], [1, 3, 0, 1, 31, 0]);
  }

  lemma {:induction false} Step6()
    ensures TimesX([1, 3, 0, 1, 31, 0], 9) == [30, 22, 21, 10, 29, 27]
  {
    TimesXIs([1, 3, 0, 1, 31, 0], 9);
  }

  lemma {:induction false} State6(ws: seq<Word>)
    requires ShortestString(ws) && Run(ws[..5]) == [1, 3, 0, 1, 31, 0]
    ensures Run(ws[..6]) == [30, 22, 21, 10, 29, 27]
  {
    Step6();
    RunTo(ws, 5, [1, 3, 0, 1, 31, 0], [30, 22, 21, 10, 29, 27]);
  }

  lemma {:induction false} Step7()
    ensures TimesX([30, 22, 21, 10, 29, 27], 19) == [1, 15, 5, 12, 12, 10]
  {
    TimesXIs([30, 22, 21, 10, 29, 27], 19);
  }

  lemma {:induction false} State7(ws: seq<Word>)
    requires ShortestString(ws) && Run(ws[..6]) == [30, 22, 21, 10, 29, 27]
    ensures Run(ws[..7]) == [1, 15, 5, 12, 12, 10]
  {
    Step7();
    RunTo(ws, 6, [30, 22, 21, 10, 29, 27], [1, 15, 5, 12, 12, 10]);
  }

  lemma {:induction false} Step8()
    ensures TimesX([1, 15, 5, 12, 12, 10], 17) == [18, 19, 24, 25, 23, 3]
  {
    TimesXIs([1, 15, 5, 12, 12, 10], 17);
  }

  lemma {:induction false} State8(ws: seq<Word>)
    requires ShortestString(ws) && Run(ws[..7]) == [1, 15, 5, 12, 12, 10]
    ensures Run(ws[..8]) == [18, 19, 24, 25, 23, 3]
  {
    Step8();
    RunTo(ws, 7, [1, 15, 5, 12, 12, 10], [18, 19, 24, 25, 23, 3]);
  }

  lemma {:induction false} Step9()
    ensures TimesX([18, 19, 24, 25, 23, 3], 29) == [21, 28, 16, 12, 5, 3]
  {
    TimesXIs([18, 19, 24, 25, 23, 3], 29);
  }

  lemma {:induction false} State9(ws: seq<Word>)
    requires ShortestString(ws) && Run(ws[..8]) == [18, 19, 24, 25, 23, 3]
    ensures Run(ws[..9]) == [21, 28, 16, 12, 5, 3]
  {
    Step9();
    RunTo(ws, 8, [18, 19, 24, 25, 23, 3], [21, 28, 16, 12, 5, 3]);
  }

  lemma {:induction false} MiddleStates(ws: seq<Word>)
    requires ShortestString(ws)
    ensures Run(ws[..7]) == [1, 15, 5, 12, 12, 10]
  {
    FirstHalf(ws);
    State6(ws);
    State7(ws);
  }

  lemma {:induction false} LastState(ws: seq<Word>)
    requires ShortestString(ws)
    ensures Run(ws) == [21, 28, 16, 12, 5, 3]
  {
    MiddleStates(ws);
    State8(ws);
    State9(ws);
    assert ws[..9] == ws;
  }

  /** The character set in the order of its words. */
  lemma {:induction false} CharacterSet(w: Word)
    ensures CharOf(w) == "qpzry9x8gf2tvdw0s3jn54khce6mua7l"[w]
  {
  }

  /** The valid bech32m string without data is "a1lqfn3a". */
  lemma {:induction false} PublishedString(hrp: string, data: seq<Word>)
    requires |hrp| == 1 && hrp[0] == 'a' && |data| == 0
    ensures Encode(hrp, Expand(hrp), data) == "a1lqfn3a"
  {
    var hw := Expand(hrp);
    ExpandsA(hrp);
    assert hw + data == hw;
    ShortestChecksum(hw);
    TailChars(Checksum(hw));
    assert data + Checksum(hw) == Checksum(hw);
  }

  lemma {:induction false} ExpandsA(hrp: string)
    requires |hrp| == 1 && hrp[0] == 'a'
    ensures var hw := Expand(hrp); |hw| == 3 && hw[0] == 3 && hw[1] == 0 && hw[2] == 1
  {
    assert HighBits(hrp[1..]) == [] && LowFive(hrp[1..]) == [];
  }

  lemma {:induction false} TailChars(c: seq<Word>)
    requires IsTail(c)
    ensures Chars(c) == "lqfn3a"
  {
    CharsIs(c);
  }

  lemma {:induction false} ShortestChecksum(hw: seq<Word>)
    requires |hw| == 3 && hw[0] == 3 && hw[1] == 0 && hw[2] == 1
    ensures IsTail(Checksum(hw))
  {
    var tail: seq<Word> := [31, 0, 9, 19, 17, 29];
    var ws := hw + tail;
    assert ws[3..] == tail;
    LastState(ws);
    PolymodIsRemainder(ws);
    PackSix(Run(ws));
    ChecksumExactly(hw, tail);
  }

  lemma {:induction false} CharsIs(ws: seq<Word>)
    ensures forall i :: 0 <= i < |ws| ==> Chars(ws)[i] == CharOf(ws[i])
  {
    if ws != [] {
      CharsIs(ws[..|ws| - 1]);
    }
  }
}
