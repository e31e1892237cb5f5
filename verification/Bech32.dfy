/** Bech32m (BIP-350, section "Bech32m"; BIP-173, section "Bech32") without a length cap,
  * for one expected human-readable part.
  *
  * The original calls a library.  This is that library's contract on the strings the
  * address codec hands it: regrouping of bits, checksum, character set and case. */
module Bech32 {
  import opened Arithmetic
  import opened Bytes
  import opened Wrappers

  type Word = w: nat | w < 32

  // ---------------------------------------------------------------------------
  // Character set
  // ---------------------------------------------------------------------------

  function CharOf(w: Word): (c: char)
  {
    if w == 0 then 'q' else if w == 1 then 'p' else if w == 2 then 'z' else if w == 3 then 'r'
    else if w == 4 then 'y' else if w == 5 then '9' else if w == 6 then 'x' else if w == 7 then '8'
    else if w == 8 then 'g' else if w == 9 then 'f' else if w == 10 then '2' else if w == 11 then 't'
    else if w == 12 then 'v' else if w == 13 then 'd' else if w == 14 then 'w' else if w == 15 then '0'
    else if w == 16 then 's' else if w == 17 then '3' else if w == 18 then 'j' else if w == 19 then 'n'
    else if w == 20 then '5' else if w == 21 then '4' else if w == 22 then 'k' else if w == 23 then 'h'
    else if w == 24 then 'c' else if w == 25 then 'e' else if w == 26 then '6' else if w == 27 then 'm'
    else if w == 28 then 'u' else if w == 29 then 'a' else if w == 30 then '7' else 'l'
  }

  function WordOf(c: char): (w: Option<Word>)
    ensures w.Some? ==> CharOf(w.value) == c
  {
    match c
    case 'q' => Some(0) case 'p' => Some(1) case 'z' => Some(2) case 'r' => Some(3)
    case 'y' => Some(4) case '9' => Some(5) case 'x' => Some(6) case '8' => Some(7)
    case 'g' => Some(8) case 'f' => Some(9) case '2' => Some(10) case 't' => Some(11)
    case 'v' => Some(12) case 'd' => Some(13) case 'w' => Some(14) case '0' => Some(15)
    case 's' => Some(16) case '3' => Some(17) case 'j' => Some(18) case 'n' => Some(19)
    case '5' => Some(20) case '4' => Some(21) case 'k' => Some(22) case 'h' => Some(23)
    case 'c' => Some(24) case 'e' => Some(25) case '6' => Some(26) case 'm' => Some(27)
    case 'u' => Some(28) case 'a' => Some(29) case '7' => Some(30) case 'l' => Some(31)
    case _ => None
  }

  /** Printable ASCII, and not upper case. */
  predicate Clean(c: char)
  {
    33 <= c as int <= 126 && !('A' <= c <= 'Z')
  }

  predicate AllClean(s: string)
  {
    forall i :: 0 <= i < |s| ==> Clean(s[i])
  }

  lemma {:induction false} CharRoundTrip(w: Word)
    ensures WordOf(CharOf(w)) == Some(w)
    ensures CharOf(w) != '1' && Clean(CharOf(w))
  {
  }

  function Chars(ws: seq<Word>): (s: string)
    ensures |s| == |ws|
  {
    if ws == [] then [] else Chars(ws[..|ws| - 1]) + [CharOf(ws[|ws| - 1])]
  }

  function Words(s: string): (ws: Option<seq<Word>>)
    ensures ws.Some? ==> |ws.value| == |s|
  {
    if s == [] then Some([])
    else match (Words(s[..|s| - 1]), WordOf(s[|s| - 1]))
      case (Some(ws), Some(w)) => Some(ws + [w])
      case _ => None
  }

  lemma {:induction false} WordsOfChars(ws: seq<Word>)
    ensures Words(Chars(ws)) == Some(ws)
    ensures AllClean(Chars(ws)) && '1' !in Chars(ws)
  {
    if ws != [] {
      var n, s := |ws| - 1, Chars(ws);
      WordsOfChars(ws[..n]);
      CharRoundTrip(ws[n]);
      assert s[..n] == Chars(ws[..n]);
      assert ws == ws[..n] + [ws[n]];
    }
  }

  lemma {:induction false} CharsOfWords(s: string)
    requires Words(s).Some?
    ensures Chars(Words(s).value) == s
  {
    if s != [] {
      var n := |s| - 1;
      CharsOfWords(s[..n]);
      var ws := Words(s).value;
      assert ws[..n] == Words(s[..n]).value;
      assert s == s[..n] + [s[n]];
    }
  }

  // ---------------------------------------------------------------------------
  // Checksum
  // ---------------------------------------------------------------------------

  const BECH32M_CONST: nat := 0x2bc830a3

  const GENERATORS: seq<nat> := [0x3b6a57b2, 0x26508e6d, 0x1ea119fa, 0x3d4233dd, 0x2a1462b3]

  /** The XOR of the generators selected by the bits of `top`, lowest bit first. */
  function Mix(top: nat, gens: seq<nat>): nat
  {
    if gens == [] then 0 else Xor(if top % 2 == 1 then gens[0] else 0, Mix(top / 2, gens[1..]))
  }

  /** One checksum step on a 30-bit state. */
  function Step(chk: nat, v: Word): nat
  {
    Xor(Xor(32 * LowBits(chk, 25), v), Mix(ShiftRight(chk, 25), GENERATORS))
  }

  function Steps(chk: nat, ws: seq<Word>): nat
  {
    if ws == [] then chk else Step(Steps(chk, ws[..|ws| - 1]), ws[|ws| - 1])
  }

  function Polymod(ws: seq<Word>): nat
  {
    Steps(1, ws)
  }

  lemma {:induction false} StepsAppend(chk: nat, a: seq<Word>, b: seq<Word>)
    ensures Steps(chk, a + b) == Steps(Steps(chk, a), b)
  {
    if b == [] {
      assert a + b == a;
    } else {
      StepsAppend(chk, a, b[..|b| - 1]);
      assert (a + b)[..|a + b| - 1] == a + b[..|b| - 1];
    }
  }

  lemma {:induction false} MixIsLinear(a: nat, b: nat, gens: seq<nat>)
    ensures Mix(Xor(a, b), gens) == Xor(Mix(a, gens), Mix(b, gens))
  {
    if gens != [] {
      MixIsLinear(a / 2, b / 2, gens[1..]);
      XorHalves(a, b);
      var g := gens[0];
      var x, y := if a % 2 == 1 then g else 0, if b % 2 == 1 then g else 0;
      XorZero(g);
      XorCommutes(g, 0);
      XorCancels(0, g);
      assert Xor(x, y) == if Xor(a, b) % 2 == 1 then g else 0;
      XorExchange(x, Mix(a / 2, gens[1..]), y, Mix(b / 2, gens[1..]));
    }
  }

  lemma {:induction false} XorTimes32(a: nat, b: nat)
    ensures Xor(32 * a, 32 * b) == 32 * Xor(a, b)
  {
    XorTimes4(a, b);
    XorTimes4(4 * a, 4 * b);
    XorTimes2(16 * a, 16 * b);
  }

  lemma {:induction false} XorTimes4(a: nat, b: nat)
    ensures Xor(4 * a, 4 * b) == 4 * Xor(a, b)
  {
    XorTimes2(a, b);
    XorTimes2(2 * a, 2 * b);
  }

  lemma {:induction false} XorTimes2(a: nat, b: nat)
    ensures Xor(2 * a, 2 * b) == 2 * Xor(a, b)
  {
  }

  /** The step is linear over XOR; here with the word on one side. */
  lemma {:induction false} StepSplits(a: nat, b: nat, v: Word)
    ensures Step(Xor(a, b), v) == Xor(Step(a, 0), Step(b, v))
  {
    XorSplits(a, b, 25);
    XorTimes32(LowBits(a, 25), LowBits(b, 25));
    MixIsLinear(ShiftRight(a, 25), ShiftRight(b, 25), GENERATORS);
    var x, y := 32 * LowBits(a, 25), 32 * LowBits(b, 25);
    XorExchange(x, 0, y, v);
    XorCommutes(0, v);
    XorZero(v);
    XorExchange(Xor(x, 0), Mix(ShiftRight(a, 25), GENERATORS), Xor(y, v), Mix(ShiftRight(b, 25), GENERATORS));
  }

  /** The words of a checksum as one number, first word highest. */
  function Pack(c: seq<Word>): nat
  {
    if c == [] then 0 else 32 * Pack(c[..|c| - 1]) + c[|c| - 1]
  }

  function Unpack(x: nat, k: nat): (c: seq<Word>)
    ensures |c| == k
  {
    if k == 0 then [] else Unpack(x / 32, k - 1) + [x % 32]
  }

  lemma {:induction false} UnpackPack(c: seq<Word>)
    ensures Unpack(Pack(c), |c|) == c
  {
    if c != [] {
      UnpackPack(c[..|c| - 1]);
    }
  }

  lemma {:induction false} PackUnpack(x: nat, k: nat)
    requires x < Pow2(5 * k)
    ensures Pack(Unpack(x, k)) == x
  {
    if k > 0 {
      Pow2Plus5(5 * k - 5);
      PackUnpack(x / 32, k - 1);
      assert Unpack(x, k)[..k - 1] == Unpack(x / 32, k - 1);
    }
  }

  /** From a state with an empty top word, a step only shifts a word in. */
  lemma {:induction false} StepShifts(chk: nat, v: Word)
    requires chk < Pow2(25)
    ensures Step(chk, v) == 32 * chk + v
  {
    SmallIsLow(chk, 25);
    assert Mix(ShiftRight(chk, 25), GENERATORS) == 0 by { MixOfZero(GENERATORS); }
    assert Xor(32 * chk, v) == 32 * chk + v by { XorLow(chk, v); }
    XorZero(32 * chk + v);
  }

  lemma {:induction false} MixOfZero(gens: seq<nat>)
    ensures Mix(0, gens) == 0
  {
    if gens != [] {
      MixOfZero(gens[1..]);
    }
  }

  function ShiftLeft(a: nat, n: nat): nat
  {
    if n == 0 then a else 2 * ShiftLeft(a, n - 1)
  }

  /** XOR with a number below the shifted-in zeros is addition. */
  lemma {:induction false} XorLowBits(a: nat, v: nat, n: nat)
    requires v < Pow2(n)
    ensures Xor(ShiftLeft(a, n), v) == ShiftLeft(a, n) + v
  {
    if n == 0 {
      XorZero(a);
    } else {
      XorLowBits(a, v / 2, n - 1);
      XorOfLow(ShiftLeft(a, n - 1), 0, v / 2, v % 2);
      assert v == 2 * (v / 2) + v % 2;
    }
  }

  lemma {:induction false} XorLow(a: nat, v: Word)
    ensures Xor(32 * a, v) == 32 * a + v
  {
    Pow2Values();
    assert ShiftLeft(a, 1) == 2 * a;
    assert ShiftLeft(a, 2) == 2 * ShiftLeft(a, 1);
    assert ShiftLeft(a, 3) == 2 * ShiftLeft(a, 2);
    assert ShiftLeft(a, 4) == 2 * ShiftLeft(a, 3);
    XorLowBits(a, v, 5);
  }

  /** From the zero state, up to six words are only shifted in. */
  lemma {:induction false} FromZeroIsPack(c: seq<Word>)
    requires |c| <= 6
    ensures Steps(0, c) == Pack(c)
    ensures Pack(c) < Pow2(5 * |c|)
  {
    if c != [] {
      var n := |c| - 1;
      FromZeroIsPack(c[..n]);
      ShiftIn(Pack(c[..n]), c[n], n);
    }
  }

  lemma {:induction false} ShiftIn(chk: nat, v: Word, n: nat)
    requires n <= 5 && chk < Pow2(5 * n)
    ensures Step(chk, v) == 32 * chk + v && 32 * chk + v < Pow2(5 * (n + 1))
  {
    Pow2Plus5(5 * n);
    Pow2Grows(5 * n, 25);
    StepShifts(chk, v);
  }

  lemma {:induction false} Pow2Grows(m: nat, n: nat)
    requires m <= n
    ensures Pow2(m) <= Pow2(n)
  {
    if m < n {
      Pow2Grows(m, n - 1);
    }
  }

  /** Words entering a state enter it unmixed: the state evolves as if they were zero. */
  lemma {:induction false} StepsSplit(a: nat, b: nat, c: seq<Word>)
    ensures Steps(Xor(a, b), c) == Xor(Steps(a, Repeat<Word>(0, |c|)), Steps(b, c))
  {
    if c != [] {
      var n := |c| - 1;
      StepsSplit(a, b, c[..n]);
      StepSplits(Steps(a, Repeat<Word>(0, n)), Steps(b, c[..n]), c[n]);
      assert Repeat<Word>(0, |c|)[..n] == Repeat<Word>(0, n);
    }
  }

  /** The state never exceeds 30 bits. */
  lemma {:induction false} StepBound(chk: nat, v: Word)
    ensures Step(chk, v) < Pow2(30)
  {
    Pow2Values();
    var low, mixed := 32 * LowBits(chk, 25), Mix(ShiftRight(chk, 25), GENERATORS);
    XorBound(low, v, 30);
    MixBound(ShiftRight(chk, 25), GENERATORS, 30);
    XorBound(Xor(low, v), mixed, 30);
  }

  lemma {:induction false} MixBound(top: nat, gens: seq<nat>, n: nat)
    requires forall i :: 0 <= i < |gens| ==> gens[i] < Pow2(n)
    ensures Mix(top, gens) < Pow2(n)
  {
    if gens != [] {
      MixBound(top / 2, gens[1..], n);
      XorBound(if top % 2 == 1 then gens[0] else 0, Mix(top / 2, gens[1..]), n);
    }
  }

  const CHECKSUM_LENGTH: nat := 6

  function Checksum(ws: seq<Word>): (c: seq<Word>)
    ensures |c| == CHECKSUM_LENGTH
  {
    Unpack(Xor(Polymod(ws + Repeat<Word>(0, CHECKSUM_LENGTH)), BECH32M_CONST), CHECKSUM_LENGTH)
  }

  /** Exactly one checksum is valid for given data. */
  lemma {:induction false} ChecksumExactly(ws: seq<Word>, c: seq<Word>)
    requires |c| == CHECKSUM_LENGTH
    ensures Polymod(ws + c) == BECH32M_CONST <==> c == Checksum(ws)
  {
    var k := |c|;
    var p := Polymod(ws);
    var q := Steps(p, Repeat<Word>(0, k));
    StepsAppend(1, ws, c);
    StepsAppend(1, ws, Repeat<Word>(0, k));
    XorZero(p);
    StepsSplit(p, 0, c);
    FromZeroIsPack(c);
    StepsBound(p, Repeat<Word>(0, k));
    Pow2Values();
    XorBound(q, BECH32M_CONST, 30);
    UnpackPack(c);
    PackUnpack(Xor(q, BECH32M_CONST), k);
    XorSolve(q, Pack(c), BECH32M_CONST);
  }

  lemma {:induction false} StepsBound(chk: nat, ws: seq<Word>)
    requires ws != []
    ensures Steps(chk, ws) < Pow2(30)
  {
    StepBound(Steps(chk, ws[..|ws| - 1]), ws[|ws| - 1]);
  }

  lemma {:induction false} XorSolve(p: nat, x: nat, m: nat)
    ensures Xor(p, x) == m <==> x == Xor(p, m)
  {
    XorCommutes(p, x);
    XorCommutes(p, m);
    XorCancels(x, p);
    XorCancels(m, p);
  }

  // ---------------------------------------------------------------------------
  // Strings
  // ---------------------------------------------------------------------------

  /** A human-readable part, expanded: the high bits, a zero, the low bits. */
  function Expand(hrp: string): seq<Word>
    requires AllClean(hrp)
  {
    HighBits(hrp) + [0] + LowFive(hrp)
  }

  function HighBits(s: string): seq<Word>
    requires AllClean(s)
  {
    if s == [] then [] else [s[0] as nat / 32] + HighBits(s[1..])
  }

  function LowFive(s: string): seq<Word>
  {
    if s == [] then [] else [s[0] as nat % 32] + LowFive(s[1..])
  }

  /** The string for human-readable part `hrp`, whose expansion is `hw`. */
  function Encode(hrp: string, hw: seq<Word>, data: seq<Word>): string
  {
    hrp + "1" + Chars(data + Checksum(hw + data))
  }

  function LowerChar(c: char): char
  {
    if 'A' <= c <= 'Z' then c + 32 as char else c
  }

  function ToLower(s: string): (r: string)
    ensures |r| == |s| && forall i :: 0 <= i < |s| ==> r[i] == LowerChar(s[i])
  {
    if s == [] then [] else ToLower(s[..|s| - 1]) + [LowerChar(s[|s| - 1])]
  }

  /** The last position of '1', or -1. */
  function LastOne(s: string): (i: int)
    ensures -1 <= i < |s|
    ensures i >= 0 ==> s[i] == '1'
    ensures forall j :: i < j < |s| ==> s[j] != '1'
  {
    if s == [] then -1 else if s[|s| - 1] == '1' then |s| - 1 else LastOne(s[..|s| - 1])
  }

  predicate PlainAscii(s: string)
  {
    forall c :: c in s ==> 33 <= c as int <= 126
  }

  predicate MixedCase(s: string)
  {
    (exists c :: c in s && 'a' <= c <= 'z') && (exists c :: c in s && 'A' <= c <= 'Z')
  }

  /** The data words of a valid bech32m string with human-readable part `hrp`. */
  function Decode(hrp: string, hw: seq<Word>, s: string): Option<seq<Word>>
  {
    if |s| < 8 || !PlainAscii(s) || MixedCase(s) then None
    else DecodeLower(hrp, hw, ToLower(s))
  }

  function DecodeLower(hrp: string, hw: seq<Word>, s: string): Option<seq<Word>>
  {
    var one := LastOne(s);
    if one < 1 || one + 7 > |s| || s[..one] != hrp then None
    else match Words(s[one + 1..])
      case None => None
      case Some(ws) => if Polymod(hw + ws) == BECH32M_CONST then Some(ws[..|ws| - 6]) else None
  }

  lemma {:induction false} CleanIsLower(s: string)
    requires AllClean(s)
    ensures ToLower(s) == s && PlainAscii(s) && !MixedCase(s)
  {
    forall c | c in s ensures Clean(c) {
      var i :| 0 <= i < |s| && s[i] == c;
    }
  }

  /** A valid word string is read back whatever its checksum words are called. */
  lemma {:induction false} DecodeChars(hrp: string, hw: seq<Word>, ws: seq<Word>)
    requires hrp != "" && AllClean(hrp)
    requires |ws| >= 6 && Polymod(hw + ws) == BECH32M_CONST
    ensures Decode(hrp, hw, hrp + "1" + Chars(ws)) == Some(ws[..|ws| - 6])
  {
    var s := hrp + "1" + Chars(ws);
    WordsOfChars(ws);
    assert AllClean("1");
    assert AllClean(s);
    CleanIsLower(s);
    DecodeLowerChars(hrp, hw, ws);
  }

  lemma {:induction false} DecodeLowerChars(hrp: string, hw: seq<Word>, ws: seq<Word>)
    requires hrp != "" && |ws| >= 6 && Polymod(hw + ws) == BECH32M_CONST
    ensures DecodeLower(hrp, hw, hrp + "1" + Chars(ws)) == Some(ws[..|ws| - 6])
  {
    WordsOfChars(ws);
    SplitAtOne(hrp, Chars(ws));
  }

  lemma {:induction false} DecodeEncoded(hrp: string, hw: seq<Word>, data: seq<Word>)
    requires hrp != "" && AllClean(hrp)
    ensures Decode(hrp, hw, Encode(hrp, hw, data)) == Some(data)
    ensures |Encode(hrp, hw, data)| == |hrp| + |data| + 7
  {
    ValidWithChecksum(hw, data);
    DecodeChars(hrp, hw, data + Checksum(hw + data));
  }

  lemma {:induction false} ValidWithChecksum(hw: seq<Word>, data: seq<Word>)
    ensures var c := Checksum(hw + data);
      Polymod(hw + (data + c)) == BECH32M_CONST && (data + c)[..|data + c| - 6] == data
  {
    var c := Checksum(hw + data);
    assert hw + (data + c) == (hw + data) + c;
    ChecksumExactly(hw + data, c);
  }

  lemma {:induction false} SplitAtOne(hrp: string, tail: string)
    requires '1' !in tail
    ensures var s := hrp + "1" + tail;
      LastOne(s) == |hrp| && s[..|hrp|] == hrp && s[|hrp| + 1..] == tail
  {
    var s, one := hrp + "1" + tail, |hrp|;
    forall i | one < i < |s| ensures s[i] != '1' {
      assert s[i] == tail[i - one - 1] && tail[i - one - 1] in tail;
    }
    assert s[one] == '1';
  }

  /** Every accepted string is, up to case, the one encoding of its data. */
  lemma {:induction false} EncodeDecoded(hrp: string, hw: seq<Word>, s: string)
    requires Decode(hrp, hw, s).Some?
    ensures Encode(hrp, hw, Decode(hrp, hw, s).value) == ToLower(s)
  {
    EncodeDecodedLower(hrp, hw, ToLower(s));
  }

  function UpperChar(c: char): char
  {
    if 'a' <= c <= 'z' then c - 32 as char else c
  }

  function ToUpper(s: string): (r: string)
    ensures |r| == |s| && forall i :: 0 <= i < |s| ==> r[i] == UpperChar(s[i])
  {
    seq(|s|, i requires 0 <= i < |s| => UpperChar(s[i]))
  }

  /** The accepted strings are the encodings, all in lower case or all in upper case. */
  lemma {:induction false} AcceptsExactly(hrp: string, hw: seq<Word>, s: string, data: seq<Word>)
    requires hrp != "" && AllClean(hrp)
    ensures Decode(hrp, hw, s) == Some(data)
       <==> s == Encode(hrp, hw, data) || s == ToUpper(Encode(hrp, hw, data))
  {
    var e := Encode(hrp, hw, data);
    DecodeEncoded(hrp, hw, data);
    EncodingIsClean(hrp, hw, data);
    if s == ToUpper(e) {
      UpperIsAccepted(e);
      CleanIsLower(e);
    }
    if Decode(hrp, hw, s) == Some(data) {
      EncodeDecoded(hrp, hw, s);
      OneCase(s);
    }
  }

  lemma {:induction false} EncodingIsClean(hrp: string, hw: seq<Word>, data: seq<Word>)
    requires AllClean(hrp)
    ensures AllClean(Encode(hrp, hw, data))
  {
    var tail := Chars(data + Checksum(hw + data));
    WordsOfChars(data + Checksum(hw + data));
    CleanAppends(hrp + "1", tail);
  }

  lemma {:induction false} CleanAppends(a: string, b: string)
    requires AllClean(a) && AllClean(b)
    ensures AllClean(a + b)
  {
  }

  lemma {:induction false} UpperIsAccepted(e: string)
    requires AllClean(e)
    ensures var u := ToUpper(e); PlainAscii(u) && !MixedCase(u) && ToLower(u) == e
  {
    var u := ToUpper(e);
    forall c | c in u ensures 33 <= c as int <= 126 && !('a' <= c <= 'z') {
      var i :| 0 <= i < |u| && u[i] == c;
      assert Clean(e[i]);
    }
    forall i | 0 <= i < |e| ensures ToLower(u)[i] == e[i] {
      assert Clean(e[i]);
    }
  }

  /** A string of one case is its lower-case form, or the upper case of it. */
  lemma {:induction false} OneCase(s: string)
    requires !MixedCase(s)
    ensures s == ToLower(s) || s == ToUpper(ToLower(s))
  {
    if c :| c in s && 'a' <= c <= 'z' {
      assert forall i :: 0 <= i < |s| ==> s[i] in s;
    } else {
      assert forall i :: 0 <= i < |s| ==> s[i] in s;
    }
  }

  lemma {:induction false} EncodeDecodedLower(hrp: string, hw: seq<Word>, l: string)
    requires DecodeLower(hrp, hw, l).Some?
    ensures Encode(hrp, hw, DecodeLower(hrp, hw, l).value) == l
  {
    var ws := AcceptedParts(hrp, hw, l);
    ChecksumFollows(hw, ws);
  }

  /** An accepted string is the human-readable part, a '1' and the characters of valid words. */
  lemma {:induction false} AcceptedParts(hrp: string, hw: seq<Word>, l: string) returns (ws: seq<Word>)
    requires DecodeLower(hrp, hw, l).Some?
    ensures l == hrp + "1" + Chars(ws)
    ensures |ws| >= 6 && Polymod(hw + ws) == BECH32M_CONST && DecodeLower(hrp, hw, l) == Some(ws[..|ws| - 6])
  {
    var one := LastOne(l);
    var tail := l[one + 1..];
    ws := Words(tail).value;
    CharsOfWords(tail);
    assert l == l[..one] + [l[one]] + tail;
  }

  /** Valid words are data followed by its checksum. */
  lemma {:induction false} ChecksumFollows(hw: seq<Word>, ws: seq<Word>)
    requires |ws| >= 6 && Polymod(hw + ws) == BECH32M_CONST
    ensures var data := ws[..|ws| - 6]; data + Checksum(hw + data) == ws
  {
    var data, c := ws[..|ws| - 6], ws[|ws| - 6..];
    assert ws == data + c;
    assert hw + ws == (hw + data) + c;
    ChecksumExactly(hw + data, c);
  }

  // ---------------------------------------------------------------------------
  // Regrouping bits: ConvertBits
  // ---------------------------------------------------------------------------

  /** `k` bits, highest first. */
  function ToBits(n: nat, k: nat): (b: seq<bool>)
    ensures |b| == k
  {
    if k == 0 then [] else ToBits(n / 2, k - 1) + [n % 2 == 1]
  }

  function FromBits(b: seq<bool>): (n: nat)
    ensures n < Pow2(|b|)
  {
    if b == [] then 0 else 2 * FromBits(b[..|b| - 1]) + (if b[|b| - 1] then 1 else 0)
  }

  lemma {:induction false} FromToBits(n: nat, k: nat)
    requires n < Pow2(k)
    ensures FromBits(ToBits(n, k)) == n
  {
    if k > 0 {
      FromToBits(n / 2, k - 1);
      assert ToBits(n, k)[..k - 1] == ToBits(n / 2, k - 1);
    }
  }

  lemma {:induction false} ToFromBits(b: seq<bool>)
    ensures ToBits(FromBits(b), |b|) == b
  {
    if b != [] {
      ToFromBits(b[..|b| - 1]);
    }
  }

  function WordBits(w: Word): (b: seq<bool>)
    ensures |b| == 5
  {
    ToBits(w, 5)
  }

  function BitsWord(b: seq<bool>): (w: Word)
    requires |b| == 5
  {
    Pow2Values();
    FromBits(b)
  }

  lemma {:induction false} WordBitsInverse(w: Word, b: seq<bool>)
    requires |b| == 5
    ensures BitsWord(WordBits(w)) == w && WordBits(BitsWord(b)) == b
  {
    Pow2Values();
    FromToBits(w, 5);
    ToFromBits(b);
  }

  function ByteBits(x: Byte): (b: seq<bool>)
    ensures |b| == 8
  {
    ToBits(x, 8)
  }

  function BitsByte(b: seq<bool>): (x: Byte)
    requires |b| == 8
  {
    Pow2Values();
    FromBits(b)
  }

  lemma {:induction false} ByteBitsInverse(x: Byte, b: seq<bool>)
    requires |b| == 8
    ensures BitsByte(ByteBits(x)) == x && ByteBits(BitsByte(b)) == b
  {
    Pow2Values();
    FromToBits(x, 8);
    ToFromBits(b);
  }

  function BytesToBits(bs: seq<Byte>): (b: seq<bool>)
    ensures |b| == 8 * |bs|
  {
    if bs == [] then [] else ByteBits(bs[0]) + BytesToBits(bs[1..])
  }

  function BitsToBytes(b: seq<bool>): (bs: seq<Byte>)
    requires |b| % 8 == 0
    ensures 8 * |bs| == |b|
  {
    if b == [] then [] else [BitsByte(b[..8])] + BitsToBytes(b[8..])
  }

  function WordsToBits(ws: seq<Word>): (b: seq<bool>)
    ensures |b| == 5 * |ws|
  {
    if ws == [] then [] else WordBits(ws[0]) + WordsToBits(ws[1..])
  }

  function BitsToWords(b: seq<bool>): (ws: seq<Word>)
    requires |b| % 5 == 0
    ensures 5 * |ws| == |b|
  {
    if b == [] then [] else [BitsWord(b[..5])] + BitsToWords(b[5..])
  }

  lemma {:induction false} BytesRegroup(bs: seq<Byte>)
    ensures BitsToBytes(BytesToBits(bs)) == bs
  {
    if bs != [] {
      var b := BytesToBits(bs);
      assert b[..8] == ByteBits(bs[0]) && b[8..] == BytesToBits(bs[1..]);
      ByteBitsInverse(bs[0], b[..8]);
      BytesRegroup(bs[1..]);
    }
  }

  lemma {:induction false} BitsRegroupBytes(b: seq<bool>)
    requires |b| % 8 == 0
    ensures BytesToBits(BitsToBytes(b)) == b
  {
    if b != [] {
      ByteBitsInverse(0, b[..8]);
      BitsRegroupBytes(b[8..]);
      var bs := BitsToBytes(b);
      assert bs[1..] == BitsToBytes(b[8..]);
      assert b == b[..8] + b[8..];
    }
  }

  lemma {:induction false} WordsRegroup(ws: seq<Word>)
    ensures BitsToWords(WordsToBits(ws)) == ws
  {
    if ws != [] {
      var b := WordsToBits(ws);
      assert b[..5] == WordBits(ws[0]) && b[5..] == WordsToBits(ws[1..]);
      WordBitsInverse(ws[0], b[..5]);
      WordsRegroup(ws[1..]);
    }
  }

  lemma {:induction false} BitsRegroupWords(b: seq<bool>)
    requires |b| % 5 == 0
    ensures WordsToBits(BitsToWords(b)) == b
  {
    if b != [] {
      WordBitsInverse(0, b[..5]);
      BitsRegroupWords(b[5..]);
      var ws := BitsToWords(b);
      assert ws[1..] == BitsToWords(b[5..]);
      assert b == b[..5] + b[5..];
    }
  }

  /** The zero bits that complete the last word. */
  function Padding(n: nat): (p: seq<bool>)
    ensures |p| < 5 && (n + |p|) % 5 == 0
    ensures forall i :: 0 <= i < |p| ==> !p[i]
  {
    match n % 5
    case 0 => []
    case 1 => [false, false, false, false]
    case 2 => [false, false, false]
    case 3 => [false, false]
    case _ => [false]
  }

  function BytesToWords(bs: seq<Byte>): seq<Word>
  {
    var b := BytesToBits(bs);
    BitsToWords(b + Padding(|b|))
  }

  /** The bits that fill whole bytes. */
  function WholeBytes(n: nat): (m: nat)
    ensures m % 8 == 0 && m <= n < m + 8
  {
    n - n % 8
  }

  lemma {:induction false} WholeBytesUnique(n: nat, k: nat)
    requires 8 * k <= n < 8 * k + 8
    ensures WholeBytes(n) == 8 * k
  {
    var m := WholeBytes(n);
    assert m == 8 * (m / 8);
  }

  /** Without padding: an incomplete group must be short and zero. */
  function WordsToBytes(ws: seq<Word>): Option<seq<Byte>>
  {
    var b := WordsToBits(ws);
    var n := WholeBytes(|b|);
    if |b| - n > 4 || true in b[n..] then None else Some(BitsToBytes(b[..n]))
  }

  lemma {:induction false} BytesThroughWords(bs: seq<Byte>)
    ensures WordsToBytes(BytesToWords(bs)) == Some(bs)
    ensures 8 * |bs| <= 5 * |BytesToWords(bs)| < 8 * |bs| + 5
  {
    var b := BytesToBits(bs);
    var p := Padding(|b|);
    BitsRegroupWords(b + p);
    WholeBytesUnique(|b + p|, |bs|);
    assert (b + p)[..|b|] == b && (b + p)[|b|..] == p;
    BytesRegroup(bs);
  }

  /** Whole bytes, followed by the padding they need, are the bits they came from. */
  lemma {:induction false} WholePadded(b: seq<bool>)
    requires |b| % 5 == 0 && |b| < WholeBytes(|b|) + 5 && true !in b[WholeBytes(|b|)..]
    ensures var bytes := BitsToBytes(b[..WholeBytes(|b|)]);
      BytesToBits(bytes) + Padding(|BytesToBits(bytes)|) == b
  {
    var n := WholeBytes(|b|);
    BitsRegroupBytes(b[..n]);
    PaddingUnique(n, b[n..]);
  }

  lemma {:induction false} WordsThroughBytes(ws: seq<Word>)
    requires WordsToBytes(ws).Some?
    ensures BytesToWords(WordsToBytes(ws).value) == ws
  {
    var b := WordsToBits(ws);
    var bs := BitsToBytes(b[..WholeBytes(|b|)]);
    WholePadded(b);
    PaddedWords(bs, b);
    assert WordsToBytes(ws) == Some(bs);
    WordsRegroup(ws);
  }

  lemma {:induction false} PaddedWords(bs: seq<Byte>, b: seq<bool>)
    requires |b| % 5 == 0 && BytesToBits(bs) + Padding(|BytesToBits(bs)|) == b
    ensures BytesToWords(bs) == BitsToWords(b)
  {
  }

  lemma {:induction false} PadLength(n: nat, i: nat, j: nat)
    requires i < 5 && j < 5 && (n + i) % 5 == 0 && (n + j) % 5 == 0
    ensures i == j
  {
    assert n + i == 5 * ((n + i) / 5) && n + j == 5 * ((n + j) / 5);
    assert i - j == 5 * ((n + i) / 5 - (n + j) / 5);
  }

  lemma {:induction false} PaddingUnique(n: nat, p: seq<bool>)
    requires |p| < 5 && (n + |p|) % 5 == 0 && true !in p
    ensures p == Padding(n)
  {
    var q := Padding(n);
    PadLength(n, |p|, |q|);
    forall i | 0 <= i < |p| ensures p[i] == q[i] {
      assert p[i] in p;
    }
  }

  // ---------------------------------------------------------------------------
  // What regrouping means
  // ---------------------------------------------------------------------------

  lemma {:induction false} BitsSnoc(a: seq<bool>, x: bool)
    ensures FromBits(a + [x]) == 2 * FromBits(a) + if x then 1 else 0
  {
    assert (a + [x])[..|a|] == a;
  }

  lemma {:induction false} BitsAppend(a: seq<bool>, b: seq<bool>)
    ensures FromBits(a + b) == FromBits(a) * Pow2(|b|) + FromBits(b)
  {
    if b == [] {
      assert a + b == a;
    } else {
      var init, x := b[..|b| - 1], b[|b| - 1];
      BitsAppend(a, init);
      BitsSnoc(a + init, x);
      assert a + b == a + init + [x];
      TwiceThrough(FromBits(a), Pow2(|init|));
    }
  }

  lemma {:induction false} TwiceThrough(n: nat, p: nat)
    ensures n * (2 * p) == 2 * (n * p)
  {
  }

  lemma {:induction false} BytesToBitsAppend(bs: seq<Byte>, x: Byte)
    ensures BytesToBits(bs + [x]) == BytesToBits(bs) + ByteBits(x)
  {
    if bs == [] {
      assert [] + [x] == [x] && [x][1..] == [];
      assert BytesToBits([x]) == ByteBits(x) + BytesToBits([]);
    } else {
      BytesToBitsAppend(bs[1..], x);
      assert (bs + [x])[1..] == bs[1..] + [x];
    }
  }

  lemma {:induction false} WordsToBitsAppend(ws: seq<Word>, w: Word)
    ensures WordsToBits(ws + [w]) == WordsToBits(ws) + WordBits(w)
  {
    if ws == [] {
      assert [] + [w] == [w] && [w][1..] == [];
      assert WordsToBits([w]) == WordBits(w) + WordsToBits([]);
    } else {
      WordsToBitsAppend(ws[1..], w);
      assert (ws + [w])[1..] == ws[1..] + [w];
    }
  }

  lemma {:induction false} AppendedNumber(b: seq<bool>, x: nat, k: nat)
    requires (k == 5 && x < 32) || (k == 8 && x < 256)
    ensures FromBits(b + ToBits(x, k)) == FromBits(b) * (if k == 5 then 32 else 256) + x
  {
    Pow2Values();
    BitsAppend(b, ToBits(x, k));
    FromToBits(x, k);
  }

  /** The bits of bytes, and of words, are those of the number they denote. */
  lemma {:induction false} BytesValue(bs: seq<Byte>)
    ensures FromBits(BytesToBits(bs)) == FromBE(bs)
  {
    if bs != [] {
      var n := |bs| - 1;
      BytesValue(bs[..n]);
      assert bs == bs[..n] + [bs[n]];
      BytesToBitsAppend(bs[..n], bs[n]);
      AppendedNumber(BytesToBits(bs[..n]), bs[n], 8);
    }
  }

  lemma {:induction false} WordsValue(ws: seq<Word>)
    ensures FromBits(WordsToBits(ws)) == Pack(ws)
  {
    if ws != [] {
      var n := |ws| - 1;
      WordsValue(ws[..n]);
      assert ws == ws[..n] + [ws[n]];
      WordsToBitsAppend(ws[..n], ws[n]);
      AppendedNumber(WordsToBits(ws[..n]), ws[n], 5);
    }
  }

  lemma {:induction false} ZeroBits(b: seq<bool>)
    requires forall i :: 0 <= i < |b| ==> !b[i]
    ensures FromBits(b) == 0
  {
    if b != [] {
      ZeroBits(b[..|b| - 1]);
    }
  }

  /** Regrouped bytes denote the same big-endian number, shifted by fewer than five zero bits. */
  lemma {:induction false} RegroupKeepsValue(bs: seq<Byte>)
    ensures var pad := 5 * |BytesToWords(bs)| - 8 * |bs|;
      0 <= pad < 5 && Pack(BytesToWords(bs)) == FromBE(bs) * Pow2(pad)
  {
    var b := BytesToBits(bs);
    var p := Padding(|b|);
    BitsRegroupWords(b + p);
    WordsValue(BytesToWords(bs));
    BitsAppend(b, p);
    BytesValue(bs);
    ZeroBits(p);
  }
}
