/** Printing and parsing field elements: railgunnote/identity.go, railguntx/transaction.go.
  *
  * big.Int's SetString is modelled without the digit-separating underscores that Go
  * accepts when the base is detected from a prefix. */
module Fields {
  import opened Bytes
  import opened Wrappers

  // ---------------------------------------------------------------------------
  // Digits
  // ---------------------------------------------------------------------------

  predicate IsDigit(c: char)
  {
    '0' <= c <= '9' || 'a' <= c <= 'f'
  }

  function Digit(d: nat): (c: char)
    requires d < 16
    ensures IsDigit(c) && DigitValue(c) == Some(d)
    ensures c == '0' <==> d == 0
  {
    if d < 10 then '0' + d as char else 'a' + (d - 10) as char
  }

  function DigitValue(c: char): Option<nat>
  {
    if '0' <= c <= '9' then Some(c as nat - '0' as nat)
    else if 'a' <= c <= 'z' then Some(c as nat - 'a' as nat + 10)
    else if 'A' <= c <= 'Z' then Some(c as nat - 'A' as nat + 10)
    else None
  }

  /** Text(10): no leading zeros. */
  function Decimal(n: nat): (s: string)
    ensures s != []
    ensures forall c :: c in s ==> IsDigit(c)
  {
    if n < 10 then [Digit(n)] else Decimal(n / 10) + [Digit(n % 10)]
  }

  /** The value of a nonempty digit string; leading zeros allowed. */
  function ParseDigits(s: string, base: nat): Option<nat>
  {
    if s == [] then None
    else
      match DigitValue(s[|s| - 1])
      case None => None
      case Some(d) =>
        if d >= base then None
        else if |s| == 1 then Some(d)
        else match ParseDigits(s[..|s| - 1], base)
          case None => None
          case Some(n) => Some(n * base + d)
  }

  lemma {:induction false} DecimalParses(n: nat)
    ensures ParseDigits(Decimal(n), 10) == Some(n)
  {
    if n >= 10 {
      DecimalParses(n / 10);
      var s := Decimal(n);
      assert s[..|s| - 1] == Decimal(n / 10);
    }
  }

  /** A decimal print starts with '0' only when it is "0". */
  lemma {:induction false} NoLeadingZero(n: nat)
    requires n > 0
    ensures Decimal(n)[0] != '0'
  {
    if n >= 10 {
      NoLeadingZero(n / 10);
    }
  }

  // ---------------------------------------------------------------------------
  // Hex bytes
  // ---------------------------------------------------------------------------

  function HexByte(b: Byte): (s: string)
    ensures |s| == 2
  {
    [Digit(b / 16), Digit(b % 16)]
  }

  /** hex.EncodeToString. */
  function Hex(bs: seq<Byte>): (s: string)
    ensures |s| == 2 * |bs|
    ensures forall c :: c in s ==> IsDigit(c)
  {
    if bs == [] then [] else Hex(bs[..|bs| - 1]) + HexByte(bs[|bs| - 1])
  }

  /** hex.DecodeString. */
  function Unhex(s: string): Option<seq<Byte>>
  {
    if s == [] then Some([])
    else if |s| == 1 then None
    else
      var n := |s| - 2;
      match (Unhex(s[..n]), DigitValue(s[n]), DigitValue(s[n + 1]))
      case (Some(bs), Some(hi), Some(lo)) => if hi < 16 && lo < 16 then Some(bs + [16 * hi + lo]) else None
      case _ => None
  }

  lemma {:induction false} UnhexByte(t: string, bs: seq<Byte>, b: Byte)
    requires Unhex(t) == Some(bs)
    ensures Unhex(t + HexByte(b)) == Some(bs + [b])
  {
    var s := t + HexByte(b);
    assert s[..|s| - 2] == t;
    assert s[|s| - 2] == Digit(b / 16) && s[|s| - 1] == Digit(b % 16);
    assert 16 * (b / 16) + b % 16 == b;
  }

  lemma {:induction false} HexUnfolds(bs: seq<Byte>)
    requires bs != []
    ensures Hex(bs) == Hex(bs[..|bs| - 1]) + HexByte(bs[|bs| - 1])
  {
  }

  lemma {:induction false} UnhexHex(bs: seq<Byte>)
    ensures Unhex(Hex(bs)) == Some(bs)
  {
    if bs != [] {
      var init, b := bs[..|bs| - 1], bs[|bs| - 1];
      assert bs == init + [b];
      HexUnfolds(bs);
      UnhexHex(init);
      UnhexByte(Hex(init), init, b);
    }
  }

  /** Fixed-width hex denotes the big-endian value of its bytes. */
  lemma {:induction false} HexParses(bs: seq<Byte>)
    requires bs != []
    ensures ParseDigits(Hex(bs), 16) == Some(FromBE(bs))
  {
    var n, s := |bs| - 1, Hex(bs);
    assert s[..|s| - 1][..|s| - 2] == Hex(bs[..n]);
    assert s[|s| - 1] == Digit(bs[n] % 16) && s[..|s| - 1][|s| - 2] == Digit(bs[n] / 16);
    if n > 0 {
      HexParses(bs[..n]);
      assert |s[..|s| - 1]| > 1;
    } else {
      assert bs[..n] == [];
    }
  }

  /** railguntx's own hexEncode, filling a buffer two digits at a time. */
  method HexEncode(b: seq<Byte>) returns (s: string)
    ensures s == Hex(b)
  {
    var out := new char[2 * |b|];
    for i := 0 to |b|
      invariant out[..2 * i] == Hex(b[..i])
    {
      out[2 * i] := Digit(b[i] / 16);
      out[2 * i + 1] := Digit(b[i] % 16);
      assert b[..i + 1][..i] == b[..i];
      assert out[..2 * (i + 1)] == out[..2 * i] + HexByte(b[i]);
    }
    assert b[..|b|] == b;
    s := out[..];
  }

  // ---------------------------------------------------------------------------
  // Field elements
  // ---------------------------------------------------------------------------

  /** EncodeField: 0x and 64 hex digits. */
  function EncodeField(v: nat): string
    requires Fits(v, 32)
  {
    "0x" + Hex(ToBE(v, 32))
  }

  /** SetString in a fixed base: an optional sign, then digits. */
  function ParseSigned(s: string, base: nat): Option<int>
  {
    var digits := if s != [] && (s[0] == '-' || s[0] == '+') then s[1..] else s;
    match ParseDigits(digits, base)
    case None => None
    case Some(n) => Some(if s[0] == '-' then -(n as int) else n as int)
  }

  /** unicode.IsSpace. */
  predicate IsSpace(c: char)
  {
    var n := c as int;
    || n == 0x20 || 9 <= n <= 13 || n == 0x85 || n == 0xa0 || n == 0x1680 || 0x2000 <= n <= 0x200a
    || n == 0x2028 || n == 0x2029 || n == 0x202f || n == 0x205f || n == 0x3000
  }

  predicate Blank(s: string)
  {
    forall i :: 0 <= i < |s| ==> IsSpace(s[i])
  }

  function TrimLeft(s: string): string
  {
    if s != [] && IsSpace(s[0]) then TrimLeft(s[1..]) else s
  }

  function TrimRight(s: string): string
  {
    if s != [] && IsSpace(s[|s| - 1]) then TrimRight(s[..|s| - 1]) else s
  }

  predicate HasHexPrefix(s: string)
  {
    |s| >= 2 && s[0] == '0' && (s[1] == 'x' || s[1] == 'X')
  }

  /** DecodeField: hex after a 0x prefix, otherwise decimal. */
  function DecodeField(s: string): Option<int>
  {
    var t := TrimRight(TrimLeft(s));
    if HasHexPrefix(t) then ParseSigned(t[2..], 16) else ParseSigned(t, 10)
  }

  /** SetString with base 0: the base is read off the prefix, after the sign. */
  function ParsePrefixed(s: string): Option<int>
  {
    var signed := s != [] && (s[0] == '-' || s[0] == '+');
    var t := if signed then s[1..] else s;
    var n :=
      if |t| >= 2 && t[0] == '0' then
        if t[1] == 'x' || t[1] == 'X' then ParseDigits(t[2..], 16)
        else if t[1] == 'b' || t[1] == 'B' then ParseDigits(t[2..], 2)
        else if t[1] == 'o' || t[1] == 'O' then ParseDigits(t[2..], 8)
        else ParseDigits(t[1..], 8)
      else ParseDigits(t, 10);
    match n
    case None => None
    case Some(v) => Some(if signed && s[0] == '-' then -(v as int) else v as int)
  }

  /** The value decToBytes32 prints: prefix parse, then decimal, then zero. */
  function DecValue(s: string): nat
  {
    var v := match ParsePrefixed(s)
      case Some(v) => v
      case None => match ParseSigned(s, 10) case Some(v) => v case None => 0;
    if v < 0 then -v else v
  }

  function DecToBytes32(s: string): string
    requires Fits(DecValue(s), 32)
  {
    "0x" + Hex(ToBE(DecValue(s), 32))
  }

  // ---------------------------------------------------------------------------
  // Round trips
  // ---------------------------------------------------------------------------

  lemma {:induction false} Untrimmed(s: string)
    requires s != [] && IsDigit(s[0]) && IsDigit(s[|s| - 1])
    ensures TrimRight(TrimLeft(s)) == s
  {
  }

  lemma {:induction false} UnsignedParse(s: string, base: nat)
    requires s != [] && IsDigit(s[0])
    ensures ParseSigned(s, base) == match ParseDigits(s, base) case None => None case Some(n) => Some(n as int)
  {
  }

  /** Prefixed hex bytes read back as their big-endian value. */
  lemma {:induction false} DecodeHexBytes(bs: seq<Byte>)
    requires bs != []
    ensures DecodeField("0x" + Hex(bs)) == Some(FromBE(bs))
  {
    var h := Hex(bs);
    var s := "0x" + h;
    assert s[..2] == "0x" && s[2..] == h;
    assert s[0] == '0' && s[|s| - 1] == h[|h| - 1];
    assert h[|h| - 1] in h && h[0] in h;
    Untrimmed(s);
    HexParses(bs);
    UnsignedParse(h, 16);
  }

  /** DecodeField undoes EncodeField. */
  lemma {:induction false} DecodeEncoded(v: nat)
    requires Fits(v, 32)
    ensures DecodeField(EncodeField(v)) == Some(v)
  {
    DecodeHexBytes(ToBE(v, 32));
  }

  /** DecodeField undoes decimal printing. */
  lemma {:induction false} DecodeDecimal(v: nat)
    ensures DecodeField(Decimal(v)) == Some(v)
  {
    var s := Decimal(v);
    assert s[0] in s && s[|s| - 1] in s;
    Untrimmed(s);
    DecimalParses(v);
    UnsignedParse(s, 10);
    DecimalHasNoPrefix(v);
  }

  lemma {:induction false} DecimalHasNoPrefix(v: nat)
    ensures var s := Decimal(v); |s| >= 2 ==> s[0] != '0'
  {
    if v > 0 {
      NoLeadingZero(v);
    }
  }

  /** Decimal printing then decToBytes32 is EncodeField. */
  lemma {:induction false} DecimalToBytes32(v: nat)
    requires Fits(v, 32)
    ensures DecValue(Decimal(v)) == v
    ensures DecToBytes32(Decimal(v)) == EncodeField(v)
  {
    var s := Decimal(v);
    assert s[0] in s;
    DecimalHasNoPrefix(v);
    DecimalParses(v);
  }

  lemma {:induction false} PrefixedHexParses(bs: seq<Byte>)
    requires bs != []
    ensures ParsePrefixed("0x" + Hex(bs)) == Some(FromBE(bs))
  {
    var s := "0x" + Hex(bs);
    assert s[..2] == "0x" && s[2..] == Hex(bs);
    HexParses(bs);
  }

  /** decToBytes32 also accepts hex, so it is idempotent on what it prints. */
  lemma {:induction false} HexToBytes32(v: nat)
    requires Fits(v, 32)
    ensures DecValue(EncodeField(v)) == v
    ensures DecToBytes32(EncodeField(v)) == EncodeField(v)
  {
    PrefixedHexParses(ToBE(v, 32));
  }

  // ---------------------------------------------------------------------------
  // What is accepted
  // ---------------------------------------------------------------------------

  predicate InBase(c: char, base: nat)
  {
    DigitValue(c).Some? && DigitValue(c).value < base
  }

  /** A number is parsed exactly from one or more digits of its base. */
  lemma {:induction false} ParsesExactly(s: string, base: nat)
    ensures ParseDigits(s, base).Some? <==> s != "" && forall i :: 0 <= i < |s| ==> InBase(s[i], base)
  {
    if |s| > 1 {
      ParsesExactly(s[..|s| - 1], base);
      assert forall i :: 0 <= i < |s| - 1 ==> s[..|s| - 1][i] == s[i];
    }
  }

  /** Bytes are read exactly from pairs of hex digits of either case. */
  lemma {:induction false} UnhexExactly(s: string)
    ensures Unhex(s).Some? <==> |s| % 2 == 0 && forall i :: 0 <= i < |s| ==> InBase(s[i], 16)
  {
    if |s| > 1 {
      var init := s[..|s| - 2];
      UnhexExactly(init);
      assert forall i :: 0 <= i < |s| - 2 ==> init[i] == s[i];
    }
  }

  lemma {:induction false} BlankLeft(a: string, s: string)
    requires Blank(a)
    ensures TrimLeft(a + s) == TrimLeft(s)
  {
    if a == "" {
      assert a + s == s;
    } else {
      BlankLeft(a[1..], s);
      assert (a + s)[1..] == a[1..] + s;
    }
  }

  lemma {:induction false} BlankRight(s: string, b: string)
    requires Blank(b)
    ensures TrimRight(s + b) == TrimRight(s)
  {
    if b == "" {
      assert s + b == s;
    } else {
      var n := |b| - 1;
      BlankRight(s, b[..n]);
      assert (s + b)[..|s + b| - 1] == s + b[..n];
    }
  }

  lemma {:induction false} TrimLeftBefore(s: string, b: string)
    requires Blank(b)
    ensures TrimLeft(s + b) == if Blank(s) then "" else TrimLeft(s) + b
    ensures Blank(s) ==> TrimLeft(s) == ""
  {
    if s == "" {
      BlankLeft(b, "");
      assert s + b == b == b + "";
    } else if IsSpace(s[0]) {
      TrimLeftBefore(s[1..], b);
      assert (s + b)[1..] == s[1..] + b;
      assert Blank(s) <==> Blank(s[1..]) by {
        assert forall i :: 1 <= i < |s| ==> s[i] == s[1..][i - 1];
      }
    }
  }

  /** Blanks around a field element do not matter. */
  lemma {:induction false} BlanksIgnored(a: string, s: string, b: string)
    requires Blank(a) && Blank(b)
    ensures DecodeField(a + s + b) == DecodeField(s)
    ensures Blank(" ") && Blank("\t") && Blank("\r\n")
  {
    assert a + s + b == a + (s + b);
    BlankLeft(a, s + b);
    TrimLeftBefore(s, b);
    BlankRight(TrimLeft(s), b);
  }

  /** The prefix may be in either case. */
  lemma {:induction false} UpperPrefix(v: nat)
    requires Fits(v, 32)
    ensures DecodeField("0X" + Hex(ToBE(v, 32))) == Some(v)
  {
    var h := Hex(ToBE(v, 32));
    var s := "0X" + h;
    assert s[2..] == h && s[0] == '0' && s[|s| - 1] == h[|h| - 1];
    assert h[|h| - 1] in h && h[0] in h;
    Untrimmed(s);
    HexParses(ToBE(v, 32));
    UnsignedParse(h, 16);
  }

  /** A decimal may be negative. */
  lemma {:induction false} Negated(v: nat)
    ensures DecodeField("-" + Decimal(v)) == Some(-(v as int))
  {
    var d := Decimal(v);
    var s := "-" + d;
    assert s[1..] == d && s[|s| - 1] == d[|d| - 1] && d[|d| - 1] in d;
    assert TrimLeft(s) == s && TrimRight(s) == s;
    DecimalParses(v);
  }

  /** The base is read off the prefix, a leading zero meaning octal; what is no such number is
    * read as a decimal, and what is none either, as zero. */
  lemma {:induction false} PrefixesRead(b: string, o: string, d: string, x: string)
    requires b == "0b101" && o == "017" && d == "09" && x == "0zk"
    ensures DecValue(b) == 5 && DecValue(o) == 15 && DecValue(d) == 9 && DecValue(x) == 0
  {
    assert b[2..] == "101" && o[1..] == "17" && d[1..] == "9";
    assert "101"[..2] == "10" && "10"[..1] == "1" && "17"[..1] == "1";
    assert d[..1] == "0" && ParseDigits("9", 8).None?;
    assert ParseDigits(d, 10) == Some(9);
  }
}
