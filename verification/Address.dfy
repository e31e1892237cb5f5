/** The "0zk" address codec: railgunnote/address.go. */
module Address {
  import opened Bytes
  import opened Wrappers
  import Bech32

  const HRP := "0zk"

  /** The bech32 expansion of "0zk": high bits, a zero, low bits. */
  const HRP_WORDS: seq<Bech32.Word> := [1, 3, 3, 0, 16, 26, 11]

  const ADDRESS_VERSION: Byte := 1
  const ADDRESS_LENGTH: nat := 127
  const KEY_SIZE: nat := 32

  /** "railgun" and a trailing zero byte. */
  const NETWORK_MASK: seq<Byte> := [0x72, 0x61, 0x69, 0x6c, 0x67, 0x75, 0x6e, 0x00]

  /** The network id of a chain-agnostic address, before masking. */
  const ALL_CHAINS: seq<Byte> := [255, 255, 255, 255, 255, 255, 255, 255]

  datatype Chain = Chain(chainType: Byte, id: nat)

  /** `chain` is None for a chain-agnostic address. */
  datatype AddressData = AddressData(masterPublicKey: Option<int>, viewingPublicKey: seq<Byte>, chain: Option<Chain>)

  // ---------------------------------------------------------------------------
  // Network id
  // ---------------------------------------------------------------------------

  function NetworkID(chain: Option<Chain>): (nid: Option<seq<Byte>>)
    ensures nid.Some? ==> |nid.value| == 8
  {
    match chain
    case None => Some(ALL_CHAINS)
    case Some(c) => if !Fits(c.id, 7) then None else Some([c.chainType] + ToBE(c.id, 7))
  }

  function NetworkIDToChain(nid: seq<Byte>): Option<Chain>
    requires |nid| == 8
  {
    if nid == ALL_CHAINS then None else Some(Chain(nid[0], FromBE(nid[1..])))
  }

  function XorByte(a: Byte, b: Byte): Byte
  {
    XorFits(a, b, 1);
    Xor(a, b)
  }

  function Masked(nid: seq<Byte>): (r: seq<Byte>)
    requires |nid| == 8
    ensures |r| == 8
  {
    seq(8, i requires 0 <= i < 8 => XorByte(nid[i], NETWORK_MASK[i]))
  }

  /** Masking twice is the identity, so one mask serves both directions. */
  lemma {:induction false} MaskedTwice(nid: seq<Byte>)
    requires |nid| == 8
    ensures Masked(Masked(nid)) == nid
  {
    forall i | 0 <= i < 8 ensures Masked(Masked(nid))[i] == nid[i] {
      XorCancels(nid[i], NETWORK_MASK[i]);
    }
  }

  /** The one chain whose packed id is the all-chains sentinel. */
  predicate MeetsSentinel(c: Chain)
  {
    c.chainType == 255 && c.id == 0xff_ffff_ffff_ffff
  }

  lemma {:induction false} SentinelExactly(c: Chain)
    requires Fits(c.id, 7)
    ensures NetworkID(Some(c)).value == ALL_CHAINS <==> MeetsSentinel(c)
  {
    var top: seq<Byte> := [255, 255, 255, 255, 255, 255, 255];
    assert ALL_CHAINS == [255] + top;
    AllOnes(top);
    SevenBytes();
    ToBEFromBE(top);
    var nid := NetworkID(Some(c)).value;
    assert nid[1..] == ToBE(c.id, 7);
    if nid == ALL_CHAINS {
      assert FromBE(nid[1..]) == FromBE(top);
    }
  }

  lemma {:induction false} AllOnes(bs: seq<Byte>)
    requires forall i :: 0 <= i < |bs| ==> bs[i] == 255
    ensures FromBE(bs) == Pow256(|bs|) - 1
  {
    if bs != [] {
      AllOnes(bs[..|bs| - 1]);
    }
  }

  lemma {:induction false} SevenBytes()
    ensures Pow256(7) == 0x100_0000_0000_0000
  {
  }

  /** Packing then unpacking a chain loses it only at the sentinel. */
  lemma {:induction false} ChainRoundTrip(chain: Option<Chain>)
    requires NetworkID(chain).Some?
    ensures NetworkIDToChain(NetworkID(chain).value)
         == if chain.Some? && MeetsSentinel(chain.value) then None else chain
  {
    if chain.Some? {
      SentinelExactly(chain.value);
      var nid := NetworkID(chain).value;
      assert nid[1..] == ToBE(chain.value.id, 7);
    }
  }

  lemma {:induction false} NetworkIDRoundTrip(nid: seq<Byte>)
    requires |nid| == 8
    ensures NetworkID(NetworkIDToChain(nid)) == Some(nid)
  {
    if nid != ALL_CHAINS {
      ToBEFromBE(nid[1..]);
      assert nid == [nid[0]] + nid[1..];
    }
  }

  // ---------------------------------------------------------------------------
  // The codec
  // ---------------------------------------------------------------------------

  /** What the encoder accepts. */
  predicate Encodable(a: AddressData)
  {
    && a.masterPublicKey.Some? && a.masterPublicKey.value >= 0 && Fits(a.masterPublicKey.value, 32)
    && |a.viewingPublicKey| == KEY_SIZE
    && (a.chain.Some? ==> Fits(a.chain.value.id, 7))
  }

  /** version, master public key, masked network id, viewing public key. */
  function Payload(a: AddressData): (buf: seq<Byte>)
    requires Encodable(a)
    ensures |buf| == 73
  {
    [ADDRESS_VERSION] + ToBE(a.masterPublicKey.value, 32) + Masked(NetworkID(a.chain).value) + a.viewingPublicKey
  }

  function EncodeAddress(a: AddressData): Option<string>
  {
    if Encodable(a) then Some(Bech32.Encode(HRP, HRP_WORDS, Bech32.BytesToWords(Payload(a)))) else None
  }

  function FromPayload(buf: seq<Byte>): AddressData
    requires |buf| == 73
  {
    AddressData(Some(FromBE(buf[1..33])), buf[41..73], NetworkIDToChain(Masked(buf[33..41])))
  }

  function DecodeAddress(s: string): Option<AddressData>
  {
    match Bech32.Decode(HRP, HRP_WORDS, s)
    case None => None
    case Some(words) =>
      match Bech32.WordsToBytes(words)
      case None => None
      case Some(buf) => if |buf| != 73 || buf[0] != ADDRESS_VERSION then None else Some(FromPayload(buf))
  }

  predicate IsRailgunAddress(s: string)
  {
    HRP + "1" <= s
  }

  lemma {:induction false} BufferParts(version: Byte, mpk: seq<Byte>, nid: seq<Byte>, pub: seq<Byte>)
    requires |mpk| == 32 && |nid| == 8 && |pub| == 32
    ensures var buf := [version] + mpk + nid + pub;
      |buf| == 73 && buf[0] == version && buf[1..33] == mpk && buf[33..41] == nid && buf[41..73] == pub
  {
  }

  lemma {:induction false} PayloadRoundTrip(a: AddressData)
    requires Encodable(a)
    ensures Payload(a)[0] == ADDRESS_VERSION
    ensures FromPayload(Payload(a))
         == if a.chain.Some? && MeetsSentinel(a.chain.value) then a.(chain := None) else a
  {
    var nid := NetworkID(a.chain).value;
    BufferParts(ADDRESS_VERSION, ToBE(a.masterPublicKey.value, 32), Masked(nid), a.viewingPublicKey);
    MaskedTwice(nid);
    ChainRoundTrip(a.chain);
  }

  lemma {:induction false} FromPayloadRoundTrip(buf: seq<Byte>)
    requires |buf| == 73 && buf[0] == ADDRESS_VERSION
    ensures Encodable(FromPayload(buf)) && Payload(FromPayload(buf)) == buf
  {
    ToBEFromBE(buf[1..33]);
    var nid := Masked(buf[33..41]);
    NetworkIDRoundTrip(nid);
    MaskedTwice(buf[33..41]);
    assert buf == [buf[0]] + buf[1..33] + buf[33..41] + buf[41..73];
  }

  /** Every encoded address is 127 characters, is recognised as an address, and decodes to
    * what was encoded, except that the sentinel chain reads back as "all chains". */
  lemma {:induction false} DecodeOfEncode(a: AddressData)
    requires Encodable(a)
    ensures var s := EncodeAddress(a).value;
      && |s| == ADDRESS_LENGTH && IsRailgunAddress(s)
      && DecodeAddress(s) == Some(if a.chain.Some? && MeetsSentinel(a.chain.value) then a.(chain := None) else a)
  {
    var words := Bech32.BytesToWords(Payload(a));
    Bech32.BytesThroughWords(Payload(a));
    Bech32.DecodeEncoded(HRP, HRP_WORDS, words);
    PayloadRoundTrip(a);
    PrefixOfEncode(words);
  }

  lemma {:induction false} HrpExpanded()
    ensures Bech32.Expand(HRP) == HRP_WORDS
  {
  }

  lemma {:induction false} PrefixOfEncode(words: seq<Bech32.Word>)
    ensures IsRailgunAddress(Bech32.Encode(HRP, HRP_WORDS, words))
  {
  }

  /** The address codec loses nothing exactly when the chain is not the sentinel. */
  lemma {:induction false} AddressRoundTripExactly(a: AddressData)
    ensures EncodeAddress(a).Some? <==> Encodable(a)
    ensures Encodable(a) ==>
      (DecodeAddress(EncodeAddress(a).value) == Some(a) <==> !(a.chain.Some? && MeetsSentinel(a.chain.value)))
  {
    if Encodable(a) {
      DecodeOfEncode(a);
    }
  }

  /** Every accepted string is the encoding of what it decodes to, up to case. */
  lemma {:induction false} EncodeOfDecode(s: string)
    requires DecodeAddress(s).Some?
    ensures EncodeAddress(DecodeAddress(s).value) == Some(Bech32.ToLower(s))
    ensures |s| == ADDRESS_LENGTH
  {
    var words := Bech32.Decode(HRP, HRP_WORDS, s).value;
    var buf := Bech32.WordsToBytes(words).value;
    FromPayloadRoundTrip(buf);
    Bech32.WordsThroughBytes(words);
    Bech32.EncodeDecoded(HRP, HRP_WORDS, s);
    DecodeOfEncode(FromPayload(buf));
  }

  /** The accepted addresses are the encodings, all in lower case or all in upper case. */
  lemma {:induction false} AcceptedExactly(s: string, a: AddressData)
    requires Encodable(a) && !(a.chain.Some? && MeetsSentinel(a.chain.value))
    ensures DecodeAddress(s) == Some(a)
       <==> s == EncodeAddress(a).value || s == Bech32.ToUpper(EncodeAddress(a).value)
  {
    var words := Bech32.BytesToWords(Payload(a));
    Bech32.BytesThroughWords(Payload(a));
    PayloadRoundTrip(a);
    Bech32.AcceptsExactly(HRP, HRP_WORDS, s, words);
    if DecodeAddress(s) == Some(a) {
      EncodeOfDecode(s);
      Bech32.OneCase(s);
    }
  }

  /** Byte by byte: version 1, the master key big-endian, the network id under "railgun" and a
    * zero, and the viewing key. */
  lemma {:induction false} PayloadLayout(a: AddressData, i: nat)
    requires Encodable(a) && i < 8
    ensures var buf := Payload(a);
      && buf[0] == 1 && FromBE(buf[1..33]) == a.masterPublicKey.value && buf[41..73] == a.viewingPublicKey
      && buf[33 + i] == Xor(NetworkID(a.chain).value[i], if i < 7 then "railgun"[i] as nat else 0)
  {
    var nid := NetworkID(a.chain).value;
    BufferParts(ADDRESS_VERSION, ToBE(a.masterPublicKey.value, 32), Masked(nid), a.viewingPublicKey);
    assert Payload(a)[33..41][i] == Payload(a)[33 + i];
  }

  // ---------------------------------------------------------------------------
  // The implementation
  // ---------------------------------------------------------------------------

  lemma {:induction false} ByteOfBE(n: nat, k: nat, i: nat)
    requires Fits(n, k) && i < k
    ensures ToBE(n, k)[k - 1 - i] == ShiftRight(n, 8 * i) % 256
  {
    if i > 0 {
      ByteOfBE(n / 256, k - 1, i - 1);
      ShiftByte(n, 8 * (i - 1));
    }
  }

  lemma {:induction false} ShiftTwice(n: nat, k: nat)
    ensures ShiftRight(n, k + 2) == ShiftRight(n / 4, k)
  {
    assert ShiftRight(n, k + 2) == ShiftRight(n / 2, k + 1) == ShiftRight(n / 2 / 2, k);
  }

  lemma {:induction false} ShiftByte(n: nat, k: nat)
    ensures ShiftRight(n, k + 8) == ShiftRight(n / 256, k)
  {
    ShiftTwice(n, k + 6);
    ShiftTwice(n / 4, k + 4);
    ShiftTwice(n / 16, k + 2);
    ShiftTwice(n / 64, k);
  }

  method ChainToNetworkID(chain: Option<Chain>) returns (nid: Option<seq<Byte>>)
    ensures nid == NetworkID(chain)
  {
    if chain.None? {
      return Some(ALL_CHAINS);
    }
    var c := chain.value;
    if !Fits(c.id, 7) {
      return None;
    }
    var out := new Byte[8];
    out[0] := c.chainType;
    for i := 0 to 7
      invariant out[0] == c.chainType
      invariant forall j :: 8 - i <= j < 8 ==> out[j] == ToBE(c.id, 7)[j - 1]
    {
      ByteOfBE(c.id, 7, i);
      out[7 - i] := ShiftRight(c.id, 8 * i) % 256;
    }
    assert out[..] == [c.chainType] + ToBE(c.id, 7);
    nid := Some(out[..]);
  }

  method UnpackNetworkID(nid: seq<Byte>) returns (chain: Option<Chain>)
    requires |nid| == 8
    ensures chain == NetworkIDToChain(nid)
  {
    if nid == ALL_CHAINS {
      return None;
    }
    var id: nat := 0;
    ghost var tail := nid[1..];
    for i := 0 to 7
      invariant id == FromBE(tail[..i])
    {
      assert tail[..i + 1][..i] == tail[..i];
      id := 256 * id + nid[i + 1];
    }
    assert tail[..7] == tail;
    chain := Some(Chain(nid[0], id));
  }

  method XorNetworkID(nid: seq<Byte>) returns (r: seq<Byte>)
    requires |nid| == 8
    ensures r == Masked(nid)
  {
    var out := new Byte[8];
    for i := 0 to 8
      invariant forall j :: 0 <= j < i ==> out[j] == Masked(nid)[j]
    {
      out[i] := XorByte(nid[i], NETWORK_MASK[i]);
    }
    r := out[..];
  }

  /** Fills the 73-byte buffer field by field, then encodes it. */
  method EncodeRailgunAddress(a: AddressData) returns (s: Option<string>)
    ensures s == EncodeAddress(a)
  {
    if a.masterPublicKey.None? || a.masterPublicKey.value < 0 || !Fits(a.masterPublicKey.value, 32) {
      return None;
    }
    if |a.viewingPublicKey| != KEY_SIZE {
      return None;
    }
    var nid := ChainToNetworkID(a.chain);
    if nid.None? {
      return None;
    }
    var xored := XorNetworkID(nid.value);
    var mpk := ToBE(a.masterPublicKey.value, 32);
    var buf := new Byte[73];
    buf[0] := ADDRESS_VERSION;
    forall i | 0 <= i < 32 {
      buf[1 + i] := mpk[i];
    }
    forall i | 0 <= i < 8 {
      buf[33 + i] := xored[i];
    }
    forall i | 0 <= i < 32 {
      buf[41 + i] := a.viewingPublicKey[i];
    }
    assert buf[..] == Payload(a);
    s := Some(Bech32.Encode(HRP, HRP_WORDS, Bech32.BytesToWords(buf[..])));
  }
}
