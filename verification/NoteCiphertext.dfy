/** Note encryption: railguncrypto's symmetric.go, blinding.go, ecdh.go and note_ciphertext.go.
  *
  * Curve, hashes and ciphers are parameters (`Primitives`) with the laws `Lawful` names. */
module NoteCiphertext {
  import opened Bytes
  import opened Wrappers

  /** The order of the Ed25519 prime-order subgroup. */
  const ED25519_L: nat := 0x1000000000000000000000000000000014def9dea2f79cd65812631a5cf5d3ed

  /** A group element, by any numbering of the subgroup. */
  type Point = p: nat | p < ED25519_L

  datatype Primitives = Primitives(
    mul: (nat, Point) -> Point,
    base: Point,
    compress: Point -> seq<Byte>,
    decompress: seq<Byte> -> Option<Point>,
    seedScalar: seq<Byte> -> nat,
    invert: nat -> nat,
    sha256: seq<Byte> -> seq<Byte>,
    sha512: seq<Byte> -> seq<Byte>,
    seal: (seq<Byte>, seq<Byte>, seq<Byte>) -> seq<Byte>,
    open: (seq<Byte>, seq<Byte>, seq<Byte>) -> Option<seq<Byte>>,
    stream: (seq<Byte>, seq<Byte>, seq<Byte>) -> seq<Byte>)

  /** Points compress to 32 bytes and back; one acts as the identity. */
  ghost predicate PointLaw(c: Primitives, p: Point)
  {
    |c.compress(p)| == 32 && c.decompress(c.compress(p)) == Some(p) && c.mul(1, p) == p
  }

  ghost predicate ActionLaw(c: Primitives, a: nat, b: nat, p: Point)
  {
    c.mul(a, c.mul(b, p)) == c.mul((a * b) % ED25519_L, p)
  }

  ghost predicate InverseLaw(c: Primitives, s: nat)
  {
    s % ED25519_L != 0 ==> (s * c.invert(s)) % ED25519_L == 1
  }

  ghost predicate DigestLaw(c: Primitives, x: seq<Byte>)
  {
    |c.sha256(x)| == 32
  }

  ghost predicate SealLaw(c: Primitives, key: seq<Byte>, iv: seq<Byte>, plaintext: seq<Byte>)
  {
    |c.seal(key, iv, plaintext)| == |plaintext| + 16 && c.open(key, iv, c.seal(key, iv, plaintext)) == Some(plaintext)
  }

  ghost predicate StreamLaw(c: Primitives, key: seq<Byte>, iv: seq<Byte>, x: seq<Byte>)
  {
    |c.stream(key, iv, x)| == |x| && c.stream(key, iv, c.stream(key, iv, x)) == x
  }

  /** A group of prime order with a commuting action, a 32-byte digest, and ciphers that open
    * what they seal. */
  ghost predicate Lawful(c: Primitives)
  {
    && (forall p: Point :: PointLaw(c, p))
    && (forall a: nat, b: nat, p: Point :: ActionLaw(c, a, b, p))
    && (forall s: nat :: InverseLaw(c, s))
    && (forall x: seq<Byte> :: DigestLaw(c, x))
    && (forall key: seq<Byte>, iv: seq<Byte>, plaintext: seq<Byte> :: SealLaw(c, key, iv, plaintext))
    && (forall key: seq<Byte>, iv: seq<Byte>, x: seq<Byte> :: StreamLaw(c, key, iv, x))
  }

  /** Scalars act commutatively. */
  lemma {:induction false} ActionsCommute(c: Primitives, a: nat, b: nat, p: Point)
    requires Lawful(c)
    ensures c.mul(a, c.mul(b, p)) == c.mul(b, c.mul(a, p))
  {
    assert ActionLaw(c, a, b, p) && ActionLaw(c, b, a, p);
    assert a * b == b * a;
  }

  // ---------------------------------------------------------------------------
  // Block framing
  // ---------------------------------------------------------------------------

  function Concat(blocks: seq<seq<Byte>>): seq<Byte>
  {
    if blocks == [] then [] else Concat(blocks[..|blocks| - 1]) + blocks[|blocks| - 1]
  }

  function Sizes(blocks: seq<seq<Byte>>): (sizes: seq<nat>)
    ensures |sizes| == |blocks|
    ensures forall i :: 0 <= i < |blocks| ==> sizes[i] == |blocks[i]|
  {
    if blocks == [] then [] else Sizes(blocks[..|blocks| - 1]) + [|blocks[|blocks| - 1]|]
  }

  function Total(sizes: seq<nat>): nat
  {
    if sizes == [] then 0 else Total(sizes[..|sizes| - 1]) + sizes[|sizes| - 1]
  }

  function Split(data: seq<Byte>, sizes: seq<nat>): (blocks: seq<seq<Byte>>)
    requires Total(sizes) <= |data|
    ensures |blocks| == |sizes|
  {
    if sizes == [] then []
    else
      var n := |sizes| - 1;
      var pos := Total(sizes[..n]);
      Split(data, sizes[..n]) + [Slice(data, pos, sizes[n])]
  }

  lemma {:induction false} TotalOfSizes(blocks: seq<seq<Byte>>)
    ensures Total(Sizes(blocks)) == |Concat(blocks)|
  {
    if blocks != [] {
      TotalOfSizes(blocks[..|blocks| - 1]);
    }
  }

  /** Splitting needs only the data up to the last block. */
  lemma {:induction false} SplitPrefix(data: seq<Byte>, more: seq<Byte>, sizes: seq<nat>)
    requires Total(sizes) <= |data|
    ensures Split(data + more, sizes) == Split(data, sizes)
  {
    if sizes != [] {
      var n := |sizes| - 1;
      SplitPrefix(data, more, sizes[..n]);
      var pos := Total(sizes[..n]);
      assert (data + more)[pos..pos + sizes[n]] == data[pos..pos + sizes[n]];
    }
  }

  /** One more block is cut off the end. */
  lemma {:induction false} SplitLast(head: seq<Byte>, sizes: seq<nat>, last: seq<Byte>)
    requires Total(sizes) == |head|
    ensures Total(sizes + [|last|]) == |head + last|
    ensures Split(head + last, sizes + [|last|]) == Split(head, sizes) + [last]
  {
    assert (sizes + [|last|])[..|sizes|] == sizes;
    SplitPrefix(head, last, sizes);
    assert (head + last)[|head|..|head| + |last|] == last;
  }

  /** Any list of blocks, of any sizes, survives concatenation and splitting. */
  lemma {:induction false} SplitOfConcat(blocks: seq<seq<Byte>>)
    ensures Total(Sizes(blocks)) == |Concat(blocks)|
    ensures Split(Concat(blocks), Sizes(blocks)) == blocks
  {
    if blocks != [] {
      var init, last := blocks[..|blocks| - 1], blocks[|blocks| - 1];
      SplitOfConcat(init);
      SplitLast(Concat(init), Sizes(init), last);
      assert blocks == init + [last];
    }
  }

  /** Splitting data into blocks of the given sizes keeps the data and the sizes. */
  lemma {:induction false} ConcatOfSplit(data: seq<Byte>, sizes: seq<nat>)
    requires Total(sizes) <= |data|
    ensures Concat(Split(data, sizes)) == data[..Total(sizes)]
    ensures Sizes(Split(data, sizes)) == sizes
  {
    if sizes != [] {
      var n := |sizes| - 1;
      var pos := Total(sizes[..n]);
      ConcatOfSplit(data, sizes[..n]);
      var init, last := Split(data, sizes[..n]), Slice(data, pos, sizes[n]);
      JoinLast(init, last);
      assert Split(data, sizes) == init + [last];
      SnocIs(sizes);
    }
  }

  /** `k` elements from `pos` on, which extend the first `pos`. */
  function Slice(data: seq<Byte>, pos: nat, k: nat): (s: seq<Byte>)
    requires pos + k <= |data|
    ensures |s| == k && data[..pos] + s == data[..pos + k]
  {
    data[pos..pos + k]
  }

  lemma {:induction false} SnocIs(sizes: seq<nat>)
    requires sizes != []
    ensures sizes[..|sizes| - 1] + [sizes[|sizes| - 1]] == sizes
  {
  }

  lemma {:induction false} JoinLast(blocks: seq<seq<Byte>>, last: seq<Byte>)
    ensures Concat(blocks + [last]) == Concat(blocks) + last && Sizes(blocks + [last]) == Sizes(blocks) + [|last|]
  {
    assert (blocks + [last])[..|blocks|] == blocks;
  }

  method ConcatBlocks(blocks: seq<seq<Byte>>) returns (out: seq<Byte>, sizes: seq<nat>)
    ensures out == Concat(blocks) && sizes == Sizes(blocks)
  {
    out, sizes := [], [];
    for i := 0 to |blocks|
      invariant out == Concat(blocks[..i]) && sizes == Sizes(blocks[..i])
    {
      assert blocks[..i + 1][..i] == blocks[..i];
      sizes := sizes + [|blocks[i]|];
      out := out + blocks[i];
    }
    assert blocks[..|blocks|] == blocks;
  }

  method SplitBlocks(data: seq<Byte>, sizes: seq<nat>) returns (out: seq<seq<Byte>>)
    requires Total(sizes) <= |data|
    ensures out == Split(data, sizes)
  {
    out := [];
    var pos := 0;
    assert sizes[..|sizes|] == sizes;
    for i := 0 to |sizes|
      invariant pos == Total(sizes[..i]) && pos <= |data|
      invariant out == Split(data, sizes[..i])
    {
      assert sizes[..i + 1][..i] == sizes[..i];
      TotalOfPrefix(sizes, i + 1);
      out := out + [data[pos..pos + sizes[i]]];
      pos := pos + sizes[i];
    }
  }

  lemma {:induction false} TotalOfPrefix(sizes: seq<nat>, k: nat)
    requires k <= |sizes|
    ensures Total(sizes[..k]) <= Total(sizes)
    decreases |sizes| - k
  {
    if k < |sizes| {
      TotalOfPrefix(sizes, k + 1);
      assert sizes[..k + 1][..k] == sizes[..k];
    } else {
      assert sizes[..k] == sizes;
    }
  }

  // ---------------------------------------------------------------------------
  // AES-GCM over blocks
  // ---------------------------------------------------------------------------

  datatype Ciphertext = Ciphertext(iv: seq<Byte>, tag: seq<Byte>, data: seq<seq<Byte>>)

  /** Lengths that `Lawful` rules out are where the original would panic. */
  function EncryptGCM(c: Primitives, key: seq<Byte>, iv: seq<Byte>, blocks: seq<seq<Byte>>): (r: Option<Ciphertext>)
    ensures r.Some? ==> |r.value.data| == |blocks|
  {
    if |key| != 32 || |iv| != 16 then None
    else
      var plaintext := Concat(blocks);
      var sealed := c.seal(key, iv, plaintext);
      TotalOfSizes(blocks);
      if |sealed| < |plaintext| then None
      else Some(Ciphertext(iv, sealed[|plaintext|..], Split(sealed[..|plaintext|], Sizes(blocks))))
  }

  function DecryptGCM(c: Primitives, key: seq<Byte>, ct: Ciphertext): (r: Option<seq<seq<Byte>>>)
    ensures r.Some? ==> |r.value| == |ct.data|
  {
    if |key| != 32 || |ct.iv| != 16 || |ct.tag| != 16 then None
    else
      match c.open(key, ct.iv, Concat(ct.data) + ct.tag)
      case None => None
      case Some(plaintext) => if |plaintext| < Total(Sizes(ct.data)) then None
        else Some(Split(plaintext, Sizes(ct.data)))
  }

  lemma {:induction false} GCMRoundTrip(c: Primitives, key: seq<Byte>, iv: seq<Byte>, blocks: seq<seq<Byte>>)
    requires Lawful(c) && |key| == 32 && |iv| == 16
    ensures EncryptGCM(c, key, iv, blocks).Some?
    ensures var ct := EncryptGCM(c, key, iv, blocks).value;
      && ct.iv == iv && |ct.tag| == 16 && Sizes(ct.data) == Sizes(blocks)
      && DecryptGCM(c, key, ct) == Some(blocks)
  {
    var plaintext, sizes := Concat(blocks), Sizes(blocks);
    var sealed := c.seal(key, iv, plaintext);
    assert SealLaw(c, key, iv, plaintext);
    SplitOfConcat(blocks);
    var body, tag := sealed[..|plaintext|], sealed[|plaintext|..];
    assert body + tag == sealed;
    ConcatOfSplit(body, sizes);
    assert body[..Total(sizes)] == body;
  }

  function StreamBlocks(c: Primitives, key: seq<Byte>, iv: seq<Byte>, blocks: seq<seq<Byte>>): (r: seq<seq<Byte>>)
    requires Lawful(c)
    ensures |r| == |blocks|
  {
    TotalOfSizes(blocks);
    assert StreamLaw(c, key, iv, Concat(blocks));
    Split(c.stream(key, iv, Concat(blocks)), Sizes(blocks))
  }

  /** The blocks of the stream cipher are those of the enciphered concatenation. */
  lemma {:induction false} StreamsTheBlocks(c: Primitives, key: seq<Byte>, iv: seq<Byte>, blocks: seq<seq<Byte>>)
    requires Lawful(c)
    ensures Concat(StreamBlocks(c, key, iv, blocks)) == c.stream(key, iv, Concat(blocks))
    ensures Sizes(StreamBlocks(c, key, iv, blocks)) == Sizes(blocks)
  {
    var x := c.stream(key, iv, Concat(blocks));
    assert StreamLaw(c, key, iv, Concat(blocks));
    TotalOfSizes(blocks);
    ConcatOfSplit(x, Sizes(blocks));
    assert x[..|x|] == x;
  }

  /** And GCM's are those of the sealed concatenation, the tag apart. */
  lemma {:induction false} SealsTheBlocks(c: Primitives, key: seq<Byte>, iv: seq<Byte>, blocks: seq<seq<Byte>>)
    requires Lawful(c) && |key| == 32 && |iv| == 16
    ensures EncryptGCM(c, key, iv, blocks).Some?
    ensures var ct := EncryptGCM(c, key, iv, blocks).value;
      ct.iv == iv && Concat(ct.data) + ct.tag == c.seal(key, iv, Concat(blocks)) && Sizes(ct.data) == Sizes(blocks)
  {
    var plaintext, sizes := Concat(blocks), Sizes(blocks);
    var sealed := c.seal(key, iv, plaintext);
    assert SealLaw(c, key, iv, plaintext);
    TotalOfSizes(blocks);
    var body := sealed[..|plaintext|];
    ConcatOfSplit(body, sizes);
    assert body[..Total(sizes)] == body;
  }

  /** EncryptCTR and DecryptCTR are the same keystream, so the second undoes the first. */
  lemma {:induction false} CTRRoundTrip(c: Primitives, key: seq<Byte>, iv: seq<Byte>, blocks: seq<seq<Byte>>)
    requires Lawful(c)
    ensures StreamBlocks(c, key, iv, StreamBlocks(c, key, iv, blocks)) == blocks
  {
    var x := c.stream(key, iv, Concat(blocks));
    assert StreamLaw(c, key, iv, Concat(blocks));
    TotalOfSizes(blocks);
    ConcatOfSplit(x, Sizes(blocks));
    assert x[..|x|] == x;
    SplitOfConcat(blocks);
  }

  // ---------------------------------------------------------------------------
  // Keys
  // ---------------------------------------------------------------------------

  function Reversed(b: seq<Byte>): (r: seq<Byte>)
    ensures |r| == |b|
    ensures forall i :: 0 <= i < |b| ==> r[|b| - 1 - i] == b[i]
  {
    if b == [] then [] else [b[|b| - 1]] + Reversed(b[..|b| - 1])
  }

  lemma {:induction false} ReversedTwice(b: seq<Byte>)
    ensures Reversed(Reversed(b)) == b
  {
    var r := Reversed(b);
    forall i | 0 <= i < |b| ensures Reversed(r)[i] == b[i] {
      assert Reversed(r)[|r| - 1 - (|b| - 1 - i)] == r[|b| - 1 - i];
    }
  }

  method ReverseBytes(b: seq<Byte>) returns (r: seq<Byte>)
    ensures r == Reversed(b)
  {
    var out := new Byte[|b|];
    for i := 0 to |b|
      invariant forall j :: 0 <= j < i ==> out[|b| - 1 - j] == b[j]
    {
      out[|b| - 1 - i] := b[i];
    }
    r := out[..];
    forall k | 0 <= k < |b| ensures r[k] == Reversed(b)[k] {
      var j := |b| - 1 - k;
      assert r[k] == out[|b| - 1 - j] == b[j] && Reversed(b)[|b| - 1 - j] == b[j];
    }
  }

  /** SetCanonicalBytes: 32 little-endian bytes of a reduced scalar. */
  function CanonicalScalar(le: seq<Byte>): Option<nat>
  {
    var n := FromBE(Reversed(le));
    if |le| == 32 && n < ED25519_L then Some(n) else None
  }

  lemma {:induction false} ScalarFits(n: nat)
    ensures Fits(n % ED25519_L, 32)
  {
    OrderFits();
    FitsExactly(n % ED25519_L, 32);
  }

  lemma {:induction false} OrderFits()
    ensures ED25519_L < Pow256(32)
  {
    assert Pow256(4) == 0x1_0000_0000;
    Pow256Sum(4, 4);
    Pow256Sum(8, 8);
    Pow256Sum(16, 16);
  }

  lemma {:induction false} Pow256Sum(a: nat, b: nat)
    ensures Pow256(a + b) == Pow256(a) * Pow256(b)
  {
    if a > 0 {
      Pow256Sum(a - 1, b);
      assert Pow256(a + b) == 256 * (Pow256(a - 1) * Pow256(b)) == (256 * Pow256(a - 1)) * Pow256(b);
    }
  }

  /** Reduce mod L, print big-endian, reverse, read as canonical little-endian. */
  function ScalarFromBigEndian(n: nat): Option<nat>
  {
    ScalarFits(n);
    CanonicalScalar(Reversed(ToBE(n % ED25519_L, 32)))
  }

  lemma {:induction false} ScalarIsReduced(n: nat)
    ensures ScalarFromBigEndian(n) == Some(n % ED25519_L)
  {
    ScalarFits(n);
    ReversedTwice(ToBE(n % ED25519_L, 32));
  }

  function BlindingScalar(c: Primitives, sharedRandom: seq<Byte>, senderRandom: seq<Byte>): Option<nat>
    requires |sharedRandom| <= 32 && |senderRandom| <= 32
  {
    BlindingInputFits(sharedRandom, senderRandom);
    ScalarFromBigEndian(FromBE(c.sha512(ToBE(Xor(FromBE(sharedRandom), FromBE(senderRandom)), 32))))
  }

  lemma {:induction false} BlindingInputFits(sharedRandom: seq<Byte>, senderRandom: seq<Byte>)
    requires |sharedRandom| <= 32 && |senderRandom| <= 32
    ensures Fits(Xor(FromBE(sharedRandom), FromBE(senderRandom)), 32)
  {
    FitsMore(FromBE(sharedRandom), |sharedRandom|, 32);
    FitsMore(FromBE(senderRandom), |senderRandom|, 32);
    XorFits(FromBE(sharedRandom), FromBE(senderRandom), 32);
  }

  function MulPoint(c: Primitives, pub: seq<Byte>, s: nat): Option<seq<Byte>>
  {
    match c.decompress(pub)
    case None => None
    case Some(p) => Some(c.compress(c.mul(s, p)))
  }

  datatype BlindedKeys = BlindedKeys(sender: seq<Byte>, receiver: seq<Byte>)

  function BlindWith(c: Primitives, s: nat, senderPub: seq<Byte>, receiverPub: seq<Byte>): Option<BlindedKeys>
  {
    match (MulPoint(c, senderPub, s), MulPoint(c, receiverPub, s))
    case (Some(a), Some(b)) => Some(BlindedKeys(a, b))
    case _ => None
  }

  function BlindNoteKeys(c: Primitives, senderPub: seq<Byte>, receiverPub: seq<Byte>,
                         sharedRandom: seq<Byte>, senderRandom: seq<Byte>): Option<BlindedKeys>
    requires |sharedRandom| <= 32 && |senderRandom| <= 32
  {
    match BlindingScalar(c, sharedRandom, senderRandom)
    case None => None
    case Some(s) => BlindWith(c, s, senderPub, receiverPub)
  }

  function UnblindNoteKey(c: Primitives, blinded: seq<Byte>, sharedRandom: seq<Byte>, senderRandom: seq<Byte>)
    : Option<seq<Byte>>
    requires |sharedRandom| <= 32 && |senderRandom| <= 32
  {
    match BlindingScalar(c, sharedRandom, senderRandom)
    case None => None
    case Some(s) => MulPoint(c, blinded, c.invert(s))
  }

  lemma {:induction false} BlindingScalarDefined(c: Primitives, sharedRandom: seq<Byte>, senderRandom: seq<Byte>)
    requires |sharedRandom| <= 32 && |senderRandom| <= 32
    ensures var s := BlindingScalar(c, sharedRandom, senderRandom); s.Some? && s.value < ED25519_L
  {
    BlindingInputFits(sharedRandom, senderRandom);
    ScalarIsReduced(FromBE(c.sha512(ToBE(Xor(FromBE(sharedRandom), FromBE(senderRandom)), 32))));
  }

  /** The scalar depends on the two randoms through their XOR only; without a sender's random it
    * is the digest of the shared random, padded to 32 bytes, as a big-endian number modulo L. */
  lemma {:induction false} BlindingScalarIs(c: Primitives, sharedRandom: seq<Byte>, senderRandom: seq<Byte>)
    requires |sharedRandom| <= 32 && |senderRandom| <= 32
    ensures BlindingScalar(c, sharedRandom, senderRandom) == BlindingScalar(c, senderRandom, sharedRandom)
    ensures FromBE(senderRandom) == 0 ==>
      BlindingScalar(c, sharedRandom, senderRandom)
        == Some(FromBE(c.sha512(Repeat<Byte>(0, 32 - |sharedRandom|) + sharedRandom)) % ED25519_L)
  {
    XorCommutes(FromBE(sharedRandom), FromBE(senderRandom));
    BlindingInputFits(sharedRandom, senderRandom);
    ScalarIsReduced(FromBE(c.sha512(ToBE(Xor(FromBE(sharedRandom), FromBE(senderRandom)), 32))));
    if FromBE(senderRandom) == 0 {
      XorZero(FromBE(sharedRandom));
      XorCommutes(FromBE(sharedRandom), 0);
      PaddedBE(sharedRandom, 32);
    }
  }

  /** Filling a larger buffer pads with zeros on the left. */
  lemma {:induction false} PaddedBE(bs: seq<Byte>, k: nat)
    requires |bs| <= k
    ensures Fits(FromBE(bs), k) && ToBE(FromBE(bs), k) == Repeat<Byte>(0, k - |bs|) + bs
  {
    FitsMore(FromBE(bs), |bs|, k);
    FromBEPadded(k - |bs|, bs);
    ToBEFromBE(Repeat<Byte>(0, k - |bs|) + bs);
  }

  /** Unblinding gives a key back exactly when the blinding scalar is not zero, or the key is
    * the point at zero, which blinding leaves alone. */
  lemma {:induction false} UnblindInvertsExactly(c: Primitives, a: Point, b: Point, sharedRandom: seq<Byte>,
                                                 senderRandom: seq<Byte>)
    requires Lawful(c) && |sharedRandom| <= 32 && |senderRandom| <= 32
    ensures var keys := BlindNoteKeys(c, c.compress(a), c.compress(b), sharedRandom, senderRandom);
      var zero := BlindingScalar(c, sharedRandom, senderRandom) == Some(0);
      && keys.Some?
      && (UnblindNoteKey(c, keys.value.sender, sharedRandom, senderRandom) == Some(c.compress(a))
          <==> !zero || c.mul(0, a) == a)
      && (UnblindNoteKey(c, keys.value.receiver, sharedRandom, senderRandom) == Some(c.compress(b))
          <==> !zero || c.mul(0, b) == b)
  {
    BlindingScalarDefined(c, sharedRandom, senderRandom);
    var s := BlindingScalar(c, sharedRandom, senderRandom).value;
    UnblindOne(c, s, a);
    UnblindOne(c, s, b);
  }

  lemma {:induction false} UnblindOne(c: Primitives, s: nat, p: Point)
    requires Lawful(c) && s < ED25519_L
    ensures var blinded := MulPoint(c, c.compress(p), s);
      blinded.Some? && (MulPoint(c, blinded.value, c.invert(s)) == Some(c.compress(p)) <==> s != 0 || c.mul(0, p) == p)
  {
    assert PointLaw(c, p) && PointLaw(c, c.mul(s, p));
    if s != 0 {
      InverseActs(c, s, p);
    } else {
      var i := c.invert(0);
      assert i * 0 == 0;
      assert ActionLaw(c, i, 0, p);
    }
  }

  lemma {:induction false} InverseActs(c: Primitives, s: nat, p: Point)
    requires Lawful(c) && 0 < s < ED25519_L
    ensures c.mul(c.invert(s), c.mul(s, p)) == p
  {
    var i := c.invert(s);
    assert s % ED25519_L == s;
    assert InverseLaw(c, s) && PointLaw(c, p) && ActionLaw(c, i, s, p);
    assert i * s == s * i;
  }

  function SharedKey(c: Primitives, viewingSeed: seq<Byte>, blindedPub: seq<Byte>): Option<seq<Byte>>
  {
    if |viewingSeed| != 32 then None
    else match c.decompress(blindedPub)
      case None => None
      case Some(p) => Some(c.sha256(c.compress(c.mul(c.seedScalar(viewingSeed), p))))
  }

  function PublicKey(c: Primitives, seed: seq<Byte>): seq<Byte>
  {
    c.compress(c.mul(c.seedScalar(seed), c.base))
  }

  /** The shared key is the digest of the curve point of the seed's scalar and the other's key:
    * both parties' scalars, and the blinding one, enter it. */
  lemma {:induction false} SharedKeyIs(c: Primitives, senderSeed: seq<Byte>, receiverSeed: seq<Byte>, s: nat)
    requires Lawful(c) && |senderSeed| == 32
    ensures MulPoint(c, PublicKey(c, receiverSeed), s).Some?
    ensures var a, b := c.seedScalar(senderSeed), c.seedScalar(receiverSeed);
      SharedKey(c, senderSeed, MulPoint(c, PublicKey(c, receiverSeed), s).value)
        == Some(c.sha256(c.compress(c.mul((a * ((s * b) % ED25519_L)) % ED25519_L, c.base))))
  {
    var a, b := c.seedScalar(senderSeed), c.seedScalar(receiverSeed);
    var theirs := c.mul(b, c.base);
    assert PointLaw(c, theirs) && PointLaw(c, c.mul(s, theirs));
    assert ActionLaw(c, s, b, c.base);
    assert ActionLaw(c, a, (s * b) % ED25519_L, c.base);
  }

  /** Sender and receiver agree on a key, through blinding by any scalar. */
  lemma {:induction false} SharedKeysAgree(c: Primitives, senderSeed: seq<Byte>, receiverSeed: seq<Byte>, s: nat)
    requires Lawful(c) && |senderSeed| == 32 && |receiverSeed| == 32
    ensures var forReceiver := MulPoint(c, PublicKey(c, receiverSeed), s);
      var forSender := MulPoint(c, PublicKey(c, senderSeed), s);
      && forReceiver.Some? && forSender.Some?
      && SharedKey(c, senderSeed, forReceiver.value).Some?
      && |SharedKey(c, senderSeed, forReceiver.value).value| == 32
      && SharedKey(c, senderSeed, forReceiver.value) == SharedKey(c, receiverSeed, forSender.value)
  {
    var a, b := c.seedScalar(senderSeed), c.seedScalar(receiverSeed);
    var mine, theirs := c.mul(a, c.base), c.mul(b, c.base);
    assert PointLaw(c, mine) && PointLaw(c, theirs) && PointLaw(c, c.mul(s, mine)) && PointLaw(c, c.mul(s, theirs));
    assert DigestLaw(c, c.compress(c.mul(a, c.mul(s, theirs))));
    ActionsCommute(c, s, b, c.base);
    ActionsCommute(c, a, b, c.mul(s, c.base));
    ActionsCommute(c, s, a, c.base);
  }

  // ---------------------------------------------------------------------------
  // Transact notes
  // ---------------------------------------------------------------------------

  const SENDER_RANDOM_NULL: seq<Byte> := [0, 0, 0, 0, 0, 0, 0, 0, 0, 0, 0, 0, 0, 0, 0]

  datatype TransactNote = TransactNote(receiverMPK: nat, senderMPK: nat, tokenHash: seq<Byte>,
                                       random: seq<Byte>, noteValue: seq<Byte>, memo: seq<Byte>)

  /** ciphertext = [iv and tag, encoded MPK, token hash, random and value]. */
  datatype EncryptedCommitment = EncryptedCommitment(ciphertext: seq<seq<Byte>>,
                                                     blindedSender: seq<Byte>, blindedReceiver: seq<Byte>,
                                                       memo: seq<Byte>)

  datatype Decrypted = Decrypted(encodedMPK: seq<Byte>, tokenHash: seq<Byte>, random: seq<Byte>, noteValue: seq<Byte>,
                                 memo: seq<Byte>)

  function NoteBlocks(n: TransactNote): seq<seq<Byte>>
    requires Fits(n.receiverMPK, 32) && Fits(n.senderMPK, 32)
  {
    XorFits(n.receiverMPK, n.senderMPK, 32);
    [ToBE(Xor(n.receiverMPK, n.senderMPK), 32), n.tokenHash, n.random + n.noteValue, n.memo]
  }

  predicate WellSized(n: TransactNote)
  {
    |n.random| == 16 && |n.noteValue| == 16 && |n.tokenHash| == 32
  }

  function EncryptTransactNote(c: Primitives, senderSeed: seq<Byte>, receiverPub: seq<Byte>, n: TransactNote,
                               iv: seq<Byte>)
    : (ec: Option<EncryptedCommitment>)
    requires Fits(n.receiverMPK, 32) && Fits(n.senderMPK, 32)
    ensures ec.Some? ==> |ec.value.ciphertext| == 4
  {
    if !WellSized(n) then None
    else match BlindNoteKeys(c, PublicKey(c, senderSeed), receiverPub, n.random, SENDER_RANDOM_NULL)
      case None => None
      case Some(keys) => EncryptWithKeys(c, senderSeed, keys, NoteBlocks(n), iv)
  }

  function EncryptWithKeys(c: Primitives, senderSeed: seq<Byte>, keys: BlindedKeys, blocks: seq<seq<Byte>>,
                           iv: seq<Byte>)
    : (ec: Option<EncryptedCommitment>)
    requires |blocks| == 4
    ensures ec.Some? ==> |ec.value.ciphertext| == 4
  {
    match SharedKey(c, senderSeed, keys.receiver)
    case None => None
    case Some(key) =>
      match EncryptGCM(c, key, iv, blocks)
      case None => None
      case Some(ct) =>
        Some(EncryptedCommitment([ct.iv + ct.tag, ct.data[0], ct.data[1], ct.data[2]], keys.sender, keys.receiver,
                                 ct.data[3]))
  }

  function DecryptTransactNote(c: Primitives, receiverSeed: seq<Byte>, ec: EncryptedCommitment): Option<Decrypted>
    requires |ec.ciphertext| == 4
  {
    if |ec.ciphertext[0]| != 32 then None
    else match SharedKey(c, receiverSeed, ec.blindedSender)
      case None => None
      case Some(key) =>
        var ct := Ciphertext(ec.ciphertext[0][..16], ec.ciphertext[0][16..], ec.ciphertext[1..] + [ec.memo]);
        match DecryptGCM(c, key, ct)
        case None => None
        case Some(blocks) =>
          if |blocks[2]| != 32 then None
          else Some(Decrypted(blocks[0], blocks[1], blocks[2][..16], blocks[2][16..], blocks[3]))
  }

  /** Encryption blinds both keys with one scalar, then seals. */
  lemma {:induction false} EncryptsThroughScalar(c: Primitives, senderSeed: seq<Byte>, receiverPub: seq<Byte>,
                                                 n: TransactNote, iv: seq<Byte>)
    returns (s: nat)
    requires WellSized(n) && Fits(n.receiverMPK, 32) && Fits(n.senderMPK, 32)
    ensures BlindingScalar(c, n.random, SENDER_RANDOM_NULL) == Some(s)
    ensures EncryptTransactNote(c, senderSeed, receiverPub, n, iv)
         == match BlindWith(c, s, PublicKey(c, senderSeed), receiverPub)
            case None => None
            case Some(keys) => EncryptWithKeys(c, senderSeed, keys, NoteBlocks(n), iv)
  {
    BlindingScalarDefined(c, n.random, SENDER_RANDOM_NULL);
    s := BlindingScalar(c, n.random, SENDER_RANDOM_NULL).value;
  }

  /** What is written on chain for a recipient key `p`: both keys blinded by `s`, and the four
    * blocks sealed under the digest of the doubly scaled recipient key. */
  ghost predicate WrittenAs(c: Primitives, senderSeed: seq<Byte>, p: Point, s: nat, blocks: seq<seq<Byte>>,
                            iv: seq<Byte>, ec: EncryptedCommitment)
  {
    var a := c.seedScalar(senderSeed);
    && ec.blindedSender == c.compress(c.mul(s, c.mul(a, c.base))) && ec.blindedReceiver == c.compress(c.mul(s, p))
    && |ec.ciphertext| == 4 && |ec.ciphertext[0]| == 32 && ec.ciphertext[0][..16] == iv
    && Concat(ec.ciphertext[1..] + [ec.memo]) + ec.ciphertext[0][16..]
         == c.seal(c.sha256(c.compress(c.mul(a, c.mul(s, p)))), iv, Concat(blocks))
  }

  /** A note's ciphertext, with the digest of its random as the blinding scalar. */
  lemma {:induction false} TransactCiphertextIs(c: Primitives, senderSeed: seq<Byte>, p: Point, n: TransactNote,
                                                iv: seq<Byte>)
    requires Lawful(c) && |senderSeed| == 32 && |iv| == 16 && WellSized(n)
    requires Fits(n.receiverMPK, 32) && Fits(n.senderMPK, 32)
    ensures var ec := EncryptTransactNote(c, senderSeed, c.compress(p), n, iv);
      var s := FromBE(c.sha512(Repeat<Byte>(0, 16) + n.random)) % ED25519_L;
      ec.Some? && WrittenAs(c, senderSeed, p, s, NoteBlocks(n), iv, ec.value)
    ensures var blocks := NoteBlocks(n);
      && FromBE(blocks[0]) == Xor(n.receiverMPK, n.senderMPK) && |blocks[0]| == 32
      && blocks[1..] == [n.tokenHash, n.random + n.noteValue, n.memo]
  {
    NullScalar(c, n.random);
    var s := EncryptsThroughScalar(c, senderSeed, c.compress(p), n, iv);
    CiphertextWithScalar(c, senderSeed, p, s, NoteBlocks(n), iv);
  }

  lemma {:induction false} NullScalar(c: Primitives, random: seq<Byte>)
    requires |random| == 16
    ensures BlindingScalar(c, random, SENDER_RANDOM_NULL)
         == Some(FromBE(c.sha512(Repeat<Byte>(0, 16) + random)) % ED25519_L)
  {
    assert SENDER_RANDOM_NULL == Repeat<Byte>(0, 15) + [];
    FromBEPadded(15, []);
    BlindingScalarIs(c, random, SENDER_RANDOM_NULL);
  }

  lemma {:induction false} CiphertextWithScalar(c: Primitives, senderSeed: seq<Byte>, p: Point, s: nat,
                                                blocks: seq<seq<Byte>>, iv: seq<Byte>)
    requires Lawful(c) && |senderSeed| == 32 && |iv| == 16 && |blocks| == 4
    ensures var keys := BlindWith(c, s, PublicKey(c, senderSeed), c.compress(p));
      keys.Some?
      && var ec := EncryptWithKeys(c, senderSeed, keys.value, blocks, iv);
         ec.Some? && WrittenAs(c, senderSeed, p, s, blocks, iv, ec.value)
  {
    var a := c.seedScalar(senderSeed);
    var key := c.sha256(c.compress(c.mul(a, c.mul(s, p))));
    assert PointLaw(c, p) && PointLaw(c, c.mul(a, c.base)) && PointLaw(c, c.mul(s, p));
    assert DigestLaw(c, c.compress(c.mul(a, c.mul(s, p))));
    SealsTheBlocks(c, key, iv, blocks);
    GCMRoundTrip(c, key, iv, blocks);
    var ct := EncryptGCM(c, key, iv, blocks).value;
    Halves(ct.iv, ct.tag);
    assert [ct.iv + ct.tag, ct.data[0], ct.data[1], ct.data[2]][1..] + [ct.data[3]] == ct.data;
  }

  /** The recipient reads back exactly what the sender wrote, and recovers the sender. */
  lemma {:induction false} TransactNoteRoundTrip(c: Primitives, senderSeed: seq<Byte>, receiverSeed: seq<Byte>,
                                                 n: TransactNote, iv: seq<Byte>)
    requires Lawful(c) && |senderSeed| == 32 && |receiverSeed| == 32 && |iv| == 16
    requires WellSized(n) && Fits(n.receiverMPK, 32) && Fits(n.senderMPK, 32)
    ensures var ec := EncryptTransactNote(c, senderSeed, PublicKey(c, receiverSeed), n, iv);
      && ec.Some? && |ec.value.ciphertext| == 4
      && var d := DecryptTransactNote(c, receiverSeed, ec.value);
         && d.Some?
         && d.value.tokenHash == n.tokenHash && d.value.random == n.random
         && d.value.noteValue == n.noteValue && d.value.memo == n.memo
         && Xor(FromBE(d.value.encodedMPK), n.receiverMPK) == n.senderMPK
  {
    var s := EncryptsThroughScalar(c, senderSeed, PublicKey(c, receiverSeed), n, iv);
    SharedKeysAgree(c, senderSeed, receiverSeed, s);
    var keys := BlindWith(c, s, PublicKey(c, senderSeed), PublicKey(c, receiverSeed)).value;
    ReadBackWithKeys(c, senderSeed, receiverSeed, keys, n, iv);
    SenderRecovered(n);
  }

  /** The first block XORs back to the sender. */
  lemma {:induction false} SenderRecovered(n: TransactNote)
    requires Fits(n.receiverMPK, 32) && Fits(n.senderMPK, 32)
    ensures Xor(FromBE(NoteBlocks(n)[0]), n.receiverMPK) == n.senderMPK
  {
    XorFits(n.receiverMPK, n.senderMPK, 32);
    XorCommutes(n.receiverMPK, n.senderMPK);
    XorCancels(n.senderMPK, n.receiverMPK);
  }

  /** Encryption succeeds exactly with a 32-byte seed, a 16-byte IV, a well-sized note, and a
    * recipient key that is a point. */
  lemma {:induction false} EncryptsExactly(c: Primitives, senderSeed: seq<Byte>, receiverPub: seq<Byte>,
                                           n: TransactNote, iv: seq<Byte>)
    requires Lawful(c) && Fits(n.receiverMPK, 32) && Fits(n.senderMPK, 32)
    ensures EncryptTransactNote(c, senderSeed, receiverPub, n, iv).Some?
       <==> |senderSeed| == 32 && |iv| == 16 && WellSized(n) && c.decompress(receiverPub).Some?
  {
    if WellSized(n) {
      var s := EncryptsThroughScalar(c, senderSeed, receiverPub, n, iv);
      if |senderSeed| == 32 && |iv| == 16 && c.decompress(receiverPub).Some? {
        EncryptWithScalar(c, s, senderSeed, receiverPub, NoteBlocks(n), iv);
      }
    }
  }

  lemma {:induction false} EncryptWithScalar(c: Primitives, s: nat, senderSeed: seq<Byte>, receiverPub: seq<Byte>,
                                             blocks: seq<seq<Byte>>, iv: seq<Byte>)
    requires Lawful(c) && |senderSeed| == 32 && |iv| == 16 && |blocks| == 4 && c.decompress(receiverPub).Some?
    ensures var keys := BlindWith(c, s, PublicKey(c, senderSeed), receiverPub);
      keys.Some? && EncryptWithKeys(c, senderSeed, keys.value, blocks, iv).Some?
  {
    var p := c.decompress(receiverPub).value;
    var q := c.mul(s, p);
    var a := c.seedScalar(senderSeed);
    assert PointLaw(c, q) && PointLaw(c, c.mul(a, c.base));
    assert DigestLaw(c, c.compress(c.mul(a, q)));
    assert SealLaw(c, c.sha256(c.compress(c.mul(a, q))), iv, Concat(blocks));
  }

  lemma {:induction false} ReadBackWithKeys(c: Primitives, senderSeed: seq<Byte>, receiverSeed: seq<Byte>,
                                            keys: BlindedKeys, n: TransactNote, iv: seq<Byte>)
    requires Lawful(c) && |iv| == 16 && WellSized(n) && Fits(n.receiverMPK, 32) && Fits(n.senderMPK, 32)
    requires var k := SharedKey(c, senderSeed, keys.receiver);
      k.Some? && |k.value| == 32 && SharedKey(c, receiverSeed, keys.sender) == k
    ensures var ec := EncryptWithKeys(c, senderSeed, keys, NoteBlocks(n), iv);
      && ec.Some?
      && DecryptTransactNote(c, receiverSeed, ec.value)
         == Some(Decrypted(NoteBlocks(n)[0], n.tokenHash, n.random, n.noteValue, n.memo))
  {
    var key := SharedKey(c, senderSeed, keys.receiver).value;
    GCMRoundTrip(c, key, iv, NoteBlocks(n));
    BlocksReadBack(c, key, iv, n, receiverSeed, EncryptWithKeys(c, senderSeed, keys, NoteBlocks(n), iv).value);
  }

  lemma {:induction false} BlocksReadBack(c: Primitives, key: seq<Byte>, iv: seq<Byte>, n: TransactNote,
                                          receiverSeed: seq<Byte>, ec: EncryptedCommitment)
    requires Lawful(c) && |key| == 32 && |iv| == 16
    requires WellSized(n) && Fits(n.receiverMPK, 32) && Fits(n.senderMPK, 32)
    requires EncryptGCM(c, key, iv, NoteBlocks(n)).Some?
    requires var ct := EncryptGCM(c, key, iv, NoteBlocks(n)).value;
      ec.ciphertext == [ct.iv + ct.tag, ct.data[0], ct.data[1], ct.data[2]] && ec.memo == ct.data[3]
    requires SharedKey(c, receiverSeed, ec.blindedSender) == Some(key)
    ensures DecryptTransactNote(c, receiverSeed, ec)
         == Some(Decrypted(NoteBlocks(n)[0], n.tokenHash, n.random, n.noteValue, n.memo))
  {
    GCMRoundTrip(c, key, iv, NoteBlocks(n));
    var ct := EncryptGCM(c, key, iv, NoteBlocks(n)).value;
    assert ec.ciphertext[0][..16] == ct.iv && ec.ciphertext[0][16..] == ct.tag;
    assert ec.ciphertext[1..] + [ec.memo] == ct.data;
    assert NoteBlocks(n)[2][..16] == n.random && NoteBlocks(n)[2][16..] == n.noteValue;
  }

  // ---------------------------------------------------------------------------
  // Shield notes
  // ---------------------------------------------------------------------------

  datatype ShieldCiphertext = ShieldCiphertext(bundle: seq<seq<Byte>>, shieldKey: seq<Byte>)

  function EncryptShield(c: Primitives, receiverPub: seq<Byte>, random: seq<Byte>, shieldSeed: seq<Byte>, iv: seq<Byte>,
                         ctrIV: seq<Byte>)
    : Option<ShieldCiphertext>
    requires Lawful(c)
  {
    if |random| != 16 then None
    else match SharedKey(c, shieldSeed, receiverPub)
      case None => None
      case Some(key) =>
        match EncryptGCM(c, key, iv, [random])
        case None => None
        case Some(ct) =>
          var receiver := StreamBlocks(c, shieldSeed, ctrIV, [receiverPub]);
          Some(ShieldCiphertext([ct.iv + ct.tag, ct.data[0] + ctrIV, receiver[0]], PublicKey(c, shieldSeed)))
  }

  function DecryptShieldRandom(c: Primitives, receiverSeed: seq<Byte>, sc: ShieldCiphertext): Option<seq<Byte>>
    requires |sc.bundle| == 3 && |sc.bundle[0]| == 32 && |sc.bundle[1]| == 32
  {
    match SharedKey(c, receiverSeed, sc.shieldKey)
    case None => None
    case Some(key) =>
      match DecryptGCM(c, key, Ciphertext(sc.bundle[0][..16], sc.bundle[0][16..], [sc.bundle[1][..16]]))
      case None => None
      case Some(blocks) => Some(blocks[0])
  }

  lemma {:induction false} ShieldKeysAgree(c: Primitives, shieldSeed: seq<Byte>, receiverSeed: seq<Byte>)
    requires Lawful(c) && |receiverSeed| == 32 && |shieldSeed| == 32
    ensures var key := SharedKey(c, shieldSeed, PublicKey(c, receiverSeed));
      key.Some? && |key.value| == 32 && SharedKey(c, receiverSeed, PublicKey(c, shieldSeed)) == key
  {
    var a, b := c.seedScalar(shieldSeed), c.seedScalar(receiverSeed);
    ActionsCommute(c, a, b, c.base);
    assert PointLaw(c, c.mul(a, c.base)) && PointLaw(c, c.mul(b, c.base));
    assert DigestLaw(c, c.compress(c.mul(a, c.mul(b, c.base))));
  }

  lemma {:induction false} SealOne(c: Primitives, key: seq<Byte>, iv: seq<Byte>, block: seq<Byte>)
    requires Lawful(c) && |key| == 32 && |iv| == 16
    ensures EncryptGCM(c, key, iv, [block]).Some?
    ensures var ct := EncryptGCM(c, key, iv, [block]).value;
      && ct.iv == iv && |ct.tag| == 16 && |ct.data| == 1 && |ct.data[0]| == |block|
      && DecryptGCM(c, key, Ciphertext(ct.iv, ct.tag, [ct.data[0]])) == Some([block])
  {
    GCMRoundTrip(c, key, iv, [block]);
    var ct := EncryptGCM(c, key, iv, [block]).value;
    assert [ct.data[0]] == ct.data;
    assert Sizes(ct.data)[0] == |ct.data[0]| && Sizes([block])[0] == |block|;
  }

  lemma {:induction false} StreamOne(c: Primitives, key: seq<Byte>, iv: seq<Byte>, block: seq<Byte>)
    requires Lawful(c)
    ensures StreamBlocks(c, key, iv, [StreamBlocks(c, key, iv, [block])[0]]) == [block]
  {
    CTRRoundTrip(c, key, iv, [block]);
    var out := StreamBlocks(c, key, iv, [block]);
    assert [out[0]] == out;
  }

  lemma {:induction false} Halves(a: seq<Byte>, b: seq<Byte>)
    ensures (a + b)[..|a|] == a && (a + b)[|a|..] == b
  {
  }

  /** The recipient recovers the random; the depositor, holding the ephemeral key, recovers
    * the recipient. */
  lemma {:induction false} ShieldRoundTrip(c: Primitives, receiverSeed: seq<Byte>, random: seq<Byte>,
                                           shieldSeed: seq<Byte>, iv: seq<Byte>, ctrIV: seq<Byte>)
    requires Lawful(c) && |receiverSeed| == 32 && |shieldSeed| == 32
    requires |random| == 16 && |iv| == 16 && |ctrIV| == 16
    ensures var sc := EncryptShield(c, PublicKey(c, receiverSeed), random, shieldSeed, iv, ctrIV);
      && sc.Some? && |sc.value.bundle| == 3 && |sc.value.bundle[0]| == 32 && |sc.value.bundle[1]| == 32
      && DecryptShieldRandom(c, receiverSeed, sc.value) == Some(random)
      && StreamBlocks(c, shieldSeed, sc.value.bundle[1][16..], [sc.value.bundle[2]]) == [PublicKey(c, receiverSeed)]
  {
    var receiverPub := PublicKey(c, receiverSeed);
    ShieldKeysAgree(c, shieldSeed, receiverSeed);
    var key := SharedKey(c, shieldSeed, receiverPub).value;
    SealOne(c, key, iv, random);
    var ct := EncryptGCM(c, key, iv, [random]).value;
    Halves(ct.iv, ct.tag);
    Halves(ct.data[0], ctrIV);
    StreamOne(c, shieldSeed, ctrIV, receiverPub);
  }

  /** The bundle on chain: IV and tag; the sealed random and the second IV; and the receiver's
    * key under the depositor's own. */
  lemma {:induction false} ShieldCiphertextIs(c: Primitives, p: Point, random: seq<Byte>, shieldSeed: seq<Byte>,
                                              iv: seq<Byte>, ctrIV: seq<Byte>)
    requires Lawful(c) && |shieldSeed| == 32 && |random| == 16 && |iv| == 16 && |ctrIV| == 16
    ensures var sc := EncryptShield(c, c.compress(p), random, shieldSeed, iv, ctrIV);
      var a := c.seedScalar(shieldSeed);
      && sc.Some? && sc.value.shieldKey == c.compress(c.mul(a, c.base))
      && |sc.value.bundle| == 3 && |sc.value.bundle[0]| == 32 && |sc.value.bundle[1]| == 32
      && sc.value.bundle[0][..16] == iv && sc.value.bundle[1][16..] == ctrIV
      && sc.value.bundle[1][..16] + sc.value.bundle[0][16..] == c.seal(c.sha256(c.compress(c.mul(a, p))), iv, random)
      && sc.value.bundle[2] == c.stream(shieldSeed, ctrIV, c.compress(p))
  {
    var key := c.sha256(c.compress(c.mul(c.seedScalar(shieldSeed), p)));
    assert PointLaw(c, p) && DigestLaw(c, c.compress(c.mul(c.seedScalar(shieldSeed), p)));
    SealOne(c, key, iv, random);
    SealsTheBlocks(c, key, iv, [random]);
    var ct := EncryptGCM(c, key, iv, [random]).value;
    OneBlock(random);
    OneBlock(ct.data[0]);
    assert ct.data == [ct.data[0]];
    Halves(ct.iv, ct.tag);
    Halves(ct.data[0], ctrIV);
    StreamsTheBlocks(c, shieldSeed, ctrIV, [c.compress(p)]);
    OneBlock(c.compress(p));
    var out := StreamBlocks(c, shieldSeed, ctrIV, [c.compress(p)]);
    OneBlock(out[0]);
    assert out == [out[0]];
  }

  lemma {:induction false} OneBlock(b: seq<Byte>)
    ensures Concat([b]) == b
  {
    assert [b][..0] == [];
    assert Concat([]) + b == b;
  }
}
