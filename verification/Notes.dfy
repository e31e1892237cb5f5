/** Notes, keys and the hashes of railgunnote/note.go.
  *
  * Poseidon is a parameter `H` throughout.  Where collisions matter, `Injective(H)`
  * is an explicit hypothesis of the lemma.
  */
module Notes {
  import opened Bytes

  type Hash = seq<nat> -> nat

  ghost predicate Separates(H: Hash, a: seq<nat>, b: seq<nat>)
  {
    H(a) == H(b) ==> a == b
  }

  ghost predicate Injective(H: Hash)
  {
    forall a: seq<nat>, b: seq<nat> :: Separates(H, a, b)
  }

  /** The BN254 scalar field modulus. */
  const SNARK_SCALAR_FIELD: nat :=
    21888242871839275222246405745257275088548364400416034343698204186575808495617

  const MERKLE_DEPTH: nat := 16

  /** A shielded note, as stored; `leafIndex` is predicted when the note is assembled. */
  datatype Note = Note(owner: nat, random: nat, token: nat, value: nat, leafIndex: nat)

  /** A wallet's keys: the spending key with its public point, and the raw viewing key. */
  datatype Identity = Identity(spendingKey: nat, spendX: nat, spendY: nat, viewingKey: seq<Byte>)

  function Uint64(n: nat): (r: nat)
    ensures n < 0x1_0000_0000_0000_0000 ==> r == n
  {
    n % 0x1_0000_0000_0000_0000
  }

  function Reduce(v: nat): nat
  {
    v % SNARK_SCALAR_FIELD
  }

  function NullifyingKey(H: Hash, id: Identity): nat
  {
    H([Reduce(FromBE(id.viewingKey))])
  }

  function MasterPublicKey(H: Hash, id: Identity): nat
  {
    H([id.spendX, id.spendY, NullifyingKey(H, id)])
  }

  function NotePublicKey(H: Hash, mpk: nat, random: nat): nat
  {
    H([mpk, random])
  }

  function Commitment(H: Hash, npk: nat, token: nat, value: nat): nat
  {
    H([npk, token, value])
  }

  function Nullifier(H: Hash, nullifyingKey: nat, leafIndex: nat): nat
  {
    H([nullifyingKey, leafIndex])
  }

  /** The nullifier recorded with a stored note, from the owner's key and its leaf index. */
  function ComputeNullifier(H: Hash, id: Identity, leafIndex: nat): nat
  {
    Nullifier(H, NullifyingKey(H, id), Uint64(leafIndex))
  }

  /** The note's leaf and state id. */
  function NoteHash(H: Hash, n: Note): nat
  {
    Commitment(H, NotePublicKey(H, n.owner, n.random), n.token, n.value)
  }

  function SignatureMessage(H: Hash, merkleRoot: nat, boundParamsHash: nat, nullifiers: seq<nat>, commitments: seq<nat>)
    : nat
  {
    H([Reduce(merkleRoot), Reduce(boundParamsHash)] + ReduceAll(nullifiers) + ReduceAll(commitments))
  }

  function ReduceAll(vs: seq<nat>): (rs: seq<nat>)
    ensures |rs| == |vs|
  {
    if vs == [] then [] else [Reduce(vs[0])] + ReduceAll(vs[1..])
  }

  /** A commitment opens one way: it fixes owner, random, token and value. */
  lemma {:induction false} CommitmentOpensOneWay(H: Hash, a: Note, b: Note)
    requires Injective(H) && NoteHash(H, a) == NoteHash(H, b)
    ensures a.(leafIndex := 0) == b.(leafIndex := 0)
  {
    var p, q := NotePublicKey(H, a.owner, a.random), NotePublicKey(H, b.owner, b.random);
    assert Separates(H, [p, a.token, a.value], [q, b.token, b.value]);
    assert [p, a.token, a.value][0] == p && [p, a.token, a.value][1] == a.token && [p, a.token, a.value][2] == a.value;
    assert [q, b.token, b.value][0] == q && [q, b.token, b.value][1] == b.token && [q, b.token, b.value][2] == b.value;
    assert Separates(H, [a.owner, a.random], [b.owner, b.random]);
    assert [a.owner, a.random][0] == a.owner && [a.owner, a.random][1] == a.random;
    assert [b.owner, b.random][0] == b.owner && [b.owner, b.random][1] == b.random;
  }

  /** A nullifier fixes the nullifying key and the leaf position. */
  lemma {:induction false} NullifierOpensOneWay(H: Hash, k: nat, i: nat, l: nat, j: nat)
    requires Injective(H) && Nullifier(H, k, i) == Nullifier(H, l, j)
    ensures k == l && i == j
  {
    assert Separates(H, [k, i], [l, j]);
    assert [k, i][0] == k && [k, i][1] == i && [l, j][0] == l && [l, j][1] == j;
  }

  /** The nullifying key is the hash of the viewing key as a field element, and fixes it. */
  lemma {:induction false} NullifyingKeyOpensOneWay(H: Hash, a: Identity, b: Identity)
    requires Injective(H) && NullifyingKey(H, a) == NullifyingKey(H, b)
    ensures FromBE(a.viewingKey) % SNARK_SCALAR_FIELD == FromBE(b.viewingKey) % SNARK_SCALAR_FIELD
  {
    var s, t := [Reduce(FromBE(a.viewingKey))], [Reduce(FromBE(b.viewingKey))];
    assert Separates(H, s, t);
    assert s[0] == Reduce(FromBE(a.viewingKey)) && t[0] == Reduce(FromBE(b.viewingKey));
  }

  /** A recorded nullifier is the hash of the hashed viewing key and the 64-bit index; it comes
    * from one viewing key and one index. */
  lemma {:induction false} RecordedNullifierOpensOneWay(H: Hash, a: Identity, i: nat, b: Identity, j: nat)
    ensures i < 0x1_0000_0000_0000_0000 ==>
      ComputeNullifier(H, a, i) == H([H([FromBE(a.viewingKey) % SNARK_SCALAR_FIELD]), i])
    ensures ComputeNullifier(H, a, i + 0x1_0000_0000_0000_0000) == ComputeNullifier(H, a, i)
    ensures Injective(H) && ComputeNullifier(H, a, i) == ComputeNullifier(H, b, j) ==>
      && FromBE(a.viewingKey) % SNARK_SCALAR_FIELD == FromBE(b.viewingKey) % SNARK_SCALAR_FIELD
      && Uint64(i) == Uint64(j)
  {
    if Injective(H) && ComputeNullifier(H, a, i) == ComputeNullifier(H, b, j) {
      NullifierOpensOneWay(H, NullifyingKey(H, a), Uint64(i), NullifyingKey(H, b), Uint64(j));
      NullifyingKeyOpensOneWay(H, a, b);
    }
  }

  /** A master public key comes from one spending point and one viewing key. */
  lemma {:induction false} AddressFixesWallet(H: Hash, a: Identity, b: Identity)
    requires Injective(H) && MasterPublicKey(H, a) == MasterPublicKey(H, b)
    ensures a.spendX == b.spendX && a.spendY == b.spendY
    ensures FromBE(a.viewingKey) % SNARK_SCALAR_FIELD == FromBE(b.viewingKey) % SNARK_SCALAR_FIELD
  {
    var s, t := [a.spendX, a.spendY, NullifyingKey(H, a)], [b.spendX, b.spendY, NullifyingKey(H, b)];
    assert Separates(H, s, t);
    assert s[0] == a.spendX && s[1] == a.spendY && t[0] == b.spendX && t[1] == b.spendY;
    AddressFixesNullifyingKey(H, a, b);
    NullifyingKeyOpensOneWay(H, a, b);
  }

  /** Parties with the same address spend with the same nullifying key. */
  lemma {:induction false} AddressFixesNullifyingKey(H: Hash, a: Identity, b: Identity)
    requires Injective(H) && MasterPublicKey(H, a) == MasterPublicKey(H, b)
    ensures NullifyingKey(H, a) == NullifyingKey(H, b)
  {
    var s, t := [a.spendX, a.spendY, NullifyingKey(H, a)], [b.spendX, b.spendY, NullifyingKey(H, b)];
    assert Separates(H, s, t);
    assert s[2] == NullifyingKey(H, a) && t[2] == NullifyingKey(H, b);
  }
}
