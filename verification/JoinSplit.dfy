/** The joinsplit witness: railgunnote/witness.go, and the relation it must satisfy. */
module JoinSplit {
  import opened Notes
  import opened Wrappers
  import opened CommitmentTree

  const VALUE_BOUND: nat := 0x1_00000000_00000000_00000000_000000  // 2^120, the circuit's value range

  datatype Signature = Signature(r8x: nat, r8y: nat, s: nat)

  /** EdDSA over the spending key. */
  datatype Signer = Signer(sign: (nat, nat) -> Signature, verify: (nat, nat, nat, Signature) -> bool)

  /** The identity's public point is that of its spending key. */
  ghost predicate KeyPair(signer: Signer, id: Identity)
  {
    forall m: nat :: signer.verify(id.spendX, id.spendY, m, signer.sign(id.spendingKey, m))
  }

  /** The two-input hash of the tree. */
  function Pair(H: Hash): (nat, nat) -> nat
  {
    (a: nat, b: nat) => H([a, b])
  }

  lemma {:induction false} PairIsInjective(H: Hash)
    requires Injective(H)
    ensures Injective2(Pair(H))
  {
    forall a: nat, b: nat, c: nat, d: nat | Pair(H)(a, b) == Pair(H)(c, d) ensures a == c && b == d {
      assert Separates(H, [a, b], [c, d]);
      assert [a, b][0] == a && [a, b][1] == b && [c, d][0] == c && [c, d][1] == d;
    }
  }

  /** Every node of the tree is the hash of its left child, then its right. */
  lemma {:induction false} NodeHashes(H: Hash, zero: nat, leaves: seq<nat>, lvl: nat, idx: nat)
    ensures Node<nat>(Pair(H), zero, leaves, lvl + 1, idx)
         == H([Node<nat>(Pair(H), zero, leaves, lvl, 2 * idx), Node<nat>(Pair(H), zero, leaves, lvl, 2 * idx + 1)])
    ensures Node<nat>(Pair(H), zero, leaves, 1, idx)
         == H([if 2 * idx < |leaves| then leaves[2 * idx] else zero,
               if 2 * idx + 1 < |leaves| then leaves[2 * idx + 1] else zero])
  {
    assert Node<nat>(Pair(H), zero, leaves, 1, idx) == Pair(H)(LeafAt(zero, leaves, 2 * idx),
                                                               LeafAt(zero, leaves, 2 * idx + 1));
  }

  function TreeRoot(H: Hash, zero: nat, leaves: seq<nat>): nat
  {
    Node<nat>(Pair(H), zero, leaves, MERKLE_DEPTH, 0)
  }

  function TreePath(H: Hash, zero: nat, leaves: seq<nat>, idx: nat): (path: seq<nat>)
    ensures |path| == MERKLE_DEPTH
  {
    PathTo<nat>(Pair(H), zero, leaves, idx, MERKLE_DEPTH)
  }

  /** A value folds to the root along the path of position `idx` exactly when it is the leaf
    * there. */
  lemma {:induction false} TreeBinds(H: Hash, zero: nat, leaves: seq<nat>, idx: nat, x: nat)
    requires Injective(H) && idx < 65536
    ensures RootFrom<nat>(Pair(H), x, idx, TreePath(H, zero, leaves, idx)) == TreeRoot(H, zero, leaves)
       <==> x == LeafAt(zero, leaves, idx)
  {
    DepthIs16();
    PairIsInjective(H);
    RootBindsPosition<nat>(Pair(H), zero, leaves, idx, MERKLE_DEPTH, x, TreePath(H, zero, leaves, idx));
  }

  datatype SpendInput = SpendInput(random: nat, noteValue: nat, leafIndex: nat, pathElements: seq<nat>)
  datatype SpendOutput = SpendOutput(npk: nat, noteValue: nat)

  datatype WitnessInputs = WitnessInputs(id: Identity, token: nat, merkleRoot: nat, boundParamsHash: nat,
                                         inputs: seq<SpendInput>, outputs: seq<SpendOutput>)

  /** The circuit signals, public then private. */
  datatype Witness = Witness(
    merkleRoot: nat, boundParamsHash: nat, nullifiers: seq<nat>, commitmentsOut: seq<nat>,
    token: nat, pubX: nat, pubY: nat, signature: Signature,
    randomIn: seq<nat>, valueIn: seq<nat>, pathElements: seq<seq<nat>>, leavesIndices: seq<nat>,
    nullifyingKey: nat, npkOut: seq<nat>, valueOut: seq<nat>)

  function Sum(vs: seq<nat>): nat
  {
    if vs == [] then 0 else Sum(vs[..|vs| - 1]) + vs[|vs| - 1]
  }

  lemma {:induction false} SumAppends(a: seq<nat>, b: seq<nat>)
    ensures Sum(a + b) == Sum(a) + Sum(b)
  {
    if b == [] {
      assert a + b == a;
    } else {
      SumAppends(a, b[..|b| - 1]);
      assert (a + b)[..|a + b| - 1] == a + b[..|b| - 1];
    }
  }

  // ---------------------------------------------------------------------------
  // The relation: the circuit's own equations over its signals
  // ---------------------------------------------------------------------------

  /** Input `i` is a note of the spender in the tree, nullified by the spender's key. */
  predicate InputSatisfied(H: Hash, w: Witness, i: nat)
    requires i < |w.nullifiers| == |w.randomIn| == |w.valueIn| == |w.pathElements| == |w.leavesIndices|
  {
    var mpk := H([w.pubX, w.pubY, w.nullifyingKey]);
    var npk := H([mpk, w.randomIn[i]]);
    var leaf := H([npk, w.token, w.valueIn[i]]);
    && w.nullifiers[i] == H([w.nullifyingKey, w.leavesIndices[i]])
    && |w.pathElements[i]| == MERKLE_DEPTH
    && RootFrom<nat>(Pair(H), leaf, w.leavesIndices[i], w.pathElements[i]) == w.merkleRoot
  }

  predicate OutputSatisfied(H: Hash, w: Witness, j: nat)
    requires j < |w.commitmentsOut| == |w.npkOut| == |w.valueOut|
  {
    && w.commitmentsOut[j] == H([w.npkOut[j], w.token, w.valueOut[j]])
    && w.valueOut[j] < VALUE_BOUND
  }

  predicate InputsSatisfied(H: Hash, w: Witness)
  {
    && |w.nullifiers| == |w.randomIn| == |w.valueIn| == |w.pathElements| == |w.leavesIndices|
    && forall i :: 0 <= i < |w.nullifiers| ==> InputSatisfied(H, w, i)
  }

  predicate OutputsSatisfied(H: Hash, w: Witness)
  {
    && |w.commitmentsOut| == |w.npkOut| == |w.valueOut|
    && forall j :: 0 <= j < |w.commitmentsOut| ==> OutputSatisfied(H, w, j)
  }

  /** The signals as the circuit sees them. */
  function FieldElements(vs: seq<nat>): (r: seq<nat>)
    ensures |r| == |vs|
  {
    seq(|vs|, i requires 0 <= i < |vs| => vs[i] % SNARK_SCALAR_FIELD)
  }

  /** The spending key signs root, bound parameters, nullifiers and commitments, in this order. */
  predicate Signed(H: Hash, signer: Signer, w: Witness)
  {
    var signals := [w.merkleRoot, w.boundParamsHash] + w.nullifiers + w.commitmentsOut;
    signer.verify(w.pubX, w.pubY, H(FieldElements(signals)), w.signature)
  }

  /** The joinsplit relation. */
  predicate Satisfies(H: Hash, signer: Signer, w: Witness)
  {
    InputsSatisfied(H, w) && OutputsSatisfied(H, w) && Sum(w.valueIn) == Sum(w.valueOut) && Signed(H, signer, w)
  }

  // ---------------------------------------------------------------------------
  // Building the witness
  // ---------------------------------------------------------------------------

  predicate PathsComplete(inputs: seq<SpendInput>)
  {
    forall i :: 0 <= i < |inputs| ==> |inputs[i].pathElements| == MERKLE_DEPTH
  }

  function Nullifiers(H: Hash, nullifyingKey: nat, inputs: seq<SpendInput>): (r: seq<nat>)
    ensures |r| == |inputs|
  {
    seq(|inputs|, i requires 0 <= i < |inputs| => Nullifier(H, nullifyingKey, Uint64(inputs[i].leafIndex)))
  }

  function Commitments(H: Hash, token: nat, outputs: seq<SpendOutput>): (r: seq<nat>)
    ensures |r| == |outputs|
  {
    seq(|outputs|, j requires 0 <= j < |outputs| => Commitment(H, outputs[j].npk, token, outputs[j].noteValue))
  }

  function InputValues(inputs: seq<SpendInput>): (r: seq<nat>)
    ensures |r| == |inputs|
  {
    seq(|inputs|, i requires 0 <= i < |inputs| => inputs[i].noteValue)
  }

  function OutputValues(outputs: seq<SpendOutput>): (r: seq<nat>)
    ensures |r| == |outputs|
  {
    seq(|outputs|, j requires 0 <= j < |outputs| => outputs[j].noteValue)
  }

  function WitnessOf(H: Hash, signer: Signer, w: WitnessInputs): Witness
  {
    var nullifiers := Nullifiers(H, NullifyingKey(H, w.id), w.inputs);
    var commitments := Commitments(H, w.token, w.outputs);
    var message := SignatureMessage(H, w.merkleRoot, w.boundParamsHash, nullifiers, commitments);
    Witness(Reduce(w.merkleRoot), Reduce(w.boundParamsHash), nullifiers, commitments,
            w.token, w.id.spendX, w.id.spendY, signer.sign(w.id.spendingKey, message),
            seq(|w.inputs|, i requires 0 <= i < |w.inputs| => w.inputs[i].random),
            InputValues(w.inputs),
            seq(|w.inputs|, i requires 0 <= i < |w.inputs| => w.inputs[i].pathElements),
            seq(|w.inputs|, i requires 0 <= i < |w.inputs| => w.inputs[i].leafIndex),
            NullifyingKey(H, w.id),
            seq(|w.outputs|, j requires 0 <= j < |w.outputs| => w.outputs[j].npk),
            OutputValues(w.outputs))
  }

  function Build(H: Hash, signer: Signer, w: WitnessInputs): Option<Witness>
  {
    if w.inputs == [] || w.outputs == [] || !PathsComplete(w.inputs) then None
    else Some(WitnessOf(H, signer, w))
  }

  /** Fills the parallel slices input by input, then output by output. */
  method BuildWitness(H: Hash, signer: Signer, w: WitnessInputs) returns (r: Option<Witness>)
    ensures r == Build(H, signer, w)
  {
    if |w.inputs| == 0 || |w.outputs| == 0 {
      return None;
    }
    var nullifyingKey := NullifyingKey(H, w.id);
    ghost var spec := WitnessOf(H, signer, w);
    var nullifiers, randomIn, valueIn, leavesIndices := [], [], [], [];
    var pathElements: seq<seq<nat>> := [];
    for i := 0 to |w.inputs|
      invariant PathsComplete(w.inputs[..i])
      invariant nullifiers == spec.nullifiers[..i] && randomIn == spec.randomIn[..i] && valueIn == spec.valueIn[..i]
      invariant leavesIndices == spec.leavesIndices[..i] && pathElements == spec.pathElements[..i]
    {
      var input := w.inputs[i];
      if |input.pathElements| != MERKLE_DEPTH {
        return None;
      }
      nullifiers := nullifiers + [Nullifier(H, nullifyingKey, Uint64(input.leafIndex))];
      randomIn := randomIn + [input.random];
      valueIn := valueIn + [input.noteValue];
      leavesIndices := leavesIndices + [input.leafIndex];
      pathElements := pathElements + [input.pathElements];
    }
    assert w.inputs[..|w.inputs|] == w.inputs;
    var commitmentsOut, npkOut, valueOut := [], [], [];
    for j := 0 to |w.outputs|
      invariant commitmentsOut == spec.commitmentsOut[..j] && npkOut == spec.npkOut[..j]
      invariant valueOut == spec.valueOut[..j]
    {
      var output := w.outputs[j];
      commitmentsOut := commitmentsOut + [Commitment(H, output.npk, w.token, output.noteValue)];
      npkOut := npkOut + [output.npk];
      valueOut := valueOut + [output.noteValue];
    }
    assert nullifiers == spec.nullifiers && randomIn == spec.randomIn && valueIn == spec.valueIn;
    assert leavesIndices == spec.leavesIndices && pathElements == spec.pathElements;
    assert commitmentsOut == spec.commitmentsOut && npkOut == spec.npkOut && valueOut == spec.valueOut;
    var sighash := SignatureMessage(H, w.merkleRoot, w.boundParamsHash, nullifiers, commitmentsOut);
    r := Some(Witness(Reduce(w.merkleRoot), Reduce(w.boundParamsHash), nullifiers, commitmentsOut,
                      w.token, w.id.spendX, w.id.spendY, signer.sign(w.id.spendingKey, sighash),
                      randomIn, valueIn, pathElements, leavesIndices, nullifyingKey, npkOut, valueOut));
  }

  // ---------------------------------------------------------------------------
  // When the relation holds
  // ---------------------------------------------------------------------------

  lemma {:induction false} ReduceTwice(v: nat)
    ensures Reduce(Reduce(v)) == Reduce(v)
  {
  }

  /** The note is the spender's, and its commitment is in the tree at its index. */
  ghost predicate InTree(H: Hash, leaves: seq<nat>, id: Identity, n: Note)
  {
    && n.owner == MasterPublicKey(H, id)
    && n.leafIndex < |leaves| && leaves[n.leafIndex] == NoteHash(H, n)
  }

  /** The input that spends a note, with the path the tree gives out. */
  function InputFor(H: Hash, zero: nat, leaves: seq<nat>, n: Note): SpendInput
  {
    SpendInput(n.random, n.value, n.leafIndex, TreePath(H, zero, leaves, n.leafIndex))
  }

  ghost predicate SpendsFrom(H: Hash, zero: nat, leaves: seq<nat>, notes: seq<Note>, inputs: seq<SpendInput>)
  {
    && |inputs| == |notes|
    && forall i :: 0 <= i < |notes| ==> inputs[i] == InputFor(H, zero, leaves, notes[i])
  }

  /** The note is the spender's, and its index is one of the tree's. */
  ghost predicate Owned(H: Hash, id: Identity, n: Note)
  {
    n.owner == MasterPublicKey(H, id) && n.leafIndex < 65536
  }

  /** At the note's index stands the commitment to it, as a note of the token being spent. */
  ghost predicate Opens(H: Hash, zero: nat, leaves: seq<nat>, token: nat, n: Note)
  {
    LeafAt(zero, leaves, n.leafIndex) == NoteHash(H, n.(token := token))
  }

  /** The witness for any notes of the spender, wherever they stand, satisfies the relation
    * exactly when the leaf at each note's index is its commitment in the token being spent,
    * the outputs are in range, and the values balance. */
  lemma {:induction false} AcceptedExactly(H: Hash, signer: Signer, zero: nat, leaves: seq<nat>, notes: seq<Note>,
                                           w: WitnessInputs)
    requires Injective(H) && KeyPair(signer, w.id) && forall i :: 0 <= i < |notes| ==> Owned(H, w.id, notes[i])
    requires SpendsFrom(H, zero, leaves, notes, w.inputs)
    requires w.merkleRoot == TreeRoot(H, zero, leaves) && w.merkleRoot < SNARK_SCALAR_FIELD
    ensures Satisfies(H, signer, WitnessOf(H, signer, w)) <==>
      && (forall i :: 0 <= i < |notes| ==> Opens(H, zero, leaves, w.token, notes[i]))
      && (forall j :: 0 <= j < |w.outputs| ==> w.outputs[j].noteValue < VALUE_BOUND)
      && Sum(InputValues(w.inputs)) == Sum(OutputValues(w.outputs))
  {
    forall i | 0 <= i < |notes|
      ensures InputSatisfied(H, WitnessOf(H, signer, w), i) <==> Opens(H, zero, leaves, w.token, notes[i])
    {
      InputAcceptedExactly(H, signer, zero, leaves, notes[i], w, i);
    }
    OutputsSatisfiedExactly(H, signer, w);
    SignatureChecks(H, signer, w);
  }

  /** The witness for notes of the tree satisfies the relation exactly when the notes have
    * the token being spent, the outputs are in range, and the values balance.  Selection
    * filters by owner only, so a note of another token is what makes proving fail. */
  lemma {:induction false} SatisfiedExactly(H: Hash, signer: Signer, zero: nat, leaves: seq<nat>, notes: seq<Note>,
                                            w: WitnessInputs)
    requires Injective(H) && KeyPair(signer, w.id) && |leaves| <= 65536
    requires forall i :: 0 <= i < |notes| ==> InTree(H, leaves, w.id, notes[i])
    requires SpendsFrom(H, zero, leaves, notes, w.inputs)
    requires w.merkleRoot == TreeRoot(H, zero, leaves) && w.merkleRoot < SNARK_SCALAR_FIELD
    ensures Satisfies(H, signer, WitnessOf(H, signer, w)) <==>
      && (forall i :: 0 <= i < |notes| ==> notes[i].token == w.token)
      && (forall j :: 0 <= j < |w.outputs| ==> w.outputs[j].noteValue < VALUE_BOUND)
      && Sum(InputValues(w.inputs)) == Sum(OutputValues(w.outputs))
  {
    AcceptedExactly(H, signer, zero, leaves, notes, w);
    forall i | 0 <= i < |notes| ensures Opens(H, zero, leaves, w.token, notes[i]) <==> notes[i].token == w.token {
      OpensInTree(H, zero, leaves, w.id, w.token, notes[i]);
    }
  }

  lemma {:induction false} OpensInTree(H: Hash, zero: nat, leaves: seq<nat>, id: Identity, token: nat, n: Note)
    requires Injective(H) && InTree(H, leaves, id, n)
    ensures Opens(H, zero, leaves, token, n) <==> n.token == token
  {
    var respent := n.(token := token);
    if NoteHash(H, respent) == NoteHash(H, n) {
      CommitmentOpensOneWay(H, respent, n);
    }
  }

  /** A note at whose index another note's commitment stands cannot be spent, in any token. */
  lemma {:induction false} MisplacedNoteUnspendable(H: Hash, signer: Signer, zero: nat, leaves: seq<nat>,
                                                    notes: seq<Note>, w: WitnessInputs, k: nat, other: Note)
    requires Injective(H) && KeyPair(signer, w.id) && forall i :: 0 <= i < |notes| ==> Owned(H, w.id, notes[i])
    requires SpendsFrom(H, zero, leaves, notes, w.inputs)
    requires w.merkleRoot == TreeRoot(H, zero, leaves) && w.merkleRoot < SNARK_SCALAR_FIELD
    requires k < |notes| && notes[k].random != other.random
    requires LeafAt(zero, leaves, notes[k].leafIndex) == NoteHash(H, other)
    ensures !Satisfies(H, signer, WitnessOf(H, signer, w))
  {
    AcceptedExactly(H, signer, zero, leaves, notes, w);
    if Opens(H, zero, leaves, w.token, notes[k]) {
      CommitmentOpensOneWay(H, notes[k].(token := w.token), other);
    }
  }

  lemma {:induction false} OutputsSatisfiedExactly(H: Hash, signer: Signer, w: WitnessInputs)
    ensures OutputsSatisfied(H, WitnessOf(H, signer, w))
      <==> forall j :: 0 <= j < |w.outputs| ==> w.outputs[j].noteValue < VALUE_BOUND
  {
    var wit := WitnessOf(H, signer, w);
    forall j | 0 <= j < |w.outputs| ensures OutputSatisfied(H, wit, j) <==> w.outputs[j].noteValue < VALUE_BOUND {
    }
  }

  /** The signature is over the same message the verifier rebuilds from reduced signals. */
  lemma {:induction false} SignatureChecks(H: Hash, signer: Signer, w: WitnessInputs)
    requires KeyPair(signer, w.id)
    ensures Signed(H, signer, WitnessOf(H, signer, w))
  {
    var wit := WitnessOf(H, signer, w);
    MessageIsOfSignals(H, w.merkleRoot, w.boundParamsHash, wit.nullifiers, wit.commitmentsOut);
  }

  /** What is signed is the hash of the circuit's signals: reducing the root and the bound
    * parameters first makes no difference. */
  lemma {:induction false} MessageIsOfSignals(
    H: Hash, root: nat, bound: nat, nullifiers: seq<nat>, commitments: seq<nat>)
    ensures SignatureMessage(H, root, bound, nullifiers, commitments)
         == H(FieldElements([Reduce(root), Reduce(bound)] + nullifiers + commitments))
  {
    ReduceTwice(root);
    ReduceTwice(bound);
    ReducedAll(nullifiers);
    ReducedAll(commitments);
    assert [Reduce(root), Reduce(bound)] + ReduceAll(nullifiers) + ReduceAll(commitments)
        == FieldElements([Reduce(root), Reduce(bound)] + nullifiers + commitments);
  }

  lemma {:induction false} ReducedAll(vs: seq<nat>)
    ensures ReduceAll(vs) == FieldElements(vs)
  {
    if vs != [] {
      ReducedAll(vs[1..]);
      assert FieldElements(vs) == [vs[0] % SNARK_SCALAR_FIELD] + FieldElements(vs[1..]);
    }
  }

  /** When hashes are field elements, the signature is over the very signals of the witness:
    * another root, other bound parameters, nullifiers or commitments make another message. */
  lemma {:induction false} SignsTheSignals(H: Hash, signer: Signer, w: WitnessInputs)
    requires KeyPair(signer, w.id) && forall x: seq<nat> :: H(x) < SNARK_SCALAR_FIELD
    ensures var wit := WitnessOf(H, signer, w);
      signer.verify(wit.pubX, wit.pubY,
                    H([wit.merkleRoot, wit.boundParamsHash] + wit.nullifiers + wit.commitmentsOut), wit.signature)
  {
    SignatureChecks(H, signer, w);
    var wit := WitnessOf(H, signer, w);
    var signals := [wit.merkleRoot, wit.boundParamsHash] + wit.nullifiers + wit.commitmentsOut;
    assert FieldElements(signals) == signals;
  }

  /** Under an injective hash one message is signed for one root, one hash of bound parameters,
    * and one list of nullifiers and commitments. */
  lemma {:induction false} MessageOpensOneWay(H: Hash, signals: seq<nat>, others: seq<nat>)
    requires Injective(H) && H(FieldElements(signals)) == H(FieldElements(others))
    ensures |signals| == |others|
    ensures forall i :: 0 <= i < |signals| ==> signals[i] % SNARK_SCALAR_FIELD == others[i] % SNARK_SCALAR_FIELD
  {
    assert Separates(H, FieldElements(signals), FieldElements(others));
    forall i | 0 <= i < |signals|
      ensures signals[i] % SNARK_SCALAR_FIELD == others[i] % SNARK_SCALAR_FIELD
    {
      assert FieldElements(signals)[i] == FieldElements(others)[i];
    }
  }

  lemma {:induction false} InputAcceptedExactly(H: Hash, signer: Signer, zero: nat, leaves: seq<nat>, n: Note,
                                                w: WitnessInputs, i: nat)
    requires Injective(H) && i < |w.inputs| && Owned(H, w.id, n) && w.inputs[i] == InputFor(H, zero, leaves, n)
    requires w.merkleRoot == TreeRoot(H, zero, leaves) && w.merkleRoot < SNARK_SCALAR_FIELD
    ensures InputSatisfied(H, WitnessOf(H, signer, w), i) <==> Opens(H, zero, leaves, w.token, n)
  {
    TreeBinds(H, zero, leaves, n.leafIndex, NoteHash(H, n.(token := w.token)));
    var wit := WitnessOf(H, signer, w);
    assert wit.nullifiers[i] == Nullifier(H, wit.nullifyingKey, wit.leavesIndices[i]);
    assert wit.pathElements[i] == TreePath(H, zero, leaves, n.leafIndex);
    assert wit.merkleRoot == w.merkleRoot;
  }

  lemma {:induction false} DepthIs16()
    ensures Arithmetic.Pow2(MERKLE_DEPTH) == 65536
  {
    Arithmetic.Pow2Plus5(0);
    Arithmetic.Pow2Plus5(5);
    Arithmetic.Pow2Plus5(10);
  }

  /** The nullifiers of the witness are the ones recorded with the stored notes. */
  lemma {:induction false} WitnessNullifiersAreRecorded(H: Hash, signer: Signer, zero: nat, leaves: seq<nat>,
                                                        notes: seq<Note>, w: WitnessInputs)
    requires SpendsFrom(H, zero, leaves, notes, w.inputs)
    ensures var ns := WitnessOf(H, signer, w).nullifiers;
      |ns| == |notes| && forall i :: 0 <= i < |notes| ==> ns[i] == ComputeNullifier(H, w.id, notes[i].leafIndex)
  {
  }
}
