/** From a proving payload to an on-chain transaction: fungible/proving.go.
  *
  * The prover is modelled by the relation it proves: it succeeds when the circuit exists
  * and the witness satisfies `JoinSplit.Satisfies`, and its proof is that witness.
  * Numbers in a payload are strings; negative ones are not produced and read as invalid. */
module Proving {
  import opened Notes
  import opened Bytes
  import opened Wrappers
  import opened JoinSplit
  import opened Fields
  import opened NoteCiphertext

  datatype PayloadInput = PayloadInput(random: string, noteValue: string, leafIndex: nat, pathElements: seq<string>)

  /** An output; the last three are empty when the output needs no ciphertext. */
  datatype PayloadOutput = PayloadOutput(npk: string, noteValue: string, random: string, ownerMPK: string,
                                         ownerViewingPub: string)

  datatype CommitmentCiphertext = CommitmentCiphertext(ciphertext: seq<seq<Byte>>, blindedSender: seq<Byte>,
                                                       blindedReceiver: seq<Byte>, annotationData: string,
                                                         memo: seq<Byte>)

  /** The bound parameters that vary; the others are constants of every transaction. */
  datatype BoundParams = BoundParams(unshield: bool, chainID: int, ciphertexts: seq<CommitmentCiphertext>)

  datatype ProvingPayload = ProvingPayload(token: string, tokenAddress: string, merkleRoot: string,
                                           inputs: seq<PayloadInput>, outputs: seq<PayloadOutput>,
                                           boundParams: BoundParams, unshieldValue: string, txID: string)

  datatype UnshieldPreimage = UnshieldPreimage(npk: string, tokenAddress: string, noteValue: string)

  datatype Transaction = Transaction(merkleRoot: nat, nullifiers: seq<nat>, commitments: seq<nat>,
                                     boundParams: BoundParams, unshieldPreimage: Option<UnshieldPreimage>,
                                       proof: Witness)

  /** What the domain is configured with, and the primitives it calls. */
  datatype Env = Env(H: Hash, zero: nat, signer: Signer, crypto: Primitives,
                     boundHash: BoundParams -> nat, hasCircuit: (nat, nat) -> bool, chainID: int)

  // ---------------------------------------------------------------------------
  // Decoding the payload
  // ---------------------------------------------------------------------------

  function DecodeNat(s: string): Option<nat>
  {
    match DecodeField(s)
    case None => None
    case Some(v) => if v < 0 then None else Some(v)
  }

  lemma {:induction false} DecodeNatOfDecimal(v: nat)
    ensures DecodeNat(Decimal(v)) == Some(v)
  {
    DecodeDecimal(v);
  }

  /** All the results, or nothing. */
  function Collect<T, U>(f: T -> Option<U>, xs: seq<T>): (r: Option<seq<U>>)
    ensures r.Some? <==> forall i :: 0 <= i < |xs| ==> f(xs[i]).Some?
    ensures r.Some? ==> |r.value| == |xs| && forall i :: 0 <= i < |xs| ==> r.value[i] == f(xs[i]).value
  {
    if xs == [] then Some([])
    else
      var n := |xs| - 1;
      var init := Collect(f, xs[..n]);
      assert (forall i :: 0 <= i < |xs| ==> f(xs[i]).Some?)
        <==> (forall i :: 0 <= i < n ==> f(xs[..n][i]).Some?) && f(xs[n]).Some?;
      match (init, f(xs[n]))
      case (Some(ys), Some(y)) => Some(ys + [y])
      case _ => None
  }

  lemma {:induction false} CollectIs<T, U>(f: T -> Option<U>, xs: seq<T>, ys: seq<U>)
    requires |ys| == |xs| && forall i :: 0 <= i < |xs| ==> f(xs[i]) == Some(ys[i])
    ensures Collect(f, xs) == Some(ys)
  {
    assert Collect(f, xs).value == ys;
  }

  lemma {:induction false} CollectFails<T, U>(f: T -> Option<U>, xs: seq<T>, i: nat)
    requires i < |xs| && f(xs[i]).None?
    ensures Collect(f, xs).None?
  {
  }

  function DecodeInput(input: PayloadInput): Option<SpendInput>
  {
    match (DecodeNat(input.random), DecodeNat(input.noteValue), Collect(DecodeNat, input.pathElements))
    case (Some(r), Some(v), Some(path)) => Some(SpendInput(r, v, input.leafIndex, path))
    case _ => None
  }

  function DecodeOutput(output: PayloadOutput): Option<SpendOutput>
  {
    match (DecodeNat(output.npk), DecodeNat(output.noteValue))
    case (Some(npk), Some(v)) => Some(SpendOutput(npk, v))
    case _ => None
  }

  // ---------------------------------------------------------------------------
  // Note ciphertexts
  // ---------------------------------------------------------------------------

  function Annotation(txID: string): string
  {
    if txID == "" then "0x" else txID
  }

  function TrimHexPrefix(s: string): string
  {
    if "0x" <= s then s[2..] else s
  }

  /** The ciphertext for one output.  Values over 128 bits are refused; the other bounds
    * are where the original's FillBytes would panic. */
  function OutputCiphertext(env: Env, id: Identity, out: PayloadOutput, placeholder: CommitmentCiphertext,
                            token: nat, txID: string, iv: seq<Byte>): Option<CommitmentCiphertext>
  {
    if out.ownerViewingPub == "" then Some(placeholder.(annotationData := Annotation(txID)))
    else
      match (Unhex(TrimHexPrefix(out.ownerViewingPub)), DecodeNat(out.ownerMPK), DecodeNat(out.random),
             DecodeNat(out.noteValue))
      case (Some(pub), Some(mpk), Some(random), Some(v)) => Encrypted(env, id, pub, mpk, random, v, token, txID, iv)
      case _ => None
  }

  function Encrypted(env: Env, id: Identity, pub: seq<Byte>, mpk: nat, random: nat, v: nat, token: nat, txID: string,
                     iv: seq<Byte>)
    : Option<CommitmentCiphertext>
  {
    var senderMPK := MasterPublicKey(env.H, id);
    if !Fits(v, 16) then None
    else if !Fits(random, 16) || !Fits(mpk, 32) || !Fits(senderMPK, 32) || !Fits(token, 32) then None
    else
      var note := TransactNote(mpk, senderMPK, ToBE(token, 32), ToBE(random, 16), ToBE(v, 16), []);
      match EncryptTransactNote(env.crypto, id.viewingKey, pub, note, iv)
      case None => None
      case Some(ec) =>
        Some(CommitmentCiphertext(ec.ciphertext, ec.blindedSender, ec.blindedReceiver, Annotation(txID), ec.memo))
  }

  /** A ciphertext slot: the output at its position, if any, its placeholder, and fresh
    * randomness. */
  datatype Slot = Slot(out: Option<PayloadOutput>, placeholder: CommitmentCiphertext, iv: seq<Byte>)

  function SlotsOf(p: ProvingPayload, ivs: nat -> seq<Byte>): (slots: seq<Slot>)
    ensures |slots| == |p.boundParams.ciphertexts|
  {
    var cts := p.boundParams.ciphertexts;
    seq(|cts|, i requires 0 <= i < |cts| => Slot(if i < |p.outputs| then Some(p.outputs[i]) else None, cts[i], ivs(i)))
  }

  /** Slots beyond the outputs keep their placeholder. */
  function SlotCiphertext(env: Env, id: Identity, token: nat, txID: string, s: Slot): Option<CommitmentCiphertext>
  {
    if s.out.None? then Some(s.placeholder)
    else OutputCiphertext(env, id, s.out.value, s.placeholder, token, txID, s.iv)
  }

  function SlotEncryptor(env: Env, id: Identity, token: nat, txID: string): Slot -> Option<CommitmentCiphertext>
  {
    (s: Slot) => SlotCiphertext(env, id, token, txID, s)
  }

  function EncryptedSlots(env: Env, id: Identity, p: ProvingPayload, token: nat, ivs: nat -> seq<Byte>)
    : Option<seq<CommitmentCiphertext>>
  {
    Collect(SlotEncryptor(env, id, token, p.txID), SlotsOf(p, ivs))
  }

  /** Replaces the placeholders in place; stops at the first slot that fails, or at the
    * first slot with no output. */
  method ReplaceInPlace(encrypt: Slot -> Option<CommitmentCiphertext>, slots: seq<Slot>,
                        cts: array<CommitmentCiphertext>)
    returns (ok: bool)
    requires cts.Length == |slots| && forall i :: 0 <= i < |slots| ==> cts[i] == slots[i].placeholder
    requires forall i, j :: 0 <= i < j < |slots| && slots[i].out.None? ==> slots[j].out.None?
    requires forall s: Slot :: s.out.None? ==> encrypt(s) == Some(s.placeholder)
    modifies cts
    ensures (if ok then Some(cts[..]) else None) == Collect(encrypt, slots)
  {
    for i := 0 to cts.Length
      invariant forall k :: 0 <= k < i ==> encrypt(slots[k]) == Some(cts[k])
      invariant forall k :: i <= k < cts.Length ==> cts[k] == slots[k].placeholder
    {
      if slots[i].out.None? {
        CollectIs(encrypt, slots, cts[..]);
        return true;
      }
      var c := encrypt(slots[i]);
      if c.None? {
        CollectFails(encrypt, slots, i);
        return false;
      }
      cts[i] := c.value;
    }
    CollectIs(encrypt, slots, cts[..]);
    ok := true;
  }

  method EncryptOutputCiphertext(env: Env, id: Identity, p: ProvingPayload, token: nat, ivs: nat -> seq<Byte>,
                                 cts: array<CommitmentCiphertext>) returns (ok: bool)
    requires cts[..] == p.boundParams.ciphertexts
    modifies cts
    ensures (if ok then Some(cts[..]) else None) == EncryptedSlots(env, id, p, token, ivs)
  {
    if cts.Length == 0 {
      assert cts[..] == [];
      return true;
    }
    ok := ReplaceInPlace(SlotEncryptor(env, id, token, p.txID), SlotsOf(p, ivs), cts);
  }

  // ---------------------------------------------------------------------------
  // The transaction
  // ---------------------------------------------------------------------------

  function Preimage(p: ProvingPayload): Option<Option<UnshieldPreimage>>
  {
    if p.unshieldValue == "" then Some(None)
    else if DecodeNat(p.tokenAddress).None? || !Fits(DecodeNat(p.tokenAddress).value, 20) || p.outputs == [] then None
    else Some(Some(UnshieldPreimage(p.outputs[|p.outputs| - 1].npk, p.tokenAddress, p.unshieldValue)))
  }

  function Prove(env: Env, root: nat, w: Witness, bound: BoundParams, preimage: Option<UnshieldPreimage>)
    : Option<Transaction>
  {
    if env.hasCircuit(|w.nullifiers|, |w.commitmentsOut|) && Satisfies(env.H, env.signer, w)
    then Some(Transaction(root, w.nullifiers, w.commitmentsOut, bound, preimage, w))
    else None
  }

  function GenerateTransaction(env: Env, id: Identity, p: ProvingPayload, ivs: nat -> seq<Byte>): Option<Transaction>
  {
    match (DecodeNat(p.token), DecodeNat(p.merkleRoot))
    case (Some(token), Some(root)) =>
      (match EncryptedSlots(env, id, p, token, ivs)
       case None => None
       case Some(cts) =>
         var bound := p.boundParams.(ciphertexts := cts);
         match (Collect(DecodeInput, p.inputs), Collect(DecodeOutput, p.outputs), Preimage(p))
         case (Some(inputs), Some(outputs), Some(preimage)) =>
           (match Build(env.H, env.signer, WitnessInputs(id, token, root, env.boundHash(bound), inputs, outputs))
            case None => None
            case Some(w) => Prove(env, root, w, bound, preimage))
         case _ => None)
    case _ => None
  }

  method DecodePath(elements: seq<string>) returns (path: Option<seq<nat>>)
    ensures path == Collect(DecodeNat, elements)
  {
    var out: seq<nat> := [];
    for j := 0 to |elements|
      invariant |out| == j && forall k :: 0 <= k < j ==> DecodeNat(elements[k]) == Some(out[k])
    {
      var pv := DecodeNat(elements[j]);
      if pv.None? {
        CollectFails(DecodeNat, elements, j);
        return None;
      }
      out := out + [pv.value];
    }
    CollectIs(DecodeNat, elements, out);
    path := Some(out);
  }

  method DecodeOneInput(input: PayloadInput) returns (r: Option<SpendInput>)
    ensures r == DecodeInput(input)
  {
    var random := DecodeNat(input.random);
    if random.None? {
      return None;
    }
    var v := DecodeNat(input.noteValue);
    if v.None? {
      return None;
    }
    var path := DecodePath(input.pathElements);
    if path.None? {
      return None;
    }
    r := Some(SpendInput(random.value, v.value, input.leafIndex, path.value));
  }

  method DecodeInputs(inputs: seq<PayloadInput>) returns (r: Option<seq<SpendInput>>)
    ensures r == Collect(DecodeInput, inputs)
  {
    var out: seq<SpendInput> := [];
    for i := 0 to |inputs|
      invariant |out| == i && forall k :: 0 <= k < i ==> DecodeInput(inputs[k]) == Some(out[k])
    {
      var input := DecodeOneInput(inputs[i]);
      if input.None? {
        CollectFails(DecodeInput, inputs, i);
        return None;
      }
      out := out + [input.value];
    }
    CollectIs(DecodeInput, inputs, out);
    r := Some(out);
  }

  method DecodeOutputs(outputs: seq<PayloadOutput>) returns (r: Option<seq<SpendOutput>>)
    ensures r == Collect(DecodeOutput, outputs)
  {
    var out: seq<SpendOutput> := [];
    for i := 0 to |outputs|
      invariant |out| == i && forall k :: 0 <= k < i ==> DecodeOutput(outputs[k]) == Some(out[k])
    {
      var npk := DecodeNat(outputs[i].npk);
      var v := DecodeNat(outputs[i].noteValue);
      if npk.None? || v.None? {
        CollectFails(DecodeOutput, outputs, i);
        return None;
      }
      out := out + [SpendOutput(npk.value, v.value)];
    }
    CollectIs(DecodeOutput, outputs, out);
    r := Some(out);
  }

  /** Encrypts the note ciphertexts first, because they are bound into the proof. */
  method GenerateTransactionProof(env: Env, id: Identity, p: ProvingPayload, ivs: nat -> seq<Byte>)
    returns (tx: Option<Transaction>)
    ensures tx == GenerateTransaction(env, id, p, ivs)
  {
    var token := DecodeNat(p.token);
    var root := DecodeNat(p.merkleRoot);
    if token.None? || root.None? {
      return None;
    }
    ghost var n := |p.boundParams.ciphertexts|;
    var cts := new CommitmentCiphertext[|p.boundParams.ciphertexts|](i requires 0 <= i < |p.boundParams.ciphertexts| =>
                                                                     p.boundParams.ciphertexts[i]);
    assert cts[..] == p.boundParams.ciphertexts;
    var ok := EncryptOutputCiphertext(env, id, p, token.value, ivs, cts);
    if !ok {
      return None;
    }
    var bound := p.boundParams.(ciphertexts := cts[..]);
    var inputs := DecodeInputs(p.inputs);
    var outputs := DecodeOutputs(p.outputs);
    var preimage := Preimage(p);
    if inputs.None? || outputs.None? || preimage.None? {
      return None;
    }
    var w := BuildWitness(env.H, env.signer,
                          WitnessInputs(id, token.value, root.value, env.boundHash(bound), inputs.value,
                                        outputs.value));
    if w.None? {
      return None;
    }
    tx := Prove(env, root.value, w.value, bound, preimage.value);
  }
}
