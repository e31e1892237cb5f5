/** What an assembled transfer or unshield proves and reveals: from the handler's outcome,
  * through the payload, to the on-chain transaction and the recipient's wallet. */
module Spending {
  import opened Notes
  import opened Bytes
  import opened Wrappers
  import opened Paging
  import opened JoinSplit
  import opened Fields
  import opened NoteCiphertext
  import opened Proving
  import opened Assembly
  import NoteSelection

  function SpendOutputs(H: Hash, outs: seq<OutNote>): (r: seq<SpendOutput>)
    ensures |r| == |outs| && forall j :: 0 <= j < |outs| ==> r[j] == SpendOutputOf(H, outs[j])
  {
    seq(|outs|, j requires 0 <= j < |outs| => SpendOutputOf(H, outs[j]))
  }

  /** The witness inputs of a transaction that spends `notes` of the tree `leaves`. */
  function SpendOf(env: Env, id: Identity, leaves: seq<nat>, token: nat, notes: seq<Note>, outs: seq<SpendOutput>,
                   bound: BoundParams): WitnessInputs
  {
    WitnessInputs(id, token, TreeRoot(env.H, env.zero, leaves), env.boundHash(bound),
                  InputsFor(env.H, env.zero, leaves, notes), outs)
  }

  // ---------------------------------------------------------------------------
  // The transaction made from a payload
  // ---------------------------------------------------------------------------

  /** The prover reads these numbers from the payload. */
  ghost predicate ReadsAs(env: Env, leaves: seq<nat>, token: nat, notes: seq<Note>, outs: seq<SpendOutput>,
                          p: ProvingPayload)
  {
    && DecodeNat(p.token) == Some(token)
    && DecodeNat(p.merkleRoot) == Some(TreeRoot(env.H, env.zero, leaves))
    && Collect(DecodeInput, p.inputs) == Some(InputsFor(env.H, env.zero, leaves, notes))
    && Collect(DecodeOutput, p.outputs) == Some(outs)
  }

  lemma {:induction false} InputsHavePaths(H: Hash, zero: nat, leaves: seq<nat>, notes: seq<Note>)
    ensures PathsComplete(InputsFor(H, zero, leaves, notes))
    ensures InputValues(InputsFor(H, zero, leaves, notes)) == NoteValues(notes)
  {
  }

  function NoteValues(notes: seq<Note>): seq<nat>
  {
    seq(|notes|, i requires 0 <= i < |notes| => notes[i].value)
  }

  lemma {:induction false} GenerationNeeds(env: Env, id: Identity, p: ProvingPayload, token: nat, ivs: nat -> seq<Byte>)
    requires DecodeNat(p.token) == Some(token) && GenerateTransaction(env, id, p, ivs).Some?
    ensures EncryptedSlots(env, id, p, token, ivs).Some? && Preimage(p).Some?
  {
  }

  /** A payload, once encrypted, proves exactly the spend it reads as. */
  lemma {:induction false} Generated(env: Env, id: Identity, leaves: seq<nat>, token: nat, notes: seq<Note>,
                                     outs: seq<SpendOutput>, p: ProvingPayload, ivs: nat -> seq<Byte>,
                                     cts: seq<CommitmentCiphertext>, preimage: Option<UnshieldPreimage>)
    requires ReadsAs(env, leaves, token, notes, outs, p) && notes != [] && outs != []
    requires EncryptedSlots(env, id, p, token, ivs) == Some(cts) && Preimage(p) == Some(preimage)
    ensures var bound := p.boundParams.(ciphertexts := cts);
      GenerateTransaction(env, id, p, ivs)
        == Prove(env, TreeRoot(env.H, env.zero, leaves),
                 WitnessOf(env.H, env.signer, SpendOf(env, id, leaves, token, notes, outs, bound)), bound, preimage)
  {
    InputsHavePaths(env.H, env.zero, leaves, notes);
  }

  /** What is public about a transaction that spends `notes` into `outs`. */
  ghost predicate Spends(env: Env, id: Identity, leaves: seq<nat>, token: nat, notes: seq<Note>, outs: seq<SpendOutput>,
                         tx: Transaction)
  {
    && tx.merkleRoot == TreeRoot(env.H, env.zero, leaves)
    && tx.proof == WitnessOf(env.H, env.signer, SpendOf(env, id, leaves, token, notes, outs, tx.boundParams))
    && Satisfies(env.H, env.signer, tx.proof)
    && tx.nullifiers == tx.proof.nullifiers
    && tx.commitments == tx.proof.commitmentsOut
  }

  lemma {:induction false} SlotsKeepCount(env: Env, id: Identity, p: ProvingPayload, token: nat, ivs: nat -> seq<Byte>)
    requires EncryptedSlots(env, id, p, token, ivs).Some?
    ensures var cts := EncryptedSlots(env, id, p, token, ivs).value;
      && |cts| == |p.boundParams.ciphertexts|
      && forall i :: 0 <= i < |cts| ==> SlotCiphertext(env, id, token, p.txID, SlotsOf(p, ivs)[i]) == Some(cts[i])
  {
  }

  lemma {:induction false} SlotAnnotated(env: Env, id: Identity, token: nat, txID: string, s: Slot)
    requires s.out.Some? && SlotCiphertext(env, id, token, txID, s).Some?
    ensures SlotCiphertext(env, id, token, txID, s).value.annotationData == Annotation(txID)
  {
  }

  lemma {:induction false} SlotsAnnotated(env: Env, id: Identity, p: ProvingPayload, token: nat, ivs: nat -> seq<Byte>)
    requires EncryptedSlots(env, id, p, token, ivs).Some? && |p.boundParams.ciphertexts| <= |p.outputs|
    ensures var cts := EncryptedSlots(env, id, p, token, ivs).value;
      |cts| == |p.boundParams.ciphertexts| && forall i :: 0 <= i < |cts| ==> cts[i].annotationData == Annotation(p.txID)
  {
    SlotsKeepCount(env, id, p, token, ivs);
    var cts := EncryptedSlots(env, id, p, token, ivs).value;
    forall i | 0 <= i < |cts| ensures cts[i].annotationData == Annotation(p.txID) {
      SlotAnnotated(env, id, token, p.txID, SlotsOf(p, ivs)[i]);
    }
  }

  /** The transaction a payload gives: it spends what the payload reads as, with the
    * payload's number of ciphertexts, each carrying the Paladin transaction id. */
  lemma {:induction false} TransactionOf(env: Env, id: Identity, leaves: seq<nat>, token: nat, notes: seq<Note>,
                                         outs: seq<SpendOutput>, p: ProvingPayload, ivs: nat -> seq<Byte>)
    requires ReadsAs(env, leaves, token, notes, outs, p) && notes != [] && outs != []
    requires |p.boundParams.ciphertexts| <= |p.outputs|
    requires GenerateTransaction(env, id, p, ivs).Some?
    ensures var tx := GenerateTransaction(env, id, p, ivs).value;
      && Spends(env, id, leaves, token, notes, outs, tx)
      && Some(tx.unshieldPreimage) == Preimage(p) && tx.boundParams.unshield == p.boundParams.unshield
      && tx.boundParams.chainID == p.boundParams.chainID
      && EncryptedSlots(env, id, p, token, ivs) == Some(tx.boundParams.ciphertexts)
      && |tx.boundParams.ciphertexts| == |p.boundParams.ciphertexts| && |tx.commitments| == |outs|
      && forall i :: 0 <= i < |tx.boundParams.ciphertexts| ==>
           tx.boundParams.ciphertexts[i].annotationData == Annotation(p.txID)
  {
    GenerationNeeds(env, id, p, token, ivs);
    SlotsAnnotated(env, id, p, token, ivs);
    Generated(env, id, leaves, token, notes, outs, p, ivs, EncryptedSlots(env, id, p, token, ivs).value,
              Preimage(p).value);
  }

  // ---------------------------------------------------------------------------
  // The handlers' payloads
  // ---------------------------------------------------------------------------

  /** A transfer's payload: the spend of `notes` into `outs`, one ciphertext slot each. */
  ghost predicate IsTransferPayload(env: Env, leaves: seq<nat>, token: nat, notes: seq<Note>, outs: seq<OutNote>,
                                    txID: string, p: ProvingPayload)
  {
    && ReadsAs(env, leaves, token, notes, SpendOutputs(env.H, outs), p)
    && p.outputs == RenderOutputs(env.H, outs)
    && |p.boundParams.ciphertexts| == |outs| && !p.boundParams.unshield && p.boundParams.chainID == env.chainID
    && p.unshieldValue == "" && p.txID == txID
  }

  lemma {:induction false} BuiltTransferPayload(env: Env, leaves: seq<nat>, token: nat, notes: seq<Note>,
                                                outs: seq<OutNote>, txID: string)
    requires Fits(token, 20)
    requires forall i :: 0 <= i < |notes| ==> notes[i].leafIndex < 0x1_0000_0000_0000_0000
    ensures IsTransferPayload(env, leaves, token, notes, outs, txID,
                              BuildPayload(env, leaves, token, notes, RenderOutputs(env.H, outs), false, "", txID))
  {
    TransferRenders(env.H, outs);
    PayloadReadsBack(env, leaves, token, notes, RenderOutputs(env.H, outs), SpendOutputs(env.H, outs), false, "", txID);
  }

  lemma {:induction false} TransferRenders(H: Hash, outs: seq<OutNote>)
    ensures |RenderOutputs(H, outs)| == |SpendOutputs(H, outs)|
    ensures forall i :: 0 <= i < |outs| ==> Renders(RenderOutputs(H, outs)[i], SpendOutputs(H, outs)[i])
  {
  }

  /** The unshield's two commitments: the change note, then the withdrawal. */
  function UnshieldOuts(H: Hash, change: OutNote, to: nat, amount: nat): seq<SpendOutput>
  {
    [SpendOutputOf(H, change), SpendOutput(to, amount)]
  }

  /** An unshield's payload: one ciphertext slot, for the change, and the withdrawal's value. */
  ghost predicate IsUnshieldPayload(env: Env, leaves: seq<nat>, token: nat, notes: seq<Note>, change: OutNote, to: nat,
                                    amount: nat, txID: string, p: ProvingPayload)
    requires Fits(token, 20)
  {
    && ReadsAs(env, leaves, token, notes, UnshieldOuts(env.H, change, to, amount), p)
    && p.outputs == [ChangeOutput(env.H, change), UnshieldOutput(to, amount)]
    && p.boundParams.ciphertexts == [PlaceholderCiphertext()]
    && p.boundParams.unshield && p.boundParams.chainID == env.chainID
    && p.tokenAddress == TokenString(token) && p.unshieldValue == Decimal(amount) && p.txID == txID
  }

  lemma {:induction false} BuiltUnshieldPayload(env: Env, leaves: seq<nat>, token: nat, notes: seq<Note>,
                                                change: OutNote, to: nat, amount: nat, txID: string)
    requires Fits(token, 20)
    requires forall i :: 0 <= i < |notes| ==> notes[i].leafIndex < 0x1_0000_0000_0000_0000
    ensures IsUnshieldPayload(env, leaves, token, notes, change, to, amount, txID,
              BuildPayload(env, leaves, token, notes, [ChangeOutput(env.H, change), UnshieldOutput(to, amount)], true,
                           Decimal(amount), txID))
  {
    PayloadReadsBack(env, leaves, token, notes, [ChangeOutput(env.H, change), UnshieldOutput(to, amount)],
                     UnshieldOuts(env.H, change, to, amount), true, Decimal(amount), txID);
  }

  // ---------------------------------------------------------------------------
  // The unshield preimage
  // ---------------------------------------------------------------------------

  lemma {:induction false} UnshieldPreimageOf(env: Env, leaves: seq<nat>, token: nat, notes: seq<Note>, change: OutNote,
                                              to: nat, amount: nat, txID: string, p: ProvingPayload)
    requires Fits(token, 20) && IsUnshieldPayload(env, leaves, token, notes, change, to, amount, txID, p)
    ensures Preimage(p) == Some(Some(UnshieldPreimage(Decimal(to), TokenString(token), Decimal(amount))))
  {
    TokenReadsBack(token);
    assert p.outputs[|p.outputs| - 1] == UnshieldOutput(to, amount);
  }

  /** How the contract reads the preimage: npk from the bytes32 calldata, value and token as
    * numbers. */
  ghost predicate PreimageOpens(H: Hash, pre: UnshieldPreimage, commitment: nat, toAddress: seq<Byte>, amount: nat)
    requires |toAddress| == 20
  {
    && DecodeNat(pre.tokenAddress).Some? && DecodeNat(pre.noteValue) == Some(amount)
    && commitment == Commitment(H, DecValue(pre.npk), DecodeNat(pre.tokenAddress).value, amount)
    && Fits(DecValue(pre.npk), 20) && ToBE(DecValue(pre.npk), 20) == toAddress
    && Fits(DecValue(pre.npk), 32) && DecToBytes32(pre.npk) == EncodeField(DecValue(pre.npk))
  }

  lemma {:induction false} AddressReadsBack(toAddress: seq<Byte>)
    requires |toAddress| == 20
    ensures var s := Decimal(FromBE(toAddress));
      && DecValue(s) == FromBE(toAddress) && Fits(DecValue(s), 20) && ToBE(DecValue(s), 20) == toAddress
      && Fits(DecValue(s), 32) && DecToBytes32(s) == EncodeField(DecValue(s))
  {
    FitsMore(FromBE(toAddress), 20, 32);
    DecimalToBytes32(FromBE(toAddress));
    ToBEFromBE(toAddress);
  }

  /** Read back as field elements, the preimage hashes to the transaction's last commitment,
    * and its npk gives back the 20-byte recipient address. */
  lemma {:induction false} UnshieldPreimageOpens(env: Env, id: Identity, leaves: seq<nat>, token: nat, notes: seq<Note>,
                                                 change: OutNote, toAddress: seq<Byte>, amount: nat, txID: string,
                                                 ivs: nat -> seq<Byte>, p: ProvingPayload)
    requires Fits(token, 20) && notes != [] && |toAddress| == 20
    requires IsUnshieldPayload(env, leaves, token, notes, change, FromBE(toAddress), amount, txID, p)
    requires GenerateTransaction(env, id, p, ivs).Some?
    ensures var tx := GenerateTransaction(env, id, p, ivs).value;
      |tx.commitments| == 2 && tx.unshieldPreimage.Some?
        && PreimageOpens(env.H, tx.unshieldPreimage.value, tx.commitments[1], toAddress, amount)
  {
    var to := FromBE(toAddress);
    TransactionOf(env, id, leaves, token, notes, UnshieldOuts(env.H, change, to, amount), p, ivs);
    UnshieldPreimageOf(env, leaves, token, notes, change, to, amount, txID, p);
    AddressReadsBack(toAddress);
    TokenReadsBack(token);
    DecodeNatOfDecimal(amount);
  }

  // ---------------------------------------------------------------------------
  // Ciphertexts
  // ---------------------------------------------------------------------------

  /** A rendered output's fields read back. */
  lemma {:induction false} OutputFieldsReadBack(H: Hash, o: OutNote)
    ensures var out := RenderOutput(H, o);
      && out.ownerViewingPub != ""
      && Unhex(TrimHexPrefix(out.ownerViewingPub)) == Some(o.keys.viewingPub)
      && DecodeNat(out.ownerMPK) == Some(o.keys.mpk)
      && DecodeNat(out.random) == Some(o.note.random)
      && DecodeNat(out.noteValue) == Some(o.note.value)
  {
    var h := Hex(o.keys.viewingPub);
    UnhexHex(o.keys.viewingPub);
    assert IsDigit(h[1]) by { assert h[1] in h; }
    assert !("0x" <= h) by { assert "0x"[1] == 'x'; }
    DecodeEncoded(o.keys.mpk);
    DecodeNatOfDecimal(o.note.random);
    DecodeNatOfDecimal(o.note.value);
  }

  lemma {:induction false} SlotIsEncrypted(env: Env, id: Identity, token: nat, txID: string, o: OutNote,
                                           placeholder: CommitmentCiphertext, iv: seq<Byte>)
    ensures SlotCiphertext(env, id, token, txID, Slot(Some(RenderOutput(env.H, o)), placeholder, iv))
         == Encrypted(env, id, o.keys.viewingPub, o.keys.mpk, o.note.random, o.note.value, token, txID, iv)
  {
    OutputFieldsReadBack(env.H, o);
  }

  function OnChain(c: CommitmentCiphertext): EncryptedCommitment
  {
    EncryptedCommitment(c.ciphertext, c.blindedSender, c.blindedReceiver, c.memo)
  }

  /** The wallet with seed `seed` and master key `mpk` reads, from ciphertext and commitment
    * alone, the note it was sent and who sent it. */
  ghost predicate Recovers(env: Env, seed: seq<Byte>, mpk: nat, senderMPK: nat, c: CommitmentCiphertext,
                           commitment: nat)
  {
    && |c.ciphertext| == 4
    && var d := DecryptTransactNote(env.crypto, seed, OnChain(c));
       && d.Some?
       && commitment
            == env.H([env.H([mpk, FromBE(d.value.random)]), FromBE(d.value.tokenHash), FromBE(d.value.noteValue)])
       && Xor(FromBE(d.value.encodedMPK), mpk) == senderMPK && d.value.memo == []
  }

  lemma {:induction false} EncryptedOpens(env: Env, id: Identity, mpk: nat, random: nat, v: nat, token: nat,
                                          txID: string, iv: seq<Byte>, seed: seq<Byte>)
    requires Lawful(env.crypto) && |seed| == 32
    requires Encrypted(env, id, PublicKey(env.crypto, seed), mpk, random, v, token, txID, iv).Some?
    ensures Recovers(env, seed, mpk, MasterPublicKey(env.H, id),
                     Encrypted(env, id, PublicKey(env.crypto, seed), mpk, random, v, token, txID, iv).value,
                     Commitment(env.H, NotePublicKey(env.H, mpk, random), token, v))
  {
    var note := TransactNote(mpk, MasterPublicKey(env.H, id), ToBE(token, 32), ToBE(random, 16), ToBE(v, 16), []);
    EncryptsExactly(env.crypto, id.viewingKey, PublicKey(env.crypto, seed), note, iv);
    TransactNoteRoundTrip(env.crypto, id.viewingKey, seed, note, iv);
  }

  /** Every transfer output whose keys belong to `seed` is recovered by that wallet: the
    * decrypted random, value and token hash to the commitment in the same position. */
  lemma {:induction false} RecipientRecoversNote(env: Env, id: Identity, leaves: seq<nat>, token: nat, notes: seq<Note>,
                                                 outs: seq<OutNote>, txID: string, ivs: nat -> seq<Byte>,
                                                 p: ProvingPayload, j: nat, seed: seq<Byte>)
    requires Lawful(env.crypto) && |seed| == 32 && notes != [] && j < |outs|
    requires IsTransferPayload(env, leaves, token, notes, outs, txID, p)
    requires GenerateTransaction(env, id, p, ivs).Some?
    requires outs[j].keys.viewingPub == PublicKey(env.crypto, seed) && outs[j].note.owner == outs[j].keys.mpk
    ensures var tx := GenerateTransaction(env, id, p, ivs).value;
      && j < |tx.commitments| && j < |tx.boundParams.ciphertexts|
      && Recovers(env, seed, outs[j].keys.mpk, MasterPublicKey(env.H, id), tx.boundParams.ciphertexts[j],
                  tx.commitments[j])
  {
    TransactionOf(env, id, leaves, token, notes, SpendOutputs(env.H, outs), p, ivs);
    SlotOfOutput(env, id, token, outs, p, ivs, j);
    EncryptedOpens(env, id, outs[j].keys.mpk, outs[j].note.random, outs[j].note.value, token, txID, ivs(j), seed);
  }

  lemma {:induction false} SlotOfOutput(env: Env, id: Identity, token: nat, outs: seq<OutNote>, p: ProvingPayload,
                                        ivs: nat -> seq<Byte>, j: nat)
    requires p.outputs == RenderOutputs(env.H, outs) && |p.boundParams.ciphertexts| == |outs| && j < |outs|
    requires EncryptedSlots(env, id, p, token, ivs).Some?
    ensures var o := outs[j];
      Some(EncryptedSlots(env, id, p, token, ivs).value[j])
        == Encrypted(env, id, o.keys.viewingPub, o.keys.mpk, o.note.random, o.note.value, token, p.txID, ivs(j))
  {
    SlotsKeepCount(env, id, p, token, ivs);
    var slot := SlotsOf(p, ivs)[j];
    assert slot == Slot(Some(RenderOutput(env.H, outs[j])), slot.placeholder, ivs(j));
    SlotIsEncrypted(env, id, token, p.txID, outs[j], slot.placeholder, ivs(j));
  }

  // ---------------------------------------------------------------------------
  // Ranges, and when proving succeeds
  // ---------------------------------------------------------------------------

  lemma {:induction false} AmountWithinTotal(entries: seq<TransferEntry>, i: nat)
    requires i < |entries|
    ensures Amount(entries[i]) <= TotalAmount(entries)
  {
    if i < |entries| - 1 {
      AmountWithinTotal(entries[..|entries| - 1], i);
    }
  }

  ghost predicate InRange(store: seq<NoteSelection.State>)
    requires Decodable(store)
  {
    forall i :: 0 <= i < |store| ==> store[i].data.value.value < VALUE_BOUND
  }

  ghost predicate OutsInRange(outs: seq<OutNote>)
  {
    forall j :: 0 <= j < |outs| ==> outs[j].note.value < VALUE_BOUND
  }

  /** If every stored note is below 2^120 and the parameters are valid, so is every output of
    * an assembled transfer: the change is less than the last note selected. */
  lemma {:induction false} TransferOutputsInRange(resolve: Resolver, sender: Recipient, token: nat,
                                                  entries: seq<TransferEntry>, store: seq<NoteSelection.State>,
                                                  randoms: nat -> nat, next: nat)
    requires ValidTransfers(entries) && Decodable(store) && InRange(store)
    requires NoteSelection.Select(store, TotalAmount(entries)).Selected?
    requires TransferOutputs(resolve, token, entries, randoms, next).Some?
    ensures var target := TotalAmount(entries);
      var s := NoteSelection.Select(store, target);
      s.total >= target
      && OutsInRange(WithChange(TransferOutputs(resolve, token, entries, randoms, next).value, sender, token,
                                s.total - target, randoms(|entries|), next))
  {
    NoteSelection.SelectedIsCover(store, TotalAmount(entries));
    ChangeInRange(entries, store);
    forall i | 0 <= i < |entries| ensures Amount(entries[i]) < VALUE_BOUND {
      AmountWithinTotal(entries, i);
    }
  }

  lemma {:induction false} ChangeInRange(entries: seq<TransferEntry>, store: seq<NoteSelection.State>)
    requires ValidTransfers(entries) && Decodable(store) && forall i :: 0 <= i < |store| ==>
      store[i].data.value.value < VALUE_BOUND
    requires NoteSelection.Select(store, TotalAmount(entries)).Selected?
    ensures NoteSelection.Select(store, TotalAmount(entries)).total - TotalAmount(entries) < VALUE_BOUND
  {
    var target := TotalAmount(entries);
    AmountWithinTotal(entries, 0);
    assert ValidEntry(entries[0]);
    NoteSelection.SelectedIsCover(store, target);
    NoteSelection.ChangeBelowLastNote(store, target);
    var s := NoteSelection.Select(store, target);
    assert s.states[|s.states| - 1] == store[|s.states| - 1];
  }

  lemma {:induction false} BoundFits(v: nat)
    requires v < VALUE_BOUND
    ensures Fits(v, 16)
  {
    FitsExactly(v, 16);
    assert Pow256(4) == 0x1_0000_0000;
    Pow256Sum(4, 4);
    Pow256Sum(8, 8);
  }

  /** The sizes that encryption needs: those of the sender's own keys, and of what it draws. */
  ghost predicate SizedFor(env: Env, id: Identity, o: OutNote, iv: seq<Byte>)
  {
    |id.viewingKey| == 32 && Fits(MasterPublicKey(env.H, id), 32) && Fits(o.note.random, 16) && |iv| == 16
  }

  /** The recipient's viewing key is a curve point: decoding its address does not check that. */
  ghost predicate OnCurve(env: Env, o: OutNote)
  {
    env.crypto.decompress(o.keys.viewingPub).Some?
  }

  /** For outputs in the circuit's range, the 128-bit width check and the 16-byte fill never
    * fail: encryption succeeds exactly when the recipient's viewing key is a curve point. */
  lemma {:induction false} EncryptionSucceeds(env: Env, id: Identity, o: OutNote, token: nat, txID: string,
                                              iv: seq<Byte>)
    requires Lawful(env.crypto) && SizedFor(env, id, o, iv) && Fits(token, 20) && o.note.value < VALUE_BOUND
    ensures Encrypted(env, id, o.keys.viewingPub, o.keys.mpk, o.note.random, o.note.value, token, txID, iv).Some?
       <==> OnCurve(env, o)
  {
    BoundFits(o.note.value);
    FitsMore(token, 20, 32);
    var note :=
      TransactNote(o.keys.mpk, MasterPublicKey(env.H, id), ToBE(token, 32), ToBE(o.note.random, 16),
                   ToBE(o.note.value, 16), []);
    EncryptsExactly(env.crypto, id.viewingKey, o.keys.viewingPub, note, iv);
  }

  ghost predicate AllOnCurve(env: Env, outs: seq<OutNote>)
  {
    forall j: nat :: j < |outs| ==> OnCurve(env, outs[j])
  }

  lemma {:induction false} TransferEncrypts(env: Env, id: Identity, token: nat, outs: seq<OutNote>,
                                            ivs: nat -> seq<Byte>, p: ProvingPayload)
    requires Lawful(env.crypto) && Fits(token, 20)
    requires p.outputs == RenderOutputs(env.H, outs) && |p.boundParams.ciphertexts| == |outs|
    requires Encryptable(env, id, outs, ivs)
    ensures EncryptedSlots(env, id, p, token, ivs).Some? <==> AllOnCurve(env, outs)
  {
    var slots := SlotsOf(p, ivs);
    forall j: nat | j < |slots|
      ensures SlotEncryptor(env, id, token, p.txID)(slots[j]).Some? <==> OnCurve(env, outs[j])
    {
      SlotEncrypts(env, id, token, outs[j], p.txID, slots[j].placeholder, ivs(j));
      assert slots[j] == Slot(Some(RenderOutput(env.H, outs[j])), slots[j].placeholder, ivs(j));
    }
  }

  lemma {:induction false} SlotEncrypts(env: Env, id: Identity, token: nat, o: OutNote, txID: string,
                                        placeholder: CommitmentCiphertext, iv: seq<Byte>)
    requires Lawful(env.crypto) && SizedFor(env, id, o, iv) && Fits(token, 20) && o.note.value < VALUE_BOUND
    ensures SlotCiphertext(env, id, token, txID, Slot(Some(RenderOutput(env.H, o)), placeholder, iv)).Some?
       <==> OnCurve(env, o)
  {
    SlotIsEncrypted(env, id, token, txID, o, placeholder, iv);
    EncryptionSucceeds(env, id, o, token, txID, iv);
  }

  /** Notes in the tree, about to be spent by their owner. */
  ghost predicate Spendable(env: Env, id: Identity, leaves: seq<nat>, notes: seq<Note>)
  {
    && notes != [] && |leaves| <= 65536 && TreeRoot(env.H, env.zero, leaves) < SNARK_SCALAR_FIELD
    && forall i :: 0 <= i < |notes| ==> InTree(env.H, leaves, id, notes[i])
  }

  ghost predicate OneToken(notes: seq<Note>, token: nat)
  {
    forall i :: 0 <= i < |notes| ==> notes[i].token == token
  }

  /** Proving a spend of notes in the tree succeeds exactly when its ciphertexts and preimage can
    * be made, there is a circuit of the size, the notes have the token being spent, the outputs
    * are in the circuit's range, and the values balance. */
  lemma {:induction false} ProvableExactly(env: Env, id: Identity, leaves: seq<nat>, token: nat, notes: seq<Note>,
                                           outs: seq<SpendOutput>, p: ProvingPayload, ivs: nat -> seq<Byte>)
    requires Injective(env.H) && KeyPair(env.signer, id) && Spendable(env, id, leaves, notes)
    requires ReadsAs(env, leaves, token, notes, outs, p) && outs != []
    ensures GenerateTransaction(env, id, p, ivs).Some? <==>
      && EncryptedSlots(env, id, p, token, ivs).Some? && Preimage(p).Some?
      && env.hasCircuit(|notes|, |outs|) && OneToken(notes, token)
      && (forall j :: 0 <= j < |outs| ==> outs[j].noteValue < VALUE_BOUND)
      && Sum(NoteValues(notes)) == Sum(OutputValues(outs))
  {
    if GenerateTransaction(env, id, p, ivs).Some? {
      GenerationNeeds(env, id, p, token, ivs);
    }
    if EncryptedSlots(env, id, p, token, ivs).Some? && Preimage(p).Some? {
      EncryptedProvableExactly(env, id, leaves, token, notes, outs, p, ivs,
                               EncryptedSlots(env, id, p, token, ivs).value, Preimage(p).value);
    }
  }

  lemma {:induction false} EncryptedProvableExactly(env: Env, id: Identity, leaves: seq<nat>, token: nat,
                                                    notes: seq<Note>, outs: seq<SpendOutput>, p: ProvingPayload,
                                                    ivs: nat -> seq<Byte>, cts: seq<CommitmentCiphertext>,
                                                    preimage: Option<UnshieldPreimage>)
    requires Injective(env.H) && KeyPair(env.signer, id) && Spendable(env, id, leaves, notes)
    requires ReadsAs(env, leaves, token, notes, outs, p) && outs != []
    requires EncryptedSlots(env, id, p, token, ivs) == Some(cts) && Preimage(p) == Some(preimage)
    ensures GenerateTransaction(env, id, p, ivs).Some? <==>
      && env.hasCircuit(|notes|, |outs|) && OneToken(notes, token)
      && (forall j :: 0 <= j < |outs| ==> outs[j].noteValue < VALUE_BOUND)
      && Sum(NoteValues(notes)) == Sum(OutputValues(outs))
  {
    Generated(env, id, leaves, token, notes, outs, p, ivs, cts, preimage);
    InputsHavePaths(env.H, env.zero, leaves, notes);
    SatisfiedExactly(env.H, env.signer, env.zero, leaves, notes,
                     SpendOf(env, id, leaves, token, notes, outs, p.boundParams.(ciphertexts := cts)));
  }

  /** Every output has the sizes encryption needs, and is in the circuit's range. */
  ghost predicate Encryptable(env: Env, id: Identity, outs: seq<OutNote>, ivs: nat -> seq<Byte>)
  {
    forall j: nat :: j < |outs| ==> SizedFor(env, id, outs[j], ivs(j)) && outs[j].note.value < VALUE_BOUND
  }

  /** A transfer of notes in the tree is provable exactly when there is a circuit, all of the
    * notes have the token being transferred, and all recipients' viewing keys are curve points.
    * (Selection looks at the owner only, and address decoding at lengths only.) */
  lemma {:induction false} TransferProvableExactly(env: Env, id: Identity, leaves: seq<nat>, token: nat,
                                                   notes: seq<Note>, outs: seq<OutNote>, txID: string,
                                                   ivs: nat -> seq<Byte>, p: ProvingPayload)
    requires Injective(env.H) && KeyPair(env.signer, id) && Lawful(env.crypto)
    requires Fits(token, 20) && outs != [] && Spendable(env, id, leaves, notes) && Encryptable(env, id, outs, ivs)
    requires Sum(NoteValues(notes)) == Sum(OutputValues(SpendOutputs(env.H, outs)))
    requires IsTransferPayload(env, leaves, token, notes, outs, txID, p)
    ensures GenerateTransaction(env, id, p, ivs).Some?
       <==> env.hasCircuit(|notes|, |outs|) && OneToken(notes, token) && AllOnCurve(env, outs)
  {
    TransferEncrypts(env, id, token, outs, ivs, p);
    OutputsInRange(env, id, outs, ivs);
    ProvableExactly(env, id, leaves, token, notes, SpendOutputs(env.H, outs), p, ivs);
  }

  lemma {:induction false} OutputsInRange(env: Env, id: Identity, outs: seq<OutNote>, ivs: nat -> seq<Byte>)
    requires Encryptable(env, id, outs, ivs)
    ensures forall j :: 0 <= j < |outs| ==> SpendOutputs(env.H, outs)[j].noteValue < VALUE_BOUND
  {
  }

  /** An unshield is provable exactly when, besides, the amount is in the circuit's range:
    * parameter validation does not bound it, and ten notes can cover more than 2^120. */
  lemma {:induction false} UnshieldProvableExactly(env: Env, id: Identity, leaves: seq<nat>, token: nat,
                                                   notes: seq<Note>, change: OutNote, to: nat, amount: nat,
                                                   txID: string, ivs: nat -> seq<Byte>, p: ProvingPayload)
    requires Injective(env.H) && KeyPair(env.signer, id)
    requires Fits(token, 20) && Spendable(env, id, leaves, notes) && change.note.value < VALUE_BOUND
    requires Sum(NoteValues(notes)) == Sum(OutputValues(UnshieldOuts(env.H, change, to, amount)))
    requires IsUnshieldPayload(env, leaves, token, notes, change, to, amount, txID, p)
    ensures GenerateTransaction(env, id, p, ivs).Some?
       <==> env.hasCircuit(|notes|, 2) && amount < VALUE_BOUND && OneToken(notes, token)
  {
    UnshieldReady(env, leaves, token, notes, change, to, amount, txID, p, id, ivs);
    UnshieldRange(env.H, change, to, amount);
    ProvableExactly(env, id, leaves, token, notes, UnshieldOuts(env.H, change, to, amount), p, ivs);
  }

  lemma {:induction false} UnshieldReady(env: Env, leaves: seq<nat>, token: nat, notes: seq<Note>, change: OutNote,
                                         to: nat, amount: nat, txID: string, p: ProvingPayload, id: Identity,
                                         ivs: nat -> seq<Byte>)
    requires Fits(token, 20) && IsUnshieldPayload(env, leaves, token, notes, change, to, amount, txID, p)
    ensures ReadsAs(env, leaves, token, notes, UnshieldOuts(env.H, change, to, amount), p)
    ensures EncryptedSlots(env, id, p, token, ivs).Some? && Preimage(p).Some?
  {
    UnshieldSlots(env, id, token, p, ivs);
    UnshieldPreimageOf(env, leaves, token, notes, change, to, amount, txID, p);
  }

  lemma {:induction false} UnshieldRange(H: Hash, change: OutNote, to: nat, amount: nat)
    requires change.note.value < VALUE_BOUND
    ensures var outs := UnshieldOuts(H, change, to, amount);
      (forall j :: 0 <= j < |outs| ==> outs[j].noteValue < VALUE_BOUND) <==> amount < VALUE_BOUND
  {
    var outs := UnshieldOuts(H, change, to, amount);
    assert outs[0].noteValue == change.note.value && outs[1].noteValue == amount;
  }

  lemma {:induction false} UnshieldSlots(env: Env, id: Identity, token: nat, p: ProvingPayload, ivs: nat -> seq<Byte>)
    requires forall i :: 0 <= i < |p.outputs| ==> p.outputs[i].ownerViewingPub == ""
    ensures EncryptedSlots(env, id, p, token, ivs).Some?
  {
    var slots := SlotsOf(p, ivs);
    forall j | 0 <= j < |slots| ensures SlotEncryptor(env, id, token, p.txID)(slots[j]).Some? {
    }
  }

  // ---------------------------------------------------------------------------
  // Ciphertext slots
  // ---------------------------------------------------------------------------

  predicate EmptyWord(b: seq<Byte>)
  {
    |b| == 32 && forall i :: 0 <= i < 32 ==> b[i] == 0
  }

  /** A slot that hides nothing, in the form the contract expects: four words and two keys of 32
    * zero bytes, no memo, and the Paladin transaction id. */
  predicate Unencrypted(ct: CommitmentCiphertext, txID: string)
  {
    && |ct.ciphertext| == 4 && (forall k :: 0 <= k < 4 ==> EmptyWord(ct.ciphertext[k]))
    && EmptyWord(ct.blindedSender) && EmptyWord(ct.blindedReceiver) && ct.memo == []
    && ct.annotationData == if txID == "" then "0x" else txID
  }

  /** The change of an unshield goes out unencrypted, and the withdrawal has no slot. */
  lemma {:induction false} UnshieldCiphertext(env: Env, id: Identity, leaves: seq<nat>, token: nat, notes: seq<Note>,
                                              change: OutNote, to: nat, amount: nat, txID: string,
                                              ivs: nat -> seq<Byte>, p: ProvingPayload)
    requires Fits(token, 20) && notes != []
    requires IsUnshieldPayload(env, leaves, token, notes, change, to, amount, txID, p)
    requires GenerateTransaction(env, id, p, ivs).Some?
    ensures var cts := GenerateTransaction(env, id, p, ivs).value.boundParams.ciphertexts;
      |cts| == 1 && Unencrypted(cts[0], txID)
  {
    TransactionOf(env, id, leaves, token, notes, UnshieldOuts(env.H, change, to, amount), p, ivs);
    SlotsKeepCount(env, id, p, token, ivs);
    var s := SlotsOf(p, ivs)[0];
    assert s.out == Some(ChangeOutput(env.H, change));
    PlaceholderStays(env, id, token, txID, s);
  }

  lemma {:induction false} PlaceholderStays(env: Env, id: Identity, token: nat, txID: string, s: Slot)
    requires s.out.Some? && s.out.value.ownerViewingPub == "" && s.placeholder == PlaceholderCiphertext()
    ensures SlotCiphertext(env, id, token, txID, s).Some?
    ensures Unencrypted(SlotCiphertext(env, id, token, txID, s).value, txID)
  {
  }

  /** A note is encrypted exactly if its numbers have their widths, the keys and the IV their
    * lengths, and the recipient's key is a point; the slot is then the note's ciphertext. */
  lemma {:induction false} EncryptedExactly(env: Env, id: Identity, pub: seq<Byte>, mpk: nat, random: nat, v: nat,
                                            token: nat, txID: string, iv: seq<Byte>)
    requires Lawful(env.crypto)
    ensures Encrypted(env, id, pub, mpk, random, v, token, txID, iv).Some? <==>
      && Fits(v, 16) && Fits(random, 16) && Fits(mpk, 32) && Fits(MasterPublicKey(env.H, id), 32) && Fits(token, 32)
      && |id.viewingKey| == 32 && |iv| == 16 && env.crypto.decompress(pub).Some?
    ensures Encrypted(env, id, pub, mpk, random, v, token, txID, iv).Some? ==>
      var note := TransactNote(mpk, MasterPublicKey(env.H, id), ToBE(token, 32), ToBE(random, 16), ToBE(v, 16), []);
      EncryptTransactNote(env.crypto, id.viewingKey, pub, note, iv)
        == Some(OnChain(Encrypted(env, id, pub, mpk, random, v, token, txID, iv).value))
  {
    if Fits(v, 16) && Fits(random, 16) && Fits(mpk, 32) && Fits(MasterPublicKey(env.H, id), 32) && Fits(token, 32) {
      var note := TransactNote(mpk, MasterPublicKey(env.H, id), ToBE(token, 32), ToBE(random, 16), ToBE(v, 16), []);
      EncryptsExactly(env.crypto, id.viewingKey, pub, note, iv);
    }
  }

  /** A recipient's viewing key may be given with or without its prefix. */
  lemma {:induction false} PrefixIgnored(env: Env, id: Identity, out: PayloadOutput, placeholder: CommitmentCiphertext,
                                         token: nat, txID: string, iv: seq<Byte>, pub: seq<Byte>)
    requires pub != [] && out.ownerViewingPub == Hex(pub)
    ensures OutputCiphertext(env, id, out.(ownerViewingPub := "0x" + Hex(pub)), placeholder, token, txID, iv)
         == OutputCiphertext(env, id, out, placeholder, token, txID, iv)
  {
    PrefixTrimmed(pub);
  }

  lemma {:induction false} PrefixTrimmed(pub: seq<Byte>)
    requires pub != []
    ensures TrimHexPrefix("0x" + Hex(pub)) == Hex(pub) == TrimHexPrefix(Hex(pub))
    ensures Hex(pub) != ""
  {
    var h := Hex(pub);
    assert ("0x" + h)[2..] == h;
    assert h[1] in h;
  }
}
