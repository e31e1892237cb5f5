/** What each operation plans: its outputs, the notes it takes, and the call it makes. */
module Operations {
  import opened Notes
  import opened Bytes
  import opened Wrappers
  import opened Paging
  import opened JoinSplit
  import opened Fields
  import opened Proving
  import opened Assembly
  import opened Spending
  import opened Contract
  import opened Ledger
  import opened Settlement
  import Address
  import Events
  import NoteCiphertext
  import NoteSelection

  // ---------------------------------------------------------------------------
  // Whom notes are for
  // ---------------------------------------------------------------------------

  ghost predicate GoodRecipient(env: Env, net: Network, r: Recipient)
  {
    r.lookup != "" ==> r.lookup in net.wallets && r.keys.mpk == MasterPublicKey(env.H, net.wallets[r.lookup])
  }

  lemma {:induction false} PartyIsGood(env: Env, net: Network, lookup: string)
    requires WellConnected(env, net) && ResolveParty(net.verifiers, lookup).Some?
    ensures lookup != "" && lookup in net.wallets
    ensures GoodRecipient(env, net, Recipient(ResolveParty(net.verifiers, lookup).value, lookup))
  {
    assert lookup in net.verifiers.Keys;
  }

  /** Party `l` resolves to its own address on the chain. */
  ghost predicate OwnAddress(env: Env, net: Network, chainID: nat, l: string, viewingPub: seq<Byte>)
    requires l in net.wallets && l in net.verifiers
  {
    var mpk := MasterPublicKey(env.H, net.wallets[l]);
    && Fits(mpk, 32) && |viewingPub| == 32
    && Some(net.verifiers[l])
         == Address.EncodeAddress(Address.AddressData(Some(mpk), viewingPub, Some(Address.Chain(0, chainID))))
  }

  /** Parties that resolve to their own addresses are well connected: the address codec gives
    * their keys back. */
  lemma {:induction false} OwnAddressesConnect(env: Env, net: Network, chainID: nat, pubs: map<string, seq<Byte>>)
    requires Paired(env, net) && net.verifiers.Keys == net.wallets.Keys == pubs.Keys && Fits(chainID, 7)
    requires forall l: string :: l in net.wallets ==> OwnAddress(env, net, chainID, l, pubs[l])
    ensures WellConnected(env, net)
  {
    forall l: string | l in net.wallets
      ensures ResolveParty(net.verifiers, l).Some?
      ensures ResolveParty(net.verifiers, l).value.mpk == MasterPublicKey(env.H, net.wallets[l])
    {
      assert OwnAddress(env, net, chainID, l, pubs[l]) && l in net.verifiers.Keys;
      OwnAddressResolves(RawKeys(MasterPublicKey(env.H, net.wallets[l]), pubs[l]), chainID);
    }
  }

  ghost predicate GoodResolver(env: Env, net: Network, resolve: Resolver)
  {
    forall to: string :: resolve(to).Some? ==> GoodRecipient(env, net, resolve(to).value)
  }

  lemma {:induction false} ResolverIsGood(env: Env, net: Network)
    requires WellConnected(env, net)
    ensures GoodResolver(env, net, ResolverOf(net.verifiers))
  {
    forall to: string | ResolveRecipient(net.verifiers, to).Some?
      ensures GoodRecipient(env, net, ResolveRecipient(net.verifiers, to).value)
    {
      RecipientIsGood(env, net, to);
    }
  }

  lemma {:induction false} RecipientIsGood(env: Env, net: Network, to: string)
    requires WellConnected(env, net) && ResolveRecipient(net.verifiers, to).Some?
    ensures GoodRecipient(env, net, ResolveRecipient(net.verifiers, to).value)
  {
    if ResolveParty(net.verifiers, to).Some? {
      PartyIsGood(env, net, to);
    }
  }

  // ---------------------------------------------------------------------------
  // The notes an operation takes
  // ---------------------------------------------------------------------------

  function TakenAt(notes: seq<StoredNote>, mpk: nat, n: nat): seq<nat>
    requires n <= |AvailableAt(notes, mpk)|
  {
    AvailableAt(notes, mpk)[..n]
  }

  /** Where the notes stand that selection takes from an owner's available ones. */
  function SelectedAt(notes: seq<StoredNote>, mpk: nat, target: nat): seq<nat>
  {
    var selection := NoteSelection.Select(Available(notes, mpk), target);
    if selection.Selected? then Take(AvailableAt(notes, mpk), |selection.states|) else []
  }

  function NotesAt(notes: seq<StoredNote>, at: seq<nat>): (r: seq<Note>)
    requires forall k :: 0 <= k < |at| ==> at[k] < |notes|
    ensures |r| == |at| && forall k :: 0 <= k < |at| ==> r[k] == notes[at[k]].note
  {
    seq(|at|, k requires 0 <= k < |at| => notes[at[k]].note)
  }

  /** Spendable notes of one owner. */
  ghost predicate OwnedAt(notes: seq<StoredNote>, mpk: nat, at: seq<nat>)
  {
    SpendableAt(notes, at) && forall k :: 0 <= k < |at| ==> notes[at[k]].note.owner == mpk
  }

  /** The first states of an owner's list are spendable notes of that owner. */
  lemma {:induction false} TakenAreSpendable(notes: seq<StoredNote>, mpk: nat, states: seq<NoteSelection.State>)
    requires states <= Available(notes, mpk)
    ensures Decodable(states) && |states| <= |AvailableAt(notes, mpk)|
    ensures var at := TakenAt(notes, mpk, |states|);
      OwnedAt(notes, mpk, at) && |at| == |states| && NotesOf(states) == NotesAt(notes, at)
  {
    forall k | 0 <= k < |states| ensures states[k] == RowOf(notes[AvailableAt(notes, mpk)[k]]) {
      assert states[k] == Available(notes, mpk)[k];
    }
    var at := TakenAt(notes, mpk, |states|);
    forall k, l ensures Below(at, k, l) {
      assert Below(AvailableAt(notes, mpk), k, l);
    }
  }

  /** Taken notes are in the tree, and their owner's. */
  lemma {:induction false} TakenInTree(env: Env, net: Network, w: World, id: Identity, at: seq<nat>)
    requires Inv(env, net, w) && OwnedAt(w.notes, MasterPublicKey(env.H, id), at)
    ensures forall k :: 0 <= k < |at| ==> InTree(env.H, w.chain.leaves, id, NotesAt(w.notes, at)[k])
    ensures forall k :: 0 <= k < |at| ==> NotesAt(w.notes, at)[k].leafIndex < 65536
  {
    forall k | 0 <= k < |at|
      ensures InTree(env.H, w.chain.leaves, id, NotesAt(w.notes, at)[k]) && NotesAt(w.notes, at)[k].leafIndex < 65536
    {
      assert Genuine(env, net, w.notes[at[k]]) && Placed(w.chain, w.notes[at[k]]);
    }
  }

  // ---------------------------------------------------------------------------
  // Outputs
  // ---------------------------------------------------------------------------

  /** Outputs draw the random values in order, follow the tree, and have one token. */
  ghost predicate PlannedOut(env: Env, net: Network, w: World, op: Op, o: OutNote, j: nat)
  {
    && Addressed(env, net, o) && o.note.random == op.randoms(j) && o.note.token == op.token
    && o.note.leafIndex == Uint64(|w.chain.leaves| + j)
  }

  ghost predicate PlannedOuts(env: Env, net: Network, w: World, op: Op, outs: seq<OutNote>)
  {
    && 0 < |outs| <= NotesCreated(op.action)
    && forall j: nat :: j < |outs| ==> PlannedOut(env, net, w, op, outs[j], j)
  }

  lemma {:induction false} PlannedAreNew(env: Env, net: Network, w: World, op: Op, outs: seq<OutNote>)
    requires PlannedOuts(env, net, w, op, outs) && FreshRandoms(w.notes, op.randoms, NotesCreated(op.action))
    ensures NewOuts(env, net, w.notes, outs)
  {
    forall j, k | 0 <= j < k < |outs| ensures outs[j].note.random != outs[k].note.random {
      assert PlannedOut(env, net, w, op, outs[j], j) && PlannedOut(env, net, w, op, outs[k], k);
    }
    forall i, j | 0 <= i < |w.notes| && 0 <= j < |outs| ensures w.notes[i].note.random != outs[j].note.random {
      assert PlannedOut(env, net, w, op, outs[j], j);
    }
    forall j | 0 <= j < |outs| ensures Addressed(env, net, outs[j]) {
      assert PlannedOut(env, net, w, op, outs[j], j);
    }
  }

  lemma {:induction false} NewOutIsPlanned(env: Env, net: Network, w: World, op: Op, r: Recipient, v: nat, j: nat)
    requires GoodRecipient(env, net, r)
    ensures PlannedOut(env, net, w, op, NewOutNote(r, op.token, v, op.randoms(j), Uint64(|w.chain.leaves| + j)), j)
  {
  }

  // ---------------------------------------------------------------------------
  // Transactions
  // ---------------------------------------------------------------------------

  /** The outputs of the circuit: the new notes, and the withdrawal if there is one. */
  function CircuitOuts(H: Hash, outs: seq<OutNote>, out: Option<Events.Preimage>): seq<SpendOutput>
  {
    SpendOutputs(H, outs) + (if out.Some? then [SpendOutput(out.value.npk, out.value.value)] else [])
  }

  /** A transaction that spends `notes` of the tree into `outs` and the withdrawal `out`. */
  ghost predicate TxFor(env: Env, id: Identity, leaves: seq<nat>, token: nat, notes: seq<Note>, outs: seq<OutNote>,
                        out: Option<Events.Preimage>, txID: string, tx: Transaction)
  {
    && Spends(env, id, leaves, token, notes, CircuitOuts(env.H, outs, out), tx)
    && |tx.boundParams.ciphertexts| == |outs|
    && (forall i :: 0 <= i < |outs| ==> tx.boundParams.ciphertexts[i].annotationData == Annotation(txID))
    && tx.boundParams.unshield == out.Some? && tx.boundParams.chainID == env.chainID
    && (out.Some? ==>
        tx.unshieldPreimage.Some? && PreimageOf(tx.unshieldPreimage.value) == out && out.value.token == token)
  }

  ghost predicate SmallIndices(notes: seq<Note>)
  {
    forall i :: 0 <= i < |notes| ==> notes[i].leafIndex < 65536
  }

  lemma {:induction false} TransferTx(env: Env, id: Identity, leaves: seq<nat>, token: nat, notes: seq<Note>,
                                      outs: seq<OutNote>, txID: string, ivs: nat -> seq<Byte>)
    requires Fits(token, 20) && notes != [] && outs != [] && SmallIndices(notes)
    requires ProverOf(env)(id, TransferBuilder(env, token, txID)(leaves, notes, outs), ivs).Some?
    ensures TxFor(env, id, leaves, token, notes, outs, None, txID,
                  ProverOf(env)(id, TransferBuilder(env, token, txID)(leaves, notes, outs), ivs).value)
  {
    var p := TransferBuilder(env, token, txID)(leaves, notes, outs);
    BuiltTransferPayload(env, leaves, token, notes, outs, txID);
    PayloadTx(env, id, leaves, token, notes, outs, txID, ivs, p);
  }

  lemma {:induction false} PayloadTx(env: Env, id: Identity, leaves: seq<nat>, token: nat, notes: seq<Note>,
                                     outs: seq<OutNote>, txID: string, ivs: nat -> seq<Byte>, p: ProvingPayload)
    requires IsTransferPayload(env, leaves, token, notes, outs, txID, p) && notes != [] && outs != []
    requires GenerateTransaction(env, id, p, ivs).Some?
    ensures TxFor(env, id, leaves, token, notes, outs, None, txID, GenerateTransaction(env, id, p, ivs).value)
  {
    TransactionOf(env, id, leaves, token, notes, SpendOutputs(env.H, outs), p, ivs);
    PaymentIsFor(env, id, leaves, token, notes, outs, txID, GenerateTransaction(env, id, p, ivs).value);
  }

  lemma {:induction false} PaymentIsFor(env: Env, id: Identity, leaves: seq<nat>, token: nat, notes: seq<Note>,
                                        outs: seq<OutNote>, txID: string, tx: Transaction)
    requires Spends(env, id, leaves, token, notes, SpendOutputs(env.H, outs), tx)
    requires |tx.boundParams.ciphertexts| == |outs| && !tx.boundParams.unshield && tx.boundParams.chainID == env.chainID
    requires forall i :: 0 <= i < |outs| ==> tx.boundParams.ciphertexts[i].annotationData == Annotation(txID)
    ensures TxFor(env, id, leaves, token, notes, outs, None, txID, tx)
  {
    assert CircuitOuts(env.H, outs, None) == SpendOutputs(env.H, outs);
  }

  /** Whatever an assembled transfer pays to the owner of `seed`, that wallet reads from the
    * transaction's ciphertext and commitment in the same position. */
  lemma {:induction false} RecipientReads(env: Env, id: Identity, leaves: seq<nat>, token: nat, notes: seq<Note>,
                                          outs: seq<OutNote>, txID: string, ivs: nat -> seq<Byte>, j: nat,
                                          seed: seq<Byte>)
    requires NoteCiphertext.Lawful(env.crypto) && |seed| == 32 && Fits(token, 20) && notes != [] && SmallIndices(notes)
    requires j < |outs|
    requires outs[j].keys.viewingPub == NoteCiphertext.PublicKey(env.crypto, seed)
    requires outs[j].note.owner == outs[j].keys.mpk
    requires ProverOf(env)(id, TransferBuilder(env, token, txID)(leaves, notes, outs), ivs).Some?
    ensures var tx := ProverOf(env)(id, TransferBuilder(env, token, txID)(leaves, notes, outs), ivs).value;
      && j < |tx.commitments| && j < |tx.boundParams.ciphertexts|
      && Recovers(env, seed, outs[j].keys.mpk, MasterPublicKey(env.H, id), tx.boundParams.ciphertexts[j],
                  tx.commitments[j])
  {
    BuiltTransferPayload(env, leaves, token, notes, outs, txID);
    RecipientRecoversNote(env, id, leaves, token, notes, outs, txID, ivs,
                          TransferBuilder(env, token, txID)(leaves, notes, outs), j, seed);
  }

  lemma {:induction false} UnshieldTx(env: Env, id: Identity, leaves: seq<nat>, token: nat, notes: seq<Note>,
                                      outs: seq<OutNote>, to: nat, amount: nat, txID: string, ivs: nat -> seq<Byte>)
    requires Fits(token, 20) && notes != [] && |outs| == 1 && SmallIndices(notes) && Fits(to, 20)
    requires ProverOf(env)(id, UnshieldBuilder(env, token, to, amount, txID)(leaves, notes, outs), ivs).Some?
    ensures TxFor(env, id, leaves, token, notes, outs, Some(Events.Preimage(to, token, amount)), txID,
                  ProverOf(env)(id, UnshieldBuilder(env, token, to, amount, txID)(leaves, notes, outs), ivs).value)
  {
    var p := UnshieldBuilder(env, token, to, amount, txID)(leaves, notes, outs);
    UnshieldPayloadOf(env, leaves, token, notes, outs, to, amount, txID);
    WithdrawalTx(env, id, leaves, token, notes, outs, to, amount, txID, ivs, p);
  }

  lemma {:induction false} UnshieldPayloadOf(env: Env, leaves: seq<nat>, token: nat, notes: seq<Note>,
                                             outs: seq<OutNote>, to: nat, amount: nat, txID: string)
    requires Fits(token, 20) && |outs| == 1 && SmallIndices(notes)
    ensures IsUnshieldPayload(env, leaves, token, notes, outs[0], to, amount, txID,
                              BuildPayload(env, leaves, token, notes, UnshieldOutputs(env.H, outs, to, amount), true,
                                           Decimal(amount), txID))
  {
    assert UnshieldOutputs(env.H, outs, to, amount) == [ChangeOutput(env.H, outs[0]), UnshieldOutput(to, amount)];
    BuiltUnshieldPayload(env, leaves, token, notes, outs[0], to, amount, txID);
  }

  lemma {:induction false} WithdrawalTx(env: Env, id: Identity, leaves: seq<nat>, token: nat, notes: seq<Note>,
                                        outs: seq<OutNote>, to: nat, amount: nat, txID: string, ivs: nat -> seq<Byte>,
                                        p: ProvingPayload)
    requires Fits(token, 20) && notes != [] && Fits(to, 20) && |outs| == 1
    requires IsUnshieldPayload(env, leaves, token, notes, outs[0], to, amount, txID, p)
    requires GenerateTransaction(env, id, p, ivs).Some?
    ensures TxFor(env, id, leaves, token, notes, outs, Some(Events.Preimage(to, token, amount)), txID,
                  GenerateTransaction(env, id, p, ivs).value)
  {
    WithdrawalSpends(env, id, leaves, token, notes, outs[0], to, amount, txID, ivs, p);
    PreimageReadsBack(token, to, amount);
    WithdrawalIs(env, id, leaves, token, notes, outs, to, amount, txID, GenerateTransaction(env, id, p, ivs).value);
  }

  /** A transaction with the shape of an unshield's. */
  ghost predicate WithdrawalShape(env: Env, id: Identity, leaves: seq<nat>, token: nat, notes: seq<Note>,
                                  change: OutNote, to: nat, amount: nat, txID: string, tx: Transaction)
    requires Fits(token, 20)
  {
    && Spends(env, id, leaves, token, notes, UnshieldOuts(env.H, change, to, amount), tx)
    && |tx.boundParams.ciphertexts| == 1 && tx.boundParams.ciphertexts[0].annotationData == Annotation(txID)
    && tx.boundParams.unshield && tx.boundParams.chainID == env.chainID
    && tx.unshieldPreimage == Some(UnshieldPreimage(Decimal(to), TokenString(token), Decimal(amount)))
  }

  lemma {:induction false} WithdrawalSpends(env: Env, id: Identity, leaves: seq<nat>, token: nat, notes: seq<Note>,
                                            change: OutNote, to: nat, amount: nat, txID: string, ivs: nat -> seq<Byte>,
                                            p: ProvingPayload)
    requires Fits(token, 20) && notes != []
    requires IsUnshieldPayload(env, leaves, token, notes, change, to, amount, txID, p)
    requires GenerateTransaction(env, id, p, ivs).Some?
    ensures WithdrawalShape(env, id, leaves, token, notes, change, to, amount, txID,
                            GenerateTransaction(env, id, p, ivs).value)
  {
    TransactionOf(env, id, leaves, token, notes, UnshieldOuts(env.H, change, to, amount), p, ivs);
    UnshieldPreimageOf(env, leaves, token, notes, change, to, amount, txID, p);
  }

  lemma {:induction false} WithdrawalIs(env: Env, id: Identity, leaves: seq<nat>, token: nat, notes: seq<Note>,
                                        outs: seq<OutNote>, to: nat, amount: nat, txID: string, tx: Transaction)
    requires Fits(token, 20) && |outs| == 1
    requires WithdrawalShape(env, id, leaves, token, notes, outs[0], to, amount, txID, tx)
    requires PreimageOf(UnshieldPreimage(Decimal(to), TokenString(token), Decimal(amount)))
      == Some(Events.Preimage(to, token, amount))
    ensures TxFor(env, id, leaves, token, notes, outs, Some(Events.Preimage(to, token, amount)), txID, tx)
  {
    WithdrawalIsFor(env, id, leaves, token, notes, outs, Events.Preimage(to, token, amount), txID, tx);
  }

  lemma {:induction false} WithdrawalIsFor(env: Env, id: Identity, leaves: seq<nat>, token: nat, notes: seq<Note>,
                                           outs: seq<OutNote>, out: Events.Preimage, txID: string, tx: Transaction)
    requires |outs| == 1 && Spends(env, id, leaves, token, notes, UnshieldOuts(env.H, outs[0], out.npk, out.value), tx)
    requires out.token == token
    requires |tx.boundParams.ciphertexts| == 1 && tx.boundParams.ciphertexts[0].annotationData == Annotation(txID)
    requires tx.boundParams.unshield && tx.boundParams.chainID == env.chainID
    requires tx.unshieldPreimage.Some? && PreimageOf(tx.unshieldPreimage.value) == Some(out)
    ensures TxFor(env, id, leaves, token, notes, outs, Some(out), txID, tx)
  {
    assert CircuitOuts(env.H, outs, Some(out)) == UnshieldOuts(env.H, outs[0], out.npk, out.value);
  }

  /** What the contract reads from an unshield's preimage. */
  lemma {:induction false} PreimageReadsBack(token: nat, to: nat, amount: nat)
    requires Fits(token, 20) && Fits(to, 20)
    ensures PreimageOf(UnshieldPreimage(Decimal(to), TokenString(token), Decimal(amount)))
      == Some(Events.Preimage(to, token, amount))
  {
    TokenReadsBack(token);
    DecodeNatOfDecimal(amount);
    FitsMore(to, 20, 32);
    DecimalToBytes32(to);
  }

  /** What a prover makes of a handler's payloads. */
  ghost predicate Proves(env: Env, prove: Prover, build: PayloadBuilder, token: nat, out: Option<Events.Preimage>,
                         txID: string)
  {
    forall id: Identity, leaves: seq<nat>, notes: seq<Note>, outs: seq<OutNote>, ivs: nat -> seq<Byte> ::
      notes != [] && outs != [] && (out.Some? ==> |outs| == 1) && SmallIndices(notes)
        && prove(id, build(leaves, notes, outs), ivs).Some?
      ==> TxFor(env, id, leaves, token, notes, outs, out, txID, prove(id, build(leaves, notes, outs), ivs).value)
  }

  lemma {:induction false} TransferProves(env: Env, token: nat, txID: string)
    requires Fits(token, 20)
    ensures Proves(env, ProverOf(env), TransferBuilder(env, token, txID), token, None, txID)
  {
    var prove, build := ProverOf(env), TransferBuilder(env, token, txID);
    forall id: Identity, leaves: seq<nat>, notes: seq<Note>, outs: seq<OutNote>, ivs: nat -> seq<Byte>
      | notes != [] && outs != [] && SmallIndices(notes) && prove(id, build(leaves, notes, outs), ivs).Some?
      ensures TxFor(env, id, leaves, token, notes, outs, None, txID, prove(id, build(leaves, notes, outs), ivs).value)
    {
      TransferTx(env, id, leaves, token, notes, outs, txID, ivs);
    }
  }

  lemma {:induction false} UnshieldProves(env: Env, token: nat, to: nat, amount: nat, txID: string)
    requires Fits(token, 20) && Fits(to, 20)
    ensures Proves(env, ProverOf(env), UnshieldBuilder(env, token, to, amount, txID), token,
                   Some(Events.Preimage(to, token, amount)), txID)
  {
    var prove, build, out := ProverOf(env), UnshieldBuilder(env, token, to, amount, txID),
      Some(Events.Preimage(to, token, amount));
    forall id: Identity, leaves: seq<nat>, notes: seq<Note>, outs: seq<OutNote>, ivs: nat -> seq<Byte>
      | notes != [] && outs != [] && |outs| == 1 && SmallIndices(notes)
        && prove(id, build(leaves, notes, outs), ivs).Some?
      ensures TxFor(env, id, leaves, token, notes, outs, out, txID, prove(id, build(leaves, notes, outs), ivs).value)
    {
      UnshieldTx(env, id, leaves, token, notes, outs, to, amount, txID, ivs);
    }
  }

  // ---------------------------------------------------------------------------
  // What is planned
  // ---------------------------------------------------------------------------

  /** The call spends notes of one party, in the tree, into the planned outputs. */
  ghost predicate CallMade(env: Env, net: Network, w: World, op: Op, outs: seq<OutNote>, out: Option<Events.Preimage>,
                           id: Identity, at: seq<nat>, tx: Transaction)
  {
    && KeyPair(env.signer, id) && at != [] && OwnedAt(w.notes, MasterPublicKey(env.H, id), at)
    && TxFor(env, id, w.chain.leaves, op.token, NotesAt(w.notes, at), outs, out, op.txId, tx)
  }

  /** An assembled spend: the outputs are planned, the inputs are the sender's first available
    * notes, and they cover the target. */
  ghost predicate SpendMade(env: Env, net: Network, w: World, op: Op, build: PayloadBuilder, mpk: nat, target: nat,
                            outcome: Outcome)
  {
    && outcome.Assembled? && PlannedOuts(env, net, w, op, outcome.outputs)
    && outcome.inputs != [] && outcome.inputs <= Available(w.notes, mpk) && Decodable(outcome.inputs)
    && outcome.payload == build(w.chain.leaves, NotesOf(outcome.inputs), outcome.outputs)
    && NoteSelection.Select(Available(w.notes, mpk), target).Selected?
    && outcome.inputs == NoteSelection.Select(Available(w.notes, mpk), target).states
  }

  /** An assembled spend's call, if it is proved. */
  lemma {:induction false} SpendCalls(env: Env, net: Network, w: World, op: Op, prove: Prover, build: PayloadBuilder,
                                      from: string, target: nat, outcome: Outcome, out: Option<Events.Preimage>)
    returns (at: seq<nat>)
    requires Paired(env, net) && Inv(env, net, w) && from in net.wallets
    requires SpendMade(env, net, w, op, build, MasterPublicKey(env.H, net.wallets[from]), target, outcome)
    requires Proves(env, prove, build, op.token, out, op.txId) && (out.Some? ==> |outcome.outputs| == 1)
    ensures OwnedAt(w.notes, MasterPublicKey(env.H, net.wallets[from]), at)
    ensures NotesOf(outcome.inputs) == NotesAt(w.notes, at)
    ensures at == SelectedAt(w.notes, MasterPublicKey(env.H, net.wallets[from]), target)
    ensures var plan := PlanSpend(prove, net, from, outcome, op.ivs).value;
      plan.outs == outcome.outputs
      && (plan.call.Some? ==>
          plan.call.value.TransactCall?
            && CallMade(env, net, w, op, plan.outs, out, net.wallets[from], at, plan.call.value.tx))
  {
    var id := net.wallets[from];
    var mpk := MasterPublicKey(env.H, id);
    TakenAreSpendable(w.notes, mpk, outcome.inputs);
    at := TakenAt(w.notes, mpk, |outcome.inputs|);
    TakenInTree(env, net, w, id, at);
    assert SmallIndices(NotesAt(w.notes, at));
  }

  // Transfers

  /** The notes selected from `store` cover the entries, and `paid` is what they ask for. */
  ghost predicate PaysFrom(store: seq<NoteSelection.State>, resolve: Resolver, token: nat, entries: seq<TransferEntry>,
                           randoms: nat -> nat, next: nat, states: seq<NoteSelection.State>, total: nat,
                           paid: seq<OutNote>)
  {
    && NoteSelection.Select(store, TotalAmount(entries)) == NoteSelection.Selected(states, total)
    && states != [] && states <= store && Decodable(states) && total >= TotalAmount(entries)
    && TransferOutputs(resolve, token, entries, randoms, next) == Some(paid)
  }

  /** How an assembled transfer came about. */
  ghost predicate TransferDone(w: World, op: Op, build: PayloadBuilder, resolve: Resolver, sender: Recipient,
                               states: seq<NoteSelection.State>, total: nat, paid: seq<OutNote>, outcome: Outcome)
    requires op.action.Transfer?
  {
    var entries := op.action.entries;
    && PaysFrom(Available(w.notes, sender.keys.mpk), resolve, op.token, entries, op.randoms, |w.chain.leaves|, states,
                total, paid)
    && var outs :=
         WithChange(paid, sender, op.token, total - TotalAmount(entries), op.randoms(|entries|), |w.chain.leaves|);
       outcome == Assembled(states, outs, build(w.chain.leaves, NotesOf(states), outs))
  }

  lemma {:induction false} DoneOutputs(w: World, op: Op, build: PayloadBuilder, resolve: Resolver, sender: Recipient,
                                       states: seq<NoteSelection.State>, total: nat, paid: seq<OutNote>,
                                       outcome: Outcome)
    requires op.action.Transfer? && TransferDone(w, op, build, resolve, sender, states, total, paid, outcome)
    ensures outcome.inputs == states
    ensures outcome.outputs == WithChange(paid, sender, op.token, total - TotalAmount(op.action.entries),
                                          op.randoms(|op.action.entries|), |w.chain.leaves|)
  {
  }

  lemma {:induction false} TransferFinishes(env: Env, w: World, op: Op, build: PayloadBuilder, resolve: Resolver,
                                            sender: Recipient, outcome: Outcome)
    returns (states: seq<NoteSelection.State>, total: nat, paid: seq<OutNote>)
    requires RecordsTree(env, w) && op.action.Transfer? && outcome.Assembled?
    requires outcome
      == Assembly.TransferFrom(build, resolve, AvailabilityOf(w.notes), w.leafRows, sender, op.token, op.action.entries,
                               op.randoms)
    ensures TransferDone(w, op, build, resolve, sender, states, total, paid, outcome)
  {
    LoadsTheTree(env, w);
    var entries := op.action.entries;
    var selection := NoteSelection.Select(Available(w.notes, sender.keys.mpk), TotalAmount(entries));
    assert AvailabilityOf(w.notes)(sender.keys.mpk) == Available(w.notes, sender.keys.mpk);
    NoteSelection.SelectedIsCover(Available(w.notes, sender.keys.mpk), TotalAmount(entries));
    states, total := selection.states, selection.total;
    paid := TransferOutputs(resolve, op.token, entries, op.randoms, |w.chain.leaves|).value;
    assert PaysFrom(Available(w.notes, sender.keys.mpk), resolve, op.token, entries, op.randoms, |w.chain.leaves|,
                    states, total, paid);
  }

  lemma {:induction false} PaidArePlanned(env: Env, net: Network, w: World, op: Op, resolve: Resolver,
                                          entries: seq<TransferEntry>, paid: seq<OutNote>)
    requires GoodResolver(env, net, resolve)
    requires TransferOutputs(resolve, op.token, entries, op.randoms, |w.chain.leaves|) == Some(paid)
    ensures |paid| == |entries| && forall j: nat :: j < |entries| ==> PlannedOut(env, net, w, op, paid[j], j)
  {
    forall j: nat | j < |entries| ensures PlannedOut(env, net, w, op, paid[j], j) {
      NewOutIsPlanned(env, net, w, op, resolve(entries[j].to).value, Amount(entries[j]), j);
    }
  }

  lemma {:induction false} ChangeIsPlanned(env: Env, net: Network, w: World, op: Op, paid: seq<OutNote>,
                                           sender: Recipient, change: nat)
    requires GoodRecipient(env, net, sender) && forall j: nat :: j < |paid| ==> PlannedOut(env, net, w, op, paid[j], j)
    ensures var outs := WithChange(paid, sender, op.token, change, op.randoms(|paid|), |w.chain.leaves|);
      |paid| <= |outs| <= |paid| + 1 && forall j: nat :: j < |outs| ==> PlannedOut(env, net, w, op, outs[j], j)
  {
    NewOutIsPlanned(env, net, w, op, sender, change, |paid|);
  }

  lemma {:induction false} TransferMade(env: Env, net: Network, w: World, op: Op, build: PayloadBuilder,
                                        resolve: Resolver, sender: Recipient, states: seq<NoteSelection.State>,
                                        total: nat, paid: seq<OutNote>, outcome: Outcome)
    requires op.action.Transfer? && op.action.entries != [] && GoodResolver(env, net, resolve)
    requires GoodRecipient(env, net, sender)
    requires TransferDone(w, op, build, resolve, sender, states, total, paid, outcome)
    ensures SpendMade(env, net, w, op, build, sender.keys.mpk, TotalAmount(op.action.entries), outcome)
  {
    PaidArePlanned(env, net, w, op, resolve, op.action.entries, paid);
    ChangeIsPlanned(env, net, w, op, paid, sender, total - TotalAmount(op.action.entries));
  }

  // Unshields

  ghost predicate UnshieldDone(w: World, op: Op, build: PayloadBuilder, sender: Recipient,
                               states: seq<NoteSelection.State>, total: nat, outcome: Outcome)
    requires op.action.Unshield?
  {
    && NoteSelection.Select(Available(w.notes, sender.keys.mpk), op.action.amount)
         == NoteSelection.Selected(states, total)
    && states != [] && states <= Available(w.notes, sender.keys.mpk) && Decodable(states) && total >= op.action.amount
    && var change := NewOutNote(sender, op.token, total - op.action.amount, op.randoms(0), Uint64(|w.chain.leaves|));
       outcome == Assembled(states, [change], build(w.chain.leaves, NotesOf(states), [change]))
  }

  lemma {:induction false} UnshieldFinishes(env: Env, w: World, op: Op, build: PayloadBuilder, sender: Recipient,
                                            outcome: Outcome)
    returns (states: seq<NoteSelection.State>, total: nat)
    requires RecordsTree(env, w) && op.action.Unshield? && outcome.Assembled?
    requires outcome
      == Assembly.UnshieldFrom(build, AvailabilityOf(w.notes), w.leafRows, sender, op.token, op.action.amount,
                               op.randoms(0))
    ensures UnshieldDone(w, op, build, sender, states, total, outcome)
  {
    LoadsTheTree(env, w);
    var selection := NoteSelection.Select(Available(w.notes, sender.keys.mpk), op.action.amount);
    assert AvailabilityOf(w.notes)(sender.keys.mpk) == Available(w.notes, sender.keys.mpk);
    NoteSelection.SelectedIsCover(Available(w.notes, sender.keys.mpk), op.action.amount);
    states, total := selection.states, selection.total;
  }

  lemma {:induction false} UnshieldMade(env: Env, net: Network, w: World, op: Op, build: PayloadBuilder,
                                        sender: Recipient, states: seq<NoteSelection.State>, total: nat,
                                        outcome: Outcome)
    requires op.action.Unshield? && GoodRecipient(env, net, sender)
    requires UnshieldDone(w, op, build, sender, states, total, outcome)
    ensures SpendMade(env, net, w, op, build, sender.keys.mpk, op.action.amount, outcome) && |outcome.outputs| == 1
  {
    NewOutIsPlanned(env, net, w, op, sender, total - op.action.amount, 0);
  }

  // ---------------------------------------------------------------------------
  // The three plans
  // ---------------------------------------------------------------------------

  /** What a spend must cover. */
  function SpendTarget(a: Action): nat
  {
    match a
    case Shield(_, _) => 0
    case Transfer(_, entries) => TotalAmount(entries)
    case Unshield(_, _, amount) => amount
  }

  /** A spend's plan: planned outputs and, if it was proved, a call that spends the notes
    * selected from the sender's wallet. */
  ghost predicate PlanMade(env: Env, net: Network, w: World, op: Op, plan: Plan, out: Option<Events.Preimage>,
                           id: Identity, at: seq<nat>)
  {
    && PlannedOuts(env, net, w, op, plan.outs) && OwnedAt(w.notes, MasterPublicKey(env.H, id), at)
    && at == SelectedAt(w.notes, MasterPublicKey(env.H, id), SpendTarget(op.action))
    && (plan.call.Some? ==>
        plan.call.value.TransactCall? && CallMade(env, net, w, op, plan.outs, out, id, at, plan.call.value.tx))
  }

  /** The withdrawal an operation asks for. */
  function WithdrawalOf(op: Op): Option<Events.Preimage>
  {
    if op.action.Unshield? then Some(Events.Preimage(FromBE(op.action.recipient), op.token, op.action.amount)) else None
  }

  lemma {:induction false} TransferPlanned(env: Env, net: Network, w: World, op: Op, plan: Plan)
    returns (id: Identity, at: seq<nat>)
    requires WellConnected(env, net) && Inv(env, net, w) && Fits(op.token, 20) && op.action.Transfer?
    requires ValidAction(op.action)
    requires PlanTransfer(env, net, w, op) == Some(plan)
    ensures op.action.from in net.wallets && id == net.wallets[op.action.from]
    ensures PlanMade(env, net, w, op, plan, None, id, at)
  {
    var from := op.action.from;
    TransferProves(env, op.token, op.txId);
    ResolverIsGood(env, net);
    PartyIsGood(env, net, from);
    var sender := Recipient(ResolveParty(net.verifiers, from).value, from);
    id := net.wallets[from];
    at := TransferPlannedFrom(env, net, w, op, ProverOf(env), TransferBuilder(env, op.token, op.txId),
                              ResolverOf(net.verifiers), sender, plan);
  }

  lemma {:induction false} TransferPlannedFrom(env: Env, net: Network, w: World, op: Op, prove: Prover,
                                               build: PayloadBuilder, resolve: Resolver, sender: Recipient, plan: Plan)
    returns (at: seq<nat>)
    requires Paired(env, net) && Inv(env, net, w) && op.action.Transfer? && ValidAction(op.action)
    requires Proves(env, prove, build, op.token, None, op.txId) && GoodResolver(env, net, resolve)
    requires sender.lookup == op.action.from && sender.lookup in net.wallets && GoodRecipient(env, net, sender)
    requires PlanSpend(prove, net, op.action.from,
                       Assembly.TransferFrom(build, resolve, AvailabilityOf(w.notes), w.leafRows, sender, op.token,
                                             op.action.entries, op.randoms),
                       op.ivs) == Some(plan)
    ensures PlanMade(env, net, w, op, plan, None, net.wallets[op.action.from], at)
  {
    var outcome :=
      Assembly.TransferFrom(build, resolve, AvailabilityOf(w.notes), w.leafRows, sender, op.token, op.action.entries,
                            op.randoms);
    var states, total, paid := TransferFinishes(env, w, op, build, resolve, sender, outcome);
    TransferMade(env, net, w, op, build, resolve, sender, states, total, paid, outcome);
    at := SpendCalls(env, net, w, op, prove, build, op.action.from, TotalAmount(op.action.entries), outcome, None);
  }

  lemma {:induction false} UnshieldPlanned(env: Env, net: Network, w: World, op: Op, plan: Plan)
    returns (id: Identity, at: seq<nat>)
    requires WellConnected(env, net) && Inv(env, net, w) && Fits(op.token, 20) && op.action.Unshield?
    requires ValidAction(op.action)
    requires PlanUnshield(env, net, w, op) == Some(plan)
    ensures op.action.from in net.wallets && id == net.wallets[op.action.from]
    ensures PlanMade(env, net, w, op, plan, WithdrawalOf(op), id, at)
  {
    var from, to := op.action.from, FromBE(op.action.recipient);
    UnshieldProves(env, op.token, to, op.action.amount, op.txId);
    PartyIsGood(env, net, from);
    var sender := Recipient(ResolveParty(net.verifiers, from).value, from);
    id := net.wallets[from];
    at := UnshieldPlannedFrom(env, net, w, op, ProverOf(env),
                              UnshieldBuilder(env, op.token, to, op.action.amount, op.txId), sender, plan);
  }

  lemma {:induction false} UnshieldPlannedFrom(env: Env, net: Network, w: World, op: Op, prove: Prover,
                                               build: PayloadBuilder, sender: Recipient, plan: Plan)
    returns (at: seq<nat>)
    requires Paired(env, net) && Inv(env, net, w) && op.action.Unshield?
    requires Proves(env, prove, build, op.token, WithdrawalOf(op), op.txId)
    requires sender.lookup == op.action.from && sender.lookup in net.wallets && GoodRecipient(env, net, sender)
    requires PlanSpend(prove, net, op.action.from,
                       Assembly.UnshieldFrom(build, AvailabilityOf(w.notes), w.leafRows, sender, op.token,
                                             op.action.amount, op.randoms(0)),
                       op.ivs) == Some(plan)
    ensures PlanMade(env, net, w, op, plan, WithdrawalOf(op), net.wallets[op.action.from], at)
  {
    var outcome :=
      Assembly.UnshieldFrom(build, AvailabilityOf(w.notes), w.leafRows, sender, op.token, op.action.amount,
                            op.randoms(0));
    var states, total := UnshieldFinishes(env, w, op, build, sender, outcome);
    UnshieldMade(env, net, w, op, build, sender, states, total, outcome);
    at := SpendCalls(env, net, w, op, prove, build, op.action.from, op.action.amount, outcome, WithdrawalOf(op));
  }

  lemma {:induction false} ShieldAssembled(net: Network, w: World, env: Env, to: string, token: nat, amount: nat,
                                           random: nat)
    requires RecordsTree(env, w) && AssembleShield(net.verifiers, w.leafRows, to, token, amount, random).Some?
    ensures ResolveParty(net.verifiers, to).Some?
    ensures AssembleShield(net.verifiers, w.leafRows, to, token, amount, random)
         == Some(NewOutNote(Recipient(ResolveParty(net.verifiers, to).value, to), token, amount, random,
                            Uint64(|w.chain.leaves|)))
  {
    LoadsTheTree(env, w);
  }

  lemma {:induction false} ShieldOutPlanned(env: Env, net: Network, w: World, op: Op, to: Recipient, o: OutNote)
    requires op.action.Shield? && GoodRecipient(env, net, to)
    requires o == NewOutNote(to, op.token, op.action.amount, op.randoms(0), Uint64(|w.chain.leaves|))
    ensures o.note.value == op.action.amount && PlannedOuts(env, net, w, op, [o])
  {
    NewOutIsPlanned(env, net, w, op, to, op.action.amount, 0);
  }

  lemma {:induction false} ShieldPlanned(env: Env, net: Network, w: World, op: Op, plan: Plan) returns (o: OutNote)
    requires WellConnected(env, net) && RecordsTree(env, w) && op.action.Shield?
    requires PlanShield(env, net, w, op) == Some(plan)
    ensures plan == Plan([o], Some(ShieldCall(PrepareShield(env.H, o.note, op.txId))))
    ensures o.lookup == op.action.to != ""
    ensures o.note.value == op.action.amount && PlannedOuts(env, net, w, op, [o])
  {
    var to := op.action.to;
    ShieldAssembled(net, w, env, to, op.token, op.action.amount, op.randoms(0));
    PartyIsGood(env, net, to);
    o := NewOutNote(Recipient(ResolveParty(net.verifiers, to).value, to), op.token, op.action.amount, op.randoms(0),
                    Uint64(|w.chain.leaves|));
    ShieldOutPlanned(env, net, w, op, Recipient(ResolveParty(net.verifiers, to).value, to), o);
  }
}
