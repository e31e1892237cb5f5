/** From a transfer's entry to what its recipient reads from the mined transaction. */
module Delivery {
  import opened Notes
  import opened Bytes
  import opened Wrappers
  import opened Proving
  import opened Assembly
  import opened Spending
  import opened Contract
  import opened Ledger
  import opened Operations
  import opened Landing
  import NoteCiphertext
  import NoteSelection

  /** The wallet with viewing seed `seed` reads from ciphertext and commitment that it was paid
    * `amount` of `token` at address key `mpk`, and by whom. */
  ghost predicate ReadsPayment(env: Env, seed: seq<Byte>, mpk: nat, senderMPK: nat, token: nat, amount: nat,
                               c: CommitmentCiphertext, commitment: nat)
  {
    && Recovers(env, seed, mpk, senderMPK, c, commitment)
    && var d := NoteCiphertext.DecryptTransactNote(env.crypto, seed, OnChain(c)).value;
       FromBE(d.tokenHash) == token && FromBE(d.noteValue) == amount
  }

  /** The outputs stand for the entries, in order; what follows has the same token. */
  ghost predicate PaysEntries(w: World, op: Op, resolve: Resolver, outs: seq<OutNote>)
    requires op.action.Transfer?
  {
    var entries := op.action.entries;
    && |entries| <= |outs|
    && (forall j :: 0 <= j < |outs| ==> outs[j].note.token == op.token)
    && (forall j :: 0 <= j < |entries| ==> PaysEntry(w, op, resolve, entries[j], outs[j], j))
  }

  ghost predicate PaysEntry(w: World, op: Op, resolve: Resolver, e: TransferEntry, o: OutNote, j: nat)
  {
    && resolve(e.to).Some?
    && o == NewOutNote(resolve(e.to).value, op.token, Amount(e), op.randoms(j), Uint64(|w.chain.leaves| + j))
  }

  /** The call of an assembled transfer is what the prover makes of its inputs and outputs. */
  ghost predicate ProvedFor(prove: Prover, build: PayloadBuilder, resolve: Resolver, id: Identity, w: World, op: Op,
                            plan: Plan, notes: seq<Note>)
    requires op.action.Transfer?
  {
    var tx := prove(id, build(w.chain.leaves, notes, plan.outs), op.ivs);
    && notes != [] && SmallIndices(notes) && PaysEntries(w, op, resolve, plan.outs)
    && tx.Some? && plan.call == Some(TransactCall(tx.value))
  }

  lemma {:induction false} TransferProvedFor(env: Env, net: Network, w: World, op: Op, plan: Plan)
    returns (notes: seq<Note>)
    requires WellConnected(env, net) && Inv(env, net, w) && Fits(op.token, 20)
    requires op.action.Transfer? && ValidAction(op.action)
    requires PlanTransfer(env, net, w, op) == Some(plan) && plan.call.Some?
    ensures op.action.from in net.wallets
    ensures ProvedFor(ProverOf(env), TransferBuilder(env, op.token, op.txId), ResolverOf(net.verifiers),
                      net.wallets[op.action.from], w, op, plan, notes)
  {
    var from := op.action.from;
    PartyIsGood(env, net, from);
    var sender := Recipient(ResolveParty(net.verifiers, from).value, from);
    notes := TransferProvedFrom(env, net, w, op, ProverOf(env), TransferBuilder(env, op.token, op.txId),
                                ResolverOf(net.verifiers), sender, plan);
  }

  lemma {:induction false} TransferProvedFrom(env: Env, net: Network, w: World, op: Op, prove: Prover,
                                              build: PayloadBuilder, resolve: Resolver, sender: Recipient, plan: Plan)
    returns (notes: seq<Note>)
    requires Inv(env, net, w) && op.action.Transfer? && op.action.from in net.wallets
    requires sender.keys.mpk == MasterPublicKey(env.H, net.wallets[op.action.from]) && plan.call.Some?
    requires PlanSpend(prove, net, op.action.from,
                       TransferFrom(build, resolve, AvailabilityOf(w.notes), w.leafRows, sender, op.token,
                                    op.action.entries, op.randoms),
                       op.ivs) == Some(plan)
    ensures ProvedFor(prove, build, resolve, net.wallets[op.action.from], w, op, plan, notes)
  {
    var outcome := TransferFrom(build, resolve, AvailabilityOf(w.notes), w.leafRows, sender, op.token,
                                op.action.entries, op.randoms);
    var states, total, paid := TransferFinishes(env, w, op, build, resolve, sender, outcome);
    TakenAreSpendable(w.notes, sender.keys.mpk, states);
    notes := NotesOf(states);
    TakenInTree(env, net, w, net.wallets[op.action.from], TakenAt(w.notes, sender.keys.mpk, |states|));
    DonePaysEntries(w, op, build, resolve, sender, states, total, paid, outcome);
  }

  lemma {:induction false} DonePaysEntries(w: World, op: Op, build: PayloadBuilder, resolve: Resolver,
                                           sender: Recipient, states: seq<NoteSelection.State>, total: nat,
                                           paid: seq<OutNote>, outcome: Outcome)
    requires op.action.Transfer? && TransferDone(w, op, build, resolve, sender, states, total, paid, outcome)
    ensures PaysEntries(w, op, resolve, outcome.outputs)
  {
    forall j | 0 <= j < |op.action.entries|
      ensures PaysEntry(w, op, resolve, op.action.entries[j], outcome.outputs[j], j)
    {
      assert outcome.outputs[j] == paid[j];
    }
  }

  /** Whoever owns the address that an entry of a proved transfer pays reads, from the position
    * of that entry, exactly the amount and token asked for, and the sender. */
  lemma {:induction false} EntryIsRead(env: Env, net: Network, w: World, op: Op, plan: Plan, j: nat, seed: seq<Byte>)
    requires Injective(env.H) && NoteCiphertext.Lawful(env.crypto) && |seed| == 32
    requires WellConnected(env, net) && Inv(env, net, w) && Fits(op.token, 20)
    requires op.action.Transfer? && ValidAction(op.action) && j < |op.action.entries|
    requires PlanTransfer(env, net, w, op) == Some(plan) && plan.call.Some?
    requires var to := ResolveRecipient(net.verifiers, op.action.entries[j].to);
      to.Some? ==> to.value.keys.viewingPub == NoteCiphertext.PublicKey(env.crypto, seed)
    ensures op.action.from in net.wallets && plan.call.value.TransactCall?
    ensures var to, tx := ResolveRecipient(net.verifiers, op.action.entries[j].to), plan.call.value.tx;
      && to.Some? && j < |tx.commitments| && j < |tx.boundParams.ciphertexts|
      && ReadsPayment(env, seed, to.value.keys.mpk, MasterPublicKey(env.H, net.wallets[op.action.from]), op.token,
                      Amount(op.action.entries[j]), tx.boundParams.ciphertexts[j], tx.commitments[j])
  {
    var notes := TransferProvedFor(env, net, w, op, plan);
    var id := net.wallets[op.action.from];
    assert PaysEntry(w, op, ResolverOf(net.verifiers), op.action.entries[j], plan.outs[j], j);
    PositionIsRead(env, id, w.chain.leaves, op.token, notes, plan.outs, op.txId, op.ivs, j, seed);
  }

  lemma {:induction false} PositionIsRead(env: Env, id: Identity, leaves: seq<nat>, token: nat, notes: seq<Note>,
                                          outs: seq<OutNote>, txID: string, ivs: nat -> seq<Byte>, j: nat,
                                          seed: seq<Byte>)
    requires Injective(env.H) && NoteCiphertext.Lawful(env.crypto) && |seed| == 32 && Fits(token, 20)
    requires notes != [] && SmallIndices(notes) && j < |outs| && outs[j].note.owner == outs[j].keys.mpk
    requires forall k :: 0 <= k < |outs| ==> outs[k].note.token == token
    requires outs[j].keys.viewingPub == NoteCiphertext.PublicKey(env.crypto, seed)
    requires ProverOf(env)(id, TransferBuilder(env, token, txID)(leaves, notes, outs), ivs).Some?
    ensures var tx := ProverOf(env)(id, TransferBuilder(env, token, txID)(leaves, notes, outs), ivs).value;
      && j < |tx.commitments| && j < |tx.boundParams.ciphertexts|
      && ReadsPayment(env, seed, outs[j].keys.mpk, MasterPublicKey(env.H, id), token, outs[j].note.value,
                      tx.boundParams.ciphertexts[j], tx.commitments[j])
  {
    var tx := ProverOf(env)(id, TransferBuilder(env, token, txID)(leaves, notes, outs), ivs).value;
    RecipientReads(env, id, leaves, token, notes, outs, txID, ivs, j, seed);
    TransferCommits(env, id, leaves, token, notes, outs, txID, ivs, j);
    ReadingIsExact(env, seed, MasterPublicKey(env.H, id), outs[j], tx.boundParams.ciphertexts[j]);
  }

  /** A proved transfer's commitments are the hashes of its outputs' notes. */
  lemma {:induction false} TransferCommits(env: Env, id: Identity, leaves: seq<nat>, token: nat, notes: seq<Note>,
                                           outs: seq<OutNote>, txID: string, ivs: nat -> seq<Byte>, j: nat)
    requires Fits(token, 20) && notes != [] && SmallIndices(notes) && outs != [] && j < |outs|
    requires forall k :: 0 <= k < |outs| ==> outs[k].note.token == token
    requires ProverOf(env)(id, TransferBuilder(env, token, txID)(leaves, notes, outs), ivs).Some?
    ensures var tx := ProverOf(env)(id, TransferBuilder(env, token, txID)(leaves, notes, outs), ivs).value;
      j < |tx.commitments| && tx.commitments[j] == NoteHash(env.H, outs[j].note)
  {
    TransferTx(env, id, leaves, token, notes, outs, txID, ivs);
    var tx := ProverOf(env)(id, TransferBuilder(env, token, txID)(leaves, notes, outs), ivs).value;
    CommitmentsMatch(env, id, leaves, token, notes, outs, None, tx);
    assert tx.commitments[j] == tx.commitments[..|outs|][j];
  }

  lemma {:induction false} ReadingIsExact(env: Env, seed: seq<Byte>, senderMPK: nat, o: OutNote,
                                          c: CommitmentCiphertext)
    requires Injective(env.H) && o.note.owner == o.keys.mpk
    requires Recovers(env, seed, o.keys.mpk, senderMPK, c, NoteHash(env.H, o.note))
    ensures ReadsPayment(env, seed, o.keys.mpk, senderMPK, o.note.token, o.note.value, c, NoteHash(env.H, o.note))
  {
    var d := NoteCiphertext.DecryptTransactNote(env.crypto, seed, OnChain(c)).value;
    var read := Note(o.keys.mpk, FromBE(d.random), FromBE(d.tokenHash), FromBE(d.noteValue), 0);
    assert NoteHash(env.H, read) == NoteHash(env.H, o.note);
    CommitmentOpensOneWay(env.H, read, o.note);
  }
}
