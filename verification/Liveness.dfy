/** When an assembled spend goes through: exactly when the notes selected all have the token
  * being spent, given keys that can encrypt and a circuit of the size. */
module Liveness {
  import opened Notes
  import opened Bytes
  import opened Wrappers
  import opened Paging
  import opened JoinSplit
  import opened Proving
  import opened Assembly
  import opened Spending
  import opened Ledger
  import opened Settlement
  import opened Operations
  import Delivery
  import Address
  import NoteCiphertext
  import NoteSelection

  // ---------------------------------------------------------------------------
  // Values balance
  // ---------------------------------------------------------------------------

  lemma {:induction false} SelectionSum(states: seq<NoteSelection.State>)
    requires Decodable(states)
    ensures NoteSelection.Sum(states) == Sum(NoteValues(NotesOf(states)))
  {
    if states != [] {
      var n := |states| - 1;
      SelectionSum(states[..n]);
      assert NoteValues(NotesOf(states))[..n] == NoteValues(NotesOf(states[..n]));
    }
  }

  lemma {:induction false} PaidSum(resolve: Resolver, token: nat, entries: seq<TransferEntry>, randoms: nat -> nat,
                                   next: nat)
    requires TransferOutputs(resolve, token, entries, randoms, next).Some?
    ensures Sum(OutValues(TransferOutputs(resolve, token, entries, randoms, next).value)) == TotalAmount(entries)
  {
    if entries != [] {
      var n := |entries| - 1;
      var paid := TransferOutputs(resolve, token, entries, randoms, next).value;
      PaidSum(resolve, token, entries[..n], randoms, next);
      assert OutValues(paid)[..n] == OutValues(TransferOutputs(resolve, token, entries[..n], randoms, next).value);
    }
  }

  lemma {:induction false} ChangeSum(paid: seq<OutNote>, sender: Recipient, token: nat, change: nat, random: nat,
                                     next: nat)
    ensures Sum(OutValues(WithChange(paid, sender, token, change, random, next))) == Sum(OutValues(paid)) + change
  {
    var vs := OutValues(WithChange(paid, sender, token, change, random, next));
    if change > 0 {
      assert vs[..|vs| - 1] == OutValues(paid) && vs[|vs| - 1] == change;
    }
  }

  lemma {:induction false} SpendOutputValues(H: Hash, outs: seq<OutNote>)
    ensures OutputValues(SpendOutputs(H, outs)) == OutValues(outs)
  {
  }

  lemma {:induction false} SelectedTotal(store: seq<NoteSelection.State>, target: nat, states: seq<NoteSelection.State>,
                                         total: nat)
    requires NoteSelection.Select(store, target) == NoteSelection.Selected(states, total)
    ensures Decodable(states) && total == Sum(NoteValues(NotesOf(states)))
  {
    NoteSelection.SelectedIsCover(store, target);
    SelectionSum(states);
  }

  // ---------------------------------------------------------------------------
  // Values are in range
  // ---------------------------------------------------------------------------

  /** Stored, confirmed notes are below 2^120. */
  lemma {:induction false} AvailableInRange(env: Env, net: Network, w: World, mpk: nat)
    requires NotesKept(env, net, w)
    ensures InRange(Available(w.notes, mpk))
  {
    forall i | 0 <= i < |Available(w.notes, mpk)| ensures Available(w.notes, mpk)[i].data.value.value < VALUE_BOUND {
      assert Placed(w.chain, w.notes[AvailableAt(w.notes, mpk)[i]]);
    }
  }

  /** The sender's own keys, and the randomness it draws, have the sizes they should have. */
  ghost predicate OwnSizes(env: Env, id: Identity, op: Op)
  {
    && |id.viewingKey| == 32 && Fits(MasterPublicKey(env.H, id), 32)
    && forall j: nat :: Fits(op.randoms(j), 16) && |op.ivs(j)| == 16
  }

  ghost predicate AllSized(env: Env, id: Identity, outs: seq<OutNote>, ivs: nat -> seq<Byte>)
  {
    forall j: nat :: j < |outs| ==> SizedFor(env, id, outs[j], ivs(j))
  }

  lemma {:induction false} PlannedAreSized(env: Env, net: Network, w: World, op: Op, id: Identity, outs: seq<OutNote>)
    requires PlannedOuts(env, net, w, op, outs) && OwnSizes(env, id, op)
    ensures AllSized(env, id, outs, op.ivs)
  {
    forall j: nat | j < |outs| ensures SizedFor(env, id, outs[j], op.ivs(j)) {
      assert PlannedOut(env, net, w, op, outs[j], j);
      assert Fits(op.randoms(j), 16);
    }
  }

  ghost predicate WorthTheSame(notes: seq<Note>, outs: seq<OutNote>)
  {
    Sum(NoteValues(notes)) == Sum(OutValues(outs))
  }

  /** A transfer's inputs are worth its outputs. */
  lemma {:induction false} TransferSums(w: World, op: Op, build: PayloadBuilder, resolve: Resolver, sender: Recipient,
                                        states: seq<NoteSelection.State>, total: nat, paid: seq<OutNote>,
                                        outcome: Outcome)
    requires op.action.Transfer? && TransferDone(w, op, build, resolve, sender, states, total, paid, outcome)
    ensures WorthTheSame(NotesOf(outcome.inputs), outcome.outputs)
  {
    DoneOutputs(w, op, build, resolve, sender, states, total, paid, outcome);
    PaymentSums(resolve, sender, op.token, op.action.entries, Available(w.notes, sender.keys.mpk), states, total, paid,
                op.randoms, |w.chain.leaves|);
  }

  lemma {:induction false} PaymentSums(resolve: Resolver, sender: Recipient, token: nat, entries: seq<TransferEntry>,
                                       store: seq<NoteSelection.State>, states: seq<NoteSelection.State>, total: nat,
                                       paid: seq<OutNote>, randoms: nat -> nat, next: nat)
    requires PaysFrom(store, resolve, token, entries, randoms, next, states, total, paid)
    ensures WorthTheSame(NotesOf(states),
                         WithChange(paid, sender, token, total - TotalAmount(entries), randoms(|entries|), next))
  {
    SelectedTotal(store, TotalAmount(entries), states, total);
    PaidSum(resolve, token, entries, randoms, next);
    ChangeSum(paid, sender, token, total - TotalAmount(entries), randoms(|entries|), next);
  }

  /** And its outputs are in range. */
  lemma {:induction false} TransferInRange(env: Env, net: Network, w: World, op: Op, build: PayloadBuilder,
                                           resolve: Resolver, sender: Recipient, states: seq<NoteSelection.State>,
                                           total: nat, paid: seq<OutNote>, outcome: Outcome)
    requires NotesKept(env, net, w) && op.action.Transfer? && ValidTransfers(op.action.entries)
    requires TransferDone(w, op, build, resolve, sender, states, total, paid, outcome)
    ensures OutsInRange(outcome.outputs)
  {
    var store := Available(w.notes, sender.keys.mpk);
    AvailableInRange(env, net, w, sender.keys.mpk);
    DoneInRange(w, op, build, resolve, sender, store, states, total, paid, outcome);
  }

  lemma {:induction false} DoneInRange(w: World, op: Op, build: PayloadBuilder, resolve: Resolver, sender: Recipient,
                                       store: seq<NoteSelection.State>, states: seq<NoteSelection.State>, total: nat,
                                       paid: seq<OutNote>, outcome: Outcome)
    requires op.action.Transfer? && ValidTransfers(op.action.entries)
    requires Decodable(store) && InRange(store) && store == Available(w.notes, sender.keys.mpk)
    requires TransferDone(w, op, build, resolve, sender, states, total, paid, outcome)
    ensures OutsInRange(outcome.outputs)
  {
    DoneOutputs(w, op, build, resolve, sender, states, total, paid, outcome);
    PaymentInRange(resolve, sender, op.token, op.action.entries, store, states, total, paid, op.randoms,
                   |w.chain.leaves|);
  }

  lemma {:induction false} PaymentInRange(resolve: Resolver, sender: Recipient, token: nat, entries: seq<TransferEntry>,
                                          store: seq<NoteSelection.State>, states: seq<NoteSelection.State>, total: nat,
                                          paid: seq<OutNote>, randoms: nat -> nat, next: nat)
    requires ValidTransfers(entries) && Decodable(store) && InRange(store)
    requires PaysFrom(store, resolve, token, entries, randoms, next, states, total, paid)
    ensures OutsInRange(WithChange(paid, sender, token, total - TotalAmount(entries), randoms(|entries|), next))
  {
    TransferOutputsInRange(resolve, sender, token, entries, store, randoms, next);
    assert NoteSelection.Select(store, TotalAmount(entries)).total == total;
    assert TransferOutputs(resolve, token, entries, randoms, next).value == paid;
  }

  lemma {:induction false} UnshieldValues(env: Env, net: Network, w: World, op: Op, build: PayloadBuilder,
                                          sender: Recipient, states: seq<NoteSelection.State>, total: nat,
                                          outcome: Outcome)
    requires NotesKept(env, net, w) && op.action.Unshield? && op.action.amount > 0
    requires UnshieldDone(w, op, build, sender, states, total, outcome)
    ensures Sum(NoteValues(NotesOf(outcome.inputs))) == outcome.outputs[0].note.value + op.action.amount
    ensures outcome.outputs[0].note.value < VALUE_BOUND
  {
    var store := Available(w.notes, sender.keys.mpk);
    SelectedTotal(store, op.action.amount, states, total);
    AvailableInRange(env, net, w, sender.keys.mpk);
    NoteSelection.ChangeBelowLastNote(store, op.action.amount);
    assert states[|states| - 1] == store[|states| - 1];
  }

  // ---------------------------------------------------------------------------
  // Provers
  // ---------------------------------------------------------------------------

  /** When a prover succeeds on a transfer's payload. */
  ghost predicate ProvesTransfers(env: Env, id: Identity, prove: Prover, build: PayloadBuilder, token: nat)
  {
    forall leaves: seq<nat>, notes: seq<Note>, outs: seq<OutNote>, ivs: nat -> seq<Byte> ::
      Spendable(env, id, leaves, notes) && outs != [] && Encryptable(env, id, outs, ivs)
        && Sum(NoteValues(notes)) == Sum(OutValues(outs))
      ==> (prove(id, build(leaves, notes, outs), ivs).Some?
           <==> env.hasCircuit(|notes|, |outs|) && OneToken(notes, token) && AllOnCurve(env, outs))
  }

  lemma {:induction false} TransferProved(env: Env, id: Identity, token: nat, txID: string, leaves: seq<nat>,
                                          notes: seq<Note>, outs: seq<OutNote>, ivs: nat -> seq<Byte>)
    requires Injective(env.H) && KeyPair(env.signer, id) && NoteCiphertext.Lawful(env.crypto) && Fits(token, 20)
    requires Spendable(env, id, leaves, notes) && outs != [] && Encryptable(env, id, outs, ivs)
    requires Sum(NoteValues(notes)) == Sum(OutValues(outs))
    ensures ProverOf(env)(id, TransferBuilder(env, token, txID)(leaves, notes, outs), ivs).Some?
       <==> env.hasCircuit(|notes|, |outs|) && OneToken(notes, token) && AllOnCurve(env, outs)
  {
    var p := TransferBuilder(env, token, txID)(leaves, notes, outs);
    assert forall i :: 0 <= i < |notes| ==> InTree(env.H, leaves, id, notes[i]);
    BuiltTransferPayload(env, leaves, token, notes, outs, txID);
    SpendOutputValues(env.H, outs);
    TransferProvableExactly(env, id, leaves, token, notes, outs, txID, ivs, p);
  }

  lemma {:induction false} ProverTransfers(env: Env, id: Identity, token: nat, txID: string)
    requires Injective(env.H) && KeyPair(env.signer, id) && NoteCiphertext.Lawful(env.crypto) && Fits(token, 20)
    ensures ProvesTransfers(env, id, ProverOf(env), TransferBuilder(env, token, txID), token)
  {
    var prove, build := ProverOf(env), TransferBuilder(env, token, txID);
    forall leaves: seq<nat>, notes: seq<Note>, outs: seq<OutNote>, ivs: nat -> seq<Byte>
      | Spendable(env, id, leaves, notes) && outs != [] && Encryptable(env, id, outs, ivs)
        && Sum(NoteValues(notes)) == Sum(OutValues(outs))
      ensures prove(id, build(leaves, notes, outs), ivs).Some?
         <==> env.hasCircuit(|notes|, |outs|) && OneToken(notes, token) && AllOnCurve(env, outs)
    {
      TransferProved(env, id, token, txID, leaves, notes, outs, ivs);
    }
  }

  /** When a prover succeeds on an unshield's payload. */
  ghost predicate ProvesUnshields(env: Env, id: Identity, prove: Prover, build: PayloadBuilder, token: nat, amount: nat)
  {
    forall leaves: seq<nat>, notes: seq<Note>, changes: seq<OutNote>, ivs: nat -> seq<Byte> ::
      Spendable(env, id, leaves, notes) && |changes| == 1 && changes[0].note.value < VALUE_BOUND
      && Sum(NoteValues(notes)) == changes[0].note.value + amount
      ==> (prove(id, build(leaves, notes, changes), ivs).Some?
           <==> env.hasCircuit(|notes|, 2) && amount < VALUE_BOUND && OneToken(notes, token))
  }

  lemma {:induction false} UnshieldOutValues(H: Hash, change: OutNote, to: nat, amount: nat)
    ensures Sum(OutputValues(UnshieldOuts(H, change, to, amount))) == change.note.value + amount
  {
    var v := change.note.value;
    assert OutputValues(UnshieldOuts(H, change, to, amount)) == [v] + [amount];
    SumAppends([v], [amount]);
    assert [v][..0] == [] && [amount][..0] == [];
  }

  lemma {:induction false} UnshieldProved(env: Env, id: Identity, token: nat, to: nat, amount: nat, txID: string,
                                          leaves: seq<nat>, notes: seq<Note>, changes: seq<OutNote>,
                                          ivs: nat -> seq<Byte>)
    requires Injective(env.H) && KeyPair(env.signer, id) && Fits(token, 20)
    requires Spendable(env, id, leaves, notes) && |changes| == 1 && changes[0].note.value < VALUE_BOUND
    requires Sum(NoteValues(notes)) == changes[0].note.value + amount
    ensures ProverOf(env)(id, UnshieldBuilder(env, token, to, amount, txID)(leaves, notes, changes), ivs).Some?
       <==> env.hasCircuit(|notes|, 2) && amount < VALUE_BOUND && OneToken(notes, token)
  {
    var p := UnshieldBuilder(env, token, to, amount, txID)(leaves, notes, changes);
    assert forall i :: 0 <= i < |notes| ==> InTree(env.H, leaves, id, notes[i]);
    UnshieldPayloadOf(env, leaves, token, notes, changes, to, amount, txID);
    UnshieldOutValues(env.H, changes[0], to, amount);
    UnshieldProvableExactly(env, id, leaves, token, notes, changes[0], to, amount, txID, ivs, p);
  }

  lemma {:induction false} ProverUnshields(env: Env, id: Identity, token: nat, to: nat, amount: nat, txID: string)
    requires Injective(env.H) && KeyPair(env.signer, id) && Fits(token, 20)
    ensures ProvesUnshields(env, id, ProverOf(env), UnshieldBuilder(env, token, to, amount, txID), token, amount)
  {
    var prove, build := ProverOf(env), UnshieldBuilder(env, token, to, amount, txID);
    forall leaves: seq<nat>, notes: seq<Note>, changes: seq<OutNote>, ivs: nat -> seq<Byte>
      | Spendable(env, id, leaves, notes) && |changes| == 1 && changes[0].note.value < VALUE_BOUND
        && Sum(NoteValues(notes)) == changes[0].note.value + amount
      ensures prove(id, build(leaves, notes, changes), ivs).Some?
         <==> env.hasCircuit(|notes|, 2) && amount < VALUE_BOUND && OneToken(notes, token)
    {
      UnshieldProved(env, id, token, to, amount, txID, leaves, notes, changes, ivs);
    }
  }

  // ---------------------------------------------------------------------------
  // Operations
  // ---------------------------------------------------------------------------

  lemma {:induction false} TakenSpendable(env: Env, net: Network, w: World, id: Identity, at: seq<nat>)
    requires Inv(env, net, w) && OwnedAt(w.notes, MasterPublicKey(env.H, id), at) && at != []
    ensures Spendable(env, id, w.chain.leaves, NotesAt(w.notes, at))
  {
    TakenInTree(env, net, w, id, at);
  }

  lemma {:induction false} TransferCalled(env: Env, net: Network, w: World, op: Op, prove: Prover,
                                          build: PayloadBuilder, resolve: Resolver, sender: Recipient,
                                          states: seq<NoteSelection.State>, total: nat, paid: seq<OutNote>,
                                          outcome: Outcome)
    returns (at: seq<nat>)
    requires Inv(env, net, w) && op.action.Transfer? && ValidTransfers(op.action.entries)
    requires sender.lookup == op.action.from && sender.lookup in net.wallets && GoodRecipient(env, net, sender)
    requires sender.lookup != ""
    requires ProvesTransfers(env, net.wallets[sender.lookup], prove, build, op.token)
    requires TransferDone(w, op, build, resolve, sender, states, total, paid, outcome)
    requires outcome.outputs != [] && AllSized(env, net.wallets[sender.lookup], outcome.outputs, op.ivs)
    ensures at == SelectedAt(w.notes, MasterPublicKey(env.H, net.wallets[op.action.from]), SpendTarget(op.action))
    ensures OwnedAt(w.notes, MasterPublicKey(env.H, net.wallets[op.action.from]), at)
    ensures NotesAt(w.notes, at) == NotesOf(outcome.inputs)
    ensures PlanSpend(prove, net, op.action.from, outcome, op.ivs).value.call.Some?
       <==> env.hasCircuit(|at|, |outcome.outputs|) && OneToken(NotesAt(w.notes, at), op.token)
            && AllOnCurve(env, outcome.outputs)
  {
    var id := net.wallets[op.action.from];
    TakenAreSpendable(w.notes, sender.keys.mpk, outcome.inputs);
    at := TakenAt(w.notes, sender.keys.mpk, |outcome.inputs|);
    TakenAreSelected(w.notes, sender.keys.mpk, SpendTarget(op.action), states, total);
    TakenSpendable(env, net, w, id, at);
    TransferSums(w, op, build, resolve, sender, states, total, paid, outcome);
    TransferInRange(env, net, w, op, build, resolve, sender, states, total, paid, outcome);
    PaymentCalled(env, net, w, op, prove, build, op.action.from, NotesAt(w.notes, at), outcome);
  }

  lemma {:induction false} TakenAreSelected(notes: seq<StoredNote>, mpk: nat, target: nat,
                                            states: seq<NoteSelection.State>, total: nat)
    requires NoteSelection.Select(Available(notes, mpk), target) == NoteSelection.Selected(states, total)
    requires |states| <= |AvailableAt(notes, mpk)|
    ensures TakenAt(notes, mpk, |states|) == SelectedAt(notes, mpk, target)
  {
    assert AvailableAt(notes, mpk)[..|AvailableAt(notes, mpk)|] == AvailableAt(notes, mpk);
  }

  lemma {:induction false} PaymentCalled(env: Env, net: Network, w: World, op: Op, prove: Prover, build: PayloadBuilder,
                                         from: string, notes: seq<Note>, outcome: Outcome)
    requires outcome.Assembled? && from in net.wallets
    requires ProvesTransfers(env, net.wallets[from], prove, build, op.token)
    requires Spendable(env, net.wallets[from], w.chain.leaves, notes) && outcome.outputs != []
    requires AllSized(env, net.wallets[from], outcome.outputs, op.ivs)
    requires OutsInRange(outcome.outputs)
    requires WorthTheSame(notes, outcome.outputs)
    requires outcome.payload == build(w.chain.leaves, notes, outcome.outputs)
    ensures PlanSpend(prove, net, from, outcome, op.ivs).value.call.Some?
       <==> env.hasCircuit(|notes|, |outcome.outputs|) && OneToken(notes, op.token)
            && AllOnCurve(env, outcome.outputs)
  {
    assert Encryptable(env, net.wallets[from], outcome.outputs, op.ivs);
  }

  lemma {:induction false} WithdrawalCalled(env: Env, net: Network, w: World, op: Op, prove: Prover,
                                            build: PayloadBuilder, from: string, notes: seq<Note>, outcome: Outcome)
    requires op.action.Unshield? && outcome.Assembled? && from in net.wallets
    requires ProvesUnshields(env, net.wallets[from], prove, build, op.token, op.action.amount)
    requires Spendable(env, net.wallets[from], w.chain.leaves, notes) && |outcome.outputs| == 1
    requires outcome.outputs[0].note.value < VALUE_BOUND
    requires Sum(NoteValues(notes)) == outcome.outputs[0].note.value + op.action.amount
    requires outcome.payload == build(w.chain.leaves, notes, outcome.outputs)
    ensures PlanSpend(prove, net, from, outcome, op.ivs).value.call.Some?
       <==> env.hasCircuit(|notes|, 2) && op.action.amount < VALUE_BOUND && OneToken(notes, op.token)
  {
  }

  lemma {:induction false} UnshieldCalled(env: Env, net: Network, w: World, op: Op, prove: Prover,
                                          build: PayloadBuilder, sender: Recipient, states: seq<NoteSelection.State>,
                                          total: nat, outcome: Outcome)
    returns (at: seq<nat>)
    requires Inv(env, net, w) && op.action.Unshield? && op.action.amount > 0
    requires sender.lookup == op.action.from && sender.lookup in net.wallets && GoodRecipient(env, net, sender)
    requires sender.lookup != ""
    requires ProvesUnshields(env, net.wallets[sender.lookup], prove, build, op.token, op.action.amount)
    requires UnshieldDone(w, op, build, sender, states, total, outcome)
    ensures at == SelectedAt(w.notes, MasterPublicKey(env.H, net.wallets[op.action.from]), SpendTarget(op.action))
    ensures OwnedAt(w.notes, MasterPublicKey(env.H, net.wallets[op.action.from]), at)
    ensures NotesAt(w.notes, at) == NotesOf(outcome.inputs)
    ensures PlanSpend(prove, net, op.action.from, outcome, op.ivs).value.call.Some?
       <==> env.hasCircuit(|at|, 2) && op.action.amount < VALUE_BOUND && OneToken(NotesAt(w.notes, at), op.token)
  {
    TakenAreSpendable(w.notes, sender.keys.mpk, outcome.inputs);
    at := TakenAt(w.notes, sender.keys.mpk, |outcome.inputs|);
    TakenAreSelected(w.notes, sender.keys.mpk, SpendTarget(op.action), states, total);
    TakenSpendable(env, net, w, net.wallets[op.action.from], at);
    UnshieldValues(env, net, w, op, build, sender, states, total, outcome);
    WithdrawalCalled(env, net, w, op, prove, build, op.action.from, NotesAt(w.notes, at), outcome);
  }

  /** A transfer that assembles gets a proof exactly when there is a circuit of its size, every
    * note selected has the token being transferred, and every recipient's viewing key is a
    * curve point: selection looks at the owner only, and address decoding at lengths only.
    * (`Landing.SpendLands`: a proved call is never refused.) */
  lemma {:induction false} TransferGoesThrough(env: Env, net: Network, w: World, op: Op, plan: Plan)
    returns (at: seq<nat>)
    requires Injective(env.H) && NoteCiphertext.Lawful(env.crypto) && WellConnected(env, net) && Inv(env, net, w)
    requires Fits(op.token, 20) && op.action.Transfer? && ValidTransfers(op.action.entries)
    requires op.action.from in net.wallets
    requires PlanTransfer(env, net, w, op) == Some(plan)
    requires OwnSizes(env, net.wallets[op.action.from], op)
    ensures at == SelectedAt(w.notes, MasterPublicKey(env.H, net.wallets[op.action.from]), SpendTarget(op.action))
    ensures forall k :: 0 <= k < |at| ==> at[k] < |w.notes|
    ensures plan.call.Some?
       <==> env.hasCircuit(|at|, |plan.outs|) && OneToken(NotesAt(w.notes, at), op.token) && AllOnCurve(env, plan.outs)
  {
    var from := op.action.from;
    ProverTransfers(env, net.wallets[from], op.token, op.txId);
    ResolverIsGood(env, net);
    PartyIsGood(env, net, from);
    var sender := Recipient(ResolveParty(net.verifiers, from).value, from);
    at := TransferGoesThroughFrom(env, net, w, op, ProverOf(env), TransferBuilder(env, op.token, op.txId),
                                  ResolverOf(net.verifiers), sender, plan);
  }

  lemma {:induction false} TransferGoesThroughFrom(env: Env, net: Network, w: World, op: Op, prove: Prover,
                                                   build: PayloadBuilder, resolve: Resolver, sender: Recipient,
                                                   plan: Plan) returns (at: seq<nat>)
    requires Inv(env, net, w) && op.action.Transfer? && ValidTransfers(op.action.entries)
    requires GoodResolver(env, net, resolve)
    requires sender.lookup == op.action.from && sender.lookup in net.wallets && GoodRecipient(env, net, sender)
    requires sender.lookup != ""
    requires ProvesTransfers(env, net.wallets[sender.lookup], prove, build, op.token)
    requires PlanSpend(prove, net, op.action.from,
                       Assembly.TransferFrom(build, resolve, AvailabilityOf(w.notes), w.leafRows, sender, op.token,
                                             op.action.entries, op.randoms),
                       op.ivs) == Some(plan)
    requires OwnSizes(env, net.wallets[sender.lookup], op)
    ensures at == SelectedAt(w.notes, MasterPublicKey(env.H, net.wallets[op.action.from]), SpendTarget(op.action))
    ensures forall k :: 0 <= k < |at| ==> at[k] < |w.notes|
    ensures plan.call.Some?
       <==> env.hasCircuit(|at|, |plan.outs|) && OneToken(NotesAt(w.notes, at), op.token) && AllOnCurve(env, plan.outs)
  {
    var outcome :=
      Assembly.TransferFrom(build, resolve, AvailabilityOf(w.notes), w.leafRows, sender, op.token, op.action.entries,
                            op.randoms);
    var states, total, paid := TransferFinishes(env, w, op, build, resolve, sender, outcome);
    TransferMade(env, net, w, op, build, resolve, sender, states, total, paid, outcome);
    PlannedAreSized(env, net, w, op, net.wallets[sender.lookup], outcome.outputs);
    at := TransferCalled(env, net, w, op, prove, build, resolve, sender, states, total, paid, outcome);
  }

  /** A literal "0zk" address whose viewing key is not a curve point is accepted as a recipient,
    * its note is assembled and written, and then no proof can be made. */
  lemma {:induction false} OffCurveRecipientUnproved(env: Env, net: Network, w: World, op: Op, plan: Plan, j: nat,
                                                     keys: AddressKeys, chainID: nat)
    requires Injective(env.H) && NoteCiphertext.Lawful(env.crypto) && WellConnected(env, net) && Inv(env, net, w)
    requires Fits(op.token, 20) && op.action.Transfer? && ValidTransfers(op.action.entries)
    requires op.action.from in net.wallets && OwnSizes(env, net.wallets[op.action.from], op)
    requires PlanTransfer(env, net, w, op) == Some(plan) && j < |op.action.entries| && Fits(chainID, 7)
    requires Some(op.action.entries[j].to)
      == Address.EncodeAddress(Address.AddressData(Some(keys.mpk), keys.viewingPub, Some(Address.Chain(0, chainID))))
    requires env.crypto.decompress(keys.viewingPub).None?
    ensures ResolveRecipient(net.verifiers, op.action.entries[j].to) == Some(Recipient(keys, ""))
    ensures plan.call.None?
  {
    AddressIsRecipient(net, keys, chainID);
    if plan.call.Some? {
      var at := TransferGoesThrough(env, net, w, op, plan);
      var notes := Delivery.TransferProvedFor(env, net, w, op, plan);
      EntryOffCurve(env, net, w, op, plan.outs, j, keys);
    }
  }

  /** The owner's first available note has another token. */
  ghost predicate FirstIsOther(notes: seq<StoredNote>, mpk: nat, token: nat)
  {
    var first := AvailableAt(notes, mpk);
    first != [] && notes[first[0]].note.token != token
  }

  /** A sender whose first available note has another token than the one transferred: the
    * transfer is assembled with that note, and no proof can be made. */
  lemma {:induction false} OtherTokenUnproved(env: Env, net: Network, w: World, op: Op, plan: Plan)
    requires Injective(env.H) && NoteCiphertext.Lawful(env.crypto) && WellConnected(env, net) && Inv(env, net, w)
    requires Fits(op.token, 20) && op.action.Transfer? && ValidTransfers(op.action.entries)
    requires op.action.from in net.wallets && OwnSizes(env, net.wallets[op.action.from], op)
    requires PlanTransfer(env, net, w, op) == Some(plan)
    requires FirstIsOther(w.notes, MasterPublicKey(env.H, net.wallets[op.action.from]), op.token)
    ensures plan.call.None?
  {
    var at := TransferGoesThrough(env, net, w, op, plan);
    if plan.call.Some? {
      var id, taken := TransferPlanned(env, net, w, op, plan);
      FirstIsTaken(w.notes, MasterPublicKey(env.H, net.wallets[op.action.from]), SpendTarget(op.action), at, op.token);
    }
  }

  lemma {:induction false} FirstIsTaken(notes: seq<StoredNote>, mpk: nat, target: nat, at: seq<nat>, token: nat)
    requires at == SelectedAt(notes, mpk, target) && at != [] && forall k :: 0 <= k < |at| ==> at[k] < |notes|
    ensures AvailableAt(notes, mpk) != [] && at[0] == AvailableAt(notes, mpk)[0]
    ensures OneToken(NotesAt(notes, at), token) ==> notes[at[0]].note.token == token
  {
    assert NotesAt(notes, at)[0] == notes[at[0]].note;
  }

  /** An unshield of 2^120 passes validation, can be assembled, and cannot be proved. */
  lemma {:induction false} LargeUnshieldUnproved(env: Env, net: Network, w: World, op: Op, plan: Plan)
    requires Injective(env.H) && WellConnected(env, net) && Inv(env, net, w)
    requires Fits(op.token, 20) && op.action.Unshield? && |op.action.recipient| == 20
    requires op.action.amount == VALUE_BOUND && op.action.from in net.wallets
    requires PlanUnshield(env, net, w, op) == Some(plan)
    ensures ValidAction(op.action) && plan.call.None?
  {
    var at := UnshieldGoesThrough(env, net, w, op, plan);
  }

  lemma {:induction false} AddressIsRecipient(net: Network, keys: AddressKeys, chainID: nat)
    requires Fits(chainID, 7)
    ensures var a := Address.AddressData(Some(keys.mpk), keys.viewingPub, Some(Address.Chain(0, chainID)));
      && Address.EncodeAddress(a).Some?
      && ResolveRecipient(net.verifiers, Address.EncodeAddress(a).value) == Some(Recipient(keys, ""))
  {
    OwnAddressResolves(keys, chainID);
    Address.DecodeOfEncode(Address.AddressData(Some(keys.mpk), keys.viewingPub, Some(Address.Chain(0, chainID))));
  }

  lemma {:induction false} EntryOffCurve(env: Env, net: Network, w: World, op: Op, outs: seq<OutNote>, j: nat,
                                         keys: AddressKeys)
    requires op.action.Transfer? && j < |op.action.entries|
    requires ResolveRecipient(net.verifiers, op.action.entries[j].to) == Some(Recipient(keys, ""))
    requires Delivery.PaysEntries(w, op, ResolverOf(net.verifiers), outs)
    requires env.crypto.decompress(keys.viewingPub).None?
    ensures !AllOnCurve(env, outs)
  {
    assert Delivery.PaysEntry(w, op, ResolverOf(net.verifiers), op.action.entries[j], outs[j], j);
    assert !OnCurve(env, outs[j]);
  }

  /** An unshield that assembles gets a proof exactly when, besides, its amount is below 2^120,
    * which parameter validation does not check. */
  lemma {:induction false} UnshieldGoesThrough(env: Env, net: Network, w: World, op: Op, plan: Plan)
    returns (at: seq<nat>)
    requires Injective(env.H) && WellConnected(env, net) && Inv(env, net, w)
    requires Fits(op.token, 20) && op.action.Unshield? && op.action.amount > 0 && op.action.from in net.wallets
    requires PlanUnshield(env, net, w, op) == Some(plan)
    ensures at == SelectedAt(w.notes, MasterPublicKey(env.H, net.wallets[op.action.from]), SpendTarget(op.action))
    ensures forall k :: 0 <= k < |at| ==> at[k] < |w.notes|
    ensures plan.call.Some?
      <==> env.hasCircuit(|at|, 2) && op.action.amount < VALUE_BOUND && OneToken(NotesAt(w.notes, at), op.token)
  {
    var from, to := op.action.from, FromBE(op.action.recipient);
    ProverUnshields(env, net.wallets[from], op.token, to, op.action.amount, op.txId);
    PartyIsGood(env, net, from);
    var sender := Recipient(ResolveParty(net.verifiers, from).value, from);
    at := UnshieldGoesThroughFrom(env, net, w, op, ProverOf(env),
                                  UnshieldBuilder(env, op.token, to, op.action.amount, op.txId), sender, plan);
  }

  lemma {:induction false} UnshieldGoesThroughFrom(env: Env, net: Network, w: World, op: Op, prove: Prover,
                                                   build: PayloadBuilder, sender: Recipient, plan: Plan)
    returns (at: seq<nat>)
    requires Inv(env, net, w) && op.action.Unshield? && op.action.amount > 0
    requires sender.lookup == op.action.from && sender.lookup in net.wallets && GoodRecipient(env, net, sender)
    requires sender.lookup != ""
    requires ProvesUnshields(env, net.wallets[sender.lookup], prove, build, op.token, op.action.amount)
    requires PlanSpend(prove, net, op.action.from,
                       Assembly.UnshieldFrom(build, AvailabilityOf(w.notes), w.leafRows, sender, op.token,
                                             op.action.amount, op.randoms(0)),
                       op.ivs) == Some(plan)
    ensures at == SelectedAt(w.notes, MasterPublicKey(env.H, net.wallets[op.action.from]), SpendTarget(op.action))
    ensures forall k :: 0 <= k < |at| ==> at[k] < |w.notes|
    ensures plan.call.Some?
      <==> env.hasCircuit(|at|, 2) && op.action.amount < VALUE_BOUND && OneToken(NotesAt(w.notes, at), op.token)
  {
    var outcome :=
      Assembly.UnshieldFrom(build, AvailabilityOf(w.notes), w.leafRows, sender, op.token, op.action.amount,
                            op.randoms(0));
    var states, total := UnshieldFinishes(env, w, op, build, sender, outcome);
    at := UnshieldCalled(env, net, w, op, prove, build, sender, states, total, outcome);
  }
}
