/** The receipts of operations that Assemble makes from the stored notes. */
module AssembledReceipts {
  import opened Bytes
  import opened Wrappers
  import opened Paging
  import opened Proving
  import opened Assembly
  import opened Ledger
  import opened Operations
  import Receipts
  import NoteSelection

  /** What selection takes in a ledger is the sender's, and worth the total. */
  lemma {:induction false} SelectionIsTheSenders(notes: seq<StoredNote>, mpk: nat, target: nat,
                                                 states: seq<NoteSelection.State>, total: nat)
    requires NoteSelection.Select(Available(notes, mpk), target) == NoteSelection.Selected(states, total)
    ensures Receipts.SelectedFrom(states, mpk, total) && total >= target
  {
    var store := Available(notes, mpk);
    NoteSelection.SelectedIsCover(store, target);
    forall i | 0 <= i < |states| ensures states[i].data.value.owner == mpk {
      assert states[i] == store[i] && IsAvailable(notes[AvailableAt(notes, mpk)[i]], mpk);
    }
  }

  /** The receipt of these inputs and outputs has one row for each owner other than the sender
    * who was asked to be paid, in order of first appearance, for exactly what was requested. */
  ghost predicate ReportsPayment(resolve: Resolver, entries: seq<TransferEntry>, mpk: nat,
                                 states: seq<NoteSelection.State>, outs: seq<OutNote>)
  {
    && Decodable(states)
    && Receipts.ReportsRequests(resolve, entries, mpk, Receipts.Recipients(Receipts.NotesIn(outs), Some(mpk)),
                                Receipts.Transfers(NotesOf(states), Receipts.NotesIn(outs)))
  }

  /** The receipt of `outcome` is one row without a recipient, for the amount withdrawn. */
  ghost predicate ReportsUnshield(mpk: nat, amount: nat, outcome: Outcome)
    requires outcome.Assembled?
  {
    && Decodable(outcome.inputs)
    && Receipts.Transfers(NotesOf(outcome.inputs), Receipts.NotesIn(outcome.outputs))
         == Some([Receipts.Transfer.Transfer(Some(mpk), None, amount)])
  }

  /** Whatever transfer Assemble makes from the stored notes, its receipt reports the request. */
  lemma {:induction false} AssembledTransferReceipt(env: Env, net: Network, w: World, op: Op, outcome: Outcome)
    requires RecordsTree(env, w) && Fits(op.token, 20) && op.action.Transfer? && outcome.Assembled?
    requires outcome == AssembleTransfer(env, net.verifiers, AvailabilityOf(w.notes), w.leafRows, op.action.from,
                                         op.token, op.action.entries, op.randoms, op.txId)
    ensures var keys := ResolveParty(net.verifiers, op.action.from);
      keys.Some?
      && ReportsPayment(ResolverOf(net.verifiers), op.action.entries, keys.value.mpk, outcome.inputs, outcome.outputs)
  {
    var sender := Recipient(ResolveParty(net.verifiers, op.action.from).value, op.action.from);
    TransferFromReceipt(env, w, op, TransferBuilder(env, op.token, op.txId), ResolverOf(net.verifiers), sender,
                        outcome);
  }

  lemma {:induction false} TransferFromReceipt(env: Env, w: World, op: Op, build: PayloadBuilder, resolve: Resolver,
                                               sender: Recipient, outcome: Outcome)
    requires RecordsTree(env, w) && op.action.Transfer? && outcome.Assembled?
    requires outcome == TransferFrom(build, resolve, AvailabilityOf(w.notes), w.leafRows, sender, op.token,
                                     op.action.entries, op.randoms)
    ensures ReportsPayment(resolve, op.action.entries, sender.keys.mpk, outcome.inputs, outcome.outputs)
  {
    var states, total, paid := TransferFinishes(env, w, op, build, resolve, sender, outcome);
    DoneReceipt(w, op, build, resolve, sender, states, total, paid, outcome);
  }

  lemma {:induction false} DoneReceipt(w: World, op: Op, build: PayloadBuilder, resolve: Resolver, sender: Recipient,
                                       states: seq<NoteSelection.State>, total: nat, paid: seq<OutNote>,
                                       outcome: Outcome)
    requires op.action.Transfer? && TransferDone(w, op, build, resolve, sender, states, total, paid, outcome)
    ensures ReportsPayment(resolve, op.action.entries, sender.keys.mpk, outcome.inputs, outcome.outputs)
  {
    DoneOutputs(w, op, build, resolve, sender, states, total, paid, outcome);
    PaidReceipt(w.notes, resolve, sender, op.token, op.action.entries, op.randoms, |w.chain.leaves|, states, total,
                paid);
  }

  lemma {:induction false} PaidReceipt(notes: seq<StoredNote>, resolve: Resolver, sender: Recipient, token: nat,
                                       entries: seq<TransferEntry>, randoms: nat -> nat, next: nat,
                                       states: seq<NoteSelection.State>, total: nat, paid: seq<OutNote>)
    requires PaysFrom(Available(notes, sender.keys.mpk), resolve, token, entries, randoms, next, states, total, paid)
    ensures ReportsPayment(resolve, entries, sender.keys.mpk, states,
                           WithChange(paid, sender, token, total - TotalAmount(entries), randoms(|entries|), next))
  {
    var change, mpk := total - TotalAmount(entries), sender.keys.mpk;
    var outs := WithChange(paid, sender, token, change, randoms(|entries|), next);
    SelectionIsTheSenders(notes, mpk, TotalAmount(entries), states, total);
    Receipts.ReceiptOfPaid(resolve, sender, token, entries, paid, states, total, randoms, next);
    Receipts.ChangeIsTheSenders(paid, sender, token, change, randoms(|entries|), next);
    assert Receipts.ReportsRequests(resolve, entries, mpk, Receipts.Recipients(Receipts.NotesIn(paid), Some(mpk)),
                                    Receipts.Transfers(NotesOf(states), Receipts.NotesIn(outs)));
  }

  /** Likewise for an unshield. */
  lemma {:induction false} AssembledUnshieldReceipt(env: Env, net: Network, w: World, op: Op, to: nat,
                                                    outcome: Outcome)
    requires RecordsTree(env, w) && Fits(op.token, 20) && op.action.Unshield? && op.action.amount > 0
    requires outcome.Assembled?
    requires outcome == AssembleUnshield(env, net.verifiers, AvailabilityOf(w.notes), w.leafRows, op.action.from,
                                         op.token, to, op.action.amount, op.randoms(0), op.txId)
    ensures var keys := ResolveParty(net.verifiers, op.action.from);
      keys.Some? && ReportsUnshield(keys.value.mpk, op.action.amount, outcome)
  {
    var sender := Recipient(ResolveParty(net.verifiers, op.action.from).value, op.action.from);
    UnshieldFromReceipt(env, w, op, UnshieldBuilder(env, op.token, to, op.action.amount, op.txId), sender, outcome);
  }

  lemma {:induction false} UnshieldFromReceipt(env: Env, w: World, op: Op, build: PayloadBuilder, sender: Recipient,
                                               outcome: Outcome)
    requires RecordsTree(env, w) && op.action.Unshield? && op.action.amount > 0 && outcome.Assembled?
    requires outcome == UnshieldFrom(build, AvailabilityOf(w.notes), w.leafRows, sender, op.token, op.action.amount,
                                     op.randoms(0))
    ensures ReportsUnshield(sender.keys.mpk, op.action.amount, outcome)
  {
    var states, total := UnshieldFinishes(env, w, op, build, sender, outcome);
    SelectionIsTheSenders(w.notes, sender.keys.mpk, op.action.amount, states, total);
    Receipts.UnshieldReceipt(build, w.chain.leaves, sender, op.token, op.action.amount, states, total, op.randoms(0));
  }
}
