/** Receipts: who paid whom, rebuilt from a transaction's notes (receiptTransfers of
  * receipts.go), and what a receipt says of an assembled operation. */
module Receipts {
  import opened Notes
  import opened Wrappers
  import opened Paging
  import opened Assembly
  import NoteSelection

  /** A row of a receipt.  `from` is missing when no note was consumed, `to` in the row of a
    * withdrawal. */
  datatype Transfer = Transfer(from: Option<nat>, to: Option<nat>, amount: nat)

  // ---------------------------------------------------------------------------
  // The group-by
  // ---------------------------------------------------------------------------

  function Sender(inputs: seq<Note>): Option<nat>
  {
    if inputs == [] then None else Some(inputs[0].owner)
  }

  predicate OneOwner(inputs: seq<Note>)
  {
    forall i :: 0 <= i < |inputs| ==> inputs[i].owner == inputs[0].owner
  }

  function TotalOf(notes: seq<Note>): nat
  {
    if notes == [] then 0 else TotalOf(notes[..|notes| - 1]) + notes[|notes| - 1].value
  }

  function Received(notes: seq<Note>, owner: nat): nat
  {
    if notes == [] then 0
    else
      var n := notes[|notes| - 1];
      Received(notes[..|notes| - 1], owner) + (if n.owner == owner then n.value else 0)
  }

  predicate Counts(n: Note, sender: Option<nat>)
  {
    n.value > 0 && sender != Some(n.owner)
  }

  /** The owners other than the sender who receive something, in order of first appearance. */
  function Recipients(notes: seq<Note>, sender: Option<nat>): seq<nat>
  {
    if notes == [] then []
    else
      var n, before := notes[|notes| - 1], Recipients(notes[..|notes| - 1], sender);
      if Counts(n, sender) && n.owner !in before then before + [n.owner] else before
  }

  /** What the sender consumed and did not get back. */
  function Residual(inputs: seq<Note>, outputs: seq<Note>): int
  {
    TotalOf(inputs) - (if inputs == [] then 0 else Received(outputs, inputs[0].owner))
  }

  function Rows(sender: Option<nat>, recipients: seq<nat>, outputs: seq<Note>): (rows: seq<Transfer>)
    ensures |rows| == |recipients|
    ensures forall k :: 0 <= k < |rows| ==>
      rows[k] == Transfer(sender, Some(recipients[k]), Received(outputs, recipients[k]))
  {
    seq(|recipients|, k requires 0 <= k < |recipients| =>
        Transfer(sender, Some(recipients[k]), Received(outputs, recipients[k])))
  }

  /** The transfers; None when the inputs have more than one owner. */
  function Transfers(inputs: seq<Note>, outputs: seq<Note>): Option<seq<Transfer>>
  {
    var sender := Sender(inputs);
    var recipients := Recipients(outputs, sender);
    if !OneOwner(inputs) then None
    else if recipients == [] && sender.Some? && Residual(inputs, outputs) > 0 then
      Some([Transfer(sender, None, Residual(inputs, outputs))])
    else Some(Rows(sender, recipients, outputs))
  }

  // ---------------------------------------------------------------------------
  // What the group-by means
  // ---------------------------------------------------------------------------

  /** Note `i` is the first that gives `owner` something. */
  ghost predicate FirstFor(notes: seq<Note>, owner: nat, i: int)
  {
    && 0 <= i < |notes| && notes[i].owner == owner && notes[i].value > 0
    && forall j :: 0 <= j < i ==> notes[j].owner != owner || notes[j].value == 0
  }

  ghost predicate InFirstOrder(notes: seq<Note>, owners: seq<nat>)
  {
    forall p, q, i, j :: 0 <= p < q < |owners| && FirstFor(notes, owners[p], i) && FirstFor(notes, owners[q], j) ==>
      i < j
  }

  /** The recipients are exactly the other owners who receive something, each once, in order
    * of first appearance. */
  lemma {:induction false} RecipientsExactly(notes: seq<Note>, sender: Option<nat>)
    ensures forall o: nat ::
      o in Recipients(notes, sender)
      <==> exists i :: 0 <= i < |notes| && notes[i].owner == o && Counts(notes[i], sender)
    ensures forall p, q :: 0 <= p < q < |Recipients(notes, sender)| ==>
      Recipients(notes, sender)[p] != Recipients(notes, sender)[q]
    ensures InFirstOrder(notes, Recipients(notes, sender))
  {
    if notes != [] {
      var n := |notes| - 1;
      var init, before, after := notes[..n], Recipients(notes[..n], sender), Recipients(notes, sender);
      RecipientsExactly(init, sender);
      forall o: nat
        ensures o in after <==> exists i :: 0 <= i < |notes| && notes[i].owner == o && Counts(notes[i], sender)
      {
        if o in before {
          var i :| 0 <= i < n && init[i].owner == o && Counts(init[i], sender);
          assert notes[i] == init[i];
        }
        if i :| 0 <= i < |notes| && notes[i].owner == o && Counts(notes[i], sender) {
          assert i < n ==> init[i] == notes[i];
        }
      }
      forall p, q, i, j | 0 <= p < q < |after| && FirstFor(notes, after[p], i) && FirstFor(notes, after[q], j)
        ensures i < j
      {
        assert after[p] in before;
        FirstWithin(notes, sender, after[p], i, n);
        if q < |before| {
          assert after[q] in before;
          FirstWithin(notes, sender, after[q], j, n);
        } else if j < n {
          assert init[j].owner == after[q] && Counts(init[j], sender);
        }
      }
    }
  }

  /** An owner who receives something among the first `n` notes does so first there. */
  lemma {:induction false} FirstWithin(notes: seq<Note>, sender: Option<nat>, owner: nat, i: int, n: nat)
    requires n <= |notes| && FirstFor(notes, owner, i)
    requires exists k :: 0 <= k < n && notes[..n][k].owner == owner && Counts(notes[..n][k], sender)
    ensures i < n && FirstFor(notes[..n], owner, i)
  {
    var k :| 0 <= k < n && notes[..n][k].owner == owner && Counts(notes[..n][k], sender);
    assert notes[k] == notes[..n][k];
  }

  /** Owners who are not listed, and are not the sender, receive nothing; those listed receive
    * something. */
  lemma {:induction false} ReceivedExactly(notes: seq<Note>, sender: Option<nat>, owner: nat)
    requires sender != Some(owner)
    ensures owner in Recipients(notes, sender) <==> Received(notes, owner) > 0
  {
    if notes != [] {
      ReceivedExactly(notes[..|notes| - 1], sender, owner);
    }
  }

  lemma {:induction false} SenderNotListed(notes: seq<Note>, sender: Option<nat>)
    ensures forall o: nat :: o in Recipients(notes, sender) ==> sender != Some(o)
  {
    if notes != [] {
      SenderNotListed(notes[..|notes| - 1], sender);
    }
  }

  function RowsTotal(notes: seq<Note>, owners: seq<nat>): nat
  {
    if owners == [] then 0 else RowsTotal(notes, owners[..|owners| - 1]) + Received(notes, owners[|owners| - 1])
  }

  lemma {:induction false} RowsTotalSnoc(notes: seq<Note>, owners: seq<nat>)
    requires notes != [] && forall p, q :: 0 <= p < q < |owners| ==> owners[p] != owners[q]
    ensures var n := notes[|notes| - 1];
      RowsTotal(notes, owners) == RowsTotal(notes[..|notes| - 1], owners) + (if n.owner in owners then n.value else 0)
  {
    if owners != [] {
      var m := |owners| - 1;
      RowsTotalSnoc(notes, owners[..m]);
      assert owners == owners[..m] + [owners[m]];
      assert owners[m] !in owners[..m];
    }
  }

  /** Nothing is lost: the outputs are worth what went back to the sender and the rows. */
  lemma {:induction false} OutputsAccounted(notes: seq<Note>, sender: Option<nat>)
    ensures TotalOf(notes)
      == (if sender.Some? then Received(notes, sender.value) else 0) + RowsTotal(notes, Recipients(notes, sender))
  {
    if notes != [] {
      var n, init := notes[|notes| - 1], notes[..|notes| - 1];
      var before := Recipients(init, sender);
      OutputsAccounted(init, sender);
      RecipientsExactly(init, sender);
      RowsTotalSnoc(notes, before);
      SenderNotListed(init, sender);
      if sender != Some(n.owner) {
        ReceivedExactly(init, sender, n.owner);
        if Counts(n, sender) && n.owner !in before {
          assert Recipients(notes, sender)[..|before|] == before;
        }
      }
    }
  }

  // ---------------------------------------------------------------------------
  // The implementation
  // ---------------------------------------------------------------------------

  method SumInputs(inputs: seq<Note>) returns (from: Option<nat>, fromAmount: int, parsedOK: bool)
    ensures from == Sender(inputs) && fromAmount == TotalOf(inputs) && parsedOK == OneOwner(inputs)
  {
    from, fromAmount, parsedOK := None, 0, true;
    for i := 0 to |inputs|
      invariant from == Sender(inputs[..i]) && fromAmount == TotalOf(inputs[..i]) && parsedOK == OneOwner(inputs[..i])
    {
      assert inputs[..i + 1][..i] == inputs[..i];
      var owner := inputs[i].owner;
      if from.None? {
        from := Some(owner);
      } else if Some(owner) != from {
        parsedOK := false;
        assert inputs[..i + 1][i].owner != inputs[..i + 1][0].owner;
      }
      fromAmount := fromAmount + inputs[i].value;
    }
    assert inputs[..|inputs|] == inputs;
  }

  /** `to` and `order` hold what the notes give to others than the sender. */
  ghost predicate Grouped(notes: seq<Note>, sender: Option<nat>, to: map<nat, nat>, order: seq<nat>)
  {
    && order == Recipients(notes, sender)
    && (forall o: nat :: o in to <==> o in order)
    && forall o: nat :: o in to ==> to[o] == Received(notes, o)
  }

  /** One output: subtracted from the sender, or added to its owner's entry. */
  method AddOutput(n: Note, from: Option<nat>, fromAmount: int, to: map<nat, nat>, order: seq<nat>,
                   ghost before: seq<Note>)
    returns (fromAmount': int, to': map<nat, nat>, order': seq<nat>)
    requires Grouped(before, from, to, order)
    ensures Grouped(before + [n], from, to', order')
    ensures fromAmount' == fromAmount - (if from == Some(n.owner) then n.value else 0)
  {
    fromAmount', to', order' := fromAmount, to, order;
    assert (before + [n])[..|before|] == before;
    SenderNotListed(before, from);
    if n.value == 0 {
      return;
    }
    if Some(n.owner) == from {
      fromAmount' := fromAmount - n.value;
    } else if n.owner in to {
      to' := to[n.owner := to[n.owner] + n.value];
    } else {
      ReceivedExactly(before, from, n.owner);
      to' := to[n.owner := n.value];
      order' := order + [n.owner];
    }
  }

  method ReceiptTransfers(inputs: seq<Note>, outputs: seq<Note>) returns (r: Option<seq<Transfer>>)
    ensures r == Transfers(inputs, outputs)
  {
    var from, fromAmount, parsedOK := SumInputs(inputs);
    var to: map<nat, nat>, order: seq<nat> := map[], [];
    for i := 0 to |outputs|
      invariant Grouped(outputs[..i], from, to, order)
      invariant fromAmount == TotalOf(inputs) - (if from.Some? then Received(outputs[..i], from.value) else 0)
    {
      assert outputs[..i + 1] == outputs[..i] + [outputs[i]];
      assert outputs[..i + 1][..i] == outputs[..i];
      fromAmount, to, order := AddOutput(outputs[i], from, fromAmount, to, order, outputs[..i]);
    }
    assert outputs[..|outputs|] == outputs;
    if !parsedOK {
      return None;
    }
    if |order| == 0 && from.Some? && fromAmount > 0 {
      return Some([Transfer(from, None, fromAmount)]);
    }
    var transfers: seq<Transfer> := [];
    SenderNotListed(outputs, from);
    for k := 0 to |order|
      invariant transfers == Rows(from, order, outputs)[..k]
    {
      var amount := to[order[k]];
      ReceivedExactly(outputs, from, order[k]);
      if amount > 0 {
        transfers := transfers + [Transfer(from, Some(order[k]), amount)];
      }
    }
    assert Rows(from, order, outputs)[..|order|] == Rows(from, order, outputs);
    r := Some(transfers);
  }

  // ---------------------------------------------------------------------------
  // Receipts of assembled operations
  // ---------------------------------------------------------------------------

  function NotesIn(outs: seq<OutNote>): (r: seq<Note>)
    ensures |r| == |outs| && forall i :: 0 <= i < |outs| ==> r[i] == outs[i].note
  {
    seq(|outs|, i requires 0 <= i < |outs| => outs[i].note)
  }

  /** What the entries ask for, per resolved owner. */
  function Requested(resolve: Resolver, entries: seq<TransferEntry>, owner: nat): nat
  {
    if entries == [] then 0
    else
      var e := entries[|entries| - 1];
      Requested(resolve, entries[..|entries| - 1], owner)
        + (if resolve(e.to).Some? && resolve(e.to).value.keys.mpk == owner then Amount(e) else 0)
  }

  lemma {:induction false} PaidAsRequested(resolve: Resolver, token: nat, entries: seq<TransferEntry>,
                                           randoms: nat -> nat, next: nat, owner: nat)
    requires TransferOutputs(resolve, token, entries, randoms, next).Some?
    ensures Received(NotesIn(TransferOutputs(resolve, token, entries, randoms, next).value), owner)
      == Requested(resolve, entries, owner)
  {
    if entries != [] {
      var n := |entries| - 1;
      var paid, init := TransferOutputs(resolve, token, entries, randoms, next).value,
        TransferOutputs(resolve, token, entries[..n], randoms, next).value;
      PaidAsRequested(resolve, token, entries[..n], randoms, next, owner);
      assert NotesIn(paid)[..n] == NotesIn(init);
    }
  }

  /** Change goes to the sender only. */
  lemma {:induction false} ChangeIsTheSenders(paid: seq<OutNote>, sender: Recipient, token: nat, change: nat,
                                              random: nat, next: nat)
    ensures var notes := NotesIn(WithChange(paid, sender, token, change, random, next));
      && Recipients(notes, Some(sender.keys.mpk)) == Recipients(NotesIn(paid), Some(sender.keys.mpk))
      && Received(notes, sender.keys.mpk) == Received(NotesIn(paid), sender.keys.mpk) + change
      && forall o: nat :: o != sender.keys.mpk ==> Received(notes, o) == Received(NotesIn(paid), o)
  {
    var notes := NotesIn(WithChange(paid, sender, token, change, random, next));
    if change > 0 {
      assert notes[..|paid|] == NotesIn(paid);
    } else {
      assert notes == NotesIn(paid);
    }
  }

  lemma {:induction false} TotalIsSelected(states: seq<NoteSelection.State>)
    requires Decodable(states)
    ensures TotalOf(NotesOf(states)) == NoteSelection.Sum(states)
  {
    if states != [] {
      TotalIsSelected(states[..|states| - 1]);
      assert NotesOf(states)[..|states| - 1] == NotesOf(states[..|states| - 1]);
    }
  }

  /** What the handlers select: notes of one owner, worth `total`. */
  ghost predicate SelectedFrom(states: seq<NoteSelection.State>, mpk: nat, total: nat)
  {
    && states != [] && Decodable(states) && total == NoteSelection.Sum(states)
    && forall i :: 0 <= i < |states| ==> states[i].data.value.owner == mpk
  }

  lemma {:induction false} PaidTotal(resolve: Resolver, token: nat, entries: seq<TransferEntry>, randoms: nat -> nat,
                                     next: nat)
    requires TransferOutputs(resolve, token, entries, randoms, next).Some?
    ensures TotalOf(NotesIn(TransferOutputs(resolve, token, entries, randoms, next).value)) == TotalAmount(entries)
  {
    if entries != [] {
      var n := |entries| - 1;
      var paid, init := TransferOutputs(resolve, token, entries, randoms, next).value,
        TransferOutputs(resolve, token, entries[..n], randoms, next).value;
      PaidTotal(resolve, token, entries[..n], randoms, next);
      assert NotesIn(paid)[..n] == NotesIn(init);
    }
  }

  lemma {:induction false} NoResidual(inputs: seq<Note>, outputs: seq<Note>)
    requires inputs != [] && TotalOf(inputs) == TotalOf(outputs) && Recipients(outputs, Some(inputs[0].owner)) == []
    ensures Residual(inputs, outputs) == 0
  {
    OutputsAccounted(outputs, Some(inputs[0].owner));
  }

  /** One row for each owner in `owners`, in that order, for exactly what was requested; the
    * owners are those, other than the sender, to whom anything was requested to be paid. */
  ghost predicate ReportsRequests(resolve: Resolver, entries: seq<TransferEntry>, mpk: nat, owners: seq<nat>,
                                  r: Option<seq<Transfer>>)
  {
    && r.Some? && |r.value| == |owners|
    && (forall k :: 0 <= k < |owners| ==>
        r.value[k] == Transfer(Some(mpk), Some(owners[k]), Requested(resolve, entries, owners[k])))
    && (forall o: nat :: o in owners <==> o != mpk && Requested(resolve, entries, o) > 0)
  }

  /** The receipt of an assembled transfer: one row for each owner other than the sender who
    * was asked to be paid, in order of first appearance, for exactly what was requested;
    * nothing for a transfer to oneself. */
  lemma {:induction false} TransferReceipt(build: PayloadBuilder, resolve: Resolver, leaves: seq<nat>,
                                           sender: Recipient, token: nat, entries: seq<TransferEntry>,
                                           states: seq<NoteSelection.State>, total: nat, randoms: nat -> nat)
    requires SelectedFrom(states, sender.keys.mpk, total) && total >= TotalAmount(entries)
    requires FinishTransfer(build, resolve, leaves, sender, token, entries, states, total, randoms).Assembled?
    ensures var paid := TransferOutputs(resolve, token, entries, randoms, |leaves|).value;
      var outs := FinishTransfer(build, resolve, leaves, sender, token, entries, states, total, randoms).outputs;
      ReportsRequests(resolve, entries, sender.keys.mpk, Recipients(NotesIn(paid), Some(sender.keys.mpk)),
                      Transfers(NotesOf(states), NotesIn(outs)))
  {
    var paid := TransferOutputs(resolve, token, entries, randoms, |leaves|).value;
    ReceiptOfPaid(resolve, sender, token, entries, paid, states, total, randoms, |leaves|);
  }

  lemma {:induction false} ReceiptOfPaid(resolve: Resolver, sender: Recipient, token: nat, entries: seq<TransferEntry>,
                                         paid: seq<OutNote>, states: seq<NoteSelection.State>, total: nat,
                                         randoms: nat -> nat, next: nat)
    requires SelectedFrom(states, sender.keys.mpk, total) && total >= TotalAmount(entries)
    requires TransferOutputs(resolve, token, entries, randoms, next) == Some(paid)
    ensures var outs := WithChange(paid, sender, token, total - TotalAmount(entries), randoms(|paid|), next);
      ReportsRequests(resolve, entries, sender.keys.mpk, Recipients(NotesIn(paid), Some(sender.keys.mpk)),
                      Transfers(NotesOf(states), NotesIn(outs)))
  {
    var mpk, change := sender.keys.mpk, total - TotalAmount(entries);
    var inputs, outputs := NotesOf(states), NotesIn(WithChange(paid, sender, token, change, randoms(|paid|), next));
    ChangeIsTheSenders(paid, sender, token, change, randoms(|paid|), next);
    TotalIsSelected(states);
    PaidTotal(resolve, token, entries, randoms, next);
    ChangeTotal(paid, sender, token, change, randoms(|paid|), next);
    RowsOnly(inputs, outputs, mpk);
    OwnersRequested(resolve, token, entries, paid, randoms, next, mpk);
    forall o: nat | o in Recipients(outputs, Some(mpk)) ensures Received(outputs, o) == Requested(resolve, entries, o) {
      PaidAsRequested(resolve, token, entries, randoms, next, o);
    }
  }

  /** When the outputs are worth the inputs there is no residual to report. */
  lemma {:induction false} RowsOnly(inputs: seq<Note>, outputs: seq<Note>, mpk: nat)
    requires inputs != [] && forall i :: 0 <= i < |inputs| ==> inputs[i].owner == mpk
    requires TotalOf(inputs) == TotalOf(outputs)
    ensures Transfers(inputs, outputs) == Some(Rows(Some(mpk), Recipients(outputs, Some(mpk)), outputs))
  {
    if Recipients(outputs, Some(mpk)) == [] {
      NoResidual(inputs, outputs);
    }
  }

  lemma {:induction false} OwnersRequested(resolve: Resolver, token: nat, entries: seq<TransferEntry>,
                                           paid: seq<OutNote>, randoms: nat -> nat, next: nat, mpk: nat)
    requires TransferOutputs(resolve, token, entries, randoms, next) == Some(paid)
    ensures forall o: nat ::
      o in Recipients(NotesIn(paid), Some(mpk))
      <==> o != mpk && Requested(resolve, entries, o) > 0
  {
    SenderNotListed(NotesIn(paid), Some(mpk));
    forall o: nat | o != mpk ensures o in Recipients(NotesIn(paid), Some(mpk)) <==> Requested(resolve, entries, o) > 0 {
      PaidAsRequested(resolve, token, entries, randoms, next, o);
      ReceivedExactly(NotesIn(paid), Some(mpk), o);
    }
  }

  lemma {:induction false} ChangeTotal(paid: seq<OutNote>, sender: Recipient, token: nat, change: nat, random: nat,
                                       next: nat)
    ensures TotalOf(NotesIn(WithChange(paid, sender, token, change, random, next))) == TotalOf(NotesIn(paid)) + change
  {
    var notes := NotesIn(WithChange(paid, sender, token, change, random, next));
    if change > 0 {
      assert notes[..|paid|] == NotesIn(paid);
    }
  }

  lemma {:induction false} OneNote(n: Note, sender: Option<nat>)
    ensures Recipients([n], sender) == if Counts(n, sender) then [n.owner] else []
    ensures forall o: nat :: Received([n], o) == if n.owner == o then n.value else 0
  {
    assert [n][..0] == [];
  }

  /** The receipt of an assembled unshield: one row without a recipient, for the amount
    * withdrawn. */
  lemma {:induction false} UnshieldReceipt(build: PayloadBuilder, leaves: seq<nat>, sender: Recipient, token: nat,
                                           amount: nat, states: seq<NoteSelection.State>, total: nat, random: nat)
    requires SelectedFrom(states, sender.keys.mpk, total) && total >= amount > 0
    ensures var r := FinishUnshield(build, leaves, sender, token, amount, states, total, random);
      Transfers(NotesOf(states), NotesIn(r.outputs)) == Some([Transfer(Some(sender.keys.mpk), None, amount)])
  {
    var change := NewOutNote(sender, token, total - amount, random, Uint64(|leaves|));
    TotalIsSelected(states);
    OneNote(change.note, Some(sender.keys.mpk));
    assert NotesIn([change]) == [change.note];
  }

  /** The receipt of a shield: one row without a sender. */
  lemma {:induction false} ShieldReceipt(o: OutNote)
    requires o.note.value > 0
    ensures Transfers([], NotesIn([o])) == Some([Transfer(None, Some(o.note.owner), o.note.value)])
  {
    OneNote(o.note, None);
    assert NotesIn([o]) == [o.note];
    assert Rows(None, [o.note.owner], [o.note]) == [Transfer(None, Some(o.note.owner), o.note.value)];
  }
}
