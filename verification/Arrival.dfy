/** Who receives what an operation creates: whom Assemble distributes each note to, and that the
  * notes of mined operations become available to those parties. */
module Arrival {
  import opened Notes
  import opened Bytes
  import opened Wrappers
  import opened JoinSplit
  import opened Proving
  import opened Assembly
  import opened Spending
  import opened Ledger
  import opened Settlement
  import opened Operations
  import opened Landing
  import opened LedgerSafety
  import opened Delivery
  import opened Liveness
  import NoteSelection

  // ---------------------------------------------------------------------------
  // Distribution
  // ---------------------------------------------------------------------------

  /** The output is `l`'s: distributed to that party, and owned by its wallet. */
  ghost predicate KeptBy(env: Env, net: Network, o: OutNote, l: string)
  {
    o.lookup == l != "" && l in net.wallets && o.note.owner == MasterPublicKey(env.H, net.wallets[l])
  }

  /** Whom an output goes to: a "0zk" address is no party of the node, any other name is one. */
  ghost predicate GoesTo(env: Env, net: Network, o: OutNote, to: string)
  {
    if "0zk1" <= to then o.lookup == "" else KeptBy(env, net, o, to)
  }

  lemma {:induction false} RecipientGoesTo(env: Env, net: Network, to: string, token: nat, amount: nat, random: nat,
                                           at: nat)
    requires WellConnected(env, net) && ResolveRecipient(net.verifiers, to).Some?
    ensures GoesTo(env, net, NewOutNote(ResolveRecipient(net.verifiers, to).value, token, amount, random, at), to)
  {
    assert "0zk" + "1" == "0zk1";
    if !("0zk1" <= to) {
      PartyIsGood(env, net, to);
    }
  }

  /** What the notes selected for a transfer are worth beyond the amounts asked for. */
  ghost function Surplus(env: Env, net: Network, w: World, op: Op): int
    requires op.action.Transfer? && op.action.from in net.wallets
  {
    var at := SelectedAt(w.notes, MasterPublicKey(env.H, net.wallets[op.action.from]), TotalAmount(op.action.entries));
    SelectedInStore(w.notes, MasterPublicKey(env.H, net.wallets[op.action.from]), TotalAmount(op.action.entries));
    Sum(ValuesAt(w.notes, at)) - TotalAmount(op.action.entries)
  }

  lemma {:induction false} SelectedInStore(notes: seq<StoredNote>, mpk: nat, target: nat)
    ensures forall k :: 0 <= k < |SelectedAt(notes, mpk, target)| ==> SelectedAt(notes, mpk, target)[k] < |notes|
  {
  }

  /** The outputs of a transfer: each entry's recipient gets its amount, and any surplus, but no
    * empty note, goes back to the sender. */
  ghost predicate Distributes(env: Env, net: Network, w: World, op: Op, outs: seq<OutNote>)
    requires op.action.Transfer? && op.action.from in net.wallets
  {
    var entries, surplus := op.action.entries, Surplus(env, net, w, op);
    && |outs| == |entries| + (if surplus > 0 then 1 else 0)
    && (forall j :: 0 <= j < |outs| ==> outs[j].note.token == op.token)
    && (forall j :: 0 <= j < |entries| ==> Paid(env, net, outs[j], entries[j]))
    && (surplus > 0 ==> KeptBy(env, net, outs[|entries|], op.action.from) && outs[|entries|].note.value == surplus)
  }

  ghost predicate Paid(env: Env, net: Network, o: OutNote, e: TransferEntry)
  {
    GoesTo(env, net, o, e.to) && o.note.value == Amount(e)
  }

  /** Every assembled transfer distributes its notes to the parties it names. */
  lemma {:induction false} TransferDistributes(env: Env, net: Network, w: World, op: Op, plan: Plan)
    requires WellConnected(env, net) && Inv(env, net, w) && Fits(op.token, 20) && op.action.Transfer?
    requires PlanTransfer(env, net, w, op) == Some(plan)
    ensures op.action.from in net.wallets && Distributes(env, net, w, op, plan.outs)
  {
    var from := op.action.from;
    PartyIsGood(env, net, from);
    var sender := Recipient(ResolveParty(net.verifiers, from).value, from);
    DistributesFrom(env, net, w, op, TransferBuilder(env, op.token, op.txId), sender,
                    TransferFrom(TransferBuilder(env, op.token, op.txId), ResolverOf(net.verifiers),
                                 AvailabilityOf(w.notes), w.leafRows, sender, op.token, op.action.entries, op.randoms));
  }

  lemma {:induction false} DistributesFrom(env: Env, net: Network, w: World, op: Op, build: PayloadBuilder,
                                           sender: Recipient, outcome: Outcome)
    requires WellConnected(env, net) && Inv(env, net, w) && op.action.Transfer? && outcome.Assembled?
    requires sender.lookup == op.action.from != "" && op.action.from in net.wallets && GoodRecipient(env, net, sender)
    requires outcome == TransferFrom(build, ResolverOf(net.verifiers), AvailabilityOf(w.notes), w.leafRows, sender,
                                     op.token, op.action.entries, op.randoms)
    ensures Distributes(env, net, w, op, outcome.outputs)
  {
    var resolve := ResolverOf(net.verifiers);
    var states, total, paid := TransferFinishes(env, w, op, build, resolve, sender, outcome);
    DonePaysEntries(w, op, build, resolve, sender, states, total, paid, outcome);
    DoneOutputs(w, op, build, resolve, sender, states, total, paid, outcome);
    SurplusIs(env, net, w, op, sender.keys.mpk, states, total);
    EntriesPaid(env, net, w, op, outcome.outputs);
  }

  lemma {:induction false} EntriesPaid(env: Env, net: Network, w: World, op: Op, outs: seq<OutNote>)
    requires WellConnected(env, net) && op.action.Transfer? && PaysEntries(w, op, ResolverOf(net.verifiers), outs)
    ensures forall j :: 0 <= j < |op.action.entries| ==> Paid(env, net, outs[j], op.action.entries[j])
  {
    forall j: nat | j < |op.action.entries| ensures Paid(env, net, outs[j], op.action.entries[j]) {
      assert PaysEntry(w, op, ResolverOf(net.verifiers), op.action.entries[j], outs[j], j);
      RecipientGoesTo(env, net, op.action.entries[j].to, op.token, Amount(op.action.entries[j]), op.randoms(j),
                      Uint64(|w.chain.leaves| + j));
    }
  }

  lemma {:induction false} SurplusIs(env: Env, net: Network, w: World, op: Op, mpk: nat,
                                     states: seq<NoteSelection.State>, total: nat)
    requires op.action.Transfer? && op.action.from in net.wallets
    requires mpk == MasterPublicKey(env.H, net.wallets[op.action.from])
    requires NoteSelection.Select(Available(w.notes, mpk), TotalAmount(op.action.entries))
          == NoteSelection.Selected(states, total)
    ensures Surplus(env, net, w, op) == total - TotalAmount(op.action.entries)
  {
    SelectedWorth(w.notes, mpk, TotalAmount(op.action.entries), states, total);
  }

  /** What is selected is worth the total. */
  lemma {:induction false} SelectedWorth(notes: seq<StoredNote>, mpk: nat, target: nat,
                                         states: seq<NoteSelection.State>, total: nat)
    requires NoteSelection.Select(Available(notes, mpk), target) == NoteSelection.Selected(states, total)
    ensures forall k :: 0 <= k < |SelectedAt(notes, mpk, target)| ==> SelectedAt(notes, mpk, target)[k] < |notes|
    ensures Sum(ValuesAt(notes, SelectedAt(notes, mpk, target))) == total
  {
    NoteSelection.SelectedIsCover(Available(notes, mpk), target);
    TakenAreSpendable(notes, mpk, states);
    TakenAreSelected(notes, mpk, target, states, total);
    SelectedTotal(Available(notes, mpk), target, states, total);
    var at := SelectedAt(notes, mpk, target);
    assert NoteValues(NotesAt(notes, at)) == ValuesAt(notes, at);
  }

  // ---------------------------------------------------------------------------
  // Arrival
  // ---------------------------------------------------------------------------

  /** Note `i` is available to the owner: confirmed, unspent, with a recorded nullifier. */
  ghost predicate Receives(notes: seq<StoredNote>, i: nat, mpk: nat, token: nat, amount: nat)
  {
    i in AvailableAt(notes, mpk) && notes[i].note.token == token && notes[i].note.value == amount
  }

  lemma {:induction false} OutputArrives(env: Env, net: Network, w: World, op: Op, outs: seq<OutNote>, l: Landed,
                                         at: seq<nat>, j: nat, party: string)
    requires j < |outs| && KeptBy(env, net, outs[j], party)
    requires MarksExactly(w, After(env, net, w, op, outs, Some(l)), at, |outs|)
    ensures Receives(After(env, net, w, op, outs, Some(l)).notes, |w.notes| + j,
                     MasterPublicKey(env.H, net.wallets[party]), outs[j].note.token, outs[j].note.value)
  {
    var after, k := After(env, net, w, op, outs, Some(l)).notes, |w.notes| + j;
    assert after[k] == ApplyToNote(MakeNoteState(env, net, outs[j], op.noteStamp), l.updates);
    assert IsAvailable(after[k], MasterPublicKey(env.H, net.wallets[party]));
  }

  /** After a mined transfer, every party named as recipient has its amount available, and the
    * sender its surplus. */
  lemma {:induction false} TransferArrives(env: Env, net: Network, w: World, op: Op, at: seq<nat>)
    requires Injective(env.H) && WellConnected(env, net) && Inv(env, net, w) && OpOk(w, op) && op.action.Transfer?
    requires TakesAt(env, net, w, op, at) && Granted(env, Step(env, net, w, op))
    ensures forall j :: 0 <= j < |op.action.entries| && !("0zk1" <= op.action.entries[j].to) ==>
      && op.action.entries[j].to in net.wallets
      && Receives(Step(env, net, w, op).notes, |w.notes| + j,
                  MasterPublicKey(env.H, net.wallets[op.action.entries[j].to]), op.token, Amount(op.action.entries[j]))
    ensures Surplus(env, net, w, op) > 0 ==>
      Receives(Step(env, net, w, op).notes, |w.notes| + |op.action.entries|,
               MasterPublicKey(env.H, net.wallets[op.action.from]), op.token, Surplus(env, net, w, op))
  {
    var plan := PlanOf(env, net, w, op).value;
    var l := SpendStepLands(env, net, w, op, at);
    TransferDistributes(env, net, w, op, plan);
    PaymentsArrive(env, net, w, op, plan.outs, l, at);
  }

  /** A step that spends is what its call does. */
  lemma {:induction false} SpendStepLands(env: Env, net: Network, w: World, op: Op, at: seq<nat>) returns (l: Landed)
    requires Injective(env.H) && WellConnected(env, net) && Inv(env, net, w) && OpOk(w, op)
    requires TakesAt(env, net, w, op, at) && Granted(env, Step(env, net, w, op))
    ensures var outs := PlanOf(env, net, w, op).value.outs;
      && Step(env, net, w, op) == After(env, net, w, op, outs, Some(l))
      && MarksExactly(w, After(env, net, w, op, outs, Some(l)), at, |outs|)
  {
    var plan := PlanOf(env, net, w, op).value;
    var id, taken := SpendPlanMade(env, net, w, op, plan);
    l := SpendMarksExactly(env, net, w, op, plan, WithdrawalOf(op), id, taken);
  }

  lemma {:induction false} PaymentsArrive(env: Env, net: Network, w: World, op: Op, outs: seq<OutNote>, l: Landed,
                                          at: seq<nat>)
    requires op.action.Transfer? && op.action.from in net.wallets && Distributes(env, net, w, op, outs)
    requires MarksExactly(w, After(env, net, w, op, outs, Some(l)), at, |outs|)
    ensures var after := After(env, net, w, op, outs, Some(l)).notes;
      forall j :: 0 <= j < |op.action.entries| && !("0zk1" <= op.action.entries[j].to) ==>
        && op.action.entries[j].to in net.wallets
        && Receives(after, |w.notes| + j, MasterPublicKey(env.H, net.wallets[op.action.entries[j].to]), op.token,
                    Amount(op.action.entries[j]))
    ensures Surplus(env, net, w, op) > 0 ==>
      Receives(After(env, net, w, op, outs, Some(l)).notes, |w.notes| + |op.action.entries|,
               MasterPublicKey(env.H, net.wallets[op.action.from]), op.token, Surplus(env, net, w, op))
  {
    var after := After(env, net, w, op, outs, Some(l)).notes;
    forall j: nat | j < |op.action.entries| && !("0zk1" <= op.action.entries[j].to)
      ensures op.action.entries[j].to in net.wallets
      ensures Receives(after, |w.notes| + j, MasterPublicKey(env.H, net.wallets[op.action.entries[j].to]), op.token,
                       Amount(op.action.entries[j]))
    {
      assert Paid(env, net, outs[j], op.action.entries[j]);
      OutputArrives(env, net, w, op, outs, l, at, j, op.action.entries[j].to);
    }
    if Surplus(env, net, w, op) > 0 {
      OutputArrives(env, net, w, op, outs, l, at, |op.action.entries|, op.action.from);
    }
  }

  /** After a mined unshield, what it does not withdraw of the selected notes is the sender's. */
  lemma {:induction false} UnshieldArrives(env: Env, net: Network, w: World, op: Op, at: seq<nat>)
    requires Injective(env.H) && WellConnected(env, net) && Inv(env, net, w) && OpOk(w, op) && op.action.Unshield?
    requires TakesAt(env, net, w, op, at) && Granted(env, Step(env, net, w, op))
    ensures forall k :: 0 <= k < |at| ==> at[k] < |w.notes|
    ensures Sum(ValuesAt(w.notes, at)) >= op.action.amount
    ensures Receives(Step(env, net, w, op).notes, |w.notes|, MasterPublicKey(env.H, net.wallets[op.action.from]),
                     op.token, Sum(ValuesAt(w.notes, at)) - op.action.amount)
  {
    var plan := PlanOf(env, net, w, op).value;
    var l := SpendStepLands(env, net, w, op, at);
    ChangeIsKept(env, net, w, op, plan, at);
    OutputArrives(env, net, w, op, plan.outs, l, at, 0, op.action.from);
  }

  lemma {:induction false} ChangeIsKept(env: Env, net: Network, w: World, op: Op, plan: Plan, at: seq<nat>)
    requires WellConnected(env, net) && Inv(env, net, w) && Fits(op.token, 20) && op.action.Unshield?
    requires PlanUnshield(env, net, w, op) == Some(plan) && op.action.from in net.wallets
    requires at == SelectedAt(w.notes, MasterPublicKey(env.H, net.wallets[op.action.from]), op.action.amount)
    ensures forall k :: 0 <= k < |at| ==> at[k] < |w.notes|
    ensures |plan.outs| == 1 && KeptBy(env, net, plan.outs[0], op.action.from) && plan.outs[0].note.token == op.token
    ensures Sum(ValuesAt(w.notes, at)) == plan.outs[0].note.value + op.action.amount
  {
    var from := op.action.from;
    PartyIsGood(env, net, from);
    var sender := Recipient(ResolveParty(net.verifiers, from).value, from);
    var build := UnshieldBuilder(env, op.token, FromBE(op.action.recipient), op.action.amount, op.txId);
    var outcome := UnshieldFrom(build, AvailabilityOf(w.notes), w.leafRows, sender, op.token, op.action.amount,
                                op.randoms(0));
    var states, total := UnshieldFinishes(env, w, op, build, sender, outcome);
    SelectedWorth(w.notes, sender.keys.mpk, op.action.amount, states, total);
  }

  /** After a mined shield, the party it names has the amount available. */
  lemma {:induction false} ShieldArrives(env: Env, net: Network, w: World, op: Op)
    requires Injective(env.H) && WellConnected(env, net) && Inv(env, net, w) && OpOk(w, op) && op.action.Shield?
    requires op.mined && PlanOf(env, net, w, op).Some? && op.action.amount < VALUE_BOUND && |w.chain.leaves| < 65536
    requires Granted(env, Step(env, net, w, op))
    ensures op.action.to in net.wallets
    ensures Receives(Step(env, net, w, op).notes, |w.notes|, MasterPublicKey(env.H, net.wallets[op.action.to]),
                     op.token, op.action.amount)
  {
    var o, l := ShieldStepLands(env, net, w, op);
    ShieldOutKept(env, net, w, op, o);
    LandingMarksExactly(env, net, w, op, [o], [], o.note.value, 0, op.txId, l);
    OutputArrives(env, net, w, op, [o], l, [], 0, op.action.to);
  }

  /** A shield below 2^120 lands, and the step is what it does. */
  lemma {:induction false} ShieldStepLands(env: Env, net: Network, w: World, op: Op) returns (o: OutNote, l: Landed)
    requires WellConnected(env, net) && Inv(env, net, w) && OpOk(w, op) && op.action.Shield?
    requires op.mined && PlanOf(env, net, w, op).Some? && op.action.amount < VALUE_BOUND && |w.chain.leaves| < 65536
    ensures Step(env, net, w, op) == After(env, net, w, op, [o], Some(l))
    ensures o.lookup == op.action.to != "" && o.note.value == op.action.amount && PlannedOuts(env, net, w, op, [o])
    ensures LandsAs(env, w, [o], [], o.note.token, o.note.value, 0, op.txId, op.txHash, l)
  {
    o := ShieldPlanned(env, net, w, op, PlanOf(env, net, w, op).value);
    var landed := ShieldLands(env, w, op, o);
    l := landed.value;
  }

  lemma {:induction false} ShieldOutKept(env: Env, net: Network, w: World, op: Op, o: OutNote)
    requires PlannedOuts(env, net, w, op, [o]) && o.lookup != ""
    ensures o.note.token == op.token && KeptBy(env, net, o, o.lookup)
  {
    assert [o][0] == o && PlannedOut(env, net, w, op, [o][0], 0);
  }
}
