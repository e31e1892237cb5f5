/** Without sequencing: what becomes of operations assembled on the same tree. */
module Overlap {
  import opened Notes
  import opened Wrappers
  import opened JoinSplit
  import opened Proving
  import opened Assembly
  import opened Contract
  import opened Ledger
  import opened Settlement
  import opened Operations
  import opened Landing
  import opened LedgerSafety
  import Events

  /** The note stands at its predicted index. */
  ghost predicate StandsAt(H: Hash, leaves: seq<nat>, n: Note)
  {
    n.leafIndex < |leaves| && leaves[n.leafIndex] == NoteHash(H, n)
  }

  /** Assembled on the tree of `w` and appended after `before`: the outputs, or only the first,
    * stand where predicted exactly when no leaf was added in between. */
  lemma {:induction false} OverlapExactly(env: Env, net: Network, w: World, op: Op, outs: seq<OutNote>,
                                          before: seq<nat>, after: seq<nat>)
    requires PlannedOuts(env, net, w, op, outs) && |after| <= 65536
    requires w.chain.leaves <= before && after == before + IdsOf(env.H, outs)
    requires NoteHash(env.H, outs[0].note) !in before[|w.chain.leaves|..]
    ensures StandsAt(env.H, after, outs[0].note) <==> |before| == |w.chain.leaves|
    ensures (forall j :: 0 <= j < |outs| ==> StandsAt(env.H, after, outs[j].note)) <==> |before| == |w.chain.leaves|
  {
    var size := |w.chain.leaves|;
    assert PlannedOut(env, net, w, op, outs[0], 0);
    if |before| == size {
      forall j: nat | j < |outs| ensures StandsAt(env.H, after, outs[j].note) {
        assert PlannedOut(env, net, w, op, outs[j], j);
      }
    } else {
      assert before[size..][0] == before[size] == after[size];
    }
  }

  /** What a call appends, to whatever chain it lands on, are its plan's outputs. */
  lemma {:induction false} LandedOuts(env: Env, net: Network, w: World, op: Op, plan: Plan, c: Chain, l: Landed)
    requires Injective(env.H) && WellConnected(env, net) && Inv(env, net, w) && OpOk(w, op)
    requires PlanOf(env, net, w, op) == Some(plan) && plan.call.Some? && Land(env, c, plan.call.value, op) == Some(l)
    ensures PlannedOuts(env, net, w, op, plan.outs) && l.chain.leaves == c.leaves + IdsOf(env.H, plan.outs)
  {
    if op.action.Shield? {
      var o := ShieldPlanned(env, net, w, op, plan);
      ShieldGrows(env, c, op, o, l);
    } else {
      var id, at := SpendPlanMade(env, net, w, op, plan);
      SpendGrows(env, net, w, op, plan, id, at, c, l);
    }
  }

  lemma {:induction false} ShieldGrows(env: Env, c: Chain, op: Op, o: OutNote, l: Landed)
    requires Land(env, c, ShieldCall(PrepareShield(env.H, o.note, op.txId)), op) == Some(l)
    ensures l.chain.leaves == c.leaves + IdsOf(env.H, [o])
  {
    assert IdsOf(env.H, [o]) == [NoteHash(env.H, o.note)];
  }

  lemma {:induction false} SpendGrows(env: Env, net: Network, w: World, op: Op, plan: Plan, id: Identity, at: seq<nat>,
                                      c: Chain, l: Landed)
    requires Injective(env.H) && Inv(env, net, w) && PlanMade(env, net, w, op, plan, WithdrawalOf(op), id, at)
    requires plan.call.Some? && Land(env, c, plan.call.value, op) == Some(l)
    ensures l.chain.leaves == c.leaves + IdsOf(env.H, plan.outs)
  {
    CallCarries(env, net, w, op, plan.outs, WithdrawalOf(op), id, at, plan.call.value.tx);
    TransactAppends(env, c, plan.call.value.tx, op, l);
  }

  lemma {:induction false} TransactAppends(env: Env, c: Chain, tx: Transaction, op: Op, l: Landed)
    requires Land(env, c, TransactCall(tx), op) == Some(l)
    ensures |tx.boundParams.ciphertexts| <= |tx.commitments|
    ensures l.chain.leaves == c.leaves + tx.commitments[..|tx.boundParams.ciphertexts|]
  {
  }

  /** Two operations of any kind assembled on the same tree predict the same position.  Mined
    * one after the other, the second one's note is not where its state says, so the
    * sequential assumption is needed. */
  lemma {:induction false} OverlapMisplaces(env: Env, net: Network, w: World, op1: Op, op2: Op, p1: Plan, p2: Plan,
                                            l1: Landed, l2: Landed)
    requires Injective(env.H) && WellConnected(env, net) && Inv(env, net, w) && OpOk(w, op1) && OpOk(w, op2)
    requires PlanOf(env, net, w, op1) == Some(p1) && p1.call.Some? && Land(env, w.chain, p1.call.value, op1) == Some(l1)
    requires PlanOf(env, net, w, op2) == Some(p2) && p2.call.Some?
    requires Land(env, l1.chain, p2.call.value, op2) == Some(l2)
    requires |l2.chain.leaves| <= 65536 && forall k: nat :: k < NotesCreated(op1.action) ==>
      op1.randoms(k) != op2.randoms(0)
    ensures p1.outs != [] && p2.outs != [] && p1.outs[0].note.leafIndex == p2.outs[0].note.leafIndex
    ensures forall j :: 0 <= j < |p1.outs| ==> StandsAt(env.H, l2.chain.leaves, p1.outs[j].note)
    ensures !StandsAt(env.H, l2.chain.leaves, p2.outs[0].note)
  {
    LandedOuts(env, net, w, op1, p1, w.chain, l1);
    LandedOuts(env, net, w, op2, p2, l1.chain, l2);
    SecondMisplaced(env, net, w, op1, op2, p1.outs, p2.outs, l1.chain.leaves, l2.chain.leaves);
  }

  lemma {:induction false} SecondMisplaced(env: Env, net: Network, w: World, op1: Op, op2: Op, outs1: seq<OutNote>,
                                           outs2: seq<OutNote>, first: seq<nat>, second: seq<nat>)
    requires Injective(env.H) && PlannedOuts(env, net, w, op1, outs1) && PlannedOuts(env, net, w, op2, outs2)
    requires forall k: nat :: k < NotesCreated(op1.action) ==> op1.randoms(k) != op2.randoms(0)
    requires first == w.chain.leaves + IdsOf(env.H, outs1) && second == first + IdsOf(env.H, outs2) && |second| <= 65536
    ensures outs1[0].note.leafIndex == outs2[0].note.leafIndex && !StandsAt(env.H, second, outs2[0].note)
    ensures forall j :: 0 <= j < |outs1| ==> StandsAt(env.H, second, outs1[j].note)
  {
    assert PlannedOut(env, net, w, op1, outs1[0], 0) && PlannedOut(env, net, w, op2, outs2[0], 0);
    FirstNotAmong(env, net, w, op1, op2, outs1, outs2[0]);
    assert first[|w.chain.leaves|..] == IdsOf(env.H, outs1);
    OverlapExactly(env, net, w, op2, outs2, first, second);
    assert w.chain.leaves[|w.chain.leaves|..] == [];
    OverlapExactly(env, net, w, op1, outs1, w.chain.leaves, first);
    forall j | 0 <= j < |outs1| ensures StandsAt(env.H, second, outs1[j].note) {
      assert StandsAt(env.H, first, outs1[j].note);
    }
  }

  lemma {:induction false} FirstNotAmong(env: Env, net: Network, w: World, op1: Op, op2: Op, outs1: seq<OutNote>,
                                         o: OutNote)
    requires Injective(env.H) && PlannedOuts(env, net, w, op1, outs1) && PlannedOut(env, net, w, op2, o, 0)
    requires forall k: nat :: k < NotesCreated(op1.action) ==> op1.randoms(k) != op2.randoms(0)
    ensures NoteHash(env.H, o.note) !in IdsOf(env.H, outs1)
  {
    forall j: nat | j < |outs1| ensures NoteHash(env.H, outs1[j].note) != NoteHash(env.H, o.note) {
      assert PlannedOut(env, net, w, op1, outs1[j], j);
      if NoteHash(env.H, outs1[j].note) == NoteHash(env.H, o.note) {
        CommitmentOpensOneWay(env.H, outs1[j].note, o.note);
      }
    }
  }

  /** And this does happen: of two shields assembled on the same tree, both below 2^120, both
    * land, and the second one's note is confirmed without being where its state says. */
  lemma {:induction false} OverlappingShieldsLand(env: Env, net: Network, w: World, op1: Op, op2: Op, p1: Plan,
                                                  p2: Plan)
    returns (l1: Landed, l2: Landed)
    requires Injective(env.H) && WellConnected(env, net) && Inv(env, net, w) && OpOk(w, op1) && OpOk(w, op2)
    requires op1.action.Shield? && op2.action.Shield? && op1.randoms(0) != op2.randoms(0)
    requires op1.action.amount < VALUE_BOUND && op2.action.amount < VALUE_BOUND && |w.chain.leaves| + 2 <= 65536
    requires PlanShield(env, net, w, op1) == Some(p1) && PlanShield(env, net, w, op2) == Some(p2)
    ensures p1.call.Some? && Land(env, w.chain, p1.call.value, op1) == Some(l1)
    ensures p2.call.Some? && Land(env, l1.chain, p2.call.value, op2) == Some(l2)
    ensures |p1.outs| == |p2.outs| == 1
    ensures StandsAt(env.H, l2.chain.leaves, p1.outs[0].note)
    ensures var n := ApplyToNote(MakeNoteState(env, net, p2.outs[0], op2.noteStamp), l2.updates);
      n.confirmed && !Placed(l2.chain, n)
  {
    var o1 := ShieldPlanned(env, net, w, op1, p1);
    var o2 := ShieldPlanned(env, net, w, op2, p2);
    l1 := ShieldAppends(env, w.chain, op1, o1);
    l2 := ShieldAppends(env, l1.chain, op2, o2);
    ShieldsMisplaced(env, net, w, op1, op2, o1, o2, l1, l2);
  }

  lemma {:induction false} ShieldsMisplaced(env: Env, net: Network, w: World, op1: Op, op2: Op, o1: OutNote,
                                            o2: OutNote, l1: Landed, l2: Landed)
    requires Injective(env.H) && op1.action.Shield? && op1.randoms(0) != op2.randoms(0) && |w.chain.leaves| + 2 <= 65536
    requires PlannedOuts(env, net, w, op1, [o1]) && PlannedOuts(env, net, w, op2, [o2])
    requires l1.chain.leaves == w.chain.leaves + IdsOf(env.H, [o1])
    requires l2.chain.leaves == l1.chain.leaves + IdsOf(env.H, [o2])
    requires Named(l2.updates.confirmed, NoteHash(env.H, o2.note))
    ensures StandsAt(env.H, l2.chain.leaves, o1.note)
    ensures var n := ApplyToNote(MakeNoteState(env, net, o2, op2.noteStamp), l2.updates);
      n.confirmed && !Placed(l2.chain, n)
  {
    assert [o1][0] == o1 && [o2][0] == o2;
    SecondMisplaced(env, net, w, op1, op2, [o1], [o2], l1.chain.leaves, l2.chain.leaves);
  }

  lemma {:induction false} ShieldAppends(env: Env, c: Chain, op: Op, o: OutNote) returns (l: Landed)
    requires 0 < o.note.value < VALUE_BOUND && |c.leaves| < 65536
    ensures Land(env, c, ShieldCall(PrepareShield(env.H, o.note, op.txId)), op) == Some(l)
    ensures l.chain.leaves == c.leaves + IdsOf(env.H, [o]) && Named(l.updates.confirmed, NoteHash(env.H, o.note))
    ensures ConfirmsOnly(l.updates, NoteHash(env.H, o.note))
  {
    var request := PrepareShield(env.H, o.note, op.txId);
    l := Land(env, c, ShieldCall(request), op).value;
    assert IdsOf(env.H, [o]) == [NoteHash(env.H, o.note)];
    ShieldReplayed(env, c, request, op.txHash);
    Events.LeafUpdatesAt(env.H, op.txId, |c.leaves|, [NoteHash(env.H, o.note)]);
    assert l.updates.confirmed[0].id == NoteHash(env.H, o.note);
  }

  // ---------------------------------------------------------------------------
  // What it costs
  // ---------------------------------------------------------------------------

  /** The states of two shields to the same party, both confirmed. */
  function BothConfirmed(env: Env, net: Network, o1: OutNote, o2: OutNote, t1: int, t2: int): seq<StoredNote>
  {
    [MakeNoteState(env, net, o1, t1).(confirmed := true), MakeNoteState(env, net, o2, t2).(confirmed := true)]
  }

  /** Two shields to the same party, assembled on the same tree, record the same nullifier.  When
    * the contract reports it once, both notes are marked spent, and what a withdrawal of the
    * first leaves in the contract exceeds the unspent notes by the value of the second. */
  lemma {:induction false} OverlapLosesValue(env: Env, net: Network, w: World, op1: Op, op2: Op, p1: Plan, p2: Plan,
                                             spend: Events.Updates) returns (l1: Landed, l2: Landed)
    requires Injective(env.H) && WellConnected(env, net) && Inv(env, net, w) && OpOk(w, op1) && OpOk(w, op2)
    requires op1.action.Shield? && op2.action.Shield? && op1.randoms(0) != op2.randoms(0)
    requires op1.action.amount < VALUE_BOUND && op2.action.amount < VALUE_BOUND && |w.chain.leaves| + 2 <= 65536
    requires PlanShield(env, net, w, op1) == Some(p1) && PlanShield(env, net, w, op2) == Some(p2)
    requires op1.action.to == op2.action.to && op1.token == op2.token
    requires spend.confirmed == [] && |spend.spent| == 1 && |p1.outs| == 1
      && Some(spend.spent[0].id) == MakeNoteState(env, net, p1.outs[0], op1.noteStamp).nullifier
    ensures p1.call.Some? && Land(env, w.chain, p1.call.value, op1) == Some(l1)
    ensures p2.call.Some? && Land(env, l1.chain, p2.call.value, op2) == Some(l2) && |p2.outs| == 1
    ensures var both := BothConfirmed(env, net, p1.outs[0], p2.outs[0], op1.noteStamp, op2.noteStamp);
      var written := Written(env, net, Written(env, net, w, p1.outs, op1.noteStamp), p2.outs, op2.noteStamp).notes;
      && both[0].nullifier == both[1].nullifier == Some(spend.spent[0].id)
      && ApplyToNotes(ApplyToNotes(written, l1.updates), l2.updates) == w.notes + both
      && Unspent(w.notes + both, op1.token) == Held(l2.chain.flows, op1.token)
      && Unspent(ApplyToNotes(w.notes + both, spend), op1.token) + op2.action.amount
         == Held(l2.chain.flows + [Withdrawn(op1.token, op1.action.amount)], op1.token)
  {
    var o1 := ShieldPlanned(env, net, w, op1, p1);
    var o2 := ShieldPlanned(env, net, w, op2, p2);
    l1 := ShieldAppends(env, w.chain, op1, o1);
    l2 := ShieldAppends(env, l1.chain, op2, o2);
    ShieldFlows(env, w.chain, op1, o1, l1);
    ShieldFlows(env, l1.chain, op2, o2, l2);
    ValueLost(env, net, w, op1, op2, o1, o2, l1, l2, spend);
  }

  lemma {:induction false} ValueLost(env: Env, net: Network, w: World, op1: Op, op2: Op, o1: OutNote, o2: OutNote,
                                     l1: Landed, l2: Landed, spend: Events.Updates)
    requires Injective(env.H) && Inv(env, net, w) && OpOk(w, op1) && OpOk(w, op2) && |w.chain.leaves| < 65536
    requires op1.randoms(0) != op2.randoms(0) && op1.token == op2.token && o1.lookup == o2.lookup != ""
    requires PlannedOuts(env, net, w, op1, [o1]) && PlannedOuts(env, net, w, op2, [o2])
    requires ConfirmsOnly(l1.updates, NoteHash(env.H, o1.note)) && ConfirmsOnly(l2.updates, NoteHash(env.H, o2.note))
    requires Held(l2.chain.flows, op1.token) == Held(w.chain.flows, op1.token) + o1.note.value + o2.note.value
    requires spend.confirmed == [] && |spend.spent| == 1
    requires Some(spend.spent[0].id) == MakeNoteState(env, net, o1, op1.noteStamp).nullifier
    ensures var both := BothConfirmed(env, net, o1, o2, op1.noteStamp, op2.noteStamp);
      var written := Written(env, net, Written(env, net, w, [o1], op1.noteStamp), [o2], op2.noteStamp).notes;
      && both[0].nullifier == both[1].nullifier == Some(spend.spent[0].id)
      && ApplyToNotes(ApplyToNotes(written, l1.updates), l2.updates) == w.notes + both
      && Unspent(w.notes + both, op1.token) == Held(l2.chain.flows, op1.token)
      && Unspent(ApplyToNotes(w.notes + both, spend), op1.token) + o2.note.value
         == Held(l2.chain.flows + [Withdrawn(op1.token, o1.note.value)], op1.token)
  {
    ShieldNote(env, net, w, op1, o1);
    ShieldNote(env, net, w, op2, o2);
    BothReplayed(env, net, w, op1, op2, o1, o2, l1.updates, l2.updates);
    LossOfSecond(env, net, w, op1.token, BothConfirmed(env, net, o1, o2, op1.noteStamp, op2.noteStamp), spend);
    HeldAfter(l2.chain.flows, Withdrawn(op1.token, o1.note.value), op1.token);
  }

  /** A shield's stored note: the party's nullifier for the next position. */
  lemma {:induction false} ShieldNote(env: Env, net: Network, w: World, op: Op, o: OutNote)
    requires PlannedOuts(env, net, w, op, [o]) && |w.chain.leaves| < 65536 && o.lookup != ""
    ensures o.note.token == op.token && o.note.leafIndex == |w.chain.leaves| && o.lookup in net.wallets
    ensures MakeNoteState(env, net, o, op.noteStamp).nullifier
         == Some(ComputeNullifier(env.H, net.wallets[o.lookup], |w.chain.leaves|))
  {
    assert PlannedOut(env, net, w, op, [o][0], 0);
  }

  lemma {:induction false} ShieldFlows(env: Env, c: Chain, op: Op, o: OutNote, l: Landed)
    requires Land(env, c, ShieldCall(PrepareShield(env.H, o.note, op.txId)), op) == Some(l)
    ensures Held(l.chain.flows, o.note.token) == Held(c.flows, o.note.token) + o.note.value
  {
    HeldAfter(c.flows, Deposited(o.note.token, o.note.value), o.note.token);
  }

  lemma {:induction false} NewIdUnused(env: Env, net: Network, w: World, op: Op, o: OutNote)
    requires Injective(env.H) && Inv(env, net, w) && OpOk(w, op) && PlannedOuts(env, net, w, op, [o])
    ensures forall k :: 0 <= k < |w.notes| ==> w.notes[k].id != NoteHash(env.H, o.note)
  {
    assert PlannedOut(env, net, w, op, [o][0], 0);
    forall k: nat | k < |w.notes| ensures w.notes[k].id != NoteHash(env.H, o.note) {
      assert Genuine(env, net, w.notes[k]);
      if w.notes[k].id == NoteHash(env.H, o.note) {
        CommitmentOpensOneWay(env.H, w.notes[k].note, o.note);
      }
    }
  }

  /** Updates that confirm one id and spend nothing. */
  ghost predicate ConfirmsOnly(u: Events.Updates, id: nat)
  {
    u.spent == [] && |u.confirmed| == 1 && u.confirmed[0].id == id
  }

  lemma {:induction false} BothReplayed(env: Env, net: Network, w: World, op1: Op, op2: Op, o1: OutNote, o2: OutNote,
                                        u1: Events.Updates, u2: Events.Updates)
    requires Injective(env.H) && Inv(env, net, w) && OpOk(w, op1) && OpOk(w, op2) && op1.randoms(0) != op2.randoms(0)
    requires PlannedOuts(env, net, w, op1, [o1]) && PlannedOuts(env, net, w, op2, [o2])
    requires ConfirmsOnly(u1, NoteHash(env.H, o1.note)) && ConfirmsOnly(u2, NoteHash(env.H, o2.note))
    ensures var written := Written(env, net, Written(env, net, w, [o1], op1.noteStamp), [o2], op2.noteStamp).notes;
      ApplyToNotes(ApplyToNotes(written, u1), u2)
        == w.notes + BothConfirmed(env, net, o1, o2, op1.noteStamp, op2.noteStamp)
  {
    NewIdUnused(env, net, w, op1, o1);
    NewIdUnused(env, net, w, op2, o2);
    assert PlannedOut(env, net, w, op1, [o1][0], 0) && PlannedOut(env, net, w, op2, [o2][0], 0);
    if NoteHash(env.H, o1.note) == NoteHash(env.H, o2.note) {
      CommitmentOpensOneWay(env.H, o1.note, o2.note);
    }
    var s1, s2 := MakeNoteState(env, net, o1, op1.noteStamp), MakeNoteState(env, net, o2, op2.noteStamp);
    var written := Written(env, net, Written(env, net, w, [o1], op1.noteStamp), [o2], op2.noteStamp).notes;
    assert written == w.notes + [s1, s2];
    ConfirmsTwo(w.notes, s1, s2, u1, u2);
  }

  lemma {:induction false} ConfirmsTwo(notes: seq<StoredNote>, a: StoredNote, b: StoredNote, u1: Events.Updates,
                                       u2: Events.Updates)
    requires ConfirmsOnly(u1, a.id) && ConfirmsOnly(u2, b.id) && a.id != b.id
    requires forall k :: 0 <= k < |notes| ==> notes[k].id != a.id && notes[k].id != b.id
    ensures ApplyToNotes(ApplyToNotes(notes + [a, b], u1), u2) == notes + [a.(confirmed := true), b.(confirmed := true)]
  {
    OneConfirmed(notes + [a, b], u1, a.id);
    OneConfirmed(ApplyToNotes(notes + [a, b], u1), u2, b.id);
  }

  lemma {:induction false} OneConfirmed(notes: seq<StoredNote>, u: Events.Updates, id: nat)
    requires ConfirmsOnly(u, id)
    ensures forall k :: 0 <= k < |notes| ==>
      ApplyToNotes(notes, u)[k] == if notes[k].id == id then notes[k].(confirmed := true) else notes[k]
  {
    assert u.confirmed[0].id == id;
  }

  /** One report of a shared nullifier takes both notes' value out of the unspent total. */
  lemma {:induction false} LossOfSecond(env: Env, net: Network, w: World, token: nat, both: seq<StoredNote>,
                                        spend: Events.Updates)
    requires Injective(env.H) && Inv(env, net, w) && |both| == 2
    requires forall i :: 0 <= i < 2 ==> both[i].confirmed && !both[i].spent && both[i].note.token == token
    requires both[0].nullifier == both[1].nullifier && both[0].lookup in net.wallets
    requires both[0].nullifier == Some(ComputeNullifier(env.H, net.wallets[both[0].lookup], |w.chain.leaves|))
    requires spend.confirmed == [] && |spend.spent| == 1 && Some(spend.spent[0].id) == both[0].nullifier
    ensures Unspent(w.notes + both, token) == Unspent(w.notes, token) + both[0].note.value + both[1].note.value
    ensures Unspent(ApplyToNotes(w.notes + both, spend), token) == Unspent(w.notes, token)
  {
    NullifierNew(env, net, w, net.wallets[both[0].lookup]);
    var after := ApplyToNotes(w.notes + both, spend);
    assert spend.spent[0].id == both[0].nullifier.value;
    forall k | 0 <= k < |w.notes| ensures Worth(after[k], token) == Worth(w.notes[k], token) {
    }
    assert Worths(w.notes + both, token) == Worths(w.notes, token) + [both[0].note.value, both[1].note.value];
    assert Worths(after, token) == Worths(w.notes, token) + [0, 0];
    SumAppends(Worths(w.notes, token), [both[0].note.value, both[1].note.value]);
    SumAppends(Worths(w.notes, token), [0, 0]);
    SumOfTwo(both[0].note.value, both[1].note.value);
    SumOfTwo(0, 0);
  }

  lemma {:induction false} SumOfTwo(a: nat, b: nat)
    ensures Sum([a, b]) == a + b
  {
    assert [a, b] == [a] + [b] && [a][..0] == [] && [b][..0] == [];
    SumAppends([a], [b]);
  }

  /** No confirmed note has the nullifier of a position that is still free. */
  lemma {:induction false} NullifierNew(env: Env, net: Network, w: World, id: Identity)
    requires Injective(env.H) && Inv(env, net, w)
    ensures forall k :: 0 <= k < |w.notes| && w.notes[k].confirmed ==>
      w.notes[k].nullifier != Some(ComputeNullifier(env.H, id, |w.chain.leaves|))
  {
    forall k: nat | k < |w.notes| && w.notes[k].confirmed
      ensures w.notes[k].nullifier != Some(ComputeNullifier(env.H, id, |w.chain.leaves|))
    {
      var n := w.notes[k];
      assert Genuine(env, net, n) && Placed(w.chain, n);
      if n.nullifier == Some(ComputeNullifier(env.H, id, |w.chain.leaves|)) {
        NullifierOpensOneWay(env.H, NullifyingKey(env.H, net.wallets[n.lookup]), n.note.leafIndex,
                             NullifyingKey(env.H, id), |w.chain.leaves|);
      }
    }
  }

  // ---------------------------------------------------------------------------
  // Overlapping spends
  // ---------------------------------------------------------------------------

  /** What lands after another accepted transaction: one that was acceptable before lands exactly
    * when it repeats none of that transaction's nullifiers. */
  lemma {:induction false} SecondLandsExactly(env: Env, c: Chain, tx1: Transaction, op1: Op, tx2: Transaction, op2: Op,
                                              l1: Landed)
    requires Land(env, c, TransactCall(tx1), op1) == Some(l1) && Accepts(env, c, tx2)
    ensures Land(env, l1.chain, TransactCall(tx2), op2).Some?
       <==> forall k :: 0 <= k < |tx2.nullifiers| ==> tx2.nullifiers[k] !in tx1.nullifiers
  {
    assert c.roots <= l1.chain.roots;
    assert l1.chain.nullifiers == c.nullifiers + SetOf(tx1.nullifiers);
  }

  lemma {:induction false} NullifiersApart(env: Env, net: Network, w: World, at1: seq<nat>, at2: seq<nat>)
    requires Injective(env.H) && Inv(env, net, w) && SpendableAt(w.notes, at1) && SpendableAt(w.notes, at2)
    ensures (forall k :: 0 <= k < |at2| ==> NullifiersAt(w.notes, at2)[k] !in NullifiersAt(w.notes, at1))
       <==> (forall i: nat :: i in at1 ==> i !in at2)
  {
    forall k | 0 <= k < |at2|
      ensures NullifiersAt(w.notes, at2)[k] in NullifiersAt(w.notes, at1) <==> at2[k] in at1
    {
      SpendsExactly(env, net, w, at1, at2[k]);
    }
  }

  /** Two spends assembled on the same tree: once one has landed, the contract takes the other
    * exactly when selection gave them no note in common. */
  lemma {:induction false} OverlappingSpends(env: Env, net: Network, w: World, op1: Op, op2: Op, p1: Plan, p2: Plan)
    returns (at1: seq<nat>, at2: seq<nat>)
    requires Injective(env.H) && WellConnected(env, net) && Inv(env, net, w) && OpOk(w, op1) && OpOk(w, op2)
    requires !op1.action.Shield? && PlanOf(env, net, w, op1) == Some(p1) && p1.call.Some?
    requires !op2.action.Shield? && PlanOf(env, net, w, op2) == Some(p2) && p2.call.Some?
    ensures op1.action.from in net.wallets && op2.action.from in net.wallets
    ensures at1 == SelectedAt(w.notes, MasterPublicKey(env.H, net.wallets[op1.action.from]), SpendTarget(op1.action))
    ensures at2 == SelectedAt(w.notes, MasterPublicKey(env.H, net.wallets[op2.action.from]), SpendTarget(op2.action))
    ensures var l1 := Land(env, w.chain, p1.call.value, op1);
      && l1.Some?
      && (Land(env, l1.value.chain, p2.call.value, op2).Some? <==> forall i: nat :: i in at1 ==> i !in at2)
  {
    var id1, a1 := SpendPlanMade(env, net, w, op1, p1);
    var id2, a2 := SpendPlanMade(env, net, w, op2, p2);
    at1, at2 := a1, a2;
    SpendAccepted(env, net, w, op1, p1, id1, at1);
    SpendAccepted(env, net, w, op2, p2, id2, at2);
    var l1 := Land(env, w.chain, p1.call.value, op1).value;
    SecondLandsExactly(env, w.chain, p1.call.value.tx, op1, p2.call.value.tx, op2, l1);
    NullifiersApart(env, net, w, at1, at2);
  }

  lemma {:induction false} SpendAccepted(env: Env, net: Network, w: World, op: Op, plan: Plan, id: Identity,
                                         at: seq<nat>)
    requires Injective(env.H) && Inv(env, net, w) && PlanMade(env, net, w, op, plan, WithdrawalOf(op), id, at)
    requires plan.call.Some?
    ensures plan.call.value.TransactCall? && Accepts(env, w.chain, plan.call.value.tx)
    ensures Land(env, w.chain, plan.call.value, op).Some?
    ensures SpendableAt(w.notes, at) && plan.call.value.tx.nullifiers == NullifiersAt(w.notes, at)
  {
    NeverRefused(env, net, w, op, plan.outs, WithdrawalOf(op), id, at, plan.call.value.tx);
    CallCarries(env, net, w, op, plan.outs, WithdrawalOf(op), id, at, plan.call.value.tx);
  }
}
