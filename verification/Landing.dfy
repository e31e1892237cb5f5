/** What happens to a planned call at the contract: it is accepted, and what it does there and
  * in the replayed events is what the plan predicted. */
module Landing {
  import opened Notes
  import opened Wrappers
  import opened JoinSplit
  import opened Proving
  import opened Assembly
  import opened Spending
  import opened Contract
  import opened Ledger
  import opened Settlement
  import opened Operations
  import Events

  // ---------------------------------------------------------------------------
  // What a satisfied witness says
  // ---------------------------------------------------------------------------

  function WithdrawnValue(out: Option<Events.Preimage>): nat
  {
    if out.Some? then out.value.value else 0
  }

  lemma {:induction false} CircuitOutsValues(H: Hash, outs: seq<OutNote>, out: Option<Events.Preimage>)
    ensures Sum(OutputValues(CircuitOuts(H, outs, out))) == Sum(OutValues(outs)) + WithdrawnValue(out)
  {
    var vs := OutputValues(CircuitOuts(H, outs, out));
    if out.Some? {
      assert vs == OutValues(outs) + [out.value.value];
      assert vs[..|vs| - 1] == OutValues(outs);
    } else {
      assert vs == OutValues(outs);
    }
  }

  /** Whatever was proved has one token, balances, and is in range: the circuit checks what
    * selection and validation do not. */
  lemma {:induction false} ProvedBalances(env: Env, net: Network, w: World, op: Op, outs: seq<OutNote>,
                                          out: Option<Events.Preimage>, id: Identity, at: seq<nat>, tx: Transaction)
    requires Injective(env.H) && Inv(env, net, w) && CallMade(env, net, w, op, outs, out, id, at, tx)
    ensures forall k :: 0 <= k < |at| ==> w.notes[at[k]].note.token == op.token
    ensures forall j :: 0 <= j < |outs| ==> outs[j].note.value < VALUE_BOUND
    ensures Sum(ValuesAt(w.notes, at)) == Sum(OutValues(outs)) + WithdrawnValue(out)
  {
    TakenInTree(env, net, w, id, at);
    var notes, souts := NotesAt(w.notes, at), CircuitOuts(env.H, outs, out);
    ProvedSpend(env, id, w.chain.leaves, op.token, notes, souts, tx);
    CircuitOutsValues(env.H, outs, out);
    assert NoteValues(notes) == ValuesAt(w.notes, at);
    forall j | 0 <= j < |outs| ensures outs[j].note.value < VALUE_BOUND {
      assert souts[j] == SpendOutputOf(env.H, outs[j]);
    }
    forall k | 0 <= k < |at| ensures w.notes[at[k]].note.token == op.token {
      assert notes[k].token == op.token;
    }
  }

  lemma {:induction false} ProvedSpend(env: Env, id: Identity, leaves: seq<nat>, token: nat, notes: seq<Note>,
                                       souts: seq<SpendOutput>, tx: Transaction)
    requires Injective(env.H) && KeyPair(env.signer, id) && |leaves| <= 65536
    requires TreeRoot(env.H, env.zero, leaves) < SNARK_SCALAR_FIELD
    requires forall k :: 0 <= k < |notes| ==> InTree(env.H, leaves, id, notes[k])
    requires Spends(env, id, leaves, token, notes, souts, tx)
    ensures forall k :: 0 <= k < |notes| ==> notes[k].token == token
    ensures forall j :: 0 <= j < |souts| ==> souts[j].noteValue < VALUE_BOUND
    ensures Sum(NoteValues(notes)) == Sum(OutputValues(souts))
  {
    var spend := SpendOf(env, id, leaves, token, notes, souts, tx.boundParams);
    SatisfiedExactly(env.H, env.signer, env.zero, leaves, notes, spend);
    InputsHavePaths(env.H, env.zero, leaves, notes);
  }

  // ---------------------------------------------------------------------------
  // Nullifiers and commitments
  // ---------------------------------------------------------------------------

  /** The nullifiers in the transaction are those recorded with the notes taken. */
  lemma {:induction false} NullifiersMatch(env: Env, net: Network, w: World, op: Op, outs: seq<OutNote>,
                                           out: Option<Events.Preimage>, id: Identity, at: seq<nat>, tx: Transaction)
    requires Injective(env.H) && Inv(env, net, w) && CallMade(env, net, w, op, outs, out, id, at, tx)
    ensures tx.nullifiers == NullifiersAt(w.notes, at)
  {
    var notes := NotesAt(w.notes, at);
    TxNullifiers(env, id, w.chain.leaves, op.token, notes, CircuitOuts(env.H, outs, out), tx);
    forall k | 0 <= k < |at| ensures tx.nullifiers[k] == NullifiersAt(w.notes, at)[k] {
      RecordedNullifier(env, net, id, w.notes[at[k]]);
      assert notes[k] == w.notes[at[k]].note;
    }
  }

  lemma {:induction false} TxNullifiers(env: Env, id: Identity, leaves: seq<nat>, token: nat, notes: seq<Note>,
                                        souts: seq<SpendOutput>, tx: Transaction)
    requires Spends(env, id, leaves, token, notes, souts, tx)
    ensures |tx.nullifiers| == |notes| && forall k :: 0 <= k < |notes| ==>
      tx.nullifiers[k] == ComputeNullifier(env.H, id, notes[k].leafIndex)
  {
    WitnessNullifiersAreRecorded(env.H, env.signer, env.zero, leaves, notes,
                                 SpendOf(env, id, leaves, token, notes, souts, tx.boundParams));
  }

  /** A note's recorded nullifier is the one its owner's wallet computes, by whichever name the
    * owner is known. */
  lemma {:induction false} RecordedNullifier(env: Env, net: Network, id: Identity, n: StoredNote)
    requires Injective(env.H) && Genuine(env, net, n) && n.nullifier.Some? && n.note.owner == MasterPublicKey(env.H, id)
    ensures n.nullifier == Some(ComputeNullifier(env.H, id, n.note.leafIndex))
  {
    AddressFixesNullifyingKey(env.H, net.wallets[n.lookup], id);
  }

  /** The commitments in the transaction are the new notes' ids, then the withdrawal's. */
  lemma {:induction false} CommitmentsMatch(env: Env, id: Identity, leaves: seq<nat>, token: nat, notes: seq<Note>,
                                            outs: seq<OutNote>, out: Option<Events.Preimage>, tx: Transaction)
    requires Spends(env, id, leaves, token, notes, CircuitOuts(env.H, outs, out), tx)
    requires (forall j :: 0 <= j < |outs| ==> outs[j].note.token == token) && (out.Some? ==> out.value.token == token)
    ensures |tx.commitments| == |outs| + (if out.Some? then 1 else 0)
    ensures tx.commitments[..|outs|] == IdsOf(env.H, outs)
    ensures out.Some? ==> tx.commitments[|outs|] == Events.PreimageHash(env.H, out.value)
  {
    var souts := CircuitOuts(env.H, outs, out);
    assert tx.commitments == Commitments(env.H, token, souts);
    forall j | 0 <= j < |outs| ensures tx.commitments[j] == NoteHash(env.H, outs[j].note) {
      assert souts[j] == SpendOutputOf(env.H, outs[j]);
    }
  }

  lemma {:induction false} NullifiersDistinct(env: Env, net: Network, w: World, at: seq<nat>)
    requires Injective(env.H) && Inv(env, net, w) && SpendableAt(w.notes, at)
    ensures Distinct(NullifiersAt(w.notes, at)) && Contract.Fresh(NullifiersAt(w.notes, at), w.chain.nullifiers)
  {
    var ns := NullifiersAt(w.notes, at);
    forall i, j | 0 <= i < j < |ns| ensures Apart(ns, i, j) {
      assert Below(at, i, j);
      if ns[i] == ns[j] {
        NullifierIdentifies(env, net, w, at[i], at[j]);
      }
    }
    forall i | 0 <= i < |ns| ensures ns[i] !in w.chain.nullifiers {
      assert Placed(w.chain, w.notes[at[i]]);
    }
  }

  // ---------------------------------------------------------------------------
  // Acceptance
  // ---------------------------------------------------------------------------

  lemma {:induction false} ProofIsChecked(env: Env, id: Identity, leaves: seq<nat>, token: nat, notes: seq<Note>,
                                          souts: seq<SpendOutput>, tx: Transaction)
    requires Spends(env, id, leaves, token, notes, souts, tx) && TreeRoot(env.H, env.zero, leaves) < SNARK_SCALAR_FIELD
    requires tx.boundParams.chainID == env.chainID
    ensures ProofChecks(env, tx) && tx.merkleRoot == TreeRoot(env.H, env.zero, leaves)
  {
  }

  /** The contract never refuses a proved call made from a kept world: the root is known, the
    * nullifiers are unused and distinct, the counts and the preimage agree. */
  lemma {:induction false} NeverRefused(env: Env, net: Network, w: World, op: Op, outs: seq<OutNote>,
                                        out: Option<Events.Preimage>, id: Identity, at: seq<nat>, tx: Transaction)
    requires Injective(env.H) && Inv(env, net, w) && PlannedOuts(env, net, w, op, outs)
    requires CallMade(env, net, w, op, outs, out, id, at, tx)
    ensures Accepts(env, w.chain, tx) && Withdrawal(env, tx) == out
  {
    var notes, souts := NotesAt(w.notes, at), CircuitOuts(env.H, outs, out);
    ProofIsChecked(env, id, w.chain.leaves, op.token, notes, souts, tx);
    PlannedTokens(env, net, w, op, outs);
    CommitmentsMatch(env, id, w.chain.leaves, op.token, notes, outs, out, tx);
    NullifiersMatch(env, net, w, op, outs, out, id, at, tx);
    NullifiersDistinct(env, net, w, at);
    ChecksPass(env, w.chain, outs, out, tx);
  }

  lemma {:induction false} PlannedTokens(env: Env, net: Network, w: World, op: Op, outs: seq<OutNote>)
    requires PlannedOuts(env, net, w, op, outs)
    ensures forall j :: 0 <= j < |outs| ==> outs[j].note.token == op.token
  {
    forall j: nat | j < |outs| ensures outs[j].note.token == op.token {
      assert PlannedOut(env, net, w, op, outs[j], j);
    }
  }

  lemma {:induction false} ChecksPass(env: Env, c: Chain, outs: seq<OutNote>, out: Option<Events.Preimage>,
                                      tx: Transaction)
    requires tx.merkleRoot in c.roots && ProofChecks(env, tx)
    requires |tx.boundParams.ciphertexts| == |outs| && tx.boundParams.unshield == out.Some?
    requires out.Some? ==> tx.unshieldPreimage.Some? && PreimageOf(tx.unshieldPreimage.value) == out
    requires |tx.commitments| == |outs| + (if out.Some? then 1 else 0)
    requires out.Some? ==> tx.commitments[|outs|] == Events.PreimageHash(env.H, out.value)
    requires Distinct(tx.nullifiers) && Contract.Fresh(tx.nullifiers, c.nullifiers)
    ensures Accepts(env, c, tx) && Withdrawal(env, tx) == out
  {
  }

  // ---------------------------------------------------------------------------
  // Effects
  // ---------------------------------------------------------------------------

  /** A landed call did what the plan predicted: appended the outputs, used up the nullifiers
    * of the notes taken, moved the tokens, and named only these in its events. */
  ghost predicate LandsAs(env: Env, w: World, outs: seq<OutNote>, at: seq<nat>, token: nat, paidIn: nat, paidOut: nat,
                          t: string, txHash: string, l: Landed)
  {
    && SpendableAt(w.notes, at) && ChainAfter(env, w, l.chain, outs, at, token, paidIn, paidOut)
    && Told(env, w, outs, at, l.updates) && LeavesNamed(env.H, l.updates.newLeaves) && Attributed(l.updates, t, txHash)
    && Balanced(w, outs, at, token, paidIn, paidOut)
    && forall j :: 0 <= j < |outs| ==> outs[j].note.value < VALUE_BOUND
  }

  /** What the transaction carries for the plan. */
  ghost predicate Carries(env: Env, w: World, op: Op, outs: seq<OutNote>, out: Option<Events.Preimage>, at: seq<nat>,
                          tx: Transaction)
  {
    && SpendableAt(w.notes, at) && outs != [] && |tx.boundParams.ciphertexts| == |outs| <= |tx.commitments|
    && tx.boundParams.ciphertexts[0].annotationData == Annotation(op.txId)
    && tx.commitments[..|outs|] == IdsOf(env.H, outs) && tx.nullifiers == NullifiersAt(w.notes, at)
    && (out.Some? ==> out.value.token == op.token)
  }

  /** The chain after an accepted transaction. */
  function ChainWith(env: Env, c: Chain, hashes: seq<nat>, nullifiers: seq<nat>, out: Option<Events.Preimage>): Chain
  {
    var flows := if out.Some? then c.flows + [Withdrawn(out.value.token, out.value.value)] else c.flows;
    Grow(env, c, hashes).(nullifiers := c.nullifiers + SetOf(nullifiers), flows := flows)
  }

  lemma {:induction false} TransactChain(env: Env, w: World, op: Op, outs: seq<OutNote>, out: Option<Events.Preimage>,
                                         at: seq<nat>)
    requires SpendableAt(w.notes, at) && (out.Some? ==> out.value.token == op.token)
    ensures ChainAfter(env, w, ChainWith(env, w.chain, IdsOf(env.H, outs), NullifiersAt(w.notes, at), out), outs, at,
                       op.token, 0, WithdrawnValue(out))
  {
    var c := ChainWith(env, w.chain, IdsOf(env.H, outs), NullifiersAt(w.notes, at), out);
    forall t: nat
      ensures Held(c.flows, t) == Held(w.chain.flows, t) + (if t == op.token then 0 - WithdrawnValue(out) else 0)
    {
      if out.Some? {
        HeldAfter(w.chain.flows, Withdrawn(out.value.token, out.value.value), t);
      }
    }
  }

  lemma {:induction false} TransactMined(env: Env, w: World, op: Op, outs: seq<OutNote>, out: Option<Events.Preimage>,
                                         at: seq<nat>, tx: Transaction)
    requires Accepts(env, w.chain, tx) && Withdrawal(env, tx) == out && Carries(env, w, op, outs, out, at, tx)
    ensures Submit(env, w.chain, TransactCall(tx), op.txHash, op.nullifiedFirst)
         == Some(Mined(ChainWith(env, w.chain, IdsOf(env.H, outs), NullifiersAt(w.notes, at), out),
                       TransactEvents(op.txHash, |w.chain.leaves|, IdsOf(env.H, outs),
                                      Annotations(tx.boundParams.ciphertexts),
                                      NullifiersAt(w.notes, at), out, op.nullifiedFirst)))
  {
  }

  lemma {:induction false} TransactLanded(env: Env, w: World, op: Op, outs: seq<OutNote>, out: Option<Events.Preimage>,
                                          at: seq<nat>, tx: Transaction)
    returns (l: Landed)
    requires Accepts(env, w.chain, tx) && Withdrawal(env, tx) == out && Carries(env, w, op, outs, out, at, tx)
    ensures Land(env, w.chain, TransactCall(tx), op) == Some(l)
    ensures ChainAfter(env, w, l.chain, outs, at, op.token, 0, WithdrawnValue(out))
    ensures |w.chain.leaves| + |outs| <= 65536 ==>
      Told(env, w, outs, at, l.updates) && LeavesNamed(env.H, l.updates.newLeaves)
      && Attributed(l.updates, Annotation(op.txId), op.txHash)
  {
    TransactMined(env, w, op, outs, out, at, tx);
    TransactReplayed(env.H, op.txHash, |w.chain.leaves|, IdsOf(env.H, outs), Annotations(tx.boundParams.ciphertexts),
                     NullifiersAt(w.notes, at), out, op.nullifiedFirst, Annotation(op.txId));
    l := LandedFrom(env, w, op, outs, out, at);
  }

  lemma {:induction false} LandedFrom(env: Env, w: World, op: Op, outs: seq<OutNote>, out: Option<Events.Preimage>,
                                      at: seq<nat>)
    returns (l: Landed)
    requires SpendableAt(w.notes, at) && (out.Some? ==> out.value.token == op.token)
    ensures l == Landed(ChainWith(env, w.chain, IdsOf(env.H, outs), NullifiersAt(w.notes, at), out),
                        CallUpdates(env.H, Annotation(op.txId), op.txHash, |w.chain.leaves|, IdsOf(env.H, outs),
                                    NullifiersAt(w.notes, at)))
    ensures ChainAfter(env, w, l.chain, outs, at, op.token, 0, WithdrawnValue(out))
    ensures |w.chain.leaves| + |outs| <= 65536 ==>
      Told(env, w, outs, at, l.updates) && LeavesNamed(env.H, l.updates.newLeaves)
      && Attributed(l.updates, Annotation(op.txId), op.txHash)
  {
    TransactChain(env, w, op, outs, out, at);
    l := Landed(ChainWith(env, w.chain, IdsOf(env.H, outs), NullifiersAt(w.notes, at), out),
                CallUpdates(env.H, Annotation(op.txId), op.txHash, |w.chain.leaves|, IdsOf(env.H, outs),
                            NullifiersAt(w.notes, at)));
    if |w.chain.leaves| + |outs| <= 65536 {
      CallTold(env, w, outs, at, Annotation(op.txId), op.txHash);
      CallNamed(env.H, Annotation(op.txId), op.txHash, |w.chain.leaves|, IdsOf(env.H, outs), NullifiersAt(w.notes, at));
    }
  }

  lemma {:induction false} CallCarries(env: Env, net: Network, w: World, op: Op, outs: seq<OutNote>,
                                       out: Option<Events.Preimage>, id: Identity, at: seq<nat>, tx: Transaction)
    requires Injective(env.H) && Inv(env, net, w) && PlannedOuts(env, net, w, op, outs)
    requires CallMade(env, net, w, op, outs, out, id, at, tx)
    ensures Carries(env, w, op, outs, out, at, tx)
  {
    PlannedTokens(env, net, w, op, outs);
    NullifiersMatch(env, net, w, op, outs, out, id, at, tx);
    CommitmentsMatch(env, id, w.chain.leaves, op.token, NotesAt(w.notes, at), outs, out, tx);
  }

  lemma {:induction false} CallBalances(env: Env, net: Network, w: World, op: Op, outs: seq<OutNote>,
                                        out: Option<Events.Preimage>, id: Identity, at: seq<nat>, tx: Transaction)
    requires Injective(env.H) && Inv(env, net, w) && PlannedOuts(env, net, w, op, outs)
    requires CallMade(env, net, w, op, outs, out, id, at, tx)
    ensures SpendableAt(w.notes, at) && Balanced(w, outs, at, op.token, 0, WithdrawnValue(out))
    ensures forall j :: 0 <= j < |outs| ==> outs[j].note.value < VALUE_BOUND
  {
    PlannedTokens(env, net, w, op, outs);
    ProvedBalances(env, net, w, op, outs, out, id, at, tx);
  }

  /** A spend's call lands, as planned, if the tree has room for its outputs. */
  lemma {:induction false} SpendLands(env: Env, net: Network, w: World, op: Op, outs: seq<OutNote>,
                                      out: Option<Events.Preimage>, id: Identity, at: seq<nat>, tx: Transaction)
    returns (l: Landed)
    requires Injective(env.H) && Inv(env, net, w) && PlannedOuts(env, net, w, op, outs)
    requires CallMade(env, net, w, op, outs, out, id, at, tx)
    ensures Land(env, w.chain, TransactCall(tx), op) == Some(l) && |l.chain.leaves| == |w.chain.leaves| + |outs|
    ensures |l.chain.leaves| <= 65536 ==>
      LandsAs(env, w, outs, at, op.token, 0, WithdrawnValue(out), Annotation(op.txId), op.txHash, l)
  {
    NeverRefused(env, net, w, op, outs, out, id, at, tx);
    CallCarries(env, net, w, op, outs, out, id, at, tx);
    CallBalances(env, net, w, op, outs, out, id, at, tx);
    l := TransactLanded(env, w, op, outs, out, at, tx);
  }

  /** So does a shield's, if its value fits; if not, the contract refuses it. */
  lemma {:induction false} ShieldLands(env: Env, w: World, op: Op, o: OutNote) returns (l: Option<Landed>)
    ensures Land(env, w.chain, ShieldCall(PrepareShield(env.H, o.note, op.txId)), op) == l
    ensures l.Some? <==> 0 < o.note.value < VALUE_BOUND
    ensures l.Some? ==> |l.value.chain.leaves| == |w.chain.leaves| + 1
    ensures l.Some? && |l.value.chain.leaves| <= 65536 ==>
      LandsAs(env, w, [o], [], o.note.token, o.note.value, 0, op.txId, op.txHash, l.value)
  {
    l := Land(env, w.chain, ShieldCall(PrepareShield(env.H, o.note, op.txId)), op);
    if 0 < o.note.value < VALUE_BOUND {
      ShieldMined(env, w.chain, op, o);
      if |l.value.chain.leaves| <= 65536 {
        ShieldLandsAs(env, w, op, o);
      }
    }
  }

  lemma {:induction false} ShieldLandsAs(env: Env, w: World, op: Op, o: OutNote)
    requires 0 < o.note.value < VALUE_BOUND && |w.chain.leaves| < 65536
    ensures LandsAs(env, w, [o], [], o.note.token, o.note.value, 0, op.txId, op.txHash,
                    Landed(ShieldedChain(env, w.chain, o),
                           CallUpdates(env.H, op.txId, op.txHash, |w.chain.leaves|, [NoteHash(env.H, o.note)], [])))
  {
    ShieldChain(env, w, o, ShieldedChain(env, w.chain, o));
    ShieldTold(env, w, o, op.txId, op.txHash);
  }

  /** The chain after a shield. */
  function ShieldedChain(env: Env, c: Chain, o: OutNote): Chain
  {
    Grow(env, c, [NoteHash(env.H, o.note)]).(flows := c.flows + [Deposited(o.note.token, o.note.value)])
  }

  lemma {:induction false} ShieldMined(env: Env, c: Chain, op: Op, o: OutNote)
    requires 0 < o.note.value < VALUE_BOUND
    ensures Land(env, c, ShieldCall(PrepareShield(env.H, o.note, op.txId)), op)
         == Some(Landed(ShieldedChain(env, c, o),
                        CallUpdates(env.H, op.txId, op.txHash, |c.leaves|, [NoteHash(env.H, o.note)], [])))
  {
    ShieldReplayed(env, c, PrepareShield(env.H, o.note, op.txId), op.txHash);
  }

  lemma {:induction false} ShieldTold(env: Env, w: World, o: OutNote, t: string, txHash: string)
    requires |w.chain.leaves| < 65536
    ensures var u := CallUpdates(env.H, t, txHash, |w.chain.leaves|, [NoteHash(env.H, o.note)], []);
      Told(env, w, [o], [], u) && LeavesNamed(env.H, u.newLeaves) && Attributed(u, t, txHash)
  {
    assert IdsOf(env.H, [o]) == [NoteHash(env.H, o.note)] && NullifiersAt(w.notes, []) == [];
    CallTold(env, w, [o], [], t, txHash);
    CallNamed(env.H, t, txHash, |w.chain.leaves|, [NoteHash(env.H, o.note)], []);
  }

  lemma {:induction false} ShieldChain(env: Env, w: World, o: OutNote, c: Chain)
    requires c == Grow(env, w.chain, [NoteHash(env.H, o.note)]).(flows :=
                                                                 w.chain.flows
                                                                   + [Deposited(o.note.token, o.note.value)])
    ensures IdsOf(env.H, [o]) == [NoteHash(env.H, o.note)] && NullifiersAt(w.notes, []) == []
    ensures ChainAfter(env, w, c, [o], [], o.note.token, o.note.value, 0)
    ensures Balanced(w, [o], [], o.note.token, o.note.value, 0)
  {
    assert NullifiersAt(w.notes, []) == [] && ValuesAt(w.notes, []) == [];
    assert OutValues([o])[..0] == [] && OutValues([o])[0] == o.note.value;
    assert IdsOf(env.H, [o]) == [NoteHash(env.H, o.note)];
    forall t: nat ensures Held(c.flows, t) == Held(w.chain.flows, t) + (if t == o.note.token then o.note.value else 0) {
      HeldAfter(w.chain.flows, Deposited(o.note.token, o.note.value), t);
    }
  }

  // ---------------------------------------------------------------------------
  // The world after
  // ---------------------------------------------------------------------------

  /** Writing the pending states first changes nothing about what lands. */
  lemma {:induction false} LandsOnWritten(env: Env, net: Network, w: World, op: Op, outs: seq<OutNote>, at: seq<nat>,
                                          token: nat, paidIn: nat, paidOut: nat, t: string, txHash: string, l: Landed)
    requires LandsAs(env, w, outs, at, token, paidIn, paidOut, t, txHash, l)
    ensures LandsAs(env, Written(env, net, w, outs, op.noteStamp), outs, at, token, paidIn, paidOut, t, txHash, l)
  {
    var written := Written(env, net, w, outs, op.noteStamp);
    assert NullifiersAt(written.notes, at) == NullifiersAt(w.notes, at);
    assert ValuesAt(written.notes, at) == ValuesAt(w.notes, at);
  }

  lemma {:induction false} AwaitsPlanned(env: Env, net: Network, w: World, op: Op, outs: seq<OutNote>)
    requires PlannedOuts(env, net, w, op, outs) && |w.chain.leaves| + |outs| <= 65536
    requires forall j :: 0 <= j < |outs| ==> outs[j].note.value < VALUE_BOUND
    ensures AwaitsOuts(env, net, Written(env, net, w, outs, op.noteStamp), outs, op.noteStamp)
  {
    LastWritten(env, net, w, outs, op.noteStamp);
    forall j: nat | j < |outs| ensures outs[j].note.leafIndex == |w.chain.leaves| + j {
      assert PlannedOut(env, net, w, op, outs[j], j);
    }
  }

  lemma {:induction false} LastWritten(env: Env, net: Network, w: World, outs: seq<OutNote>, created: int)
    ensures var notes := Written(env, net, w, outs, created).notes;
      && |notes| == |w.notes| + |outs|
      && forall i :: |w.notes| <= i < |notes| ==> notes[i] == MakeNoteState(env, net, outs[i - |w.notes|], created)
  {
  }

  /** A step keeps the invariant, whether its call lands or is lost. */
  lemma {:induction false} AfterKeeps(env: Env, net: Network, w: World, op: Op, outs: seq<OutNote>, at: seq<nat>,
                                      paidIn: nat, paidOut: nat, t: string, l: Landed)
    requires Injective(env.H) && Inv(env, net, w) && OpOk(w, op) && PlannedOuts(env, net, w, op, outs)
    requires LandsAs(env, w, outs, at, op.token, paidIn, paidOut, t, op.txHash, l)
    requires Granted(env, After(env, net, w, op, outs, Some(l)))
    ensures Inv(env, net, After(env, net, w, op, outs, Some(l)))
  {
    var written := Written(env, net, w, outs, op.noteStamp);
    PlannedAreNew(env, net, w, op, outs);
    WritingKeeps(env, net, w, outs, op.noteStamp);
    LandsOnWritten(env, net, w, op, outs, at, op.token, paidIn, paidOut, t, op.txHash, l);
    AwaitsPlanned(env, net, w, op, outs);
    MiningKeeps(env, net, written, l.chain, outs, op.noteStamp, at, op.token, paidIn, paidOut, l.updates,
                op.leafStamps);
  }

  lemma {:induction false} LostKeeps(env: Env, net: Network, w: World, op: Op, outs: seq<OutNote>)
    requires Injective(env.H) && Inv(env, net, w) && OpOk(w, op) && PlannedOuts(env, net, w, op, outs)
    ensures Inv(env, net, After(env, net, w, op, outs, None))
  {
    PlannedAreNew(env, net, w, op, outs);
    WritingKeeps(env, net, w, outs, op.noteStamp);
  }
}
