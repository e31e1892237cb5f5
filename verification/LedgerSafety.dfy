/** What every sequential run of shields, transfers and unshields keeps. */
module LedgerSafety {
  import opened Notes
  import opened Bytes
  import opened Wrappers
  import opened Paging
  import opened JoinSplit
  import opened Proving
  import opened Assembly
  import opened Contract
  import opened Ledger
  import opened Settlement
  import opened Operations
  import opened Landing
  import Events
  import TreeLoading

  // ---------------------------------------------------------------------------
  // One step
  // ---------------------------------------------------------------------------

  lemma {:induction false} SpendKeeps(env: Env, net: Network, w: World, op: Op, plan: Plan,
                                      out: Option<Events.Preimage>, id: Identity, at: seq<nat>)
    requires Injective(env.H) && Inv(env, net, w) && OpOk(w, op) && PlanMade(env, net, w, op, plan, out, id, at)
    requires Granted(env, After(env, net, w, op, plan.outs, LandIfMined(env, w.chain, plan.call, op)))
    ensures Inv(env, net, After(env, net, w, op, plan.outs, LandIfMined(env, w.chain, plan.call, op)))
  {
    if op.mined && plan.call.Some? {
      var l := SpendLands(env, net, w, op, plan.outs, out, id, at, plan.call.value.tx);
      AfterKeeps(env, net, w, op, plan.outs, at, 0, WithdrawnValue(out), Annotation(op.txId), l);
    } else {
      LostKeeps(env, net, w, op, plan.outs);
    }
  }

  lemma {:induction false} ShieldKeeps(env: Env, net: Network, w: World, op: Op, o: OutNote)
    requires Injective(env.H) && Inv(env, net, w) && OpOk(w, op) && PlannedOuts(env, net, w, op, [o])
    requires o.note.value > 0
    requires var call := Some(ShieldCall(PrepareShield(env.H, o.note, op.txId)));
      Granted(env, After(env, net, w, op, [o], LandIfMined(env, w.chain, call, op)))
    ensures var call := Some(ShieldCall(PrepareShield(env.H, o.note, op.txId)));
      Inv(env, net, After(env, net, w, op, [o], LandIfMined(env, w.chain, call, op)))
  {
    var l := ShieldLands(env, w, op, o);
    PlannedTokens(env, net, w, op, [o]);
    assert [o][0] == o;
    if op.mined && l.Some? {
      AfterKeeps(env, net, w, op, [o], [], o.note.value, 0, op.txId, l.value);
    } else {
      LostKeeps(env, net, w, op, [o]);
    }
  }

  /** Every step keeps the invariant: whatever is asked, whether or not it can be assembled,
    * proved or mined. */
  lemma {:induction false} StepKeeps(env: Env, net: Network, w: World, op: Op)
    requires Injective(env.H) && WellConnected(env, net) && Inv(env, net, w) && OpOk(w, op)
    requires Granted(env, Step(env, net, w, op))
    ensures Inv(env, net, Step(env, net, w, op))
  {
    if PlanOf(env, net, w, op).Some? {
      var plan := PlanOf(env, net, w, op).value;
      PlanKeeps(env, net, w, op, plan);
    }
  }

  lemma {:induction false} PlanKeeps(env: Env, net: Network, w: World, op: Op, plan: Plan)
    requires Injective(env.H) && WellConnected(env, net) && Inv(env, net, w) && OpOk(w, op)
    requires PlanOf(env, net, w, op) == Some(plan)
    requires Granted(env, After(env, net, w, op, plan.outs, LandIfMined(env, w.chain, plan.call, op)))
    ensures Inv(env, net, After(env, net, w, op, plan.outs, LandIfMined(env, w.chain, plan.call, op)))
  {
    match op.action {
      case Shield(_, _) =>
        var o := ShieldPlanned(env, net, w, op, plan);
        ShieldKeeps(env, net, w, op, o);
      case Transfer(_, _) =>
        var id, at := TransferPlanned(env, net, w, op, plan);
        SpendKeeps(env, net, w, op, plan, None, id, at);
      case Unshield(_, _, _) =>
        var id, at := UnshieldPlanned(env, net, w, op, plan);
        SpendKeeps(env, net, w, op, plan, WithdrawalOf(op), id, at);
    }
  }

  // ---------------------------------------------------------------------------
  // Runs
  // ---------------------------------------------------------------------------

  /** One operation of a sequential run. */
  ghost predicate StepsTo(env: Env, net: Network, w: World, op: Op, after: World)
  {
    OpOk(w, op) && SortedByCreated(w.leafRows) && after == Step(env, net, w, op)
  }

  lemma {:induction false} StepsToKeeps(env: Env, net: Network, w: World, op: Op, after: World)
    requires Injective(env.H) && WellConnected(env, net) && Inv(env, net, w)
    requires StepsTo(env, net, w, op, after) && Granted(env, after)
    ensures Inv(env, net, after)
  {
    StepKeeps(env, net, w, op);
  }

  ghost predicate AllGranted(env: Env, ws: seq<World>)
  {
    forall i :: 0 <= i < |ws| ==> Granted(env, ws[i])
  }

  /** A relation between worlds that keeps the invariant. */
  ghost predicate Preserves(env: Env, net: Network, steps: (World, Op, World) -> bool)
  {
    forall w: World, op: Op, after: World :: Inv(env, net, w) && steps(w, op, after) && Granted(env, after) ==>
      Inv(env, net, after)
  }

  ghost predicate Chained(steps: (World, Op, World) -> bool, ws: seq<World>, ops: seq<Op>)
  {
    |ws| == |ops| + 1 && forall i {:trigger ops[i]} :: 0 <= i < |ops| ==> steps(ws[i], ops[i], ws[i + 1])
  }

  lemma {:induction false} ChainKeeps(env: Env, net: Network, steps: (World, Op, World) -> bool, ws: seq<World>,
                                      ops: seq<Op>, i: nat)
    requires Preserves(env, net, steps) && AllGranted(env, ws) && Chained(steps, ws, ops) && i < |ws|
    requires Inv(env, net, ws[0])
    ensures Inv(env, net, ws[i])
  {
    if i > 0 {
      ChainKeeps(env, net, steps, ws, ops, i - 1);
      assert steps(ws[i - 1], ops[i - 1], ws[i]);
    }
  }

  ghost function Steps(env: Env, net: Network): (World, Op, World) -> bool
  {
    (w: World, op: Op, after: World) => StepsTo(env, net, w, op, after)
  }

  lemma {:induction false} StepsPreserve(env: Env, net: Network)
    requires Injective(env.H) && WellConnected(env, net)
    ensures Preserves(env, net, Steps(env, net))
  {
    forall w: World, op: Op, after: World | Inv(env, net, w) && Steps(env, net)(w, op, after) && Granted(env, after)
      ensures Inv(env, net, after)
    {
      StepsToKeeps(env, net, w, op, after);
    }
  }

  /** A sequential run: each operation is assembled, mined or lost, and its events replayed,
    * before the next is assembled. */
  ghost predicate Run(env: Env, net: Network, ws: seq<World>, ops: seq<Op>)
  {
    AllGranted(env, ws) && Chained(Steps(env, net), ws, ops)
  }

  /** The invariant holds throughout every run that starts well, as the empty ledger does
    * (`GenesisOk`). */
  lemma {:induction false} RunKeeps(env: Env, net: Network, ws: seq<World>, ops: seq<Op>, i: nat)
    requires Injective(env.H) && WellConnected(env, net) && Run(env, net, ws, ops) && i < |ws|
    requires Inv(env, net, ws[0])
    ensures Inv(env, net, ws[i])
  {
    StepsPreserve(env, net);
    ChainKeeps(env, net, Steps(env, net), ws, ops, i);
  }

  /** So it holds throughout every run from the empty ledger. */
  lemma {:induction false} RunFromEmpty(env: Env, net: Network, ws: seq<World>, ops: seq<Op>, i: nat)
    requires Injective(env.H) && WellConnected(env, net) && Run(env, net, ws, ops) && i < |ws|
    requires ws[0] == Genesis(env) && TreeRoot(env.H, env.zero, []) < SNARK_SCALAR_FIELD
    ensures Inv(env, net, ws[i])
  {
    GenesisOk(env, net);
    RunKeeps(env, net, ws, ops, i);
  }

  /** All that was deposited, or all that was withdrawn. */
  function Total(flows: seq<Flow>, token: nat, deposits: bool): nat
  {
    if flows == [] then 0
    else
      var f := flows[|flows| - 1];
      Total(flows[..|flows| - 1], token, deposits)
        + (if f.token == token && f.Deposited? == deposits then f.value else 0)
  }

  lemma {:induction false} HeldIsNet(flows: seq<Flow>, token: nat)
    ensures Held(flows, token) == Total(flows, token, true) - Total(flows, token, false)
  {
    if flows != [] {
      HeldIsNet(flows[..|flows| - 1], token);
    }
  }

  lemma {:induction false} ConservedIn(env: Env, net: Network, w: World, token: nat)
    requires Inv(env, net, w)
    ensures Unspent(w.notes, token) == Total(w.chain.flows, token, true) - Total(w.chain.flows, token, false)
  {
    HeldIsNet(w.chain.flows, token);
  }

  /** Conservation: in every run, token by token, the unspent notes, external owners' included,
    * are worth what was shielded less what was unshielded. */
  lemma {:induction false} ValueIsConserved(env: Env, net: Network, ws: seq<World>, ops: seq<Op>, i: nat, token: nat)
    requires Injective(env.H) && WellConnected(env, net) && Run(env, net, ws, ops) && i < |ws|
    requires Inv(env, net, ws[0])
    ensures Unspent(ws[i].notes, token)
      == Total(ws[i].chain.flows, token, true) - Total(ws[i].chain.flows, token, false)
  {
    RunKeeps(env, net, ws, ops, i);
    ConservedIn(env, net, ws[i], token);
  }

  /** The note stands at its predicted index of a tree that the node rebuilds exactly, and its
    * proof there folds to a root the contract knows. */
  ghost predicate Provable(env: Env, w: World, n: StoredNote)
    requires SortedByCreated(w.leafRows)
  {
    && TreeLoading.LoadedLeaves(w.leafRows) == Some(w.chain.leaves)
    && n.note.leafIndex < |w.chain.leaves| && w.chain.leaves[n.note.leafIndex] == NoteHash(env.H, n.note)
    && CommitmentTree.RootFrom<nat>(Pair(env.H), NoteHash(env.H, n.note), n.note.leafIndex,
                                    TreePath(env.H, env.zero, w.chain.leaves, n.note.leafIndex)) in w.chain.roots
  }

  lemma {:induction false} ProvableIn(env: Env, net: Network, w: World, k: nat)
    requires Injective(env.H) && Inv(env, net, w) && k < |w.notes| && w.notes[k].confirmed
    ensures SortedByCreated(w.leafRows) && Provable(env, w, w.notes[k])
  {
    LoadsTheTree(env, w);
    var n := w.notes[k];
    assert Genuine(env, net, n) && Placed(w.chain, n);
    TreeBinds(env.H, env.zero, w.chain.leaves, n.note.leafIndex, n.id);
  }

  /** In every run, every confirmed note stays provable at the index predicted for it. */
  lemma {:induction false} NotesStayProvable(env: Env, net: Network, ws: seq<World>, ops: seq<Op>, i: nat, k: nat)
    requires Injective(env.H) && WellConnected(env, net) && Run(env, net, ws, ops) && i < |ws| && k < |ws[i].notes|
    requires Inv(env, net, ws[0]) && ws[i].notes[k].confirmed
    ensures SortedByCreated(ws[i].leafRows) && Provable(env, ws[i], ws[i].notes[k])
  {
    RunKeeps(env, net, ws, ops, i);
    ProvableIn(env, net, ws[i], k);
  }

  /** The node's records of leaves have ids of their own: distinct, and no note's. */
  ghost predicate IdsApart(w: World)
  {
    && (forall i, j :: 0 <= i < j < |w.leafRows| ==> w.leafRows[i].id != w.leafRows[j].id)
    && forall i, k :: 0 <= i < |w.leafRows| && 0 <= k < |w.notes| ==> w.leafRows[i].id != w.notes[k].id
  }

  lemma {:induction false} IdsApartIn(env: Env, net: Network, w: World)
    requires Injective(env.H) && Inv(env, net, w)
    ensures IdsApart(w)
  {
    forall i, j | 0 <= i < j < |w.leafRows| ensures w.leafRows[i].id != w.leafRows[j].id {
      var m := NotedBy(env, w, i);
      var n := NotedBy(env, w, j);
      var a, b := w.leafRows[i].data.value, w.leafRows[j].data.value;
      if w.leafRows[i].id == w.leafRows[j].id {
        Events.LeafIdOpensOneWay(env.H, a.leafIndex, a.commitment, b.leafIndex, b.commitment);
      }
    }
    forall i, k | 0 <= i < |w.leafRows| && 0 <= k < |w.notes| ensures w.leafRows[i].id != w.notes[k].id {
      var m := NotedBy(env, w, i);
      assert Genuine(env, net, w.notes[m]) && Genuine(env, net, w.notes[k]);
      Events.LeafIdIsNoNoteId(env.H, w.leafRows[i].data.value.leafIndex, w.notes[m].note, w.notes[k].note);
    }
  }

  lemma {:induction false} NotedBy(env: Env, w: World, i: nat) returns (k: nat)
    requires RowsNamed(env.H, w.notes, w.leafRows) && i < |w.leafRows|
    ensures k < |w.notes| && NamedAfter(env.H, w.notes[k], w.leafRows[i])
  {
    assert RowNamed(env.H, w.notes, w.leafRows[i]);
    k :| k < |w.notes| && NamedAfter(env.H, w.notes[k], w.leafRows[i]);
  }

  /** So it is throughout every run: no two states of the node's stores are confused. */
  lemma {:induction false} IdsStayApart(env: Env, net: Network, ws: seq<World>, ops: seq<Op>, i: nat)
    requires Injective(env.H) && WellConnected(env, net) && Run(env, net, ws, ops) && i < |ws|
    requires Inv(env, net, ws[0])
    ensures IdsApart(ws[i]) && DistinctIds(ws[i].notes)
  {
    RunKeeps(env, net, ws, ops, i);
    IdsApartIn(env, net, ws[i]);
  }

  // ---------------------------------------------------------------------------
  // Spends
  // ---------------------------------------------------------------------------

  /** The notes after a call has landed, note by note. */
  ghost predicate MarksExactly(w: World, after: World, at: seq<nat>, created: nat)
  {
    && |after.notes| == |w.notes| + created
    && (forall i: nat :: i < |w.notes| && w.notes[i].confirmed ==>
          after.notes[i].confirmed && (after.notes[i].spent <==> w.notes[i].spent || i in at))
    && (forall i: nat :: i < |w.notes| && !w.notes[i].confirmed ==> !after.notes[i].confirmed)
    && forall i: nat :: |w.notes| <= i < |after.notes| ==> after.notes[i].confirmed && !after.notes[i].spent
  }

  lemma {:induction false} OldMarkedExactly(env: Env, net: Network, w: World, outs: seq<OutNote>, created: int,
                                            at: seq<nat>, u: Events.Updates, i: nat)
    requires Injective(env.H) && Mining(env, net, w, outs, created, at) && Told(env, w, outs, at, u)
    requires i < |w.notes| - |outs|
    ensures var n := ApplyToNote(w.notes[i], u);
      n.confirmed == w.notes[i].confirmed && (n.confirmed ==> (n.spent <==> w.notes[i].spent || i in at))
  {
    ConfirmsExactly(env, net, w, outs, created, at, u, i);
    OldNoteWorth(env, net, w, outs, at, u, i);
  }

  lemma {:induction false} NewMarkedExactly(env: Env, net: Network, w: World, outs: seq<OutNote>, created: int,
                                            at: seq<nat>, u: Events.Updates, i: nat)
    requires Injective(env.H) && Mining(env, net, w, outs, created, at) && Told(env, w, outs, at, u)
    requires |w.notes| - |outs| <= i < |w.notes|
    ensures ApplyToNote(w.notes[i], u).confirmed && !ApplyToNote(w.notes[i], u).spent
  {
    var j := i - (|w.notes| - |outs|);
    NewNoteConfirmed(env, net, w, outs, created, at, u, j);
    assert |w.notes| - |outs| + j == i;
  }

  /** A landed call marks as spent exactly the notes it took, all unspent before; it confirms
    * exactly its own outputs, unspent.  Pending states of lost operations stay pending. */
  lemma {:induction false} LandingMarksExactly(env: Env, net: Network, w: World, op: Op, outs: seq<OutNote>,
                                               at: seq<nat>, paidIn: nat, paidOut: nat, t: string, l: Landed)
    requires Injective(env.H) && Inv(env, net, w) && OpOk(w, op) && PlannedOuts(env, net, w, op, outs)
    requires LandsAs(env, w, outs, at, op.token, paidIn, paidOut, t, op.txHash, l)
    requires Granted(env, After(env, net, w, op, outs, Some(l)))
    ensures MarksExactly(w, After(env, net, w, op, outs, Some(l)), at, |outs|)
  {
    var written := Written(env, net, w, outs, op.noteStamp);
    PlannedAreNew(env, net, w, op, outs);
    WritingKeeps(env, net, w, outs, op.noteStamp);
    LandsOnWritten(env, net, w, op, outs, at, op.token, paidIn, paidOut, t, op.txHash, l);
    AwaitsPlanned(env, net, w, op, outs);
    WrittenMarked(env, net, written, outs, op.noteStamp, at, l.updates);
  }

  lemma {:induction false} WrittenMarked(env: Env, net: Network, w: World, outs: seq<OutNote>, created: int,
                                         at: seq<nat>, u: Events.Updates)
    requires Injective(env.H) && Mining(env, net, w, outs, created, at) && Told(env, w, outs, at, u)
    ensures forall i: nat :: i < |w.notes| ==>
      var base, n := |w.notes| - |outs|, ApplyToNotes(w.notes, u)[i];
      if i < base then n.confirmed == w.notes[i].confirmed
        && (n.confirmed ==> (n.spent <==> w.notes[i].spent || i in at))
      else n.confirmed && !n.spent
  {
    forall i: nat | i < |w.notes|
      ensures var base, n := |w.notes| - |outs|, ApplyToNotes(w.notes, u)[i];
        if i < base then n.confirmed == w.notes[i].confirmed
          && (n.confirmed ==> (n.spent <==> w.notes[i].spent || i in at))
        else n.confirmed && !n.spent
    {
      if i < |w.notes| - |outs| {
        OldMarkedExactly(env, net, w, outs, created, at, u, i);
      } else {
        NewMarkedExactly(env, net, w, outs, created, at, u, i);
      }
    }
  }

  /** A mined spend, from the request to the replayed events: its transaction is accepted; the
    * confirmed notes then marked spent are exactly those the transaction spends, all unspent
    * before; the notes confirmed are exactly its own outputs. */
  lemma {:induction false} SpendMarksExactly(env: Env, net: Network, w: World, op: Op, plan: Plan,
                                             out: Option<Events.Preimage>, id: Identity, at: seq<nat>)
    returns (l: Landed)
    requires Injective(env.H) && Inv(env, net, w) && OpOk(w, op)
    requires PlanMade(env, net, w, op, plan, out, id, at) && plan.call.Some?
    requires Land(env, w.chain, plan.call.value, op).Some? ==>
      Granted(env, After(env, net, w, op, plan.outs, Land(env, w.chain, plan.call.value, op)))
    ensures Land(env, w.chain, plan.call.value, op) == Some(l)
    ensures CallMade(env, net, w, op, plan.outs, out, id, at, plan.call.value.tx)
    ensures MarksExactly(w, After(env, net, w, op, plan.outs, Some(l)), at, |plan.outs|)
    ensures forall k :: 0 <= k < |at| ==> !w.notes[at[k]].spent
    ensures Attributed(l.updates, if op.txId == "" then "0x" else op.txId, op.txHash)
  {
    l := SpendLands(env, net, w, op, plan.outs, out, id, at, plan.call.value.tx);
    LandingMarksExactly(env, net, w, op, plan.outs, at, 0, WithdrawnValue(out), Annotation(op.txId), l);
  }

  lemma {:induction false} SpendPlanMade(env: Env, net: Network, w: World, op: Op, plan: Plan)
    returns (id: Identity, at: seq<nat>)
    requires WellConnected(env, net) && Inv(env, net, w) && OpOk(w, op) && !op.action.Shield?
    requires PlanOf(env, net, w, op) == Some(plan)
    ensures op.action.from in net.wallets && id == net.wallets[op.action.from]
    ensures PlanMade(env, net, w, op, plan, WithdrawalOf(op), id, at)
  {
    if op.action.Transfer? {
      id, at := TransferPlanned(env, net, w, op, plan);
    } else {
      id, at := UnshieldPlanned(env, net, w, op, plan);
    }
  }

  /** The operation is a mined transfer or unshield, proved and called, that selects the notes
    * at `at` from its sender's available ones. */
  ghost predicate TakesAt(env: Env, net: Network, w: World, op: Op, at: seq<nat>)
  {
    && Fits(op.token, 20) && SortedByCreated(w.leafRows) && !op.action.Shield? && op.mined
    && op.action.from in net.wallets
    && PlanOf(env, net, w, op).Some? && PlanOf(env, net, w, op).value.call.Some?
    && at == SelectedAt(w.notes, MasterPublicKey(env.H, net.wallets[op.action.from]), SpendTarget(op.action))
  }

  /** A step that spends: the notes it newly marks as spent are exactly those selection takes,
    * all unspent before, and those whose nullifiers its transaction carries. */
  lemma {:induction false} SelectedAreSpent(env: Env, net: Network, w: World, op: Op, at: seq<nat>)
    requires Injective(env.H) && WellConnected(env, net) && Inv(env, net, w) && OpOk(w, op)
    requires TakesAt(env, net, w, op, at) && Granted(env, Step(env, net, w, op))
    ensures var plan := PlanOf(env, net, w, op).value;
      && at != [] && SpendableAt(w.notes, at) && MarksExactly(w, Step(env, net, w, op), at, |plan.outs|)
      && plan.call.value.TransactCall? && plan.call.value.tx.nullifiers == NullifiersAt(w.notes, at)
  {
    var plan := PlanOf(env, net, w, op).value;
    var id, taken := SpendPlanMade(env, net, w, op, plan);
    var l := SpendMarksExactly(env, net, w, op, plan, WithdrawalOf(op), id, taken);
    NullifiersMatch(env, net, w, op, plan.outs, WithdrawalOf(op), id, taken, plan.call.value.tx);
  }

  /** Nothing is forgotten: notes keep their positions, and what is spent stays spent. */
  ghost predicate SpentKept(w: World, after: World)
  {
    |w.notes| <= |after.notes| && forall k: nat :: k < |w.notes| && w.notes[k].spent ==> after.notes[k].spent
  }

  lemma {:induction false} StepKeepsSpent(env: Env, net: Network, w: World, op: Op, after: World)
    requires StepsTo(env, net, w, op, after)
    ensures SpentKept(w, after)
  {
  }

  ghost predicate KeepsSpent(steps: (World, Op, World) -> bool)
  {
    forall w: World, op: Op, after: World :: steps(w, op, after) ==> SpentKept(w, after)
  }

  lemma {:induction false} ChainKeepsSpent(steps: (World, Op, World) -> bool, ws: seq<World>, ops: seq<Op>, i: nat,
                                           j: nat)
    requires KeepsSpent(steps) && Chained(steps, ws, ops) && i <= j < |ws|
    ensures SpentKept(ws[i], ws[j])
  {
    if i < j {
      ChainKeepsSpent(steps, ws, ops, i, j - 1);
      assert steps(ws[j - 1], ops[j - 1], ws[j]);
    }
  }

  lemma {:induction false} StepsKeepSpent(env: Env, net: Network)
    ensures KeepsSpent(Steps(env, net))
  {
    forall w: World, op: Op, after: World | Steps(env, net)(w, op, after) ensures SpentKept(w, after) {
      StepKeepsSpent(env, net, w, op, after);
    }
  }

  /** No note is spent twice: two spends of one run take different notes. */
  lemma {:induction false} NoDoubleSpend(env: Env, net: Network, ws: seq<World>, ops: seq<Op>, i: nat, j: nat,
                                         first: seq<nat>, second: seq<nat>)
    requires Injective(env.H) && WellConnected(env, net) && Run(env, net, ws, ops) && i < j < |ops|
    requires Inv(env, net, ws[0])
    requires TakesAt(env, net, ws[i], ops[i], first) && TakesAt(env, net, ws[j], ops[j], second)
    ensures forall k: nat :: k in first ==> k !in second
  {
    RunSpends(env, net, ws, ops, i, first);
    RunSpends(env, net, ws, ops, j, second);
    StepsKeepSpent(env, net);
    TakenOnce(Steps(env, net), ws, ops, i, j, first, second);
  }

  ghost predicate MarkedSpent(after: World, at: seq<nat>)
  {
    forall k :: 0 <= k < |at| ==> at[k] < |after.notes| && after.notes[at[k]].spent
  }

  lemma {:induction false} RunSpends(env: Env, net: Network, ws: seq<World>, ops: seq<Op>, i: nat, at: seq<nat>)
    requires Injective(env.H) && WellConnected(env, net) && Run(env, net, ws, ops) && i < |ops|
    requires Inv(env, net, ws[0]) && TakesAt(env, net, ws[i], ops[i], at)
    ensures SpendableAt(ws[i].notes, at) && MarkedSpent(ws[i + 1], at)
  {
    RunStep(env, net, ws, ops, i);
    StepSpends(env, net, ws[i], ops[i], ws[i + 1], at);
  }

  lemma {:induction false} StepSpends(env: Env, net: Network, w: World, op: Op, after: World, at: seq<nat>)
    requires Injective(env.H) && WellConnected(env, net) && Inv(env, net, w)
    requires StepsTo(env, net, w, op, after) && Granted(env, after) && TakesAt(env, net, w, op, at)
    ensures SpendableAt(w.notes, at) && MarkedSpent(after, at)
  {
    SelectedAreSpent(env, net, w, op, at);
    TakenAreMarked(w, after, at, |PlanOf(env, net, w, op).value.outs|);
  }

  lemma {:induction false} TakenAreMarked(w: World, after: World, at: seq<nat>, created: nat)
    requires SpendableAt(w.notes, at) && MarksExactly(w, after, at, created)
    ensures MarkedSpent(after, at)
  {
  }

  lemma {:induction false} RunStep(env: Env, net: Network, ws: seq<World>, ops: seq<Op>, i: nat)
    requires Injective(env.H) && WellConnected(env, net) && Run(env, net, ws, ops) && i < |ops| && Inv(env, net, ws[0])
    ensures Inv(env, net, ws[i]) && StepsTo(env, net, ws[i], ops[i], ws[i + 1]) && Granted(env, ws[i + 1])
  {
    RunKeeps(env, net, ws, ops, i);
    assert Steps(env, net)(ws[i], ops[i], ws[i + 1]);
  }

  lemma {:induction false} TakenOnce(steps: (World, Op, World) -> bool, ws: seq<World>, ops: seq<Op>, i: nat, j: nat,
                                     first: seq<nat>, second: seq<nat>)
    requires KeepsSpent(steps) && Chained(steps, ws, ops) && i < j < |ops|
    requires SpendableAt(ws[i].notes, first) && MarkedSpent(ws[i + 1], first) && SpendableAt(ws[j].notes, second)
    ensures forall k: nat :: k in first ==> k !in second
  {
    ChainKeepsSpent(steps, ws, ops, i + 1, j);
  }

  // ---------------------------------------------------------------------------
  // Correlation
  // ---------------------------------------------------------------------------

  /** A shield's records all carry its Paladin id. */
  lemma {:induction false} ShieldAttributed(env: Env, net: Network, w: World, op: Op, plan: Plan)
    requires WellConnected(env, net) && Inv(env, net, w) && OpOk(w, op) && op.action.Shield?
    requires PlanShield(env, net, w, op) == Some(plan)
    requires op.action.amount < VALUE_BOUND && |w.chain.leaves| < 65536
    ensures plan.call.Some? && Land(env, w.chain, plan.call.value, op).Some?
    ensures Attributed(Land(env, w.chain, plan.call.value, op).value.updates, op.txId, op.txHash)
  {
    var o := ShieldPlanned(env, net, w, op, plan);
    var l := ShieldLands(env, w, op, o);
  }
}
