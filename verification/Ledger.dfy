/** The shielded ledger as a state machine: the contract, the node's stored states, and one
  * step per shield, transfer or unshield, from Assemble to event replay. */
module Ledger {
  import opened Notes
  import opened Bytes
  import opened Wrappers
  import opened Paging
  import opened JoinSplit
  import opened Proving
  import opened Assembly
  import opened Contract
  import Events
  import NoteSelection
  import TreeLoading

  /** A stored note state: `lookup` is the party it is distributed to, empty for an external
    * owner; `nullifier` is recorded only for such a party. */
  datatype StoredNote = StoredNote(id: nat, note: Note, lookup: string, nullifier: Option<nat>,
                                   confirmed: bool, spent: bool, created: int)

  /** The parties: their wallets, and the addresses they resolve to. */
  datatype Network = Network(wallets: map<string, Identity>, verifiers: map<string, string>)

  datatype World = World(chain: Chain, notes: seq<StoredNote>, leafRows: seq<TreeLoading.LeafRow>)

  datatype Action =
    | Shield(to: string, amount: nat)
    | Transfer(from: string, entries: seq<TransferEntry>)
    | Unshield(from: string, recipient: seq<Byte>, amount: nat)

  /** One operation: what is asked, the randomness and stamps it draws, and its fate. */
  datatype Op = Op(action: Action, token: nat, txId: string,
                   randoms: nat -> nat, ivs: nat -> seq<Byte>,
                   mined: bool, txHash: string, nullifiedFirst: bool, noteStamp: int, leafStamps: nat -> int)

  // ---------------------------------------------------------------------------
  // The state store
  // ---------------------------------------------------------------------------

  /** The state written for an output, with its nullifier if the owner is a party. */
  function MakeNoteState(env: Env, net: Network, o: OutNote, created: int): StoredNote
  {
    StoredNote(NoteHash(env.H, o.note), o.note, o.lookup,
               if o.lookup != "" && o.lookup in net.wallets
               then Some(ComputeNullifier(env.H, net.wallets[o.lookup], o.note.leafIndex)) else None,
               false, false, created)
  }

  predicate IsAvailable(n: StoredNote, mpk: nat)
  {
    n.confirmed && !n.spent && n.nullifier.Some? && n.note.owner == mpk
  }

  ghost predicate Below(at: seq<nat>, k: int, l: int)
  {
    0 <= k < l < |at| ==> at[k] < at[l]
  }

  ghost predicate Increasing(at: seq<nat>)
  {
    forall k, l :: Below(at, k, l)
  }

  lemma {:induction false} IncreasingSnoc(at: seq<nat>, n: nat)
    requires Increasing(at) && forall k :: 0 <= k < |at| ==> at[k] < n
    ensures Increasing(at + [n])
  {
    forall k, l ensures Below(at + [n], k, l) {
      assert Below(at, k, l);
    }
  }

  /** Where the available notes of an owner stand in the store, in order. */
  function AvailableAt(notes: seq<StoredNote>, mpk: nat): (r: seq<nat>)
    ensures forall k :: 0 <= k < |r| ==> r[k] < |notes| && IsAvailable(notes[r[k]], mpk)
    ensures Increasing(r)
    ensures forall i: nat :: i < |notes| && IsAvailable(notes[i], mpk) ==> i in r
  {
    if notes == [] then []
    else
      var n := |notes| - 1;
      var init := AvailableAt(notes[..n], mpk);
      if IsAvailable(notes[n], mpk) then
        assert forall i: nat :: i < n && IsAvailable(notes[i], mpk) ==> notes[..n][i] == notes[i] && i in init;
        IncreasingSnoc(init, n);
        init + [n]
      else
        assert forall i: nat :: i < n && IsAvailable(notes[i], mpk) ==> notes[..n][i] == notes[i] && i in init;
        init
  }

  function RowOf(n: StoredNote): NoteSelection.State
  {
    Row(n.id, n.created, Some(n.note))
  }

  function Available(notes: seq<StoredNote>, mpk: nat): (rows: seq<NoteSelection.State>)
    ensures Decodable(rows)
  {
    var at := AvailableAt(notes, mpk);
    seq(|at|, k requires 0 <= k < |at| => RowOf(notes[at[k]]))
  }

  /** The rows served for an owner: the confirmed, unspent notes with a recorded nullifier, each
    * once, in the order of the store, with their ids and stamps. */
  lemma {:induction false} ServesExactly(notes: seq<StoredNote>, mpk: nat)
    ensures var at, rows := AvailableAt(notes, mpk), Available(notes, mpk);
      && Increasing(at) && |rows| == |at|
      && (forall i: nat :: i in at <==>
           && i < |notes| && notes[i].confirmed && !notes[i].spent && notes[i].nullifier.Some?
           && notes[i].note.owner == mpk)
      && forall k :: 0 <= k < |at| ==>
           var n := notes[at[k]];
           rows[k].id == n.id && rows[k].created == n.created && rows[k].data == Some(n.note)
  {
  }

  function AvailabilityOf(notes: seq<StoredNote>): nat -> seq<NoteSelection.State>
  {
    (mpk: nat) => Available(notes, mpk)
  }

  predicate Named(us: seq<Events.StateUpdate>, id: nat)
  {
    exists i :: 0 <= i < |us| && us[i].id == id
  }

  /** Confirms by state id; marks spent by nullifier. */
  function ApplyToNote(n: StoredNote, u: Events.Updates): StoredNote
  {
    n.(confirmed := n.confirmed || Named(u.confirmed, n.id),
       spent := n.spent || (n.nullifier.Some? && Named(u.spent, n.nullifier.value)))
  }

  function ApplyToNotes(notes: seq<StoredNote>, u: Events.Updates): (r: seq<StoredNote>)
    ensures |r| == |notes| && forall i :: 0 <= i < |notes| ==> r[i] == ApplyToNote(notes[i], u)
  {
    seq(|notes|, i requires 0 <= i < |notes| => ApplyToNote(notes[i], u))
  }

  function LeafRows(ls: seq<Events.NewLeaf>, stamps: nat -> int): (r: seq<TreeLoading.LeafRow>)
    ensures |r| == |ls| && forall i :: 0 <= i < |ls| ==> r[i] == Row(ls[i].id, stamps(i), Some(ls[i].leaf))
  {
    seq(|ls|, i requires 0 <= i < |ls| => Row(ls[i].id, stamps(i), Some(ls[i].leaf)))
  }

  function Replay(w: World, chain: Chain, u: Events.Updates, stamps: nat -> int): World
  {
    World(chain, ApplyToNotes(w.notes, u), w.leafRows + LeafRows(u.newLeaves, stamps))
  }

  // ---------------------------------------------------------------------------
  // One step
  // ---------------------------------------------------------------------------

  /** What an operation comes to: states to write and, if it could be proved, a call. */
  datatype Plan = Plan(outs: seq<OutNote>, call: Option<Call>)

  type Prover = (Identity, ProvingPayload, nat -> seq<Byte>) -> Option<Transaction>

  function ProverOf(env: Env): Prover
  {
    (id: Identity, p: ProvingPayload, ivs: nat -> seq<Byte>) => GenerateTransaction(env, id, p, ivs)
  }

  /** The sender's node signs: its wallet proves the payload. */
  function PlanSpend(prove: Prover, net: Network, from: string, outcome: Outcome, ivs: nat -> seq<Byte>): Option<Plan>
  {
    if !outcome.Assembled? then None
    else if from !in net.wallets then Some(Plan(outcome.outputs, None))
    else match prove(net.wallets[from], outcome.payload, ivs)
      case None => Some(Plan(outcome.outputs, None))
      case Some(tx) => Some(Plan(outcome.outputs, Some(TransactCall(tx))))
  }

  function PlanTransfer(env: Env, net: Network, w: World, op: Op): Option<Plan>
    requires Fits(op.token, 20) && SortedByCreated(w.leafRows) && op.action.Transfer?
  {
    var from := op.action.from;
    PlanSpend(ProverOf(env), net, from,
              AssembleTransfer(env, net.verifiers, AvailabilityOf(w.notes), w.leafRows, from, op.token,
                               op.action.entries, op.randoms, op.txId),
              op.ivs)
  }

  function PlanUnshield(env: Env, net: Network, w: World, op: Op): Option<Plan>
    requires Fits(op.token, 20) && SortedByCreated(w.leafRows) && op.action.Unshield?
  {
    var from := op.action.from;
    PlanSpend(ProverOf(env), net, from,
              AssembleUnshield(env, net.verifiers, AvailabilityOf(w.notes), w.leafRows, from, op.token,
                               FromBE(op.action.recipient), op.action.amount, op.randoms(0), op.txId),
              op.ivs)
  }

  function PlanShield(env: Env, net: Network, w: World, op: Op): Option<Plan>
    requires SortedByCreated(w.leafRows) && op.action.Shield?
  {
    match AssembleShield(net.verifiers, w.leafRows, op.action.to, op.token, op.action.amount, op.randoms(0))
    case None => None
    case Some(o) => Some(Plan([o], Some(ShieldCall(PrepareShield(env.H, o.note, op.txId)))))
  }

  function PlanOf(env: Env, net: Network, w: World, op: Op): Option<Plan>
    requires Fits(op.token, 20) && SortedByCreated(w.leafRows)
  {
    match op.action
    case Shield(_, _) => PlanShield(env, net, w, op)
    case Transfer(_, _) => PlanTransfer(env, net, w, op)
    case Unshield(_, _, _) => PlanUnshield(env, net, w, op)
  }

  function Pending(env: Env, net: Network, outs: seq<OutNote>, created: int): (r: seq<StoredNote>)
    ensures |r| == |outs| && forall j :: 0 <= j < |outs| ==> r[j] == MakeNoteState(env, net, outs[j], created)
  {
    seq(|outs|, j requires 0 <= j < |outs| => MakeNoteState(env, net, outs[j], created))
  }

  function Written(env: Env, net: Network, w: World, outs: seq<OutNote>, created: int): World
  {
    w.(notes := w.notes + Pending(env, net, outs, created))
  }

  /** A call that reached the contract: the chain after it, and what its events amount to. */
  datatype Landed = Landed(chain: Chain, updates: Events.Updates)

  function Land(env: Env, c: Chain, call: Call, op: Op): Option<Landed>
  {
    match Submit(env, c, call, op.txHash, op.nullifiedFirst)
    case None => None
    case Some(m) => Some(Landed(m.chain, Events.BatchUpdates(env.H, m.events)))
  }

  function LandIfMined(env: Env, c: Chain, call: Option<Call>, op: Op): Option<Landed>
  {
    if op.mined && call.Some? then Land(env, c, call.value, op) else None
  }

  /** The output states are written when the operation is assembled; the call may be lost. */
  function After(env: Env, net: Network, w: World, op: Op, outs: seq<OutNote>, landed: Option<Landed>): World
  {
    var written := Written(env, net, w, outs, op.noteStamp);
    match landed
    case None => written
    case Some(l) => Replay(written, l.chain, l.updates, op.leafStamps)
  }

  function Step(env: Env, net: Network, w: World, op: Op): World
    requires Fits(op.token, 20) && SortedByCreated(w.leafRows)
  {
    match PlanOf(env, net, w, op)
    case None => w
    case Some(plan) => After(env, net, w, op, plan.outs, LandIfMined(env, w.chain, plan.call, op))
  }

  // ---------------------------------------------------------------------------
  // What is assumed of operations and parties
  // ---------------------------------------------------------------------------

  /** What parameter validation lets through. */
  predicate ValidAction(a: Action)
  {
    match a
    case Shield(to, amount) => to != "" && amount > 0
    case Transfer(from, entries) => ValidTransfers(entries)
    case Unshield(from, recipient, amount) => |recipient| == 20 && amount > 0
  }

  /** At most how many notes it creates. */
  function NotesCreated(a: Action): nat
  {
    if a.Transfer? then |a.entries| + 1 else 1
  }

  ghost predicate FreshRandoms(notes: seq<StoredNote>, randoms: nat -> nat, count: nat)
  {
    && (forall i: nat, j: nat :: i < j < count ==> randoms(i) != randoms(j))
    && (forall i: nat, k: nat :: i < |notes| && k < count ==> notes[i].note.random != randoms(k))
  }

  ghost predicate Paired(env: Env, net: Network)
  {
    "" !in net.wallets && forall l: string :: l in net.wallets ==> KeyPair(env.signer, net.wallets[l])
  }

  /** Every party's address is its own wallet's, and its keys are a pair. */
  ghost predicate WellConnected(env: Env, net: Network)
  {
    && Paired(env, net) && net.verifiers.Keys == net.wallets.Keys
    && forall l: string :: l in net.wallets ==>
      ResolveParty(net.verifiers, l).Some?
        && ResolveParty(net.verifiers, l).value.mpk == MasterPublicKey(env.H, net.wallets[l])
  }

  /** Stamps that let the leaf store be paged without loss. */
  ghost predicate Timely(rows: seq<TreeLoading.LeafRow>)
  {
    SortedByCreated(rows) && PositiveStamps(rows) && TreeLoading.NoTieAcrossPages(rows)
  }

  /** The tree is not full, and its root is a field element. */
  ghost predicate TreeOk(env: Env, c: Chain)
  {
    |c.leaves| <= 65536 && TreeRoot(env.H, env.zero, c.leaves) < SNARK_SCALAR_FIELD
  }

  ghost predicate OrderedAt(notes: seq<StoredNote>, i: int, j: int)
  {
    0 <= i < j < |notes| ==> notes[i].created <= notes[j].created
  }

  ghost predicate InOrder(notes: seq<StoredNote>)
  {
    forall i, j :: OrderedAt(notes, i, j)
  }

  /** The next operation of a sequential run: valid, with fresh randomness, and stamped later
    * than everything before it. */
  ghost predicate OpOk(w: World, op: Op)
  {
    && Fits(op.token, 20) && ValidAction(op.action)
    && FreshRandoms(w.notes, op.randoms, NotesCreated(op.action))
    && op.noteStamp > 0 && (forall i :: 0 <= i < |w.notes| ==> w.notes[i].created <= op.noteStamp)
  }

  /** What the environment grants a world: well-stamped leaf rows, and one tree that is not
    * overfull. */
  ghost predicate Granted(env: Env, w: World)
  {
    Timely(w.leafRows) && TreeOk(env, w.chain)
  }

  // ---------------------------------------------------------------------------
  // The invariant
  // ---------------------------------------------------------------------------

  /** A stored note is what its id says; its nullifier is its owner's. */
  ghost predicate Genuine(env: Env, net: Network, n: StoredNote)
  {
    && n.id == NoteHash(env.H, n.note)
    && (n.lookup == "" ==> n.nullifier.None?)
    && (n.lookup != "" ==>
         && n.lookup in net.wallets
         && n.note.owner == MasterPublicKey(env.H, net.wallets[n.lookup])
         && n.nullifier == Some(ComputeNullifier(env.H, net.wallets[n.lookup], n.note.leafIndex)))
  }

  /** A confirmed note stands in the tree at its stored, predicted index, and is marked spent
    * exactly when its nullifier is on the chain. */
  ghost predicate Placed(c: Chain, n: StoredNote)
  {
    n.confirmed ==>
      && n.note.leafIndex < |c.leaves| && c.leaves[n.note.leafIndex] == n.id
      && n.note.value < VALUE_BOUND
      && (n.nullifier.Some? ==> (n.spent <==> n.nullifier.value in c.nullifiers))
      && (n.nullifier.None? ==> !n.spent)
  }

  ghost predicate DifferAt(notes: seq<StoredNote>, i: int, j: int)
  {
    0 <= i < j < |notes| ==> notes[i].id != notes[j].id
  }

  ghost predicate DistinctIds(notes: seq<StoredNote>)
  {
    forall i, j :: DifferAt(notes, i, j)
  }

  lemma {:induction false} IdFixesNote(notes: seq<StoredNote>, i: nat, j: nat)
    requires DistinctIds(notes) && i < |notes| && j < |notes| && notes[i].id == notes[j].id
    ensures i == j
  {
    assert DifferAt(notes, i, j) && DifferAt(notes, j, i);
  }

  ghost predicate NullifierWithin(H: Hash, c: Chain, n: nat)
  {
    exists key: nat, i: nat :: i < |c.leaves| && n == Nullifier(H, key, i)
  }

  /** What a note counts for, in the total of `token` not yet spent. */
  function Worth(n: StoredNote, token: nat): nat
  {
    if n.confirmed && !n.spent && n.note.token == token then n.note.value else 0
  }

  function Worths(notes: seq<StoredNote>, token: nat): (r: seq<nat>)
    ensures |r| == |notes| && forall i :: 0 <= i < |notes| ==> r[i] == Worth(notes[i], token)
  {
    seq(|notes|, i requires 0 <= i < |notes| => Worth(notes[i], token))
  }

  /** The value of all unspent notes of `token`, external owners' included. */
  function Unspent(notes: seq<StoredNote>, token: nat): nat
  {
    Sum(Worths(notes, token))
  }

  /** The node's record of the tree is complete, and pages without loss. */
  ghost predicate RecordsTree(env: Env, w: World)
  {
    && Timely(w.leafRows) && TreeLoading.RecordsChain(w.leafRows, w.chain.leaves)
    && TreeOk(env, w.chain) && TreeRoot(env.H, env.zero, w.chain.leaves) in w.chain.roots
  }

  ghost predicate NotesKept(env: Env, net: Network, w: World)
  {
    && (forall i :: 0 <= i < |w.notes| ==>
        Genuine(env, net, w.notes[i]) && Placed(w.chain, w.notes[i]) && w.notes[i].created > 0)
    && DistinctIds(w.notes) && InOrder(w.notes)
  }

  ghost predicate NullifiersWithin(H: Hash, c: Chain)
  {
    forall n: nat :: n in c.nullifiers ==> NullifierWithin(H, c, n)
  }

  /** The row records this note's leaf, under the id of its position and commitment. */
  ghost predicate NamedAfter(H: Hash, n: StoredNote, row: TreeLoading.LeafRow)
  {
    && row.data.Some? && row.data.value.commitment == n.id
    && row.id == Events.LeafStateId(H, row.data.value.leafIndex, n.id)
  }

  ghost predicate RowNamed(H: Hash, notes: seq<StoredNote>, row: TreeLoading.LeafRow)
  {
    exists k: nat :: k < |notes| && NamedAfter(H, notes[k], row)
  }

  ghost predicate RowsNamed(H: Hash, notes: seq<StoredNote>, rows: seq<TreeLoading.LeafRow>)
  {
    forall i {:trigger RowNamed(H, notes, rows[i])} :: 0 <= i < |rows| ==> RowNamed(H, notes, rows[i])
  }

  /** Token by token, the unspent notes are worth what the contract holds. */
  ghost predicate Conserved(w: World)
  {
    forall token: nat :: Unspent(w.notes, token) == Held(w.chain.flows, token)
  }

  ghost predicate Inv(env: Env, net: Network, w: World)
  {
    && RecordsTree(env, w) && NotesKept(env, net, w) && NullifiersWithin(env.H, w.chain) && Conserved(w)
    && RowsNamed(env.H, w.notes, w.leafRows)
  }

  /** The empty ledger. */
  function Genesis(env: Env): World
  {
    World(Chain([], {TreeRoot(env.H, env.zero, [])}, {}, []), [], [])
  }

  lemma {:induction false} GenesisOk(env: Env, net: Network)
    requires TreeRoot(env.H, env.zero, []) < SNARK_SCALAR_FIELD
    ensures Inv(env, net, Genesis(env))
  {
    EmptyOk(env, net, Genesis(env));
  }

  lemma {:induction false} EmptyOk(env: Env, net: Network, w: World)
    requires w.chain.leaves == [] && w.chain.nullifiers == {} && w.chain.flows == []
    requires w.notes == [] && w.leafRows == []
    requires TreeRoot(env.H, env.zero, w.chain.leaves) in w.chain.roots
    requires TreeRoot(env.H, env.zero, w.chain.leaves) < SNARK_SCALAR_FIELD
    ensures Inv(env, net, w)
  {
    forall token: nat ensures Unspent(w.notes, token) == Held(w.chain.flows, token) {
      assert Worths(w.notes, token) == [];
    }
  }

  /** In a kept world, `loadTree` gives the chain's leaves exactly. */
  lemma {:induction false} LoadsTheTree(env: Env, w: World)
    requires RecordsTree(env, w)
    ensures TreeLoading.LoadedLeaves(w.leafRows) == Some(w.chain.leaves)
  {
    TreeLoading.LoadsChainExactly(w.leafRows, w.chain.leaves);
  }

  /** And the stored states serve the queries of the handlers: sorted, with positive stamps. */
  lemma {:induction false} StoresServe(env: Env, net: Network, w: World, mpk: nat)
    requires NotesKept(env, net, w)
    ensures SortedByCreated(Available(w.notes, mpk)) && PositiveStamps(Available(w.notes, mpk))
  {
    var at, rows := AvailableAt(w.notes, mpk), Available(w.notes, mpk);
    forall i, j | 0 <= i < j < |rows| ensures rows[i].created <= rows[j].created {
      assert Below(at, i, j) && OrderedAt(w.notes, at[i], at[j]);
    }
  }

  /** So the imperative handlers, on honest queries over these states, compute what `PlanOf`
    * says. */
  lemma {:induction false} HandlersServed(env: Env, net: Network, w: World, noteQuery: nat -> Query<Note>,
                                          leafQuery: Query<TreeLoading.TreeLeaf>)
    requires Inv(env, net, w)
    requires forall mpk: nat :: Honest(noteQuery(mpk), Available(w.notes, mpk), NoteSelection.PAGE)
    requires Honest(leafQuery, w.leafRows, TreeLoading.LEAF_PAGE)
    ensures Stores(noteQuery, leafQuery, AvailabilityOf(w.notes), w.leafRows)
  {
    forall mpk: nat
      ensures Honest(noteQuery(mpk), AvailabilityOf(w.notes)(mpk), NoteSelection.PAGE)
      ensures SortedByCreated(AvailabilityOf(w.notes)(mpk)) && PositiveStamps(AvailabilityOf(w.notes)(mpk))
    {
      StoresServe(env, net, w, mpk);
    }
  }
}
