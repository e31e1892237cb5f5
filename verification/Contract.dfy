/** The Railgun contract, as the domain's environment: it checks and applies shield and
  * transact calls, and emits the events of internal/railgun/events.go.
  *
  * One tree, no fees.  `flows` records the ERC-20 transfers into and out of the contract. */
module Contract {
  import opened Notes
  import opened Wrappers
  import opened JoinSplit
  import opened Fields
  import opened Proving
  import opened Assembly
  import opened Events

  datatype Flow = Deposited(token: nat, value: nat) | Withdrawn(token: nat, value: nat)

  datatype Chain = Chain(leaves: seq<nat>, roots: set<nat>, nullifiers: set<nat>, flows: seq<Flow>)

  datatype Call = ShieldCall(request: ShieldRequest) | TransactCall(tx: Transaction)

  /** An accepted call: the chain after it, and its events. */
  datatype Mined = Mined(chain: Chain, events: seq<Event>)

  /** What the contract holds of `token`. */
  function Held(flows: seq<Flow>, token: nat): int
  {
    if flows == [] then 0
    else
      var f := flows[|flows| - 1];
      Held(flows[..|flows| - 1], token)
        + (if f.token != token then 0 else if f.Deposited? then f.value else -(f.value as int))
  }

  lemma {:induction false} HeldAfter(flows: seq<Flow>, f: Flow, token: nat)
    ensures Held(flows + [f], token)
         == Held(flows, token)
           + (if f.token != token then 0 else if f.Deposited? then f.value as int else -(f.value as int))
  {
    assert (flows + [f])[..|flows|] == flows;
  }

  function Grow(env: Env, c: Chain, commitments: seq<nat>): Chain
  {
    var leaves := c.leaves + commitments;
    c.(leaves := leaves, roots := c.roots + {TreeRoot(env.H, env.zero, leaves)})
  }

  // ---------------------------------------------------------------------------
  // Shield
  // ---------------------------------------------------------------------------

  /** The leaf of a preimage, as the contract computes it. */
  function LeafOf(H: Hash, pre: Preimage): nat
  {
    H([pre.npk, pre.token, pre.value])
  }

  /** Values are 120 bits wide. */
  function SubmitShield(env: Env, c: Chain, r: ShieldRequest, txHash: string): Option<Mined>
  {
    var pre := r.preimage;
    if pre.value == 0 || pre.value >= VALUE_BOUND then None
    else
      var after := Grow(env, c, [LeafOf(env.H, pre)]);
      Some(Mined(after.(flows := c.flows + [Deposited(pre.token, pre.value)]),
                 [Shield(txHash, |c.leaves|, [pre], [r.shieldKey])]))
  }

  // ---------------------------------------------------------------------------
  // Transact
  // ---------------------------------------------------------------------------

  /** The transaction is for this chain, and its proof holds of its own public signals. */
  predicate ProofChecks(env: Env, tx: Transaction)
  {
    && tx.boundParams.chainID == env.chainID && Satisfies(env.H, env.signer, tx.proof)
    && tx.proof.merkleRoot == tx.merkleRoot
    && tx.proof.boundParamsHash == Reduce(env.boundHash(tx.boundParams))
    && tx.proof.nullifiers == tx.nullifiers
    && tx.proof.commitmentsOut == tx.commitments
  }

  /** One ciphertext per commitment, minus the withdrawal. */
  predicate CountsCheck(tx: Transaction)
  {
    |tx.commitments| == |tx.boundParams.ciphertexts| + (if tx.boundParams.unshield then 1 else 0)
  }

  /** The withdrawal a preimage stands for, read as the contract reads it. */
  function PreimageOf(pre: UnshieldPreimage): Option<Preimage>
  {
    match (DecodeNat(pre.tokenAddress), DecodeNat(pre.noteValue))
    case (Some(token), Some(value)) => Some(Preimage(DecValue(pre.npk), token, value))
    case _ => None
  }

  predicate PreimageChecks(H: Hash, tx: Transaction)
  {
    tx.boundParams.unshield ==>
      && tx.commitments != [] && tx.unshieldPreimage.Some? && PreimageOf(tx.unshieldPreimage.value).Some?
      && LeafOf(H, PreimageOf(tx.unshieldPreimage.value).value) == tx.commitments[|tx.commitments| - 1]
  }

  predicate Apart(ns: seq<nat>, i: int, j: int)
  {
    0 <= i < j < |ns| ==> ns[i] != ns[j]
  }

  predicate Distinct(ns: seq<nat>)
  {
    forall i, j {:trigger Apart(ns, i, j)} :: 0 <= i < j < |ns| ==> Apart(ns, i, j)
  }

  predicate Fresh(ns: seq<nat>, used: set<nat>)
  {
    forall i :: 0 <= i < |ns| ==> ns[i] !in used
  }

  predicate Accepts(env: Env, c: Chain, tx: Transaction)
  {
    && tx.merkleRoot in c.roots && ProofChecks(env, tx) && CountsCheck(tx) && PreimageChecks(env.H, tx)
    && Distinct(tx.nullifiers) && Fresh(tx.nullifiers, c.nullifiers)
  }

  function SetOf(ns: seq<nat>): (s: set<nat>)
    ensures forall n: nat :: n in s <==> n in ns
  {
    set n | n in ns
  }

  function Annotations(cts: seq<CommitmentCiphertext>): (r: seq<TxId>)
    ensures |r| == |cts| && forall i :: 0 <= i < |cts| ==> r[i] == cts[i].annotationData
  {
    seq(|cts|, i requires 0 <= i < |cts| => cts[i].annotationData)
  }

  function Withdrawal(env: Env, tx: Transaction): Option<Preimage>
    requires PreimageChecks(env.H, tx)
  {
    if tx.boundParams.unshield then PreimageOf(tx.unshieldPreimage.value) else None
  }

  /** The events of a transaction that spends `ns` and appends `hashes` at `start`; where the
    * Nullified event stands is left open. */
  function TransactEvents(txHash: string, start: nat, hashes: seq<nat>, annotations: seq<TxId>, ns: seq<nat>,
                          withdrawal: Option<Preimage>, nullifiedFirst: bool): seq<Event>
  {
    var spent := [Nullified(txHash, ns)];
    var unshield := if withdrawal.Some?
      then [Unshield(txHash, withdrawal.value.npk, withdrawal.value.token, withdrawal.value.value)] else [];
    var rest := unshield + [Transact(txHash, start, hashes, annotations)];
    if nullifiedFirst then spent + rest else rest + spent
  }

  /** Appends the first commitments, as many as there are ciphertexts. */
  function SubmitTransact(env: Env, c: Chain, tx: Transaction, txHash: string, nullifiedFirst: bool): Option<Mined>
  {
    if !Accepts(env, c, tx) then None
    else
      var hashes := tx.commitments[..|tx.boundParams.ciphertexts|];
      var out := Withdrawal(env, tx);
      var flows := if out.Some? then c.flows + [Withdrawn(out.value.token, out.value.value)] else c.flows;
      Some(Mined(Grow(env, c, hashes).(nullifiers := c.nullifiers + SetOf(tx.nullifiers), flows := flows),
                 TransactEvents(txHash, |c.leaves|, hashes, Annotations(tx.boundParams.ciphertexts), tx.nullifiers, out,
                                nullifiedFirst)))
  }

  function Submit(env: Env, c: Chain, call: Call, txHash: string, nullifiedFirst: bool): Option<Mined>
  {
    match call
    case ShieldCall(r) => SubmitShield(env, c, r, txHash)
    case TransactCall(tx) => SubmitTransact(env, c, tx, txHash, nullifiedFirst)
  }

  // ---------------------------------------------------------------------------
  // What the domain makes of the events
  // ---------------------------------------------------------------------------

  /** The updates for a transaction with id `t`, wherever its Nullified event stands. */
  function CallUpdates(H: Hash, t: TxId, txHash: string, start: nat, hashes: seq<nat>, ns: seq<nat>): Updates
  {
    var u := LeafUpdates(H, t, start, hashes);
    Updates(u.confirmed, u.newLeaves, SpentUpdates(t, ns), if t == "" then [] else [Completed(t, txHash)])
  }

  lemma {:induction false} ShieldReplayed(env: Env, c: Chain, r: ShieldRequest, txHash: string)
    requires SubmitShield(env, c, r, txHash).Some?
    ensures BatchUpdates(env.H, SubmitShield(env, c, r, txHash).value.events)
         == CallUpdates(env.H, r.shieldKey, txHash, |c.leaves|, [PreimageHash(env.H, r.preimage)], [])
  {
    var ev := Shield(txHash, |c.leaves|, [r.preimage], [r.shieldKey]);
    CorrelatedAnywhere([ev], txHash, r.shieldKey) by { assert [ev][0] == ev; }
    OneEvent(env.H, Correlation([ev]), ev);
    HashesOfOne(env.H, r.preimage);
    NoSpendsInLeaves(env.H, r.shieldKey, |c.leaves|, [PreimageHash(env.H, r.preimage)]);
  }

  lemma {:induction false} HashesOfOne(H: Hash, pre: Preimage)
    ensures Hashes(H, [pre]) == [PreimageHash(H, pre)]
  {
    assert [pre][..0] == [];
    assert Hashes(H, []) == [];
  }

  lemma {:induction false} TransactReplayed(H: Hash, txHash: string, start: nat, hashes: seq<nat>,
                                            annotations: seq<TxId>, ns: seq<nat>, withdrawal: Option<Preimage>,
                                            nullifiedFirst: bool, t: TxId)
    requires annotations != [] && annotations[0] == t
    ensures BatchUpdates(H, TransactEvents(txHash, start, hashes, annotations, ns, withdrawal, nullifiedFirst))
         == CallUpdates(H, t, txHash, start, hashes, ns)
  {
    var spent, transact := Nullified(txHash, ns), Transact(txHash, start, hashes, annotations);
    var unshield := if withdrawal.Some?
      then [Unshield(txHash, withdrawal.value.npk, withdrawal.value.token, withdrawal.value.value)] else [];
    var m := Correlation(TransactEvents(txHash, start, hashes, annotations, ns, withdrawal, nullifiedFirst));
    TransactTagged(txHash, start, hashes, annotations, ns, withdrawal, nullifiedFirst, t);
    EitherOrder(H, m, spent, unshield, transact, nullifiedFirst);
    TaggedUpdates(H, m, t, txHash, start, hashes, annotations, ns);
    ReplayedParts(H, t, txHash, start, hashes, ns);
  }

  lemma {:induction false} TaggedUpdates(H: Hash, m: map<string, TxId>, t: TxId, txHash: string, start: nat,
                                         hashes: seq<nat>, annotations: seq<TxId>, ns: seq<nat>)
    requires TxIdFor(m, txHash) == t
    ensures EventUpdates(H, Nullified(txHash, ns), TxIdFor(m, Nullified(txHash, ns).txHash))
      == Updates([], [], SpentUpdates(t, ns), [])
    ensures EventUpdates(H, Transact(txHash, start, hashes, annotations),
                         TxIdFor(m, Transact(txHash, start, hashes, annotations).txHash))
         == LeafUpdates(H, t, start, hashes).Then(CompleteUpdates(t, txHash))
  {
  }

  lemma {:induction false} TransactTagged(txHash: string, start: nat, hashes: seq<nat>, annotations: seq<TxId>,
                                          ns: seq<nat>, withdrawal: Option<Preimage>, nullifiedFirst: bool, t: TxId)
    requires annotations != [] && annotations[0] == t
    ensures TxIdFor(Correlation(TransactEvents(txHash, start, hashes, annotations, ns, withdrawal, nullifiedFirst)),
                    txHash) == t
  {
    var evs := TransactEvents(txHash, start, hashes, annotations, ns, withdrawal, nullifiedFirst);
    var k := if nullifiedFirst then |evs| - 1 else |evs| - 2;
    assert evs[k] == Transact(txHash, start, hashes, annotations);
    AllTagged(evs, txHash, evs[k], t);
  }

  lemma {:induction false} EitherOrder(H: Hash, m: map<string, TxId>, spent: Event, unshield: seq<Event>,
                                       transact: Event, nullifiedFirst: bool)
    requires |unshield| <= 1 && forall i :: 0 <= i < |unshield| ==> unshield[i].Unshield?
    ensures var s, r := EventUpdates(H, spent, TxIdFor(m, spent.txHash)),
      EventUpdates(H, transact, TxIdFor(m, transact.txHash));
      UpdatesWith(H, m, if nullifiedFirst then [spent] + (unshield + [transact]) else unshield + [transact] + [spent])
        == if nullifiedFirst then s.Then(r) else r.Then(s)
  {
    OneEvent(H, m, spent);
    OneEvent(H, m, transact);
    RestUpdates(H, m, unshield, transact);
    if nullifiedFirst {
      UpdatesAppend(H, m, [spent], unshield + [transact]);
    } else {
      UpdatesAppend(H, m, unshield + [transact], [spent]);
    }
  }

  lemma {:induction false} ReplayedParts(H: Hash, t: TxId, txHash: string, start: nat, hashes: seq<nat>, ns: seq<nat>)
    ensures var s, r := Updates([], [], SpentUpdates(t, ns), []),
      LeafUpdates(H, t, start, hashes).Then(CompleteUpdates(t, txHash));
      s.Then(r) == r.Then(s) == CallUpdates(H, t, txHash, start, hashes, ns)
  {
    NoSpendsInLeaves(H, t, start, hashes);
    SpendsApart(LeafUpdates(H, t, start, hashes), SpentUpdates(t, ns), CompleteUpdates(t, txHash).completed);
  }

  lemma {:induction false} SpendsApart(l: Updates, spent: seq<StateUpdate>, completed: seq<Completed>)
    requires l.spent == [] && l.completed == []
    ensures var s, r := Updates([], [], spent, []), l.Then(Updates([], [], [], completed));
      s.Then(r) == r.Then(s) == Updates(l.confirmed, l.newLeaves, spent, completed)
  {
  }

  lemma {:induction false} AllTagged(evs: seq<Event>, txHash: string, transact: Event, t: TxId)
    requires transact in evs && transact.txHash == txHash && TagOf(transact) == Some(t)
    requires forall i :: 0 <= i < |evs| && TagOf(evs[i]).Some? ==> TagOf(evs[i]) == Some(t)
    ensures TxIdFor(Correlation(evs), txHash) == t
  {
    CorrelatedAnywhere(evs, txHash, t);
  }

  lemma {:induction false} RestUpdates(H: Hash, m: map<string, TxId>, unshield: seq<Event>, transact: Event)
    requires |unshield| <= 1 && forall i :: 0 <= i < |unshield| ==> unshield[i].Unshield?
    ensures UpdatesWith(H, m, unshield + [transact]) == UpdatesWith(H, m, [transact])
  {
    if unshield == [] {
      assert unshield + [transact] == [transact];
    } else {
      var ev := unshield[0];
      assert unshield == [ev];
      OneEvent(H, m, ev);
      UpdatesAppend(H, m, [ev], [transact]);
      ThenAssociates(UpdatesWith(H, m, [transact]), NOTHING, NOTHING);
    }
  }

  /** With a shield fee, the event's preimage has the value less the fee: the leaf it hashes
    * to is the stored note's id exactly when the fee is zero. */
  lemma {:induction false} ShieldedIdIffNoFee(H: Hash, n: Note, fee: nat)
    requires Injective(H) && fee <= n.value
    ensures PreimageHash(H, Preimage(NotePublicKey(H, n.owner, n.random), n.token, n.value - fee)) == NoteHash(H, n)
      <==> fee == 0
  {
    var paid := n.(value := n.value - fee);
    if NoteHash(H, paid) == NoteHash(H, n) {
      CommitmentOpensOneWay(H, paid, n);
    }
  }
}
