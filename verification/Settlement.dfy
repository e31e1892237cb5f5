/** What writing an operation's states, and then mining it, does to the ledger: both keep the
  * invariant.  Nothing here depends on which operation it is. */
module Settlement {
  import opened Notes
  import opened Wrappers
  import opened Paging
  import opened JoinSplit
  import opened Proving
  import opened Assembly
  import opened Contract
  import opened Ledger
  import Events
  import TreeLoading

  // ---------------------------------------------------------------------------
  // Sums
  // ---------------------------------------------------------------------------

  function Pick(vs: seq<nat>, at: seq<nat>): (r: seq<nat>)
    requires forall k :: 0 <= k < |at| ==> at[k] < |vs|
    ensures |r| == |at| && forall k :: 0 <= k < |at| ==> r[k] == vs[at[k]]
  {
    seq(|at|, k requires 0 <= k < |at| => vs[at[k]])
  }

  lemma {:induction false} IncreasingInit(at: seq<nat>)
    requires Increasing(at) && at != []
    ensures Increasing(at[..|at| - 1])
  {
    var init := at[..|at| - 1];
    forall k, l ensures Below(init, k, l) {
      assert Below(at, k, l);
    }
  }

  ghost predicate Zeroed(vs: seq<nat>, at: seq<nat>, kept: seq<nat>)
  {
    && |kept| == |vs| && Increasing(at) && (forall k :: 0 <= k < |at| ==> at[k] < |vs| && kept[at[k]] == 0)
    && forall i: nat :: i < |vs| && i !in at ==> kept[i] == vs[i]
  }

  /** Zeroing some entries takes their sum off the total. */
  lemma {:induction false} SumWithout(vs: seq<nat>, at: seq<nat>, kept: seq<nat>)
    requires Zeroed(vs, at, kept)
    ensures Sum(kept) + Sum(Pick(vs, at)) == Sum(vs)
  {
    if vs == [] {
      assert at == [] by { if at != [] { assert false; } }
    } else {
      var n := |vs| - 1;
      if at != [] && at[|at| - 1] == n {
        var m := |at| - 1;
        LastZeroed(vs, at, kept);
        SumWithout(vs[..n], at[..m], kept[..n]);
        assert Pick(vs, at)[..m] == Pick(vs[..n], at[..m]);
      } else {
        LastKept(vs, at, kept);
        SumWithout(vs[..n], at, kept[..n]);
        assert Pick(vs, at) == Pick(vs[..n], at);
      }
    }
  }

  lemma {:induction false} LastZeroed(vs: seq<nat>, at: seq<nat>, kept: seq<nat>)
    requires Zeroed(vs, at, kept) && vs != [] && at != [] && at[|at| - 1] == |vs| - 1
    ensures Zeroed(vs[..|vs| - 1], at[..|at| - 1], kept[..|vs| - 1])
  {
    var n, m := |vs| - 1, |at| - 1;
    IncreasingInit(at);
    forall k | 0 <= k < m ensures at[k] < n {
      assert Below(at, k, m);
    }
    forall i: nat | i < n && i !in at[..m] ensures i !in at {
      assert at == at[..m] + [n];
    }
  }

  lemma {:induction false} LastKept(vs: seq<nat>, at: seq<nat>, kept: seq<nat>)
    requires Zeroed(vs, at, kept) && vs != [] && (at == [] || at[|at| - 1] != |vs| - 1)
    ensures Zeroed(vs[..|vs| - 1], at, kept[..|vs| - 1]) && kept[|vs| - 1] == vs[|vs| - 1]
  {
    var n := |vs| - 1;
    forall k | 0 <= k < |at| ensures at[k] < n {
      assert Below(at, k, |at| - 1);
    }
    assert n !in at;
  }

  lemma {:induction false} SumZeros(vs: seq<nat>)
    requires forall i :: 0 <= i < |vs| ==> vs[i] == 0
    ensures Sum(vs) == 0
  {
    if vs != [] {
      SumZeros(vs[..|vs| - 1]);
    }
  }

  // ---------------------------------------------------------------------------
  // Writing the states
  // ---------------------------------------------------------------------------

  /** Outputs with random values used nowhere else, for parties or external owners. */
  ghost predicate NewOuts(env: Env, net: Network, notes: seq<StoredNote>, outs: seq<OutNote>)
  {
    && (forall j :: 0 <= j < |outs| ==> Addressed(env, net, outs[j]))
    && (forall j, k :: 0 <= j < k < |outs| ==> outs[j].note.random != outs[k].note.random)
    && (forall i, j :: 0 <= i < |notes| && 0 <= j < |outs| ==> notes[i].note.random != outs[j].note.random)
  }

  ghost predicate Addressed(env: Env, net: Network, o: OutNote)
  {
    o.lookup != "" ==> o.lookup in net.wallets && o.note.owner == MasterPublicKey(env.H, net.wallets[o.lookup])
  }

  lemma {:induction false} WrittenIds(env: Env, net: Network, w: World, outs: seq<OutNote>, created: int)
    requires Injective(env.H) && NotesKept(env, net, w) && NewOuts(env, net, w.notes, outs)
    ensures DistinctIds(Written(env, net, w, outs, created).notes)
  {
    var notes := Written(env, net, w, outs, created).notes;
    forall i, j ensures DifferAt(notes, i, j) {
      if 0 <= i < j < |notes| {
        assert DifferAt(w.notes, i, j);
        assert notes[i].id == NoteHash(env.H, notes[i].note) && notes[j].id == NoteHash(env.H, notes[j].note);
        if notes[i].id == notes[j].id {
          CommitmentOpensOneWay(env.H, notes[i].note, notes[j].note);
        }
      }
    }
  }

  lemma {:induction false} WrittenInOrder(env: Env, net: Network, w: World, outs: seq<OutNote>, created: int)
    requires InOrder(w.notes) && forall i :: 0 <= i < |w.notes| ==> w.notes[i].created <= created
    ensures InOrder(Written(env, net, w, outs, created).notes)
  {
    var notes := Written(env, net, w, outs, created).notes;
    forall i, j ensures OrderedAt(notes, i, j) {
      assert OrderedAt(w.notes, i, j);
    }
  }

  /** Pending states are worth nothing until confirmed. */
  lemma {:induction false} WrittenWorth(env: Env, net: Network, w: World, outs: seq<OutNote>, created: int, token: nat)
    ensures Unspent(Written(env, net, w, outs, created).notes, token) == Unspent(w.notes, token)
  {
    var pending := Pending(env, net, outs, created);
    assert Worths(w.notes + pending, token) == Worths(w.notes, token) + Worths(pending, token);
    SumAppends(Worths(w.notes, token), Worths(pending, token));
    SumZeros(Worths(pending, token));
  }

  /** Writing the states of an operation keeps the invariant: this is all that happens when
    * its call is never mined, so a dropped transaction leaves only pending states. */
  lemma {:induction false} WritingKeeps(env: Env, net: Network, w: World, outs: seq<OutNote>, created: int)
    requires Injective(env.H) && Inv(env, net, w) && NewOuts(env, net, w.notes, outs)
    requires created > 0 && forall i :: 0 <= i < |w.notes| ==> w.notes[i].created <= created
    ensures Inv(env, net, Written(env, net, w, outs, created))
  {
    WrittenIds(env, net, w, outs, created);
    WrittenInOrder(env, net, w, outs, created);
    NamedRowsStay(env.H, w.notes, Written(env, net, w, outs, created).notes, w.leafRows);
    forall token: nat ensures Unspent(Written(env, net, w, outs, created).notes, token) == Held(w.chain.flows, token) {
      WrittenWorth(env, net, w, outs, created, token);
    }
  }

  // ---------------------------------------------------------------------------
  // A mined operation
  // ---------------------------------------------------------------------------

  function NullifiersAt(notes: seq<StoredNote>, at: seq<nat>): (r: seq<nat>)
    requires forall k :: 0 <= k < |at| ==> at[k] < |notes| && notes[at[k]].nullifier.Some?
    ensures |r| == |at| && forall k :: 0 <= k < |at| ==> r[k] == notes[at[k]].nullifier.value
  {
    seq(|at|, k requires 0 <= k < |at| => notes[at[k]].nullifier.value)
  }

  function IdsOf(H: Hash, outs: seq<OutNote>): (r: seq<nat>)
    ensures |r| == |outs| && forall j :: 0 <= j < |outs| ==> r[j] == NoteHash(H, outs[j].note)
  {
    seq(|outs|, j requires 0 <= j < |outs| => NoteHash(H, outs[j].note))
  }

  function OutValues(outs: seq<OutNote>): (r: seq<nat>)
    ensures |r| == |outs| && forall j :: 0 <= j < |outs| ==> r[j] == outs[j].note.value
  {
    seq(|outs|, j requires 0 <= j < |outs| => outs[j].note.value)
  }

  function ValuesAt(notes: seq<StoredNote>, at: seq<nat>): (r: seq<nat>)
    requires forall k :: 0 <= k < |at| ==> at[k] < |notes|
    ensures |r| == |at| && forall k :: 0 <= k < |at| ==> r[k] == notes[at[k]].note.value
  {
    seq(|at|, k requires 0 <= k < |at| => notes[at[k]].note.value)
  }

  /** Positions of unspent confirmed notes with a nullifier, in order. */
  ghost predicate SpendableAt(notes: seq<StoredNote>, at: seq<nat>)
  {
    && Increasing(at)
    && forall k :: 0 <= k < |at| ==>
         at[k] < |notes| && notes[at[k]].confirmed && !notes[at[k]].spent && notes[at[k]].nullifier.Some?
  }

  /** The last notes of the store are the pending states of `outs`, at the predicted
    * positions that follow the tree. */
  ghost predicate AwaitsOuts(env: Env, net: Network, w: World, outs: seq<OutNote>, created: int)
  {
    && |outs| <= |w.notes|
    && (forall i :: |w.notes| - |outs| <= i < |w.notes| ==>
        w.notes[i] == MakeNoteState(env, net, outs[i - (|w.notes| - |outs|)], created))
    && forall j :: 0 <= j < |outs| ==>
         outs[j].note.leafIndex == |w.chain.leaves| + j && outs[j].note.value < VALUE_BOUND
  }

  /** One token; what goes in equals what comes out. */
  ghost predicate Balanced(w: World, outs: seq<OutNote>, at: seq<nat>, token: nat, paidIn: nat, paidOut: nat)
    requires forall k :: 0 <= k < |at| ==> at[k] < |w.notes|
  {
    && (forall k :: 0 <= k < |at| ==> w.notes[at[k]].note.token == token)
    && (forall j :: 0 <= j < |outs| ==> outs[j].note.token == token)
    && Sum(ValuesAt(w.notes, at)) + paidIn == Sum(OutValues(outs)) + paidOut
  }

  /** The chain after: the outputs appended, the nullifiers used up, the flows recorded. */
  ghost predicate ChainAfter(env: Env, w: World, c: Chain, outs: seq<OutNote>, at: seq<nat>, token: nat, paidIn: nat,
                             paidOut: nat)
    requires SpendableAt(w.notes, at)
  {
    && c.leaves == w.chain.leaves + IdsOf(env.H, outs)
    && TreeRoot(env.H, env.zero, c.leaves) in c.roots
    && c.nullifiers == w.chain.nullifiers + SetOf(NullifiersAt(w.notes, at))
    && forall t: nat :: Held(c.flows, t) == Held(w.chain.flows, t) + (if t == token then paidIn as int - paidOut else 0)
  }

  /** The record of a leaf has the id of its position and commitment. */
  ghost predicate LeafNamed(H: Hash, l: Events.NewLeaf)
  {
    l.id == Events.LeafStateId(H, l.leaf.leafIndex, l.leaf.commitment)
  }

  ghost predicate LeavesNamed(H: Hash, ls: seq<Events.NewLeaf>)
  {
    forall j :: 0 <= j < |ls| ==> LeafNamed(H, ls[j])
  }

  /** What the updates say of it: the outputs are confirmed and recorded at the next positions,
    * the nullifiers of the notes taken are spent. */
  ghost predicate Told(env: Env, w: World, outs: seq<OutNote>, at: seq<nat>, u: Events.Updates)
    requires SpendableAt(w.notes, at)
  {
    && |u.confirmed| == |u.newLeaves| == |outs| && |u.spent| == |at|
    && (forall j :: 0 <= j < |outs| ==> u.confirmed[j].id == NoteHash(env.H, outs[j].note))
    && (forall j :: 0 <= j < |outs| ==>
        u.newLeaves[j].leaf == TreeLoading.TreeLeaf(|w.chain.leaves| + j, NoteHash(env.H, outs[j].note)))
    && forall k :: 0 <= k < |at| ==> u.spent[k].id == w.notes[at[k]].nullifier.value
  }

  /** Every record of the updates carries the id `t`, and the transaction is completed. */
  ghost predicate Attributed(u: Events.Updates, t: string, txHash: string)
  {
    && (forall i :: 0 <= i < |u.confirmed| ==> u.confirmed[i].txId == t)
    && (forall i :: 0 <= i < |u.newLeaves| ==> u.newLeaves[i].txId == t)
    && (forall i :: 0 <= i < |u.spent| ==> u.spent[i].txId == t)
    && u.completed == if t == "" then [] else [Events.Completed(t, txHash)]
  }

  /** The updates of a replayed call say just that. */
  lemma {:induction false} CallNamed(H: Hash, t: string, txHash: string, start: nat, hashes: seq<nat>, ns: seq<nat>)
    requires start + |hashes| < 0x1_0000_0000_0000_0000
    ensures LeavesNamed(H, CallUpdates(H, t, txHash, start, hashes, ns).newLeaves)
  {
    Events.LeafUpdatesAt(H, t, start, hashes);
  }

  lemma {:induction false} CallTold(env: Env, w: World, outs: seq<OutNote>, at: seq<nat>, t: string, txHash: string)
    requires SpendableAt(w.notes, at) && |w.chain.leaves| + |outs| <= 65536
    ensures var u := CallUpdates(env.H, t, txHash, |w.chain.leaves|, IdsOf(env.H, outs), NullifiersAt(w.notes, at));
      Told(env, w, outs, at, u) && Attributed(u, t, txHash)
  {
    Events.LeafUpdatesAt(env.H, t, |w.chain.leaves|, IdsOf(env.H, outs));
  }

  /** The store before and after: everything the proofs below need of the two. */
  ghost predicate Mining(env: Env, net: Network, w: World, outs: seq<OutNote>, created: int, at: seq<nat>)
  {
    && Inv(env, net, w) && AwaitsOuts(env, net, w, outs, created) && SpendableAt(w.notes, at)
    && |w.chain.leaves| + |outs| <= 65536
  }

  lemma {:induction false} SpentNamed(env: Env, w: World, outs: seq<OutNote>, at: seq<nat>, u: Events.Updates, n: nat)
    requires SpendableAt(w.notes, at) && Told(env, w, outs, at, u)
    ensures Named(u.spent, n) <==> n in NullifiersAt(w.notes, at)
  {
    var ns := NullifiersAt(w.notes, at);
    assert forall k :: 0 <= k < |ns| ==> u.spent[k].id == ns[k];
  }

  lemma {:induction false} AwaitedNote(env: Env, net: Network, w: World, outs: seq<OutNote>, created: int, j: nat)
    requires AwaitsOuts(env, net, w, outs, created) && j < |outs|
    ensures w.notes[|w.notes| - |outs| + j] == MakeNoteState(env, net, outs[j], created)
  {
  }

  lemma {:induction false} NewIsNamed(env: Env, net: Network, w: World, outs: seq<OutNote>, created: int, at: seq<nat>,
                                      u: Events.Updates, j: nat)
    requires AwaitsOuts(env, net, w, outs, created) && SpendableAt(w.notes, at) && Told(env, w, outs, at, u)
    requires j < |outs|
    ensures Named(u.confirmed, w.notes[|w.notes| - |outs| + j].id)
  {
    AwaitedNote(env, net, w, outs, created, j);
    assert u.confirmed[j].id == NoteHash(env.H, outs[j].note);
  }

  lemma {:induction false} OldNotNamed(env: Env, net: Network, w: World, outs: seq<OutNote>, created: int, at: seq<nat>,
                                       u: Events.Updates, i: nat, j: nat)
    requires AwaitsOuts(env, net, w, outs, created) && SpendableAt(w.notes, at) && Told(env, w, outs, at, u)
    requires DistinctIds(w.notes) && i < |w.notes| - |outs| && j < |outs|
    ensures u.confirmed[j].id != w.notes[i].id
  {
    AwaitedNote(env, net, w, outs, created, j);
    assert DifferAt(w.notes, i, |w.notes| - |outs| + j);
  }

  /** Exactly the new notes are confirmed. */
  lemma {:induction false} ConfirmsExactly(env: Env, net: Network, w: World, outs: seq<OutNote>, created: int,
                                           at: seq<nat>, u: Events.Updates, i: nat)
    requires AwaitsOuts(env, net, w, outs, created) && SpendableAt(w.notes, at) && Told(env, w, outs, at, u)
    requires DistinctIds(w.notes) && i < |w.notes|
    ensures Named(u.confirmed, w.notes[i].id) <==> i >= |w.notes| - |outs|
  {
    var base := |w.notes| - |outs|;
    if i >= base {
      NewIsNamed(env, net, w, outs, created, at, u, i - base);
    } else {
      forall j: nat | j < |outs| ensures u.confirmed[j].id != w.notes[i].id {
        OldNotNamed(env, net, w, outs, created, at, u, i, j);
      }
    }
  }

  /** Two notes with the same recorded nullifier were predicted at the same position. */
  lemma {:induction false} NullifierFixesIndex(env: Env, net: Network, a: StoredNote, b: StoredNote)
    requires Injective(env.H) && Genuine(env, net, a) && Genuine(env, net, b)
    requires a.nullifier.Some? && a.nullifier == b.nullifier
    ensures Uint64(a.note.leafIndex) == Uint64(b.note.leafIndex)
  {
    NullifierOpensOneWay(env.H, NullifyingKey(env.H, net.wallets[a.lookup]), Uint64(a.note.leafIndex),
                         NullifyingKey(env.H, net.wallets[b.lookup]), Uint64(b.note.leafIndex));
  }

  /** Under an injective hash, distinct confirmed notes have distinct nullifiers. */
  lemma {:induction false} NullifierIdentifies(env: Env, net: Network, w: World, i: nat, j: nat)
    requires Injective(env.H) && Inv(env, net, w) && i < |w.notes| && j < |w.notes|
    requires w.notes[i].confirmed && w.notes[j].confirmed && w.notes[i].nullifier.Some?
    requires w.notes[i].nullifier == w.notes[j].nullifier
    ensures i == j
  {
    NullifierFixesIndex(env, net, w.notes[i], w.notes[j]);
    assert w.notes[i].note.leafIndex == w.notes[j].note.leafIndex;
    assert w.notes[i].id == w.notes[j].id;
    IdFixesNote(w.notes, i, j);
  }

  /** So a transaction's nullifiers name exactly the confirmed notes it selected. */
  lemma {:induction false} SpendsExactly(env: Env, net: Network, w: World, at: seq<nat>, i: nat)
    requires Injective(env.H) && Inv(env, net, w) && SpendableAt(w.notes, at) && i < |w.notes|
    requires w.notes[i].confirmed && w.notes[i].nullifier.Some?
    ensures w.notes[i].nullifier.value in NullifiersAt(w.notes, at) <==> i in at
  {
    var ns := NullifiersAt(w.notes, at);
    if w.notes[i].nullifier.value in ns {
      var k :| 0 <= k < |ns| && ns[k] == w.notes[i].nullifier.value;
      NullifierIdentifies(env, net, w, i, at[k]);
    }
    if i in at {
      var k :| 0 <= k < |at| && at[k] == i;
      assert ns[k] == w.notes[i].nullifier.value;
    }
  }

  /** A note about to be confirmed has a nullifier no one has used. */
  lemma {:induction false} NewNullifierUnused(env: Env, net: Network, w: World, outs: seq<OutNote>, created: int,
                                              at: seq<nat>, i: nat)
    requires Injective(env.H) && Mining(env, net, w, outs, created, at)
    requires |w.notes| - |outs| <= i < |w.notes| && w.notes[i].nullifier.Some?
    ensures w.notes[i].nullifier.value !in w.chain.nullifiers
    ensures w.notes[i].nullifier.value !in NullifiersAt(w.notes, at)
  {
    var n, ns := w.notes[i], NullifiersAt(w.notes, at);
    var j := i - (|w.notes| - |outs|);
    assert n == MakeNoteState(env, net, outs[j], created);
    assert n.note.leafIndex == |w.chain.leaves| + j;
    if n.nullifier.value in w.chain.nullifiers {
      assert NullifierWithin(env.H, w.chain, n.nullifier.value);
      var key: nat, l: nat :| l < |w.chain.leaves| && n.nullifier.value == Nullifier(env.H, key, l);
      NullifierOpensOneWay(env.H, NullifyingKey(env.H, net.wallets[n.lookup]), Uint64(n.note.leafIndex), key, l);
      assert false;
    }
    forall k | 0 <= k < |ns| ensures ns[k] != n.nullifier.value {
      if ns[k] == n.nullifier.value {
        NullifierFixesIndex(env, net, n, w.notes[at[k]]);
      }
    }
  }

  // ---------------------------------------------------------------------------
  // The invariant, part by part
  // ---------------------------------------------------------------------------

  lemma {:induction false} OldStaysPlaced(env: Env, net: Network, w: World, c: Chain, outs: seq<OutNote>, created: int,
                                          at: seq<nat>, token: nat, paidIn: nat, paidOut: nat, u: Events.Updates,
                                          i: nat)
    requires Injective(env.H) && Mining(env, net, w, outs, created, at) && Told(env, w, outs, at, u)
    requires ChainAfter(env, w, c, outs, at, token, paidIn, paidOut)
    requires i < |w.notes| - |outs|
    ensures Placed(c, ApplyToNote(w.notes[i], u))
  {
    var n := w.notes[i];
    assert Placed(w.chain, n);
    ConfirmsExactly(env, net, w, outs, created, at, u, i);
    if n.nullifier.Some? {
      SpentNamed(env, w, outs, at, u, n.nullifier.value);
    }
  }

  lemma {:induction false} NewIsPlaced(env: Env, net: Network, w: World, c: Chain, outs: seq<OutNote>, created: int,
                                       at: seq<nat>, token: nat, paidIn: nat, paidOut: nat, u: Events.Updates, j: nat)
    requires Injective(env.H) && Mining(env, net, w, outs, created, at) && Told(env, w, outs, at, u)
    requires ChainAfter(env, w, c, outs, at, token, paidIn, paidOut)
    requires j < |outs|
    ensures Placed(c, ApplyToNote(w.notes[|w.notes| - |outs| + j], u))
  {
    NewNoteConfirmed(env, net, w, outs, created, at, u, j);
    AwaitedNote(env, net, w, outs, created, j);
    var n := w.notes[|w.notes| - |outs| + j];
    assert c.leaves[|w.chain.leaves| + j] == NoteHash(env.H, outs[j].note);
    if n.nullifier.Some? {
      NewNullifierUnused(env, net, w, outs, created, at, |w.notes| - |outs| + j);
    }
  }

  lemma {:induction false} AppliedKeepOrder(notes: seq<StoredNote>, u: Events.Updates)
    requires DistinctIds(notes) && InOrder(notes)
    ensures DistinctIds(ApplyToNotes(notes, u)) && InOrder(ApplyToNotes(notes, u))
  {
    var after := ApplyToNotes(notes, u);
    forall i, j ensures DifferAt(after, i, j) && OrderedAt(after, i, j) {
      assert DifferAt(notes, i, j) && OrderedAt(notes, i, j);
    }
  }

  lemma {:induction false} MinedNotesKept(env: Env, net: Network, w: World, c: Chain, outs: seq<OutNote>, created: int,
                                          at: seq<nat>, token: nat, paidIn: nat, paidOut: nat, u: Events.Updates,
                                          rows: seq<TreeLoading.LeafRow>)
    requires Injective(env.H) && Mining(env, net, w, outs, created, at) && Told(env, w, outs, at, u)
    requires ChainAfter(env, w, c, outs, at, token, paidIn, paidOut)
    ensures NotesKept(env, net, World(c, ApplyToNotes(w.notes, u), rows))
  {
    var after := ApplyToNotes(w.notes, u);
    forall i: nat | i < |w.notes| ensures Placed(c, after[i]) {
      MinedIsPlaced(env, net, w, c, outs, created, at, token, paidIn, paidOut, u, i);
    }
    AppliedKeepOrder(w.notes, u);
  }

  lemma {:induction false} MinedIsPlaced(env: Env, net: Network, w: World, c: Chain, outs: seq<OutNote>, created: int,
                                         at: seq<nat>, token: nat, paidIn: nat, paidOut: nat, u: Events.Updates, i: nat)
    requires Injective(env.H) && Mining(env, net, w, outs, created, at) && Told(env, w, outs, at, u)
    requires ChainAfter(env, w, c, outs, at, token, paidIn, paidOut)
    requires i < |w.notes|
    ensures Placed(c, ApplyToNote(w.notes[i], u))
  {
    var base := |w.notes| - |outs|;
    if i < base {
      OldStaysPlaced(env, net, w, c, outs, created, at, token, paidIn, paidOut, u, i);
    } else {
      NewIsPlaced(env, net, w, c, outs, created, at, token, paidIn, paidOut, u, i - base);
    }
  }

  lemma {:induction false} MinedNullifiersWithin(env: Env, net: Network, w: World, c: Chain, outs: seq<OutNote>,
                                                 at: seq<nat>, token: nat, paidIn: nat, paidOut: nat)
    requires Inv(env, net, w) && SpendableAt(w.notes, at) && ChainAfter(env, w, c, outs, at, token, paidIn, paidOut)
    ensures NullifiersWithin(env.H, c)
  {
    forall n: nat | n in c.nullifiers ensures NullifierWithin(env.H, c, n) {
      if n in w.chain.nullifiers {
        assert NullifierWithin(env.H, w.chain, n);
        var key: nat, l: nat :| l < |w.chain.leaves| && n == Nullifier(env.H, key, l);
        assert l < |c.leaves|;
      } else {
        var ns := NullifiersAt(w.notes, at);
        var k :| 0 <= k < |ns| && ns[k] == n;
        var s := w.notes[at[k]];
        assert Genuine(env, net, s) && Placed(w.chain, s);
        assert n == Nullifier(env.H, NullifyingKey(env.H, net.wallets[s.lookup]), s.note.leafIndex);
        assert s.note.leafIndex < |c.leaves|;
      }
    }
  }

  /** Later notes, and what is confirmed or spent of the earlier ones, do not unname a row. */
  lemma {:induction false} NamedRowsStay(H: Hash, notes: seq<StoredNote>, after: seq<StoredNote>,
                                         rows: seq<TreeLoading.LeafRow>)
    requires RowsNamed(H, notes, rows) && |notes| <= |after|
    requires forall k :: 0 <= k < |notes| ==> after[k].id == notes[k].id
    ensures RowsNamed(H, after, rows)
  {
    forall i | 0 <= i < |rows| ensures RowNamed(H, after, rows[i]) {
      assert RowNamed(H, notes, rows[i]);
      var k: nat :| k < |notes| && NamedAfter(H, notes[k], rows[i]);
      assert NamedAfter(H, after[k], rows[i]);
    }
  }

  lemma {:induction false} NamedRowsAppend(H: Hash, notes: seq<StoredNote>, rows: seq<TreeLoading.LeafRow>,
                                           added: seq<TreeLoading.LeafRow>)
    requires RowsNamed(H, notes, rows) && RowsNamed(H, notes, added)
    ensures RowsNamed(H, notes, rows + added)
  {
    forall i | 0 <= i < |rows + added| ensures RowNamed(H, notes, (rows + added)[i]) {
      if i < |rows| {
        assert RowNamed(H, notes, rows[i]);
      } else {
        assert RowNamed(H, notes, added[i - |rows|]);
      }
    }
  }

  lemma {:induction false} MinedRowsNamed(env: Env, net: Network, w: World, outs: seq<OutNote>, created: int,
                                          at: seq<nat>, u: Events.Updates, stamps: nat -> int)
    requires RowsNamed(env.H, w.notes, w.leafRows) && AwaitsOuts(env, net, w, outs, created)
    requires SpendableAt(w.notes, at) && Told(env, w, outs, at, u) && LeavesNamed(env.H, u.newLeaves)
    ensures RowsNamed(env.H, ApplyToNotes(w.notes, u), w.leafRows + LeafRows(u.newLeaves, stamps))
  {
    var after, added := ApplyToNotes(w.notes, u), LeafRows(u.newLeaves, stamps);
    NamedRowsStay(env.H, w.notes, after, w.leafRows);
    forall j: nat | j < |added| ensures RowNamed(env.H, after, added[j]) {
      NewRowNamed(env, net, w, outs, created, at, u, stamps, j);
    }
    NamedRowsAppend(env.H, after, w.leafRows, added);
  }

  lemma {:induction false} NewRowNamed(env: Env, net: Network, w: World, outs: seq<OutNote>, created: int, at: seq<nat>,
                                       u: Events.Updates, stamps: nat -> int, j: nat)
    requires AwaitsOuts(env, net, w, outs, created) && SpendableAt(w.notes, at) && Told(env, w, outs, at, u)
    requires j < |outs| && LeavesNamed(env.H, u.newLeaves)
    ensures RowNamed(env.H, ApplyToNotes(w.notes, u), LeafRows(u.newLeaves, stamps)[j])
  {
    var k: nat := |w.notes| - |outs| + j;
    AwaitedNote(env, net, w, outs, created, j);
    assert LeafNamed(env.H, u.newLeaves[j]);
    RowOfNote(env.H, ApplyToNote(w.notes[k], u), u.newLeaves[j], stamps(j));
    assert NamedAfter(env.H, ApplyToNotes(w.notes, u)[k], LeafRows(u.newLeaves, stamps)[j]);
  }

  lemma {:induction false} RowOfNote(H: Hash, n: StoredNote, l: Events.NewLeaf, stamp: int)
    requires LeafNamed(H, l) && l.leaf.commitment == n.id
    ensures NamedAfter(H, n, Row(l.id, stamp, Some(l.leaf)))
  {
  }

  /** The rows are for these leaves, at the positions after `start`. */
  ghost predicate RowsFor(added: seq<TreeLoading.LeafRow>, start: nat, ids: seq<nat>)
  {
    |added| == |ids| && forall i :: 0 <= i < |added| ==> added[i].data == Some(TreeLoading.TreeLeaf(start + i, ids[i]))
  }

  /** Rows for the next leaves, in order, extend the record of the chain. */
  lemma {:induction false} RecordsGrow(rows: seq<TreeLoading.LeafRow>, chain: seq<nat>, added: seq<TreeLoading.LeafRow>,
                                       ids: seq<nat>)
    requires TreeLoading.RecordsChain(rows, chain) && RowsFor(added, |chain|, ids)
    ensures TreeLoading.RecordsChain(rows + added, chain + ids)
  {
    var all, leaves := rows + added, chain + ids;
    forall i | 0 <= i < |all| ensures TreeLoading.DrawnFrom(all[i], leaves) {
      assert i < |rows| ==> TreeLoading.DrawnFrom(rows[i], chain);
    }
    forall i, j | 0 <= i < j < |all| ensures all[i].data.value.leafIndex != all[j].data.value.leafIndex {
      assert i < |rows| ==> TreeLoading.DrawnFrom(rows[i], chain);
    }
  }

  lemma {:induction false} ToldRows(env: Env, w: World, outs: seq<OutNote>, at: seq<nat>, u: Events.Updates,
                                    stamps: nat -> int)
    requires SpendableAt(w.notes, at) && Told(env, w, outs, at, u)
    ensures RowsFor(LeafRows(u.newLeaves, stamps), |w.chain.leaves|, IdsOf(env.H, outs))
  {
  }

  lemma {:induction false} OldNoteWorth(env: Env, net: Network, w: World, outs: seq<OutNote>, at: seq<nat>,
                                        u: Events.Updates, i: nat)
    requires Injective(env.H) && Inv(env, net, w) && SpendableAt(w.notes, at) && Told(env, w, outs, at, u)
    requires i < |w.notes|
    requires !Named(u.confirmed, w.notes[i].id)
    ensures var n := ApplyToNote(w.notes[i], u);
      n.confirmed == w.notes[i].confirmed && (n.confirmed ==> n.spent == (w.notes[i].spent || i in at))
  {
    var n := w.notes[i];
    if n.confirmed && n.nullifier.Some? {
      SpentNamed(env, w, outs, at, u, n.nullifier.value);
      SpendsExactly(env, net, w, at, i);
    }
  }

  /** An old note keeps its worth, unless it is one of those taken. */
  lemma {:induction false} OldWorthAt(env: Env, net: Network, w: World, outs: seq<OutNote>, created: int, at: seq<nat>,
                                      u: Events.Updates, token: nat, i: nat)
    requires Injective(env.H) && Mining(env, net, w, outs, created, at) && Told(env, w, outs, at, u)
    requires i < |w.notes| - |outs|
    ensures Worth(ApplyToNote(w.notes[i], u), token) == if i in at then 0 else Worth(w.notes[i], token)
  {
    ConfirmsExactly(env, net, w, outs, created, at, u, i);
    OldNoteWorth(env, net, w, outs, at, u, i);
    if i in at {
      assert w.notes[i].confirmed;
    }
  }

  lemma {:induction false} TakenAreOld(env: Env, net: Network, w: World, outs: seq<OutNote>, created: int, at: seq<nat>)
    requires AwaitsOuts(env, net, w, outs, created) && SpendableAt(w.notes, at)
    ensures forall k :: 0 <= k < |at| ==> at[k] < |w.notes| - |outs|
  {
    assert forall k :: 0 <= k < |at| ==> w.notes[at[k]].confirmed;
  }

  lemma {:induction false} OldZeroed(env: Env, net: Network, w: World, outs: seq<OutNote>, created: int, at: seq<nat>,
                                     u: Events.Updates, token: nat, before: seq<StoredNote>, after: seq<StoredNote>)
    requires Injective(env.H) && Mining(env, net, w, outs, created, at) && Told(env, w, outs, at, u)
    requires |before| == |after| == |w.notes| - |outs| && (forall k :: 0 <= k < |at| ==> at[k] < |before|)
    requires forall i :: 0 <= i < |before| ==> before[i] == w.notes[i] && after[i] == ApplyToNote(w.notes[i], u)
    ensures Zeroed(Worths(before, token), at, Worths(after, token))
  {
    forall i: nat | i < |before| ensures Worths(after, token)[i] == if i in at then 0 else Worths(before, token)[i] {
      OldWorthAt(env, net, w, outs, created, at, u, token, i);
    }
    assert forall k :: 0 <= k < |at| ==> at[k] in at;
  }

  lemma {:induction false} NewNoteUnspent(env: Env, net: Network, w: World, outs: seq<OutNote>, created: int,
                                          at: seq<nat>, u: Events.Updates, i: nat)
    requires Injective(env.H) && Mining(env, net, w, outs, created, at) && Told(env, w, outs, at, u)
    requires |w.notes| - |outs| <= i < |w.notes|
    requires w.notes[i].nullifier.Some?
    ensures !Named(u.spent, w.notes[i].nullifier.value)
  {
    SpentNamed(env, w, outs, at, u, w.notes[i].nullifier.value);
    NewNullifierUnused(env, net, w, outs, created, at, i);
  }

  /** A new note ends up confirmed and unspent. */
  lemma {:induction false} NewNoteConfirmed(env: Env, net: Network, w: World, outs: seq<OutNote>, created: int,
                                            at: seq<nat>, u: Events.Updates, j: nat)
    requires Injective(env.H) && Mining(env, net, w, outs, created, at) && Told(env, w, outs, at, u) && j < |outs|
    ensures ApplyToNote(w.notes[|w.notes| - |outs| + j], u)
         == MakeNoteState(env, net, outs[j], created).(confirmed := true)
  {
    var i := |w.notes| - |outs| + j;
    var u, n := u, w.notes[i];
    assert n == MakeNoteState(env, net, outs[j], created);
    assert Named(u.confirmed, n.id) by { ConfirmsExactly(env, net, w, outs, created, at, u, i); }
    assert n.nullifier.Some? ==> !Named(u.spent, n.nullifier.value) by {
      if n.nullifier.Some? { NewNoteUnspent(env, net, w, outs, created, at, u, i); }
    }
  }

  /** So the new notes are worth their value, in their token. */
  lemma {:induction false} NewWorth(env: Env, net: Network, w: World, outs: seq<OutNote>, created: int, at: seq<nat>,
                                    u: Events.Updates, token: nat, other: nat, after: seq<StoredNote>)
    requires Injective(env.H) && Mining(env, net, w, outs, created, at) && Told(env, w, outs, at, u)
    requires (forall j :: 0 <= j < |outs| ==> outs[j].note.token == token) && |after| == |outs|
    requires forall j :: 0 <= j < |outs| ==> after[j] == ApplyToNote(w.notes[|w.notes| - |outs| + j], u)
    ensures Unspent(after, other) == if other == token then Sum(OutValues(outs)) else 0
  {
    forall j: nat | j < |outs| ensures after[j] == MakeNoteState(env, net, outs[j], created).(confirmed := true) {
      NewNoteConfirmed(env, net, w, outs, created, at, u, j);
    }
    ConfirmedWorth(env, net, outs, created, token, other, after);
  }

  lemma {:induction false} ConfirmedWorth(env: Env, net: Network, outs: seq<OutNote>, created: int, token: nat,
                                          other: nat, notes: seq<StoredNote>)
    requires forall j :: 0 <= j < |outs| ==> outs[j].note.token == token
    requires |notes| == |outs|
    requires forall j: nat :: j < |outs| ==> notes[j] == MakeNoteState(env, net, outs[j], created).(confirmed := true)
    ensures Unspent(notes, other) == if other == token then Sum(OutValues(outs)) else 0
  {
    if other == token {
      assert Worths(notes, other) == OutValues(outs);
    } else {
      SumZeros(Worths(notes, other));
    }
  }

  lemma {:induction false} UnspentSplits(notes: seq<StoredNote>, base: nat, token: nat)
    requires base <= |notes|
    ensures Unspent(notes, token) == Unspent(notes[..base], token) + Unspent(notes[base..], token)
  {
    assert Worths(notes, token) == Worths(notes[..base], token) + Worths(notes[base..], token);
    SumAppends(Worths(notes[..base], token), Worths(notes[base..], token));
  }

  /** The selected notes are worth their values in their own token, nothing in another. */
  lemma {:induction false} SelectedWorth(w: World, base: nat, at: seq<nat>, token: nat, other: nat)
    requires SpendableAt(w.notes, at) && base <= |w.notes| && forall k :: 0 <= k < |at| ==> at[k] < base
    requires forall k :: 0 <= k < |at| ==> w.notes[at[k]].note.token == token
    ensures Sum(Pick(Worths(w.notes[..base], other), at)) == if other == token then Sum(ValuesAt(w.notes, at)) else 0
  {
    var picked := Pick(Worths(w.notes[..base], other), at);
    if other == token {
      assert picked == ValuesAt(w.notes, at);
    } else {
      SumZeros(picked);
    }
  }

  /** Pending notes are worth nothing. */
  lemma {:induction false} PendingWorth(env: Env, net: Network, w: World, outs: seq<OutNote>, created: int, token: nat)
    requires AwaitsOuts(env, net, w, outs, created)
    ensures Unspent(w.notes[|w.notes| - |outs|..], token) == 0
  {
    SumZeros(Worths(w.notes[|w.notes| - |outs|..], token));
  }

  lemma {:induction false} MinedUnspent(env: Env, net: Network, w: World, outs: seq<OutNote>, created: int,
                                        at: seq<nat>, token: nat, paidIn: nat, paidOut: nat, u: Events.Updates,
                                        other: nat, after: seq<StoredNote>)
    requires Injective(env.H) && Mining(env, net, w, outs, created, at) && Told(env, w, outs, at, u)
    requires Balanced(w, outs, at, token, paidIn, paidOut)
    requires after == ApplyToNotes(w.notes, u)
    ensures Unspent(after, other) == Unspent(w.notes, other) + (if other == token then paidIn as int - paidOut else 0)
  {
    var base := |w.notes| - |outs|;
    TakenAreOld(env, net, w, outs, created, at);
    OldZeroed(env, net, w, outs, created, at, u, other, w.notes[..base], after[..base]);
    SumWithout(Worths(w.notes[..base], other), at, Worths(after[..base], other));
    NewWorth(env, net, w, outs, created, at, u, token, other, after[base..]);
    UnspentSplits(after, base, other);
    UnspentSplits(w.notes, base, other);
    SelectedWorth(w, base, at, token, other);
    PendingWorth(env, net, w, outs, created, other);
  }

  /** Mining an operation keeps the invariant. */
  lemma {:induction false} MiningKeeps(env: Env, net: Network, w: World, c: Chain, outs: seq<OutNote>, created: int,
                                       at: seq<nat>, token: nat, paidIn: nat, paidOut: nat, u: Events.Updates,
                                       stamps: nat -> int)
    requires Injective(env.H) && Mining(env, net, w, outs, created, at) && Told(env, w, outs, at, u)
    requires LeavesNamed(env.H, u.newLeaves) && Balanced(w, outs, at, token, paidIn, paidOut)
    requires ChainAfter(env, w, c, outs, at, token, paidIn, paidOut)
    requires var after := Replay(w, c, u, stamps); Timely(after.leafRows) && TreeOk(env, c)
    ensures Inv(env, net, Replay(w, c, u, stamps))
  {
    var after := Replay(w, c, u, stamps);
    MinedNotesKept(env, net, w, c, outs, created, at, token, paidIn, paidOut, u, after.leafRows);
    MinedNullifiersWithin(env, net, w, c, outs, at, token, paidIn, paidOut);
    ToldRows(env, w, outs, at, u, stamps);
    RecordsGrow(w.leafRows, w.chain.leaves, LeafRows(u.newLeaves, stamps), IdsOf(env.H, outs));
    MinedRowsNamed(env, net, w, outs, created, at, u, stamps);
    forall other: nat ensures Unspent(after.notes, other) == Held(c.flows, other) {
      MinedUnspent(env, net, w, outs, created, at, token, paidIn, paidOut, u, other, after.notes);
    }
  }
}
