/** Event replay: handler_events.go, and HandleEventBatch of railgun.go. */
module Events {
  import opened Notes
  import opened Wrappers
  import TreeLoading

  /** A Paladin transaction id; empty when an event could not be correlated. */
  type TxId = string

  /** The cleartext of a shielded commitment. */
  datatype Preimage = Preimage(npk: nat, token: nat, value: nat)

  /** The contract's events, decoded.  `Skipped` stands for an event whose data does not
    * decode or whose signature is not one of the four: it is logged or ignored. */
  datatype Event =
    | Shield(txHash: string, start: nat, commitments: seq<Preimage>, shieldKeys: seq<TxId>)
    | Transact(txHash: string, start: nat, hashes: seq<nat>, annotations: seq<TxId>)
    | Unshield(txHash: string, to: nat, token: nat, amount: nat)
    | Nullified(txHash: string, nullifiers: seq<nat>)
    | Skipped(txHash: string)

  datatype StateUpdate = StateUpdate(id: nat, txId: TxId)
  datatype NewLeaf = NewLeaf(id: nat, leaf: TreeLoading.TreeLeaf, txId: TxId)
  datatype Completed = Completed(txId: TxId, txHash: string)

  /** The four lists of a batch response. */
  datatype Updates = Updates(confirmed: seq<StateUpdate>, newLeaves: seq<NewLeaf>, spent: seq<StateUpdate>,
                             completed: seq<Completed>)
  {
    function Then(u: Updates): Updates
    {
      Updates(confirmed + u.confirmed, newLeaves + u.newLeaves, spent + u.spent, completed + u.completed)
    }
  }

  const NOTHING := Updates([], [], [], [])

  lemma {:induction false} ThenAssociates(a: Updates, b: Updates, c: Updates)
    ensures a.Then(b).Then(c) == a.Then(b.Then(c))
    ensures NOTHING.Then(a) == a == a.Then(NOTHING)
  {
  }

  // ---------------------------------------------------------------------------
  // Correlation
  // ---------------------------------------------------------------------------

  /** The id an event carries: in its first shield key or annotation. */
  function TagOf(ev: Event): Option<TxId>
  {
    match ev
    case Shield(_, _, _, keys) => if keys == [] then None else Some(keys[0])
    case Transact(_, _, _, annotations) => if annotations == [] then None else Some(annotations[0])
    case _ => None
  }

  function Correlation(events: seq<Event>): map<string, TxId>
  {
    if events == [] then map[]
    else
      var n := |events| - 1;
      var byHash := Correlation(events[..n]);
      match TagOf(events[n])
      case None => byHash
      case Some(t) => byHash[events[n].txHash := t]
  }

  function TxIdFor(byHash: map<string, TxId>, txHash: string): TxId
  {
    if txHash in byHash then byHash[txHash] else ""
  }

  method TxCorrelation(events: seq<Event>) returns (byHash: map<string, TxId>)
    ensures byHash == Correlation(events)
  {
    byHash := map[];
    for i := 0 to |events|
      invariant byHash == Correlation(events[..i])
    {
      assert events[..i + 1][..i] == events[..i];
      match events[i] {
        case Shield(h, _, _, keys) =>
          if |keys| > 0 {
            byHash := byHash[h := keys[0]];
          }
        case Transact(h, _, _, annotations) =>
          if |annotations| > 0 {
            byHash := byHash[h := annotations[0]];
          }
        case _ =>
      }
    }
    assert events[..|events|] == events;
  }

  lemma {:induction false} CorrelationAppends(a: seq<Event>, b: seq<Event>)
    ensures Correlation(a + b) == Correlation(a) + Correlation(b)
  {
    if b == [] {
      assert a + b == a;
    } else {
      var n := |b| - 1;
      CorrelationAppends(a, b[..n]);
      assert (a + b)[..|a + b| - 1] == a + b[..n];
    }
  }

  /** Event `i` is the last event of transaction `h` that carries an id. */
  ghost predicate LastTagged(events: seq<Event>, h: string, i: int)
  {
    && 0 <= i < |events| && events[i].txHash == h && TagOf(events[i]).Some?
    && forall j :: i < j < |events| && events[j].txHash == h ==> TagOf(events[j]).None?
  }

  /** What a hash maps to: the id of its last tagged event, and no other. */
  lemma {:induction false} CorrelationExactly(events: seq<Event>, h: string)
    ensures forall i :: LastTagged(events, h, i) ==>
      h in Correlation(events) && Correlation(events)[h] == TagOf(events[i]).value
    ensures h in Correlation(events) ==> exists i :: LastTagged(events, h, i)
  {
    if events != [] {
      var n := |events| - 1;
      var init := events[..n];
      CorrelationExactly(init, h);
      if events[n].txHash == h && TagOf(events[n]).Some? {
        assert LastTagged(events, h, n);
      } else {
        forall i ensures LastTagged(events, h, i) <==> LastTagged(init, h, i) {
          assert 0 <= i < n ==> init[i] == events[i];
          assert forall j :: 0 <= j < n ==> init[j] == events[j];
        }
      }
    }
  }

  /** A hash with a tagged event has a last one. */
  lemma {:induction false} LastTaggedExists(events: seq<Event>, h: string, k: nat) returns (i: int)
    requires k < |events| && events[k].txHash == h && TagOf(events[k]).Some?
    ensures LastTagged(events, h, i)
  {
    i := k;
    var j: nat := k + 1;
    while j < |events|
      invariant k <= i < j <= |events| && events[i].txHash == h && TagOf(events[i]).Some?
      invariant forall m :: i < m < j && events[m].txHash == h ==> TagOf(events[m]).None?
    {
      if events[j].txHash == h && TagOf(events[j]).Some? {
        i := j;
      }
      j := j + 1;
    }
  }

  /** Wherever the tagged event stands in the batch, all events of its transaction get
    * its id, if the transaction's tags agree. */
  lemma {:induction false} CorrelatedAnywhere(events: seq<Event>, h: string, t: TxId)
    requires exists i :: 0 <= i < |events| && events[i].txHash == h && TagOf(events[i]) == Some(t)
    requires forall i :: 0 <= i < |events| && events[i].txHash == h && TagOf(events[i]).Some? ==>
      TagOf(events[i]) == Some(t)
    ensures TxIdFor(Correlation(events), h) == t
  {
    CorrelationExactly(events, h);
    var k :| 0 <= k < |events| && events[k].txHash == h && TagOf(events[k]) == Some(t);
    var i := LastTaggedExists(events, h, k);
  }

  // ---------------------------------------------------------------------------
  // One event
  // ---------------------------------------------------------------------------

  function PreimageHash(H: Hash, c: Preimage): nat
  {
    Commitment(H, c.npk, c.token, c.value)
  }

  function LeafStateId(H: Hash, leafIndex: nat, commitment: nat): nat
  {
    Commitment(H, commitment, leafIndex, 0)
  }

  /** A leaf record's id comes from one position and one commitment. */
  lemma {:induction false} LeafIdOpensOneWay(H: Hash, i: nat, a: nat, j: nat, b: nat)
    requires Injective(H) && LeafStateId(H, i, a) == LeafStateId(H, j, b)
    ensures i == j && a == b
  {
    var s, t := [a, i, 0], [b, j, 0];
    assert Separates(H, s, t);
    assert s[0] == a && s[1] == i && t[0] == b && t[1] == j;
  }

  /** The record of a note's leaf never has the id of a note. */
  lemma {:induction false} LeafIdIsNoNoteId(H: Hash, i: nat, n: Note, m: Note)
    requires Injective(H)
    ensures LeafStateId(H, i, NoteHash(H, n)) != NoteHash(H, m)
  {
    var npk, key := NotePublicKey(H, n.owner, n.random), NotePublicKey(H, m.owner, m.random);
    var s, t := [NoteHash(H, n), i, 0], [key, m.token, m.value];
    assert Separates(H, s, t) && Separates(H, [npk, n.token, n.value], [m.owner, m.random]);
    assert s[0] == NoteHash(H, n) && t[0] == key;
    assert |[npk, n.token, n.value]| != |[m.owner, m.random]|;
  }

  /** A commitment at a position: its note is confirmed and its leaf recorded. */
  function CommitmentUpdates(H: Hash, txId: TxId, leafIndex: nat, commitment: nat): Updates
  {
    Updates([StateUpdate(commitment, txId)],
            [NewLeaf(LeafStateId(H, leafIndex, commitment), TreeLoading.TreeLeaf(leafIndex, commitment), txId)], [], [])
  }

  function LeafUpdates(H: Hash, txId: TxId, start: nat, leaves: seq<nat>): Updates
  {
    if leaves == [] then NOTHING
    else
      var n := |leaves| - 1;
      LeafUpdates(H, txId, start, leaves[..n]).Then(CommitmentUpdates(H, txId, Uint64(Uint64(start) + n), leaves[n]))
  }

  function Hashes(H: Hash, commitments: seq<Preimage>): (hs: seq<nat>)
    ensures |hs| == |commitments|
  {
    if commitments == [] then []
    else Hashes(H, commitments[..|commitments| - 1]) + [PreimageHash(H, commitments[|commitments| - 1])]
  }

  /** Each commitment of a shield event is the hash of its own preimage. */
  lemma {:induction false} HashesAt(H: Hash, commitments: seq<Preimage>, i: nat)
    requires i < |commitments|
    ensures var c := commitments[i]; Hashes(H, commitments)[i] == H([c.npk, c.token, c.value])
  {
    if i < |commitments| - 1 {
      HashesAt(H, commitments[..|commitments| - 1], i);
    }
  }

  function SpentUpdates(txId: TxId, nullifiers: seq<nat>): (us: seq<StateUpdate>)
    ensures |us| == |nullifiers|
    ensures forall i :: 0 <= i < |nullifiers| ==> us[i] == StateUpdate(nullifiers[i], txId)
  {
    if nullifiers == [] then []
    else SpentUpdates(txId, nullifiers[..|nullifiers| - 1]) + [StateUpdate(nullifiers[|nullifiers| - 1], txId)]
  }

  function CompleteUpdates(txId: TxId, txHash: string): Updates
  {
    Updates([], [], [], if txId == "" then [] else [Completed(txId, txHash)])
  }

  function EventUpdates(H: Hash, ev: Event, txId: TxId): Updates
  {
    match ev
    case Shield(h, start, commitments, _) =>
      LeafUpdates(H, txId, start, Hashes(H, commitments)).Then(CompleteUpdates(txId, h))
    case Transact(h, start, hashes, _) => LeafUpdates(H, txId, start, hashes).Then(CompleteUpdates(txId, h))
    case Nullified(_, nullifiers) => Updates([], [], SpentUpdates(txId, nullifiers), [])
    case _ => NOTHING
  }

  // ---------------------------------------------------------------------------
  // A batch
  // ---------------------------------------------------------------------------

  function UpdatesWith(H: Hash, byHash: map<string, TxId>, events: seq<Event>): Updates
  {
    if events == [] then NOTHING
    else
      var n := |events| - 1;
      UpdatesWith(H, byHash, events[..n]).Then(EventUpdates(H, events[n], TxIdFor(byHash, events[n].txHash)))
  }

  function BatchUpdates(H: Hash, events: seq<Event>): Updates
  {
    UpdatesWith(H, Correlation(events), events)
  }

  lemma {:induction false} UpdatesNext(H: Hash, byHash: map<string, TxId>, events: seq<Event>, i: nat)
    requires i < |events|
    ensures UpdatesWith(H, byHash, events[..i + 1])
         == UpdatesWith(H, byHash, events[..i]).Then(EventUpdates(H, events[i], TxIdFor(byHash, events[i].txHash)))
  {
    assert events[..i + 1][..i] == events[..i];
  }

  lemma {:induction false} UpdatesAppend(H: Hash, byHash: map<string, TxId>, a: seq<Event>, b: seq<Event>)
    ensures UpdatesWith(H, byHash, a + b) == UpdatesWith(H, byHash, a).Then(UpdatesWith(H, byHash, b))
  {
    if b == [] {
      assert a + b == a;
    } else {
      var n := |b| - 1;
      UpdatesAppend(H, byHash, a, b[..n]);
      assert (a + b)[..|a + b| - 1] == a + b[..n];
      ThenAssociates(UpdatesWith(H, byHash, a), UpdatesWith(H, byHash, b[..n]),
                     EventUpdates(H, b[n], TxIdFor(byHash, b[n].txHash)));
    }
  }

  // ---------------------------------------------------------------------------
  // Cutting a batch
  // ---------------------------------------------------------------------------

  /** The event reports something under its transaction's id. */
  predicate Reports(ev: Event)
  {
    ev.Shield? || ev.Transact? || (ev.Nullified? && ev.nullifiers != [])
  }

  predicate SameId(m: map<string, TxId>, m': map<string, TxId>, h: string)
  {
    TxIdFor(m, h) == TxIdFor(m', h)
  }

  /** Both maps give every reporting event the same id. */
  ghost predicate SameIds(m: map<string, TxId>, m': map<string, TxId>, events: seq<Event>)
  {
    forall i :: 0 <= i < |events| && Reports(events[i]) ==> SameId(m, m', events[i].txHash)
  }

  lemma {:induction false} SameIdsSameUpdates(H: Hash, m: map<string, TxId>, m': map<string, TxId>, events: seq<Event>)
    requires SameIds(m, m', events)
    ensures UpdatesWith(H, m, events) == UpdatesWith(H, m', events)
  {
    if events != [] {
      var n := |events| - 1;
      SameIdsSameUpdates(H, m, m', events[..n]);
      assert Reports(events[n]) ==> SameId(m, m', events[n].txHash);
    }
  }

  /** The completions recorded for a hash. */
  function CompletedFor(cs: seq<Completed>, h: string): seq<Completed>
  {
    if cs == [] then []
    else
      var n := |cs| - 1;
      CompletedFor(cs[..n], h) + (if cs[n].txHash == h then [cs[n]] else [])
  }

  lemma {:induction false} CompletedForAppends(a: seq<Completed>, b: seq<Completed>, h: string)
    ensures CompletedFor(a + b, h) == CompletedFor(a, h) + CompletedFor(b, h)
  {
    if b == [] {
      assert a + b == a;
    } else {
      CompletedForAppends(a, b[..|b| - 1], h);
      assert (a + b)[..|a + b| - 1] == a + b[..|b| - 1];
    }
  }

  /** `n` completions of one transaction, if it has an id. */
  function Completions(t: TxId, h: string, n: nat): (cs: seq<Completed>)
    ensures |cs| == if t == "" then 0 else n
    ensures forall i :: 0 <= i < |cs| ==> cs[i] == Completed(t, h)
  {
    if n == 0 || t == "" then [] else Completions(t, h, n - 1) + [Completed(t, h)]
  }

  /** How many events of a transaction complete it. */
  function Completing(events: seq<Event>, h: string): nat
  {
    if events == [] then 0
    else
      var ev := events[|events| - 1];
      Completing(events[..|events| - 1], h) + (if (ev.Shield? || ev.Transact?) && ev.txHash == h then 1 else 0)
  }

  lemma {:induction false} CompletingCounts(events: seq<Event>, i: nat)
    requires i < |events| && (events[i].Shield? || events[i].Transact?)
    ensures Completing(events, events[i].txHash) > 0
  {
    if i < |events| - 1 {
      CompletingCounts(events[..|events| - 1], i);
    }
  }

  lemma {:induction false} CompletedOfEvent(H: Hash, ev: Event, t: TxId, h: string)
    ensures CompletedFor(EventUpdates(H, ev, t).completed, h)
         == if (ev.Shield? || ev.Transact?) && ev.txHash == h then Completions(t, h, 1) else []
  {
    assert CompletedFor([], h) == [];
    var one := [Completed(t, ev.txHash)];
    assert one[..0] == [];
    match ev {
      case Shield(_, start, commitments, _) => NoSpendsInLeaves(H, t, start, Hashes(H, commitments));
      case Transact(_, start, hashes, _) => NoSpendsInLeaves(H, t, start, hashes);
      case _ =>
    }
  }

  lemma {:induction false} CompletedOfBatch(H: Hash, m: map<string, TxId>, events: seq<Event>, h: string)
    ensures CompletedFor(UpdatesWith(H, m, events).completed, h) == Completions(TxIdFor(m, h), h, Completing(events, h))
  {
    if events != [] {
      var n := |events| - 1;
      var ev := events[n];
      var t := TxIdFor(m, ev.txHash);
      CompletedOfBatch(H, m, events[..n], h);
      CompletedForAppends(UpdatesWith(H, m, events[..n]).completed, EventUpdates(H, ev, t).completed, h);
      CompletedOfEvent(H, ev, t, h);
    }
  }

  lemma {:induction false} SpentCount(H: Hash, m: map<string, TxId>, m': map<string, TxId>, events: seq<Event>)
    ensures |UpdatesWith(H, m, events).spent| == |UpdatesWith(H, m', events).spent|
  {
    if events != [] {
      var n := |events| - 1;
      SpentCount(H, m, m', events[..n]);
      SpentOfLast(H, m, events);
      SpentOfLast(H, m', events);
    }
  }

  function NullifiersOf(ev: Event): seq<nat>
  {
    if ev.Nullified? then ev.nullifiers else []
  }

  lemma {:induction false} EventSpent(H: Hash, ev: Event, t: TxId)
    ensures EventUpdates(H, ev, t).spent == SpentUpdates(t, NullifiersOf(ev))
  {
    match ev {
      case Shield(_, start, commitments, _) => NoSpendsInLeaves(H, t, start, Hashes(H, commitments));
      case Transact(_, start, hashes, _) => NoSpendsInLeaves(H, t, start, hashes);
      case _ =>
    }
  }

  ghost predicate SameSpends(H: Hash, m: map<string, TxId>, m': map<string, TxId>, events: seq<Event>)
  {
    UpdatesWith(H, m, events).spent == UpdatesWith(H, m', events).spent
  }

  lemma {:induction false} SpendsOfPrefix(H: Hash, m: map<string, TxId>, m': map<string, TxId>, events: seq<Event>,
                                          k: nat)
    requires SameSpends(H, m, m', events) && k <= |events|
    ensures SameSpends(H, m, m', events[..k])
    decreases |events| - k
  {
    if k < |events| {
      SpendsOfPrefix(H, m, m', events, k + 1);
      LastSpent(H, m, m', events[..k + 1]);
      assert events[..k + 1][..k] == events[..k];
    } else {
      assert events[..k] == events;
    }
  }

  /** Equal spends mean equal ids for every event that spends something. */
  lemma {:induction false} SpentShowsIds(H: Hash, m: map<string, TxId>, m': map<string, TxId>, events: seq<Event>,
                                         i: nat)
    requires SameSpends(H, m, m', events)
    requires i < |events| && NullifiersOf(events[i]) != []
    ensures SameId(m, m', events[i].txHash)
  {
    SpendsOfPrefix(H, m, m', events, i + 1);
    LastSpent(H, m, m', events[..i + 1]);
  }

  lemma {:induction false} LastSpent(H: Hash, m: map<string, TxId>, m': map<string, TxId>, events: seq<Event>)
    requires events != [] && SameSpends(H, m, m', events)
    ensures var init, ev := events[..|events| - 1], events[|events| - 1];
      && SameSpends(H, m, m', init)
      && (NullifiersOf(ev) != [] ==> SameId(m, m', ev.txHash))
  {
    var init, ev := events[..|events| - 1], events[|events| - 1];
    SpentOfLast(H, m, events);
    SpentOfLast(H, m', events);
    SpentCount(H, m, m', init);
    SplitEqually(UpdatesWith(H, m, init).spent, SpentUpdates(TxIdFor(m, ev.txHash), NullifiersOf(ev)),
                 UpdatesWith(H, m', init).spent, SpentUpdates(TxIdFor(m', ev.txHash), NullifiersOf(ev)));
    if NullifiersOf(ev) != [] {
      SameSpender(TxIdFor(m, ev.txHash), TxIdFor(m', ev.txHash), NullifiersOf(ev));
    }
  }

  lemma {:induction false} SpentOfLast(H: Hash, m: map<string, TxId>, events: seq<Event>)
    requires events != []
    ensures var ev := events[|events| - 1];
      UpdatesWith(H, m, events).spent
        == UpdatesWith(H, m, events[..|events| - 1]).spent + SpentUpdates(TxIdFor(m, ev.txHash), NullifiersOf(ev))
  {
    var ev := events[|events| - 1];
    EventSpent(H, ev, TxIdFor(m, ev.txHash));
  }

  lemma {:induction false} SameSpender(t: TxId, u: TxId, ns: seq<nat>)
    requires ns != [] && SpentUpdates(t, ns) == SpentUpdates(u, ns)
    ensures t == u
  {
    assert SpentUpdates(t, ns)[0] == SpentUpdates(u, ns)[0];
  }

  /** Some event of the transaction carries an id. */
  ghost predicate Tagged(events: seq<Event>, h: string)
  {
    exists i :: LastTagged(events, h, i)
  }

  /** The cut separates no reporting event from its id: an id found after the cut is the one
    * already known before it, and where none is found after it, none was known before. */
  ghost predicate CutsCleanly(a: seq<Event>, b: seq<Event>)
  {
    && (forall i :: 0 <= i < |a| && Reports(a[i]) && Tagged(b, a[i].txHash) ==>
        SameId(Correlation(a), Correlation(b), a[i].txHash))
    && (forall j :: 0 <= j < |b| && Reports(b[j]) && !Tagged(b, b[j].txHash) ==>
        TxIdFor(Correlation(a), b[j].txHash) == "")
  }

  /** The id found in both parts together is that of the second, if it carries one. */
  lemma {:induction false} IdOfBoth(a: seq<Event>, b: seq<Event>, h: string)
    ensures Tagged(b, h) <==> h in Correlation(b)
    ensures TxIdFor(Correlation(a + b), h) == if Tagged(b, h) then TxIdFor(Correlation(b), h)
      else TxIdFor(Correlation(a), h)
  {
    CorrelationAppends(a, b);
    CorrelationExactly(b, h);
  }

  lemma {:induction false} CleanMeansSameIds(a: seq<Event>, b: seq<Event>)
    ensures CutsCleanly(a, b)
       <==> SameIds(Correlation(a + b), Correlation(a), a) && SameIds(Correlation(a + b), Correlation(b), b)
  {
    forall h: string
      ensures SameId(Correlation(a + b), Correlation(a), h)
        <==> (Tagged(b, h) ==> SameId(Correlation(a), Correlation(b), h))
      ensures SameId(Correlation(a + b), Correlation(b), h) <==> (!Tagged(b, h) ==> TxIdFor(Correlation(a), h) == "")
    {
      IdOfBoth(a, b, h);
    }
  }

  /** A batch is the two batches one after the other exactly when the cut is clean. */
  lemma {:induction false} SplitsExactly(H: Hash, a: seq<Event>, b: seq<Event>)
    ensures BatchUpdates(H, a + b) == BatchUpdates(H, a).Then(BatchUpdates(H, b)) <==> CutsCleanly(a, b)
  {
    var m := Correlation(a + b);
    UpdatesAppend(H, m, a, b);
    CleanMeansSameIds(a, b);
    if CutsCleanly(a, b) {
      SameIdsSameUpdates(H, m, Correlation(a), a);
      SameIdsSameUpdates(H, m, Correlation(b), b);
    }
    if BatchUpdates(H, a + b) == BatchUpdates(H, a).Then(BatchUpdates(H, b)) {
      EqualUpdatesSameIds(H, a, b);
    }
  }

  lemma {:induction false} EqualUpdatesSameIds(H: Hash, a: seq<Event>, b: seq<Event>)
    requires var m := Correlation(a + b);
      UpdatesWith(H, m, a).Then(UpdatesWith(H, m, b)) == BatchUpdates(H, a).Then(BatchUpdates(H, b))
    ensures SameIds(Correlation(a + b), Correlation(a), a) && SameIds(Correlation(a + b), Correlation(b), b)
  {
    var m, x, y := Correlation(a + b), Correlation(a), Correlation(b);
    SpentCount(H, m, x, a);
    var s, s' := UpdatesWith(H, m, a).spent, BatchUpdates(H, a).spent;
    var r, r' := UpdatesWith(H, m, b).spent, BatchUpdates(H, b).spent;
    SplitEqually(s, r, s', r');
    forall i | 0 <= i < |a| && Reports(a[i]) ensures SameId(m, x, a[i].txHash) {
      if a[i].Nullified? {
        SpentShowsIds(H, m, x, a, i);
      } else {
        CompletingCounts(a, i);
        CompletedShowsIds(H, a, b, a[i].txHash);
      }
    }
    forall j | 0 <= j < |b| && Reports(b[j]) ensures SameId(m, y, b[j].txHash) {
      if b[j].Nullified? {
        SpentShowsIds(H, m, y, b, j);
      } else {
        CompletingCounts(b, j);
        CompletedShowsIds(H, a, b, b[j].txHash);
      }
    }
  }

  /** Equal completions mean equal ids on both sides, for a transaction that completes there. */
  lemma {:induction false} CompletedShowsIds(H: Hash, a: seq<Event>, b: seq<Event>, h: string)
    requires var m := Correlation(a + b);
      UpdatesWith(H, m, a).completed + UpdatesWith(H, m, b).completed
        == BatchUpdates(H, a).completed + BatchUpdates(H, b).completed
    ensures Completing(a, h) > 0 ==> SameId(Correlation(a + b), Correlation(a), h)
    ensures Completing(b, h) > 0 ==> SameId(Correlation(a + b), Correlation(b), h)
  {
    var m, x, y := Correlation(a + b), Correlation(a), Correlation(b);
    CompletedForAppends(UpdatesWith(H, m, a).completed, UpdatesWith(H, m, b).completed, h);
    CompletedForAppends(BatchUpdates(H, a).completed, BatchUpdates(H, b).completed, h);
    CompletedOfBatch(H, m, a, h);
    CompletedOfBatch(H, m, b, h);
    CompletedOfBatch(H, x, a, h);
    CompletedOfBatch(H, y, b, h);
    IdOfBoth(a, b, h);
    SameCompletions(TxIdFor(m, h), TxIdFor(x, h), TxIdFor(y, h), h, Completing(a, h), Completing(b, h));
  }

  lemma {:induction false} SameCompletions(t: TxId, u: TxId, v: TxId, h: string, m: nat, n: nat)
    requires Completions(t, h, m) + Completions(t, h, n) == Completions(u, h, m) + Completions(v, h, n)
    requires t == u || t == v
    ensures m > 0 ==> t == u
    ensures n > 0 ==> t == v
  {
    var a, b := Completions(t, h, m), Completions(t, h, n);
    var c, d := Completions(u, h, m), Completions(v, h, n);
    if t == v {
      SplitEqually(a, b, c, d);
      SameTag(t, u, h, m);
    } else {
      SplitEqually(a, b, c, d);
      SameTag(t, v, h, n);
    }
  }

  lemma {:induction false} SameTag(t: TxId, u: TxId, h: string, n: nat)
    requires Completions(t, h, n) == Completions(u, h, n)
    ensures n > 0 ==> t == u
  {
    if n > 0 && t != "" && u != "" {
      assert Completions(t, h, n)[0] == Completions(u, h, n)[0];
    }
  }

  lemma {:induction false} SplitEqually<T>(a: seq<T>, b: seq<T>, c: seq<T>, d: seq<T>)
    requires a + b == c + d && (|a| == |c| || |b| == |d|)
    ensures a == c && b == d
  {
    assert |a + b| == |c + d|;
    assert a == (a + b)[..|a|] == (c + d)[..|a|] == c;
    assert b == (a + b)[|a|..] == (c + d)[|a|..] == d;
  }

  /** No on-chain transaction has events on both sides of the cut. */
  ghost predicate CutBetweenTransactions(a: seq<Event>, b: seq<Event>)
  {
    forall i, j :: 0 <= i < |a| && 0 <= j < |b| ==> a[i].txHash != b[j].txHash
  }

  /** In particular, a batch cut between transactions is the two batches one after the other. */
  lemma {:induction false} BatchIsHomomorphic(H: Hash, a: seq<Event>, b: seq<Event>)
    requires CutBetweenTransactions(a, b)
    ensures BatchUpdates(H, a + b) == BatchUpdates(H, a).Then(BatchUpdates(H, b))
  {
    forall j | 0 <= j < |b| ensures TxIdFor(Correlation(a), b[j].txHash) == "" {
      CorrelationExactly(a, b[j].txHash);
    }
    SplitsExactly(H, a, b);
  }

  /** Cutting inside a transaction does lose information: a spend delivered before the
    * Transact event of its own transaction carries no id. */
  lemma {:induction false} SplitTransactionLosesId(H: Hash, h: string, n: nat, c: nat, t: TxId)
    requires t != ""
    ensures var a, b := [Nullified(h, [n])], [Transact(h, 0, [c], [t])];
      && BatchUpdates(H, a).Then(BatchUpdates(H, b)).spent == [StateUpdate(n, "")]
      && BatchUpdates(H, a + b).spent == [StateUpdate(n, t)]
  {
    var x, y := Nullified(h, [n]), Transact(h, 0, [c], [t]);
    CorrelationExactly([x], h);
    CorrelatedAnywhere([x] + [y], h, t) by { assert ([x] + [y])[1] == y; }
    OneEvent(H, Correlation([x]), x);
    OneEvent(H, Correlation([y]), y);
    OneEvent(H, Correlation([x] + [y]), x);
    OneEvent(H, Correlation([x] + [y]), y);
    UpdatesAppend(H, Correlation([x] + [y]), [x], [y]);
    NoSpendsInLeaves(H, TxIdFor(Correlation([y]), h), 0, [c]);
    NoSpendsInLeaves(H, t, 0, [c]);
  }

  lemma {:induction false} OneEvent(H: Hash, m: map<string, TxId>, ev: Event)
    ensures UpdatesWith(H, m, [ev]) == EventUpdates(H, ev, TxIdFor(m, ev.txHash))
  {
    assert [ev][..0] == [];
    ThenAssociates(EventUpdates(H, ev, TxIdFor(m, ev.txHash)), NOTHING, NOTHING);
  }

  lemma {:induction false} NoSpendsInLeaves(H: Hash, txId: TxId, start: nat, leaves: seq<nat>)
    ensures LeafUpdates(H, txId, start, leaves).spent == [] && LeafUpdates(H, txId, start, leaves).completed == []
  {
    if leaves != [] {
      NoSpendsInLeaves(H, txId, start, leaves[..|leaves| - 1]);
    }
  }

  /** Entry by entry: the i-th commitment is confirmed, and recorded at start + i. */
  lemma {:induction false} LeafUpdatesAt(H: Hash, txId: TxId, start: nat, leaves: seq<nat>)
    requires start + |leaves| < 0x1_0000_0000_0000_0000
    ensures var u := LeafUpdates(H, txId, start, leaves);
      && |u.confirmed| == |u.newLeaves| == |leaves|
      && forall i :: 0 <= i < |leaves| ==>
        && u.confirmed[i] == StateUpdate(leaves[i], txId)
        && u.newLeaves[i]
             == NewLeaf(LeafStateId(H, start + i, leaves[i]), TreeLoading.TreeLeaf(start + i, leaves[i]), txId)
  {
    if leaves != [] {
      LeafUpdatesAt(H, txId, start, leaves[..|leaves| - 1]);
    }
  }

  // ---------------------------------------------------------------------------
  // The implementation
  // ---------------------------------------------------------------------------

  /** The response the handlers append to. */
  class BatchResponse {
    var confirmed: seq<StateUpdate>
    var newLeaves: seq<NewLeaf>
    var spent: seq<StateUpdate>
    var completed: seq<Completed>

    constructor ()
      ensures View() == NOTHING
    {
      confirmed, newLeaves, spent, completed := [], [], [], [];
    }

    function View(): Updates
      reads this
    {
      Updates(confirmed, newLeaves, spent, completed)
    }

    method RecordCommitment(H: Hash, txId: TxId, leafIndex: nat, commitment: nat)
      modifies this
      ensures View() == old(View()).Then(CommitmentUpdates(H, txId, leafIndex, commitment))
    {
      confirmed := confirmed + [StateUpdate(commitment, txId)];
      newLeaves :=
        newLeaves + [NewLeaf(LeafStateId(H, leafIndex, commitment), TreeLoading.TreeLeaf(leafIndex, commitment), txId)];
    }

    method RecordComplete(txId: TxId, txHash: string)
      modifies this
      ensures View() == old(View()).Then(CompleteUpdates(txId, txHash))
    {
      if txId == "" {
        return;
      }
      completed := completed + [Completed(txId, txHash)];
    }

    method HandleLeaves(H: Hash, txId: TxId, start: nat, leaves: seq<nat>)
      modifies this
      ensures View() == old(View()).Then(LeafUpdates(H, txId, start, leaves))
    {
      var first := Uint64(start);
      for i := 0 to |leaves|
        invariant View() == old(View()).Then(LeafUpdates(H, txId, start, leaves[..i]))
      {
        assert leaves[..i + 1][..i] == leaves[..i];
        ThenAssociates(old(View()), LeafUpdates(H, txId, start, leaves[..i]),
                       CommitmentUpdates(H, txId, Uint64(first + i), leaves[i]));
        RecordCommitment(H, txId, Uint64(first + i), leaves[i]);
      }
      assert leaves[..|leaves|] == leaves;
    }

    method HandleNullified(txId: TxId, nullifiers: seq<nat>)
      modifies this
      ensures View() == old(View()).Then(Updates([], [], SpentUpdates(txId, nullifiers), []))
    {
      for i := 0 to |nullifiers|
        invariant View() == old(View()).Then(Updates([], [], SpentUpdates(txId, nullifiers[..i]), []))
      {
        assert nullifiers[..i + 1][..i] == nullifiers[..i];
        spent := spent + [StateUpdate(nullifiers[i], txId)];
      }
      assert nullifiers[..|nullifiers|] == nullifiers;
    }

    method HandleEvent(H: Hash, ev: Event, txId: TxId)
      modifies this
      ensures View() == old(View()).Then(EventUpdates(H, ev, txId))
    {
      match ev {
        case Shield(h, start, commitments, _) =>
          HandleLeaves(H, txId, start, Hashes(H, commitments));
          RecordComplete(txId, h);
        case Transact(h, start, hashes, _) =>
          HandleLeaves(H, txId, start, hashes);
          RecordComplete(txId, h);
        case Nullified(_, nullifiers) =>
          HandleNullified(txId, nullifiers);
        case _ =>
      }
    }
  }

  /** Two passes: correlate hashes to ids, then process every event with its id. */
  method HandleEventBatch(H: Hash, events: seq<Event>) returns (res: BatchResponse)
    ensures fresh(res) && res.View() == BatchUpdates(H, events)
  {
    var txIdByHash := TxCorrelation(events);
    res := new BatchResponse();
    for i := 0 to |events|
      invariant fresh(res) && res.View() == UpdatesWith(H, txIdByHash, events[..i])
    {
      UpdatesNext(H, txIdByHash, events, i);
      res.HandleEvent(H, events[i], TxIdFor(txIdByHash, events[i].txHash));
    }
    assert events[..|events|] == events;
  }
}
