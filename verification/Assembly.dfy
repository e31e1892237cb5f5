/** The handlers' Assemble and validation: fungible/base.go, handler_shield.go,
  * handler_transfer.go and handler_unshield.go.
  *
  * Fresh randomness is a stream `randoms`.  Addresses go through the real codec. */
module Assembly {
  import opened Notes
  import opened Bytes
  import opened Wrappers
  import opened Paging
  import opened JoinSplit
  import opened Fields
  import opened Proving
  import opened CommitmentTree
  import Address
  import Events
  import NoteSelection
  import TreeLoading

  // ---------------------------------------------------------------------------
  // Parameters
  // ---------------------------------------------------------------------------

  datatype TransferEntry = TransferEntry(to: string, amount: Option<int>)

  datatype ParamError =
    | NoTransfers
    | NoRecipient(i: nat)
    | NoAmount(i: nat)
    | AmountNotPositive(i: nat)
    | TotalOutOfRange

  predicate ValidAmount(amount: Option<int>)
  {
    amount.Some? && amount.value > 0
  }

  predicate ValidEntry(e: TransferEntry)
  {
    e.to != "" && ValidAmount(e.amount)
  }

  function Amount(e: TransferEntry): nat
  {
    if ValidAmount(e.amount) then e.amount.value else 0
  }

  function TotalAmount(entries: seq<TransferEntry>): nat
  {
    if entries == [] then 0 else TotalAmount(entries[..|entries| - 1]) + Amount(entries[|entries| - 1])
  }

  predicate ValidTransfers(entries: seq<TransferEntry>)
  {
    && entries != []
    && (forall i :: 0 <= i < |entries| ==> ValidEntry(entries[i]))
    && TotalAmount(entries) < VALUE_BOUND
  }

  /** What is wrong with entry `e` at position `i`, checked in this order. */
  function EntryError(e: TransferEntry, i: nat): (r: Option<ParamError>)
    ensures r.None? <==> ValidEntry(e)
  {
    if e.to == "" then Some(NoRecipient(i))
    else if e.amount.None? then Some(NoAmount(i))
    else if e.amount.value <= 0 then Some(AmountNotPositive(i))
    else None
  }

  /** Reports the first bad entry; only a list of good entries is checked for its total. */
  method ValidateTransferParams(entries: seq<TransferEntry>) returns (r: Option<ParamError>)
    ensures r.None? <==> ValidTransfers(entries)
    ensures r == Some(NoTransfers) <==> entries == []
    ensures r == Some(TotalOutOfRange) <==>
      entries != [] && (forall i :: 0 <= i < |entries| ==> ValidEntry(entries[i]))
        && TotalAmount(entries) >= VALUE_BOUND
    ensures forall i ::
      0 <= i < |entries| && !ValidEntry(entries[i]) && (forall j :: 0 <= j < i ==> ValidEntry(entries[j]))
      ==> r == EntryError(entries[i], i)
  {
    if |entries| == 0 {
      return Some(NoTransfers);
    }
    var total := 0;
    for i := 0 to |entries|
      invariant forall j :: 0 <= j < i ==> ValidEntry(entries[j])
      invariant total == TotalAmount(entries[..i])
    {
      assert entries[..i + 1][..i] == entries[..i];
      var e := EntryError(entries[i], i);
      if e.Some? {
        return e;
      }
      total := total + entries[i].amount.value;
    }
    assert entries[..|entries|] == entries;
    r := if total >= VALUE_BOUND then Some(TotalOutOfRange) else None;
  }

  // ---------------------------------------------------------------------------
  // Addresses
  // ---------------------------------------------------------------------------

  datatype RawKeys = RawKeys(mpk: nat, viewingPub: seq<Byte>)

  lemma {:induction false} ZeroFits(k: nat)
    ensures Fits(0, k)
  {
    if k > 0 {
      ZeroFits(k - 1);
    }
  }

  function NoKeys(): (k: RawKeys)
    ensures Fits(k.mpk, 32) && |k.viewingPub| == 32
  {
    ZeroFits(32);
    RawKeys(0, Repeat<Byte>(0, 32))
  }

  /** The keys in an address: a 32-byte master public key and a 32-byte viewing key. */
  type AddressKeys = k: RawKeys | Fits(k.mpk, 32) && |k.viewingPub| == 32
    witness NoKeys()

  function DecodeKeys(address: string): Option<AddressKeys>
  {
    match Address.DecodeAddress(address)
    case None => None
    case Some(a) => Some(RawKeys(a.masterPublicKey.value, a.viewingPublicKey))
  }

  /** resolveAddress: the keys in the address a party resolved to. */
  function ResolveParty(verifiers: map<string, string>, lookup: string): Option<AddressKeys>
  {
    if lookup in verifiers then DecodeKeys(verifiers[lookup]) else None
  }

  /** Whom an output goes to: the keys, and the party that receives the note state, empty for
    * a literal "0zk" address. */
  datatype Recipient = Recipient(keys: AddressKeys, lookup: string)

  function ResolveRecipient(verifiers: map<string, string>, to: string): Option<Recipient>
  {
    if Address.IsRailgunAddress(to) then
      match DecodeKeys(to) case None => None case Some(k) => Some(Recipient(k, ""))
    else
      match ResolveParty(verifiers, to) case None => None case Some(k) => Some(Recipient(k, to))
  }

  type Resolver = string -> Option<Recipient>

  function ResolverOf(verifiers: map<string, string>): Resolver
  {
    (to: string) => ResolveRecipient(verifiers, to)
  }

  /** An identity's own address resolves to its keys, whichever chain it names. */
  lemma {:induction false} OwnAddressResolves(keys: AddressKeys, chainID: nat)
    requires Fits(chainID, 7)
    ensures var a := Address.AddressData(Some(keys.mpk), keys.viewingPub, Some(Address.Chain(0, chainID)));
      && Address.EncodeAddress(a).Some?
      && DecodeKeys(Address.EncodeAddress(a).value) == Some(keys)
  {
    Address.DecodeOfEncode(Address.AddressData(Some(keys.mpk), keys.viewingPub, Some(Address.Chain(0, chainID))));
  }

  // ---------------------------------------------------------------------------
  // Outputs
  // ---------------------------------------------------------------------------

  /** A note to be created, the party that receives it, and the owner's keys. */
  datatype OutNote = OutNote(note: Note, lookup: string, keys: AddressKeys)

  function NewOutNote(r: Recipient, token: nat, amount: nat, random: nat, leafIndex: nat): OutNote
  {
    OutNote(Note(r.keys.mpk, random, token, amount, leafIndex), r.lookup, r.keys)
  }

  /** One note per entry, at consecutive predicted positions. */
  function TransferOutputs(resolve: Resolver, token: nat, entries: seq<TransferEntry>, randoms: nat -> nat, next: nat)
    : (r: Option<seq<OutNote>>)
    ensures r.Some? ==> |r.value| == |entries|
    ensures r.Some? ==> forall i :: 0 <= i < |entries| ==> resolve(entries[i].to).Some?
    ensures r.Some? ==> forall i :: 0 <= i < |entries| ==>
      r.value[i] == NewOutNote(resolve(entries[i].to).value, token, Amount(entries[i]), randoms(i), Uint64(next + i))
    ensures r.None? ==> exists i :: 0 <= i < |entries| && resolve(entries[i].to).None?
  {
    if entries == [] then Some([])
    else
      var n := |entries| - 1;
      var init := TransferOutputs(resolve, token, entries[..n], randoms, next);
      match (init, resolve(entries[n].to))
      case (Some(outs), Some(r)) =>
        Some(outs + [NewOutNote(r, token, Amount(entries[n]), randoms(n), Uint64(next + n))])
      case (None, _) =>
        var i :| 0 <= i < n && resolve(entries[..n][i].to).None?;
        assert resolve(entries[i].to).None?;
        None
      case (_, None) => None
  }

  /** The surplus, if any, back to the sender, after the other outputs. */
  function WithChange(outputs: seq<OutNote>, sender: Recipient, token: nat, change: nat, random: nat, next: nat)
    : seq<OutNote>
  {
    if change > 0 then outputs + [NewOutNote(sender, token, change, random, Uint64(next + |outputs|))] else outputs
  }

  function RenderOutput(H: Hash, o: OutNote): PayloadOutput
  {
    PayloadOutput(Decimal(NotePublicKey(H, o.note.owner, o.note.random)), Decimal(o.note.value), Decimal(o.note.random),
                  EncodeField(o.keys.mpk), Hex(o.keys.viewingPub))
  }

  function RenderOutputs(H: Hash, outs: seq<OutNote>): (r: seq<PayloadOutput>)
    ensures |r| == |outs| && forall i :: 0 <= i < |outs| ==> r[i] == RenderOutput(H, outs[i])
  {
    if outs == [] then [] else RenderOutputs(H, outs[..|outs| - 1]) + [RenderOutput(H, outs[|outs| - 1])]
  }

  function SpendOutputOf(H: Hash, o: OutNote): SpendOutput
  {
    SpendOutput(NotePublicKey(H, o.note.owner, o.note.random), o.note.value)
  }

  // ---------------------------------------------------------------------------
  // The proving payload
  // ---------------------------------------------------------------------------

  function DecimalAll(vs: seq<nat>): (r: seq<string>)
    ensures |r| == |vs| && forall i :: 0 <= i < |vs| ==> r[i] == Decimal(vs[i])
  {
    if vs == [] then [] else DecimalAll(vs[..|vs| - 1]) + [Decimal(vs[|vs| - 1])]
  }

  function RenderInput(H: Hash, zero: nat, leaves: seq<nat>, n: Note): PayloadInput
  {
    var leafIndex := Uint64(n.leafIndex);
    PayloadInput(Decimal(n.random), Decimal(n.value), leafIndex, DecimalAll(TreePath(H, zero, leaves, leafIndex)))
  }

  function RenderInputs(H: Hash, zero: nat, leaves: seq<nat>, notes: seq<Note>): (r: seq<PayloadInput>)
    ensures |r| == |notes| && forall i :: 0 <= i < |notes| ==> r[i] == RenderInput(H, zero, leaves, notes[i])
  {
    if notes == [] then []
    else RenderInputs(H, zero, leaves, notes[..|notes| - 1]) + [RenderInput(H, zero, leaves, notes[|notes| - 1])]
  }

  function PlaceholderCiphertext(): CommitmentCiphertext
  {
    var z := Repeat<Byte>(0, 32);
    CommitmentCiphertext([z, z, z, z], z, z, "0x", [])
  }

  function Placeholders(n: nat): (cts: seq<CommitmentCiphertext>)
    ensures |cts| == n
  {
    if n == 0 then [] else Placeholders(n - 1) + [PlaceholderCiphertext()]
  }

  function TokenString(token: nat): string
    requires Fits(token, 20)
  {
    "0x" + Hex(ToBE(token, 20))
  }

  /** A token's address string is its twenty bytes in prefixed hex. */
  lemma {:induction false} TokenStringIs(token: nat)
    requires Fits(token, 20)
    ensures var s := TokenString(token);
      |s| == 42 && s[..2] == "0x" && Unhex(s[2..]) == Some(ToBE(token, 20))
  {
    var h := Hex(ToBE(token, 20));
    UnhexHex(ToBE(token, 20));
    assert ("0x" + h)[2..] == h;
  }

  /** One ciphertext slot per output, minus the unshield output. */
  function BuildPayload(env: Env, leaves: seq<nat>, token: nat, notes: seq<Note>, outputs: seq<PayloadOutput>,
                        unshield: bool, unshieldValue: string, txID: string): ProvingPayload
    requires Fits(token, 20) && (unshield ==> outputs != [])
  {
    ProvingPayload(Decimal(token), TokenString(token), Decimal(TreeRoot(env.H, env.zero, leaves)),
                   RenderInputs(env.H, env.zero, leaves, notes), outputs,
                   BoundParams(unshield, env.chainID, Placeholders(if unshield then |outputs| - 1 else |outputs|)),
                   unshieldValue, txID)
  }

  method RenderOneInput(env: Env, tree: MerkleTree<nat>, n: Note) returns (r: PayloadInput)
    requires tree.Valid() && tree.hash == Pair(env.H) && tree.depth == MERKLE_DEPTH && tree.zeros[0] == env.zero
    ensures r == RenderInput(env.H, env.zero, tree.leaves, n)
  {
    var leafIndex := Uint64(n.leafIndex);
    var path := tree.Proof(leafIndex);
    var pathStr: seq<string> := [];
    for j := 0 to |path|
      invariant pathStr == DecimalAll(path[..j])
    {
      assert path[..j + 1][..j] == path[..j];
      pathStr := pathStr + [Decimal(path[j])];
    }
    assert path[..|path|] == path;
    r := PayloadInput(Decimal(n.random), Decimal(n.value), leafIndex, pathStr);
  }

  method RenderAllInputs(env: Env, tree: MerkleTree<nat>, notes: seq<Note>) returns (inputs: seq<PayloadInput>)
    requires tree.Valid() && tree.hash == Pair(env.H) && tree.depth == MERKLE_DEPTH && tree.zeros[0] == env.zero
    ensures inputs == RenderInputs(env.H, env.zero, tree.leaves, notes)
  {
    inputs := [];
    for i := 0 to |notes|
      invariant inputs == RenderInputs(env.H, env.zero, tree.leaves, notes[..i])
    {
      assert notes[..i + 1][..i] == notes[..i];
      var input := RenderOneInput(env, tree, notes[i]);
      inputs := inputs + [input];
    }
    assert notes[..|notes|] == notes;
  }

  method BuildProvingPayload(env: Env, tree: MerkleTree<nat>, token: nat, notes: seq<Note>, outputs: seq<PayloadOutput>,
                             unshield: bool, unshieldValue: string, txID: string) returns (p: ProvingPayload)
    requires Fits(token, 20) && (unshield ==> outputs != [])
    requires tree.Valid() && tree.hash == Pair(env.H) && tree.depth == MERKLE_DEPTH && tree.zeros[0] == env.zero
    ensures p == BuildPayload(env, tree.leaves, token, notes, outputs, unshield, unshieldValue, txID)
  {
    var root := tree.Root();
    var inputs := RenderAllInputs(env, tree, notes);
    var numCiphertext := |outputs|;
    if unshield {
      numCiphertext := numCiphertext - 1;
    }
    var cts: seq<CommitmentCiphertext> := [];
    for i := 0 to numCiphertext
      invariant cts == Placeholders(i)
    {
      cts := cts + [PlaceholderCiphertext()];
    }
    p := ProvingPayload(Decimal(token), TokenString(token), Decimal(root), inputs, outputs,
                        BoundParams(unshield, env.chainID, cts), unshieldValue, txID);
  }

  // ---------------------------------------------------------------------------
  // Reading the payload back
  // ---------------------------------------------------------------------------

  lemma {:induction false} PathReadsBack(path: seq<nat>)
    ensures Collect(DecodeNat, DecimalAll(path)) == Some(path)
  {
    forall i | 0 <= i < |path| ensures DecodeNat(DecimalAll(path)[i]) == Some(path[i]) {
      DecodeNatOfDecimal(path[i]);
    }
    CollectIs(DecodeNat, DecimalAll(path), path);
  }

  lemma {:induction false} InputReadsBack(H: Hash, zero: nat, leaves: seq<nat>, n: Note)
    requires n.leafIndex < 0x1_0000_0000_0000_0000
    ensures DecodeInput(RenderInput(H, zero, leaves, n)) == Some(InputFor(H, zero, leaves, n))
  {
    DecodeNatOfDecimal(n.random);
    DecodeNatOfDecimal(n.value);
    PathReadsBack(TreePath(H, zero, leaves, n.leafIndex));
  }

  function InputsFor(H: Hash, zero: nat, leaves: seq<nat>, notes: seq<Note>): (r: seq<SpendInput>)
    ensures SpendsFrom(H, zero, leaves, notes, r)
  {
    seq(|notes|, i requires 0 <= i < |notes| => InputFor(H, zero, leaves, notes[i]))
  }

  lemma {:induction false} InputsReadBack(H: Hash, zero: nat, leaves: seq<nat>, notes: seq<Note>)
    requires forall i :: 0 <= i < |notes| ==> notes[i].leafIndex < 0x1_0000_0000_0000_0000
    ensures Collect(DecodeInput, RenderInputs(H, zero, leaves, notes)) == Some(InputsFor(H, zero, leaves, notes))
  {
    var rendered, inputs := RenderInputs(H, zero, leaves, notes), InputsFor(H, zero, leaves, notes);
    forall i | 0 <= i < |notes| ensures DecodeInput(rendered[i]) == Some(inputs[i]) {
      InputReadsBack(H, zero, leaves, notes[i]);
    }
    CollectIs(DecodeInput, rendered, inputs);
  }

  /** The payload output's npk and value are the given numbers, in decimal. */
  ghost predicate Renders(o: PayloadOutput, s: SpendOutput)
  {
    o.npk == Decimal(s.npk) && o.noteValue == Decimal(s.noteValue)
  }

  lemma {:induction false} OutputsReadBack(outputs: seq<PayloadOutput>, outs: seq<SpendOutput>)
    requires |outputs| == |outs| && forall i :: 0 <= i < |outs| ==> Renders(outputs[i], outs[i])
    ensures Collect(DecodeOutput, outputs) == Some(outs)
  {
    forall i | 0 <= i < |outs| ensures DecodeOutput(outputs[i]) == Some(outs[i]) {
      DecodeNatOfDecimal(outs[i].npk);
      DecodeNatOfDecimal(outs[i].noteValue);
    }
    CollectIs(DecodeOutput, outputs, outs);
  }

  /** A token address read back from its string is the circuit's token id. */
  lemma {:induction false} TokenReadsBack(token: nat)
    requires Fits(token, 20)
    ensures DecodeNat(TokenString(token)) == Some(token)
  {
    DecodeHexBytes(ToBE(token, 20));
  }

  /** The numbers the prover works from are the ones the handler put in. */
  lemma {:induction false} PayloadReadsBack(env: Env, leaves: seq<nat>, token: nat, notes: seq<Note>,
                                            outputs: seq<PayloadOutput>, outs: seq<SpendOutput>, unshield: bool,
                                            unshieldValue: string, txID: string)
    requires Fits(token, 20) && (unshield ==> outputs != [])
    requires forall i :: 0 <= i < |notes| ==> notes[i].leafIndex < 0x1_0000_0000_0000_0000
    requires |outputs| == |outs| && forall i :: 0 <= i < |outs| ==> Renders(outputs[i], outs[i])
    ensures var p := BuildPayload(env, leaves, token, notes, outputs, unshield, unshieldValue, txID);
      && DecodeNat(p.token) == Some(token)
      && DecodeNat(p.merkleRoot) == Some(TreeRoot(env.H, env.zero, leaves))
      && Collect(DecodeInput, p.inputs) == Some(InputsFor(env.H, env.zero, leaves, notes))
      && Collect(DecodeOutput, p.outputs) == Some(outs)
  {
    DecodeNatOfDecimal(token);
    DecodeNatOfDecimal(TreeRoot(env.H, env.zero, leaves));
    InputsReadBack(env.H, env.zero, leaves, notes);
    OutputsReadBack(outputs, outs);
  }

  // ---------------------------------------------------------------------------
  // Assemble
  // ---------------------------------------------------------------------------

  datatype Outcome =
    | Assembled(inputs: seq<NoteSelection.State>, outputs: seq<OutNote>, payload: ProvingPayload)
    | Reverted(reason: NoteSelection.Outcome)
    | Failed

  function NotesOf(states: seq<NoteSelection.State>): (notes: seq<Note>)
    requires Decodable(states)
    ensures |notes| == |states| && forall i :: 0 <= i < |states| ==> notes[i] == states[i].data.value
  {
    seq(|states|, i requires 0 <= i < |states| => states[i].data.value)
  }

  /** How a handler renders the tree, the notes taken and the new notes for the prover. */
  type PayloadBuilder = (seq<nat>, seq<Note>, seq<OutNote>) -> ProvingPayload

  function TransferBuilder(env: Env, token: nat, txID: string): PayloadBuilder
    requires Fits(token, 20)
  {
    (leaves: seq<nat>, notes: seq<Note>, outs: seq<OutNote>) =>
      BuildPayload(env, leaves, token, notes, RenderOutputs(env.H, outs), false, "", txID)
  }

  /** Transfer: pay the entries, keep the change. */
  function FinishTransfer(build: PayloadBuilder, resolve: Resolver, leaves: seq<nat>, sender: Recipient, token: nat,
                          entries: seq<TransferEntry>, states: seq<NoteSelection.State>, total: nat,
                          randoms: nat -> nat): Outcome
    requires Decodable(states) && total >= TotalAmount(entries)
  {
    match TransferOutputs(resolve, token, entries, randoms, |leaves|)
    case None => Failed
    case Some(paid) =>
      var outs := WithChange(paid, sender, token, total - TotalAmount(entries), randoms(|paid|), |leaves|);
      Assembled(states, outs, build(leaves, NotesOf(states), outs))
  }

  function TransferFrom(build: PayloadBuilder, resolve: Resolver, available: nat -> seq<NoteSelection.State>,
                        leafRows: seq<TreeLoading.LeafRow>, sender: Recipient, token: nat, entries: seq<TransferEntry>,
                        randoms: nat -> nat): Outcome
    requires SortedByCreated(leafRows)
  {
    var target := TotalAmount(entries);
    var selection := NoteSelection.Select(available(sender.keys.mpk), target);
    if !selection.Selected? then Reverted(selection)
    else
      match TreeLoading.LoadedLeaves(leafRows)
      case None => Failed
      case Some(leaves) =>
        NoteSelection.SelectedIsCover(available(sender.keys.mpk), target);
        FinishTransfer(build, resolve, leaves, sender, token, entries, selection.states, selection.total, randoms)
  }

  function AssembleTransfer(env: Env, verifiers: map<string, string>, available: nat -> seq<NoteSelection.State>,
                            leafRows: seq<TreeLoading.LeafRow>, from: string, token: nat, entries: seq<TransferEntry>,
                            randoms: nat -> nat, txID: string): Outcome
    requires Fits(token, 20) && SortedByCreated(leafRows)
  {
    match ResolveParty(verifiers, from)
    case None => Failed
    case Some(keys) =>
      TransferFrom(TransferBuilder(env, token, txID), ResolverOf(verifiers), available, leafRows, Recipient(keys, from),
                   token, entries, randoms)
  }

  /** The unshield's change note carries no keys in its payload: it stays unencrypted. */
  function ChangeOutput(H: Hash, o: OutNote): PayloadOutput
  {
    PayloadOutput(Decimal(NotePublicKey(H, o.note.owner, o.note.random)), Decimal(o.note.value), "", "", "")
  }

  function UnshieldOutput(to: nat, amount: nat): PayloadOutput
  {
    PayloadOutput(Decimal(to), Decimal(amount), "", "", "")
  }

  /** The change notes, of which an unshield has one, and then the withdrawal. */
  function UnshieldOutputs(H: Hash, changes: seq<OutNote>, to: nat, amount: nat): (r: seq<PayloadOutput>)
    ensures |r| == |changes| + 1
  {
    seq(|changes|, i requires 0 <= i < |changes| => ChangeOutput(H, changes[i])) + [UnshieldOutput(to, amount)]
  }

  function UnshieldBuilder(env: Env, token: nat, to: nat, amount: nat, txID: string): PayloadBuilder
    requires Fits(token, 20)
  {
    (leaves: seq<nat>, notes: seq<Note>, changes: seq<OutNote>) =>
      BuildPayload(env, leaves, token, notes, UnshieldOutputs(env.H, changes, to, amount), true, Decimal(amount), txID)
  }

  /** Unshield: a change note always, even of value zero. */
  function FinishUnshield(build: PayloadBuilder, leaves: seq<nat>, sender: Recipient, token: nat, amount: nat,
                          states: seq<NoteSelection.State>, total: nat, random: nat): Outcome
    requires Decodable(states) && total >= amount
  {
    var change := NewOutNote(sender, token, total - amount, random, Uint64(|leaves|));
    Assembled(states, [change], build(leaves, NotesOf(states), [change]))
  }

  function UnshieldFrom(build: PayloadBuilder, available: nat -> seq<NoteSelection.State>,
                        leafRows: seq<TreeLoading.LeafRow>, sender: Recipient, token: nat, amount: nat, random: nat)
    : Outcome
    requires SortedByCreated(leafRows)
  {
    var selection := NoteSelection.Select(available(sender.keys.mpk), amount);
    if !selection.Selected? then Reverted(selection)
    else
      match TreeLoading.LoadedLeaves(leafRows)
      case None => Failed
      case Some(leaves) =>
        NoteSelection.SelectedIsCover(available(sender.keys.mpk), amount);
        FinishUnshield(build, leaves, sender, token, amount, selection.states, selection.total, random)
  }

  function AssembleUnshield(env: Env, verifiers: map<string, string>, available: nat -> seq<NoteSelection.State>,
                            leafRows: seq<TreeLoading.LeafRow>, from: string, token: nat, to: nat, amount: nat,
                            random: nat, txID: string): Outcome
    requires Fits(token, 20) && SortedByCreated(leafRows)
  {
    match ResolveParty(verifiers, from)
    case None => Failed
    case Some(keys) =>
      UnshieldFrom(UnshieldBuilder(env, token, to, amount, txID), available, leafRows, Recipient(keys, from), token,
                   amount, random)
  }

  /** Shield: one note for the recipient at the predicted position, no proof. */
  function AssembleShield(verifiers: map<string, string>, leafRows: seq<TreeLoading.LeafRow>, to: string, token: nat,
                          amount: nat, random: nat)
    : Option<OutNote>
    requires SortedByCreated(leafRows)
  {
    match (ResolveParty(verifiers, to), TreeLoading.LoadedLeaves(leafRows))
    case (Some(keys), Some(leaves)) => Some(NewOutNote(Recipient(keys, to), token, amount, random, Uint64(|leaves|)))
    case _ => None
  }

  datatype ShieldRequest = ShieldRequest(preimage: Events.Preimage, shieldKey: string)

  /** Prepare for a shield: the note's preimage, and the transaction id in the unused key. */
  function PrepareShield(H: Hash, n: Note, txID: string): ShieldRequest
  {
    ShieldRequest(Events.Preimage(NotePublicKey(H, n.owner, n.random), n.token, n.value), txID)
  }

  // ---------------------------------------------------------------------------
  // The implementation of transfer and unshield
  // ---------------------------------------------------------------------------

  /** The stores behind the two queries: what the state store answers is honest. */
  ghost predicate Stores(noteQuery: nat -> Query<Note>, leafQuery: Query<TreeLoading.TreeLeaf>,
                         available: nat -> seq<NoteSelection.State>, leafRows: seq<TreeLoading.LeafRow>)
  {
    && (forall mpk: nat :: Truthful(noteQuery(mpk), available(mpk), NoteSelection.PAGE)
         && SortedByCreated(available(mpk)) && NoteSelection.EndsStamped(available(mpk)))
    && Truthful(leafQuery, leafRows, TreeLoading.LEAF_PAGE) && SortedByCreated(leafRows)
    && TreeLoading.MovesOn(leafRows)
  }

  /** Some query the sender's operation may issue fails. */
  ghost predicate StoreFails(noteQuery: Query<Note>, leafQuery: Query<TreeLoading.TreeLeaf>)
  {
    !Answers(noteQuery) || !Answers(leafQuery)
  }

  /** The outcome specified, unless a query fails: then nothing is assembled instead. */
  ghost predicate AsSpecified(r: Outcome, spec: Outcome, failed: bool)
  {
    r == spec || (failed && r.Failed?)
  }

  /** The common start of both handlers: select the sender's notes, then load the tree. */
  method PrepareSpend(env: Env, noteQuery: nat -> Query<Note>, leafQuery: Query<TreeLoading.TreeLeaf>, mpk: nat,
                      target: int, ghost available: nat -> seq<NoteSelection.State>,
                      ghost leafRows: seq<TreeLoading.LeafRow>)
    returns (inputs: NoteSelection.Outcome, tree: MerkleTree<nat>, next: nat, ok: bool)
    requires Stores(noteQuery, leafQuery, available, leafRows)
    ensures inputs == NoteSelection.Select(available(mpk), target) || (inputs.QueryFailed? && !Answers(noteQuery(mpk)))
    ensures inputs.Selected? ==> Decodable(inputs.states) && inputs.total >= target
    ensures tree.Valid() && tree.hash == Pair(env.H) && tree.depth == MERKLE_DEPTH && tree.zeros[0] == env.zero
    ensures ok ==> TreeLoading.LoadedLeaves(leafRows) == Some(tree.leaves) && next == |tree.leaves|
    ensures !ok ==> TreeLoading.LoadedLeaves(leafRows).None? || !Answers(leafQuery)
  {
    inputs := NoteSelection.PrepareInputsForTransfer(noteQuery(mpk), target);
    NoteSelection.ServedTruthfully(noteQuery(mpk), available(mpk), target);
    if inputs.Selected? {
      NoteSelection.SelectedIsCover(available(mpk), target);
    }
    tree, next, ok := TreeLoading.LoadTree(leafQuery, Pair(env.H), env.zero, leafRows);
    if Answers(leafQuery) {
      TreeLoading.AnsweredAlways(leafQuery, 0, 0, leafRows, 0);
    }
  }

  /** Totals the entries. */
  method SumEntries(entries: seq<TransferEntry>) returns (total: nat)
    ensures total == TotalAmount(entries)
  {
    total := 0;
    for i := 0 to |entries|
      invariant total == TotalAmount(entries[..i])
    {
      assert entries[..i + 1][..i] == entries[..i];
      total := total + Amount(entries[i]);
    }
    assert entries[..|entries|] == entries;
  }

  /** Adds one output per entry; fails at the first recipient that does not resolve. */
  method PayEntries(resolve: Resolver, token: nat, entries: seq<TransferEntry>, randoms: nat -> nat, next: nat)
    returns (outs: seq<OutNote>, ok: bool)
    ensures (if ok then Some(outs) else None) == TransferOutputs(resolve, token, entries, randoms, next)
  {
    outs := [];
    for i := 0 to |entries|
      invariant TransferOutputs(resolve, token, entries[..i], randoms, next) == Some(outs)
    {
      assert entries[..i + 1][..i] == entries[..i];
      var recipient := resolve(entries[i].to);
      if recipient.None? {
        return [], false;
      }
      outs := outs + [NewOutNote(recipient.value, token, Amount(entries[i]), randoms(i), Uint64(next + |outs|))];
    }
    assert entries[..|entries|] == entries;
    ok := true;
  }

  method PayFrom(env: Env, resolve: Resolver, tree: MerkleTree<nat>, sender: Recipient, token: nat,
                 entries: seq<TransferEntry>, states: seq<NoteSelection.State>, inputTotal: nat, total: nat,
                 randoms: nat -> nat, txID: string) returns (r: Outcome)
    requires Fits(token, 20) && Decodable(states) && inputTotal >= total == TotalAmount(entries)
    requires tree.Valid() && tree.hash == Pair(env.H) && tree.depth == MERKLE_DEPTH && tree.zeros[0] == env.zero
    ensures r == FinishTransfer(TransferBuilder(env, token, txID), resolve, tree.leaves, sender, token, entries, states,
                                inputTotal, randoms)
  {
    var nextLeaf := |tree.leaves|;
    var outs, ok := PayEntries(resolve, token, entries, randoms, nextLeaf);
    if !ok {
      return Failed;
    }
    outs := AddChange(outs, sender, token, inputTotal - total, randoms(|outs|), nextLeaf);
    var notes := NotesOf(states);
    var outputs := RenderOutputs(env.H, outs);
    var payload := BuildProvingPayload(env, tree, token, notes, outputs, false, "", txID);
    r := Assembled(states, outs, payload);
  }

  method AddChange(outs: seq<OutNote>, sender: Recipient, token: nat, change: nat, random: nat, next: nat)
    returns (r: seq<OutNote>)
    ensures r == WithChange(outs, sender, token, change, random, next)
  {
    r := outs;
    if change > 0 {
      r := r + [NewOutNote(sender, token, change, random, Uint64(next + |outs|))];
    }
  }

  method TransferFromSender(env: Env, resolve: Resolver, noteQuery: nat -> Query<Note>,
                            leafQuery: Query<TreeLoading.TreeLeaf>, sender: Recipient, token: nat,
                            entries: seq<TransferEntry>, randoms: nat -> nat, txID: string,
                            ghost available: nat -> seq<NoteSelection.State>, ghost leafRows: seq<TreeLoading.LeafRow>)
    returns (r: Outcome)
    requires Fits(token, 20) && Stores(noteQuery, leafQuery, available, leafRows)
    ensures AsSpecified(r,
                        TransferFrom(TransferBuilder(env, token, txID), resolve, available, leafRows, sender, token,
                                     entries, randoms),
                        StoreFails(noteQuery(sender.keys.mpk), leafQuery))
  {
    var total := SumEntries(entries);
    var inputs, tree, nextLeaf, ok :=
      PrepareSpend(env, noteQuery, leafQuery, sender.keys.mpk, total, available, leafRows);
    if inputs.QueryFailed? {
      return Failed;
    }
    if !inputs.Selected? {
      return Reverted(inputs);
    }
    if !ok {
      return Failed;
    }
    r := PayFrom(env, resolve, tree, sender, token, entries, inputs.states, inputs.total, total, randoms, txID);
  }

  method TransferAssemble(env: Env, verifiers: map<string, string>, noteQuery: nat -> Query<Note>,
                          leafQuery: Query<TreeLoading.TreeLeaf>, from: string, token: nat, entries: seq<TransferEntry>,
                          randoms: nat -> nat, txID: string, ghost available: nat -> seq<NoteSelection.State>,
                          ghost leafRows: seq<TreeLoading.LeafRow>)
    returns (r: Outcome)
    requires Fits(token, 20) && Stores(noteQuery, leafQuery, available, leafRows)
    ensures AsSpecified(r, AssembleTransfer(env, verifiers, available, leafRows, from, token, entries, randoms, txID),
                        ResolveParty(verifiers, from).Some?
                          && StoreFails(noteQuery(ResolveParty(verifiers, from).value.mpk), leafQuery))
  {
    var keys := ResolveParty(verifiers, from);
    if keys.None? {
      return Failed;
    }
    r := TransferFromSender(env, ResolverOf(verifiers), noteQuery, leafQuery, Recipient(keys.value, from), token,
                            entries, randoms, txID, available, leafRows);
  }

  method AddWithdrawal(H: Hash, change: OutNote, to: nat, amount: nat)
    returns (outStates: seq<OutNote>, outputs: seq<PayloadOutput>)
    ensures outStates == [change] && outputs == UnshieldOutputs(H, [change], to, amount)
  {
    outStates, outputs := [], [];
    outStates := outStates + [change];
    outputs := outputs + [ChangeOutput(H, change)];
    outputs := outputs + [UnshieldOutput(to, amount)];
  }

  method WithdrawFrom(env: Env, tree: MerkleTree<nat>, sender: Recipient, token: nat, to: nat, amount: nat,
                      states: seq<NoteSelection.State>, inputTotal: nat, random: nat, txID: string) returns (r: Outcome)
    requires Fits(token, 20) && Decodable(states) && inputTotal >= amount
    requires tree.Valid() && tree.hash == Pair(env.H) && tree.depth == MERKLE_DEPTH && tree.zeros[0] == env.zero
    ensures r == FinishUnshield(UnshieldBuilder(env, token, to, amount, txID), tree.leaves, sender, token, amount,
                                states, inputTotal, random)
  {
    var change := NewOutNote(sender, token, inputTotal - amount, random, Uint64(|tree.leaves|));
    var outStates, outputs := AddWithdrawal(env.H, change, to, amount);
    var payload := BuildProvingPayload(env, tree, token, NotesOf(states), outputs, true, Decimal(amount), txID);
    r := Assembled(states, outStates, payload);
  }

  method UnshieldFromSender(env: Env, noteQuery: nat -> Query<Note>, leafQuery: Query<TreeLoading.TreeLeaf>,
                            sender: Recipient, token: nat, to: nat, amount: nat, random: nat, txID: string,
                            ghost available: nat -> seq<NoteSelection.State>, ghost leafRows: seq<TreeLoading.LeafRow>)
    returns (r: Outcome)
    requires Fits(token, 20) && Stores(noteQuery, leafQuery, available, leafRows)
    ensures AsSpecified(r,
                        UnshieldFrom(UnshieldBuilder(env, token, to, amount, txID), available, leafRows, sender, token,
                                     amount, random),
                        StoreFails(noteQuery(sender.keys.mpk), leafQuery))
  {
    var inputs, tree, nextLeaf, ok :=
      PrepareSpend(env, noteQuery, leafQuery, sender.keys.mpk, amount, available, leafRows);
    if inputs.QueryFailed? {
      return Failed;
    }
    if !inputs.Selected? {
      return Reverted(inputs);
    }
    if !ok {
      return Failed;
    }
    r := WithdrawFrom(env, tree, sender, token, to, amount, inputs.states, inputs.total, random, txID);
  }

  method UnshieldAssemble(env: Env, verifiers: map<string, string>, noteQuery: nat -> Query<Note>,
                          leafQuery: Query<TreeLoading.TreeLeaf>, from: string, token: nat, to: nat, amount: nat,
                          random: nat, txID: string, ghost available: nat -> seq<NoteSelection.State>,
                          ghost leafRows: seq<TreeLoading.LeafRow>)
    returns (r: Outcome)
    requires Fits(token, 20) && Stores(noteQuery, leafQuery, available, leafRows)
    ensures AsSpecified(r, AssembleUnshield(env, verifiers, available, leafRows, from, token, to, amount, random, txID),
                        ResolveParty(verifiers, from).Some?
                          && StoreFails(noteQuery(ResolveParty(verifiers, from).value.mpk), leafQuery))
  {
    var keys := ResolveParty(verifiers, from);
    if keys.None? {
      return Failed;
    }
    r := UnshieldFromSender(env, noteQuery, leafQuery, Recipient(keys.value, from), token, to, amount, random, txID,
                            available, leafRows);
  }
}
