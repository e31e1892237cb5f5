# A verified model of the Railgun domain

The repository is a Paladin domain for Railgun: a ledger of shielded notes.  A note is
hidden behind a Poseidon commitment that the Railgun contract keeps as a leaf of an
append-only Merkle tree; it is spent by publishing a nullifier.  The domain selects notes,
predicts the leaf positions of the notes it creates, rebuilds the tree from recorded leaves,
assembles the joinsplit witness and the on-chain transaction, and replays the contract's
events into confirmations, leaves, spends and completions.  This project models that logic in
Dafny 4.11 and proves what it is for.  `dafny verify dfyconfig.toml` checks all of it.

## How it is organised

| file | part of the system |
|---|---|
| `CommitmentTree` | the Merkle tree, against the complete zero-padded tree |
| `Paging`, `NoteSelection`, `TreeLoading` | paged queries; input selection and balances; rebuilding the tree |
| `Notes`, `NoteStates`, `JoinSplit` | notes and their hashes; note objects and state ids; the witness and the relation it proves |
| `Bytes`, `Fields`, `Bech32`, `ChecksumCode`, `Address` | bytes and XOR; decimal and hex fields; bech32m and the code behind its checksum; "0zk" addresses |
| `NoteCiphertext` | blinding, shared keys, block framing, note encryption |
| `Events` | event correlation and replay |
| `Proving`, `Assembly`, `Spending` | payload to transaction; the handlers' Assemble; what the two give together |
| `Contract`, `Ledger` | the contract as environment; the ledger state machine and its invariant |
| `Operations`, `Settlement`, `Landing`, `LedgerSafety`, `Overlap`, `Liveness`, `Delivery`, `Arrival` | what each operation plans; what mining does to the stored notes; that calls are accepted; safety over all runs; what overlapping operations do; when a spend goes through; what its recipient reads; whom it is distributed to and where it arrives |
| `Receipts`, `AssembledReceipts` | who paid whom, from a transaction's notes; the receipts of assembled operations |
| `Constants` | the numbers, as their standards define them |
| `Wrappers`, `Arithmetic` | helpers |

Code that works step by step in the original (the tree, the paged loops, the payload loops,
the in-place ciphertext replacement, the event handlers, the address buffer, the group-by) is
a method or a class here, with a contract that equates its result with a specification
function; the theorems are about those functions.  The ledger is a state machine over values:
one step assembles an operation, writes its pending states, and, unless its call is lost,
submits it to the contract and replays the events.

## What is assumed

- Poseidon is a function `H`.  Where a proof needs that hashes do not collide, `Injective(H)`
  is a hypothesis of that lemma.  Tree roots that occur are assumed to be field elements.
- The curve, the ciphers and the other hashes are functions that obey `NoteCiphertext.Lawful`;
  signatures obey `JoinSplit.KeyPair`.  A proof is the witness itself, and verifying it is
  checking the relation.
- The state store's answers are sorted pages (`Paging.Truthful`; a query may fail) and hold,
  for an owner, the confirmed and unspent notes with a recorded nullifier.
- Runs are sequential (integration-test/README.md:52-54), and nobody outside the modelled
  parties uses the contract.  `Overlap.OverlapExactly` and `Overlap.OverlapLosesValue`
  say what overlap breaks, `Overlap.OverlappingSpends` that it never spends a note twice.
- One tree of at most 2^16 leaves: the events' tree number is not read
  (domain-impl/internal/railgun/handler_events.go:69-76).
- No shield fee; `Contract.ShieldedIdIffNoFee` is the exact condition.
- Leaf rows are stamped so that no equal stamps straddle a page of one hundred;
  `TreeLoading.LoadsChainExactly` and `TreeLoading.LoadsUpTo` give the exact conditions.
- Note randoms are fresh.

One token per sender is not assumed: conservation and safety hold for any mixture of tokens,
because the circuit refuses a spend of another token.  `Liveness.TransferGoesThrough` says
exactly when that, or a recipient's viewing key that is not a curve point, stops an assembled
transfer.  Unshield amounts have no upper bound in the parameter check;
`Liveness.UnshieldGoesThrough` gives the bound the circuit imposes.


## Model

| member | source | states |
|---|---|---|
| CommitmentTree.ZeroLevels | domain-impl/internal/railgun/railgunnote/merkle.go:40-52 | the empty-subtree value of every level, each the hash of two of the level below |
| CommitmentTree.MerkleTree.constructor | domain-impl/internal/railgun/railgunnote/merkle.go:63-69 | a new tree of any depth is valid and empty |
| CommitmentTree.MerkleTree.Insert | domain-impl/internal/railgun/railgunnote/merkle.go:72-76 | appends one leaf, without a cap, and returns its index |
| CommitmentTree.MerkleTree.Build | domain-impl/internal/railgun/railgunnote/merkle.go:83-103 | per level, a stored node is the reference node of the zero-padded complete tree, and a node is stored exactly when a leaf lies beneath it |
| CommitmentTree.MerkleTree.HashLevel | domain-impl/internal/railgun/railgunnote/merkle.go:91-101 | one round of build: from the stored level below, exactly the stored nodes of the level above |
| CommitmentTree.WidthCountsOccupied | domain-impl/internal/railgun/railgunnote/merkle.go:91-101 | the stored positions of a level are exactly those with a leaf beneath: counted by repeated halving |
| CommitmentTree.UnoccupiedIsZero | domain-impl/internal/railgun/railgunnote/merkle.go:105-110 | the default for a missing node is its true value in the reference tree |
| CommitmentTree.MerkleTree.NodeFrom | domain-impl/internal/railgun/railgunnote/merkle.go:105-110 | stored or defaulted, the value is the reference node |
| CommitmentTree.MerkleTree.Root | domain-impl/internal/railgun/railgunnote/merkle.go:113-122 | the top node of the reference tree, empty tree included |
| CommitmentTree.MerkleTree.Proof | domain-impl/internal/railgun/railgunnote/merkle.go:126-136 | the sibling path of the reference tree, for any index, occupied or not |
| CommitmentTree.VerifyProof | domain-impl/internal/railgun/railgunnote/merkle.go:140-158 | the folding loop with idx/2 steps computes the recursive fold of leaf and path |
| CommitmentTree.ProofReachesRoot | domain-impl/internal/railgun/railgunnote/merkle.go:126-158 | for every index below 2^depth, the leaf there (or zero) folds with its own path to the root |
| CommitmentTree.ProveAndVerify | domain-impl/internal/railgun/railgunnote/merkle.go:113-158 | Root, Proof and VerifyProof agree for every index below 2^depth |
| CommitmentTree.RootBindsPosition | domain-impl/internal/railgun/railgunnote/merkle.go:126-158 | under an injective hash, a leaf and a depth-long path verify at an index if and only if they are the leaf and the path of the tree |
| CommitmentTree.RootCommitsToLeaves | domain-impl/internal/railgun/railgunnote/merkle.go:72-122 | two trees have the same root if and only if their first 2^depth zero-padded leaves agree: leaves past that do not reach the root |
| CommitmentTree.OverflowLeafProvableExactly | domain-impl/internal/railgun/railgunnote/merkle.go:72-76 | Insert has no cap: a leaf at any index verifies with its own proof if and only if its block of 2^depth leaves repeats the first block, position by position |
| CommitmentTree.OverflowLeafNotProvable | domain-impl/internal/railgun/railgunnote/merkle.go:72-76 | so a leaf past 2^depth does not verify if it differs from the leaf at its index modulo 2^depth |
| NoteSelection.PrepareInputsForTransfer | domain-impl/internal/railgun/fungible/states.go:122-172 | whatever pages the query serves, it ends; a selection is a shortest covering list of at most ten decodable notes, and the outcome is that of the recursive specification |
| NoteSelection.ServedCover | domain-impl/internal/railgun/fungible/states.go:136-171 | for an arbitrary query, what is selected covers the target and the last note was needed; insufficient funds only below the target |
| NoteSelection.ServedHonestly | domain-impl/internal/railgun/fungible/states.go:136-171 | on an honest, sorted store the paged loop gives the outcome of selecting on the whole list if and only if the store is empty, its last stamp is positive, or the outcome is not insufficient funds; equal stamps do no harm |
| NoteSelection.ServedTruthfully | domain-impl/internal/railgun/fungible/states.go:136-171 | under that condition, when queries may fail, the outcome is still that one or the failure of a query |
| NoteSelection.SelectionExactly | domain-impl/internal/railgun/fungible/states.go:151-171 | selected if and only if some prefix of at most ten notes covers, and then the shortest; max-notes if and only if ten fall short; insufficient if and only if fewer than ten exist and all fall short |
| NoteSelection.ChangeBelowLastNote | domain-impl/internal/railgun/fungible/states.go:155-169 | the surplus is strictly less than the last note selected |
| NoteSelection.UnstampedNoteTakenTwice | domain-impl/internal/railgun/fungible/states.go:142-144 | an unstamped note is read again by the next query and counted twice: one note of 5 covers 10 |
| NoteSelection.AccountBalance | domain-impl/internal/railgun/fungible/states.go:237-266 | count, total and overflow of the one page queried; the first bad note stops it |
| NoteSelection.BalanceExactly | domain-impl/internal/railgun/fungible/states.go:237-266 | without overflow the total is that of all notes of the owner; overflow if and only if a thousand or more exist, and then a lower bound |
| TreeLoading.LoadTree | domain-impl/internal/railgun/fungible/states.go:180-231 | on every store on which the loop ends: succeeds if and only if every query issued is answered and all rows read decode; the tree then holds exactly the loaded leaves and next is their number |
| TreeLoading.ReadLeaves | domain-impl/internal/railgun/fungible/states.go:187-214 | the paged loop reads exactly the rows of the recursive reader, page by page by strict stamp, and fails exactly when a query it issues fails or a row does not decode |
| TreeLoading.LoopEndsExactly | domain-impl/internal/railgun/fungible/states.go:187-214 | when queries are answered the loop ends if and only if the first page is not full, or has a row that does not decode, or its last stamp is positive; otherwise it reads that page forever |
| TreeLoading.InsertContiguous | domain-impl/internal/railgun/fungible/states.go:222-230 | the leaves inserted are the longest run of indices from 0 in the sorted list |
| TreeLoading.ReadsAllExactly | domain-impl/internal/railgun/fungible/states.go:187-214 | every row is read if no equal-stamp group straddles a page boundary, and reading as many rows as there are implies it |
| TreeLoading.LoadsPrefix | domain-impl/internal/railgun/fungible/states.go:180-231 | rows drawn from one chain tree, in any order, repeated, missing or cut off, load as a prefix of the chain's leaves |
| TreeLoading.LoadsUpTo | domain-impl/internal/railgun/fungible/states.go:222-230 | rows drawn from a chain, gaps and repetitions allowed: the first k leaves are loaded if and only if the indices before k are all there, none but perhaps the last repeated, and k is missing or the index before it is repeated |
| TreeLoading.LoadsToFirstGap | domain-impl/internal/railgun/fungible/states.go:222-230 | without repetitions, and no tie across pages, exactly the leaves before the first gap are loaded |
| TreeLoading.RepeatedLeafHidesNext | domain-impl/internal/railgun/fungible/states.go:222-230 | with leaf 0 recorded twice, leaf 1 is not loaded although it is contiguous |
| TreeLoading.LoadsChainExactly | domain-impl/internal/railgun/fungible/states.go:180-231 | a complete record loads as the whole chain if and only if no tie straddles a page |
| TreeLoading.TieLosesLastLeaf | domain-impl/internal/railgun/fungible/states.go:187-214 | of a hundred and one leaves with one stamp, the last is never read |
| Notes.CommitmentOpensOneWay | domain-impl/internal/railgun/railgunnote/note.go:76-89 | under an injective hash a commitment fixes owner, random, token and value |
| Notes.NullifierOpensOneWay | domain-impl/internal/railgun/railgunnote/note.go:92-95 | a nullifier fixes nullifying key and leaf index |
| Notes.AddressFixesNullifyingKey | domain-impl/internal/railgun/railgunnote/note.go:61-73 | equal master public keys have equal nullifying keys |
| Notes.NullifyingKeyOpensOneWay | domain-impl/internal/railgun/railgunnote/note.go:61-63 | the nullifying key is the hash of the viewing key as a field element: two wallets have the same one only if their viewing keys are equal modulo the field order |
| Notes.RecordedNullifierOpensOneWay | domain-impl/pkg/railgunsignerapi/nullifier.go:41-64 | the recorded nullifier is the hash of the hashed viewing key and the 64-bit index, and comes from one viewing key and one index |
| Notes.AddressFixesWallet | domain-impl/internal/railgun/railgunnote/note.go:66-73 | a master public key comes from one spending point and, modulo the field order, one viewing key |
| NoteStates.RailgunNote.Hash | domain-impl/pkg/types/states.go:79-92 | memoised or not, the hash is that of the fields, and only the memo changes |
| NoteStates.IdBindsAllButIndex | domain-impl/internal/railgun/railgun.go:414-424 | two notes pass validation under one given id if and only if they differ at most in leaf index: the id does not protect the predicted index |
| NoteStates.FilledIdIsAccepted | domain-impl/internal/railgun/railgun.go:414-424 | an empty id is filled in, and what is filled in passes when it is given |
| JoinSplit.BuildWitness | domain-impl/internal/railgun/railgunnote/witness.go:64-143 | the two loops fill the parallel slices as the specification says; none without inputs, outputs or complete paths |
| JoinSplit.SatisfiedExactly | domain-impl/internal/railgun/railgunnote/witness.go:64-143 | the witness for notes of the tree satisfies the joinsplit relation if and only if the notes have the token spent, outputs are below 2^120, and values balance |
| JoinSplit.AcceptedExactly | domain-impl/internal/railgun/railgunnote/witness.go:64-143 | for any notes of the spender, wherever they stand: the relation holds if and only if the leaf at each note's index is its commitment in the token spent, outputs are below 2^120, and values balance |
| JoinSplit.MisplacedNoteUnspendable | domain-impl/internal/railgun/railgunnote/merkle.go:140-158 | a note at whose index another note's commitment stands satisfies no witness, in any token |
| JoinSplit.SignatureChecks | domain-impl/internal/railgun/railgunnote/note.go:99-123 | the signature made over unreduced signals verifies over the reduced ones |
| JoinSplit.WitnessNullifiersAreRecorded | domain-impl/pkg/railgunsignerapi/nullifier.go:41-64 | the witness nullifiers are the ones recorded with the stored notes |
| JoinSplit.TreeBinds | domain-impl/internal/railgun/railgunnote/merkle.go:126-158 | a value folds to the 16-level root along the path of an index if and only if it is the leaf there |
| JoinSplit.NodeHashes | domain-impl/internal/railgun/railgunnote/merkle.go:91-101 | every node of the tree is the hash of its left child and then its right, missing leaves being the zero value |
| JoinSplit.SignsTheSignals | domain-impl/internal/railgun/railgunnote/note.go:99-123 | with hashes in the field, the signature is over the witness signals themselves: root, bound parameters, nullifiers and commitments, in this order |
| JoinSplit.MessageOpensOneWay | domain-impl/internal/railgun/railgunnote/note.go:99-116 | under an injective hash, two signed messages are equal only for the same root, bound parameters, nullifiers and commitments as field elements |
| Address.EncodeRailgunAddress | domain-impl/internal/railgun/railgunnote/address.go:69-98 | the 73-byte buffer filled in place is the address payload; fails exactly when a field does not fit |
| Address.ChainToNetworkID | domain-impl/internal/railgun/railgunnote/address.go:162-176 | the shift loop packs type and 56-bit id; ids of 2^56 and more are refused |
| Address.UnpackNetworkID | domain-impl/internal/railgun/railgunnote/address.go:178-187 | the shift loop reads the chain back; eight ones mean all chains |
| Address.XorNetworkID | domain-impl/internal/railgun/railgunnote/address.go:189-195 | the loop XORs the mask byte by byte |
| Address.MaskedTwice | domain-impl/internal/railgun/railgunnote/address.go:189-195 | masking twice is the identity |
| Address.AddressRoundTripExactly | domain-impl/internal/railgun/railgunnote/address.go:69-138 | decode undoes encode if and only if the chain is not type 0xff with id 2^56-1, the all-chains sentinel |
| Address.DecodeOfEncode | domain-impl/internal/railgun/railgunnote/address.go:69-138 | an encoded address has 127 characters, is recognised, and decodes to what was encoded (the sentinel to all chains) |
| Address.EncodeOfDecode | domain-impl/internal/railgun/railgunnote/address.go:101-138 | encode gives back every accepted lower-case address |
| Address.AcceptedExactly | domain-impl/internal/railgun/railgunnote/address.go:101-138 | a string decodes to given contents if and only if it is their encoding, all in lower case or all in upper case |
| Address.PayloadLayout | domain-impl/internal/railgun/railgunnote/address.go:69-98 | version 1, the master key big-endian, the network id under "railgun" and a zero byte, the viewing key |
| Address.HrpExpanded | domain-impl/internal/railgun/railgunnote/address.go:40-44 | the words that enter the checksum for "0zk" are its expansion (BIP-173 section Bech32) |
| Bech32.ChecksumExactly | domain-impl/internal/railgun/railgunnote/address.go:90-98 | six words complete a data part to a valid bech32m checksum if and only if they are the computed ones (BIP-350 section Bech32m) |
| Bech32.DecodeEncoded | domain-impl/internal/railgun/railgunnote/address.go:90-117 | decoding an encoded word list gives it back |
| Bech32.EncodeDecoded | domain-impl/internal/railgun/railgunnote/address.go:101-117 | encoding what was decoded gives the lower-case string back |
| Bech32.BytesThroughWords | domain-impl/internal/railgun/railgunnote/address.go:90-94 | regrouping bytes into 5-bit words and back is the identity, with fewer than five padding bits |
| Bech32.WordsThroughBytes | domain-impl/internal/railgun/railgunnote/address.go:110-117 | words that regroup into bytes at all come back from those bytes: padding is short and zero, so unique |
| Bech32.RegroupKeepsValue | domain-impl/internal/railgun/railgunnote/address.go:90-94 | regrouped, the payload denotes the same big-endian number, shifted by fewer than five zero bits |
| Bech32.AcceptsExactly | domain-impl/internal/railgun/railgunnote/address.go:101-117 | the accepted strings are exactly the encodings in one case; mixed case is refused |
| ChecksumCode.GeneratorsArePolynomial | domain-impl/internal/railgun/railgunnote/address.go:90-98 | the checksum's five constants are the generator polynomial of the code over GF(32) and its doublings (BIP-173 section Checksum design) |
| ChecksumCode.StepIsTimesX | domain-impl/internal/railgun/railgunnote/address.go:90-98 | a checksum step multiplies the state by x and adds the word, modulo the generator polynomial |
| ChecksumCode.PolymodIsRemainder | domain-impl/internal/railgun/railgunnote/address.go:90-98 | so the checksum is the remainder of the whole string's polynomial |
| ChecksumCode.PublishedString | domain-impl/internal/railgun/railgunnote/address.go:90-98 | without data, the encoding for "a" is "a1lqfn3a" (BIP-350 section Test vectors) |
| Fields.HexEncode | domain-impl/internal/railgun/railguntx/transaction.go:231-239 | the table loop writes the two lower-case digits of every byte |
| Fields.UnhexHex | domain-impl/internal/railgun/railguntx/transaction.go:231-239 | hex reads back to the bytes it prints |
| Fields.DecodeEncoded | domain-impl/internal/railgun/railgunnote/identity.go:86-105 | DecodeField undoes EncodeField for every value below 2^256 |
| Fields.DecodeDecimal | domain-impl/internal/railgun/railgunnote/identity.go:91-105 | DecodeField undoes decimal printing |
| Fields.DecimalToBytes32 | domain-impl/internal/railgun/railguntx/transaction.go:212-221 | decToBytes32 of a decimal print is EncodeField of the value |
| Fields.HexToBytes32 | domain-impl/internal/railgun/railguntx/transaction.go:212-221 | decToBytes32 is the identity on what it prints |
| Fields.ParsesExactly | domain-impl/internal/railgun/railgunnote/identity.go:91-105 | a number is parsed if and only if it is one or more digits of the base |
| Fields.UnhexExactly | domain-impl/internal/railgun/fungible/proving.go:214-217 | a viewing key is read if and only if it is pairs of hex digits, of either case |
| Fields.BlanksIgnored | domain-impl/internal/railgun/railgunnote/identity.go:91-92 | blanks around a field element do not matter |
| Fields.Negated | domain-impl/internal/railgun/railgunnote/identity.go:91-105 | a negative decimal is read, with its sign |
| Fields.PrefixesRead | domain-impl/internal/railgun/railguntx/transaction.go:212-221 | decToBytes32 reads the base off the prefix, a leading zero meaning octal; what does not parse so is a decimal, and otherwise zero |
| NoteCiphertext.ConcatBlocks | domain-impl/internal/railgun/railguncrypto/symmetric.go:131-139 | the loop returns the concatenation and the block sizes |
| NoteCiphertext.SplitBlocks | domain-impl/internal/railgun/railguncrypto/symmetric.go:141-149 | the moving position cuts the data into blocks of the given sizes |
| NoteCiphertext.SplitOfConcat | domain-impl/internal/railgun/railguncrypto/symmetric.go:131-149 | split undoes concat for any blocks of any sizes |
| NoteCiphertext.GCMRoundTrip | domain-impl/internal/railgun/railguncrypto/symmetric.go:51-86 | sealed blocks open to the same blocks, with the same framing |
| NoteCiphertext.CTRRoundTrip | domain-impl/internal/railgun/railguncrypto/symmetric.go:97-118 | the second pass over the keystream undoes the first, block for block |
| NoteCiphertext.SealsTheBlocks | domain-impl/internal/railgun/railguncrypto/symmetric.go:51-70 | the encrypted blocks and the tag are the sealed concatenation, cut to the sizes of the plain blocks |
| NoteCiphertext.StreamsTheBlocks | domain-impl/internal/railgun/railguncrypto/symmetric.go:97-118 | the enciphered blocks are the keystream applied to the concatenation, cut to the sizes of the plain blocks |
| NoteCiphertext.ReverseBytes | domain-impl/internal/railgun/railguncrypto/blinding.go:60-66 | the in-place loop reverses |
| NoteCiphertext.ScalarIsReduced | domain-impl/internal/railgun/railguncrypto/blinding.go:53-58 | the big-endian to little-endian detour gives the number modulo the group order, and never fails (RFC 8032 section 5.1.5 encodes scalars so) |
| NoteCiphertext.UnblindInvertsExactly | domain-impl/internal/railgun/railguncrypto/blinding.go:71-106 | unblinding gives a key back if and only if the blinding scalar is not zero or the key is the zero point |
| NoteCiphertext.SharedKeysAgree | domain-impl/internal/railgun/railguncrypto/ecdh.go:42-57 | after blinding with one scalar, sender and receiver derive the same 32-byte key |
| NoteCiphertext.SharedKeyIs | domain-impl/internal/railgun/railguncrypto/ecdh.go:42-57 | the key is the SHA-256 digest of the point at the product of the sender's scalar, the recipient's and the blinding one |
| NoteCiphertext.BlindingScalarIs | domain-impl/internal/railgun/railguncrypto/blinding.go:39-58 | the blinding scalar depends on the two randoms through their XOR; with the null sender random it is the padded random's SHA-512 digest modulo the group order |
| NoteCiphertext.TransactNoteRoundTrip | domain-impl/internal/railgun/railguncrypto/note_ciphertext.go:62-131 | the receiver decrypts the token, random, value and memo encrypted, and the encoded key XORs back to the sender's |
| NoteCiphertext.EncryptsExactly | domain-impl/internal/railgun/railguncrypto/note_ciphertext.go:62-105 | encryption succeeds if and only if the seed, the IV and the note's fields have their sizes and the recipient's viewing key is a curve point |
| NoteCiphertext.TransactCiphertextIs | domain-impl/internal/railgun/railguncrypto/note_ciphertext.go:62-105 | what is written on chain: both keys blinded by the digest of the random, and the four blocks sealed under the digest of the doubly scaled recipient key, framed as IV and tag, blocks and memo |
| NoteCiphertext.ShieldRoundTrip | domain-impl/internal/railgun/railguncrypto/note_ciphertext.go:154-195 | the recipient recovers the random, the depositor the recipient's key |
| NoteCiphertext.ShieldCiphertextIs | domain-impl/internal/railgun/railguncrypto/note_ciphertext.go:154-175 | the bundle: IV and tag; the random sealed under the digest of the scaled recipient key, with the second IV; and the recipient's key enciphered by the depositor's own seed |
| Events.TxCorrelation | domain-impl/internal/railgun/handler_events.go:44-61 | the loop builds the hash-to-id map of the specification |
| Events.CorrelationExactly | domain-impl/internal/railgun/handler_events.go:44-61 | a hash maps to the id in its last tagged Shield or Transact event, and is absent without one |
| Events.CorrelatedAnywhere | domain-impl/internal/railgun/handler_events.go:44-61 | wherever the tagged event stands, every event of its transaction gets its id |
| Events.BatchResponse.RecordCommitment | domain-impl/internal/railgun/handler_events.go:123-144 | confirms the note with that id and records its leaf at the position |
| Events.LeafIdOpensOneWay | domain-impl/internal/railgun/handler_events.go:186-194 | under an injective hash, a leaf record's id comes from one position and one commitment |
| Events.LeafIdIsNoNoteId | domain-impl/internal/railgun/handler_events.go:137-143 | the id of the record of a note's leaf is the id of no note |
| Events.BatchResponse.HandleLeaves | domain-impl/internal/railgun/handler_events.go:69-91 | records the commitments at consecutive positions from the start |
| Events.BatchResponse.HandleNullified | domain-impl/internal/railgun/handler_events.go:105-118 | every nullifier is reported spent, in order |
| Events.BatchResponse.RecordComplete | domain-impl/internal/railgun/handler_events.go:147-155 | completes the originating transaction, if one is known |
| Events.BatchResponse.HandleEvent | domain-impl/internal/railgun/handler_events.go:63-118 | one event adds exactly the updates of its kind |
| Events.HandleEventBatch | domain-impl/internal/railgun/railgun.go:291-322 | the two passes give the updates of the whole batch |
| Events.LeafUpdatesAt | domain-impl/internal/railgun/handler_events.go:69-91 | the i-th commitment is confirmed and recorded at start + i |
| Events.HashesAt | domain-impl/internal/railgun/handler_events.go:157-164 | each commitment of a shield event is the hash of its own preimage |
| Events.SplitsExactly | domain-impl/internal/railgun/railgun.go:297-317 | for any cut, the batch is the two batches one after the other if and only if the cut separates no reporting event from its id: an id carried after the cut is the one already known before, and where none is carried after, none was known before |
| Events.BatchIsHomomorphic | domain-impl/internal/railgun/railgun.go:297-317 | in particular for a cut between on-chain transactions |
| Events.SplitTransactionLosesId | domain-impl/internal/railgun/railgun.go:297-317 | cut inside a transaction, a spend delivered before its Transact event has no id |
| Proving.EncryptOutputCiphertext | domain-impl/internal/railgun/fungible/proving.go:191-253 | overwriting the placeholders in place gives the ciphertext of every slot, or fails if one does |
| Proving.GenerateTransactionProof | domain-impl/internal/railgun/fungible/proving.go:75-183 | decoding, encryption before hashing, witness, proof and preimage, as specified; fails where a step fails |
| Proving.DecodeInputs | domain-impl/internal/railgun/fungible/proving.go:103-123 | the loops decode all inputs and paths or fail |
| Assembly.ValidateTransferParams | domain-impl/internal/railgun/fungible/base.go:57-87 | accepts exactly nonempty lists of named recipients and positive amounts totalling below 2^120, and otherwise reports the first error in order |
| Assembly.OwnAddressResolves | domain-impl/internal/railgun/fungible/handler_transfer.go:211-221 | the address made from a party's keys resolves to those keys |
| Assembly.TransferOutputs | domain-impl/internal/railgun/fungible/handler_transfer.go:139-162 | one note per entry, in order, with consecutive predicted positions; none exactly when some recipient does not resolve |
| Assembly.PayEntries | domain-impl/internal/railgun/fungible/handler_transfer.go:139-162 | the loop adds these outputs and stops at the first recipient that does not resolve |
| Assembly.BuildProvingPayload | domain-impl/internal/railgun/fungible/handler_transfer.go:245-301 | rendered inputs with the tree's paths, and one ciphertext slot per output less the withdrawal |
| Assembly.TokenStringIs | domain-impl/internal/railgun/fungible/handler_transfer.go:245-301 | the token's address in the payload is its twenty bytes in prefixed hex |
| Assembly.PayloadReadsBack | domain-impl/internal/railgun/fungible/handler_transfer.go:245-301 | the numbers the prover decodes from the strings are those the handler put in |
| Assembly.TransferAssemble | domain-impl/internal/railgun/fungible/handler_transfer.go:85-183 | the handler's loops compute the assembled transfer of the specification; if the store fails a query, that or an error, never a revert or another assembly |
| Assembly.UnshieldAssemble | domain-impl/internal/railgun/fungible/handler_unshield.go:70-131 | the handler computes the assembled unshield, an always-present change note and then the withdrawal; if the store fails a query, that or an error |
| Spending.TransactionOf | domain-impl/internal/railgun/fungible/proving.go:135-160 | a generated transaction spends what the payload reads as, with its number of ciphertexts, each annotated with the Paladin id |
| Spending.ProvableExactly | domain-impl/internal/railgun/fungible/proving.go:75-183 | a spend of notes in the tree proves if and only if its ciphertexts and preimage can be made, there is a circuit of its size, the notes have the token, outputs are below 2^120, and values balance |
| Spending.TransferOutputsInRange | domain-impl/internal/railgun/fungible/handler_transfer.go:163-168 | if stored notes are below 2^120 and parameters valid, every output and the change is below 2^120 |
| Spending.EncryptionSucceeds | domain-impl/internal/railgun/fungible/proving.go:224-237 | for values below 2^120 the 128-bit check and the 16-byte fill never fail: encryption succeeds if and only if the recipient's viewing key is a curve point |
| Spending.EncryptedExactly | domain-impl/internal/railgun/fungible/proving.go:218-235 | in general: it succeeds if and only if value and random fit 16 bytes, the other numbers 32, seed and IV have their lengths and the recipient's key is a point; the slot is then the note's ciphertext |
| Spending.PrefixIgnored | domain-impl/internal/railgun/fungible/proving.go:214-217 | a recipient's viewing key may be given with or without its prefix |
| Spending.UnshieldCiphertext | domain-impl/internal/railgun/fungible/handler_transfer.go:303-315 | the change of an unshield goes out unencrypted, in the form the contract expects and with the transaction id, and the withdrawal has no slot |
| Spending.UnshieldPreimageOpens | domain-impl/internal/railgun/fungible/proving.go:160-180 | read back as field elements the preimage hashes to the last commitment, and its npk is the 20-byte recipient |
| Spending.RecipientRecoversNote | domain-impl/internal/railgun/fungible/proving.go:191-253 | decrypting slot j with the recipient's seed gives random, value and token that hash to commitment j, and the sender's key |
| Contract.ShieldReplayed | domain-impl/internal/railgun/handler_events.go:63-79 | a shield's events replay to: its note confirmed and recorded at the tree size, under the id in the shield key |
| Contract.TransactReplayed | domain-impl/internal/railgun/handler_events.go:44-118 | a transact's events replay to: outputs recorded from the tree size, nullifiers spent, one completion, all under the annotated id, wherever Nullified stands |
| Contract.ShieldedIdIffNoFee | domain-impl/internal/railgun/handler_events.go:161-164 | the leaf hashed from a shield event's value is the stored note's id if and only if the fee is zero |
| Ledger.LoadsTheTree | domain-impl/internal/railgun/fungible/states.go:180-231 | in a kept ledger loadTree gives the chain's leaves exactly |
| Ledger.HandlersServed | domain-impl/internal/railgun/fungible/states.go:122-231 | in a kept ledger the stores are sorted and stamped as the handlers' queries assume |
| Ledger.ServesExactly | domain-impl/internal/railgun/fungible/states.go:136-150 | an owner's query serves exactly the confirmed, unspent notes with a recorded nullifier, each once, in the order of the store, with ids and stamps |
| Settlement.SpendsExactly | domain-impl/internal/railgun/handler_events.go:105-118 | among confirmed notes, the nullifiers of a transaction name exactly the notes selected |
| Settlement.NullifierIdentifies | domain-impl/pkg/railgunsignerapi/nullifier.go:41-64 | distinct confirmed notes have distinct recorded nullifiers |
| Settlement.ConfirmsExactly | domain-impl/internal/railgun/handler_events.go:123-128 | the updates of a mined operation confirm exactly its own new notes |
| Settlement.WritingKeeps | domain-impl/internal/railgun/fungible/states.go:65-96 | writing pending states keeps the ledger invariant, so a lost transaction leaves only pending states |
| Settlement.MiningKeeps | domain-impl/internal/railgun/railgun.go:291-322 | a mined, replayed operation keeps the whole invariant: placement, nullifiers, records and conservation |
| Operations.OwnAddressesConnect | domain-impl/internal/railgun/fungible/handler_transfer.go:211-221 | parties that resolve to their own addresses resolve to their own keys |
| Operations.TransferPlanned | domain-impl/internal/railgun/fungible/handler_transfer.go:85-183 | a transfer's outputs follow the tree with fresh randoms, and its call spends the sender's notes in the tree into them |
| Operations.UnshieldPlanned | domain-impl/internal/railgun/fungible/handler_unshield.go:70-131 | likewise for an unshield, with the withdrawal asked for as last commitment |
| Operations.ShieldPlanned | domain-impl/internal/railgun/fungible/handler_shield.go:71-148 | a shield's note is predicted at the current tree size and its request carries the Paladin id |
| Operations.RecipientReads | domain-impl/internal/railgun/fungible/proving.go:191-253 | any output handed to the transfer builder is read by its wallet from ciphertext and commitment in the same position |
| Delivery.EntryIsRead | domain-impl/internal/railgun/fungible/proving.go:191-253 | end to end: whoever owns the address an entry of a proved transfer names reads, at that entry's position, exactly the amount and token asked for, and the sender |
| Landing.ProvedBalances | domain-impl/internal/railgun/railgunnote/witness.go:64-143 | whatever was proved has one token, balances inputs against outputs and withdrawal, and is in range |
| Landing.NullifiersMatch | domain-impl/internal/railgun/railgunnote/witness.go:81-94 | the transaction's nullifiers are those recorded with the notes taken |
| Landing.CommitmentsMatch | domain-impl/internal/railgun/railgunnote/witness.go:100-108 | its commitments are the stored ids of the new notes, then the withdrawal's hash |
| Landing.NeverRefused | domain-impl/internal/railgun/fungible/proving.go:135-183 | the contract never refuses a proved call made from a kept ledger |
| Landing.SpendLands | domain-impl/internal/railgun/events.go:59-103 | such a call appends its notes at the predicted positions, uses up the nullifiers, and reports just that |
| Landing.ShieldLands | domain-impl/internal/railgun/fungible/handler_shield.go:104-148 | a shield lands if and only if its value is positive and below 2^120, as planned |
| LedgerSafety.StepKeeps | domain-impl/internal/railgun/fungible/handler_transfer.go:85-183 | every shield, transfer or unshield keeps the invariant, whether assembled, proved, mined or not |
| LedgerSafety.RunKeeps | domain-impl/internal/railgun/railgun.go:291-322 | the invariant holds throughout every sequential run |
| LedgerSafety.RunFromEmpty | domain-impl/internal/railgun/railgun.go:291-322 | in particular from the empty ledger |
| LedgerSafety.ValueIsConserved | domain-impl/internal/railgun/fungible/handler_transfer.go:93-168 | in every run, token by token, unspent notes (external owners' included) are worth all shielded less all unshielded |
| LedgerSafety.NotesStayProvable | domain-impl/internal/railgun/fungible/handler_shield.go:79-85 | in every run, each confirmed note stands at its predicted index of the rebuilt tree, and its proof folds to a root the contract knows |
| LedgerSafety.SpendMarksExactly | domain-impl/internal/railgun/handler_events.go:105-118 | a mined spend marks as spent exactly the notes its transaction spends, all unspent before, confirms exactly its outputs, and every record carries its id |
| LedgerSafety.SelectedAreSpent | domain-impl/internal/railgun/handler_events.go:105-118 | a mined spend of a run marks as newly spent exactly the notes selection takes from the sender's available ones, and its transaction carries exactly their recorded nullifiers |
| LedgerSafety.NoDoubleSpend | domain-impl/internal/railgun/fungible/states.go:122-172 | in every run, two mined spends never take the same note |
| LedgerSafety.ShieldAttributed | domain-impl/internal/railgun/handler_events.go:63-79 | all records of a mined shield carry its Paladin id |
| LedgerSafety.IdsStayApart | domain-impl/internal/railgun/handler_events.go:186-194 | in every run the recorded leaves have distinct ids, and none is the id of a stored note |
| Arrival.TransferDistributes | domain-impl/internal/railgun/fungible/handler_transfer.go:139-168 | the notes of an assembled transfer: each entry's party is distributed and owns the note of its amount, a literal address is no party, and any surplus, but no empty note, goes back to the sender |
| Arrival.TransferArrives | domain-impl/internal/railgun/fungible/states.go:65-96 | after a mined transfer the note of every party named stands among its available notes, for the amount asked for, and the surplus among the sender's |
| Arrival.UnshieldArrives | domain-impl/internal/railgun/fungible/handler_unshield.go:95-111 | after a mined unshield, what it does not withdraw of the notes taken is available to the sender |
| Arrival.ShieldArrives | domain-impl/internal/railgun/fungible/handler_shield.go:71-98 | after a mined shield the amount is available to the party named |
| Overlap.OverlapExactly | domain-impl/internal/railgun/fungible/handler_shield.go:79-85 | outputs assembled on one tree and appended after later leaves stand at their predicted positions if and only if no leaf was added in between |
| Overlap.OverlapMisplaces | integration-test/README.md:52-54 | two operations of any kind assembled on one tree and landed one after the other: the first one's notes stand where predicted, the second one's first note does not |
| Overlap.OverlappingShieldsLand | integration-test/README.md:52-54 | two shields below 2^120 assembled on one tree both land, and the second note is confirmed although its leaf is not where its state says |
| Overlap.OverlapLosesValue | integration-test/README.md:52-54 | to the same party, the two notes record the same nullifier: one report of it marks both spent, and after the first is withdrawn the contract holds the value of the second beyond all unspent notes |
| Overlap.OverlappingSpends | integration-test/README.md:52-54 | of two spends assembled on one tree, the first lands, and then the contract takes the second if and only if selection gave them no note in common |
| Liveness.TransferGoesThrough | domain-impl/internal/railgun/fungible/states.go:136-139 | an assembled transfer is proved if and only if there is a circuit of its size, every note selection takes has its token, and every recipient's viewing key is a curve point: selection looks at the owner only, address decoding at lengths only |
| Liveness.OffCurveRecipientUnproved | domain-impl/internal/railgun/railgunnote/address.go:101-138 | a "0zk" address whose viewing key is not a curve point is accepted as a recipient and assembled, and then not proved |
| Liveness.OtherTokenUnproved | domain-impl/internal/railgun/fungible/states.go:136-139 | a sender whose first available note has another token assembles the transfer with it and cannot prove it |
| Liveness.UnshieldGoesThrough | domain-impl/internal/railgun/fungible/handler_unshield.go:95-131 | an assembled unshield is proved if and only if there is a circuit, every note selection takes has its token, and its amount is below 2^120, which validation does not check |
| Liveness.LargeUnshieldUnproved | domain-impl/internal/railgun/fungible/handler_unshield.go:95-131 | an unshield of 2^120 passes validation and is not proved |
| Receipts.ReceiptTransfers | domain-impl/internal/railgun/receipts.go:97-166 | the loops over map and order list compute the specified transfers; none with several input owners |
| Receipts.RecipientsExactly | domain-impl/internal/railgun/receipts.go:128-142 | the recipients are exactly the owners other than the sender who receive something, each once, in order of first appearance |
| Receipts.OutputsAccounted | domain-impl/internal/railgun/receipts.go:128-142 | outputs are worth what went back to the sender plus the rows |
| Receipts.TransferReceipt | domain-impl/internal/railgun/fungible/handler_transfer.go:139-168 | from the last stage of Assemble: one row per distinct other recipient, for exactly the amount requested; nothing for a transfer to oneself |
| AssembledReceipts.AssembledTransferReceipt | domain-impl/internal/railgun/fungible/handler_transfer.go:85-183 | whatever transfer Assemble makes from the stored notes, its receipt has one row per distinct other recipient, in order of first appearance, for exactly the amount requested |
| Receipts.UnshieldReceipt | domain-impl/internal/railgun/fungible/handler_unshield.go:95-111 | from the last stage of Assemble: one unaddressed row of the amount withdrawn |
| AssembledReceipts.AssembledUnshieldReceipt | domain-impl/internal/railgun/fungible/handler_unshield.go:70-131 | whatever unshield Assemble makes from the stored notes, its receipt is one unaddressed row of the amount withdrawn |
| Receipts.ShieldReceipt | domain-impl/internal/railgun/fungible/handler_shield.go:71-98 | the receipt of a shield is one row without a sender |
| Constants.FieldIsBN254 | domain-impl/internal/railgun/railgunnote/note.go:40-42 | the field modulus is the order of the Barreto-Naehrig curve of alt_bn128 (EIP-197) |
| Constants.OrderIsEd25519 | domain-impl/internal/railgun/railguncrypto/blinding.go:26-33 | scalars are reduced modulo the order of edwards25519 (section 5.1 of RFC 8032) |
| Constants.ValueWidth | domain-impl/internal/railgun/fungible/base.go:35-36 | values are 120 bits, fifteen bytes, wide |

## Left out

- Groth16 proving, circuits and their cache: a proof is modelled by the relation it proves.
- The internals of Poseidon, EdDSA, AES, SHA and Edwards point arithmetic, and Poseidon's argument errors; nothing is said about secrecy.
- The ABI encoding behind the bound-parameters hash: an uninterpreted function of the parameters that vary.
- Deriving a wallet's keys from its seed: an identity is its keys.
- getTokenID for tokens other than ERC-20: the handlers only reach the ERC-20 branch.
- Domain configuration, deployment, handler routing, logging, error texts and JSON: messages are datatypes, and an event or state that does not decode is a constructor of its own.
- The platform's state store, locks and transaction manager, and the contract's internals: environment, as far as the model needs them.
- Transactions by wallets outside the domain: a note sent to an external "0zk" address is never spent in the model.
- A second commitment tree, and non-zero fees in the ledger's steps.
- Several events batches per transaction: each mined call is replayed in one batch (`Events.SplitsExactly` says when batches can be cut and joined).
- The ledger's states as objects updated in place: `Ledger.Step` is a function on values, so aliasing between the node's stores is not modelled.
- The hex rendering of ciphertext fields and state ids in JSON: ciphertexts are bytes and ids are numbers.
- Underscores in number strings (Go's base-0 parsing accepts them): rejected by the model's parsers.
- Unicode beyond the blanks that are trimmed: addresses and numbers are ASCII strings.
- LoadTree: requires a store on which the loop ends (`TreeLoading.LoopEndsExactly`); on the others the original reads the first page forever, unless a query fails.
- ReadLeaves: likewise.
- TransferAssemble: requires that for the stored leaves, and that the last stamp of an owner's stored notes is positive; `NoteSelection.ServedHonestly` says when selection differs otherwise.
- UnshieldAssemble: likewise.
- ReceiptTransfers: takes decoded notes; a note that does not decode makes the original fail before it starts.
- GenerateTransactionProof: a negative number in a payload, which no handler produces, is a failure, and so are the FillBytes panics of the original (values that do not fit their bytes).
- EncryptTransactNote: requires both master public keys below 2^256, where the original panics.
- BlindNoteKeys: requires randoms of at most 32 bytes, where the original panics.
- DecToBytes32: requires a value below 2^256, where the original panics.
- BuildTransact, a second way to assemble a transaction that no handler calls, and the ABI object, which copies fields.
- The handlers' Init and Endorse, and the balance call's resolution of its account: single requests.
