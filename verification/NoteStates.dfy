/** A note object with its memoised hash (types/states.go), and the check of a state id against
  * it (railgun.go). */
module NoteStates {
  import opened Notes
  import opened Wrappers

  class RailgunNote {
    var note: Note
    var hash: Option<nat>

    /** What is memoised is the hash of the fields. */
    ghost predicate Valid(H: Hash)
      reads this
    {
      hash.Some? ==> hash.value == NoteHash(H, note)
    }

    constructor (note: Note)
      ensures this.note == note && hash == None
    {
      this.note := note;
      this.hash := None;
    }

    method Hash(H: Notes.Hash) returns (h: nat)
      requires Valid(H)
      modifies this`hash
      ensures Valid(H) && hash == Some(h) && h == NoteHash(H, note)
    {
      if hash.None? {
        var npk := NotePublicKey(H, note.owner, note.random);
        var commitment := Commitment(H, npk, note.token, note.value);
        hash := Some(commitment);
      }
      h := hash.value;
    }
  }

  /** The id of a state, given its hash: an empty id is filled in, any other must parse to the
    * hash.  Parsing and rendering are the platform's. */
  function ValidateStateHash(parse: string -> Option<nat>, render: nat -> string, hash: nat, id: string): Option<string>
  {
    if id == "" then Some(render(hash))
    else if parse(id) == Some(hash) then Some(id)
    else None
  }

  /** Two notes pass under one given id exactly when they differ at most in their predicted
    * index: the id binds everything else, and nothing binds the index. */
  lemma {:induction false} IdBindsAllButIndex(H: Hash, parse: string -> Option<nat>, render: nat -> string, a: Note,
                                              b: Note, id: string)
    requires Injective(H) && id != "" && ValidateStateHash(parse, render, NoteHash(H, a), id).Some?
    ensures ValidateStateHash(parse, render, NoteHash(H, b), id).Some? <==> a.(leafIndex := 0) == b.(leafIndex := 0)
  {
    if NoteHash(H, a) == NoteHash(H, b) {
      CommitmentOpensOneWay(H, a, b);
    }
    if a.(leafIndex := 0) == b.(leafIndex := 0) {
      assert b == a.(leafIndex := b.leafIndex);
    }
  }

  /** An empty id is filled in, and what is filled in is accepted when given. */
  lemma {:induction false} FilledIdIsAccepted(parse: string -> Option<nat>, render: nat -> string, hash: nat)
    requires parse(render(hash)) == Some(hash) && render(hash) != ""
    ensures ValidateStateHash(parse, render, hash, "") == Some(render(hash))
    ensures ValidateStateHash(parse, render, hash, render(hash)) == Some(render(hash))
  {
  }
}
