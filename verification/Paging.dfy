/** Sorted, paged queries of the state store, as the domain issues them:
  * ascending `.created`, a page limit, and "created after the last one seen". */
module Paging {
  import opened Wrappers

  /** A stored state; `data` is None when its JSON does not decode. */
  datatype Row<T> = Row(id: nat, created: int, data: Option<T>)

  /** The n-th query for rows after `lastCreated`; None when the query fails. */
  type Query<!T> = (nat, int) -> Option<seq<Row<T>>>

  ghost predicate SortedByCreated<T>(store: seq<Row<T>>)
  {
    forall i, j :: 0 <= i < j < |store| ==> store[i].created <= store[j].created
  }

  ghost predicate PositiveStamps<T>(store: seq<Row<T>>)
  {
    forall i :: 0 <= i < |store| ==> store[i].created > 0
  }

  ghost predicate Decodable<T>(store: seq<Row<T>>)
  {
    forall i :: 0 <= i < |store| ==> store[i].data.Some?
  }

  function Newer<T>(store: seq<Row<T>>, last: int): seq<Row<T>>
  {
    if store == [] then []
    else if store[0].created > last then [store[0]] + Newer(store[1..], last)
    else Newer(store[1..], last)
  }

  /** The query filters by stamp only once a positive stamp has been seen. */
  function Rest<T>(store: seq<Row<T>>, last: int): seq<Row<T>>
  {
    if last > 0 then Newer(store, last) else store
  }

  function Take<T>(rows: seq<T>, limit: nat): seq<T>
  {
    if |rows| <= limit then rows else rows[..limit]
  }

  /** Whatever the query answers is the next page of the store; it may fail. */
  ghost predicate Truthful<T(!new)>(query: Query<T>, store: seq<Row<T>>, limit: nat)
  {
    forall n: nat, last: int :: query(n, last).Some? ==> query(n, last).value == Take(Rest(store, last), limit)
  }

  ghost predicate Answers<T(!new)>(query: Query<T>)
  {
    forall n: nat, last: int :: query(n, last).Some?
  }

  ghost predicate Honest<T(!new)>(query: Query<T>, store: seq<Row<T>>, limit: nat)
  {
    Truthful(query, store, limit) && Answers(query)
  }

  /** How many rows, in a sorted store, are stamped at most `last`. */
  function UpTo<T>(store: seq<Row<T>>, last: int): (k: nat)
    ensures k <= |store|
    ensures forall i :: 0 <= i < k ==> store[i].created <= last
    ensures k < |store| ==> store[k].created > last
  {
    if store == [] || store[0].created > last then 0 else 1 + UpTo(store[1..], last)
  }

  lemma {:induction false} NewerIsSuffix<T>(store: seq<Row<T>>, last: int)
    requires SortedByCreated(store)
    ensures Newer(store, last) == store[UpTo(store, last)..]
  {
    if store != [] {
      NewerIsSuffix(store[1..], last);
      if store[0].created > last {
        assert UpTo(store[1..], last) == 0;
      } else {
        assert store[1..][UpTo(store[1..], last)..] == store[UpTo(store, last)..];
      }
    }
  }
}
