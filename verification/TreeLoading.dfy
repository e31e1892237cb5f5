/** Rebuilding the commitment tree from stored leaf states: loadTree of fungible/states.go. */
module TreeLoading {
  import opened Notes
  import opened Paging
  import opened Wrappers
  import opened CommitmentTree

  const LEAF_PAGE: nat := 100

  datatype TreeLeaf = TreeLeaf(leafIndex: nat, commitment: nat)

  type LeafRow = Row<TreeLeaf>

  // ---------------------------------------------------------------------------
  // What the paged loop reads
  // ---------------------------------------------------------------------------

  /** The rows read when the next page starts at position `k` of a sorted store. */
  function ReadFrom(store: seq<LeafRow>, k: nat): (rows: seq<LeafRow>)
    requires k <= |store| && SortedByCreated(store)
    ensures |rows| <= |store| - k
    ensures forall r :: r in rows ==> r in store
    decreases |store| - k
  {
    if |store| - k < LEAF_PAGE then store[k..]
    else
      var last := store[k + LEAF_PAGE - 1].created;
      CutMovesOn(store, k);
      store[k..k + LEAF_PAGE] + ReadFrom(store, UpTo(store, last))
  }

  lemma {:induction false} CutMovesOn(store: seq<LeafRow>, k: nat)
    requires SortedByCreated(store) && k + LEAF_PAGE <= |store|
    ensures UpTo(store, store[k + LEAF_PAGE - 1].created) >= k + LEAF_PAGE
  {
    var last := store[k + LEAF_PAGE - 1].created;
    var u := UpTo(store, last);
    if u < k + LEAF_PAGE {
      assert false;
    }
  }

  /** No two rows with the same stamp stand on either side of a page boundary, pages being
    * counted from position `k`. */
  predicate NoTieFrom(store: seq<LeafRow>, k: nat)
    decreases |store| - k
  {
    |store| <= k + LEAF_PAGE
    || (store[k + LEAF_PAGE - 1].created < store[k + LEAF_PAGE].created && NoTieFrom(store, k + LEAF_PAGE))
  }

  predicate NoTieAcrossPages(store: seq<LeafRow>)
  {
    NoTieFrom(store, 0)
  }

  /** Paging by strict stamp reads every row exactly when no tie straddles a page. */
  lemma {:induction false} ReadsAllExactly(store: seq<LeafRow>)
    requires SortedByCreated(store)
    ensures NoTieAcrossPages(store) ==> ReadFrom(store, 0) == store
    ensures |ReadFrom(store, 0)| == |store| ==> NoTieAcrossPages(store)
  {
    ReadsAllFrom(store, 0);
  }

  lemma {:induction false} ReadsAllFrom(store: seq<LeafRow>, k: nat)
    requires SortedByCreated(store) && k <= |store|
    ensures NoTieFrom(store, k) ==> ReadFrom(store, k) == store[k..]
    ensures |ReadFrom(store, k)| == |store| - k ==> NoTieFrom(store, k)
    decreases |store| - k
  {
    if |store| - k >= LEAF_PAGE {
      var cut := k + LEAF_PAGE;
      CutMovesOn(store, k);
      if UpTo(store, store[cut - 1].created) == cut {
        ReadsAllFrom(store, cut);
        assert store[k..cut] + store[cut..] == store[k..];
      }
    }
  }

  // ---------------------------------------------------------------------------
  // Sorting and the contiguous prefix
  // ---------------------------------------------------------------------------

  ghost predicate SortedByIndex(s: seq<TreeLeaf>)
  {
    forall i, j :: 0 <= i < j < |s| ==> s[i].leafIndex <= s[j].leafIndex
  }

  ghost predicate DistinctIndices(s: seq<TreeLeaf>)
  {
    forall i, j :: 0 <= i < j < |s| ==> s[i].leafIndex != s[j].leafIndex
  }

  function InsertByIndex(x: TreeLeaf, s: seq<TreeLeaf>): (r: seq<TreeLeaf>)
    requires SortedByIndex(s)
    ensures SortedByIndex(r) && |r| == |s| + 1
    ensures forall y :: y in r <==> y == x || y in s
  {
    if s == [] || x.leafIndex <= s[0].leafIndex then [x] + s
    else
      assert forall y :: y in s <==> y == s[0] || y in s[1..];
      var tail := InsertByIndex(x, s[1..]);
      HeadBelowAll(x, s, tail);
      [s[0]] + tail
  }

  lemma {:induction false} HeadBelowAll(x: TreeLeaf, s: seq<TreeLeaf>, tail: seq<TreeLeaf>)
    requires s != [] && SortedByIndex(s) && s[0].leafIndex <= x.leafIndex
    requires forall y :: y in tail ==> y == x || y in s[1..]
    ensures forall i :: 0 <= i < |tail| ==> s[0].leafIndex <= tail[i].leafIndex
  {
    forall i | 0 <= i < |tail| ensures s[0].leafIndex <= tail[i].leafIndex {
      assert tail[i] in tail;
      if tail[i] != x {
        var j :| 0 <= j < |s[1..]| && s[1..][j] == tail[i];
        assert s[j + 1] == tail[i];
      }
    }
  }

  /** The leaves in index order; equal indices in either order. */
  function SortByIndex(s: seq<TreeLeaf>): (r: seq<TreeLeaf>)
    ensures SortedByIndex(r) && |r| == |s|
    ensures forall y :: y in r <==> y in s
  {
    if s == [] then []
    else
      assert forall y :: y in s <==> y == s[0] || y in s[1..];
      InsertByIndex(s[0], SortByIndex(s[1..]))
  }

  /** The commitments of the longest run of consecutive indices starting at `next`. */
  function ContiguousFrom(s: seq<TreeLeaf>, next: nat): (r: seq<nat>)
    ensures |r| <= |s|
  {
    if s == [] || s[0].leafIndex != next then []
    else [s[0].commitment] + ContiguousFrom(s[1..], next + 1)
  }

  function Decoded(rows: seq<LeafRow>): (leaves: Option<seq<TreeLeaf>>)
    ensures leaves.Some? <==> Decodable(rows)
    ensures leaves.Some? ==> |leaves.value| == |rows|
    ensures leaves.Some? ==> forall i :: 0 <= i < |rows| ==>
      leaves.value[i] == TreeLeaf(Uint64(rows[i].data.value.leafIndex), rows[i].data.value.commitment)
  {
    if rows == [] then Some([])
    else
      var n := |rows| - 1;
      var init := Decoded(rows[..n]);
      assert Decodable(rows[..n]) && rows[n].data.Some? <==> Decodable(rows);
      if init.None? || rows[n].data.None? then None
      else Some(init.value + [TreeLeaf(Uint64(rows[n].data.value.leafIndex), rows[n].data.value.commitment)])
  }

  /** The leaves `LoadTree` inserts; None when a row does not decode. */
  function LoadedLeaves(store: seq<LeafRow>): Option<seq<nat>>
    requires SortedByCreated(store)
  {
    match Decoded(ReadFrom(store, 0))
    case None => None
    case Some(leaves) => Some(ContiguousFrom(SortByIndex(leaves), 0))
  }

  // ---------------------------------------------------------------------------
  // Safety and completeness
  // ---------------------------------------------------------------------------

  /** The row records some leaf of the chain. */
  ghost predicate DrawnFrom(row: LeafRow, chain: seq<nat>)
  {
    && row.data.Some?
    && row.data.value.leafIndex < |chain|
    && row.data.value.commitment == chain[row.data.value.leafIndex]
  }

  /** Rows drawn from a chain, in any order, repeated, missing or cut off by paging, load
    * as a prefix of the chain's leaves. */
  lemma {:induction false} LoadsPrefix(store: seq<LeafRow>, chain: seq<nat>)
    requires SortedByCreated(store) && |chain| < 0x1_0000_0000_0000_0000
    requires forall r :: r in store ==> DrawnFrom(r, chain)
    ensures LoadedLeaves(store).Some? && LoadedLeaves(store).value <= chain
  {
    var rows := ReadFrom(store, 0);
    forall i | 0 <= i < |rows| ensures DrawnFrom(rows[i], chain) {
      assert rows[i] in store;
    }
    var leaves := Decoded(rows).value;
    var sorted := SortByIndex(leaves);
    forall i | 0 <= i < |sorted|
      ensures sorted[i].leafIndex < |chain| && sorted[i].commitment == chain[sorted[i].leafIndex]
    {
      assert sorted[i] in leaves;
    }
    ContiguousIsPrefix(sorted, 0, chain);
    assert chain[0..] == chain;
  }

  lemma {:induction false} ContiguousIsPrefix(s: seq<TreeLeaf>, next: nat, chain: seq<nat>)
    requires next <= |chain|
    requires forall i :: 0 <= i < |s| ==> s[i].leafIndex < |chain| && s[i].commitment == chain[s[i].leafIndex]
    ensures ContiguousFrom(s, next) <= chain[next..]
  {
    if s != [] && s[0].leafIndex == next {
      ContiguousIsPrefix(s[1..], next + 1, chain);
      assert chain[next..] == [chain[next]] + chain[next + 1..];
    }
  }

  /** How many leaves have index `j`. */
  function Times(s: seq<TreeLeaf>, j: nat): nat
  {
    if s == [] then 0 else (if s[0].leafIndex == j then 1 else 0) + Times(s[1..], j)
  }

  /** Loading from index `base` stops at `k`: the indices before `k` are there, once each
    * except perhaps the last, and either `k` is missing or the index before it is repeated. */
  ghost predicate StopsAt(s: seq<TreeLeaf>, base: nat, k: nat)
  {
    && base <= k
    && (forall j: nat :: base <= j < k ==> Times(s, j) >= 1)
    && (forall j: nat :: base <= j < k - 1 ==> Times(s, j) == 1)
    && (Times(s, k) == 0 || (base < k && Times(s, k - 1) > 1))
  }

  lemma {:induction false} StopsOnce(s: seq<TreeLeaf>, base: nat, k: nat, l: nat)
    requires StopsAt(s, base, k) && StopsAt(s, base, l)
    ensures k == l
  {
  }

  lemma {:induction false} InsertKeepsTimes(x: TreeLeaf, s: seq<TreeLeaf>, j: nat)
    requires SortedByIndex(s)
    ensures Times(InsertByIndex(x, s), j) == Times(s, j) + (if x.leafIndex == j then 1 else 0)
  {
    var r := InsertByIndex(x, s);
    if s == [] || x.leafIndex <= s[0].leafIndex {
      assert r[1..] == s;
    } else {
      InsertKeepsTimes(x, s[1..], j);
      assert r[1..] == InsertByIndex(x, s[1..]);
    }
  }

  lemma {:induction false} SortKeepsTimes(s: seq<TreeLeaf>, j: nat)
    ensures Times(SortByIndex(s), j) == Times(s, j)
  {
    if s != [] {
      SortKeepsTimes(s[1..], j);
      InsertKeepsTimes(s[0], SortByIndex(s[1..]), j);
    }
  }

  lemma {:induction false} NoneBelow(s: seq<TreeLeaf>, base: nat, j: nat)
    requires forall i :: 0 <= i < |s| ==> s[i].leafIndex >= base
    requires j < base
    ensures Times(s, j) == 0
  {
    if s != [] {
      NoneBelow(s[1..], base, j);
    }
  }

  /** The run of consecutive indices in a sorted list ends where loading stops. */
  lemma {:induction false} RunStops(s: seq<TreeLeaf>, next: nat)
    requires SortedByIndex(s) && forall i :: 0 <= i < |s| ==> s[i].leafIndex >= next
    ensures StopsAt(s, next, next + |ContiguousFrom(s, next)|)
  {
    if s != [] && s[0].leafIndex == next {
      var tail := s[1..];
      if tail != [] && tail[0].leafIndex == next {
        assert Times(tail, next) >= 1;
        assert ContiguousFrom(tail, next + 1) == [];
      } else {
        RunStops(tail, next + 1);
        NoneBelow(tail, next + 1, next);
        forall j: nat | j > next ensures Times(s, j) == Times(tail, j) {
        }
      }
    } else if s != [] {
      NoneBelow(s, next + 1, next);
    }
  }

  lemma {:induction false} SortedStops(leaves: seq<TreeLeaf>)
    ensures StopsAt(leaves, 0, |ContiguousFrom(SortByIndex(leaves), 0)|)
  {
    RunStops(SortByIndex(leaves), 0);
    forall j: nat ensures Times(SortByIndex(leaves), j) == Times(leaves, j) {
      SortKeepsTimes(leaves, j);
    }
  }

  /** Rows drawn from a chain, with repetitions and gaps: what is loaded is exactly the leaves
    * up to where loading stops.  A repeated index hides everything after it. */
  lemma {:induction false} LoadsUpTo(store: seq<LeafRow>, chain: seq<nat>, k: nat)
    requires SortedByCreated(store) && |chain| < 0x1_0000_0000_0000_0000 && k <= |chain|
    requires forall r :: r in store ==> DrawnFrom(r, chain)
    ensures Decoded(ReadFrom(store, 0)).Some?
    ensures LoadedLeaves(store) == Some(chain[..k]) <==> StopsAt(Decoded(ReadFrom(store, 0)).value, 0, k)
  {
    LoadsPrefix(store, chain);
    var leaves, loaded := Decoded(ReadFrom(store, 0)).value, LoadedLeaves(store).value;
    SortedStops(leaves);
    if StopsAt(leaves, 0, k) {
      StopsOnce(leaves, 0, k, |loaded|);
    }
    assert loaded == chain[..|loaded|];
    assert |chain[..k]| == k;
  }

  lemma {:induction false} TimesCons(x: TreeLeaf, s: seq<TreeLeaf>, j: nat)
    ensures Times([x] + s, j) == (if x.leafIndex == j then 1 else 0) + Times(s, j)
  {
    assert ([x] + s)[1..] == s;
  }

  /** Two records of leaf 0 hide leaf 1, which is there and contiguous. */
  lemma {:induction false} RepeatedLeafHidesNext(store: seq<LeafRow>, a: nat, b: nat)
    requires |store| == 3 && SortedByCreated(store)
    requires store[0].data == store[1].data == Some(TreeLeaf(0, a)) && store[2].data == Some(TreeLeaf(1, b))
    ensures LoadedLeaves(store) == Some([a])
  {
    var chain := [a, b];
    var leaves := Decoded(store).value;
    var x, y := TreeLeaf(0, a), TreeLeaf(1, b);
    assert leaves == [x] + ([x] + ([y] + []));
    forall j: nat ensures Times(leaves, j) == if j == 0 then 2 else if j == 1 then 1 else 0 {
      TimesCons(y, [], j);
      TimesCons(x, [y] + [], j);
      TimesCons(x, [x] + ([y] + []), j);
    }
    LoadsUpTo(store, chain, 1);
    assert chain[..1] == [a];
  }

  ghost predicate Records(store: seq<LeafRow>, j: nat)
  {
    exists i :: 0 <= i < |store| && store[i].data.Some? && store[i].data.value.leafIndex == j
  }

  ghost predicate NoneRepeated(store: seq<LeafRow>)
    requires Decodable(store)
  {
    forall i, j :: 0 <= i < j < |store| ==> store[i].data.value.leafIndex != store[j].data.value.leafIndex
  }

  lemma {:induction false} TimesCounts(s: seq<TreeLeaf>, j: nat)
    ensures Times(s, j) > 0 <==> exists i :: 0 <= i < |s| && s[i].leafIndex == j
    ensures DistinctIndices(s) ==> Times(s, j) <= 1
  {
    if s != [] {
      var tail := s[1..];
      TimesCounts(tail, j);
      if i :| 0 <= i < |s| && s[i].leafIndex == j {
        assert i > 0 ==> tail[i - 1] == s[i];
      }
      if i :| 0 <= i < |tail| && tail[i].leafIndex == j {
        assert s[i + 1] == tail[i];
      }
    }
  }

  /** With gaps but no repetition, and no tie across pages: the leaves loaded are all those
    * before the first gap. */
  lemma {:induction false} LoadsToFirstGap(store: seq<LeafRow>, chain: seq<nat>, k: nat)
    requires SortedByCreated(store) && NoTieAcrossPages(store) && |chain| < 0x1_0000_0000_0000_0000 && k <= |chain|
    requires (forall r :: r in store ==> DrawnFrom(r, chain)) && Decodable(store) && NoneRepeated(store)
    ensures LoadedLeaves(store) == Some(chain[..k])
      <==> !Records(store, k) && forall j: nat :: j < k ==> Records(store, j)
  {
    ReadsAllExactly(store);
    LoadsUpTo(store, chain, k);
    var leaves := Decoded(store).value;
    forall i | 0 <= i < |store| ensures leaves[i].leafIndex == store[i].data.value.leafIndex {
      assert store[i] in store;
    }
    forall j: nat ensures Times(leaves, j) == if Records(store, j) then 1 else 0 {
      TimesCounts(leaves, j);
    }
  }

  /** Every leaf of the chain is recorded exactly once. */
  ghost predicate RecordsChain(store: seq<LeafRow>, chain: seq<nat>)
  {
    && |store| == |chain|
    && (forall i :: 0 <= i < |store| ==> DrawnFrom(store[i], chain))
    && (forall i, j :: 0 <= i < j < |store| ==> store[i].data.value.leafIndex != store[j].data.value.leafIndex)
  }

  /** A complete record loads as the whole chain exactly when no tie straddles a page. */
  lemma {:induction false} LoadsChainExactly(store: seq<LeafRow>, chain: seq<nat>)
    requires SortedByCreated(store) && |chain| < 0x1_0000_0000_0000_0000
    requires RecordsChain(store, chain)
    ensures LoadedLeaves(store) == Some(chain) <==> NoTieAcrossPages(store)
  {
    var rows := ReadFrom(store, 0);
    LoadsPrefix(store, chain);
    ReadsAllExactly(store);
    var leaves := Decoded(rows).value;
    var sorted := SortByIndex(leaves);
    if NoTieAcrossPages(store) {
      SortKeepsDistinct(leaves);
      forall i | 0 <= i < |sorted| ensures sorted[i].leafIndex < |chain| {
        assert sorted[i] in leaves;
      }
      DistinctFillsRange(sorted, |chain|);
      ContiguousLength(sorted, 0);
      var loaded := ContiguousFrom(sorted, 0);
      assert loaded <= chain && |loaded| == |chain|;
      assert loaded == chain;
    } else {
      assert |ContiguousFrom(sorted, 0)| <= |rows| < |chain|;
    }
  }

  /** A hundred and one leaves with the same stamp: the last one is never read. */
  lemma {:induction false} TieLosesLastLeaf(store: seq<LeafRow>, chain: seq<nat>)
    requires |store| == |chain| == 101
    requires forall i :: 0 <= i < |store| ==>
      store[i].created == store[0].created && store[i].data == Some(TreeLeaf(i, chain[i]))
    ensures LoadedLeaves(store) == Some(chain[..100])
  {
    var read := store[..LEAF_PAGE];
    var leaves := Decoded(read).value;
    assert UpTo(store, store[0].created) == |store|;
    assert ReadFrom(store, 0) == read;
    LoadsUpTo(store, chain, LEAF_PAGE);
    forall j: nat ensures Times(leaves, j) == if j < LEAF_PAGE then 1 else 0 {
      TimesCounts(leaves, j);
      if j < LEAF_PAGE {
        assert leaves[j].leafIndex == j;
      }
    }
  }

  lemma {:induction false} SortKeepsDistinct(s: seq<TreeLeaf>)
    requires DistinctIndices(s)
    ensures DistinctIndices(SortByIndex(s))
  {
    if s != [] {
      var tail := SortByIndex(s[1..]);
      SortKeepsDistinct(s[1..]);
      forall y | y in tail ensures y.leafIndex != s[0].leafIndex {
        assert y in s[1..];
        var j :| 0 <= j < |s[1..]| && s[1..][j] == y;
        assert s[j + 1] == y;
      }
      InsertKeepsDistinct(s[0], tail);
    }
  }

  lemma {:induction false} InsertKeepsDistinct(x: TreeLeaf, s: seq<TreeLeaf>)
    requires SortedByIndex(s) && DistinctIndices(s)
    requires forall y :: y in s ==> y.leafIndex != x.leafIndex
    ensures DistinctIndices(InsertByIndex(x, s))
  {
    if s != [] && x.leafIndex > s[0].leafIndex {
      InsertKeepsDistinct(x, s[1..]);
      var r := InsertByIndex(x, s[1..]);
      forall y | y in r ensures y.leafIndex != s[0].leafIndex {
        assert y == x || y in s[1..];
        if y in s[1..] {
          var j :| 0 <= j < |s[1..]| && s[1..][j] == y;
          assert s[j + 1] == y;
        }
      }
    }
  }

  /** `n` distinct sorted indices below `n` are 0, 1, ..., n - 1. */
  lemma {:induction false} DistinctFillsRange(s: seq<TreeLeaf>, n: nat)
    requires |s| == n && SortedByIndex(s) && DistinctIndices(s)
    requires forall i :: 0 <= i < n ==> s[i].leafIndex < n
    ensures forall i :: 0 <= i < n ==> s[i].leafIndex == i
  {
    var i := 0;
    while i < n
      invariant 0 <= i <= n
      invariant forall j :: 0 <= j < i ==> j <= s[j].leafIndex
    {
      if i > 0 {
        assert s[i - 1].leafIndex < s[i].leafIndex;
      }
      i := i + 1;
    }
    i := n;
    while i > 0
      invariant 0 <= i <= n
      invariant forall j :: i <= j < n ==> s[j].leafIndex <= j
    {
      i := i - 1;
      if i + 1 < n {
        assert s[i].leafIndex < s[i + 1].leafIndex;
      }
    }
  }

  lemma {:induction false} ContiguousLength(s: seq<TreeLeaf>, next: nat)
    requires forall i :: 0 <= i < |s| ==> s[i].leafIndex == next + i
    ensures |ContiguousFrom(s, next)| == |s|
  {
    if s != [] {
      ContiguousLength(s[1..], next + 1);
    }
  }

  // ---------------------------------------------------------------------------
  // The implementation
  // ---------------------------------------------------------------------------

  /** Reads all pages and rebuilds the tree; `next` is the next free leaf index.  The loop
    * has no bound of its own: `LoopEndsExactly` says on which stores it ends. */
  method LoadTree(query: Query<TreeLeaf>, hash: (nat, nat) -> nat, zeroValue: nat, ghost store: seq<LeafRow>)
    returns (tree: MerkleTree<nat>, next: nat, ok: bool)
    requires Truthful(query, store, LEAF_PAGE) && SortedByCreated(store) && MovesOn(store)
    ensures tree.Valid() && fresh(tree)
    ensures tree.hash == hash && tree.depth == MERKLE_DEPTH && tree.zeros[0] == zeroValue
    ensures ok <==> LoadedLeaves(store).Some? && Answered(query, 0, 0, store, 0)
    ensures ok ==> LoadedLeaves(store) == Some(tree.leaves) && next == |tree.leaves|
  {
    tree := new MerkleTree(hash, zeroValue, MERKLE_DEPTH);
    next := 0;
    var leaves: seq<TreeLeaf>;
    leaves, ok := ReadLeaves(query, store);
    if ok {
      var sorted := SortByIndex(leaves);
      next := InsertContiguous(tree, sorted);
    }
  }

  /** Only contiguous leaves are appended: a gap means missing events. */
  method InsertContiguous(tree: MerkleTree<nat>, sorted: seq<TreeLeaf>) returns (next: nat)
    requires tree.leaves == []
    modifies tree
    ensures tree.leaves == ContiguousFrom(sorted, 0) && next == |tree.leaves|
  {
    next := 0;
    for i := 0 to |sorted|
      invariant next == |tree.leaves|
      invariant tree.leaves + ContiguousFrom(sorted[i..], next) == ContiguousFrom(sorted, 0)
    {
      if sorted[i].leafIndex != next {
        break;
      }
      assert sorted[i..][1..] == sorted[i + 1..];
      var _ := tree.Insert(sorted[i].commitment);
      next := next + 1;
    }
  }

  method ReadLeaves(query: Query<TreeLeaf>, ghost store: seq<LeafRow>) returns (leaves: seq<TreeLeaf>, ok: bool)
    requires Truthful(query, store, LEAF_PAGE) && SortedByCreated(store) && MovesOn(store)
    ensures ok <==> Decoded(ReadFrom(store, 0)).Some? && Answered(query, 0, 0, store, 0)
    ensures ok ==> Decoded(ReadFrom(store, 0)) == Some(leaves)
  {
    leaves := [];
    var lastCreated := 0;
    var n: nat := 0;
    ghost var k, read: seq<LeafRow> := 0, [];
    assert [] + ReadFrom(store, 0) == ReadFrom(store, 0);
    while true
      invariant Reading(query, n, lastCreated, store, k, read)
      invariant Decoded(read) == Some(leaves)
      decreases |store| - k
    {
      var res := query(n, lastCreated);
      if res.None? {
        return [], false;
      }
      var page := res.value;
      PageRead(query, n, lastCreated, store, k, read, page);
      if |page| == 0 {
        return leaves, true;
      }
      leaves, lastCreated, ok := AppendPage(page, leaves, lastCreated, read);
      if !ok {
        PrefixUndecodable(read + page, ReadFrom(store, 0));
        return;
      }
      if |page| < LEAF_PAGE {
        return;
      }
      n := n + 1;
      read, k := read + page, UpTo(store, lastCreated);
    }
  }

  /** The first page is the last one, or fails to decode, or ends with a positive stamp, so that
    * the next query does not start over. */
  ghost predicate MovesOn(store: seq<LeafRow>)
  {
    |store| < LEAF_PAGE || store[LEAF_PAGE - 1].created > 0 || !Decodable(store[..LEAF_PAGE])
  }

  /** The stamp with which the n-th query is made. */
  function StampAt(store: seq<LeafRow>, n: nat): int
  {
    if n == 0 then 0
    else
      var last := StampAt(store, n - 1);
      var page := Take(Rest(store, last), LEAF_PAGE);
      if page == [] then last else page[|page| - 1].created
  }

  function PageAt(store: seq<LeafRow>, n: nat): seq<LeafRow>
  {
    Take(Rest(store, StampAt(store, n)), LEAF_PAGE)
  }

  /** Reading stops at the n-th page: it is not full, or a row does not decode. */
  ghost predicate StopsReading(store: seq<LeafRow>, n: nat)
  {
    |PageAt(store, n)| < LEAF_PAGE || !Decodable(PageAt(store, n))
  }

  /** When queries are answered, the loop ends exactly when it moves on from the first page. */
  lemma {:induction false} LoopEndsExactly(query: Query<TreeLeaf>, store: seq<LeafRow>)
    requires Honest(query, store, LEAF_PAGE) && SortedByCreated(store)
    ensures forall n: nat :: query(n, StampAt(store, n)) == Some(PageAt(store, n))
    ensures (exists n: nat :: StopsReading(store, n)) <==> MovesOn(store)
  {
    if MovesOn(store) {
      var n := StopsFrom(store, 0, 0);
    } else {
      forall n: nat ensures !StopsReading(store, n) {
        ReadsFirstPage(store, n);
      }
    }
  }

  /** Otherwise every page is the first page again. */
  lemma {:induction false} ReadsFirstPage(store: seq<LeafRow>, n: nat)
    requires SortedByCreated(store) && !MovesOn(store)
    ensures StampAt(store, n) <= 0 && PageAt(store, n) == store[..LEAF_PAGE]
  {
    if n > 0 {
      ReadsFirstPage(store, n - 1);
    }
  }

  /** The query with stamp `last` starts at row `k`. */
  ghost predicate StartsAt(store: seq<LeafRow>, last: int, k: nat)
  {
    k <= |store| && Rest(store, last) == store[k..] && (k == 0 || last > 0)
  }

  lemma {:induction false} StopsFrom(store: seq<LeafRow>, n: nat, k: nat) returns (m: nat)
    requires SortedByCreated(store) && MovesOn(store) && StartsAt(store, StampAt(store, n), k)
    ensures StopsReading(store, m)
    decreases |store| - k
  {
    if StopsReading(store, n) {
      m := n;
    } else {
      var next := NextStart(store, n, k);
      m := StopsFrom(store, n + 1, next);
    }
  }

  lemma {:induction false} NextStart(store: seq<LeafRow>, n: nat, k: nat) returns (next: nat)
    requires SortedByCreated(store) && MovesOn(store) && StartsAt(store, StampAt(store, n), k)
    requires !StopsReading(store, n)
    ensures k < next && StartsAt(store, StampAt(store, n + 1), next)
  {
    var page := PageAt(store, n);
    PageMovesOn(store, k, StampAt(store, n), page);
    assert StampAt(store, n + 1) == page[|page| - 1].created;
    next := UpTo(store, page[|page| - 1].created);
  }

  /** A full, decodable page is followed by one that starts further on. */
  lemma {:induction false} PageMovesOn(store: seq<LeafRow>, k: nat, last: int, page: seq<LeafRow>)
    requires SortedByCreated(store) && MovesOn(store) && StartsAt(store, last, k)
    requires page == Take(store[k..], LEAF_PAGE) && |page| >= LEAF_PAGE && Decodable(page)
    ensures var cut := page[|page| - 1].created;
      cut > 0 && UpTo(store, cut) > k && StartsAt(store, cut, UpTo(store, cut))
  {
    var cut := page[|page| - 1].created;
    assert page == store[k..k + LEAF_PAGE];
    CutMovesOn(store, k);
    NewerIsSuffix(store, cut);
    if k == 0 {
      assert page == store[..LEAF_PAGE];
    } else {
      StartIsNewer(store, last, k);
    }
  }

  lemma {:induction false} StartIsNewer(store: seq<LeafRow>, last: int, k: nat)
    requires SortedByCreated(store) && StartsAt(store, last, k) && 0 < k < |store|
    ensures store[k].created > last
  {
    NewerIsSuffix(store, last);
    assert |store[k..]| == |store[UpTo(store, last)..]|;
  }

  /** Every query succeeds that is issued from the n-th on, when that one starts at row `k`. */
  ghost predicate Answered(query: Query<TreeLeaf>, n: nat, last: int, store: seq<LeafRow>, k: nat)
    requires SortedByCreated(store) && k <= |store|
    decreases |store| - k
  {
    && query(n, last).Some?
    && (|store| - k >= LEAF_PAGE ==>
          var cut := store[k + LEAF_PAGE - 1].created;
          CutMovesOn(store, k);
          Answered(query, n + 1, cut, store, UpTo(store, cut)))
  }

  lemma {:induction false} AnsweredAlways(query: Query<TreeLeaf>, n: nat, last: int, store: seq<LeafRow>, k: nat)
    requires SortedByCreated(store) && k <= |store| && Answers(query)
    ensures Answered(query, n, last, store, k)
    decreases |store| - k
  {
    if |store| - k >= LEAF_PAGE {
      var cut := store[k + LEAF_PAGE - 1].created;
      CutMovesOn(store, k);
      AnsweredAlways(query, n + 1, cut, store, UpTo(store, cut));
    }
  }

  /** Whether all queries succeed depends on those from here on. */
  ghost predicate AnsweredAs(query: Query<TreeLeaf>, n: nat, last: int, store: seq<LeafRow>, k: nat)
    requires SortedByCreated(store) && k <= |store|
  {
    Answered(query, n, last, store, k) <==> Answered(query, 0, 0, store, 0)
  }

  lemma {:induction false} AnsweredOn(query: Query<TreeLeaf>, n: nat, last: int, store: seq<LeafRow>, k: nat,
                                      page: seq<LeafRow>)
    requires SortedByCreated(store) && k <= |store| && AnsweredAs(query, n, last, store, k)
    requires query(n, last) == Some(page) && page == Take(store[k..], LEAF_PAGE)
    ensures |page| < LEAF_PAGE ==> Answered(query, 0, 0, store, 0)
    ensures |page| >= LEAF_PAGE ==>
      var cut := page[|page| - 1].created; AnsweredAs(query, n + 1, cut, store, UpTo(store, cut))
  {
    if |page| >= LEAF_PAGE {
      assert page[|page| - 1] == store[k + LEAF_PAGE - 1];
    }
  }

  /** The reader stands at row `k`, having read `read`. */
  ghost predicate At(store: seq<LeafRow>, k: nat, read: seq<LeafRow>, last: int)
    requires SortedByCreated(store)
  {
    && k <= |store|
    && read + ReadFrom(store, k) == ReadFrom(store, 0)
    && Rest(store, last) == store[k..]
  }

  /** Where the reader is, before its n-th query. */
  ghost predicate Reading(query: Query<TreeLeaf>, n: nat, last: int, store: seq<LeafRow>, k: nat, read: seq<LeafRow>)
    requires SortedByCreated(store)
  {
    At(store, k, read, last) && AnsweredAs(query, n, last, store, k) && StartsAt(store, last, k)
  }

  /** An answered query: the page ends the reading, or leads further on. */
  lemma {:induction false} PageRead(query: Query<TreeLeaf>, n: nat, last: int, store: seq<LeafRow>, k: nat,
                                    read: seq<LeafRow>, page: seq<LeafRow>)
    requires Truthful(query, store, LEAF_PAGE) && SortedByCreated(store) && MovesOn(store)
    requires Reading(query, n, last, store, k, read) && query(n, last) == Some(page)
    ensures read + page <= ReadFrom(store, 0)
    ensures |page| < LEAF_PAGE ==> read + page == ReadFrom(store, 0) && Answered(query, 0, 0, store, 0)
    ensures page == [] ==> read == ReadFrom(store, 0)
    ensures |page| >= LEAF_PAGE && Decodable(page) ==>
      var cut := page[|page| - 1].created;
      k < UpTo(store, cut) && Reading(query, n + 1, cut, store, UpTo(store, cut), read + page)
  {
    PageServed(query, n, last, store, k);
    AnsweredOn(query, n, last, store, k, page);
    ReadOn(store, k, read, last, page);
    if |page| >= LEAF_PAGE && Decodable(page) {
      PageMovesOn(store, k, last, page);
    }
  }

  lemma {:induction false} ReadOn(store: seq<LeafRow>, k: nat, read: seq<LeafRow>, last: int, page: seq<LeafRow>)
    requires SortedByCreated(store) && At(store, k, read, last) && IsPage(store, k, page)
    ensures read + page <= ReadFrom(store, 0)
    ensures |page| < LEAF_PAGE ==> read + page == ReadFrom(store, 0)
    ensures page == [] ==> read == ReadFrom(store, 0)
    ensures |page| >= LEAF_PAGE ==>
      var u := UpTo(store, page[|page| - 1].created);
      k < u && (page[|page| - 1].created > 0 ==> At(store, u, read + page, page[|page| - 1].created))
  {
    var rest := if |page| >= LEAF_PAGE then ReadFrom(store, UpTo(store, page[|page| - 1].created)) else [];
    assert ReadFrom(store, k) == page + rest;
    Regroup(read, page, rest, ReadFrom(store, 0));
  }

  lemma {:induction false} Regroup(read: seq<LeafRow>, page: seq<LeafRow>, rest: seq<LeafRow>, all: seq<LeafRow>)
    requires read + (page + rest) == all
    ensures (read + page) + rest == all && read + page <= all
    ensures rest == [] ==> read + page == all
    ensures page == [] && rest == [] ==> read == all
  {
    assert (read + page) + rest == read + (page + rest);
  }

  method AppendPage(page: seq<LeafRow>, before: seq<TreeLeaf>, last: int, ghost read: seq<LeafRow>)
    returns (leaves: seq<TreeLeaf>, lastCreated: int, ok: bool)
    requires page != [] && Decoded(read) == Some(before)
    ensures ok <==> Decoded(read + page).Some?
    ensures ok ==> Decoded(read + page) == Some(leaves) && lastCreated == page[|page| - 1].created && Decodable(page)
  {
    leaves, lastCreated := before, last;
    assert read + page[..0] == read;
    for i := 0 to |page|
      invariant i > 0 ==> lastCreated == page[i - 1].created
      invariant forall j :: 0 <= j < i ==> page[j].data.Some?
      invariant Decoded(read + page[..i]) == Some(leaves)
    {
      lastCreated := page[i].created;
      if page[i].data.None? {
        assert (read + page)[|read| + i] == page[i];
        return leaves, lastCreated, false;
      }
      DecodedNext(read, page, i);
      leaves := leaves + [TreeLeaf(Uint64(page[i].data.value.leafIndex), page[i].data.value.commitment)];
    }
    assert page[..|page|] == page;
    ok := true;
  }

  /** What a page starting at `k` is: the whole rest, or a full page with more to read. */
  ghost predicate IsPage(store: seq<LeafRow>, k: nat, page: seq<LeafRow>)
    requires k <= |store| && SortedByCreated(store)
  {
    if |page| < LEAF_PAGE then page == ReadFrom(store, k)
    else
      var last := page[|page| - 1].created;
      var u := UpTo(store, last);
      && k < u
      && (last > 0 ==> Rest(store, last) == store[u..])
      && ReadFrom(store, k) == page + ReadFrom(store, u)
  }

  lemma {:induction false} PageServed(query: Query<TreeLeaf>, n: nat, last: int, store: seq<LeafRow>, k: nat)
    requires Truthful(query, store, LEAF_PAGE) && SortedByCreated(store)
    requires k <= |store| && Rest(store, last) == store[k..] && query(n, last).Some?
    ensures IsPage(store, k, query(n, last).value) && query(n, last).value == Take(store[k..], LEAF_PAGE)
  {
    assert query(n, last).value == Take(store[k..], LEAF_PAGE);
    PageIsRead(store, k);
  }

  lemma {:induction false} PageIsRead(store: seq<LeafRow>, k: nat)
    requires SortedByCreated(store) && k <= |store|
    ensures IsPage(store, k, Take(store[k..], LEAF_PAGE))
  {
    var page := Take(store[k..], LEAF_PAGE);
    if |store| - k < LEAF_PAGE {
      assert page == ReadFrom(store, k);
    } else {
      assert page == store[k..k + LEAF_PAGE];
      CutMovesOn(store, k);
      var last := store[k + LEAF_PAGE - 1].created;
      assert page[|page| - 1].created == last;
      NewerIsSuffix(store, last);
    }
  }

  lemma {:induction false} PrefixUndecodable(rows: seq<LeafRow>, all: seq<LeafRow>)
    requires rows <= all && Decoded(rows).None?
    ensures Decoded(all).None?
  {
    var i :| 0 <= i < |rows| && rows[i].data.None?;
    assert all[i] == rows[i];
  }

  lemma {:induction false} DecodedNext(read: seq<LeafRow>, page: seq<LeafRow>, i: nat)
    requires i < |page| && page[i].data.Some? && Decoded(read + page[..i]).Some?
    ensures var leaf := page[i].data.value;
      Decoded(read + page[..i + 1])
        == Some(Decoded(read + page[..i]).value + [TreeLeaf(Uint64(leaf.leafIndex), leaf.commitment)])
  {
    assert read + page[..i + 1] == (read + page[..i]) + [page[i]];
    DecodedSnoc(read + page[..i], page[i]);
  }

  lemma {:induction false} DecodedSnoc(rows: seq<LeafRow>, row: LeafRow)
    requires Decoded(rows).Some? && row.data.Some?
    ensures Decoded(rows + [row])
         == Some(Decoded(rows).value + [TreeLeaf(Uint64(row.data.value.leafIndex), row.data.value.commitment)])
  {
    assert (rows + [row])[..|rows|] == rows;
  }
}
