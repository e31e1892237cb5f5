/** The append-only commitment tree of railgunnote/merkle.go.
  *
  * The reference definition is `Node`: the complete binary tree over the leaves
  * followed by infinitely many zero leaves.  `MerkleTree.Build` computes only
  * the occupied nodes, level by level, in maps; everything else is defaulted.
  */
module CommitmentTree {
  import opened Arithmetic

  // ---------------------------------------------------------------------------
  // Positions
  // ---------------------------------------------------------------------------

  /** The index, `lvl` levels up, of the node above position `i`. */
  function Ancestor(i: nat, lvl: nat): nat
  {
    if lvl == 0 then i else Ancestor(i, lvl - 1) / 2
  }

  /** `i XOR 1`: the other child of the same parent. */
  function Sibling(i: nat): (s: nat)
    ensures s / 2 == i / 2 && s != i
  {
    if i % 2 == 0 then i + 1 else i - 1
  }

  /** How many nodes of level `lvl` have one of `n` leaves beneath them. */
  function Width(n: nat, lvl: nat): nat
  {
    if lvl == 0 then n else (Width(n, lvl - 1) + 1) / 2
  }

  lemma {:induction false} AncestorMonotone(i: nat, j: nat, lvl: nat)
    requires i <= j
    ensures Ancestor(i, lvl) <= Ancestor(j, lvl)
  {
    if lvl > 0 {
      AncestorMonotone(i, j, lvl - 1);
    }
  }

  lemma {:induction false} HalveBounds(i: nat, a: nat, p: nat)
    requires a * p <= i < (a + 1) * p
    ensures (a / 2) * (2 * p) <= i < (a / 2 + 1) * (2 * p)
  {
    var b := a / 2;
    MulMonotone(2 * b, a, p);
    MulMonotone(a + 1, 2 * b + 2, p);
    assert (2 * b) * p == b * (2 * p);
    assert (2 * b + 2) * p == (b + 1) * (2 * p);
  }

  lemma {:induction false} AncestorBounds(i: nat, lvl: nat)
    ensures Ancestor(i, lvl) * Pow2(lvl) <= i < (Ancestor(i, lvl) + 1) * Pow2(lvl)
  {
    if lvl > 0 {
      AncestorBounds(i, lvl - 1);
      HalveBounds(i, Ancestor(i, lvl - 1), Pow2(lvl - 1));
    }
  }

  /** A position lies under the root exactly when it is below 2^lvl. */
  lemma {:induction false} UnderRoot(i: nat, lvl: nat)
    ensures Ancestor(i, lvl) == 0 <==> i < Pow2(lvl)
  {
    AncestorBounds(i, lvl);
    if Ancestor(i, lvl) > 0 {
      MulMonotone(1, Ancestor(i, lvl), Pow2(lvl));
    }
  }

  /** Some of the first `n` positions lies beneath node `p` of level `lvl`. */
  ghost predicate Occupied(n: nat, lvl: nat, p: nat)
  {
    exists i: nat :: i < n && Ancestor(i, lvl) == p
  }

  lemma {:induction false} WidthCountsOccupied(n: nat, lvl: nat, p: nat)
    ensures p < Width(n, lvl) <==> Occupied(n, lvl, p)
  {
    if lvl == 0 {
      assert Ancestor(p, 0) == p;
    } else {
      if p < Width(n, lvl) {
        WidthCountsOccupied(n, lvl - 1, 2 * p);
        var i: nat :| i < n && Ancestor(i, lvl - 1) == 2 * p;
        assert Ancestor(i, lvl) == p;
      }
      if Occupied(n, lvl, p) {
        var i: nat :| i < n && Ancestor(i, lvl) == p;
        WidthCountsOccupied(n, lvl - 1, Ancestor(i, lvl - 1));
      }
    }
  }

  // ---------------------------------------------------------------------------
  // The reference tree
  // ---------------------------------------------------------------------------

  /** The value of an empty subtree of height `lvl`. */
  function ZeroAt<T>(h: (T, T) -> T, zero: T, lvl: nat): T
  {
    if lvl == 0 then zero else h(ZeroAt(h, zero, lvl - 1), ZeroAt(h, zero, lvl - 1))
  }

  function LeafAt<T>(zero: T, leaves: seq<T>, i: nat): T
  {
    if i < |leaves| then leaves[i] else zero
  }

  function Node<T>(h: (T, T) -> T, zero: T, leaves: seq<T>, lvl: nat, idx: nat): T
  {
    if lvl == 0 then LeafAt(zero, leaves, idx)
    else h(Node(h, zero, leaves, lvl - 1, 2 * idx), Node(h, zero, leaves, lvl - 1, 2 * idx + 1))
  }

  /** Nodes with no leaf beneath them are the zero of their level. */
  lemma {:induction false} UnoccupiedIsZero<T>(h: (T, T) -> T, zero: T, leaves: seq<T>, lvl: nat, idx: nat)
    requires idx >= Width(|leaves|, lvl)
    ensures Node(h, zero, leaves, lvl, idx) == ZeroAt(h, zero, lvl)
  {
    if lvl > 0 {
      UnoccupiedIsZero(h, zero, leaves, lvl - 1, 2 * idx);
      UnoccupiedIsZero(h, zero, leaves, lvl - 1, 2 * idx + 1);
    }
  }

  /** The authentication path of position `idx`: the siblings on the way up. */
  function PathTo<T>(h: (T, T) -> T, zero: T, leaves: seq<T>, idx: nat, depth: nat): (path: seq<T>)
    ensures |path| == depth
  {
    if depth == 0 then []
    else PathTo(h, zero, leaves, idx, depth - 1) + [Node(h, zero, leaves, depth - 1, Sibling(Ancestor(idx, depth - 1)))]
  }

  /** The value a leaf and a path fold up to; the circuit's Merkle verifier. */
  function RootFrom<T>(h: (T, T) -> T, leaf: T, idx: nat, path: seq<T>): T
  {
    if path == [] then leaf
    else
      var top := |path| - 1;
      var cur := RootFrom(h, leaf, idx, path[..top]);
      if Ancestor(idx, top) % 2 == 0 then h(cur, path[top]) else h(path[top], cur)
  }

  /** Every position, occupied or not and inside the tree or not, folds with its own
    * path to the ancestor `depth` levels above it. */
  lemma {:induction false} PathReachesAncestor<T>(h: (T, T) -> T, zero: T, leaves: seq<T>, idx: nat, depth: nat)
    ensures RootFrom(h, LeafAt(zero, leaves, idx), idx, PathTo(h, zero, leaves, idx, depth))
         == Node(h, zero, leaves, depth, Ancestor(idx, depth))
  {
    if depth > 0 {
      PathReachesAncestor(h, zero, leaves, idx, depth - 1);
      var path := PathTo(h, zero, leaves, idx, depth);
      assert path[..depth - 1] == PathTo(h, zero, leaves, idx, depth - 1);
    }
  }

  /** Positions below 2^depth fold to the root of the tree. */
  lemma {:induction false} ProofReachesRoot<T>(h: (T, T) -> T, zero: T, leaves: seq<T>, idx: nat, depth: nat)
    requires idx < Pow2(depth)
    ensures RootFrom(h, LeafAt(zero, leaves, idx), idx, PathTo(h, zero, leaves, idx, depth))
         == Node(h, zero, leaves, depth, 0)
  {
    PathReachesAncestor(h, zero, leaves, idx, depth);
    UnderRoot(idx, depth);
  }

  // ---------------------------------------------------------------------------
  // Binding, under an injective hash
  // ---------------------------------------------------------------------------

  ghost predicate Injective2<T(!new)>(h: (T, T) -> T)
  {
    forall a, b, c, d :: h(a, b) == h(c, d) ==> a == c && b == d
  }

  /** One position has one opening: the same folded value fixes leaf and path. */
  lemma {:induction false} OpeningIsUnique<T(!new)>(h: (T, T) -> T, x: T, p: seq<T>, y: T, q: seq<T>, idx: nat)
    requires Injective2(h) && |p| == |q|
    requires RootFrom(h, x, idx, p) == RootFrom(h, y, idx, q)
    ensures x == y && p == q
  {
    if p != [] {
      var top := |p| - 1;
      OpeningIsUnique(h, x, p[..top], y, q[..top], idx);
      assert p == p[..top] + [p[top]] && q == q[..top] + [q[top]];
    }
  }

  /** What verifies against the root at a position below 2^depth is the leaf that is
    * there, with the path the tree gives out. */
  lemma {:induction false} RootBindsPosition<T(!new)>(h: (T, T) -> T, zero: T, leaves: seq<T>, idx: nat, depth: nat,
                                                      x: T, path: seq<T>)
    requires Injective2(h) && idx < Pow2(depth) && |path| == depth
    ensures RootFrom(h, x, idx, path) == Node(h, zero, leaves, depth, 0)
       <==> x == LeafAt(zero, leaves, idx) && path == PathTo(h, zero, leaves, idx, depth)
  {
    ProofReachesRoot(h, zero, leaves, idx, depth);
    if RootFrom(h, x, idx, path) == Node(h, zero, leaves, depth, 0) {
      OpeningIsUnique(h, x, path, LeafAt(zero, leaves, idx), PathTo(h, zero, leaves, idx, depth), idx);
    }
  }

  lemma {:induction false} EqualNodesEqualLeaves<T(!new)>(h: (T, T) -> T, zero: T, a: seq<T>, b: seq<T>, lvl: nat,
                                                          i: nat)
    requires Injective2(h)
    requires Node(h, zero, a, lvl, Ancestor(i, lvl)) == Node(h, zero, b, lvl, Ancestor(i, lvl))
    ensures LeafAt(zero, a, i) == LeafAt(zero, b, i)
  {
    if lvl > 0 {
      var child := Ancestor(i, lvl - 1);
      assert child == 2 * Ancestor(i, lvl) || child == 2 * Ancestor(i, lvl) + 1;
      EqualNodesEqualLeaves(h, zero, a, b, lvl - 1, i);
    }
  }

  lemma {:induction false} EqualLeavesEqualNodes<T>(h: (T, T) -> T, zero: T, a: seq<T>, b: seq<T>, lvl: nat, idx: nat)
    requires forall i: nat :: Ancestor(i, lvl) == idx ==> LeafAt(zero, a, i) == LeafAt(zero, b, i)
    ensures Node(h, zero, a, lvl, idx) == Node(h, zero, b, lvl, idx)
  {
    if lvl == 0 {
      assert Ancestor(idx, 0) == idx;
    } else {
      forall i: nat | Ancestor(i, lvl - 1) == 2 * idx || Ancestor(i, lvl - 1) == 2 * idx + 1
        ensures LeafAt(zero, a, i) == LeafAt(zero, b, i)
      {
        assert Ancestor(i, lvl) == idx;
      }
      EqualLeavesEqualNodes(h, zero, a, b, lvl - 1, 2 * idx);
      EqualLeavesEqualNodes(h, zero, a, b, lvl - 1, 2 * idx + 1);
    }
  }

  /** The root commits to exactly the first 2^depth zero-padded leaves: `Insert` has no
    * cap, and leaves past that position do not reach the root at all. */
  lemma {:induction false} RootCommitsToLeaves<T(!new)>(h: (T, T) -> T, zero: T, a: seq<T>, b: seq<T>, depth: nat)
    requires Injective2(h)
    ensures Node(h, zero, a, depth, 0) == Node(h, zero, b, depth, 0)
       <==> forall i: nat :: i < Pow2(depth) ==> LeafAt(zero, a, i) == LeafAt(zero, b, i)
  {
    forall i: nat ensures Ancestor(i, depth) == 0 <==> i < Pow2(depth) {
      UnderRoot(i, depth);
    }
    if Node(h, zero, a, depth, 0) == Node(h, zero, b, depth, 0) {
      forall i: nat | i < Pow2(depth) ensures LeafAt(zero, a, i) == LeafAt(zero, b, i) {
        EqualNodesEqualLeaves(h, zero, a, b, depth, i);
      }
    }
    if forall i: nat :: i < Pow2(depth) ==> LeafAt(zero, a, i) == LeafAt(zero, b, i) {
      EqualLeavesEqualNodes(h, zero, a, b, depth, 0);
    }
  }

  /** Nodes `a` and `b` of level `lvl` have the same leaf at offset `j`. */
  ghost predicate SameOffset<T(!new)>(zero: T, leaves: seq<T>, lvl: nat, a: nat, b: nat, j: nat)
  {
    j < Pow2(lvl) ==> LeafAt(zero, leaves, a * Pow2(lvl) + j) == LeafAt(zero, leaves, b * Pow2(lvl) + j)
  }

  /** The leaves under node `a` of level `lvl` are, position by position, those under node `b`. */
  ghost predicate SameLeaves<T(!new)>(zero: T, leaves: seq<T>, lvl: nat, a: nat, b: nat)
  {
    forall j: nat :: SameOffset(zero, leaves, lvl, a, b, j)
  }

  /** `Insert` has no cap: a leaf folds to the root with its own proof exactly when its block of
    * 2^depth leaves repeats the first one, as for positions below 2^depth it trivially does. */
  lemma {:induction false} OverflowLeafProvableExactly<T(!new)>(h: (T, T) -> T, zero: T, leaves: seq<T>, idx: nat,
                                                                depth: nat)
    requires Injective2(h)
    ensures var leaf, path := LeafAt(zero, leaves, idx), PathTo(h, zero, leaves, idx, depth);
      RootFrom(h, leaf, idx, path) == Node(h, zero, leaves, depth, 0)
      <==> SameLeaves(zero, leaves, depth, Ancestor(idx, depth), 0)
  {
    var a := Ancestor(idx, depth);
    PathReachesAncestor(h, zero, leaves, idx, depth);
    if Node(h, zero, leaves, depth, a) == Node(h, zero, leaves, depth, 0) {
      forall j: nat ensures SameOffset(zero, leaves, depth, a, 0, j) {
        if j < Pow2(depth) {
          LeafOfEqualNodes(h, zero, leaves, depth, a, 0, j);
        }
      }
    }
    if SameLeaves(zero, leaves, depth, a, 0) {
      NodeOfEqualLeaves(h, zero, leaves, depth, a, 0);
    }
  }

  lemma {:induction false} NodeOfEqualLeaves<T(!new)>(h: (T, T) -> T, zero: T, leaves: seq<T>, lvl: nat, a: nat, b: nat)
    requires SameLeaves(zero, leaves, lvl, a, b)
    ensures Node(h, zero, leaves, lvl, a) == Node(h, zero, leaves, lvl, b)
  {
    if lvl == 0 {
      assert SameOffset(zero, leaves, 0, a, b, 0);
    } else {
      SameLeavesBelow(zero, leaves, lvl, a, b);
      NodeOfEqualLeaves(h, zero, leaves, lvl - 1, 2 * a, 2 * b);
      NodeOfEqualLeaves(h, zero, leaves, lvl - 1, 2 * a + 1, 2 * b + 1);
    }
  }

  lemma {:induction false} SameLeavesBelow<T(!new)>(zero: T, leaves: seq<T>, lvl: nat, a: nat, b: nat)
    requires lvl > 0 && SameLeaves(zero, leaves, lvl, a, b)
    ensures SameLeaves(zero, leaves, lvl - 1, 2 * a, 2 * b) && SameLeaves(zero, leaves, lvl - 1, 2 * a + 1, 2 * b + 1)
  {
    var p := Pow2(lvl - 1);
    Doubled(a, p);
    Doubled(b, p);
    var low, c, d := lvl - 1, 2 * a, 2 * b;
    forall j: nat ensures SameOffset(zero, leaves, low, c, d, j) {
      assert SameOffset(zero, leaves, lvl, a, b, j);
    }
    c, d := 2 * a + 1, 2 * b + 1;
    forall j: nat ensures SameOffset(zero, leaves, low, c, d, j) {
      assert SameOffset(zero, leaves, lvl, a, b, p + j);
    }
  }

  /** So a leaf past position 2^depth that differs from the leaf at its offset in the first
    * block is not provable. */
  lemma {:induction false} OverflowLeafNotProvable<T(!new)>(h: (T, T) -> T, zero: T, leaves: seq<T>, idx: nat,
                                                            depth: nat)
    requires Injective2(h) && Pow2(depth) <= idx < |leaves|
    requires idx % Pow2(depth) < |leaves| && leaves[idx % Pow2(depth)] != leaves[idx]
    ensures RootFrom(h, leaves[idx], idx, PathTo(h, zero, leaves, idx, depth)) != Node(h, zero, leaves, depth, 0)
  {
    var a, j := Ancestor(idx, depth), idx % Pow2(depth);
    OverflowLeafProvableExactly(h, zero, leaves, idx, depth);
    AncestorBounds(idx, depth);
    assert idx == a * Pow2(depth) + j by { DivModUnique(idx, Pow2(depth), a); }
    assert !SameOffset(zero, leaves, depth, a, 0, j);
  }

  lemma {:induction false} Doubled(a: nat, p: nat)
    ensures (2 * a) * p == a * (2 * p) && (2 * a + 1) * p == a * (2 * p) + p
  {
  }

  lemma {:induction false} LeafOfEqualNodes<T(!new)>(h: (T, T) -> T, zero: T, leaves: seq<T>, lvl: nat, a: nat, b: nat,
                                                     j: nat)
    requires Injective2(h) && j < Pow2(lvl)
    requires Node(h, zero, leaves, lvl, a) == Node(h, zero, leaves, lvl, b)
    ensures LeafAt(zero, leaves, a * Pow2(lvl) + j) == LeafAt(zero, leaves, b * Pow2(lvl) + j)
  {
    if lvl > 0 {
      var p := Pow2(lvl - 1);
      Doubled(a, p);
      Doubled(b, p);
      if j < p {
        LeafOfEqualNodes(h, zero, leaves, lvl - 1, 2 * a, 2 * b, j);
      } else {
        LeafOfEqualNodes(h, zero, leaves, lvl - 1, 2 * a + 1, 2 * b + 1, j - p);
      }
    }
  }

  // ---------------------------------------------------------------------------
  // The implementation
  // ---------------------------------------------------------------------------

  class MerkleTree<T(==,0)> {
    const hash: (T, T) -> T
    const depth: nat
    const zeros: seq<T>
    var leaves: seq<T>

    ghost predicate Valid()
    {
      && |zeros| == depth + 1
      && forall lvl: nat :: lvl <= depth ==> zeros[lvl] == ZeroAt(hash, zeros[0], lvl)
    }

    constructor (hash: (T, T) -> T, zeroValue: T, depth: nat)
      ensures Valid()
      ensures this.hash == hash && this.depth == depth && zeros[0] == zeroValue
      ensures leaves == []
    {
      var levels := ZeroLevels(hash, zeroValue, depth);
      this.hash := hash;
      this.depth := depth;
      this.zeros := levels;
      this.leaves := [];
    }

    /** Appends a leaf and returns its index. */
    method Insert(leaf: T) returns (idx: nat)
      modifies this
      ensures leaves == old(leaves) + [leaf] && idx == |old(leaves)|
    {
      idx := |leaves|;
      leaves := leaves + [leaf];
    }

    /** The occupied nodes per level, each holding its value in the reference tree. */
    method Build() returns (levels: seq<map<nat, T>>)
      requires Valid()
      ensures |levels| == depth + 1
      ensures forall lvl: nat :: lvl <= depth ==> IsLevel(lvl, levels[lvl])
      ensures forall lvl: nat, p: nat :: lvl <= depth ==> (p in levels[lvl] <==> Occupied(|leaves|, lvl, p))
    {
      var level0: map<nat, T> := map[];
      for i := 0 to |leaves|
        invariant forall p: nat :: p in level0 <==> p < i
        invariant forall p: nat :: p < i ==> level0[p] == leaves[p]
      {
        level0 := level0[i := leaves[i]];
      }
      levels := [level0];
      for lvl := 0 to depth
        invariant |levels| == lvl + 1
        invariant forall k: nat :: k <= lvl ==> IsLevel(k, levels[k])
      {
        var next := HashLevel(levels[lvl], lvl);
        levels := levels + [next];
      }
      forall lvl: nat, p: nat | lvl <= depth ensures p in levels[lvl] <==> Occupied(|leaves|, lvl, p) {
        WidthCountsOccupied(|leaves|, lvl, p);
      }
    }

    /** `level` holds exactly the occupied nodes of level `lvl`, with their values. */
    ghost predicate IsLevel(lvl: nat, level: map<nat, T>)
      requires |zeros| > 0
      reads this
    {
      && (forall p: nat :: p in level <==> p < Width(|leaves|, lvl))
      && (forall p: nat :: p in level ==> level[p] == Node(hash, zeros[0], leaves, lvl, p))
    }

    /** One round of `Build`: the parents of the occupied nodes, visited in any order. */
    method HashLevel(level: map<nat, T>, lvl: nat) returns (next: map<nat, T>)
      requires Valid() && lvl < depth && IsLevel(lvl, level)
      ensures IsLevel(lvl + 1, next)
    {
      var parents := ParentsOf(level.Keys);
      ParentsAreNextWidth(level.Keys, lvl, parents);
      next := map[];
      var todo := parents;
      while todo != {}
        invariant todo <= parents
        invariant next.Keys == parents - todo
        invariant forall p: nat :: p in next ==> next[p] == Node(hash, zeros[0], leaves, lvl + 1, p)
      {
        var p :| p in todo;
        var v := HashPair(level, lvl, p);
        next, todo := next[p := v], todo - {p};
      }
    }

    method HashPair(level: map<nat, T>, lvl: nat, p: nat) returns (v: T)
      requires Valid() && lvl < depth && IsLevel(lvl, level)
      ensures v == Node(hash, zeros[0], leaves, lvl + 1, p)
    {
      var left := NodeFrom(level, lvl, 2 * p);
      var right := NodeFrom(level, lvl, 2 * p + 1);
      v := hash(left, right);
    }

    static method ParentsOf(children: set<nat>) returns (parents: set<nat>)
      ensures IsParents(children, parents)
    {
      parents := {};
      var rest := children;
      while rest != {}
        invariant rest <= children
        invariant IsParents(children - rest, parents)
      {
        var idx :| idx in rest;
        ghost var seen := children - rest;
        parents := parents + {idx / 2};
        rest := rest - {idx};
        assert children - rest == seen + {idx};
      }
      assert children - rest == children;
    }

    static ghost predicate IsParents(children: set<nat>, parents: set<nat>)
    {
      && (forall c: nat :: c in children ==> c / 2 in parents)
      && (forall p: nat :: p in parents ==> 2 * p in children || 2 * p + 1 in children)
    }

    lemma {:induction false} ParentsAreNextWidth(keys: set<nat>, lvl: nat, parents: set<nat>)
      requires forall p: nat :: p in keys <==> p < Width(|leaves|, lvl)
      requires IsParents(keys, parents)
      ensures forall p: nat :: p in parents <==> p < Width(|leaves|, lvl + 1)
    {
      forall p: nat ensures p in parents <==> p < Width(|leaves|, lvl + 1) {
        if p < Width(|leaves|, lvl + 1) {
          assert 2 * p in keys && (2 * p) / 2 == p;
        }
      }
    }

    method NodeFrom(level: map<nat, T>, lvl: nat, idx: nat) returns (v: T)
      requires Valid() && lvl <= depth && IsLevel(lvl, level)
      ensures v == Node(hash, zeros[0], leaves, lvl, idx)
    {
      if idx in level {
        return level[idx];
      }
      UnoccupiedIsZero(hash, zeros[0], leaves, lvl, idx);
      return zeros[lvl];
    }

    method Root() returns (root: T)
      requires Valid()
      ensures root == Node(hash, zeros[0], leaves, depth, 0)
    {
      if |leaves| == 0 {
        WidthOfNone(depth);
        UnoccupiedIsZero(hash, zeros[0], leaves, depth, 0);
        return zeros[depth];
      }
      var levels := Build();
      root := NodeFrom(levels[depth], depth, 0);
    }

    method Proof(leafIndex: nat) returns (path: seq<T>)
      requires Valid()
      ensures path == PathTo(hash, zeros[0], leaves, leafIndex, depth)
    {
      var levels := Build();
      path := [];
      var idx := leafIndex;
      for lvl := 0 to depth
        invariant idx == Ancestor(leafIndex, lvl)
        invariant path == PathTo(hash, zeros[0], leaves, leafIndex, lvl)
      {
        var sibling := Sibling(idx);
        var v := NodeFrom(levels[lvl], lvl, sibling);
        path := path + [v];
        idx := idx / 2;
      }
    }
  }

  lemma {:induction false} WidthOfNone(lvl: nat)
    ensures Width(0, lvl) == 0
  {
    if lvl > 0 {
      WidthOfNone(lvl - 1);
    }
  }

  method ZeroLevels<T>(hash: (T, T) -> T, zeroValue: T, depth: nat) returns (zeros: seq<T>)
    ensures |zeros| == depth + 1
    ensures forall lvl: nat :: lvl <= depth ==> zeros[lvl] == ZeroAt(hash, zeroValue, lvl)
  {
    zeros := [zeroValue];
    for i := 1 to depth + 1
      invariant |zeros| == i
      invariant forall lvl: nat :: lvl < i ==> zeros[lvl] == ZeroAt(hash, zeroValue, lvl)
    {
      zeros := zeros + [hash(zeros[i - 1], zeros[i - 1])];
    }
  }

  method VerifyProof<T>(hash: (T, T) -> T, leaf: T, leafIndex: nat, path: seq<T>) returns (root: T)
    ensures root == RootFrom(hash, leaf, leafIndex, path)
  {
    root := leaf;
    var idx := leafIndex;
    for lvl := 0 to |path|
      invariant idx == Ancestor(leafIndex, lvl)
      invariant root == RootFrom(hash, leaf, leafIndex, path[..lvl])
    {
      assert path[..lvl + 1][..lvl] == path[..lvl];
      root := if idx % 2 == 0 then hash(root, path[lvl]) else hash(path[lvl], root);
      idx := idx / 2;
    }
    assert path[..|path|] == path;
  }

  /** What the tree gives out, the verifier accepts, for every index under the root. */
  method ProveAndVerify<T(==,0)>(tree: MerkleTree<T>, leafIndex: nat) returns (ok: bool)
    requires tree.Valid() && leafIndex < Pow2(tree.depth)
    ensures ok
  {
    var root := tree.Root();
    var path := tree.Proof(leafIndex);
    var leaf := LeafAt(tree.zeros[0], tree.leaves, leafIndex);
    var folded := VerifyProof(tree.hash, leaf, leafIndex, path);
    ProofReachesRoot(tree.hash, tree.zeros[0], tree.leaves, leafIndex, tree.depth);
    ok := folded == root;
  }
}
