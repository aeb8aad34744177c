/** The transaction Merkle root: the level-by-level fold and what it commits to. */
module Merkle {
  import opened Wrappers

  /** No two pairs of hashes share a parent. */
  ghost predicate CollisionFree<Hash(!new)>(pair: (Hash, Hash) -> Hash) {
    forall a, b, c, d :: pair(a, b) == pair(c, d) ==> a == c && b == d
  }

  /** Terms that a pair hash builds up without ever mapping two pairs to one. */
  datatype Term = Atom(n: nat) | Pair(left: Term, right: Term)

  lemma FreePairsDoNotCollide()
    ensures CollisionFree((a: Term, b: Term) => Pair(a, b))
  {
  }

  /** One level up: the last hash is doubled when the level is odd. */
  function NextLevel<Hash>(pair: (Hash, Hash) -> Hash, level: seq<Hash>): (r: seq<Hash>)
    ensures |r| == (|level| + 1) / 2
  {
    seq((|level| + 1) / 2, i requires 0 <= i < (|level| + 1) / 2 =>
      pair(level[2 * i], if 2 * i + 1 < |level| then level[2 * i + 1] else level[2 * i]))
  }

  /** computeMerkleRoot; `zero` is the all-zero hash. */
  method ComputeMerkleRoot<Hash>(zero: Hash, pair: (Hash, Hash) -> Hash, leaves: seq<Hash>) returns (root: Hash)
    ensures leaves == [] ==> root == zero
    ensures leaves != [] ==> root == Root(pair, leaves)
  {
    if |leaves| == 0 {
      return zero;
    }
    var hashes := leaves;
    while |hashes| > 1
      invariant hashes != []
      invariant Root(pair, hashes) == Root(pair, leaves)
      decreases |hashes|
    {
      FoldKeepsRoot(pair, hashes);
      hashes := FoldLevel(pair, hashes);
    }
    root := hashes[0];
  }

  /** One round of the fold. */
  method FoldLevel<Hash>(pair: (Hash, Hash) -> Hash, level: seq<Hash>) returns (nextLevel: seq<Hash>)
    requires level != []
    ensures nextLevel == NextLevel(pair, level)
  {
    var hashes := level;
    if |hashes| % 2 == 1 {
      hashes := hashes + [hashes[|hashes| - 1]];
    }
    nextLevel := [];
    var i := 0;
    while i < |hashes|
      invariant 0 <= i <= |hashes| && i % 2 == 0
      invariant |nextLevel| == i / 2
      invariant forall k :: 0 <= k < |nextLevel| ==> nextLevel[k] == NextLevel(pair, level)[k]
    {
      nextLevel := nextLevel + [pair(hashes[i], hashes[i + 1])];
      i := i + 2;
    }
  }

  /** An absent transaction is hashed as `zero`. */
  function Leaf<Hash>(zero: Hash, tx: Option<Hash>): Hash {
    match tx case None => zero case Some(hash) => hash
  }

  function Leaves<Hash>(zero: Hash, txs: seq<Option<Hash>>): (r: seq<Hash>)
    ensures |r| == |txs|
  {
    seq(|txs|, i requires 0 <= i < |txs| => Leaf(zero, txs[i]))
  }

  function TxRoot<Hash>(zero: Hash, pair: (Hash, Hash) -> Hash, txs: seq<Option<Hash>>): Hash {
    if txs == [] then zero else Root(pair, Leaves(zero, txs))
  }

  /** CalculateTxHash over the hashes of the block's transactions. */
  method CalculateTxHash<Hash>(zero: Hash, pair: (Hash, Hash) -> Hash, txs: seq<Option<Hash>>) returns (root: Hash)
    ensures root == TxRoot(zero, pair, txs)
    ensures |txs| == 1 ==> root == if txs[0].Some? then txs[0].value else zero
  {
    if |txs| == 0 {
      return zero;
    }
    if |txs| == 1 {
      return Leaf(zero, txs[0]);
    }
    var hashes := [];
    for i := 0 to |txs|
      invariant |hashes| == i
      invariant forall k :: 0 <= k < i ==> hashes[k] == Leaves(zero, txs)[k]
    {
      hashes := hashes + [Leaf(zero, txs[i])];
    }
    root := ComputeMerkleRoot(zero, pair, hashes);
    assert hashes == Leaves(zero, txs);
  }

  // ---------- the tree the fold computes, top down ----------

  function Pow2(d: nat): (p: nat)
    ensures p > 0
  {
    if d == 0 then 1 else 2 * Pow2(d - 1)
  }

  /** The least depth whose complete binary tree holds n leaves. */
  function Depth(n: nat): (d: nat)
    ensures n <= Pow2(d)
    ensures d > 0 ==> Pow2(d - 1) < n
  {
    if n <= 1 then 0 else Depth((n + 1) / 2) + 1
  }

  /** Root of the binary tree of depth d over the leaves; an absent right half repeats the left. */
  function TreeRoot<Hash>(pair: (Hash, Hash) -> Hash, d: nat, leaves: seq<Hash>): Hash
    requires 0 < |leaves| <= Pow2(d)
  {
    if d == 0 then leaves[0]
    else
      var half := Pow2(d - 1);
      if |leaves| > half then pair(TreeRoot(pair, d - 1, leaves[..half]), TreeRoot(pair, d - 1, leaves[half..]))
      else pair(TreeRoot(pair, d - 1, leaves), TreeRoot(pair, d - 1, leaves))
  }

  lemma NextLevelSplits<Hash>(pair: (Hash, Hash) -> Hash, leaves: seq<Hash>, k: nat)
    requires 2 * k < |leaves|
    ensures NextLevel(pair, leaves[..2 * k]) == NextLevel(pair, leaves)[..k]
    ensures NextLevel(pair, leaves[2 * k..]) == NextLevel(pair, leaves)[k..]
  {
    var up, right := NextLevel(pair, leaves), NextLevel(pair, leaves[2 * k..]);
    forall i | 0 <= i < |right| ensures right[i] == up[k + i] {
      assert leaves[2 * k..][2 * i] == leaves[2 * (k + i)];
      if 2 * i + 1 < |leaves| - 2 * k {
        assert leaves[2 * k..][2 * i + 1] == leaves[2 * (k + i) + 1];
      }
    }
  }

  /** The root of the shallowest tree that holds the leaves. */
  function Root<Hash>(pair: (Hash, Hash) -> Hash, leaves: seq<Hash>): Hash
    requires leaves != []
  {
    TreeRoot(pair, Depth(|leaves|), leaves)
  }

  lemma FoldKeepsRoot<Hash>(pair: (Hash, Hash) -> Hash, level: seq<Hash>)
    requires |level| > 1
    ensures Root(pair, NextLevel(pair, level)) == Root(pair, level)
  {
    var d := Depth(|level|);
    LevelUp(pair, d, level);
    assert Depth((|level| + 1) / 2) == d - 1;
  }

  /** Folding one level leaves the root of the tree unchanged. */
  lemma {:induction false} LevelUp<Hash>(pair: (Hash, Hash) -> Hash, d: nat, leaves: seq<Hash>)
    requires d > 0 && 0 < |leaves| <= Pow2(d)
    ensures TreeRoot(pair, d, leaves) == TreeRoot(pair, d - 1, NextLevel(pair, leaves))
  {
    if d > 1 {
      var half := Pow2(d - 1);
      if |leaves| > half {
        LevelUp(pair, d - 1, leaves[..half]);
        LevelUp(pair, d - 1, leaves[half..]);
        NextLevelSplits(pair, leaves, Pow2(d - 2));
      } else {
        LevelUp(pair, d - 1, leaves);
      }
    }
  }

  // ---------- binding ----------

  /** The 2^d leaves the tree really hashes: absent right halves are copies of the left. */
  function Expanded<Hash>(d: nat, leaves: seq<Hash>): (r: seq<Hash>)
    requires 0 < |leaves| <= Pow2(d)
    ensures |r| == Pow2(d)
    ensures leaves <= r
  {
    if d == 0 then leaves
    else
      var half := Pow2(d - 1);
      if |leaves| > half then Expanded(d - 1, leaves[..half]) + Expanded(d - 1, leaves[half..])
      else Expanded(d - 1, leaves) + Expanded(d - 1, leaves)
  }

  lemma {:induction false} RootOfExpanded<Hash>(pair: (Hash, Hash) -> Hash, d: nat, leaves: seq<Hash>)
    requires 0 < |leaves| <= Pow2(d)
    ensures TreeRoot(pair, d, Expanded(d, leaves)) == TreeRoot(pair, d, leaves)
  {
    if d > 0 {
      var half := Pow2(d - 1);
      var left := if |leaves| > half then leaves[..half] else leaves;
      var right := if |leaves| > half then leaves[half..] else leaves;
      RootOfExpanded(pair, d - 1, left);
      RootOfExpanded(pair, d - 1, right);
      var e := Expanded(d, leaves);
      assert e[..half] == Expanded(d - 1, left) && e[half..] == Expanded(d - 1, right);
    }
  }

  lemma {:induction false} FullTreeBinds<Hash(!new)>(pair: (Hash, Hash) -> Hash, d: nat, a: seq<Hash>, b: seq<Hash>)
    requires CollisionFree(pair) && |a| == |b| == Pow2(d)
    requires TreeRoot(pair, d, a) == TreeRoot(pair, d, b)
    ensures a == b
  {
    if d > 0 {
      var half := Pow2(d - 1);
      FullTreeBinds(pair, d - 1, a[..half], b[..half]);
      FullTreeBinds(pair, d - 1, a[half..], b[half..]);
      assert a == a[..half] + a[half..] && b == b[..half] + b[half..];
    }
  }

  /** The level of the tree at which it is `d` deep, the leaves themselves if they are no deeper. */
  function FoldedTo<Hash>(pair: (Hash, Hash) -> Hash, leaves: seq<Hash>, d: nat): (r: seq<Hash>)
    requires leaves != []
    ensures r != [] && Depth(|r|) == if Depth(|leaves|) > d then d else Depth(|leaves|)
    decreases |leaves|
  {
    if Depth(|leaves|) <= d then leaves else FoldedTo(pair, NextLevel(pair, leaves), d)
  }

  lemma {:induction false} FoldedToKeepsRoot<Hash>(pair: (Hash, Hash) -> Hash, leaves: seq<Hash>, d: nat)
    requires leaves != []
    ensures Root(pair, FoldedTo(pair, leaves, d)) == Root(pair, leaves)
    decreases |leaves|
  {
    if Depth(|leaves|) > d {
      FoldKeepsRoot(pair, leaves);
      FoldedToKeepsRoot(pair, NextLevel(pair, leaves), d);
    }
  }

  /**
   * Any two lists share a root exactly when, folded to the depth of the shallower one, they expand to the same
   * hashes; so inner nodes of the deeper list may stand as leaves of the other.
   */
  lemma RootsAgreeIff<Hash(!new)>(pair: (Hash, Hash) -> Hash, a: seq<Hash>, b: seq<Hash>)
    requires CollisionFree(pair) && a != [] && b != []
    ensures var d := if Depth(|a|) < Depth(|b|) then Depth(|a|) else Depth(|b|);
            Root(pair, a) == Root(pair, b) <==>
              Expanded(d, FoldedTo(pair, a, d)) == Expanded(d, FoldedTo(pair, b, d))
  {
    var d := if Depth(|a|) < Depth(|b|) then Depth(|a|) else Depth(|b|);
    FoldedToKeepsRoot(pair, a, d);
    FoldedToKeepsRoot(pair, b, d);
    SameDepthRootsAgreeIff(pair, FoldedTo(pair, a, d), FoldedTo(pair, b, d));
  }

  /** Two lists of one depth share a root exactly when they expand to the same leaves. */
  lemma SameDepthRootsAgreeIff<Hash(!new)>(pair: (Hash, Hash) -> Hash, a: seq<Hash>, b: seq<Hash>)
    requires CollisionFree(pair) && a != [] && b != [] && Depth(|a|) == Depth(|b|)
    ensures var d := Depth(|a|);
            Root(pair, a) == Root(pair, b) <==> Expanded(d, a) == Expanded(d, b)
  {
    var d := Depth(|a|);
    RootOfExpanded(pair, d, a);
    RootOfExpanded(pair, d, b);
    if TreeRoot(pair, d, a) == TreeRoot(pair, d, b) {
      FullTreeBinds(pair, d, Expanded(d, a), Expanded(d, b));
    }
  }

  /** Lists of one length with one root are one list. */
  lemma RootBindsLeaves<Hash(!new)>(pair: (Hash, Hash) -> Hash, a: seq<Hash>, b: seq<Hash>)
    requires CollisionFree(pair) && a != [] && |a| == |b|
    requires Root(pair, a) == Root(pair, b)
    ensures a == b
  {
    SameDepthRootsAgreeIff(pair, a, b);
    assert Expanded(Depth(|a|), a)[..|a|] == a;
    assert Expanded(Depth(|b|), b)[..|b|] == b;
  }

  /** The length is needed: repeating the last of an odd number of leaves keeps the root. */
  lemma OddDuplicateSharesRoot<Hash>(pair: (Hash, Hash) -> Hash, leaves: seq<Hash>)
    requires |leaves| % 2 == 1 && |leaves| > 1
    ensures var longer := leaves + [leaves[|leaves| - 1]];
            Root(pair, longer) == Root(pair, leaves)
  {
    var longer := leaves + [leaves[|leaves| - 1]];
    SameNextLevel(pair, leaves);
    FoldKeepsRoot(pair, leaves);
    FoldKeepsRoot(pair, longer);
  }

  lemma SameNextLevel<Hash>(pair: (Hash, Hash) -> Hash, leaves: seq<Hash>)
    requires |leaves| % 2 == 1 && |leaves| > 1
    ensures var longer := leaves + [leaves[|leaves| - 1]];
            NextLevel(pair, longer) == NextLevel(pair, leaves)
  {
    var longer := leaves + [leaves[|leaves| - 1]];
    assert (|longer| + 1) / 2 == (|leaves| + 1) / 2;
  }

  // ---------- what a transaction root commits to ----------

  lemma {:induction false} LeavesBind<Hash>(zero: Hash, a: seq<Option<Hash>>, b: seq<Option<Hash>>, i: nat)
    requires |a| == |b| && i < |a| && Some(zero) !in a && Some(zero) !in b
    requires Leaves(zero, a) == Leaves(zero, b)
    ensures a[i] == b[i]
  {
    assert Leaves(zero, a)[i] == Leaves(zero, b)[i];
    assert a[i] in a && b[i] in b;
  }

  /** As many transactions, none of them hashed to zero, have one root if and only if they are the same. */
  lemma TxRootBinds<Hash(!new)>(zero: Hash, pair: (Hash, Hash) -> Hash, a: seq<Option<Hash>>, b: seq<Option<Hash>>)
    requires CollisionFree(pair) && |a| == |b| && Some(zero) !in a && Some(zero) !in b
    ensures TxRoot(zero, pair, a) == TxRoot(zero, pair, b) <==> a == b
  {
    if a != [] && TxRoot(zero, pair, a) == TxRoot(zero, pair, b) {
      RootBindsLeaves(pair, Leaves(zero, a), Leaves(zero, b));
      forall i | 0 <= i < |a| ensures a[i] == b[i] {
        LeavesBind(zero, a, b, i);
      }
    }
  }

  /** Small blocks, written out: the first transaction stands on the left, and an odd last one is doubled. */
  lemma SmallTxRoots<Hash>(zero: Hash, pair: (Hash, Hash) -> Hash, a: Hash, b: Hash, c: Hash)
    ensures TxRoot(zero, pair, []) == zero && TxRoot(zero, pair, [None]) == zero
    ensures TxRoot(zero, pair, [Some(a)]) == a
    ensures TxRoot(zero, pair, [Some(a), Some(b)]) == pair(a, b)
    ensures TxRoot(zero, pair, [Some(a), None]) == pair(a, zero)
    ensures TxRoot(zero, pair, [Some(a), Some(b), Some(c)]) == pair(pair(a, b), pair(c, c))
  {
    FoldKeepsRoot(pair, [a, b]);
    assert NextLevel(pair, [a, b]) == [pair(a, b)] && Leaves(zero, [Some(a), Some(b)]) == [a, b];
    FoldKeepsRoot(pair, [a, zero]);
    assert NextLevel(pair, [a, zero]) == [pair(a, zero)] && Leaves(zero, [Some(a), None]) == [a, zero];
    FoldKeepsRoot(pair, [a, b, c]);
    assert NextLevel(pair, [a, b, c]) == [pair(a, b), pair(c, c)];
    assert Leaves(zero, [Some(a), Some(b), Some(c)]) == [a, b, c];
    FoldKeepsRoot(pair, [pair(a, b), pair(c, c)]);
    assert NextLevel(pair, [pair(a, b), pair(c, c)]) == [pair(pair(a, b), pair(c, c))];
  }
}
