/** The block store and the canonical index, with the operations a reorganisation uses. */
module ChainStore {
  import opened Wrappers
  import opened ForkChoice

  // ---------- the store as a value ----------

  type Bodies = map<Hash, Block>
  type Index = map<nat, Hash>

  /** A block filed under its own hash, with its parent stored one height below; one genesis. */
  ghost predicate BlockOk(bodies: Bodies, genesis: Hash, h: Hash)
    requires h in bodies
  {
    var b := bodies[h];
    && b.hash == h
    && (b.number == 0 ==> h == genesis)
    && (b.number > 0 ==> b.parentHash in bodies && bodies[b.parentHash].number + 1 == b.number)
  }

  ghost predicate ParentClosed(bodies: Bodies, genesis: Hash) {
    forall h {:trigger BlockOk(bodies, genesis, h)} | h in bodies :: BlockOk(bodies, genesis, h)
  }

  /** An index entry names a stored block of that height. */
  ghost predicate EntryOk(bodies: Bodies, canonical: Index, n: nat) {
    n in canonical && canonical[n] in bodies && bodies[canonical[n]].number == n
  }

  ghost predicate LinkOk(bodies: Bodies, canonical: Index, n: nat) {
    && EntryOk(bodies, canonical, n)
    && (n > 0 ==> n - 1 in canonical && bodies[canonical[n]].parentHash == canonical[n - 1])
  }

  /**
   * All entries are sound and those from genesis to `height` are linked. Entries above `height` may
   * be left over from a chain that was reverted.
   */
  ghost predicate ChainOk(bodies: Bodies, canonical: Index, height: nat) {
    && 0 in canonical && ParentClosed(bodies, canonical[0])
    && (forall n {:trigger EntryOk(bodies, canonical, n)} | n in canonical :: EntryOk(bodies, canonical, n))
    && (forall n {:trigger LinkOk(bodies, canonical, n)} :: 0 <= n <= height ==> LinkOk(bodies, canonical, n))
  }

  /** The canonical block at a height, or the genesis block where the index is empty. */
  function At(bodies: Bodies, canonical: Index, n: nat): Block
    requires 0 in canonical && canonical[0] in bodies
  {
    if n in canonical && canonical[n] in bodies then bodies[canonical[n]] else bodies[canonical[0]]
  }

  function Indexed(bodies: Bodies, canonical: Index, height: nat): (r: seq<Block>)
    requires 0 in canonical && canonical[0] in bodies
    ensures |r| == height + 1
  {
    seq(height + 1, i requires 0 <= i <= height => At(bodies, canonical, i))
  }

  class Blockchain {
    var bodies: Bodies
    var canonical: Index
    var latest: Option<Block>
    var height: nat

    /** The tip is the canonical block at `height`; it can only be missing at genesis height. */
    ghost predicate Valid()
      reads this
    {
      && ChainOk(bodies, canonical, height)
      && EntryOk(bodies, canonical, 0)
      && (height > 0 ==> latest.Some?)
      && (latest.Some? ==> latest.value == At(bodies, canonical, height))
    }

    /** The canonical chain, genesis first. */
    function Active(): (r: seq<Block>)
      reads this
      requires Valid()
      ensures |r| == height + 1
    {
      Indexed(bodies, canonical, height)
    }

    /** A hash names one block: an unknown block never carries a stored block's hash. */
    ghost predicate Identified(b: Block)
      reads this
    {
      b.hash in bodies ==> bodies[b.hash] == b
    }

    constructor (genesis: Block)
      requires genesis.number == 0
      ensures Valid() && Active() == [genesis] && latest == Some(genesis)
      ensures bodies == map[genesis.hash := genesis] && canonical == map[0 := genesis.hash]
    {
      bodies := map[genesis.hash := genesis];
      canonical := map[0 := genesis.hash];
      latest := Some(genesis);
      height := 0;
    }

    function GetBlock(n: nat): Option<Block>
      reads this
    {
      if n in canonical && canonical[n] in bodies then Some(bodies[canonical[n]]) else None
    }

    function GetBlockByHash(hash: Hash): Option<Block>
      reads this
    {
      if hash in bodies then Some(bodies[hash]) else None
    }

    function CurrentTip(): Hash
      reads this
    {
      match latest case Some(b) => b.hash case None => 0
    }

    method GetCumulativeWork(n: nat) returns (total: Option<nat>)
      requires Valid()
      ensures n <= height ==> total == Some(ChainWork(Active()[..n + 1]))
    {
      var sum: nat := 0;
      for h := 0 to n + 1
        invariant h <= height + 1 ==> sum == ChainWork(Active()[..h])
      {
        var blk := GetBlock(h);
        if h <= height {
          assert LinkOk(bodies, canonical, h);
          assert Active()[..h + 1][..h] == Active()[..h];
        }
        if blk.None? {
          return None;
        }
        sum := sum + CalculateBlockWork(blk.value.difficulty);
      }
      total := Some(sum);
    }

    /** The parent of a block above genesis must be stored. */
    method ValidateBlockContext(b: Block) returns (ok: bool)
      ensures ok <==> b.number == 0 || b.parentHash in bodies
    {
      ok := b.number == 0 || GetBlockByHash(b.parentHash).Some?;
    }

    /**
     * Adding a block: it must stand directly on the tip, and validation, execution and the write,
     * whose outcome is arbitrary here, must succeed. A refused block changes nothing.
     */
    method ConnectBlock(b: Block) returns (ok: bool)
      requires Valid() && Identified(b)
      modifies this
      ensures Valid()
      ensures ok ==> old(latest.Some?) && b.number == old(height) + 1 && b.parentHash == old(CurrentTip())
      ensures ok ==> Active() == old(Active()) + [b] && latest == Some(b)
      ensures ok ==> bodies == old(bodies)[b.hash := b] && canonical == old(canonical)[b.number := b.hash]
      ensures !ok ==> unchanged(this)
    {
      ok := latest.Some? && b.number == height + 1 && b.parentHash == latest.value.hash;
      if ok {
        ok := *;
      }
      if ok {
        ConnectKeepsOk(bodies, canonical, height, b);
        IndexedConnected(bodies, canonical, height, b);
        bodies := bodies[b.hash := b];
        canonical := canonical[b.number := b.hash];
        latest := Some(b);
        height := b.number;
      }
    }

    /** Bodies and the index are kept; reverting to genesis loses the tip. */
    method RevertToHeight(n: nat) returns (ok: bool)
      requires Valid()
      modifies this`latest, this`height
      ensures Valid()
      ensures ok ==> n <= old(height) && height == n && Active() == old(Active())[..n + 1]
      ensures ok && n < old(height) ==> (latest.Some? <==> n > 0)
      ensures ok && n == old(height) ==> latest == old(latest)
      ensures !ok ==> unchanged(this)
    {
      if n > height {
        return false;
      }
      if n == height {
        assert Active() == Active()[..n + 1];
        return true;
      }
      ok := *;
      if ok {
        ghost var before := Active();
        assert LinkOk(bodies, canonical, n);
        latest := if n == 0 then None else GetBlock(n);
        height := n;
        assert Active() == before[..n + 1];
      }
    }

    method DisconnectBlock(n: nat) returns (ok: bool)
      requires Valid()
      modifies this`latest, this`height
      ensures Valid()
      ensures ok ==> 1 <= n <= old(height) + 1 && height == n - 1 && Active() == old(Active())[..n]
      ensures ok && n <= old(height) ==> (latest.Some? <==> n > 1)
      ensures ok && n == old(height) + 1 ==> latest == old(latest)
      ensures !ok ==> unchanged(this)
    {
      if n == 0 {
        return false;
      }
      ok := RevertToHeight(n - 1);
    }

    /** Drops the index entries of a range of heights above the tip; the bodies stay. */
    method DeleteCanonicalChain(fromHeight: nat, toHeight: nat)
      requires Valid() && fromHeight > height
      modifies this`canonical
      ensures Valid() && Active() == old(Active())
      ensures forall n :: n in canonical <==> n in old(canonical) && !(fromHeight <= n <= toHeight)
      ensures forall n :: n in canonical ==> canonical[n] == old(canonical)[n]
    {
      ghost var before := Active();
      var h := fromHeight;
      while h <= toHeight
        invariant fromHeight <= h
        invariant Valid() && Active() == before
        invariant forall n :: n in canonical <==> n in old(canonical) && !(fromHeight <= n < h && n <= toHeight)
        invariant forall n :: n in canonical ==> canonical[n] == old(canonical)[n]
      {
        if h in canonical {
          DropKeepsOk(bodies, canonical, height, h);
          canonical := canonical - {h};
        }
        h := h + 1;
      }
    }

    /** Writes a block and makes it the tip, whatever stands below it. */
    method WriteBlock(b: Block)
      modifies this
      ensures bodies == old(bodies)[b.hash := b] && canonical == old(canonical)[b.number := b.hash]
      ensures latest == Some(b) && height == b.number
    {
      bodies := bodies[b.hash := b];
      canonical := canonical[b.number := b.hash];
      latest := Some(b);
      height := b.number;
    }
  }

  lemma DropKeepsOk(bodies: Bodies, canonical: Index, height: nat, n: nat)
    requires ChainOk(bodies, canonical, height) && EntryOk(bodies, canonical, 0) && n > height
    ensures ChainOk(bodies, canonical - {n}, height) && EntryOk(bodies, canonical - {n}, 0)
    ensures Indexed(bodies, canonical - {n}, height) == Indexed(bodies, canonical, height)
  {
    forall m | m in canonical - {n} ensures EntryOk(bodies, canonical - {n}, m) {
      assert EntryOk(bodies, canonical, m);
    }
    forall m: nat | m <= height ensures LinkOk(bodies, canonical - {n}, m) {
      assert LinkOk(bodies, canonical, m);
    }
  }

  lemma ConnectKeepsOk(bodies: Bodies, canonical: Index, height: nat, b: Block)
    requires ChainOk(bodies, canonical, height) && EntryOk(bodies, canonical, 0)
    requires b.hash in bodies ==> bodies[b.hash] == b
    requires b.number == height + 1 && b.parentHash == At(bodies, canonical, height).hash
    ensures ChainOk(bodies[b.hash := b], canonical[b.number := b.hash], b.number)
    ensures EntryOk(bodies[b.hash := b], canonical[b.number := b.hash], 0)
  {
    var bodies', canonical' := bodies[b.hash := b], canonical[b.number := b.hash];
    assert LinkOk(bodies, canonical, height);
    assert BlockOk(bodies, canonical[0], canonical[height]);
    forall h | h in bodies' ensures BlockOk(bodies', canonical'[0], h) {
      if h != b.hash {
        assert BlockOk(bodies, canonical[0], h);
      }
    }
    forall n | n in canonical' ensures EntryOk(bodies', canonical', n) {
      if n != b.number {
        assert EntryOk(bodies, canonical, n);
      }
    }
    forall n: nat | n <= b.number ensures LinkOk(bodies', canonical', n) {
      if n != b.number {
        assert LinkOk(bodies, canonical, n);
      }
    }
  }

  lemma IndexedConnected(bodies: Bodies, canonical: Index, height: nat, b: Block)
    requires ChainOk(bodies, canonical, height) && EntryOk(bodies, canonical, 0) && b.number == height + 1
    requires b.hash in bodies ==> bodies[b.hash] == b
    requires EntryOk(bodies[b.hash := b], canonical[b.number := b.hash], 0)
    ensures Indexed(bodies[b.hash := b], canonical[b.number := b.hash], b.number)
         == Indexed(bodies, canonical, height) + [b]
  {
    var bodies', canonical' := bodies[b.hash := b], canonical[b.number := b.hash];
    var chain, longer := Indexed(bodies, canonical, height), Indexed(bodies', canonical', b.number);
    forall i | 0 <= i <= height ensures longer[i] == chain[i] {
      assert LinkOk(bodies, canonical, i);
    }
    assert longer == chain + [b];
  }

  // ---------- ancestors and segments ----------

  ghost predicate Stored(bodies: Bodies, genesis: Hash, b: Block) {
    ParentClosed(bodies, genesis) && b.hash in bodies && bodies[b.hash] == b
  }

  function Parent(bodies: Bodies, ghost genesis: Hash, b: Block): (p: Block)
    requires Stored(bodies, genesis, b) && b.number > 0
    ensures Stored(bodies, genesis, p) && p.hash == b.parentHash && p.number + 1 == b.number
  {
    assert BlockOk(bodies, genesis, b.hash);
    assert BlockOk(bodies, genesis, b.parentHash);
    bodies[b.parentHash]
  }

  /** The ancestor of a stored block at a height not above its own. */
  ghost function Ancestor(bodies: Bodies, genesis: Hash, b: Block, n: nat): (a: Block)
    requires Stored(bodies, genesis, b) && n <= b.number
    ensures Stored(bodies, genesis, a) && a.number == n
    decreases b.number
  {
    if b.number == n then b else Ancestor(bodies, genesis, Parent(bodies, genesis, b), n)
  }

  /** The ancestors of a stored block above `n`, oldest first, itself last. */
  ghost function Segment(bodies: Bodies, genesis: Hash, b: Block, n: nat): (s: seq<Block>)
    requires Stored(bodies, genesis, b)
    ensures |s| == if b.number <= n then 0 else b.number - n
    decreases b.number
  {
    if b.number <= n then [] else Segment(bodies, genesis, Parent(bodies, genesis, b), n) + [b]
  }

  function PrecedingHash(parentHash: Hash, s: seq<Block>, i: nat): Hash
    requires i < |s|
  {
    if i == 0 then parentHash else s[i - 1].hash
  }

  /** A sequence of blocks whose first has the given parent and each next one the block before. */
  ghost predicate LinkedFrom(parentHash: Hash, s: seq<Block>) {
    forall i {:trigger PrecedingHash(parentHash, s, i)} | 0 <= i < |s| ::
      s[i].parentHash == PrecedingHash(parentHash, s, i)
  }

  /** Element i of a segment above n is the ancestor at height n + 1 + i. */
  lemma {:induction false} SegmentAt(bodies: Bodies, genesis: Hash, b: Block, n: nat, i: nat)
    requires Stored(bodies, genesis, b) && n + i < b.number
    ensures Segment(bodies, genesis, b, n)[i] == Ancestor(bodies, genesis, b, n + 1 + i)
    decreases b.number
  {
    if n + 1 + i < b.number {
      SegmentAt(bodies, genesis, Parent(bodies, genesis, b), n, i);
    }
  }

  lemma {:induction false} AncestorParent(bodies: Bodies, genesis: Hash, b: Block, n: nat)
    requires Stored(bodies, genesis, b) && n < b.number
    ensures Parent(bodies, genesis, Ancestor(bodies, genesis, b, n + 1)) == Ancestor(bodies, genesis, b, n)
    decreases b.number
  {
    if n + 1 < b.number {
      AncestorParent(bodies, genesis, Parent(bodies, genesis, b), n);
    } else {
      var p := Parent(bodies, genesis, b);
      assert Ancestor(bodies, genesis, p, n) == p;
    }
  }

  /** A segment is parent-linked, of consecutive heights, and starts on the ancestor at n. */
  lemma SegmentIsPath(bodies: Bodies, genesis: Hash, b: Block, n: nat)
    requires Stored(bodies, genesis, b) && n <= b.number
    ensures LinkedFrom(Ancestor(bodies, genesis, b, n).hash, Segment(bodies, genesis, b, n))
    ensures forall i {:trigger Segment(bodies, genesis, b, n)[i]} :: 0 <= i < b.number - n ==>
              Segment(bodies, genesis, b, n)[i].number == n + 1 + i
  {
    var s := Segment(bodies, genesis, b, n);
    forall i | 0 <= i < |s|
      ensures s[i].parentHash == PrecedingHash(Ancestor(bodies, genesis, b, n).hash, s, i)
      ensures s[i].number == n + 1 + i
    {
      SegmentAt(bodies, genesis, b, n, i);
      AncestorParent(bodies, genesis, b, n + i);
      assert s[i].parentHash == Ancestor(bodies, genesis, b, n + i).hash;
      if i > 0 {
        SegmentAt(bodies, genesis, b, n, i - 1);
        assert s[i - 1] == Ancestor(bodies, genesis, b, n + i);
      }
    }
  }

  lemma CanonicalStored(bodies: Bodies, canonical: Index, height: nat, n: nat)
    requires ChainOk(bodies, canonical, height) && EntryOk(bodies, canonical, 0) && n <= height
    ensures Stored(bodies, canonical[0], At(bodies, canonical, n)) && At(bodies, canonical, n).number == n
    ensures n in canonical && canonical[n] == At(bodies, canonical, n).hash
  {
    assert LinkOk(bodies, canonical, n);
    assert BlockOk(bodies, canonical[0], canonical[n]);
  }

  /** The ancestors of a canonical block at or under the tip are the canonical blocks. */
  lemma {:induction false} CanonicalAncestor(bodies: Bodies, canonical: Index, height: nat, m: nat, n: nat)
    requires ChainOk(bodies, canonical, height) && EntryOk(bodies, canonical, 0) && n <= m <= height
    ensures Stored(bodies, canonical[0], At(bodies, canonical, m)) && At(bodies, canonical, m).number == m
    ensures Ancestor(bodies, canonical[0], At(bodies, canonical, m), n) == At(bodies, canonical, n)
    decreases m
  {
    CanonicalStored(bodies, canonical, height, m);
    if n < m {
      CanonicalStored(bodies, canonical, height, m - 1);
      CanonicalAncestor(bodies, canonical, height, m - 1, n);
      assert LinkOk(bodies, canonical, m);
    }
  }

  /** Rebuilding the active branch from a canonical block gives the canonical chain above n. */
  lemma CanonicalSegment(bodies: Bodies, canonical: Index, height: nat, n: nat)
    requires ChainOk(bodies, canonical, height) && EntryOk(bodies, canonical, 0) && n <= height
    ensures Stored(bodies, canonical[0], At(bodies, canonical, height))
    ensures Segment(bodies, canonical[0], At(bodies, canonical, height), n)
         == Indexed(bodies, canonical, height)[n + 1..]
  {
    CanonicalStored(bodies, canonical, height, height);
    var tip := At(bodies, canonical, height);
    var s := Segment(bodies, canonical[0], tip, n);
    forall i | 0 <= i < |s| ensures s[i] == Indexed(bodies, canonical, height)[n + 1 + i] {
      SegmentAt(bodies, canonical[0], tip, n, i);
      CanonicalAncestor(bodies, canonical, height, height, n + 1 + i);
    }
  }
}
