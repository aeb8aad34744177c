/** InsertChain: fork choice by weight and tie-break for a segment of blocks, and runs of segments. */
module InsertChain {
  import opened Wrappers
  import opened ForkChoice
  import opened ChainStore

  // ---------- segments ----------

  /** Blocks above genesis, given and stored ones alike named by their hashes. Their heights may be anything. */
  predicate Offered(bodies: Bodies, blocks: seq<Block>) {
    && blocks != []
    && (forall i :: 0 <= i < |blocks| ==> blocks[i].number > 0)
    && (forall i :: 0 <= i < |blocks| && blocks[i].hash in bodies ==> bodies[blocks[i].hash] == blocks[i])
    && (forall i, j :: 0 <= i < j < |blocks| && blocks[i].hash == blocks[j].hash ==> blocks[i] == blocks[j])
  }

  function Last(blocks: seq<Block>): Block
    requires blocks != []
  {
    blocks[|blocks| - 1]
  }

  /** The height of the stored parent. */
  function AncestorHeight(bodies: Bodies, blocks: seq<Block>): nat
    requires blocks != [] && blocks[0].parentHash in bodies
  {
    bodies[blocks[0].parentHash].number
  }

  /** What the checks on a segment establish. */
  ghost predicate Checked(bodies: Bodies, blocks: seq<Block>) {
    && Offered(bodies, blocks) && LinkedFrom(blocks[0].parentHash, blocks)
    && forall i :: 0 <= i < |blocks| ==> blocks[i].parentHash in bodies
  }

  lemma PredecessorStored(bodies: Bodies, blocks: seq<Block>, i: nat)
    requires Checked(bodies, blocks) && i + 1 < |blocks|
    ensures blocks[i + 1].parentHash == blocks[i].hash
    ensures blocks[i].hash in bodies && bodies[blocks[i].hash] == blocks[i]
  {
    assert blocks[i + 1].parentHash == PrecedingHash(blocks[0].parentHash, blocks, i + 1);
  }

  /** All blocks but the last are stored already, at consecutive heights above the parent. */
  lemma {:induction false} InnerHeights(bodies: Bodies, genesis: Hash, blocks: seq<Block>, i: nat)
    requires ParentClosed(bodies, genesis) && Checked(bodies, blocks) && i < |blocks|
    requires i + 1 < |blocks| || blocks[i].hash in bodies
    ensures blocks[i].hash in bodies && blocks[i].number == AncestorHeight(bodies, blocks) + 1 + i
  {
    if i + 1 < |blocks| {
      PredecessorStored(bodies, blocks, i);
    }
    assert BlockOk(bodies, genesis, blocks[i].hash);
    if i > 0 {
      InnerHeights(bodies, genesis, blocks, i - 1);
      PredecessorStored(bodies, blocks, i - 1);
    }
  }

  /** The last block's height is what one expects. */
  predicate Consecutive(blocks: seq<Block>, ancestorHeight: nat)
    requires blocks != []
  {
    Last(blocks).number == ancestorHeight + |blocks|
  }

  /** A last block that claims a height not above the parent's is passed over when the segment is written. */
  function Effective(blocks: seq<Block>, ancestorHeight: nat): seq<Block>
    requires blocks != []
  {
    if Last(blocks).number <= ancestorHeight then blocks[..|blocks| - 1] else blocks
  }

  lemma Heights(bodies: Bodies, genesis: Hash, blocks: seq<Block>)
    requires ParentClosed(bodies, genesis) && Checked(bodies, blocks)
    ensures forall i :: 0 <= i < |blocks| - 1 ==>
              blocks[i].hash in bodies && blocks[i].number == AncestorHeight(bodies, blocks) + 1 + i
    ensures Last(blocks).hash in bodies ==> Consecutive(blocks, AncestorHeight(bodies, blocks))
    ensures forall i :: 0 <= i < |blocks| - 1 ==> blocks[i].hash != Last(blocks).hash
  {
    forall i | 0 <= i < |blocks| - 1
      ensures blocks[i].hash in bodies && blocks[i].number == AncestorHeight(bodies, blocks) + 1 + i
      ensures blocks[i].hash != Last(blocks).hash
    {
      InnerHeights(bodies, genesis, blocks, i);
      if blocks[i].hash == Last(blocks).hash {
        InnerHeights(bodies, genesis, blocks, |blocks| - 1);
      }
    }
    if Last(blocks).hash in bodies {
      InnerHeights(bodies, genesis, blocks, |blocks| - 1);
    }
  }

  // ---------- weight ----------

  /** The candidates by hash. */
  function ByHash(blocks: seq<Block>): map<Hash, Block> {
    if blocks == [] then map[] else ByHash(blocks[..|blocks| - 1])[Last(blocks).hash := Last(blocks)]
  }

  lemma {:induction false} FoundByHash(blocks: seq<Block>, i: nat)
    requires i < |blocks|
    requires forall i, j :: 0 <= i < j < |blocks| && blocks[i].hash == blocks[j].hash ==> blocks[i] == blocks[j]
    ensures blocks[i].hash in ByHash(blocks) && ByHash(blocks)[blocks[i].hash] == blocks[i]
  {
    if i < |blocks| - 1 {
      FoundByHash(blocks[..|blocks| - 1], i);
    }
  }

  lemma {:induction false} ByHashOnly(blocks: seq<Block>, h: Hash) returns (i: nat)
    requires h in ByHash(blocks)
    ensures i < |blocks| && blocks[i].hash == h
  {
    i := |blocks| - 1;
    if Last(blocks).hash != h {
      i := ByHashOnly(blocks[..|blocks| - 1], h);
    }
  }

  /** The parent of entry `i` is entry `i - 1`, found among the candidates or else in the store. */
  predicate StepsFrom(bodies: Bodies, candidates: map<Hash, Block>, path: seq<Block>, i: nat)
    requires 1 <= i < |path|
  {
    && path[i].parentHash == path[i - 1].hash
    && (if path[i].parentHash in candidates then candidates[path[i].parentHash] == path[i - 1]
        else path[i].parentHash in bodies && bodies[path[i].parentHash] == path[i - 1])
  }

  /** A path whose steps all resolve, and whose first block rests on a stored block at `fromHeight` or below. */
  ghost predicate Resolves(bodies: Bodies, candidates: map<Hash, Block>, path: seq<Block>, fromHeight: nat) {
    && path != []
    && (forall i {:trigger StepsFrom(bodies, candidates, path, i)} :: 1 <= i < |path| ==>
          StepsFrom(bodies, candidates, path, i))
    && path[0].parentHash !in candidates && path[0].parentHash in bodies
    && bodies[path[0].parentHash].number <= fromHeight
  }

  /** The weight found by walking back from the end of a path until a height at or just above `fromHeight`. */
  function WalkWeight(path: seq<Block>, fromHeight: nat): nat {
    if path == [] || Last(path).number <= fromHeight then 0
    else
      NormalizedDifficulty(Last(path).difficulty) +
      if Last(path).number == fromHeight + 1 then 0 else WalkWeight(path[..|path| - 1], fromHeight)
  }

  /** On consecutive heights the walk weighs the whole path. */
  lemma {:induction false} WalkWeighsAll(path: seq<Block>, fromHeight: nat)
    requires forall i :: 0 <= i < |path| ==> path[i].number == fromHeight + 1 + i
    ensures WalkWeight(path, fromHeight) == ChainWeight(path)
  {
    if path != [] {
      WalkWeighsAll(path[..|path| - 1], fromHeight);
      if |path| == 1 {
        assert path[..0] == [];
      }
    }
  }

  /** The backward weight loop computes the walk's weight. */
  method CalculateChainWeightWithCandidates(chain: Blockchain, tip: Block, fromHeight: nat,
                                            candidates: map<Hash, Block>, ghost path: seq<Block>)
    returns (weight: Option<nat>)
    requires Resolves(chain.bodies, candidates, path, fromHeight) && Last(path) == tip
    ensures weight == Some(WalkWeight(path, fromHeight))
  {
    var sum, current := 0, tip;
    ghost var left := |path|;
    assert path[..|path|] == path;
    while current.number > fromHeight
      invariant 0 <= left <= |path| && (left > 0 ==> current == path[left - 1])
      invariant left == 0 ==> current.number <= fromHeight
      invariant sum + WalkWeight(path[..left], fromHeight) == WalkWeight(path, fromHeight)
      decreases left
    {
      sum := sum + NormalizedDifficulty(current.difficulty);
      assert path[..left][..left - 1] == path[..left - 1];
      if current.number == fromHeight + 1 {
        break;
      }
      assert left > 1 ==> StepsFrom(chain.bodies, candidates, path, left - 1);
      if current.parentHash in candidates {
        current := candidates[current.parentHash];
      } else {
        var parent := chain.GetBlockByHash(current.parentHash);
        if parent.None? {
          return None;
        }
        current := parent.value;
      }
      left := left - 1;
    }
    weight := Some(sum);
  }

  lemma ParentIsNoCandidate(bodies: Bodies, genesis: Hash, blocks: seq<Block>)
    requires ParentClosed(bodies, genesis) && Checked(bodies, blocks)
    ensures blocks[0].parentHash !in ByHash(blocks)
  {
    var p := blocks[0].parentHash;
    if p in ByHash(blocks) {
      var k := ByHashOnly(blocks, p);
      InnerHeights(bodies, genesis, blocks, k);
      assert false;
    }
  }

  lemma CandidateStep(bodies: Bodies, blocks: seq<Block>, i: nat)
    requires Checked(bodies, blocks) && 1 <= i < |blocks|
    ensures StepsFrom(bodies, ByHash(blocks), blocks, i)
  {
    PredecessorStored(bodies, blocks, i - 1);
    FoundByHash(blocks, i - 1);
  }

  lemma CandidatePath(bodies: Bodies, genesis: Hash, blocks: seq<Block>)
    requires ParentClosed(bodies, genesis) && Checked(bodies, blocks)
    ensures Resolves(bodies, ByHash(blocks), blocks, AncestorHeight(bodies, blocks))
  {
    forall i | 1 <= i < |blocks| ensures StepsFrom(bodies, ByHash(blocks), blocks, i) {
      CandidateStep(bodies, blocks, i);
    }
    ParentIsNoCandidate(bodies, genesis, blocks);
  }

  lemma ActivePath(chain: Blockchain, n: nat)
    requires chain.Valid() && n < chain.height
    ensures Resolves(chain.bodies, map[], chain.Active()[n + 1..], n)
    ensures WalkWeight(chain.Active()[n + 1..], n) == ChainWeight(chain.Active()[n + 1..])
  {
    var path := chain.Active()[n + 1..];
    forall i | 0 <= i < |path| ensures path[i].number == n + 1 + i {
      CanonicalStored(chain.bodies, chain.canonical, chain.height, n + 1 + i);
    }
    forall i | 0 <= i < |path|
      ensures path[i].parentHash in chain.bodies && chain.bodies[path[i].parentHash] == chain.Active()[n + i]
    {
      CanonicalStored(chain.bodies, chain.canonical, chain.height, n + 1 + i);
      CanonicalStored(chain.bodies, chain.canonical, chain.height, n + i);
      assert LinkOk(chain.bodies, chain.canonical, n + 1 + i);
    }
    forall i | 1 <= i < |path| ensures StepsFrom(chain.bodies, map[], path, i) {
      assert path[i - 1] == chain.Active()[n + i];
      CanonicalStored(chain.bodies, chain.canonical, chain.height, n + i);
      CanonicalStored(chain.bodies, chain.canonical, chain.height, n + 1 + i);
      assert LinkOk(chain.bodies, chain.canonical, n + 1 + i);
    }
    CanonicalStored(chain.bodies, chain.canonical, chain.height, n);
    WalkWeighsAll(path, n);
  }

  // ---------- what a decision means ----------

  /** The index names this hash at this height. */
  predicate OnIndex(canonical: Index, n: nat, hash: Hash) {
    n in canonical && canonical[n] == hash
  }

  function Above(active: seq<Block>, n: nat): seq<Block> {
    if n < |active| then active[n + 1..] else []
  }

  /** Before any block above the tip, block `i` differs from the canonical one of its height. */
  predicate ConflictAt(active: seq<Block>, blocks: seq<Block>, i: nat)
    requires i < |blocks|
  {
    (forall j :: 0 <= j <= i ==> blocks[j].number < |active|) && active[blocks[i].number].hash != blocks[i].hash
  }

  ghost predicate Conflicting(active: seq<Block>, blocks: seq<Block>) {
    exists i :: 0 <= i < |blocks| && ConflictAt(active, blocks, i)
  }

  ghost predicate ReorgRequired(canonical: Index, active: seq<Block>, blocks: seq<Block>, ancestorHeight: nat)
    requires blocks != []
  {
    !OnIndex(canonical, ancestorHeight, blocks[0].parentHash) || Conflicting(active, blocks)
  }

  /** More weight above the ancestor, or as much at the tip's height and a better block. */
  predicate Wins(active: seq<Block>, latest: Option<Block>, blocks: seq<Block>, ancestorHeight: nat)
    requires blocks != [] && active != []
  {
    var newWeight, oldWeight := WalkWeight(blocks, ancestorHeight), ChainWeight(Above(active, ancestorHeight));
    newWeight > oldWeight ||
    (newWeight == oldWeight && Last(blocks).number == |active| - 1 &&
     IsBetterBlockCandidate(Some(Last(blocks)), latest))
  }

  /** A single rival of the tip wins by its header fields: more difficulty, or as much and the tie-break. */
  lemma RivalWinsIff(active: seq<Block>, b: Block)
    requires |active| >= 2 && b.number == |active| - 1
    ensures var tip := active[|active| - 1];
            Wins(active, Some(tip), [b], |active| - 2) <==>
              AsHard(b, tip) && (AsHard(tip, b) ==>
                ProvesAsWell(b, tip) && (ProvesAsWell(tip, b) ==>
                  b.time <= tip.time && (b.time == tip.time ==> b.hash < tip.hash)))
  {
    var tip := active[|active| - 1];
    assert Above(active, |active| - 2) == [tip] && [b][..0] == [];
    OneBlock(tip);
    BetterByFields(b, tip);
  }

  // ---------- what writing a segment leaves behind ----------

  function WrittenBodies(bodies: Bodies, s: seq<Block>): Bodies {
    if s == [] then bodies else WrittenBodies(bodies, s[..|s| - 1])[Last(s).hash := Last(s)]
  }

  function WrittenIndex(canonical: Index, s: seq<Block>): Index {
    if s == [] then canonical else WrittenIndex(canonical, s[..|s| - 1])[Last(s).number := Last(s).hash]
  }

  /** Bodies written under hashes that name them already change nothing but the new ones. */
  lemma {:induction false} WrittenBodiesLookup(bodies: Bodies, s: seq<Block>, h: Hash)
    requires forall i :: 0 <= i < |s| && s[i].hash in bodies ==> bodies[s[i].hash] == s[i]
    requires forall i, j :: 0 <= i < j < |s| && s[i].hash == s[j].hash ==> s[i] == s[j]
    ensures h in bodies ==> h in WrittenBodies(bodies, s) && WrittenBodies(bodies, s)[h] == bodies[h]
    ensures forall i :: 0 <= i < |s| && s[i].hash == h ==>
              h in WrittenBodies(bodies, s) && WrittenBodies(bodies, s)[h] == s[i]
    ensures h in WrittenBodies(bodies, s) && h !in bodies ==> exists i :: 0 <= i < |s| && s[i].hash == h
  {
    if s != [] {
      var n := |s| - 1;
      WrittenBodiesLookup(bodies, s[..n], h);
      assert forall i :: 0 <= i < n ==> s[..n][i] == s[i];
    }
  }

  lemma {:induction false} WrittenIndexBelow(canonical: Index, s: seq<Block>, n: nat)
    requires forall i :: 0 <= i < |s| ==> s[i].number != n
    ensures n in WrittenIndex(canonical, s) <==> n in canonical
    ensures n in canonical ==> WrittenIndex(canonical, s)[n] == canonical[n]
  {
    if s != [] {
      WrittenIndexBelow(canonical, s[..|s| - 1], n);
    }
  }

  /** Where the segment may be appended: the index leads from genesis to its parent without a break. */
  ghost predicate LeadsTo(bodies: Bodies, canonical: Index, n: nat, hash: Hash) {
    ChainOk(bodies, canonical, n) && OnIndex(canonical, n, hash)
  }

  lemma TipBelow(bodies: Bodies, canonical: Index, n: nat, s: seq<Block>, hash: Hash, m: nat, tip: Block)
    requires LeadsTo(bodies, canonical, n, hash) && EntryOk(bodies, canonical, 0) && LinkedFrom(hash, s) && m < |s|
    requires tip == (Indexed(bodies, canonical, n) + s[..m])[n + m]
    ensures s[m].parentHash == tip.hash
  {
    assert s[m].parentHash == PrecedingHash(hash, s, m);
    CanonicalStored(bodies, canonical, n, n);
  }

  /** Consecutive linked blocks written above such a place continue the chain. */
  lemma {:induction false} WrittenContinues(bodies: Bodies, canonical: Index, n: nat, s: seq<Block>, hash: Hash)
    requires LeadsTo(bodies, canonical, n, hash) && EntryOk(bodies, canonical, 0) && LinkedFrom(hash, s)
    requires forall i :: 0 <= i < |s| ==> s[i].number == n + 1 + i
    requires forall i :: 0 <= i < |s| && s[i].hash in bodies ==> bodies[s[i].hash] == s[i]
    requires forall i, j :: 0 <= i < j < |s| && s[i].hash == s[j].hash ==> s[i] == s[j]
    ensures ChainOk(WrittenBodies(bodies, s), WrittenIndex(canonical, s), n + |s|)
    ensures EntryOk(WrittenBodies(bodies, s), WrittenIndex(canonical, s), 0)
    ensures Indexed(WrittenBodies(bodies, s), WrittenIndex(canonical, s), n + |s|) ==
              Indexed(bodies, canonical, n) + s
  {
    if s != [] {
      var m := |s| - 1;
      var front, b := s[..m], s[m];
      assert forall i :: 0 <= i < m ==> front[i] == s[i];
      LinkedFront(hash, s);
      WrittenContinues(bodies, canonical, n, front, hash);
      var bodies', canonical' := WrittenBodies(bodies, front), WrittenIndex(canonical, front);
      WrittenBodiesLookup(bodies, front, b.hash);
      TipBelow(bodies, canonical, n, s, hash, m, At(bodies', canonical', n + m));
      ConnectKeepsOk(bodies', canonical', n + m, b);
      IndexedConnected(bodies', canonical', n + m, b);
      assert Indexed(bodies, canonical, n) + front + [b] == Indexed(bodies, canonical, n) + s;
    } else {
      assert Indexed(bodies, canonical, n) + s == Indexed(bodies, canonical, n);
    }
  }

  lemma LinkedFront(hash: Hash, s: seq<Block>)
    requires LinkedFrom(hash, s) && s != []
    ensures LinkedFrom(hash, s[..|s| - 1])
  {
    var front := s[..|s| - 1];
    forall i | 0 <= i < |front| ensures front[i].parentHash == PrecedingHash(hash, front, i) {
      assert s[i].parentHash == PrecedingHash(hash, s, i);
    }
  }

  /** A last block written at a height that does not follow its parent's spoils the store. */
  lemma SkippedHeightSpoils(bodies: Bodies, canonical: Index, genesis: Hash, blocks: seq<Block>, height: nat)
    requires ParentClosed(bodies, genesis) && Checked(bodies, blocks) && 0 in canonical && canonical[0] == genesis
    requires !Consecutive(blocks, AncestorHeight(bodies, blocks))
    ensures !ChainOk(WrittenBodies(bodies, blocks), WrittenIndex(canonical, blocks), height)
  {
    var last, bodies', canonical' := Last(blocks), WrittenBodies(bodies, blocks), WrittenIndex(canonical, blocks);
    Heights(bodies, genesis, blocks);
    WrittenIndexBelow(canonical, blocks, 0);
    WrittenBodiesLookup(bodies, blocks, last.hash);
    WrittenBodiesLookup(bodies, blocks, last.parentHash);
    if |blocks| > 1 {
      PredecessorStored(bodies, blocks, |blocks| - 2);
    }
    assert !BlockOk(bodies', canonical'[0], last.hash);
  }

  /** Consecutive blocks written where the index does not lead leave a chain that is not linked. */
  lemma StrayParentSpoils(bodies: Bodies, canonical: Index, height: nat, n: nat, s: seq<Block>)
    requires ChainOk(bodies, canonical, height) && EntryOk(bodies, canonical, 0) && s != []
    requires forall i :: 0 <= i < |s| ==> s[i].number == n + 1 + i
    requires forall i :: 0 <= i < |s| && s[i].hash in bodies ==> bodies[s[i].hash] == s[i]
    requires forall i, j :: 0 <= i < j < |s| && s[i].hash == s[j].hash ==> s[i] == s[j]
    requires !LeadsTo(bodies, canonical, n, s[0].parentHash)
    ensures !ChainOk(WrittenBodies(bodies, s), WrittenIndex(canonical, s), n + |s|)
  {
    var bodies', canonical' := WrittenBodies(bodies, s), WrittenIndex(canonical, s);
    WrittenIndexBelow(canonical, s, n);
    if OnIndex(canonical, n, s[0].parentHash) {
      var k :| 0 <= k <= n && !LinkOk(bodies, canonical, k);
      WrittenIndexBelow(canonical, s, k);
      if k > 0 {
        WrittenIndexBelow(canonical, s, k - 1);
      }
      if k in canonical {
        assert EntryOk(bodies, canonical, k);
        WrittenBodiesLookup(bodies, s, canonical[k]);
      }
      assert !LinkOk(bodies', canonical', k);
    } else {
      FirstWritten(canonical, s, n);
      WrittenBodiesLookup(bodies, s, s[0].hash);
      assert !LinkOk(bodies', canonical', n + 1);
    }
  }

  lemma {:induction false} FirstWritten(canonical: Index, s: seq<Block>, n: nat)
    requires s != [] && forall i :: 0 <= i < |s| ==> s[i].number == n + 1 + i
    ensures OnIndex(WrittenIndex(canonical, s), n + 1, s[0].hash)
  {
    if |s| > 1 {
      FirstWritten(canonical, s[..|s| - 1], n);
    }
  }

  /** When a written segment leaves the chain linked. */
  ghost predicate Appends(bodies: Bodies, canonical: Index, blocks: seq<Block>)
    requires blocks != [] && blocks[0].parentHash in bodies
  {
    var n := AncestorHeight(bodies, blocks);
    Effective(blocks, n) == [] ||
    (LeadsTo(bodies, canonical, n, blocks[0].parentHash) && (Last(blocks).number <= n || Consecutive(blocks, n)))
  }

  /** The written part of a checked segment, and whether it makes the store and the index a chain. */
  lemma WrittenIff(bodies: Bodies, canonical: Index, height: nat, blocks: seq<Block>)
    requires ChainOk(bodies, canonical, height) && EntryOk(bodies, canonical, 0) && Checked(bodies, blocks)
    requires Effective(blocks, AncestorHeight(bodies, blocks)) != []
    ensures var n := AncestorHeight(bodies, blocks);
            var s := Effective(blocks, n);
            var bodies', canonical' := WrittenBodies(bodies, s), WrittenIndex(canonical, s);
            && (ChainOk(bodies', canonical', Last(s).number) <==> Appends(bodies, canonical, blocks))
            && EntryOk(bodies', canonical', 0)
            && (Appends(bodies, canonical, blocks) ==>
                  Last(s).number == n + |s| && EntryOk(bodies, canonical, 0) &&
                  Indexed(bodies', canonical', n + |s|) == Indexed(bodies, canonical, n) + s)
  {
    var n, genesis := AncestorHeight(bodies, blocks), canonical[0];
    var s := Effective(blocks, n);
    Heights(bodies, genesis, blocks);
    assert s[0] == blocks[0];
    assert s == blocks || s == blocks[..|blocks| - 1];
    WrittenIndexBelow(canonical, s, 0);
    WrittenBodiesLookup(bodies, s, canonical[0]);
    if s == blocks && !Consecutive(blocks, n) {
      SkippedHeightSpoils(bodies, canonical, genesis, blocks, Last(s).number);
    } else {
      if s != blocks {
        LinkedFront(blocks[0].parentHash, blocks);
      }
      if LeadsTo(bodies, canonical, n, blocks[0].parentHash) {
        WrittenContinues(bodies, canonical, n, s, blocks[0].parentHash);
      } else {
        StrayParentSpoils(bodies, canonical, height, n, s);
      }
    }
  }

  // ---------- which chain is ranked higher ----------

  /** What winning the fork choice means for two branches of consecutive heights above the ancestor. */
  ghost predicate Beats(candidate: seq<Block>, active: seq<Block>) {
    && candidate != []
    && (ChainWeight(candidate) > ChainWeight(active) ||
        (ChainWeight(candidate) == ChainWeight(active) && |candidate| == |active| &&
         IsBetter(Last(candidate), Last(active))))
  }

  /** Replacing a beaten branch, or adding to the tip, gives a chain that outranks the old one. */
  lemma BeatenBranchOutranked(prefix: seq<Block>, candidate: seq<Block>, active: seq<Block>)
    requires prefix != [] && candidate != [] && (Beats(candidate, active) || active == [])
    ensures Outranks(prefix + active, prefix + candidate)
  {
    SuffixDecides(prefix, candidate, active);
    assert prefix + [] == prefix;
  }

  /** A reorganisation that was won and appends gives a higher ranked chain. */
  lemma WonReorgOutranks(bodies: Bodies, canonical: Index, height: nat, latest: Option<Block>, blocks: seq<Block>)
    requires ChainOk(bodies, canonical, height) && EntryOk(bodies, canonical, 0) && Checked(bodies, blocks)
    requires latest.Some? ==> latest.value == At(bodies, canonical, height)
    requires AncestorHeight(bodies, blocks) <= height && Appends(bodies, canonical, blocks)
    requires Wins(Indexed(bodies, canonical, height), latest, blocks, AncestorHeight(bodies, blocks))
    ensures var n := AncestorHeight(bodies, blocks);
            var s, active := Effective(blocks, n), Indexed(bodies, canonical, height);
            && (s == [] ==> n == height)
            && (s != [] ==> Outranks(active, Indexed(bodies, canonical, n) + s))
  {
    var n := AncestorHeight(bodies, blocks);
    var s, active := Effective(blocks, n), Indexed(bodies, canonical, height);
    Heights(bodies, canonical[0], blocks);
    assert Indexed(bodies, canonical, n) == active[..n + 1];
    assert active == active[..n + 1] + Above(active, n);
    if Last(blocks).number <= n {
      assert n == height;
    } else {
      WalkWeighsAll(blocks, n);
      if |blocks| == |Above(active, n)| {
        assert Last(Above(active, n)) == active[height] == At(bodies, canonical, height);
      }
    }
    if s != [] {
      BeatenBranchOutranked(active[..n + 1], s, Above(active, n));
    }
  }

  /** Adding blocks to a chain gives a higher ranked one. */
  lemma LongerOutranks(active: seq<Block>, longer: seq<Block>)
    requires active != [] && active < longer
    ensures Outranks(active, longer)
  {
    BeatenBranchOutranked(active, longer[|active|..], []);
    assert active + longer[|active|..] == longer && active + [] == active;
  }

  /** Where nothing conflicts and the last block is not canonical yet, the segment reaches beyond the tip. */
  lemma NoConflictExtends(bodies: Bodies, canonical: Index, height: nat, blocks: seq<Block>)
    requires ChainOk(bodies, canonical, height) && EntryOk(bodies, canonical, 0) && Checked(bodies, blocks)
    requires !ReorgRequired(canonical, Indexed(bodies, canonical, height), blocks, AncestorHeight(bodies, blocks))
    requires Last(blocks).number <= height ==> !OnIndex(canonical, Last(blocks).number, Last(blocks).hash)
    requires Appends(bodies, canonical, blocks) && Effective(blocks, AncestorHeight(bodies, blocks)) != []
    ensures var n := AncestorHeight(bodies, blocks);
            Indexed(bodies, canonical, height) < Indexed(bodies, canonical, n) + Effective(blocks, n)
  {
    var n, active := AncestorHeight(bodies, blocks), Indexed(bodies, canonical, height);
    var s := Effective(blocks, n);
    var longer := Indexed(bodies, canonical, n) + s;
    Heights(bodies, canonical[0], blocks);
    assert forall i :: 0 <= i < |s| ==> s[i] == blocks[i] && s[i].number == n + 1 + i;
    if n + |s| <= height && Last(blocks).number <= height {
      CanonicalStored(bodies, canonical, height, Last(blocks).number);
      assert ConflictAt(active, blocks, |blocks| - 1);
    }
    assert n + |s| > height;
    forall k | 0 <= k <= height ensures longer[k] == active[k] {
      if k > n {
        CoveredIsActive(bodies, canonical, height, blocks, n, k);
      }
    }
  }

  /** A block of a segment that conflicts with nothing is the canonical one of its height. */
  lemma CoveredIsActive(bodies: Bodies, canonical: Index, height: nat, blocks: seq<Block>, n: nat, k: nat)
    requires ChainOk(bodies, canonical, height) && EntryOk(bodies, canonical, 0) && Checked(bodies, blocks)
    requires !Conflicting(Indexed(bodies, canonical, height), blocks)
    requires n < k <= height && k <= n + |blocks|
    requires forall i :: 0 <= i < k - n ==> blocks[i].number == n + 1 + i
    ensures blocks[k - n - 1] == Indexed(bodies, canonical, height)[k]
  {
    var active, i := Indexed(bodies, canonical, height), k - n - 1;
    CanonicalStored(bodies, canonical, height, k);
    assert !ConflictAt(active, blocks, i);
    assert active[k].hash == blocks[i].hash;
  }

  /** Making room for a reorganisation does not change where the segment may be appended. */
  lemma AfterRoom(bodies: Bodies, canonical: Index, height: nat, room: Index, blocks: seq<Block>)
    requires ChainOk(bodies, canonical, height) && EntryOk(bodies, canonical, 0) && Checked(bodies, blocks)
    requires EntryOk(bodies, room, 0) && AncestorHeight(bodies, blocks) <= height
    requires ChainOk(bodies, room, AncestorHeight(bodies, blocks))
    requires Indexed(bodies, room, AncestorHeight(bodies, blocks)) ==
               Indexed(bodies, canonical, height)[..AncestorHeight(bodies, blocks) + 1]
    ensures Appends(bodies, room, blocks) <==> Appends(bodies, canonical, blocks)
    ensures Indexed(bodies, room, AncestorHeight(bodies, blocks)) ==
              Indexed(bodies, canonical, AncestorHeight(bodies, blocks))
  {
    var n := AncestorHeight(bodies, blocks);
    CanonicalStored(bodies, room, n, n);
    CanonicalStored(bodies, canonical, height, n);
    assert Indexed(bodies, room, n)[n] == At(bodies, room, n);
    assert Indexed(bodies, canonical, height)[n] == At(bodies, canonical, n);
  }

  /** The index before, `canonical`, and with room made, `room`: what the written segment makes of them. */
  lemma InsertedChain(bodies: Bodies, canonical: Index, height: nat, latest: Option<Block>, room: Index,
                      roomHeight: nat, blocks: seq<Block>, reorgRequired: bool)
    requires ChainOk(bodies, canonical, height) && EntryOk(bodies, canonical, 0) && Checked(bodies, blocks)
    requires ChainOk(bodies, room, roomHeight) && EntryOk(bodies, room, 0)
    requires latest.Some? ==> latest.value == At(bodies, canonical, height)
    requires Last(blocks).number <= height ==> !OnIndex(canonical, Last(blocks).number, Last(blocks).hash)
    requires var n, active := AncestorHeight(bodies, blocks), Indexed(bodies, canonical, height);
             && Effective(blocks, n) != []
             && (reorgRequired <==> ReorgRequired(canonical, active, blocks, n))
             && (reorgRequired ==> n <= height && roomHeight == n && Wins(active, latest, blocks, n) &&
                                   Indexed(bodies, room, n) == active[..n + 1])
             && (!reorgRequired ==> room == canonical && roomHeight == height)
    ensures var n := AncestorHeight(bodies, blocks);
            var s := Effective(blocks, n);
            var bodies', canonical' := WrittenBodies(bodies, s), WrittenIndex(room, s);
            && (ChainOk(bodies', canonical', Last(s).number) <==> Appends(bodies, canonical, blocks))
            && EntryOk(bodies', canonical', 0)
            && (Appends(bodies, canonical, blocks) ==>
                  Last(s).number == n + |s| &&
                  Indexed(bodies', canonical', n + |s|) == Indexed(bodies, canonical, n) + s &&
                  Outranks(Indexed(bodies, canonical, height), Indexed(bodies, canonical, n) + s))
  {
    var n := AncestorHeight(bodies, blocks);
    var s := Effective(blocks, n);
    WrittenIff(bodies, room, roomHeight, blocks);
    if reorgRequired {
      AfterRoom(bodies, canonical, height, room, blocks);
    }
    if Appends(bodies, canonical, blocks) {
      if reorgRequired {
        WonReorgOutranks(bodies, canonical, height, latest, blocks);
      } else {
        NoConflictExtends(bodies, canonical, height, blocks);
        LongerOutranks(Indexed(bodies, canonical, height), Indexed(bodies, canonical, n) + s);
      }
    }
  }

  /** What an insertion leaves: a chain exactly where the segment appends, the old one extended or outranked. */
  ghost predicate PlacedAs(bodies: Bodies, canonical: Index, active: seq<Block>, blocks: seq<Block>,
                           after: Option<seq<Block>>)
    requires EntryOk(bodies, canonical, 0) && blocks != [] && blocks[0].parentHash in bodies
  {
    var n := AncestorHeight(bodies, blocks);
    var s := Effective(blocks, n);
    && (after.Some? <==> Appends(bodies, canonical, blocks))
    && (after.Some? && s == [] ==> after.value == active)
    && (after.Some? && s != [] ==> after.value == Indexed(bodies, canonical, n) + s && Outranks(active, after.value))
  }

  /** What a caller can check before the call: the parent is canonical and no height is skipped. */
  predicate AppendsBelowTip(bodies: Bodies, canonical: Index, height: nat, blocks: seq<Block>)
    requires blocks != []
  {
    && blocks[0].parentHash in bodies && AncestorHeight(bodies, blocks) <= height
    && OnIndex(canonical, AncestorHeight(bodies, blocks), blocks[0].parentHash)
    && (Last(blocks).number <= AncestorHeight(bodies, blocks) || Consecutive(blocks, AncestorHeight(bodies, blocks)))
  }

  lemma BelowTipAppends(bodies: Bodies, canonical: Index, height: nat, blocks: seq<Block>)
    requires ChainOk(bodies, canonical, height) && blocks != [] && blocks[0].parentHash in bodies
    requires AppendsBelowTip(bodies, canonical, height, blocks)
    ensures Appends(bodies, canonical, blocks)
  {
  }

  // ---------- insertion ----------

  datatype InsertError = InvalidBlock | ParentMissing | Discontinuous | TooDeep | LosesForkChoice | RevertFailed
  datatype InsertResult = Inserted | AlreadyKnown | Refused(error: InsertError) | BrokenOff

  /** The stored chain as a value. */
  datatype Store = Store(bodies: Bodies, canonical: Index, height: nat, latest: Option<Block>) {
    ghost predicate Valid() {
      && ChainOk(bodies, canonical, height) && EntryOk(bodies, canonical, 0) && (height > 0 ==> latest.Some?)
      && (latest.Some? ==> latest.value == At(bodies, canonical, height))
    }

    function Active(): (r: seq<Block>)
      requires 0 in canonical && canonical[0] in bodies
      ensures |r| == height + 1
    {
      Indexed(bodies, canonical, height)
    }

    /** The canonical chain, if what is stored makes one. */
    ghost function Linked(): Option<seq<Block>> {
      if Valid() then Some(Active()) else None
    }

    /** The segment ends on a canonical block. */
    predicate Knows(blocks: seq<Block>)
      requires blocks != []
    {
      Last(blocks).number <= height && OnIndex(canonical, Last(blocks).number, Last(blocks).hash)
    }

    /** The fork choice: no reorganisation is needed, or it is not too deep and it is won. */
    ghost predicate Needs(blocks: seq<Block>)
      requires Valid() && blocks != [] && blocks[0].parentHash in bodies
    {
      ReorgRequired(canonical, Active(), blocks, AncestorHeight(bodies, blocks))
    }

    predicate TooDeepFor(blocks: seq<Block>, reorgDepth: nat)
      requires blocks != [] && blocks[0].parentHash in bodies
    {
      AncestorHeight(bodies, blocks) + reorgDepth < height
    }

    predicate WonBy(blocks: seq<Block>)
      requires 0 in canonical && canonical[0] in bodies && blocks != [] && blocks[0].parentHash in bodies
    {
      Wins(Active(), latest, blocks, AncestorHeight(bodies, blocks))
    }

    ghost predicate Accepts(blocks: seq<Block>, reorgDepth: nat)
      requires Valid()
    {
      Checked(bodies, blocks) && !Knows(blocks) &&
      (Needs(blocks) ==> !TooDeepFor(blocks, reorgDepth) && WonBy(blocks))
    }
  }

  /** What the result of an insertion says about the store before, and what the store is afterwards. */
  ghost predicate InsertOf(reorgDepth: nat, before: Store, blocks: seq<Block>, result: InsertResult, after: Store)
    requires before.Valid() && Offered(before.bodies, blocks)
  {
    && (result.AlreadyKnown? || result.Refused? ==> after == before)
    && (result == AlreadyKnown ==> Checked(before.bodies, blocks) && before.Knows(blocks))
    && (result.Refused? ==> RefusedFor(result.error, reorgDepth, before, blocks))
    && (result == BrokenOff ==> before.Accepts(blocks, reorgDepth))
    && (result == Inserted ==>
          before.Accepts(blocks, reorgDepth) &&
          PlacedAs(before.bodies, before.canonical, before.Active(), blocks, after.Linked()))
  }

  /** Which refusal means what; the validity of a block and a failed revert are arbitrary. */
  ghost predicate RefusedFor(error: InsertError, reorgDepth: nat, before: Store, blocks: seq<Block>)
    requires before.Valid() && blocks != []
  {
    match error
    case InvalidBlock => true
    case ParentMissing => exists i :: 0 <= i < |blocks| && blocks[i].parentHash !in before.bodies
    case Discontinuous => !LinkedFrom(blocks[0].parentHash, blocks)
    case TooDeep =>
      Checked(before.bodies, blocks) && !before.Knows(blocks) && before.Needs(blocks) &&
      before.TooDeepFor(blocks, reorgDepth)
    case LosesForkChoice =>
      Checked(before.bodies, blocks) && !before.Knows(blocks) && before.Needs(blocks) &&
      !before.TooDeepFor(blocks, reorgDepth) && !before.WonBy(blocks)
    case RevertFailed => before.Accepts(blocks, reorgDepth)
  }

  /**
   * A written segment was unknown and linked on stored parents and, where it needed a reorganisation, took off at
   * most `reorgDepth` blocks and won; one refused as too deep would have taken off more.
   */
  lemma ResultMeans(reorgDepth: nat, before: Store, blocks: seq<Block>, result: InsertResult, after: Store)
    requires before.Valid() && Offered(before.bodies, blocks) && InsertOf(reorgDepth, before, blocks, result, after)
    ensures result == Inserted || result == BrokenOff || result == Refused(TooDeep) ==>
              blocks[0].parentHash in before.bodies && LinkedFrom(blocks[0].parentHash, blocks) && !before.Knows(blocks)
    ensures (result == Inserted || result == BrokenOff) && before.Needs(blocks) ==>
              before.height - before.bodies[blocks[0].parentHash].number <= reorgDepth && before.WonBy(blocks)
    ensures result == Refused(TooDeep) ==>
              before.Needs(blocks) && before.height - before.bodies[blocks[0].parentHash].number > reorgDepth
  {
  }

  /** The insertion was not broken off, and was made where it leaves a chain. */
  ghost predicate Sound(before: Store, blocks: seq<Block>, result: InsertResult)
    requires blocks != []
  {
    && result != BrokenOff
    && (result == Inserted ==> AppendsBelowTip(before.bodies, before.canonical, before.height, blocks))
  }

  /** A sound insertion leaves a chain, the old one or one that outranks it. */
  lemma SoundProgresses(reorgDepth: nat, before: Store, blocks: seq<Block>, result: InsertResult, after: Store)
    requires before.Valid() && Offered(before.bodies, blocks)
    requires InsertOf(reorgDepth, before, blocks, result, after) && Sound(before, blocks, result)
    ensures after.Valid() && StaysOrImproves(Outranks, before.Active(), after.Active())
  {
    if result == Inserted {
      BelowTipAppends(before.bodies, before.canonical, before.height, blocks);
    }
  }

  /** Insertions one after the other, each on the store that the one before left, all sound but maybe the last. */
  ghost predicate InsertRun(reorgDepth: nat, first: Store, segments: seq<seq<Block>>, results: seq<InsertResult>,
                            stores: seq<Store>, last: Store)
  {
    && |results| <= |segments| && |stores| == |results| + 1 && stores[0] == first && stores[|results|] == last
    && forall i {:trigger results[i]} :: 0 <= i < |results| ==>
         && stores[i].Valid() && Offered(stores[i].bodies, segments[i])
         && InsertOf(reorgDepth, stores[i], segments[i], results[i], stores[i + 1])
         && (i + 1 < |results| ==> Sound(stores[i], segments[i], results[i]))
  }

  /** The canonical chains of the stores. */
  ghost function Chains(stores: seq<Store>): seq<seq<Block>>
    requires forall i :: 0 <= i < |stores| ==> stores[i].Valid()
  {
    seq(|stores|, i requires 0 <= i < |stores| && stores[i].Valid() => stores[i].Active())
  }

  ghost predicate LastSound(segments: seq<seq<Block>>, results: seq<InsertResult>, stores: seq<Store>)
    requires |results| <= |segments| && |results| <= |stores|
  {
    results != [] ==>
      var n := |results| - 1;
      segments[n] != [] && Sound(stores[n], segments[n], results[n])
  }

  lemma SoundAt(reorgDepth: nat, first: Store, segments: seq<seq<Block>>, results: seq<InsertResult>,
                stores: seq<Store>, last: Store, i: nat)
    requires InsertRun(reorgDepth, first, segments, results, stores, last)
    requires i + 1 < |results| || (i < |results| && LastSound(segments, results, stores))
    ensures stores[i].Valid() && stores[i + 1].Valid()
    ensures StaysOrImproves(Outranks, stores[i].Active(), stores[i + 1].Active())
  {
    assert results[i] == results[i];
    SoundProgresses(reorgDepth, stores[i], segments[i], results[i], stores[i + 1]);
  }

  /** All stores are chains, and the canonical chain only ever stays or is outranked, so it never comes back. */
  ghost predicate Progresses(stores: seq<Store>) {
    && (forall i :: 0 <= i < |stores| ==> stores[i].Valid())
    && Progress(Outranks, Chains(stores)) && NeverReturns(Chains(stores))
  }

  /** The stores up to an insertion that was not sound, if the run ended with one. */
  ghost function SoundPart(segments: seq<seq<Block>>, results: seq<InsertResult>, stores: seq<Store>): seq<Store>
    requires |results| <= |segments| && |results| < |stores|
  {
    if LastSound(segments, results, stores) then stores[..|results| + 1] else stores[..|results|]
  }

  lemma SoundRunProgresses(reorgDepth: nat, first: Store, segments: seq<seq<Block>>, results: seq<InsertResult>,
                           stores: seq<Store>, last: Store)
    requires InsertRun(reorgDepth, first, segments, results, stores, last) && first.Valid()
    ensures Progresses(SoundPart(segments, results, stores))
  {
    var part := SoundPart(segments, results, stores);
    forall i | 0 <= i < |part| ensures part[i].Valid() {
      if i > 0 {
        SoundAt(reorgDepth, first, segments, results, stores, last, i - 1);
      }
    }
    var history := Chains(part);
    forall i, j | 0 <= i && j == i + 1 < |history| ensures StaysOrImproves(Outranks, history[i], history[j]) {
      SoundAt(reorgDepth, first, segments, results, stores, last, i);
    }
    RankingsAreStrict();
    ProgressNeverReturns(Outranks, history);
  }

  lemma LinkedStep(blocks: seq<Block>, idx: nat)
    requires idx < |blocks| && LinkedFrom(blocks[0].parentHash, blocks[..idx])
    requires idx > 0 ==> blocks[idx].parentHash == blocks[idx - 1].hash
    ensures LinkedFrom(blocks[0].parentHash, blocks[..idx + 1])
  {
    var p, r := blocks[0].parentHash, blocks[..idx + 1];
    forall i {:trigger PrecedingHash(p, r, i)} | 0 <= i < |r| ensures r[i].parentHash == PrecedingHash(p, r, i) {
      if i < idx {
        assert blocks[..idx][i].parentHash == PrecedingHash(p, blocks[..idx], i);
      }
    }
  }

  class Inserter {
    const chain: Blockchain
    const reorgDepth: nat

    constructor (chain: Blockchain, reorgDepth: nat)
      ensures this.chain == chain && this.reorgDepth == reorgDepth
    {
      this.chain, this.reorgDepth := chain, reorgDepth;
    }

    /**
     * Each block must be valid, its parent stored, and the segment linked. So every block but the last must
     * be stored already. Heights are not compared.
     */
    method CheckSegment(blocks: seq<Block>) returns (error: Option<InsertError>)
      requires chain.Valid() && Offered(chain.bodies, blocks)
      ensures error.Some? ==> error.value.InvalidBlock? || error.value.ParentMissing? || error.value.Discontinuous?
      ensures error.None? ==> Checked(chain.bodies, blocks)
      ensures error.None? ==> forall i :: 0 <= i < |blocks| - 1 ==> blocks[i].hash in chain.bodies
      ensures error == Some(ParentMissing) ==>
                exists i :: 0 <= i < |blocks| && blocks[i].parentHash !in chain.bodies
      ensures error == Some(Discontinuous) ==> !LinkedFrom(blocks[0].parentHash, blocks)
    {
      for idx := 0 to |blocks|
        invariant LinkedFrom(blocks[0].parentHash, blocks[..idx])
        invariant forall i :: 0 <= i < idx ==> blocks[i].parentHash in chain.bodies
      {
        if chain.GetBlockByHash(blocks[idx].parentHash).None? {
          return Some(ParentMissing);
        }
        var valid: bool := *;
        if !valid {
          return Some(InvalidBlock);
        }
        if idx > 0 && blocks[idx].parentHash != blocks[idx - 1].hash {
          assert blocks[idx].parentHash != PrecedingHash(blocks[0].parentHash, blocks, idx);
          return Some(Discontinuous);
        }
        LinkedStep(blocks, idx);
      }
      assert blocks[..|blocks|] == blocks;
      Heights(chain.bodies, chain.canonical[0], blocks);
      error := None;
    }

    /** Weighs the active chain above the ancestor; a missing tip weighs nothing. */
    method WeighActive(ancestorHeight: nat) returns (weight: Option<nat>)
      requires chain.Valid()
      ensures weight == Some(ChainWeight(Above(chain.Active(), ancestorHeight)))
    {
      CanonicalStored(chain.bodies, chain.canonical, chain.height, chain.height);
      if chain.latest.None? || chain.latest.value.number <= ancestorHeight {
        return Some(0);
      }
      ActivePath(chain, ancestorHeight);
      weight := CalculateChainWeightWithCandidates(chain, chain.latest.value, ancestorHeight, map[],
                                                   chain.Active()[ancestorHeight + 1..]);
    }

    /** Fork choice between the segment and the active chain above the ancestor. */
    method WinsForkChoice(blocks: seq<Block>, ancestorHeight: nat) returns (wins: bool)
      requires chain.Valid() && Checked(chain.bodies, blocks)
      requires ancestorHeight == AncestorHeight(chain.bodies, blocks)
      ensures wins <==> Wins(chain.Active(), chain.latest, blocks, ancestorHeight)
    {
      var lastBlock := blocks[|blocks| - 1];
      CandidatePath(chain.bodies, chain.canonical[0], blocks);
      var oldWeight := WeighActive(ancestorHeight);
      var newWeight :=
        CalculateChainWeightWithCandidates(chain, lastBlock, ancestorHeight, ByHash(blocks), blocks);
      if newWeight.value < oldWeight.value {
        return false;
      }
      if newWeight.value > oldWeight.value {
        return true;
      }
      wins := lastBlock.number == chain.height && IsBetterBlockCandidate(Some(lastBlock), chain.latest);
    }

    /** Whether a canonical block differs from the candidate of its height, up to the first height above the tip. */
    method Conflicts(blocks: seq<Block>) returns (conflict: bool)
      requires chain.Valid()
      ensures conflict <==> Conflicting(chain.Active(), blocks)
    {
      for i := 0 to |blocks|
        invariant forall k :: 0 <= k < i ==> blocks[k].number <= chain.height && !ConflictAt(chain.Active(), blocks, k)
      {
        if blocks[i].number > chain.height {
          return false;
        }
        CanonicalStored(chain.bodies, chain.canonical, chain.height, blocks[i].number);
        var existing := chain.GetBlock(blocks[i].number);
        if existing.Some? && existing.value.hash != blocks[i].hash {
          assert ConflictAt(chain.Active(), blocks, i);
          return true;
        }
      }
      conflict := false;
    }

    /** A segment off the index, or one that conflicts with the chain, needs a reorganisation. */
    method NeedsReorg(blocks: seq<Block>, ancestorHeight: nat) returns (required: bool)
      requires chain.Valid() && blocks != []
      ensures required <==> ReorgRequired(chain.canonical, chain.Active(), blocks, ancestorHeight)
    {
      required := true;
      if ancestorHeight in chain.canonical && chain.canonical[ancestorHeight] == blocks[0].parentHash {
        required := Conflicts(blocks);
      }
    }

    /** The decision part: whether a reorganisation is needed, allowed and won. */
    method Decide(blocks: seq<Block>, ancestorHeight: nat) returns (error: Option<InsertError>, reorgRequired: bool)
      requires chain.Valid() && Checked(chain.bodies, blocks)
      requires ancestorHeight == AncestorHeight(chain.bodies, blocks)
      ensures reorgRequired <==> ReorgRequired(chain.canonical, chain.Active(), blocks, ancestorHeight)
      ensures error == if reorgRequired && ancestorHeight + reorgDepth < chain.height then Some(TooDeep)
                       else if reorgRequired && !Wins(chain.Active(), chain.latest, blocks, ancestorHeight)
                       then Some(LosesForkChoice)
                       else None
    {
      reorgRequired := NeedsReorg(blocks, ancestorHeight);
      error := None;
      if reorgRequired {
        if ancestorHeight + reorgDepth < chain.height {
          return Some(TooDeep), reorgRequired;
        }
        var wins := WinsForkChoice(blocks, ancestorHeight);
        if !wins {
          return Some(LosesForkChoice), reorgRequired;
        }
      }
    }

    /** The reorganisation part: drop the active blocks above the ancestor from the index. */
    method MakeRoom(ancestorHeight: nat) returns (ok: bool)
      requires chain.Valid()
      modifies chain
      ensures chain.Valid() && chain.bodies == old(chain.bodies)
      ensures ok ==> ancestorHeight <= old(chain.height) && chain.height == ancestorHeight
      ensures ok ==> chain.Active() == old(chain.Active())[..ancestorHeight + 1]
      ensures ok ==> forall n :: n <= ancestorHeight ==>
                (n in chain.canonical <==> n in old(chain.canonical)) &&
                (n in chain.canonical ==> chain.canonical[n] == old(chain.canonical)[n])
      ensures ok && ancestorHeight == old(chain.height) ==> unchanged(chain)
      ensures !ok ==> unchanged(chain)
    {
      var currentHeight := chain.height;
      ok := chain.RevertToHeight(ancestorHeight);
      if ok && ancestorHeight < currentHeight {
        chain.DeleteCanonicalChain(ancestorHeight + 1, currentHeight);
      }
    }

    /** Executes and writes the blocks above the ancestor. An execution may fail, and the insertion then breaks off. */
    method ApplyBlocks(blocks: seq<Block>, ancestorHeight: nat) returns (ok: bool)
      requires chain.Valid() && Checked(chain.bodies, blocks)
      requires ancestorHeight == AncestorHeight(chain.bodies, blocks)
      modifies chain
      ensures ok ==>
                var s := Effective(blocks, ancestorHeight);
                && chain.bodies == WrittenBodies(old(chain.bodies), s)
                && chain.canonical == WrittenIndex(old(chain.canonical), s)
                && (if s == [] then unchanged(chain)
                    else chain.latest == Some(Last(s)) && chain.height == Last(s).number)
    {
      ghost var s := Effective(blocks, ancestorHeight);
      Heights(chain.bodies, chain.canonical[0], blocks);
      for k := 0 to |blocks|
        invariant k <= |s| || (k == |blocks| && |s| == k - 1)
        invariant var done := if k <= |s| then s[..k] else s;
                  && chain.bodies == WrittenBodies(old(chain.bodies), done)
                  && chain.canonical == WrittenIndex(old(chain.canonical), done)
                  && (if done == [] then unchanged(chain)
                      else chain.latest == Some(Last(done)) && chain.height == Last(done).number)
      {
        if blocks[k].number > ancestorHeight {
          var executed: bool := *;
          if !executed {
            return false;
          }
          chain.WriteBlock(blocks[k]);
          assert s[..k + 1][..k] == s[..k] && Last(s[..k + 1]) == blocks[k];
        } else {
          assert s[..k] == s;
        }
      }
      assert s[..|s|] == s;
      ok := true;
    }

    ghost function View(): Store
      reads chain
    {
      Store(chain.bodies, chain.canonical, chain.height, chain.latest)
    }

    /** Makes room if needed, then writes. `BrokenOff` is an insertion that failed after room was made. */
    method Place(blocks: seq<Block>, ancestorHeight: nat, reorgRequired: bool) returns (result: InsertResult)
      requires chain.Valid() && Checked(chain.bodies, blocks)
      requires ancestorHeight == AncestorHeight(chain.bodies, blocks)
      requires Last(blocks).number <= chain.height ==>
                 !OnIndex(chain.canonical, Last(blocks).number, Last(blocks).hash)
      requires reorgRequired <==> ReorgRequired(chain.canonical, chain.Active(), blocks, ancestorHeight)
      requires reorgRequired ==> Wins(chain.Active(), chain.latest, blocks, ancestorHeight)
      modifies chain
      ensures result.Inserted? || result.BrokenOff? || result == Refused(RevertFailed)
      ensures result.Refused? ==> unchanged(chain)
      ensures result.Inserted? ==>
                PlacedAs(old(chain.bodies), old(chain.canonical), old(chain.Active()), blocks, View().Linked())
    {
      ghost var bodies, canonical, height, latest := chain.bodies, chain.canonical, chain.height, chain.latest;
      if reorgRequired {
        var ok := MakeRoom(ancestorHeight);
        if !ok {
          return Refused(RevertFailed);
        }
      }
      if Effective(blocks, ancestorHeight) != [] {
        InsertedChain(bodies, canonical, height, latest, chain.canonical, chain.height, blocks, reorgRequired);
      } else if reorgRequired {
        WonReorgOutranks(bodies, canonical, height, latest, blocks);
      }
      var applied := ApplyBlocks(blocks, ancestorHeight);
      result := if applied then Inserted else BrokenOff;
    }

    /** InsertChain. */
    method Insert(blocks: seq<Block>) returns (result: InsertResult)
      requires chain.Valid() && Offered(chain.bodies, blocks)
      modifies chain
      ensures InsertOf(reorgDepth, old(View()), blocks, result, View())
    {
      var error := CheckSegment(blocks);
      if error.Some? {
        return Refused(error.value);
      }
      var lastBlock := blocks[|blocks| - 1];
      if lastBlock.number <= chain.height {
        if lastBlock.number in chain.canonical && chain.canonical[lastBlock.number] == lastBlock.hash {
          return AlreadyKnown;
        }
      }
      var ancestorHeight := chain.GetBlockByHash(blocks[0].parentHash).value.number;
      var reorgRequired;
      error, reorgRequired := Decide(blocks, ancestorHeight);
      if error.Some? {
        return Refused(error.value);
      }
      result := Place(blocks, ancestorHeight, reorgRequired);
    }

    /**
     * A run over any segments. It goes on while the store is a chain and the next segment has no block numbered
     * zero or not named by its hash; so it stops early at an insertion that broke off, at one that was not made
     * on a canonical block at or under the tip or skipped a height, or at a segment of the other kind.
     */
    method InsertAll(segments: seq<seq<Block>>) returns (results: seq<InsertResult>, ghost stores: seq<Store>)
      requires chain.Valid()
      modifies chain
      ensures InsertRun(reorgDepth, old(View()), segments, results, stores, View())
      ensures |results| < |segments| ==>
                !LastSound(segments, results, stores) || !Offered(chain.bodies, segments[|results|])
      ensures Progresses(SoundPart(segments, results, stores))
    {
      results, stores := [], [View()];
      while |results| < |segments|
        invariant InsertRun(reorgDepth, old(View()), segments, results, stores, View()) && chain.Valid()
        invariant LastSound(segments, results, stores)
        decreases |segments| - |results|
      {
        var blocks := segments[|results|];
        if !Offered(chain.bodies, blocks) {
          break;
        }
        ghost var before := View();
        var linked := AppendsBelowTip(chain.bodies, chain.canonical, chain.height, blocks);
        var result := Insert(blocks);
        InsertRunSnoc(reorgDepth, old(View()), segments, results, stores, before, result, View());
        results, stores := results + [result], stores + [View()];
        if result == BrokenOff || (result == Inserted && !linked) {
          break;
        }
        SoundProgresses(reorgDepth, before, blocks, result, View());
      }
      SoundRunProgresses(reorgDepth, old(View()), segments, results, stores, View());
    }
  }

  lemma InsertRunSnoc(reorgDepth: nat, first: Store, segments: seq<seq<Block>>, results: seq<InsertResult>,
                      stores: seq<Store>, before: Store, result: InsertResult, after: Store)
    requires InsertRun(reorgDepth, first, segments, results, stores, before) && |results| < |segments|
    requires LastSound(segments, results, stores)
    requires before.Valid() && Offered(before.bodies, segments[|results|])
    requires InsertOf(reorgDepth, before, segments[|results|], result, after)
    ensures InsertRun(reorgDepth, first, segments, results + [result], stores + [after], after)
    ensures LastSound(segments, results + [result], stores + [after]) <==> Sound(before, segments[|results|], result)
  {
    var results', stores' := results + [result], stores + [after];
    forall i | 0 <= i < |results'|
      ensures stores'[i].Valid() && Offered(stores'[i].bodies, segments[i])
      ensures InsertOf(reorgDepth, stores'[i], segments[i], results'[i], stores'[i + 1])
      ensures i + 1 < |results'| ==> Sound(stores'[i], segments[i], results'[i])
    {
      if i < |results| {
        assert results[i] == results'[i];
      }
    }
  }

  // ---------- segments that are accepted and leave no chain ----------

  /**
   * A block numbered two above the tip it rests on conflicts with nothing, so no reorganisation is needed and
   * it is written; the height between stays empty.
   */
  lemma SkippedHeightLeavesGap(g: Block, c: Block)
    requires g.number == 0 && c.number == 2 && c.parentHash == g.hash && c.hash != g.hash
    ensures var bodies: Bodies, canonical: Index := map[g.hash := g], map[0 := g.hash];
            && ChainOk(bodies, canonical, 0) && EntryOk(bodies, canonical, 0) && Checked(bodies, [c])
            && !ReorgRequired(canonical, Indexed(bodies, canonical, 0), [c], 0)
            && Effective([c], 0) == [c] && !Appends(bodies, canonical, [c])
            && !ChainOk(bodies[c.hash := c], canonical[2 := c.hash], 2)
  {
    var bodies: Bodies, canonical: Index := map[g.hash := g], map[0 := g.hash];
    assert forall h | h in bodies :: h == g.hash;
    assert BlockOk(bodies, g.hash, g.hash) && EntryOk(bodies, canonical, 0) && LinkOk(bodies, canonical, 0);
    assert !BlockOk(bodies[c.hash := c], g.hash, c.hash);
  }

  /**
   * Of two blocks at height one, the first is canonical. A block with any difficulty on the second needs a
   * reorganisation, wins the fork choice against nothing, and is written on top of the first.
   */
  lemma SiblingParentUnlinks(g: Block, a: Block, b: Block, c: Block)
    requires g.number == 0 && a.number == 1 && b.number == 1 && c.number == 2
    requires a.parentHash == g.hash && b.parentHash == g.hash && c.parentHash == b.hash
    requires g.hash != a.hash && g.hash != b.hash && a.hash != b.hash && c.hash !in {g.hash, a.hash, b.hash}
    requires NormalizedDifficulty(c.difficulty) > 0
    ensures var bodies: Bodies := map[g.hash := g, a.hash := a, b.hash := b];
            var canonical: Index := map[0 := g.hash, 1 := a.hash];
            var active := Indexed(bodies, canonical, 1);
            && ChainOk(bodies, canonical, 1) && EntryOk(bodies, canonical, 0) && Checked(bodies, [c])
            && ReorgRequired(canonical, active, [c], 1) && Wins(active, Some(a), [c], 1)
            && !Appends(bodies, canonical, [c])
            && !ChainOk(bodies[c.hash := c], canonical[2 := c.hash], 2)
  {
    var bodies: Bodies := map[g.hash := g, a.hash := a, b.hash := b];
    var canonical: Index := map[0 := g.hash, 1 := a.hash];
    assert forall h | h in bodies :: h == g.hash || h == a.hash || h == b.hash;
    assert forall h | h in bodies :: BlockOk(bodies, g.hash, h);
    assert forall n | n in canonical :: n == 0 || n == 1;
    assert LinkOk(bodies, canonical, 0) && LinkOk(bodies, canonical, 1);
    assert !LinkOk(bodies[c.hash := c], canonical[2 := c.hash], 2);
  }
}
