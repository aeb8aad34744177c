/** The reorganisation manager: fork points, branches, the all-or-nothing switch, and runs of blocks. */
module Reorg {
  import opened Wrappers
  import opened ForkChoice
  import opened ChainStore

  const MANAGER_MAX_REORG_DEPTH := 6
  const MIN_WORK_FOR_REORG := 3
  const MAX_ORPHAN_BLOCKS := 100
  const MAX_FORK_DEPTH := 100

  datatype OrphanBlock = OrphanBlock(block: Block, receivedAt: nat)

  datatype ChainFork = ChainFork(forkHeight: nat, activeChain: seq<Block>, candidateChain: seq<Block>,
                                 activeWork: nat, candidateWork: nat)

  // ---------- fork points ----------

  /** The index names this very block at its height. */
  predicate IsIndexed(canonical: Index, b: Block) {
    b.number in canonical && canonical[b.number] == b.hash
  }

  /** First indexed block met when walking back from b, looking at `steps` blocks at most. */
  function NearestIndexed(bodies: Bodies, canonical: Index, b: Block, steps: nat): Option<nat>
    decreases steps
  {
    if steps == 0 then None
    else if IsIndexed(canonical, b) then Some(b.number)
    else if b.parentHash in bodies then NearestIndexed(bodies, canonical, bodies[b.parentHash], steps - 1)
    else None
  }

  ghost predicate AncestorIndexed(bodies: Bodies, canonical: Index, b: Block, n: nat)
    requires 0 in canonical && Stored(bodies, canonical[0], b) && n <= b.number
  {
    IsIndexed(canonical, Ancestor(bodies, canonical[0], b, n))
  }

  /**
   * The walk finds the highest indexed ancestor whenever one lies within its reach, and fails only
   * when none does.
   */
  lemma {:induction false} NearestIsHighest(bodies: Bodies, canonical: Index, b: Block, steps: nat)
    requires 0 in canonical && Stored(bodies, canonical[0], b)
    ensures match NearestIndexed(bodies, canonical, b, steps)
            case Some(f) =>
              && f <= b.number < f + steps
              && AncestorIndexed(bodies, canonical, b, f)
              && forall n :: f < n <= b.number ==> !AncestorIndexed(bodies, canonical, b, n)
            case None =>
              forall n :: 0 <= n <= b.number < n + steps ==> !AncestorIndexed(bodies, canonical, b, n)
    decreases steps
  {
    if steps > 0 && !IsIndexed(canonical, b) {
      assert BlockOk(bodies, canonical[0], b.hash);
      var p := Parent(bodies, canonical[0], b);
      NearestIsHighest(bodies, canonical, p, steps - 1);
      forall n | 0 <= n < b.number
        ensures AncestorIndexed(bodies, canonical, b, n) == AncestorIndexed(bodies, canonical, p, n)
      {
      }
    }
  }

  /** No index entry above the tip. */
  ghost predicate TightIndex(canonical: Index, height: nat) {
    forall n :: n in canonical ==> n <= height
  }

  /**
   * The block found is on the active chain exactly when no ancestor within reach but above the tip is
   * indexed, as a tight index guarantees.
   */
  lemma ForkPointIsActive(bodies: Bodies, canonical: Index, height: nat, b: Block, steps: nat)
    requires ChainOk(bodies, canonical, height) && EntryOk(bodies, canonical, 0) && Stored(bodies, canonical[0], b)
    requires NearestIndexed(bodies, canonical, b, steps).Some?
    ensures var f := NearestIndexed(bodies, canonical, b, steps).value;
            && f <= b.number
            && (Ancestor(bodies, canonical[0], b, f) in Indexed(bodies, canonical, height) <==>
                  forall n :: height < n <= b.number < n + steps ==> !AncestorIndexed(bodies, canonical, b, n))
            && (f <= height <==> Ancestor(bodies, canonical[0], b, f) in Indexed(bodies, canonical, height))
            && (TightIndex(canonical, height) ==> f <= height)
  {
    NearestIsHighest(bodies, canonical, b, steps);
    var f := NearestIndexed(bodies, canonical, b, steps).value;
    var chain := Indexed(bodies, canonical, height);
    if f <= height {
      CanonicalStored(bodies, canonical, height, f);
      assert chain[f] == Ancestor(bodies, canonical[0], b, f);
    } else {
      forall i | 0 <= i < |chain| ensures chain[i] != Ancestor(bodies, canonical[0], b, f) {
        CanonicalStored(bodies, canonical, height, i);
      }
    }
  }

  /**
   * Disconnecting leaves the index entries above the new tip in place, so a block that was reverted
   * can be taken for a fork point above the tip.
   */
  lemma StaleEntryMisleads(genesis: Block, a: Block)
    requires genesis.number == 0 && a.number == 1 && a.parentHash == genesis.hash && a.hash != genesis.hash
    ensures var bodies: Bodies, canonical: Index :=
              map[genesis.hash := genesis, a.hash := a], map[0 := genesis.hash, 1 := a.hash];
            && ChainOk(bodies, canonical, 0) && Stored(bodies, genesis.hash, a)
            && Indexed(bodies, canonical, 0) == [genesis]
            && NearestIndexed(bodies, canonical, a, MAX_FORK_DEPTH) == Some(1)
  {
    var bodies: Bodies := map[genesis.hash := genesis, a.hash := a];
    var canonical: Index := map[0 := genesis.hash, 1 := a.hash];
    assert forall h | h in bodies :: h == genesis.hash || h == a.hash;
    assert forall n | n in canonical :: n == 0 || n == 1;
  }

  method FindForkPoint(chain: Blockchain, parent: Block) returns (r: Option<nat>)
    requires chain.GetBlockByHash(parent.hash) == Some(parent)
    requires forall h {:trigger chain.bodies[h]} :: h in chain.bodies ==> chain.bodies[h].hash == h
    ensures r == NearestIndexed(chain.bodies, chain.canonical, parent, MAX_FORK_DEPTH)
  {
    var current := parent;
    for depth := 0 to MAX_FORK_DEPTH
      invariant current.hash in chain.bodies
      invariant NearestIndexed(chain.bodies, chain.canonical, current, MAX_FORK_DEPTH - depth)
             == NearestIndexed(chain.bodies, chain.canonical, parent, MAX_FORK_DEPTH)
    {
      if chain.GetBlockByHash(current.hash).Some? {
        if IsIndexed(chain.canonical, current) {
          return Some(current.number);
        }
      }
      var next := chain.GetBlockByHash(current.parentHash);
      if next.None? {
        return None;
      }
      current := next.value;
    }
    r := None;
  }

  // ---------- branches ----------

  /** The branch from a fork height up to a block that need not be stored itself. */
  ghost function Branch(bodies: Bodies, genesis: Hash, b: Block, n: nat): Option<seq<Block>>
    requires ParentClosed(bodies, genesis)
  {
    if b.number <= n then Some([])
    else if b.parentHash in bodies then
      assert BlockOk(bodies, genesis, b.parentHash);
      Some(Segment(bodies, genesis, bodies[b.parentHash], n) + [b])
    else None
  }

  lemma BranchOfStored(bodies: Bodies, genesis: Hash, b: Block, n: nat)
    requires Stored(bodies, genesis, b)
    ensures Branch(bodies, genesis, b, n) == Some(Segment(bodies, genesis, b, n))
  {
    assert BlockOk(bodies, genesis, b.hash);
  }

  method BuildChainToFork(chain: Blockchain, tip: Option<Block>, forkHeight: nat) returns (r: Option<seq<Block>>)
    requires chain.Valid()
    ensures r == if tip.None? then None
                 else Branch(chain.bodies, chain.canonical[0], tip.value, forkHeight)
  {
    if tip.None? {
      return None;
    }
    ghost var genesis := chain.canonical[0];
    var segment, current := [], tip.value;
    if current.number > forkHeight {
      segment := [current];
      var parent := chain.GetBlockByHash(current.parentHash);
      if parent.None? {
        return None;
      }
      assert BlockOk(chain.bodies, genesis, current.parentHash);
      current := parent.value;
      while current.number > forkHeight
        invariant Stored(chain.bodies, genesis, current)
        invariant Some(Segment(chain.bodies, genesis, current, forkHeight) + segment)
               == Branch(chain.bodies, genesis, tip.value, forkHeight)
        decreases current.number
      {
        ghost var p := Parent(chain.bodies, genesis, current);
        assert Segment(chain.bodies, genesis, p, forkHeight) + ([current] + segment)
            == Segment(chain.bodies, genesis, current, forkHeight) + segment;
        segment := [current] + segment;
        parent := chain.GetBlockByHash(current.parentHash);
        if parent.None? {
          return None;
        }
        current := parent.value;
      }
    }
    assert [] + segment == segment;
    r := Some(segment);
  }

  /** Above the fork point found from its parent, the branch of `b` has over `margin` more work than the active one. */
  ghost predicate Outweighs(bodies: Bodies, canonical: Index, latest: Option<Block>, b: Block, parent: Block,
                            margin: nat)
    requires 0 in canonical && ParentClosed(bodies, canonical[0])
  {
    latest.Some? &&
    match NearestIndexed(bodies, canonical, parent, MAX_FORK_DEPTH)
    case None => false
    case Some(f) =>
      var candidate := Branch(bodies, canonical[0], b, f);
      var active := Branch(bodies, canonical[0], latest.value, f);
      candidate.Some? && active.Some? && ChainWork(candidate.value) > ChainWork(active.value) + margin
  }

  method CalculateChainWork(chain: seq<Block>) returns (totalWork: nat)
    ensures totalWork == ChainWork(chain)
  {
    totalWork := 0;
    for i := 0 to |chain|
      invariant totalWork == ChainWork(chain[..i])
    {
      assert chain[..i + 1][..i] == chain[..i];
      totalWork := totalWork + CalculateBlockWork(chain[i].difficulty);
    }
    assert chain[..|chain|] == chain;
  }

  // ---------- the switch ----------

  function Reversed(s: seq<Block>): (r: seq<Block>)
    ensures |r| == |s|
  {
    if s == [] then [] else Reversed(s[1..]) + [s[0]]
  }

  lemma {:induction false} ReversedSnoc(s: seq<Block>, b: Block)
    ensures Reversed(s + [b]) == [b] + Reversed(s)
  {
    if s != [] {
      assert (s + [b])[1..] == s[1..] + [b];
      ReversedSnoc(s[1..], b);
    }
  }

  lemma DetachedSnoc(disconnected: seq<Block>, active: seq<Block>, i: nat)
    requires i < |active| && Reversed(disconnected) == active[i + 1..]
    ensures Reversed(disconnected + [active[i]]) == active[i..]
  {
    ReversedSnoc(disconnected, active[i]);
  }

  ghost predicate AllStored(bodies: Bodies, s: seq<Block>) {
    forall b :: b in s ==> b.hash in bodies && bodies[b.hash] == b
  }

  /** The blocks agree with each other and with the store on what each hash names. */
  ghost predicate Consistent(bodies: Bodies, s: seq<Block>) {
    && (forall b: Block :: b in s && b.hash in bodies ==> bodies[b.hash] == b)
    && forall a: Block, b: Block :: a in s && b in s && a.hash == b.hash ==> a == b
  }

  ghost predicate Extends(old_: Bodies, new_: Bodies) {
    forall h :: h in old_ ==> h in new_ && new_[h] == old_[h]
  }

  ghost predicate Disjoint(s: seq<Block>, t: seq<Block>) {
    forall b :: b in s ==> b !in t
  }

  /** The active part is the canonical suffix; the candidate part hangs on the index entry at the fork. */
  ghost predicate ForkJoins(bodies: Bodies, canonical: Index, active: seq<Block>, fork: ChainFork) {
    && fork.forkHeight in canonical
    && fork.activeChain == (if fork.forkHeight < |active| then active[fork.forkHeight + 1..] else [])
    && fork.candidateChain != []
    && LinkedFrom(canonical[fork.forkHeight], fork.candidateChain)
    && Consistent(bodies, fork.candidateChain)
  }

  /** Moreover the two parts have no block in common, nor has the candidate part with the rest of the chain. */
  ghost predicate ForkFits(bodies: Bodies, canonical: Index, active: seq<Block>, fork: ChainFork) {
    ForkJoins(bodies, canonical, active, fork) && Disjoint(fork.candidateChain, active)
  }

  datatype Stage = Disconnecting | Context | Connecting

  /** `restored` says that every call made to undo a failed switch succeeded. */
  datatype ReorgOutcome = Completed | DepthExceeded | Failed(stage: Stage, restored: bool)

  lemma ConsistentAfter(bodies: Bodies, s: seq<Block>, b: Block)
    requires Consistent(bodies, s) && b in s
    ensures Consistent(bodies[b.hash := b], s) && Extends(bodies, bodies[b.hash := b])
  {
  }

  // ---------- the orphan pool ----------

  type OrphanPool = map<Hash, OrphanBlock>

  ghost predicate Oldest(pool: OrphanPool, e: Hash) {
    e in pool && forall h :: h in pool ==> pool[e].receivedAt <= pool[h].receivedAt
  }

  /** Only a full pool gives up an entry, an oldest one. */
  ghost predicate Evicts(pool: OrphanPool, evicted: Option<Hash>) {
    if |pool| < MAX_ORPHAN_BLOCKS then evicted.None? else evicted.Some? && Oldest(pool, evicted.value)
  }

  function WithOrphan(pool: OrphanPool, evicted: Option<Hash>, b: Block, now: nat): OrphanPool {
    (if evicted.Some? then pool - {evicted.value} else pool)[b.hash := OrphanBlock(b, now)]
  }

  function ChildrenOf(pool: OrphanPool, parentHash: Hash): set<Hash> {
    set h | h in pool && pool[h].block.parentHash == parentHash
  }

  /** The pool after a child of an orphan was put in and all children of that orphan were taken out. */
  function AfterRound(pool: OrphanPool, evicted: Option<Hash>, b: Block, now: nat): OrphanPool {
    var more := WithOrphan(pool, evicted, b, now);
    more - ChildrenOf(more, b.parentHash)
  }

  /**
   * The block is among the children taken out, to be processed again, and it meets its parent in the pool again
   * exactly unless the parent was itself the entry given up, or its own child.
   */
  lemma OrphanRoundRecursIff(pool: OrphanPool, evicted: Option<Hash>, b: Block, now: nat)
    requires Evicts(pool, evicted) && b.parentHash in pool && b.hash != b.parentHash
    ensures b.hash in ChildrenOf(WithOrphan(pool, evicted, b, now), b.parentHash)
    ensures b.parentHash in AfterRound(pool, evicted, b, now) <==>
              evicted != Some(b.parentHash) && pool[b.parentHash].block.parentHash != b.parentHash
    ensures |pool| < MAX_ORPHAN_BLOCKS ==> evicted != Some(b.parentHash)
  {
  }

  // ---------- what a new block calls for ----------

  /** What a new block is judged by: the stored chain and the orphan pool. */
  datatype Snapshot = Snapshot(bodies: Bodies, canonical: Index, height: nat, latest: Option<Block>, pool: OrphanPool) {
    ghost predicate Valid() {
      ChainOk(bodies, canonical, height) && EntryOk(bodies, canonical, 0) && |pool| <= MAX_ORPHAN_BLOCKS
    }

    function Active(): seq<Block>
      requires 0 in canonical && canonical[0] in bodies
    {
      Indexed(bodies, canonical, height)
    }

    function Tip(): Block
      requires 0 in canonical && canonical[0] in bodies
    {
      At(bodies, canonical, height)
    }

    /** The block is unknown and its height has, or has not, got a canonical block. */
    predicate Unknown(b: Block, rival: bool) {
      b.hash !in bodies && (rival <==> b.number in canonical && canonical[b.number] in bodies)
    }

    predicate OnTip(b: Block) {
      b.parentHash == match latest case Some(tip) => tip.hash case None => 0
    }

    predicate ExtensionDue(b: Block) {
      Unknown(b, false) && OnTip(b)
    }

    /** An unknown block off the tip, at a height without a canonical block, whose parent is an orphan. */
    predicate RecursDue(b: Block) {
      Unknown(b, false) && !OnTip(b) && b.parentHash in pool
    }

    /** A rival of a canonical block needs any more work to switch; a side branch over three more. */
    ghost predicate SwitchDue(b: Block)
      requires 0 in canonical && ParentClosed(bodies, canonical[0])
    {
      b.parentHash in bodies &&
      ((Unknown(b, true) && b.number > 0 && Outweighs(bodies, canonical, latest, b, bodies[b.parentHash], 0)) ||
       (Unknown(b, false) && !OnTip(b) && b.parentHash !in pool &&
        Outweighs(bodies, canonical, latest, b, bodies[b.parentHash], MIN_WORK_FOR_REORG)))
    }

    /** The parent is not stored, or no fork point lies within reach of it. */
    predicate Detached(b: Block) {
      b.parentHash in bodies ==> NearestIndexed(bodies, canonical, bodies[b.parentHash], MAX_FORK_DEPTH).None?
    }

    predicate OrphanDue(b: Block) {
      || (Unknown(b, true) && b.number > 0 && Detached(b) && (b.parentHash in bodies ==> latest.Some?))
      || (Unknown(b, false) && !OnTip(b) && b.parentHash !in pool && Detached(b))
    }
  }

  /** The ways a block can take by its own fields: known, on the tip, under an orphan, or with an unknown parent. */
  lemma WaysByFields(v: Snapshot, b: Block)
    requires v.Valid()
    ensures var taken := b.number in v.canonical && v.canonical[b.number] in v.bodies;
            var onTip := b.parentHash == if v.latest.Some? then v.latest.value.hash else 0;
            && (v.ExtensionDue(b) <==> b.hash !in v.bodies && !taken && onTip)
            && (v.RecursDue(b) <==> b.hash !in v.bodies && !taken && !onTip && b.parentHash in v.pool)
            && (b.hash in v.bodies ==> !v.SwitchDue(b) && !v.OrphanDue(b))
            && (b.parentHash !in v.bodies ==> !v.SwitchDue(b))
            && (b.hash !in v.bodies && b.parentHash !in v.bodies ==>
                  (v.OrphanDue(b) <==> if taken then b.number > 0 else !onTip && b.parentHash !in v.pool))
  {
  }

  /** One more orphan, received at `now`. */
  ghost predicate Pooled(before: OrphanPool, after: OrphanPool, b: Block, now: nat) {
    exists evicted :: Evicts(before, evicted) && after == WithOrphan(before, evicted, b, now)
  }

  /** The new orphan is in; under a hundred entries nothing is lost for it, and from there on only one of the oldest. */
  lemma PooledMeans(before: OrphanPool, after: OrphanPool, b: Block, now: nat, h: Hash)
    requires Pooled(before, after, b, now)
    ensures b.hash in after && after[b.hash] == OrphanBlock(b, now)
    ensures h in after && h != b.hash ==> h in before && after[h] == before[h]
    ensures h in before && h !in after ==>
              |before| >= 100 && forall g :: g in before ==> before[h].receivedAt <= before[g].receivedAt
  {
  }

  ghost predicate PooledAndTaken(before: OrphanPool, after: OrphanPool, b: Block, now: nat) {
    exists evicted :: Evicts(before, evicted) && after == AfterRound(before, evicted, b, now)
  }

  /** A completed switch leaves the block that called for it on top. */
  ghost predicate Topped(step: Step, chain: seq<Block>, b: Block) {
    step.Switched? && step.outcome.Completed? ==> chain != [] && chain[|chain| - 1] == b
  }

  /** How a new block is dealt with: what is tried, and what that leaves of chain and pool. */
  ghost predicate StepOf(before: Snapshot, b: Block, now: nat, step: Step, after: Snapshot)
    requires before.Valid() && after.Valid()
  {
    && StepResult(step, before.Active(), after.Active())
    && (step == Known <==> b.hash in before.bodies)
    && (step == Extended || step == Rejected <==> before.ExtensionDue(b))
    && (step == Extended ==> after.Active() == before.Active() + [b])
    && (step.Switched? <==> before.SwitchDue(b)) && Topped(step, after.Active(), b)
    && (step == Recursing <==> before.RecursDue(b)) && (step == Orphaned <==> before.OrphanDue(b))
    && (if step == Orphaned then Pooled(before.pool, after.pool, b, now)
        else if step == Recursing then PooledAndTaken(before.pool, after.pool, b, now)
        else after.pool == before.pool)
  }

  /** The same for a block whose height has a canonical block. */
  ghost predicate RivalStep(before: Snapshot, b: Block, now: nat, step: Step, after: Snapshot)
    requires before.Valid() && after.Valid()
  {
    && StepResult(step, before.Active(), after.Active()) && Topped(step, after.Active(), b)
    && !step.Known? && !step.Recursing? && !step.Extended? && !step.Rejected?
    && (step.Switched? <==>
          b.number > 0 && b.parentHash in before.bodies &&
          Outweighs(before.bodies, before.canonical, before.latest, b, before.bodies[b.parentHash], 0))
    && (step == Orphaned <==>
          b.number > 0 && before.Detached(b) && (b.parentHash in before.bodies ==> before.latest.Some?))
    && (if step == Orphaned then Pooled(before.pool, after.pool, b, now) else after.pool == before.pool)
  }

  /** The same for a block with a stored parent; on the tip it extends the chain. */
  ghost predicate SideStep(before: Snapshot, b: Block, parent: Block, now: nat, step: Step, after: Snapshot)
    requires before.Valid() && after.Valid()
  {
    var onTip := before.latest.Some? && parent.hash == before.latest.value.hash;
    && StepResult(step, before.Active(), after.Active()) && Topped(step, after.Active(), b)
    && !step.Known? && !step.Recursing?
    && (step == Extended || step == Rejected <==> onTip)
    && (step == Extended ==> after.Active() == before.Active() + [b])
    && (step.Switched? <==>
          !onTip && Outweighs(before.bodies, before.canonical, before.latest, b, parent, MIN_WORK_FOR_REORG))
    && (step == Orphaned <==>
          !onTip && NearestIndexed(before.bodies, before.canonical, parent, MAX_FORK_DEPTH).None?)
    && (if step == Orphaned then Pooled(before.pool, after.pool, b, now) else after.pool == before.pool)
  }

  /** The branches above the nearest fork point of the parent of an unknown block. */
  ghost predicate ForkOf(v: Snapshot, b: Block, parent: Block, fork: ChainFork)
    requires v.Valid() && v.latest.Some?
  {
    && b.hash !in v.bodies && b.parentHash in v.bodies && v.bodies[b.parentHash] == parent
    && NearestIndexed(v.bodies, v.canonical, parent, MAX_FORK_DEPTH) == Some(fork.forkHeight)
    && Branch(v.bodies, v.canonical[0], b, fork.forkHeight) == Some(fork.candidateChain)
    && Branch(v.bodies, v.canonical[0], v.latest.value, fork.forkHeight) == Some(fork.activeChain)
  }

  /** The fork was weighed, and switched to or kept. */
  ghost predicate Weighed(before: Snapshot, b: Block, fork: ChainFork, margin: nat, step: Step, after: Snapshot)
    requires before.Valid() && after.Valid()
  {
    && (step == Kept || step.Switched?) && StepResult(step, before.Active(), after.Active())
    && Topped(step, after.Active(), b) && after.pool == before.pool
    && (step.Switched? <==> ChainWork(fork.candidateChain) > ChainWork(fork.activeChain) + margin)
  }

  lemma SwitchIsWeighed(before: Snapshot, b: Block, fork: ChainFork, margin: nat, step: Step, after: Snapshot)
    requires before.Valid() && after.Valid() && after.pool == before.pool && step.Switched?
    requires StepResult(step, before.Active(), after.Active()) && Topped(step, after.Active(), b)
    requires ChainWork(fork.candidateChain) > ChainWork(fork.activeChain) + margin
    ensures Weighed(before, b, fork, margin, step, after)
  {
  }

  lemma WeighedIsSide(before: Snapshot, b: Block, parent: Block, now: nat, fork: ChainFork, step: Step,
                      after: Snapshot)
    requires before.Valid() && after.Valid() && before.latest.Some? && ForkOf(before, b, parent, fork)
    requires parent.hash != before.latest.value.hash && Weighed(before, b, fork, MIN_WORK_FOR_REORG, step, after)
    ensures SideStep(before, b, parent, now, step, after)
  {
  }

  lemma WeighedIsRival(before: Snapshot, b: Block, parent: Block, now: nat, fork: ChainFork, step: Step,
                       after: Snapshot)
    requires before.Valid() && after.Valid() && before.latest.Some? && ForkOf(before, b, parent, fork)
    requires b.number > 0 && Weighed(before, b, fork, 0, step, after)
    ensures RivalStep(before, b, now, step, after)
  {
  }

  // ---------- which branch is heavier, by difficulties ----------

  /** The block states a positive difficulty. */
  predicate Claims(b: Block) {
    b.difficulty.Some? && b.difficulty.value > 0
  }

  /** An unknown block on the parent of the tip. */
  ghost predicate RivalOfTip(v: Snapshot, b: Block) {
    && v.Valid() && v.height > 0 && v.latest == Some(v.Tip()) && b.hash !in v.bodies && b.number == v.height
    && b.parentHash == At(v.bodies, v.canonical, v.height - 1).hash
  }

  lemma BranchOverParent(bodies: Bodies, genesis: Hash, b: Block, parent: Block)
    requires Stored(bodies, genesis, parent) && b.parentHash == parent.hash && b.number == parent.number + 1
    ensures Branch(bodies, genesis, b, parent.number) == Some([b])
  {
    assert [] + [b] == [b];
  }

  lemma TipBranch(v: Snapshot)
    requires v.Valid() && v.height > 0
    ensures Branch(v.bodies, v.canonical[0], v.Tip(), v.height - 1) == Some([v.Tip()])
    ensures var parent := At(v.bodies, v.canonical, v.height - 1);
            Stored(v.bodies, v.canonical[0], parent) && parent.number == v.height - 1 && IsIndexed(v.canonical, parent)
  {
    CanonicalStored(v.bodies, v.canonical, v.height, v.height);
    CanonicalStored(v.bodies, v.canonical, v.height, v.height - 1);
    assert LinkOk(v.bodies, v.canonical, v.height);
    BranchOverParent(v.bodies, v.canonical[0], v.Tip(), At(v.bodies, v.canonical, v.height - 1));
  }

  /** A rival of the tip is switched to exactly when it states more difficulty. */
  lemma RivalOfTipIff(v: Snapshot, b: Block)
    requires RivalOfTip(v, b) && Claims(b) && Claims(v.Tip())
    ensures v.Unknown(b, true) && b.parentHash in v.bodies
    ensures Outweighs(v.bodies, v.canonical, v.latest, b, v.bodies[b.parentHash], 0) <==>
              b.difficulty.value > v.Tip().difficulty.value
    ensures v.SwitchDue(b) <==> b.difficulty.value > v.Tip().difficulty.value
  {
    TipBranch(v);
    CanonicalStored(v.bodies, v.canonical, v.height, v.height);
    BranchOverParent(v.bodies, v.canonical[0], b, At(v.bodies, v.canonical, v.height - 1));
    OneBlock(b);
    OneBlock(v.Tip());
  }

  /** An unknown block on a stored sibling `p` of the tip, at a height without a canonical block. */
  ghost predicate SideOfTip(v: Snapshot, p: Block, b: Block) {
    && v.Valid() && v.height > 0 && v.latest == Some(v.Tip()) && b.hash !in v.bodies && b.number == v.height + 1
    && p.hash in v.bodies && v.bodies[p.hash] == p && p.number == v.height && p.hash != v.Tip().hash
    && p.parentHash == At(v.bodies, v.canonical, v.height - 1).hash
    && b.parentHash == p.hash && b.number !in v.canonical && b.parentHash !in v.pool
  }

  lemma TwoBlocks(a: Block, b: Block)
    ensures ChainWork([a, b]) == CalculateBlockWork(a.difficulty) + CalculateBlockWork(b.difficulty)
  {
    WorkAndWeightAdd([a], [b]);
    OneBlock(a);
    OneBlock(b);
  }

  /** Two blocks on the parent of the tip are switched to exactly when they state over three more difficulty. */
  lemma SideOfTipIff(v: Snapshot, p: Block, b: Block)
    requires SideOfTip(v, p, b) && Claims(p) && Claims(b) && Claims(v.Tip())
    ensures v.SwitchDue(b) <==> p.difficulty.value + b.difficulty.value > v.Tip().difficulty.value + 3
  {
    var genesis := v.canonical[0];
    TipBranch(v);
    CanonicalStored(v.bodies, v.canonical, v.height, v.height);
    assert Stored(v.bodies, genesis, p);
    BranchOverParent(v.bodies, genesis, p, At(v.bodies, v.canonical, v.height - 1));
    BranchOfStored(v.bodies, genesis, p, v.height - 1);
    assert [p] + [b] == [p, b];
    assert NearestIndexed(v.bodies, v.canonical, p, MAX_FORK_DEPTH) == Some(v.height - 1);
    TwoBlocks(p, b);
    OneBlock(v.Tip());
  }

  lemma KnownIsStep(v: Snapshot, b: Block, now: nat)
    requires v.Valid() && b.hash in v.bodies
    ensures StepOf(v, b, now, Known, v)
  {
  }

  lemma ExtensionIsStep(before: Snapshot, b: Block, now: nat, step: Step, after: Snapshot)
    requires before.Valid() && after.Valid() && before.ExtensionDue(b) && after.pool == before.pool
    requires step == Extended || (step == Rejected && after == before)
    requires step == Extended ==> after.Active() == before.Active() + [b]
    ensures StepOf(before, b, now, step, after)
  {
    ExtensionRaisesWork(before.Active(), b);
  }

  lemma PoolingIsStep(before: Snapshot, b: Block, now: nat, step: Step, after: Snapshot)
    requires before.Valid() && after.Valid() && after.Active() == before.Active()
    requires (step == Recursing && before.RecursDue(b) && PooledAndTaken(before.pool, after.pool, b, now)) ||
             (step == Orphaned && before.OrphanDue(b) && b.parentHash !in before.bodies &&
              Pooled(before.pool, after.pool, b, now))
    ensures StepOf(before, b, now, step, after)
  {
  }

  lemma RivalIsStep(before: Snapshot, b: Block, now: nat, step: Step, after: Snapshot)
    requires before.Valid() && after.Valid() && before.Unknown(b, true) && RivalStep(before, b, now, step, after)
    ensures StepOf(before, b, now, step, after)
  {
  }

  lemma SideIsStep(before: Snapshot, b: Block, parent: Block, now: nat, step: Step, after: Snapshot)
    requires before.Valid() && after.Valid()
    requires before.Unknown(b, false) && !before.OnTip(b) && b.parentHash !in before.pool
    requires b.parentHash in before.bodies && before.bodies[b.parentHash] == parent && parent.hash == b.parentHash
    requires SideStep(before, b, parent, now, step, after)
    ensures StepOf(before, b, now, step, after)
  {
  }

  // ---------- how a switch ends ----------

  function TipHash(tip: Option<Block>): Hash {
    match tip case Some(b) => b.hash case None => 0
  }

  /** Completed; or failed and, where every undo succeeded above genesis, back on the old chain and tip. */
  ghost predicate SwitchEnded(before: seq<Block>, tip: Option<Block>, fork: ChainFork, outcome: ReorgOutcome,
                              after: seq<Block>, tip': Option<Block>)
  {
    match outcome
    case DepthExceeded => false
    case Completed => SwitchedTo(before, after, fork) && tip'.Some?
    case Failed(stage, restored) =>
      && stage != Context
      && (restored && fork.forkHeight >= 1 ==> after == before && tip' == tip)
      && (stage == Connecting && fork.forkHeight == 0 && fork.activeChain != [] ==> tip'.None? && !restored)
  }

  /** The candidate branch on the base, or the base with the detached blocks back on it. */
  ghost predicate Attached(base: seq<Block>, tip: Option<Block>, candidates: seq<Block>, disconnected: seq<Block>,
                           forkHash: Hash, failure: Option<Stage>, restored: bool, after: seq<Block>,
                           tip': Option<Block>)
  {
    && failure != Some(Context) && failure != Some(Disconnecting) && (tip.None? ==> tip'.None?)
    && (failure.None? ==>
          after == base + candidates && tip'.Some? && tip.Some? && forkHash == TipHash(tip))
    && (failure.Some? && restored && |base| > 1 ==> after == base + Reversed(disconnected) && tip'.Some?)
    && (failure.Some? && restored && tip.None? ==> disconnected == [])
    && (failure.Some? && restored && disconnected == [] && forkHash != TipHash(tip) ==> after == base && tip' == tip)
  }

  predicate TipOf(chain: seq<Block>, tip: Option<Block>) {
    && chain != [] && (|chain| > 1 ==> tip.Some?)
    && (tip.Some? ==> tip.value == chain[|chain| - 1])
  }

  lemma SwitchEnds(before: seq<Block>, tip: Option<Block>, base: seq<Block>, baseTip: Option<Block>, fork: ChainFork,
                   forkHash: Hash, disconnected: seq<Block>, failure: Option<Stage>, restored: bool,
                   after: seq<Block>, tip': Option<Block>)
    requires before == base + fork.activeChain && Reversed(disconnected) == fork.activeChain
    requires fork.activeChain == if fork.forkHeight < |before| then before[fork.forkHeight + 1..] else []
    requires TipOf(before, tip) && TipOf(base, baseTip) && TipOf(after, tip')
    requires if fork.activeChain == [] then baseTip == tip else (baseTip.Some? <==> |base| > 1)
    requires forkHash == TipHash(baseTip) ==> fork.forkHeight == |base| - 1
    requires Attached(base, baseTip, fork.candidateChain, disconnected, forkHash, failure, restored, after, tip')
    ensures SwitchEnded(before, tip, fork, if failure.None? then Completed else Failed(failure.value, restored),
                        after, tip')
  {
    if failure.None? {
      JoinedIsSwitched(before, base, after, fork);
    }
  }

  /** The part of the chain that a switch keeps. */
  function Base(chain: seq<Block>, fork: ChainFork): seq<Block> {
    if fork.forkHeight < |chain| then chain[..fork.forkHeight + 1] else chain
  }

  lemma BaseCompletes(chain: seq<Block>, fork: ChainFork)
    requires chain != []
    requires fork.activeChain == if fork.forkHeight < |chain| then chain[fork.forkHeight + 1..] else []
    ensures Base(chain, fork) != [] && chain == Base(chain, fork) + fork.activeChain
  {
  }

  lemma TakeOneLess(base: seq<Block>, active: seq<Block>, i: nat)
    requires i < |active|
    ensures (base + active[..i + 1])[..|base| + i] == base + active[..i]
    ensures (base + active[..i + 1])[|base| + i] == active[i]
  {
  }

  class ReorgManager {
    const chain: Blockchain
    var orphanPool: OrphanPool
    var activeForks: map<nat, ChainFork>
    var reorgCount: nat
    var lastReorgHeight: nat
    var maxReorgDepthObserved: nat

    ghost predicate Valid()
      reads this, chain
    {
      chain.Valid() && |orphanPool| <= MAX_ORPHAN_BLOCKS
    }

    ghost function View(): Snapshot
      reads this, chain
    {
      Snapshot(chain.bodies, chain.canonical, chain.height, chain.latest, orphanPool)
    }

    constructor (chain: Blockchain)
      requires chain.Valid()
      ensures Valid() && this.chain == chain
    {
      this.chain := chain;
      orphanPool, activeForks := map[], map[];
      reorgCount, lastReorgHeight, maxReorgDepthObserved := 0, 0, 0;
    }

    /** Reconnects detached blocks, given newest first, and carries on past failures. */
    method EmergencyRollback(disconnected: seq<Block>) returns (restored: bool)
      requires chain.Valid() && AllStored(chain.bodies, disconnected)
      modifies chain
      ensures chain.Valid() && Extends(old(chain.bodies), chain.bodies)
      ensures restored ==> chain.Active() == old(chain.Active()) + Reversed(disconnected)
      ensures restored && disconnected == [] ==> chain.latest == old(chain.latest)
      ensures restored && disconnected != [] ==> old(chain.latest).Some? && chain.latest.Some?
      ensures old(chain.latest).None? ==> chain.latest.None?
    {
      restored := true;
      var i := |disconnected|;
      assert disconnected[i..] == [];
      assert chain.Active() == chain.Active() + [];
      while i > 0
        invariant 0 <= i <= |disconnected|
        invariant chain.Valid() && Extends(old(chain.bodies), chain.bodies)
        invariant restored ==> chain.Active() == old(chain.Active()) + Reversed(disconnected[i..])
        invariant restored && i == |disconnected| ==> chain.latest == old(chain.latest)
        invariant restored && i < |disconnected| ==> old(chain.latest).Some? && chain.latest.Some?
        invariant old(chain.latest).None? ==> chain.latest.None?
      {
        i := i - 1;
        var b := disconnected[i];
        assert b in disconnected;
        assert disconnected[i..][1..] == disconnected[i + 1..];
        var ok := chain.ConnectBlock(b);
        if !ok {
          restored := false;
        }
      }
      assert disconnected[0..] == disconnected;
    }

    /** Removes the candidate blocks connected before the failure, newest first, then rolls back. */
    method EmergencyRollbackFrom(candidates: seq<Block>, failedIndex: nat, disconnected: seq<Block>,
                                 ghost base: seq<Block>)
      returns (restored: bool)
      requires failedIndex <= |candidates|
      requires chain.Valid() && AllStored(chain.bodies, disconnected)
      requires base != [] && chain.Active() == base + candidates[..failedIndex]
      requires forall k :: 0 <= k < failedIndex ==> candidates[k].number == |base| + k
      modifies chain
      ensures chain.Valid() && Extends(old(chain.bodies), chain.bodies)
      ensures restored ==> chain.Active() == base + Reversed(disconnected)
      ensures restored && failedIndex == 0 && disconnected == [] ==> chain.latest == old(chain.latest)
      ensures restored && |base| > 1 && old(chain.latest).Some? ==> chain.latest.Some?
      ensures old(chain.latest).None? && failedIndex == 0 ==> chain.latest.None?
      ensures failedIndex == 0 && old(chain.latest).None? && disconnected != [] ==> !restored
    {
      var removed := true;
      var i := failedIndex;
      while i > 0
        invariant 0 <= i <= failedIndex
        invariant chain.Valid() && chain.bodies == old(chain.bodies)
        invariant removed ==> chain.Active() == base + candidates[..i]
        invariant i == failedIndex ==> chain.latest == old(chain.latest) && removed
        invariant removed && |base| > 1 && old(chain.latest).Some? ==> chain.latest.Some?
      {
        i := i - 1;
        var ok := chain.DisconnectBlock(candidates[i].number);
        if !ok {
          removed := false;
        } else if removed {
          assert (base + candidates[..i + 1])[..|base| + i] == base + candidates[..i];
        }
      }
      assert removed ==> chain.Active() == base by { assert base + candidates[..0] == base; }
      var reconnected := EmergencyRollback(disconnected);
      restored := removed && reconnected;
    }

    /** Disconnects one block, which must be the tip. */
    method DetachOne(blk: Block) returns (done: bool)
      requires chain.Valid() && chain.height > 0 && blk == chain.Active()[chain.height]
      modifies chain`latest, chain`height
      ensures chain.Valid() && blk.hash in chain.bodies && chain.bodies[blk.hash] == blk
      ensures done ==> chain.height == old(chain.height) - 1 && (chain.latest.Some? <==> chain.height > 0)
      ensures done ==> chain.Active() == old(chain.Active())[..old(chain.height)]
      ensures !done ==> unchanged(chain)
    {
      CanonicalStored(chain.bodies, chain.canonical, chain.height, chain.height);
      done := chain.DisconnectBlock(blk.number);
    }

    /** Disconnects newest first and stops at the first refusal. */
    method DetachActive(active: seq<Block>, ghost base: seq<Block>) returns (disconnected: seq<Block>, ok: bool)
      requires chain.Valid() && base != [] && chain.Active() == base + active
      modifies chain`latest, chain`height
      ensures chain.Valid() && |disconnected| <= |active| && AllStored(chain.bodies, disconnected)
      ensures Reversed(disconnected) == active[|active| - |disconnected|..]
      ensures chain.Active() == base + active[..|active| - |disconnected|]
      ensures ok <==> |disconnected| == |active|
      ensures disconnected == [] ==> unchanged(chain)
      ensures disconnected != [] ==> (chain.latest.Some? <==> chain.height > 0)
    {
      disconnected := [];
      var i := |active|;
      assert active[i..] == [] && active[..i] == active;
      while i > 0
        invariant 0 <= i <= |active| && |disconnected| == |active| - i
        invariant chain.Valid() && chain.Active() == base + active[..i]
        invariant Reversed(disconnected) == active[i..] && AllStored(chain.bodies, disconnected)
        invariant disconnected == [] ==> unchanged(chain)
        invariant disconnected != [] ==> (chain.latest.Some? <==> chain.height > 0)
      {
        i := i - 1;
        var blk := active[i];
        DetachedSnoc(disconnected, active, i);
        TakeOneLess(base, active, i);
        var done := DetachOne(blk);
        if !done {
          return disconnected, false;
        }
        disconnected := disconnected + [blk];
      }
      ok := true;
    }

    /** Context check and connection of one candidate; the check cannot fail on a stored parent. */
    method AttachOne(blk: Block) returns (failure: Option<Stage>)
      requires chain.Valid() && chain.Identified(blk) && blk.parentHash in chain.bodies
      modifies chain
      ensures chain.Valid() && failure != Some(Context) && failure != Some(Disconnecting)
      ensures failure.Some? ==> unchanged(chain)
      ensures failure.None? ==>
                && old(chain.latest).Some? && blk.parentHash == old(chain.CurrentTip())
                && blk.number == old(chain.height) + 1
                && chain.Active() == old(chain.Active()) + [blk] && chain.latest == Some(blk)
                && chain.bodies == old(chain.bodies)[blk.hash := blk]
    {
      var contextOk := chain.ValidateBlockContext(blk);
      if !contextOk {
        return Some(Context);
      }
      var ok := chain.ConnectBlock(blk);
      failure := if ok then None else Some(Connecting);
    }

    /** Connects oldest first and stops at the first failure. */
    method AttachCandidates(candidates: seq<Block>, ghost forkHash: Hash)
      returns (connected: nat, failure: Option<Stage>)
      requires chain.Valid() && Consistent(chain.bodies, candidates)
      requires forkHash in chain.bodies && LinkedFrom(forkHash, candidates)
      modifies chain
      ensures chain.Valid() && Extends(old(chain.bodies), chain.bodies) && connected <= |candidates|
      ensures chain.Active() == old(chain.Active()) + candidates[..connected]
      ensures failure.None? <==> connected == |candidates|
      ensures failure != Some(Context) && failure != Some(Disconnecting)
      ensures if connected == 0 then unchanged(chain)
              else old(chain.latest).Some? && forkHash == old(chain.CurrentTip()) && chain.latest.Some?
    {
      ghost var before := chain.Active();
      connected, failure := 0, None;
      assert before == before + candidates[..0];
      while connected < |candidates| && failure.None?
        invariant failure != Some(Context) && failure != Some(Disconnecting)
        invariant failure.Some? ==> connected < |candidates|
        invariant connected <= |candidates|
        invariant chain.Valid() && Extends(old(chain.bodies), chain.bodies) && Consistent(chain.bodies, candidates)
        invariant chain.Active() == before + candidates[..connected]
        invariant if connected == 0 then unchanged(chain)
                  else old(chain.latest).Some? && forkHash == old(chain.CurrentTip()) && chain.latest.Some?
        invariant connected > 0 ==> candidates[connected - 1].hash in chain.bodies
        decreases |candidates| - connected, failure.None?
      {
        var blk := candidates[connected];
        assert blk.parentHash == PrecedingHash(forkHash, candidates, connected);
        ghost var bodies := chain.bodies;
        failure := AttachOne(blk);
        if failure.None? {
          ConsistentAfter(bodies, candidates, blk);
          TakeOneMore(before, candidates, connected);
          connected := connected + 1;
        }
      }
    }

    /** First round: either the whole active branch is detached or what was detached is put back. */
    method DetachOrRestore(active: seq<Block>, ghost base: seq<Block>)
      returns (disconnected: seq<Block>, ok: bool, restored: bool)
      requires chain.Valid() && base != [] && chain.Active() == base + active
      modifies chain
      ensures chain.Valid() && Extends(old(chain.bodies), chain.bodies) && AllStored(chain.bodies, disconnected)
      ensures ok ==> chain.canonical == old(chain.canonical) && chain.bodies == old(chain.bodies)
      ensures ok ==> Reversed(disconnected) == active && chain.Active() == base
      ensures ok ==> if active == [] then unchanged(chain) else (chain.latest.Some? <==> chain.height > 0)
      ensures !ok && restored ==> chain.Active() == old(chain.Active()) && chain.latest == old(chain.latest)
    {
      TipIsLast(chain);
      disconnected, ok := DetachActive(active, base);
      restored := false;
      if ok {
        assert active[..0] == [] && active[0..] == active && base + [] == base;
      } else {
        restored := EmergencyRollback(disconnected);
        assert base + active[..|active| - |disconnected|] + active[|active| - |disconnected|..] == base + active;
        TipIsLast(chain);
      }
    }

    /** Second round: either the whole candidate branch is attached or the active branch is put back. */
    method AttachOrRestore(candidates: seq<Block>, disconnected: seq<Block>, ghost forkHash: Hash)
      returns (failure: Option<Stage>, restored: bool)
      requires chain.Valid() && AllStored(chain.bodies, disconnected) && Consistent(chain.bodies, candidates)
      requires forkHash in chain.bodies && LinkedFrom(forkHash, candidates) && candidates != []
      modifies chain
      ensures chain.Valid() && Extends(old(chain.bodies), chain.bodies)
      ensures Attached(old(chain.Active()), old(chain.latest), candidates, disconnected, forkHash, failure, restored,
                       chain.Active(), chain.latest)
    {
      var connected;
      ghost var base := chain.Active();
      connected, failure := AttachCandidates(candidates, forkHash);
      restored := false;
      if failure == Some(Context) {
        // Here the source only puts the detached blocks back; the context check never fails.
        assert false;
      } else if failure.Some? {
        ActiveNumbers(chain);
        assert forall k :: 0 <= k < connected ==> candidates[k] == chain.Active()[|base| + k];
        restored := EmergencyRollbackFrom(candidates, connected, disconnected, base);
      } else {
        assert candidates[..connected] == candidates;
      }
    }

    /** The second round, and how it ends the switch that began on `before`. */
    method FinishSwitch(fork: ChainFork, disconnected: seq<Block>, ghost before: seq<Block>, ghost tip: Option<Block>)
      returns (outcome: ReorgOutcome)
      requires chain.Valid() && AllStored(chain.bodies, disconnected) && TipOf(before, tip)
      requires ForkJoins(chain.bodies, chain.canonical, before, fork)
      requires Reversed(disconnected) == fork.activeChain && before == chain.Active() + fork.activeChain
      requires if fork.activeChain == [] then chain.latest == tip else (chain.latest.Some? <==> chain.height > 0)
      modifies chain
      ensures chain.Valid() && Extends(old(chain.bodies), chain.bodies)
      ensures SwitchEnded(before, tip, fork, outcome, chain.Active(), chain.latest)
    {
      ghost var base, baseTip, forkHash := chain.Active(), chain.latest, chain.canonical[fork.forkHeight];
      ForkHashStored(chain, fork.forkHeight);
      TipIsLast(chain);
      var failure, restored := AttachOrRestore(fork.candidateChain, disconnected, forkHash);
      TipIsLast(chain);
      outcome := if failure.None? then Completed else Failed(failure.value, restored);
      SwitchEnds(before, tip, base, baseTip, fork, forkHash, disconnected, failure, restored, chain.Active(),
                 chain.latest);
    }

    /** The two rounds of the switch. */
    method Switch(fork: ChainFork) returns (outcome: ReorgOutcome)
      requires chain.Valid() && ForkJoins(chain.bodies, chain.canonical, chain.Active(), fork)
      modifies chain
      ensures chain.Valid() && Extends(old(chain.bodies), chain.bodies)
      ensures SwitchEnded(old(chain.Active()), old(chain.latest), fork, outcome, chain.Active(), chain.latest)
    {
      ghost var before, tip := chain.Active(), chain.latest;
      TipIsLast(chain);
      BaseCompletes(before, fork);
      var disconnected, ok, restored := DetachOrRestore(fork.activeChain, Base(before, fork));
      if !ok {
        return Failed(Disconnecting, restored);
      }
      outcome := FinishSwitch(fork, disconnected, before, tip);
    }

    /** performReorg: the depth check, the switch, and the bookkeeping of a completed one. */
    method PerformReorg(fork: ChainFork) returns (outcome: ReorgOutcome)
      requires Valid() && ForkFits(chain.bodies, chain.canonical, chain.Active(), fork)
      modifies this, chain
      ensures Valid() && orphanPool == old(orphanPool)
      ensures outcome.DepthExceeded? <==> |fork.activeChain| > MANAGER_MAX_REORG_DEPTH
      ensures outcome.DepthExceeded? ==> unchanged(chain)
      ensures !outcome.DepthExceeded? ==>
                SwitchEnded(old(chain.Active()), old(chain.latest), fork, outcome, chain.Active(), chain.latest)
      ensures if outcome.Completed? then
                && reorgCount == old(reorgCount) + 1
                && lastReorgHeight == fork.candidateChain[|fork.candidateChain| - 1].number
                && activeForks == old(activeForks) - {fork.forkHeight}
                && maxReorgDepthObserved == (if |fork.activeChain| > old(maxReorgDepthObserved)
                                             then |fork.activeChain| else old(maxReorgDepthObserved))
              else unchanged(this)
    {
      if |fork.activeChain| > MANAGER_MAX_REORG_DEPTH {
        return DepthExceeded;
      }
      outcome := Switch(fork);
      if outcome.Completed? {
        reorgCount := reorgCount + 1;
        lastReorgHeight := fork.candidateChain[|fork.candidateChain| - 1].number;
        if |fork.activeChain| > maxReorgDepthObserved {
          maxReorgDepthObserved := |fork.activeChain|;
        }
        activeForks := activeForks - {fork.forkHeight};
      }
    }

    /** A full pool gives up its oldest entry first. */
    method AddOrphanBlock(b: Block, now: nat)
      requires |orphanPool| <= MAX_ORPHAN_BLOCKS
      modifies this`orphanPool
      ensures |orphanPool| <= MAX_ORPHAN_BLOCKS
      ensures b.hash in orphanPool && orphanPool[b.hash] == OrphanBlock(b, now)
      ensures exists evicted :: Evicts(old(orphanPool), evicted) &&
                                orphanPool == WithOrphan(old(orphanPool), evicted, b, now)
    {
      ghost var evicted := None;
      if |orphanPool| >= MAX_ORPHAN_BLOCKS {
        var oldest := OldestOrphan();
        evicted := Some(oldest);
        orphanPool := orphanPool - {oldest};
      }
      orphanPool := orphanPool[b.hash := OrphanBlock(b, now)];
      assert Evicts(old(orphanPool), evicted);
    }

    method OldestOrphan() returns (oldest: Hash)
      requires orphanPool != map[]
      ensures Oldest(orphanPool, oldest)
    {
      oldest :| oldest in orphanPool;
      var todo := orphanPool.Keys - {oldest};
      while todo != {}
        invariant todo <= orphanPool.Keys && oldest in orphanPool
        invariant forall h :: h in orphanPool && h !in todo ==>
                    orphanPool[oldest].receivedAt <= orphanPool[h].receivedAt
      {
        var h :| h in todo;
        if orphanPool[h].receivedAt < orphanPool[oldest].receivedAt {
          oldest := h;
        }
        todo := todo - {h};
      }
    }

    /** The first half of tryResolveOrphans: one walk over the pool that takes out the children of a block. */
    method TakeOrphansOf(parentHash: Hash) returns (taken: set<Hash>)
      modifies this`orphanPool
      ensures taken == ChildrenOf(old(orphanPool), parentHash) && orphanPool == old(orphanPool) - taken
      ensures ChildrenOf(orphanPool, parentHash) == {}
    {
      taken := {};
      var left := orphanPool.Keys;
      while left != {}
        invariant left <= orphanPool.Keys && taken == ChildrenOf(old(orphanPool), parentHash) - left
        invariant orphanPool == old(orphanPool) - taken
      {
        var h :| h in left;
        if orphanPool[h].block.parentHash == parentHash {
          taken := taken + {h};
          orphanPool := orphanPool - {h};
        }
        left := left - {h};
      }
    }

    /** Validation may refuse the block; otherwise it is connected. */
    method ExtendChain(b: Block) returns (step: Step)
      requires Valid() && chain.Identified(b)
      modifies chain
      ensures Valid() && (step == Extended || step == Rejected)
      ensures step == Extended ==> chain.Active() == old(chain.Active()) + [b]
      ensures step == Rejected ==> unchanged(chain)
    {
      var valid: bool := *;
      if !valid {
        return Rejected;
      }
      var ok := chain.ConnectBlock(b);
      step := if ok then Extended else Rejected;
    }

    /** The branch of a new block and the active one above a fork height, with their work. */
    method BuildFork(b: Block, forkHeight: nat) returns (fork: Option<ChainFork>)
      requires chain.Valid()
      ensures var candidate := Branch(chain.bodies, chain.canonical[0], b, forkHeight);
              var active := if chain.latest.None? then None
                            else Branch(chain.bodies, chain.canonical[0], chain.latest.value, forkHeight);
              fork == if candidate.None? || active.None? then None
                      else Some(ChainFork(forkHeight, active.value, candidate.value,
                                          ChainWork(active.value), ChainWork(candidate.value)))
    {
      var candidateChain := BuildChainToFork(chain, Some(b), forkHeight);
      if candidateChain.None? {
        return None;
      }
      var activeChain := BuildChainToFork(chain, chain.latest, forkHeight);
      if activeChain.None? {
        return None;
      }
      var activeWork := CalculateChainWork(activeChain.value);
      var candidateWork := CalculateChainWork(candidateChain.value);
      fork := Some(ChainFork(forkHeight, activeChain.value, candidateChain.value, activeWork, candidateWork));
    }

    /** The switch to a heavier candidate branch, reported with its fork height. */
    method SwitchTo(fork: ChainFork) returns (step: Step)
      requires Valid() && ForkFits(chain.bodies, chain.canonical, chain.Active(), fork)
      requires ChainWork(fork.candidateChain) > ChainWork(fork.activeChain)
      modifies this, chain
      ensures Valid() && orphanPool == old(orphanPool)
      ensures step.Switched? && StepResult(step, old(chain.Active()), chain.Active())
      ensures Topped(step, chain.Active(), fork.candidateChain[|fork.candidateChain| - 1])
    {
      ghost var before := chain.Active();
      var outcome := PerformReorg(fork);
      step := Step.Switched(fork.forkHeight, outcome);
      SwitchIsStep(old(chain.bodies), old(chain.canonical), before, chain.Active(), fork, outcome);
    }

    /** Switch to a branch that has more work by over `margin`, or remember it. */
    method SwitchOrKeep(fork: ChainFork, ghost b: Block, ghost parent: Block, margin: nat) returns (step: Step)
      requires Valid() && chain.latest.Some? && ForkOf(View(), b, parent, fork)
      requires fork.candidateWork - fork.activeWork == ChainWork(fork.candidateChain) - ChainWork(fork.activeChain)
      modifies this, chain
      ensures Valid() && Weighed(old(View()), b, fork, margin, step, View())
    {
      ghost var before := View();
      if fork.candidateWork - fork.activeWork > margin {
        BranchFits(chain, b, parent, fork);
        step := SwitchTo(fork);
        SwitchIsWeighed(before, b, fork, margin, step, View());
      } else {
        activeForks := activeForks[fork.forkHeight := fork];
        step := Kept;
        assert View() == before;
      }
    }

    /** The block's parent is stored but is not the tip: switch when the branch has over three more work. */
    method HandlePotentialFork(b: Block, parent: Block, now: nat) returns (step: Step)
      requires Valid() && b.hash !in chain.bodies && chain.GetBlockByHash(b.parentHash) == Some(parent)
      modifies this, chain
      ensures Valid() && SideStep(old(View()), b, parent, now, step, View())
    {
      ghost var before := View();
      StoredUnderOwnHash(chain);
      if chain.latest.Some? && parent.hash == chain.CurrentTip() {
        step := ExtendChain(b);
        ExtensionRaisesWork(old(chain.Active()), b);
        return;
      }
      var forkHeight := FindForkPoint(chain, parent);
      if forkHeight.None? {
        AddOrphanBlock(b, now);
        return Orphaned;
      }
      var built := BuildFork(b, forkHeight.value);
      if built.None? {
        return Unbuildable;
      }
      var fork := built.value;
      step := SwitchOrKeep(fork, b, parent, MIN_WORK_FOR_REORG);
      WeighedIsSide(before, b, parent, now, fork, step, View());
    }

    /** The branch of a rival against the active one, each with the work of the common part added. */
    method WeighRival(b: Block, parent: Block, forkHeight: nat, ghost now: nat) returns (step: Step)
      requires Valid() && b.hash !in chain.bodies && chain.GetBlockByHash(b.parentHash) == Some(parent)
      requires b.number > 0 && chain.latest.Some?
      requires NearestIndexed(chain.bodies, chain.canonical, parent, MAX_FORK_DEPTH) == Some(forkHeight)
      modifies this, chain
      ensures Valid() && RivalStep(old(View()), b, now, step, View())
    {
      ghost var before := View();
      var built := BuildFork(b, forkHeight);
      if built.None? {
        return Unbuildable;
      }
      var fork := built.value;
      var baseWork := chain.GetCumulativeWork(forkHeight);
      if baseWork.Some? {
        fork := fork.(activeWork := baseWork.value + fork.activeWork,
                      candidateWork := baseWork.value + fork.candidateWork);
      }
      step := SwitchOrKeep(fork, b, parent, 0);
      WeighedIsRival(before, b, parent, now, fork, step, View());
    }

    /** A canonical block of the same height exists: switch to the branch with strictly more work. */
    method HandleSameHeightFork(b: Block, now: nat) returns (step: Step)
      requires Valid() && b.hash !in chain.bodies
      modifies this, chain
      ensures Valid() && RivalStep(old(View()), b, now, step, View())
      ensures RivalOfTip(old(View()), b) && Claims(b) && Claims(old(View()).Tip()) ==>
                (step.Switched? <==> b.difficulty.value > old(View()).Tip().difficulty.value)
    {
      ghost var before := View();
      if RivalOfTip(before, b) && Claims(b) && Claims(before.Tip()) {
        RivalOfTipIff(before, b);
      }
      StoredUnderOwnHash(chain);
      var parent := chain.GetBlockByHash(b.parentHash);
      if b.number == 0 {
        step := Kept;
      } else if parent.None? {
        AddOrphanBlock(b, now);
        step := Orphaned;
      } else if chain.latest.None? {
        step := NoTip;
      } else {
        var forkHeight := FindForkPoint(chain, parent.value);
        if forkHeight.None? {
          AddOrphanBlock(b, now);
          step := Orphaned;
        } else {
          step := WeighRival(b, parent.value, forkHeight.value, now);
        }
      }
    }

    /** Every unknown block is tried in turn: same height, tip extension, orphan's child, side branch. */
    method ProcessNewBlock(b: Block, now: nat) returns (step: Step)
      requires Valid()
      modifies this, chain
      ensures Valid() && StepOf(old(View()), b, now, step, View())
      ensures step.Recursing? ==> unchanged(chain)
    {
      ghost var before := View();
      if chain.GetBlockByHash(b.hash).Some? {
        KnownIsStep(before, b, now);
        return Known;
      }
      var existing := chain.GetBlock(b.number);
      if existing.Some? {
        step := HandleSameHeightFork(b, now);
        RivalIsStep(before, b, now, step, View());
        return;
      }
      if b.parentHash == chain.CurrentTip() {
        step := ExtendChain(b);
        ExtensionIsStep(before, b, now, step, View());
        return;
      }
      if b.parentHash in orphanPool {
        AddOrphanBlock(b, now);
        var _ := TakeOrphansOf(b.parentHash);
        PoolingIsStep(before, b, now, Recursing, View());
        return Recursing;
      }
      StoredUnderOwnHash(chain);
      var parent := chain.GetBlockByHash(b.parentHash);
      if parent.Some? {
        step := HandlePotentialFork(b, parent.value, now);
        SideIsStep(before, b, parent.value, now, step, View());
        return;
      }
      AddOrphanBlock(b, now);
      PoolingIsStep(before, b, now, Orphaned, View());
      step := Orphaned;
    }

    /** A run over any blocks, each dealt with on what the ones before it left. */
    method ProcessAll(blocks: seq<Block>) returns (steps: seq<Step>, ghost views: seq<Snapshot>)
      requires Valid()
      modifies this, chain
      ensures Valid() && RunOf(old(View()), blocks, steps, views, View())
      ensures AllSettled(steps) ==> Progress(MoreWork, Chains(views)) && NeverReturns(Chains(views))
    {
      steps, views := [], [View()];
      for n := 0 to |blocks|
        invariant Valid() && RunOf(old(View()), blocks[..n], steps, views, View())
      {
        ghost var before := View();
        var step := ProcessNewBlock(blocks[n], n);
        RunSnoc(old(View()), blocks, n, steps, views, before, step, View());
        steps, views := steps + [step], views + [View()];
      }
      assert blocks[..|blocks|] == blocks;
      if AllSettled(steps) {
        SettledRunNeverReturns(old(View()), blocks, steps, views, View());
      }
    }
  }

  predicate AllSettled(steps: seq<Step>) {
    forall i :: 0 <= i < |steps| ==> Settled(steps[i])
  }

  /** The canonical chains of a run. */
  ghost function Chains(views: seq<Snapshot>): seq<seq<Block>>
    requires forall i :: 0 <= i < |views| ==> views[i].Valid()
  {
    seq(|views|, i requires 0 <= i < |views| && views[i].Valid() => views[i].Active())
  }

  /** Each step deals with its block, from the view that the step before left. */
  ghost predicate RunOf(first: Snapshot, blocks: seq<Block>, steps: seq<Step>, views: seq<Snapshot>, last: Snapshot) {
    && |steps| == |blocks| && |views| == |blocks| + 1 && views[0] == first && views[|blocks|] == last
    && (forall i :: 0 <= i < |views| ==> views[i].Valid())
    && forall i {:trigger steps[i]} :: 0 <= i < |steps| ==> StepOf(views[i], blocks[i], i, steps[i], views[i + 1])
  }

  lemma RunSnoc(first: Snapshot, blocks: seq<Block>, n: nat, steps: seq<Step>, views: seq<Snapshot>,
                before: Snapshot, step: Step, after: Snapshot)
    requires n < |blocks| && RunOf(first, blocks[..n], steps, views, before)
    requires before.Valid() && after.Valid() && StepOf(before, blocks[n], n, step, after)
    ensures RunOf(first, blocks[..n + 1], steps + [step], views + [after], after)
  {
    var steps', views' := steps + [step], views + [after];
    forall i | 0 <= i < |steps'| ensures StepOf(views'[i], blocks[..n + 1][i], i, steps'[i], views'[i + 1]) {
      if i < n {
        assert StepOf(views[i], blocks[..n][i], i, steps[i], views[i + 1]);
      }
    }
  }

  /**
   * If every step of a run settles, the canonical chain only ever stays or gains work, so a chain once left is
   * never taken up again.
   */
  lemma SettledRunNeverReturns(first: Snapshot, blocks: seq<Block>, steps: seq<Step>, views: seq<Snapshot>,
                               last: Snapshot)
    requires RunOf(first, blocks, steps, views, last) && AllSettled(steps)
    ensures Progress(MoreWork, Chains(views)) && NeverReturns(Chains(views))
  {
    var history := Chains(views);
    forall i, j | 0 <= i && j == i + 1 < |history| ensures StaysOrImproves(MoreWork, history[i], history[j]) {
      assert StepOf(views[i], blocks[i], i, steps[i], views[i + 1]);
      SettledStepProgresses(steps[i], history[i], history[j]);
    }
    RankingsAreStrict();
    ProgressNeverReturns(MoreWork, history);
  }

  lemma StoredUnderOwnHash(chain: Blockchain)
    requires chain.Valid()
    ensures forall h {:trigger chain.bodies[h]} :: h in chain.bodies ==> chain.bodies[h].hash == h
  {
    forall h | h in chain.bodies ensures chain.bodies[h].hash == h {
      assert BlockOk(chain.bodies, chain.canonical[0], h);
    }
  }

  lemma TakeOneMore(before: seq<Block>, s: seq<Block>, k: nat)
    requires k < |s|
    ensures before + s[..k] + [s[k]] == before + s[..k + 1]
  {
  }

  lemma ExtensionRaisesWork(chain: seq<Block>, b: Block)
    ensures MoreWork(chain, chain + [b])
  {
    assert (chain + [b])[..|chain|] == chain;
  }

  /**
   * What a step does to the canonical chain: an extension and a completed switch raise its total
   * work, the switch removing at most six blocks; everything else leaves it as it was, except a
   * failed switch that could not be undone.
   */
  ghost predicate StepResult(step: Step, before: seq<Block>, after: seq<Block>) {
    match step
    case Extended => before < after && |after| == |before| + 1 && MoreWork(before, after)
    case Switched(f, Completed) =>
      f < |before| <= f + 1 + MANAGER_MAX_REORG_DEPTH && before[..f + 1] < after && MoreWork(before, after)
    case Switched(f, Failed(_, restored)) => restored && f >= 1 ==> after == before
    case _ => after == before
  }

  lemma SettledStepProgresses(step: Step, before: seq<Block>, after: seq<Block>)
    requires StepResult(step, before, after) && Settled(step)
    ensures StaysOrImproves(MoreWork, before, after)
  {
  }

  // ---------- new blocks ----------

  /** How a new block was dealt with. `Recursing` is the branch that does not return. */
  datatype Step = Known | Extended | Rejected | NoTip | Orphaned | Recursing | Unbuildable | Kept
                | Switched(forkHeight: nat, outcome: ReorgOutcome)

  /** No failed switch was left half undone, and none was tried at genesis. */
  predicate Settled(step: Step) {
    step.Switched? && step.outcome.Failed? ==> step.outcome.restored && step.forkHeight >= 1
  }

  /** The candidate branch of an unknown block hangs on the fork that the walk from its parent finds. */
  lemma BranchFits(chain: Blockchain, b: Block, parent: Block, fork: ChainFork)
    requires chain.Valid() && chain.latest.Some?
    requires ForkOf(Snapshot(chain.bodies, chain.canonical, chain.height, chain.latest, map[]), b, parent, fork)
    requires fork.candidateChain != []
    ensures ForkFits(chain.bodies, chain.canonical, chain.Active(), fork)
    ensures fork.candidateChain[|fork.candidateChain| - 1] == b
  {
    var f := fork.forkHeight;
    var bodies, genesis := chain.bodies, chain.canonical[0];
    assert BlockOk(bodies, genesis, b.parentHash);
    NearestIsHighest(bodies, chain.canonical, parent, MAX_FORK_DEPTH);
    var s := Segment(bodies, genesis, parent, f);
    SegmentIsPath(bodies, genesis, parent, f);
    LinkedSnoc(chain.canonical[f], s, b, parent);
    SegmentStored(bodies, genesis, parent, f);
    BranchIsNew(bodies, chain.canonical, chain.height, parent, f, b);
    CanonicalStored(bodies, chain.canonical, chain.height, chain.height);
    BranchOfStored(bodies, genesis, chain.latest.value, f);
    if f <= chain.height {
      CanonicalSegment(bodies, chain.canonical, chain.height, f);
    }
  }

  /** Above the nearest indexed ancestor no block of the branch is canonical, nor is an unknown tip. */
  lemma BranchIsNew(bodies: Bodies, canonical: Index, height: nat, parent: Block, f: nat, b: Block)
    requires ChainOk(bodies, canonical, height) && EntryOk(bodies, canonical, 0)
    requires Stored(bodies, canonical[0], parent) && b.hash !in bodies
    requires NearestIndexed(bodies, canonical, parent, MAX_FORK_DEPTH) == Some(f)
    ensures Disjoint(Segment(bodies, canonical[0], parent, f) + [b], Indexed(bodies, canonical, height))
  {
    var s, active := Segment(bodies, canonical[0], parent, f), Indexed(bodies, canonical, height);
    NearestIsHighest(bodies, canonical, parent, MAX_FORK_DEPTH);
    forall k, i | 0 <= k <= height && 0 <= i < |s| ensures active[k] != s[i] && active[k] != b {
      CanonicalStored(bodies, canonical, height, k);
      SegmentAt(bodies, canonical[0], parent, f, i);
      assert !AncestorIndexed(bodies, canonical, parent, f + 1 + i);
    }
    forall k | 0 <= k <= height ensures active[k] != b {
      CanonicalStored(bodies, canonical, height, k);
    }
  }

  lemma LinkedSnoc(forkHash: Hash, s: seq<Block>, b: Block, parent: Block)
    requires LinkedFrom(forkHash, s) && b.parentHash == parent.hash
    requires if s == [] then parent.hash == forkHash else s[|s| - 1] == parent
    ensures LinkedFrom(forkHash, s + [b])
  {
    var r := s + [b];
    forall i | 0 <= i < |r| ensures r[i].parentHash == PrecedingHash(forkHash, r, i) {
      if i < |s| {
        assert s[i].parentHash == PrecedingHash(forkHash, s, i);
      }
    }
  }

  lemma {:induction false} SegmentStored(bodies: Bodies, genesis: Hash, b: Block, n: nat)
    requires Stored(bodies, genesis, b)
    ensures AllStored(bodies, Segment(bodies, genesis, b, n))
    ensures b.number > n ==> Segment(bodies, genesis, b, n)[b.number - n - 1] == b
    decreases b.number
  {
    if b.number > n {
      SegmentStored(bodies, genesis, Parent(bodies, genesis, b), n);
    }
  }

  lemma CandidateOnTop(base: seq<Block>, candidate: seq<Block>)
    requires candidate != []
    ensures base < base + candidate && (base + candidate)[|base + candidate| - 1] == candidate[|candidate| - 1]
  {
  }

  lemma HeavierOnBase(base: seq<Block>, active: seq<Block>, candidate: seq<Block>, old_: seq<Block>, new_: seq<Block>)
    requires old_ == base + active && new_ == base + candidate && ChainWork(candidate) > ChainWork(active)
    ensures MoreWork(old_, new_) && candidate != []
  {
    SuffixDecides(base, candidate, active);
  }

  /** A completed switch to a branch with more work gives the chain more work. */
  lemma SwitchRaisesWork(old_: seq<Block>, new_: seq<Block>, fork: ChainFork)
    requires SwitchedTo(old_, new_, fork) && fork.activeChain == old_[fork.forkHeight + 1..]
    requires ChainWork(fork.candidateChain) > ChainWork(fork.activeChain)
    requires |fork.activeChain| <= MANAGER_MAX_REORG_DEPTH
    ensures StepResult(Step.Switched(fork.forkHeight, Completed), old_, new_)
    ensures new_ != [] && new_[|new_| - 1] == fork.candidateChain[|fork.candidateChain| - 1]
  {
    BaseCompletes(old_, fork);
    HeavierOnBase(Base(old_, fork), fork.activeChain, fork.candidateChain, old_, new_);
    CandidateOnTop(Base(old_, fork), fork.candidateChain);
  }

  /** What a switch leaves of the chain is what the step promises. */
  lemma SwitchIsStep(bodies: Bodies, canonical: Index, before: seq<Block>, after: seq<Block>, fork: ChainFork,
                     outcome: ReorgOutcome)
    requires ForkJoins(bodies, canonical, before, fork)
    requires ChainWork(fork.candidateChain) > ChainWork(fork.activeChain)
    requires outcome.Completed? ==> SwitchedTo(before, after, fork) && |fork.activeChain| <= MANAGER_MAX_REORG_DEPTH
    requires outcome.DepthExceeded? || (outcome.Failed? && outcome.restored && fork.forkHeight >= 1) ==> after == before
    ensures StepResult(Step.Switched(fork.forkHeight, outcome), before, after)
    ensures Topped(Step.Switched(fork.forkHeight, outcome), after, fork.candidateChain[|fork.candidateChain| - 1])
  {
    if outcome.Completed? {
      SwitchRaisesWork(before, after, fork);
    }
  }

  lemma JoinedIsSwitched(before: seq<Block>, base: seq<Block>, after: seq<Block>, fork: ChainFork)
    requires before == base + fork.activeChain && after == base + fork.candidateChain
    requires fork.forkHeight < |before| && fork.activeChain == before[fork.forkHeight + 1..]
    requires fork.forkHeight > 0 || fork.activeChain == []
    ensures SwitchedTo(before, after, fork)
  {
  }

  lemma TipIsLast(chain: Blockchain)
    requires chain.Valid()
    ensures TipOf(chain.Active(), chain.latest)
  {
  }

  /** The entry at the fork names a stored block, which is the tip only at the tip's height. */
  lemma ForkHashStored(chain: Blockchain, n: nat)
    requires chain.Valid() && n in chain.canonical
    ensures chain.canonical[n] in chain.bodies && chain.bodies[chain.canonical[n]].number == n
    ensures chain.canonical[n] == chain.CurrentTip() ==> n == chain.height && chain.latest.Some?
  {
    assert EntryOk(chain.bodies, chain.canonical, n);
    assert BlockOk(chain.bodies, chain.canonical[0], chain.canonical[n]);
    CanonicalStored(chain.bodies, chain.canonical, chain.height, chain.height);
  }

  /** The old prefix up to the fork, then the candidate branch. */
  ghost predicate SwitchedTo(old_: seq<Block>, new_: seq<Block>, fork: ChainFork) {
    && fork.forkHeight < |old_|
    && new_ == old_[..fork.forkHeight + 1] + fork.candidateChain
    && (fork.forkHeight > 0 || fork.activeChain == [])
  }

  lemma ActiveNumbers(chain: Blockchain)
    requires chain.Valid()
    ensures forall i :: 0 <= i < |chain.Active()| ==> chain.Active()[i].number == i
  {
    forall i | 0 <= i < |chain.Active()| ensures chain.Active()[i].number == i {
      CanonicalStored(chain.bodies, chain.canonical, chain.height, i);
    }
  }
}
