/** Blocks, their weight and work, the tie-break between candidates, and histories of choices. */
module ForkChoice {
  import opened Wrappers

  /** A 32-byte hash as the number it denotes: byte order and numeric order agree. Zero is the empty hash. */
  type Hash = nat

  /** The header fields fork choice reads. An encoded difficulty is absent or not negative. */
  datatype RawBlock = RawBlock(hash: Hash, parentHash: Hash, number: nat, difficulty: Option<nat>, time: nat,
                               mixDigest: Hash)
  type Block = b: RawBlock | b.hash != 0 witness RawBlock(1, 0, 0, None, 0, 0)

  // ---------- the tie-break ----------

  function NormalizedDifficulty(difficulty: Option<nat>): nat {
    match difficulty case None => 0 case Some(d) => d
  }

  /** The proof digest, or the block hash when the digest is empty. */
  function ProofQualityHash(b: Block): Hash {
    if b.mixDigest != 0 then b.mixDigest else b.hash
  }

  predicate IsBetter(new_: Block, current: Block) {
    var newDifficulty := NormalizedDifficulty(new_.difficulty);
    var currentDifficulty := NormalizedDifficulty(current.difficulty);
    if newDifficulty != currentDifficulty then newDifficulty > currentDifficulty
    else if ProofQualityHash(new_) != ProofQualityHash(current) then ProofQualityHash(new_) < ProofQualityHash(current)
    else if new_.time != current.time then new_.time < current.time
    else new_.hash < current.hash
  }

  // The same order on the header fields alone.

  /** `a` claims at least the difficulty of `c`; none and zero are equally little. */
  predicate AsHard(a: Block, c: Block) {
    match c.difficulty
    case None => true
    case Some(d) => d == 0 || (a.difficulty.Some? && a.difficulty.value >= d)
  }

  /** The proof of `a` is at most that of `c`: the digest, or the block's own hash in place of an empty digest. */
  predicate ProvesAsWell(a: Block, c: Block) {
    (if a.mixDigest == 0 then a.hash else a.mixDigest) <= (if c.mixDigest == 0 then c.hash else c.mixDigest)
  }

  /**
   * The block has the greatest difficulty of all; among those of that difficulty the least proof; among those
   * the earliest time; among those the least hash.
   */
  ghost predicate Leads(best: Block, candidates: seq<Block>) {
    && best in candidates
    && (forall c :: c in candidates ==> AsHard(best, c))
    && (forall c :: c in candidates && AsHard(c, best) ==> ProvesAsWell(best, c))
    && (forall c :: c in candidates && AsHard(c, best) && ProvesAsWell(c, best) ==> best.time <= c.time)
    && (forall c :: c in candidates && AsHard(c, best) && ProvesAsWell(c, best) && c.time <= best.time ==>
          best.hash <= c.hash)
  }

  /** What the tie-break compares, and in which order. */
  lemma BetterByFields(a: Block, c: Block)
    ensures IsBetter(a, c) <==>
              AsHard(a, c) && (AsHard(c, a) ==>
                ProvesAsWell(a, c) && (ProvesAsWell(c, a) ==>
                  a.time <= c.time && (a.time == c.time ==> a.hash < c.hash)))
  {
  }

  /** isBetterBlockCandidate: a nil block neither wins nor is replaced. */
  predicate IsBetterBlockCandidate(new_: Option<Block>, current: Option<Block>) {
    new_.Some? && current.Some? && IsBetter(new_.value, current.value)
  }

  /** The tie-break is a strict order, total on blocks with distinct hashes. */
  lemma TieBreakIsStrictTotalOrder(a: Block, b: Block, c: Block)
    ensures !IsBetter(a, a)
    ensures IsBetter(a, b) ==> !IsBetter(b, a)
    ensures IsBetter(a, b) && IsBetter(b, c) ==> IsBetter(a, c)
    ensures a.hash != b.hash ==> IsBetter(a, b) || IsBetter(b, a)
  {
  }

  /** What a peer holds after receiving the candidates in this order. */
  function Best(candidates: seq<Block>): Block
    requires candidates != []
  {
    var n := |candidates| - 1;
    if n == 0 then candidates[0]
    else
      var held := Best(candidates[..n]);
      if IsBetter(candidates[n], held) then candidates[n] else held
  }

  method PickBest(candidates: seq<Block>) returns (best: Block)
    requires candidates != []
    ensures best == Best(candidates) && Leads(best, candidates)
    ensures forall c :: c in candidates ==> !IsBetter(c, best)
  {
    best := candidates[0];
    for i := 1 to |candidates|
      invariant best == Best(candidates[..i])
    {
      assert candidates[..i + 1][..i] == candidates[..i];
      if IsBetterBlockCandidate(Some(candidates[i]), Some(best)) {
        best := candidates[i];
      }
    }
    assert candidates[..|candidates|] == candidates;
    BestIsUnbeaten(candidates);
    UnbeatenLeads(candidates);
  }

  /** The block kept is the one the header fields single out. */
  lemma UnbeatenLeads(candidates: seq<Block>)
    requires candidates != []
    ensures Leads(Best(candidates), candidates)
  {
    BestIsUnbeaten(candidates);
    forall c | c in candidates ensures !IsBetter(c, Best(candidates)) {
      BetterByFields(c, Best(candidates));
    }
  }

  lemma {:induction false} BestIsUnbeaten(candidates: seq<Block>)
    requires candidates != []
    ensures Best(candidates) in candidates
    ensures forall c :: c in candidates ==> !IsBetter(c, Best(candidates))
  {
    var n := |candidates| - 1;
    if n > 0 {
      var front, last := candidates[..n], candidates[n];
      BestIsUnbeaten(front);
      forall c | c in candidates ensures !IsBetter(c, Best(candidates)) {
        assert c == last || c in front;
        TieBreakIsStrictTotalOrder(c, last, Best(front));
        TieBreakIsStrictTotalOrder(last, Best(front), c);
      }
    }
  }

  /** Peers that saw the same candidates, in any order and any number of times, hold the same block. */
  lemma GossipOrderIrrelevant(xs: seq<Block>, ys: seq<Block>)
    requires xs != [] && ys != [] && forall b: Block :: b in xs <==> b in ys
    requires forall a: Block, b: Block :: a in xs && b in xs && a.hash == b.hash ==> a == b
    ensures Best(xs) == Best(ys)
  {
    BestIsUnbeaten(xs);
    BestIsUnbeaten(ys);
    TieBreakIsStrictTotalOrder(Best(xs), Best(ys), Best(xs));
  }

  // ---------- work and weight ----------

  /** CalculateBlockWork: at least one per block. */
  function CalculateBlockWork(difficulty: Option<nat>): (work: nat)
    ensures work >= 1
  {
    match difficulty case None => 1 case Some(d) => if d == 0 then 1 else d
  }

  function ChainWork(chain: seq<Block>): nat {
    if chain == [] then 0
    else ChainWork(chain[..|chain| - 1]) + CalculateBlockWork(chain[|chain| - 1].difficulty)
  }

  /** The weight used by InsertChain counts a missing difficulty as zero. */
  function ChainWeight(chain: seq<Block>): nat {
    if chain == [] then 0
    else ChainWeight(chain[..|chain| - 1]) + NormalizedDifficulty(chain[|chain| - 1].difficulty)
  }

  lemma {:induction false} WorkAndWeightAdd(a: seq<Block>, b: seq<Block>)
    ensures ChainWork(a + b) == ChainWork(a) + ChainWork(b)
    ensures ChainWeight(a + b) == ChainWeight(a) + ChainWeight(b)
  {
    if b == [] {
      assert a + b == a;
    } else {
      WorkAndWeightAdd(a, b[..|b| - 1]);
      assert (a + b)[..|a + b| - 1] == a + b[..|b| - 1];
    }
  }

  /** Above a common prefix, comparing the two suffixes decides the whole chains. */
  lemma SuffixDecides(prefix: seq<Block>, a: seq<Block>, b: seq<Block>)
    ensures ChainWork(prefix + a) > ChainWork(prefix + b) <==> ChainWork(a) > ChainWork(b)
    ensures ChainWeight(prefix + a) > ChainWeight(prefix + b) <==> ChainWeight(a) > ChainWeight(b)
    ensures ChainWeight(prefix + a) == ChainWeight(prefix + b) <==> ChainWeight(a) == ChainWeight(b)
  {
    WorkAndWeightAdd(prefix, a);
    WorkAndWeightAdd(prefix, b);
  }

  // ---------- what work and weight count ----------

  function WithDifficulty(chain: seq<Block>, i: nat, difficulty: Option<nat>): seq<Block>
    requires i < |chain|
  {
    chain[i := chain[i].(difficulty := difficulty)]
  }

  lemma OneBlock(b: Block)
    ensures ChainWork([b]) == CalculateBlockWork(b.difficulty)
    ensures ChainWeight([b]) == NormalizedDifficulty(b.difficulty)
  {
    assert [b][..0] == [];
  }

  /** A chain's work and weight with one block set apart. */
  lemma SetApart(chain: seq<Block>, i: nat, difficulty: Option<nat>)
    requires i < |chain|
    ensures var changed, rest := WithDifficulty(chain, i, difficulty), chain[..i] + chain[i + 1..];
            && ChainWork(changed) == ChainWork(rest) + CalculateBlockWork(difficulty)
            && ChainWeight(changed) == ChainWeight(rest) + NormalizedDifficulty(difficulty)
  {
    var b: Block := chain[i].(difficulty := difficulty);
    var front, back := chain[..i], chain[i + 1..];
    assert WithDifficulty(chain, i, difficulty) == front + [b] + back;
    WorkAndWeightAdd(front + [b], back);
    WorkAndWeightAdd(front, [b]);
    WorkAndWeightAdd(front, back);
    OneBlock(b);
  }

  /** One unit more of difficulty, anywhere in a chain, is one unit more of work and of weight. */
  lemma OneUnitMore(chain: seq<Block>, i: nat, d: nat)
    requires i < |chain|
    ensures d >= 1 ==>
              ChainWork(WithDifficulty(chain, i, Some(d + 1))) == ChainWork(WithDifficulty(chain, i, Some(d))) + 1
    ensures ChainWeight(WithDifficulty(chain, i, Some(d + 1))) == ChainWeight(WithDifficulty(chain, i, Some(d))) + 1
  {
    SetApart(chain, i, Some(d));
    SetApart(chain, i, Some(d + 1));
  }

  /** No difficulty and zero difficulty count as one in the work, and as none in the weight. */
  lemma LittleDifficulty(chain: seq<Block>, i: nat)
    requires i < |chain|
    ensures ChainWork(WithDifficulty(chain, i, None)) == ChainWork(WithDifficulty(chain, i, Some(0))) ==
              ChainWork(WithDifficulty(chain, i, Some(1)))
    ensures ChainWeight(WithDifficulty(chain, i, None)) == ChainWeight(WithDifficulty(chain, i, Some(0)))
  {
    SetApart(chain, i, None);
    SetApart(chain, i, Some(0));
    SetApart(chain, i, Some(1));
  }

  /** A chain without difficulties has one unit of work for each block and no weight. */
  lemma {:induction false} NoDifficulties(chain: seq<Block>)
    requires forall i :: 0 <= i < |chain| ==> chain[i].difficulty == None
    ensures ChainWork(chain) == |chain| && ChainWeight(chain) == 0
  {
    if chain != [] {
      NoDifficulties(chain[..|chain| - 1]);
    }
  }

  // ---------- histories ----------

  predicate StaysOrImproves<T(==)>(improves: (T, T) -> bool, before: T, after: T) {
    after == before || improves(before, after)
  }

  /** Each entry equals the one before it or improves on it. */
  ghost predicate Progress<T(!new)>(improves: (T, T) -> bool, history: seq<T>) {
    forall i, j {:trigger StaysOrImproves(improves, history[i], history[j])} :: 0 <= i && j == i + 1 < |history| ==>
      StaysOrImproves(improves, history[i], history[j])
  }

  ghost predicate StrictOrder<T(!new)>(improves: (T, T) -> bool) {
    && (forall a :: !improves(a, a))
    && forall a, b, c :: improves(a, b) && improves(b, c) ==> improves(a, c)
  }

  lemma {:induction false} ProgressAccumulates<T(!new)>(improves: (T, T) -> bool, history: seq<T>, i: nat, j: nat)
    requires StrictOrder(improves) && Progress(improves, history) && i <= j < |history|
    ensures history[i] == history[j] || improves(history[i], history[j])
  {
    if i < j {
      ProgressAccumulates(improves, history, i, j - 1);
      assert StaysOrImproves(improves, history[j - 1], history[j]);
    }
  }

  /** What has once been left is never taken up again. */
  lemma NeverReadopted<T(!new)>(improves: (T, T) -> bool, history: seq<T>, i: nat, j: nat, k: nat)
    requires StrictOrder(improves) && Progress(improves, history)
    requires i <= j <= k < |history| && history[i] != history[j]
    ensures history[k] != history[i]
  {
    ProgressAccumulates(improves, history, i, j);
    ProgressAccumulates(improves, history, j, k);
  }

  /** No entry of the history comes back after it has been left. */
  ghost predicate NeverReturns<T>(history: seq<T>) {
    forall i, j, k :: 0 <= i <= j <= k < |history| && history[i] != history[j] ==> history[k] != history[i]
  }

  lemma ProgressNeverReturns<T(!new)>(improves: (T, T) -> bool, history: seq<T>)
    requires StrictOrder(improves) && Progress(improves, history)
    ensures NeverReturns(history)
  {
    forall i, j, k | 0 <= i <= j <= k < |history| && history[i] != history[j]
      ensures history[k] != history[i]
    {
      NeverReadopted(improves, history, i, j, k);
    }
  }

  /** More total work. */
  predicate MoreWork(old_: seq<Block>, new_: seq<Block>) {
    ChainWork(old_) < ChainWork(new_)
  }

  /** More weight; at equal weight a longer chain; at equal weight and length a better tip. */
  predicate Outranks(old_: seq<Block>, new_: seq<Block>) {
    if ChainWeight(old_) != ChainWeight(new_) then ChainWeight(old_) < ChainWeight(new_)
    else if |old_| != |new_| then |old_| < |new_|
    else old_ != [] && IsBetter(new_[|new_| - 1], old_[|old_| - 1])
  }

  lemma RankingsAreStrict()
    ensures StrictOrder(MoreWork) && StrictOrder(Outranks)
  {
    forall a, b, c | Outranks(a, b) && Outranks(b, c) ensures Outranks(a, c) {
      if |a| == |b| == |c| && a != [] {
        TieBreakIsStrictTotalOrder(c[|c| - 1], b[|b| - 1], a[|a| - 1]);
      }
    }
    forall a ensures !Outranks(a, a) {
      if a != [] {
        TieBreakIsStrictTotalOrder(a[|a| - 1], a[|a| - 1], a[|a| - 1]);
      }
    }
  }
}
