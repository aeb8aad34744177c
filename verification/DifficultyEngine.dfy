/** The incremental difficulty engine, the recomputation from chain timestamps, and runs of both. */
module DifficultyEngine {
  import opened Bytes
  import opened Difficulty
  import opened DifficultyLaws

  datatype Header = Header(time: nat, difficulty: int, coinbase: Address)

  // A chain lists headers from genesis on, so the index of a header is its height.

  function Stamps(chain: seq<Header>): (r: seq<nat>)
    ensures |r| == |chain|
  {
    seq(|chain|, i requires 0 <= i < |chain| => chain[i].time)
  }

  // ---------- recomputation from the chain ----------

  function WindowTimestamps(chain: seq<Header>, candidateTime: nat): seq<nat> {
    Stamps(Last(chain, ADJUSTMENT_WINDOW)) + [candidateTime]
  }

  /** Walks back from the parent, the last header of `chain`, then lists the times oldest first. */
  method CollectDifficultyTimestamps(chain: seq<Header>, candidateTime: nat) returns (timestamps: seq<nat>)
    requires chain != []
    ensures timestamps == WindowTimestamps(chain, candidateTime)
  {
    var blocks := [];
    var curr := |chain| - 1;
    while |blocks| < ADJUSTMENT_WINDOW
      invariant 0 <= curr < |chain|
      invariant |blocks| == |chain| - 1 - curr
      invariant |blocks| <= ADJUSTMENT_WINDOW
      invariant forall i :: 0 <= i < |blocks| ==> blocks[i] == chain[|chain| - 1 - i]
    {
      blocks := blocks + [chain[curr]];
      if curr == 0 {
        break;
      }
      curr := curr - 1;
    }
    timestamps := [];
    var i := |blocks|;
    while i > 0
      invariant 0 <= i <= |blocks|
      invariant |timestamps| == |blocks| - i
      invariant forall k :: 0 <= k < |timestamps| ==> timestamps[k] == blocks[|blocks| - 1 - k].time
    {
      i := i - 1;
      timestamps := timestamps + [blocks[i].time];
    }
    assert timestamps == Stamps(Last(chain, ADJUSTMENT_WINDOW));
    timestamps := timestamps + [candidateTime];
  }

  ghost function ExpectedBase(chain: seq<Header>, time: nat): int
    requires chain != []
  {
    NextDifficulty(chain[|chain| - 1].difficulty, |chain|, WindowTimestamps(chain, time))
  }

  ghost function ExpectedDifficulty(chain: seq<Header>, time: nat, miner: Address): int
    requires chain != []
  {
    ForMiner(ExpectedBase(chain, time), miner)
  }

  ghost predicate AcceptedAt(chain: seq<Header>, h: nat)
    requires 1 <= h < |chain|
  {
    chain[h].difficulty == ExpectedDifficulty(chain[..h], chain[h].time, chain[h].coinbase)
  }

  /** Every block after genesis carries the expected difficulty. */
  ghost predicate Accepted(chain: seq<Header>) {
    && chain != []
    && forall h {:trigger AcceptedAt(chain, h)} :: 1 <= h < |chain| ==> AcceptedAt(chain, h)
  }

  /** The chain that offered blocks build: each one that carries what the chain so far prescribes is added. */
  ghost function Imported(chain: seq<Header>, blocks: seq<Header>): (longer: seq<Header>)
    requires chain != []
    ensures chain <= longer
  {
    if blocks == [] then chain
    else
      var b := blocks[|blocks| - 1];
      var front := Imported(chain, blocks[..|blocks| - 1]);
      if b.difficulty == ExpectedDifficulty(front, b.time, b.coinbase) then front + [b] else front
  }

  lemma AcceptedPrefix(chain: seq<Header>, n: nat)
    requires Accepted(chain) && 1 <= n <= |chain|
    ensures Accepted(chain[..n])
  {
    forall h | 1 <= h < n
      ensures AcceptedAt(chain[..n], h)
    {
      assert AcceptedAt(chain, h);
      assert chain[..n][..h] == chain[..h];
    }
  }

  // ---------- the engine ----------

  datatype Engine = Engine(difficulty: int, window: seq<nat>)

  function Push(window: seq<nat>, delta: nat): seq<nat> {
    Last(window + [delta], ADJUSTMENT_WINDOW)
  }

  /** One validated block: AdjustDifficulty followed by SetDifficulty. */
  ghost function EngineStep(e: Engine, height: nat, parentTime: nat, time: nat): Engine {
    var window := Push(e.window, ElapsedBlockTime(parentTime, time));
    Engine(Normalize(NextDifficulty(e.difficulty, height, StampsOf(window))), window)
  }

  function Sum(s: seq<nat>): nat {
    if s == [] then 0 else Sum(s[..|s| - 1]) + s[|s| - 1]
  }

  function Average(s: seq<nat>): real {
    if s == [] then 0.0 else Sum(s) as real / |s| as real
  }

  /** One more entry adds itself to the average times the count. */
  lemma AverageGrows(s: seq<nat>, d: nat)
    ensures Average(s + [d]) * (|s| + 1) as real == Average(s) * |s| as real + d as real
  {
    assert (s + [d])[..|s|] == s;
    if s != [] {
      assert Average(s) * |s| as real == Sum(s) as real;
    }
    assert Average(s + [d]) * (|s| + 1) as real == Sum(s + [d]) as real;
  }

  method AverageOf(s: seq<nat>) returns (r: real)
    requires s != []
    ensures r == Average(s)
  {
    var total := 0;
    for i := 0 to |s|
      invariant total == Sum(s[..i])
    {
      total := total + s[i];
      assert s[..i + 1][..i] == s[..i];
    }
    assert s[..|s|] == s;
    r := total as real / |s| as real;
  }

  class PoW {
    var difficulty: int
    var blockTimes: seq<nat>
    var averageBlockTime: real
    var lastAdjustment: nat

    ghost function View(): Engine
      reads this
    {
      Engine(difficulty, blockTimes)
    }

    constructor ()
      ensures View() == Engine(BASE_DIFFICULTY, [])
      ensures averageBlockTime == BLOCK_TIME_TARGET as real && lastAdjustment == 0
    {
      difficulty := BASE_DIFFICULTY;
      blockTimes := [];
      averageBlockTime := BLOCK_TIME_TARGET as real;
      lastAdjustment := 0;
    }

    method SetDifficulty(diff: int)
      modifies this`difficulty
      ensures difficulty == Normalize(diff)
    {
      difficulty := Normalize(diff);
    }

    /** Predicts the next base difficulty without touching the engine. */
    method CalculateExpectedDifficulty(height: nat, parentTime: nat, currentTime: nat) returns (r: int)
      requires |blockTimes| <= ADJUSTMENT_WINDOW
      ensures r == NextDifficulty(difficulty, height,
                                  StampsOf(Push(blockTimes, ElapsedBlockTime(parentTime, currentTime))))
    {
      var window := blockTimes + [ElapsedBlockTime(parentTime, currentTime)];
      if |window| > ADJUSTMENT_WINDOW {
        window := window[1..];
      }
      var stamps := TimestampsFromDeltas(window);
      r := CalculateDifficulty(difficulty, height, stamps);
    }

    method AdjustDifficulty(height: nat, parentTime: nat, currentTime: nat) returns (adjusted: int)
      requires |blockTimes| <= ADJUSTMENT_WINDOW
      modifies this
      ensures blockTimes == Push(old(blockTimes), ElapsedBlockTime(parentTime, currentTime))
      ensures adjusted == difficulty == NextDifficulty(old(difficulty), height, StampsOf(blockTimes))
      ensures difficulty == old(difficulty) ==>
                averageBlockTime == old(averageBlockTime) && lastAdjustment == old(lastAdjustment)
      ensures difficulty != old(difficulty) ==>
                averageBlockTime == Average(blockTimes) && lastAdjustment == height
    {
      blockTimes := blockTimes + [ElapsedBlockTime(parentTime, currentTime)];
      if |blockTimes| > ADJUSTMENT_WINDOW {
        blockTimes := blockTimes[1..];
      }
      var stamps := TimestampsFromDeltas(blockTimes);
      adjusted := CalculateDifficulty(difficulty, height, stamps);
      if adjusted == difficulty {
        return;
      }
      averageBlockTime := AverageOf(blockTimes);
      difficulty := adjusted;
      lastAdjustment := height;
    }

    /**
     * The difficulty part of block validation: the block must carry what the chain prescribes,
     * and an accepted block then moves the engine. A rejected one leaves it alone.
     */
    method ImportBlock(chain: seq<Header>, b: Header) returns (ok: bool)
      requires chain != [] && |blockTimes| <= ADJUSTMENT_WINDOW
      modifies this
      ensures ok <==> b.difficulty == ExpectedDifficulty(chain, b.time, b.coinbase)
      ensures View() == if ok
                        then EngineStep(old(View()), |chain|, chain[|chain| - 1].time, b.time)
                        else old(View())
    {
      var parent := chain[|chain| - 1];
      var window := CollectDifficultyTimestamps(chain, b.time);
      var base := CalculateDifficulty(parent.difficulty, |chain|, window);
      ok := b.difficulty == ForMiner(base, b.coinbase);
      if ok {
        var adjusted := AdjustDifficulty(|chain|, parent.time, b.time);
        SetDifficulty(adjusted);
      }
    }

    /** A whole run from genesis: the engine is seeded once and follows every accepted block. */
    method ImportAll(genesis: Header, blocks: seq<Header>) returns (chain: seq<Header>)
      requires genesis.difficulty <= MAX_DIFFICULTY
      modifies this
      ensures chain == Imported([genesis], blocks) && Accepted(chain) && chain[0] == genesis
      ensures View() == Engine(Normalize(chain[|chain| - 1].difficulty), ChainWindow(chain))
    {
      SetDifficulty(genesis.difficulty);
      blockTimes := [];
      chain := [genesis];
      assert ChainWindow(chain) == [];
      for i := 0 to |blocks|
        invariant chain == Imported([genesis], blocks[..i]) && Accepted(chain) && chain[0] == genesis
        invariant View() == EngineAfter(chain)
        invariant |blockTimes| <= ADJUSTMENT_WINDOW
      {
        ImportedSnoc(genesis, blocks, i);
        var ok := ImportBlock(chain, blocks[i]);
        if ok {
          AcceptedExtends(chain, blocks[i]);
          EngineAfterSnoc(chain, blocks[i]);
          chain := chain + [blocks[i]];
        }
      }
      assert blocks[..|blocks|] == blocks;
      EngineTracksChain(chain);
    }
  }

  lemma ImportedSnoc(genesis: Header, blocks: seq<Header>, i: nat)
    requires i < |blocks|
    ensures var front, b := Imported([genesis], blocks[..i]), blocks[i];
            Imported([genesis], blocks[..i + 1]) ==
              if b.difficulty == ExpectedDifficulty(front, b.time, b.coinbase) then front + [b] else front
  {
    assert blocks[..i + 1][..i] == blocks[..i];
  }

  lemma EngineAfterSnoc(chain: seq<Header>, b: Header)
    requires chain != []
    ensures EngineAfter(chain + [b]) == EngineStep(EngineAfter(chain), |chain|, chain[|chain| - 1].time, b.time)
  {
    assert (chain + [b])[..|chain|] == chain;
  }

  lemma AcceptedExtends(chain: seq<Header>, b: Header)
    requires Accepted(chain) && b.difficulty == ExpectedDifficulty(chain, b.time, b.coinbase)
    ensures Accepted(chain + [b])
  {
    var longer := chain + [b];
    forall h | 1 <= h < |longer|
      ensures AcceptedAt(longer, h)
    {
      assert longer[..h] == chain[..h];
      if h == |chain| {
        assert chain[..h] == chain;
      } else {
        assert AcceptedAt(chain, h);
      }
    }
  }

  // ---------- the engine refines the recomputation ----------

  /** The last sixty intervals of a chain. */
  function ChainWindow(chain: seq<Header>): seq<nat> {
    Last(Intervals(Stamps(chain)), ADJUSTMENT_WINDOW)
  }

  /** The engine after a run, seeded with the genesis difficulty. */
  ghost function EngineAfter(chain: seq<Header>): Engine
    requires chain != []
  {
    var h := |chain| - 1;
    if h == 0 then Engine(Normalize(chain[0].difficulty), [])
    else EngineStep(EngineAfter(chain[..h]), h, chain[h - 1].time, chain[h].time)
  }

  lemma LastSnoc<T>(s: seq<T>, x: T, n: nat)
    requires n >= 1
    ensures Last(s + [x], n) == Last(Last(s, n) + [x], n)
  {
  }

  lemma WindowSnoc(chain: seq<Header>, b: Header)
    requires chain != []
    ensures ChainWindow(chain + [b]) == Push(ChainWindow(chain), ElapsedBlockTime(chain[|chain| - 1].time, b.time))
    ensures Intervals(WindowTimestamps(chain, b.time)) == ChainWindow(chain + [b])
  {
    var s := Intervals(Stamps(chain));
    var d := ElapsedBlockTime(chain[|chain| - 1].time, b.time);
    assert Intervals(Stamps(chain + [b])) == s + [d];
    LastSnoc(s, d, ADJUSTMENT_WINDOW);
    assert WindowTimestamps(chain, b.time) == Last(Stamps(chain + [b]), ADJUSTMENT_WINDOW + 1);
    IntervalsOfLast(Stamps(chain + [b]), ADJUSTMENT_WINDOW + 1);
  }

  /** Windows with the same intervals, and bases with the same normal form, retarget alike. */
  lemma SameIntervalsSameResult(p: int, p': int, height: nat, ts: seq<nat>, ts': seq<nat>)
    requires Intervals(ts) == Intervals(ts') && |ts| == |ts'|
    requires height > 0 && SufficientWindow(height, ts) && Normalize(p) == Normalize(p')
    ensures NextDifficulty(p, height, ts) == NextDifficulty(p', height, ts')
  {
    SlowerNeverHarder(p, height, ts, ts');
    SlowerNeverHarder(p, height, ts', ts);
  }

  /** What the engine predicts from its own window is what validation recomputes from the chain. */
  lemma PredictionIsExpected(chain: seq<Header>, time: nat)
    requires chain != []
    ensures var e := Engine(Normalize(chain[|chain| - 1].difficulty), ChainWindow(chain));
            Normalize(e.difficulty) == e.difficulty ==>
              NextDifficulty(e.difficulty, |chain|,
                StampsOf(Push(e.window, ElapsedBlockTime(chain[|chain| - 1].time, time)))) == ExpectedBase(chain, time)
  {
    var b := Header(time, 0, chain[0].coinbase);
    var window := ChainWindow(chain + [b]);
    WindowSnoc(chain, b);
    StampsKeepIntervals(window);
    var ts, ts' := WindowTimestamps(chain, time), StampsOf(window);
    var p := Normalize(chain[|chain| - 1].difficulty);
    if Normalize(p) == p {
      SameIntervalsSameResult(chain[|chain| - 1].difficulty, p, |chain|, ts, ts');
    }
  }

  lemma TipNormalForm(chain: seq<Header>, b: Header)
    requires chain != [] && b.difficulty == ExpectedDifficulty(chain, b.time, b.coinbase)
    ensures Normalize(b.difficulty) == Normalize(ExpectedBase(chain, b.time)) < MINER_DOMAIN
    ensures MIN_DIFFICULTY <= ExpectedBase(chain, b.time)
  {
    var base := ExpectedBase(chain, b.time);
    SuffixStrips(base, b.coinbase);
    NextDifficultyLaws(chain[|chain| - 1].difficulty, |chain|, WindowTimestamps(chain, b.time));
    NormalizeIdempotent(base);
  }

  /**
   * On every run from genesis the engine's difficulty is the normalised difficulty of the tip and
   * its window holds exactly the intervals the chain recomputation would gather.
   */
  lemma {:induction false} EngineTracksChain(chain: seq<Header>)
    requires Accepted(chain) && chain[0].difficulty <= MAX_DIFFICULTY
    ensures EngineAfter(chain) == Engine(Normalize(chain[|chain| - 1].difficulty), ChainWindow(chain))
    ensures Normalize(chain[|chain| - 1].difficulty) < MINER_DOMAIN
  {
    var h := |chain| - 1;
    if h == 0 {
      NormalizeIdempotent(chain[0].difficulty);
    } else {
      var prefix, b := chain[..h], chain[h];
      assert chain == prefix + [b];
      AcceptedPrefix(chain, h);
      EngineTracksChain(prefix);
      WindowSnoc(prefix, b);
      NormalizeIdempotent(prefix[h - 1].difficulty);
      PredictionIsExpected(prefix, b.time);
      assert AcceptedAt(chain, h);
      TipNormalForm(prefix, b);
    }
  }

  // ---------- bound on accepted chains ----------

  predicate PacedAt(chain: seq<Header>, h: nat)
    requires 1 <= h < |chain|
  {
    chain[h].time >= chain[h - 1].time + BLOCK_TIME_TARGET
  }

  /** Every block keeps the 150-second minimum to its parent. */
  ghost predicate Paced(chain: seq<Header>) {
    forall h {:trigger PacedAt(chain, h)} :: 1 <= h < |chain| ==> PacedAt(chain, h)
  }

  /** A spacing of exactly 150 seconds is enough. */
  lemma ExactSpacingIsPaced(chain: seq<Header>)
    requires forall h {:trigger chain[h]} :: 1 <= h < |chain| ==> chain[h].time == chain[h - 1].time + 150
    ensures Paced(chain)
  {
  }

  lemma PacedPrefix(chain: seq<Header>, n: nat)
    requires Paced(chain) && n <= |chain|
    ensures Paced(chain[..n])
  {
    forall k | 1 <= k < n
      ensures PacedAt(chain[..n], k)
    {
      assert PacedAt(chain, k);
    }
  }

  function Base(chain: seq<Header>, h: nat): int
    requires h < |chain|
  {
    Normalize(chain[h].difficulty)
  }

  /** The intervals that decide the difficulty of the last header: the last 23, or all if fewer. */
  function UsedIntervals(chain: seq<Header>): seq<nat> {
    Last(Intervals(Stamps(chain)), DGW_WINDOW - 1)
  }

  ghost predicate AllOnTarget(s: seq<nat>) {
    forall i :: 0 <= i < |s| ==> s[i] == BLOCK_TIME_TARGET
  }

  lemma {:induction false} TotalAtLeastTarget(s: seq<nat>)
    requires forall i :: 0 <= i < |s| ==> s[i] >= BLOCK_TIME_TARGET
    ensures TotalTime(s) >= BLOCK_TIME_TARGET * |s|
    ensures TotalTime(s) == BLOCK_TIME_TARGET * |s| ==> AllOnTarget(s)
  {
    if s != [] {
      TotalAtLeastTarget(s[..|s| - 1]);
    }
  }

  lemma MeanAtLeastTarget(s: seq<nat>)
    requires s != [] && forall i :: 0 <= i < |s| ==> s[i] >= BLOCK_TIME_TARGET
    ensures Mean(s) >= BLOCK_TIME_TARGET as real
    ensures Mean(s) == BLOCK_TIME_TARGET as real ==> AllOnTarget(s)
  {
    TotalAtLeastTarget(s);
    var n := |s| as real;
    assert Mean(s) * n == TotalTime(s) as real;
    SignOfFactor(Mean(s) - BLOCK_TIME_TARGET as real, n);
  }

  /** Slow enough blocks raise the difficulty by at most one, and only at an average of exactly 150. */
  lemma RetargetOnPacedBlocks(cur: int, avg: real)
    requires MIN_DIFFICULTY <= cur <= MAX_DIFFICULTY && avg >= BLOCK_TIME_TARGET as real
    ensures Retarget(cur, avg) <= cur + 1
    ensures Retarget(cur, avg) > cur ==> avg == BLOCK_TIME_TARGET as real
  {
    if avg == BLOCK_TIME_TARGET as real {
      assert Ratio(avg) == 1.0;
      assert Scale(cur, 1.0) == cur;
    } else {
      RatioSide(avg);
      ScaleBounds(cur, Ratio(avg));
    }
  }

  lemma PacedIntervals(chain: seq<Header>)
    requires Paced(chain)
    ensures forall i :: 0 <= i < |UsedIntervals(chain)| ==> UsedIntervals(chain)[i] >= BLOCK_TIME_TARGET
  {
    var s := Intervals(Stamps(chain));
    forall i | 0 <= i < |s| ensures s[i] >= BLOCK_TIME_TARGET {
      assert PacedAt(chain, i + 1);
    }
  }

  /** The averaging window of the consensus path never reaches the weighted calculator. */
  lemma AverageOfChain(chain: seq<Header>, b: Header)
    requires chain != []
    ensures var ts := WindowTimestamps(chain, b.time);
            SufficientWindow(|chain|, ts) && AverageTime(|chain|, ts) == Mean(UsedIntervals(chain + [b]))
  {
    var ts := WindowTimestamps(chain, b.time);
    WindowSnoc(chain, b);
    IntervalsOfLast(ts, DGW_WINDOW);
    var s := Intervals(Stamps(chain + [b]));
    assert Last(Last(s, ADJUSTMENT_WINDOW), DGW_WINDOW - 1) == Last(s, DGW_WINDOW - 1);
    if |chain| < DGW_WINDOW {
      assert UsedIntervals(chain + [b]) == Intervals(ts);
    }
  }

  /** The base of the tip is at most the retarget of its parent's base over the used intervals. */
  lemma TipRetarget(chain: seq<Header>)
    requires |chain| >= 2 && Accepted(chain)
    ensures UsedIntervals(chain) != []
    ensures var h := |chain| - 1;
            Base(chain, h) <= Retarget(Base(chain, h - 1), Mean(UsedIntervals(chain)))
  {
    var h := |chain| - 1;
    var prefix, b := chain[..h], chain[h];
    assert prefix + [b] == chain;
    ExpectedIsRetarget(prefix, b);
    assert AcceptedAt(chain, h);
    TipNormalForm(prefix, b);
    NormalizeNeverRaises(ExpectedBase(prefix, b.time));
  }

  lemma ExpectedIsRetarget(chain: seq<Header>, b: Header)
    requires chain != []
    ensures UsedIntervals(chain + [b]) != []
    ensures ExpectedBase(chain, b.time) == Retarget(Base(chain, |chain| - 1), Mean(UsedIntervals(chain + [b])))
  {
    AverageOfChain(chain, b);
    assert |Intervals(Stamps(chain + [b]))| == |chain|;
  }

  lemma LastOfWindow(chain: seq<Header>, time: nat)
    requires chain != []
    ensures var w := WindowTimestamps(chain, time);
            && (|chain| < 24 ==> w == Stamps(chain) + [time])
            && (|chain| >= 24 ==> |w| >= 24 && w[|w| - 24..] == Stamps(chain[|chain| - 23..]) + [time])
  {
  }

  /** What validation expects, in whole numbers: from the last twenty-three times below the block, or all. */
  lemma ExpectedClosedForm(chain: seq<Header>, time: nat)
    requires chain != []
    ensures var below := if |chain| >= 24 then chain[|chain| - 23..] else chain;
            var ts := Stamps(below) + [time];
            Span(ts) > 0 && ExpectedBase(chain, time) == Retargeted(Base(chain, |chain| - 1), Span(ts), |ts| - 1)
  {
    LastOfWindow(chain, time);
    if |chain| >= 24 {
      WaveClosedForm(chain[|chain| - 1].difficulty, |chain|, WindowTimestamps(chain, time));
    } else {
      LowHeightClosedForm(chain[|chain| - 1].difficulty, |chain|, WindowTimestamps(chain, time));
    }
  }

  /** The last block of an accepted, paced chain: its base rises by at most one, and only on a
      window in which every interval is exactly 150. */
  lemma BaseStep(chain: seq<Header>)
    requires |chain| >= 2 && Accepted(chain) && Paced(chain)
    ensures var h := |chain| - 1;
            && Base(chain, h) <= Base(chain, h - 1) + 1
            && (Base(chain, h) > Base(chain, h - 1) ==> AllOnTarget(UsedIntervals(chain)))
  {
    TipRetarget(chain);
    PacedIntervals(chain);
    MeanAtLeastTarget(UsedIntervals(chain));
    RetargetOnPacedBlocks(Base(chain, |chain| - 2), Mean(UsedIntervals(chain)));
  }

  lemma NormalizeNeverRaises(v: int)
    requires v >= MIN_DIFFICULTY
    ensures Normalize(v) <= v
  {
    if v >= MINER_DOMAIN {
      assert v / MINER_DOMAIN <= v;
    }
  }

  /** On an accepted chain whose blocks keep the minimum spacing, base(h) <= base(0) + h. */
  lemma {:induction false} BaseGrowthBound(chain: seq<Header>)
    requires Accepted(chain) && Paced(chain)
    ensures Base(chain, |chain| - 1) <= Base(chain, 0) + (|chain| - 1)
  {
    var h := |chain| - 1;
    if h > 0 {
      AcceptedPrefix(chain, h);
      PacedPrefix(chain, h);
      BaseGrowthBound(chain[..h]);
      BaseStep(chain);
    }
  }

  // ---------- a restarted engine ----------

  /** What an engine predicts that is seeded from the tip but starts with an empty window, as after a restart. */
  ghost function RestartedPrediction(chain: seq<Header>, time: nat): int
    requires chain != []
  {
    var tip := chain[|chain| - 1];
    NextDifficulty(Normalize(tip.difficulty), |chain|, StampsOf(Push([], ElapsedBlockTime(tip.time, time))))
  }

  lemma RestartedWindow(d: nat)
    requires d >= 1
    ensures |StampsOf(Push([], d))| == 2 && Intervals(StampsOf(Push([], d))) == [d]
  {
    assert Push([], d) == [d];
    StampsKeepIntervals([d]);
  }

  /**
   * From 24 blocks on the restarted engine predicts no change, so it agrees with validation exactly where
   * validation demands none: at the least difficulty on slow blocks and at the greatest on fast ones.
   */
  lemma RestartedEngineAgreesIff(chain: seq<Header>, time: nat, miner: Address)
    requires |chain| >= DGW_WINDOW
    ensures var p := Normalize(chain[|chain| - 1].difficulty);
            var used := UsedIntervals(chain + [Header(time, 0, miner)]);
            && used != [] && RestartedPrediction(chain, time) == p
            && (RestartedPrediction(chain, time) == ExpectedBase(chain, time) <==>
                  (p == MIN_DIFFICULTY && Mean(used) > 75.0) ||
                  (p == MAX_DIFFICULTY && Mean(used) <= BLOCK_TIME_TARGET as real))
  {
    var tip, b := chain[|chain| - 1], Header(time, 0, miner);
    RestartedWindow(ElapsedBlockTime(tip.time, time));
    ExpectedIsRetarget(chain, b);
    RetargetIdleIff(Normalize(tip.difficulty), Mean(UsedIntervals(chain + [b])));
  }

  /**
   * Before that it retargets by the last interval alone where validation uses the mean of all. The two agree
   * on the first block, and never between the limits when the interval and the mean lie on different sides of 150.
   */
  lemma RestartedShortChain(chain: seq<Header>, time: nat, miner: Address)
    requires 1 <= |chain| < DGW_WINDOW && Normalize(chain[|chain| - 1].difficulty) < MINER_DOMAIN
    ensures var tip := chain[|chain| - 1];
            var p := Normalize(tip.difficulty);
            var last := ClampInterval(ElapsedBlockTime(tip.time, time)) as real;
            var used := UsedIntervals(chain + [Header(time, 0, miner)]);
            && used != []
            && RestartedPrediction(chain, time) == Retarget(p, last)
            && ExpectedBase(chain, time) == Retarget(p, Mean(used))
            && (|chain| == 1 ==> RestartedPrediction(chain, time) == ExpectedBase(chain, time))
            && (MIN_DIFFICULTY < p < MAX_DIFFICULTY &&
                (last <= BLOCK_TIME_TARGET as real <==> Mean(used) > BLOCK_TIME_TARGET as real)
                ==> RestartedPrediction(chain, time) != ExpectedBase(chain, time))
  {
    var tip, b := chain[|chain| - 1], Header(time, 0, miner);
    var p, d := Normalize(tip.difficulty), ElapsedBlockTime(tip.time, time);
    RestartedWindow(d);
    MeanOfOne(d);
    NormalizeIdempotent(tip.difficulty);
    ExpectedIsRetarget(chain, b);
    var used := UsedIntervals(chain + [b]);
    if |chain| == 1 {
      assert used == [d];
    }
    if MIN_DIFFICULTY < p < MAX_DIFFICULTY {
      RetargetDirection(p, ClampInterval(d) as real);
      RetargetDirection(p, Mean(used));
    }
  }

  lemma MeanOfOne(d: nat)
    ensures Mean([d]) == ClampInterval(d) as real
  {
    assert [d][..0] == [];
    assert TotalTime([d]) == ClampInterval(d);
  }

  // ---------- an engine across a reorganisation ----------

  // A revert takes blocks off the chain and leaves the engine as it was.

  /** The engine after `blocks` have been connected one by one on `chain`. */
  ghost function Followed(e: Engine, chain: seq<Header>, blocks: seq<Header>): Engine
    requires chain != []
  {
    if blocks == [] then e
    else
      var n := |blocks| - 1;
      var below := chain + blocks[..n];
      EngineStep(Followed(e, chain, blocks[..n]), |below|, below[|below| - 1].time, blocks[n].time)
  }

  predicate Positive(s: seq<nat>) {
    forall i :: 0 <= i < |s| ==> s[i] >= 1
  }

  /** What every window of an engine is: positive intervals, sixty at most. */
  predicate Sound(window: seq<nat>) {
    Positive(window) && |window| <= ADJUSTMENT_WINDOW
  }

  /** The intervals that, with the candidate's, decide the difficulty of the next block. */
  function Tail(window: seq<nat>): seq<nat> {
    Last(window, DGW_WINDOW - 2)
  }

  /** What the engine predicts for a block of the given time on `chain`. */
  ghost function Prediction(e: Engine, chain: seq<Header>, time: nat): int
    requires chain != []
  {
    NextDifficulty(e.difficulty, |chain|, StampsOf(Push(e.window, ElapsedBlockTime(chain[|chain| - 1].time, time))))
  }

  /** The engine has the tip's base and the chain's last intervals. */
  ghost predicate Tracks(e: Engine, chain: seq<Header>)
    requires chain != []
  {
    e.difficulty == Base(chain, |chain| - 1) && Tail(e.window) == Tail(Intervals(Stamps(chain)))
  }

  lemma TailSnoc(s: seq<nat>, d: nat)
    ensures Tail(Push(s, d)) == Tail(Tail(s) + [d])
    ensures Last(Push(s, d), DGW_WINDOW - 1) == Tail(s) + [d]
  {
  }

  lemma LongerByOne(chain: seq<Header>, blocks: seq<Header>)
    requires blocks != []
    ensures chain + blocks == chain + blocks[..|blocks| - 1] + [blocks[|blocks| - 1]]
  {
  }

  lemma IntervalsOfLonger(chain: seq<Header>, b: Header)
    requires chain != []
    ensures Intervals(Stamps(chain + [b])) ==
              Intervals(Stamps(chain)) + [ElapsedBlockTime(chain[|chain| - 1].time, b.time)]
  {
  }

  /** The window alone, after the intervals of the connected blocks were pushed. */
  function WindowAfter(w: seq<nat>, chain: seq<Header>, blocks: seq<Header>): seq<nat>
    requires chain != []
  {
    if blocks == [] then w
    else
      var n := |blocks| - 1;
      var below := chain + blocks[..n];
      Push(WindowAfter(w, chain, blocks[..n]), ElapsedBlockTime(below[|below| - 1].time, blocks[n].time))
  }

  lemma {:induction false} WindowOfFollowed(e: Engine, chain: seq<Header>, blocks: seq<Header>)
    requires chain != []
    ensures Followed(e, chain, blocks).window == WindowAfter(e.window, chain, blocks)
  {
    if blocks != [] {
      WindowOfFollowed(e, chain, blocks[..|blocks| - 1]);
    }
  }

  lemma {:induction false} WindowStaysPositive(w: seq<nat>, chain: seq<Header>, blocks: seq<Header>)
    requires chain != [] && Positive(w)
    ensures Positive(WindowAfter(w, chain, blocks))
  {
    if blocks != [] {
      WindowStaysPositive(w, chain, blocks[..|blocks| - 1]);
    }
  }

  /** The intervals that the connected blocks end. */
  function NewIntervals(chain: seq<Header>, blocks: seq<Header>): (r: seq<nat>)
    requires chain != []
    ensures |r| == |blocks|
  {
    if blocks == [] then []
    else
      var n := |blocks| - 1;
      var below := chain + blocks[..n];
      NewIntervals(chain, blocks[..n]) + [ElapsedBlockTime(below[|below| - 1].time, blocks[n].time)]
  }

  lemma {:induction false} WindowIsLast(w: seq<nat>, chain: seq<Header>, blocks: seq<Header>)
    requires chain != [] && |w| <= ADJUSTMENT_WINDOW
    ensures WindowAfter(w, chain, blocks) == Last(w + NewIntervals(chain, blocks), ADJUSTMENT_WINDOW)
  {
    if blocks == [] {
      assert w + [] == w;
    } else {
      var n := |blocks| - 1;
      var below := chain + blocks[..n];
      var d := ElapsedBlockTime(below[|below| - 1].time, blocks[n].time);
      var known := NewIntervals(chain, blocks[..n]);
      WindowIsLast(w, chain, blocks[..n]);
      LastSnoc(w + known, d, ADJUSTMENT_WINDOW);
      assert w + known + [d] == w + (known + [d]);
    }
  }

  lemma {:induction false} IntervalsSplit(chain: seq<Header>, blocks: seq<Header>)
    requires chain != []
    ensures Intervals(Stamps(chain + blocks)) == Intervals(Stamps(chain)) + NewIntervals(chain, blocks)
  {
    if blocks == [] {
      assert chain + blocks == chain;
      assert Intervals(Stamps(chain)) + [] == Intervals(Stamps(chain));
    } else {
      var n := |blocks| - 1;
      LongerByOne(chain, blocks);
      IntervalsSplit(chain, blocks[..n]);
      IntervalsOfLonger(chain + blocks[..n], blocks[n]);
    }
  }

  lemma LastOfSum(a: seq<nat>, b: seq<nat>, c: seq<nat>, k: nat)
    requires k <= |c| && k <= ADJUSTMENT_WINDOW
    ensures Last(Last(a + c, ADJUSTMENT_WINDOW), k) == Last(b + c, k)
    ensures |Last(a + c, ADJUSTMENT_WINDOW)| >= k
  {
    assert Last(a + c, k) == Last(c, k) == Last(b + c, k);
  }

  /** After twenty-two connected blocks nothing of the old branch is left among the deciding intervals. */
  lemma WindowForgets(w: seq<nat>, chain: seq<Header>, blocks: seq<Header>)
    requires chain != [] && |w| <= ADJUSTMENT_WINDOW && |blocks| >= DGW_WINDOW - 2
    ensures |WindowAfter(w, chain, blocks)| >= DGW_WINDOW - 2
    ensures Tail(WindowAfter(w, chain, blocks)) == Tail(Intervals(Stamps(chain + blocks)))
  {
    WindowIsLast(w, chain, blocks);
    IntervalsSplit(chain, blocks);
    LastOfSum(w, Intervals(Stamps(chain)), NewIntervals(chain, blocks), DGW_WINDOW - 2);
  }

  lemma FollowedWindow(e: Engine, chain: seq<Header>, blocks: seq<Header>)
    requires chain != [] && Sound(e.window) && |blocks| >= DGW_WINDOW - 2
    ensures var w := Followed(e, chain, blocks).window;
            Positive(w) && |w| >= DGW_WINDOW - 2 && Tail(w) == Tail(Intervals(Stamps(chain + blocks)))
  {
    WindowOfFollowed(e, chain, blocks);
    WindowStaysPositive(e.window, chain, blocks);
    WindowForgets(e.window, chain, blocks);
  }

  lemma LastOfSnoc(s: seq<nat>, d: nat, k: nat)
    requires k > 0
    ensures Last(s + [d], k) == Last(s, k - 1) + [d]
  {
  }

  /** With enough intervals the prediction is one retarget by the mean of the last twenty-three. */
  lemma PredictionIsRetarget(e: Engine, chain: seq<Header>, time: nat)
    requires |chain| >= DGW_WINDOW && Positive(e.window) && |e.window| >= DGW_WINDOW - 2
    ensures var used := Tail(e.window) + [ElapsedBlockTime(chain[|chain| - 1].time, time)];
            Prediction(e, chain, time) == Retarget(Normalize(e.difficulty), Mean(used))
  {
    var d := ElapsedBlockTime(chain[|chain| - 1].time, time);
    var window := Push(e.window, d);
    StampsKeepIntervals(window);
    IntervalsOfLast(StampsOf(window), DGW_WINDOW);
    TailSnoc(e.window, d);
  }

  lemma ExpectedByTail(chain: seq<Header>, b: Header)
    requires |chain| >= DGW_WINDOW
    ensures var used := Tail(Intervals(Stamps(chain))) + [ElapsedBlockTime(chain[|chain| - 1].time, b.time)];
            ExpectedBase(chain, b.time) == Retarget(Base(chain, |chain| - 1), Mean(used))
  {
    ExpectedIsRetarget(chain, b);
    IntervalsOfLonger(chain, b);
    LastOfSnoc(Intervals(Stamps(chain)), ElapsedBlockTime(chain[|chain| - 1].time, b.time), DGW_WINDOW - 1);
  }

  /** An engine that tracks its chain predicts every next block, and goes on tracking. */
  lemma TracksPredicts(e: Engine, chain: seq<Header>, b: Header)
    requires |chain| >= DGW_WINDOW && Positive(e.window) && |e.window| >= DGW_WINDOW - 2
    requires Tracks(e, chain) && e.difficulty < MINER_DOMAIN
    ensures Prediction(e, chain, b.time) == ExpectedBase(chain, b.time)
  {
    NormalizeIdempotent(e.difficulty);
    PredictionIsRetarget(e, chain, b.time);
    ExpectedByTail(chain, b);
  }

  lemma TailOfLast(s: seq<nat>)
    ensures Tail(Last(s, ADJUSTMENT_WINDOW)) == Tail(s)
  {
  }

  /**
   * Whatever the engine held when the blocks above `chain` were taken off: as `blocks` are connected, it retargets
   * its own difficulty by what it remembers and their intervals, where validation retargets the tip's base by the
   * chain's intervals and theirs. From twenty-two blocks on the intervals are the same.
   */
  lemma PredictionAfterSwitch(e: Engine, chain: seq<Header>, blocks: seq<Header>, b: Header)
    requires chain != [] && Sound(e.window) && |chain + blocks| >= DGW_WINDOW
    requires |e.window| + |blocks| >= DGW_WINDOW - 2
    ensures var now, longer, new_ := Followed(e, chain, blocks), chain + blocks, NewIntervals(chain, blocks);
            var d := [ElapsedBlockTime(longer[|longer| - 1].time, b.time)];
            var remembered, used := Tail(e.window + new_) + d, Tail(Intervals(Stamps(chain)) + new_) + d;
            && Prediction(now, longer, b.time) == Retarget(Normalize(now.difficulty), Mean(remembered))
            && ExpectedBase(longer, b.time) == Retarget(Base(longer, |longer| - 1), Mean(used))
            && (|blocks| >= DGW_WINDOW - 2 ==> remembered == used)
  {
    var longer, new_ := chain + blocks, NewIntervals(chain, blocks);
    WindowOfFollowed(e, chain, blocks);
    WindowStaysPositive(e.window, chain, blocks);
    WindowIsLast(e.window, chain, blocks);
    TailOfLast(e.window + new_);
    IntervalsSplit(chain, blocks);
    PredictionIsRetarget(Followed(e, chain, blocks), longer, b.time);
    ExpectedByTail(longer, b);
    if |blocks| >= DGW_WINDOW - 2 {
      LastOfSum(e.window, Intervals(Stamps(chain)), new_, DGW_WINDOW - 2);
    }
  }

  /**
   * Then an accepted block settles it: the engine tracks the chain from that block on if and only if its
   * prediction for the block was right, as far as the suffix domain tells the two apart.
   */
  lemma TracksAgainIff(e: Engine, chain: seq<Header>, blocks: seq<Header>, b: Header)
    requires chain != [] && Sound(e.window) && |chain + blocks| >= DGW_WINDOW && |blocks| >= DGW_WINDOW - 2
    requires b.difficulty == ExpectedDifficulty(chain + blocks, b.time, b.coinbase)
    ensures var longer := chain + blocks;
            Tracks(Followed(e, chain, blocks + [b]), longer + [b]) <==>
              Normalize(Prediction(Followed(e, chain, blocks), longer, b.time)) ==
              Normalize(ExpectedBase(longer, b.time))
  {
    var longer := chain + blocks;
    assert (blocks + [b])[..|blocks|] == blocks && chain + (blocks + [b]) == longer + [b];
    FollowedWindow(e, chain, blocks + [b]);
    TipNormalForm(longer, b);
  }

  /** The engine tracks, and its window is long enough. */
  ghost predicate TracksWell(e: Engine, chain: seq<Header>)
    requires chain != []
  {
    Tracks(e, chain) && e.difficulty < MINER_DOMAIN && Positive(e.window) && |e.window| >= DGW_WINDOW - 2
  }

  lemma TailMoves(w: seq<nat>, s: seq<nat>, d: nat)
    requires Tail(w) == Tail(s) && Positive(w) && |w| >= DGW_WINDOW - 2 && d >= 1
    ensures Tail(Push(w, d)) == Tail(s + [d]) && Positive(Push(w, d)) && |Push(w, d)| >= DGW_WINDOW - 2
  {
    TailSnoc(w, d);
    assert Tail(Tail(s) + [d]) == Tail(s + [d]);
  }

  /** One accepted block later it tracks still. */
  lemma StepTracks(e: Engine, chain: seq<Header>, b: Header)
    requires |chain| >= DGW_WINDOW && TracksWell(e, chain)
    requires b.difficulty == ExpectedDifficulty(chain, b.time, b.coinbase)
    ensures TracksWell(EngineStep(e, |chain|, chain[|chain| - 1].time, b.time), chain + [b])
  {
    TracksPredicts(e, chain, b);
    TipNormalForm(chain, b);
    IntervalsOfLonger(chain, b);
    TailMoves(e.window, Intervals(Stamps(chain)), ElapsedBlockTime(chain[|chain| - 1].time, b.time));
  }

  ghost predicate AcceptedOn(chain: seq<Header>, blocks: seq<Header>)
    requires chain != []
  {
    blocks == [] ||
    var n := |blocks| - 1;
    AcceptedOn(chain, blocks[..n]) &&
    blocks[n].difficulty == ExpectedDifficulty(chain + blocks[..n], blocks[n].time, blocks[n].coinbase)
  }

  lemma {:induction false} FollowedTracks(e: Engine, chain: seq<Header>, blocks: seq<Header>)
    requires |chain| >= DGW_WINDOW && TracksWell(e, chain) && AcceptedOn(chain, blocks)
    ensures TracksWell(Followed(e, chain, blocks), chain + blocks)
  {
    if blocks == [] {
      assert chain + blocks == chain;
    } else {
      var n := |blocks| - 1;
      FollowedTracks(e, chain, blocks[..n]);
      LongerByOne(chain, blocks);
      StepTracks(Followed(e, chain, blocks[..n]), chain + blocks[..n], blocks[n]);
    }
  }

  /** Once it tracks the chain again, an engine predicts what validation expects for every block from there on. */
  lemma TrackingLasts(e: Engine, chain: seq<Header>, blocks: seq<Header>, b: Header)
    requires |chain| >= DGW_WINDOW && TracksWell(e, chain) && AcceptedOn(chain, blocks)
    ensures Prediction(Followed(e, chain, blocks), chain + blocks, b.time) == ExpectedBase(chain + blocks, b.time)
  {
    FollowedTracks(e, chain, blocks);
    TracksPredicts(Followed(e, chain, blocks), chain + blocks, b);
  }

  lemma {:induction false} MeanOnTarget(s: seq<nat>)
    requires AllOnTarget(s) && s != []
    ensures TotalTime(s) == BLOCK_TIME_TARGET * |s| && Mean(s) == BLOCK_TIME_TARGET as real
  {
    if |s| > 1 {
      MeanOnTarget(s[..|s| - 1]);
    } else {
      assert s[..0] == [];
    }
    assert TotalTime(s) as real == BLOCK_TIME_TARGET as real * |s| as real;
  }

  lemma RetargetOnTarget(cur: int)
    requires MIN_DIFFICULTY < cur < MAX_DIFFICULTY
    ensures Retarget(cur, BLOCK_TIME_TARGET as real) == cur + 1
  {
    RetargetDirection(cur, BLOCK_TIME_TARGET as real);
    RetargetOnPacedBlocks(cur, BLOCK_TIME_TARGET as real);
  }

  /** On target an engine predicts one more than it holds. */
  lemma OnTargetPrediction(e: Engine, chain: seq<Header>, time: nat)
    requires |chain| >= DGW_WINDOW && Positive(e.window) && |e.window| >= DGW_WINDOW - 2
    requires AllOnTarget(Tail(e.window)) && time == chain[|chain| - 1].time + BLOCK_TIME_TARGET
    requires MIN_DIFFICULTY < e.difficulty < MINER_DOMAIN - 1
    ensures Prediction(e, chain, time) == e.difficulty + 1
  {
    PredictionIsRetarget(e, chain, time);
    MeanOnTarget(Tail(e.window) + [BLOCK_TIME_TARGET]);
    RetargetOnTarget(e.difficulty);
  }

  lemma OnTargetExpectation(chain: seq<Header>, b: Header)
    requires |chain| >= DGW_WINDOW && AllOnTarget(Tail(Intervals(Stamps(chain))))
    requires b.time == chain[|chain| - 1].time + BLOCK_TIME_TARGET
    requires MIN_DIFFICULTY < Base(chain, |chain| - 1) < MINER_DOMAIN - 1
    ensures ExpectedBase(chain, b.time) == Base(chain, |chain| - 1) + 1
  {
    ExpectedByTail(chain, b);
    MeanOnTarget(Tail(Intervals(Stamps(chain))) + [BLOCK_TIME_TARGET]);
    RetargetOnTarget(Base(chain, |chain| - 1));
  }

  /** The engine after the tip was taken off and connected again: it has counted the block twice. */
  ghost function Reconnected(e: Engine, chain: seq<Header>): Engine
    requires |chain| >= 2
  {
    EngineStep(e, |chain| - 1, chain[|chain| - 2].time, chain[|chain| - 1].time)
  }

  /**
   * On a chain with every interval on target, take the tip off and connect it again: from then on the engine
   * predicts one more than validation expects.
   */
  lemma ReconnectedTipMisleads(e: Engine, chain: seq<Header>, b: Header)
    requires |chain| > DGW_WINDOW && TracksWell(e, chain) && AllOnTarget(Tail(e.window))
    requires chain[|chain| - 1].time == chain[|chain| - 2].time + BLOCK_TIME_TARGET
    requires b.time == chain[|chain| - 1].time + BLOCK_TIME_TARGET
    requires MIN_DIFFICULTY < e.difficulty < MINER_DOMAIN - 2
    ensures Prediction(Reconnected(e, chain), chain, b.time) == ExpectedBase(chain, b.time) + 1
  {
    var below := chain[..|chain| - 1];
    OnTargetPrediction(e, below, chain[|chain| - 1].time);
    assert Reconnected(e, chain).difficulty == e.difficulty + 1;
    TailMoves(e.window, e.window, BLOCK_TIME_TARGET);
    OnTargetPrediction(Reconnected(e, chain), chain, b.time);
    OnTargetExpectation(chain, b);
  }
}
