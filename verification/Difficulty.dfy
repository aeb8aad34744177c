/** Difficulty retargeting: the three average-based calculators and the miner suffix. */
module Difficulty {
  import opened Bytes

  const BLOCK_TIME_TARGET := 150
  const DGW_WINDOW := 24
  const LWMA_WINDOW := 60
  const ADJUSTMENT_WINDOW := LWMA_WINDOW
  const MIN_DIFFICULTY := 1
  const BASE_DIFFICULTY := 131072
  const MAX_ADJUSTMENT_FACTOR := 4
  const MAX_FUTURE_BLOCK_TIME := 900

  /** The suffix domain of miner-specific difficulties is 2^160 + 1. */
  const MAX_DIFFICULTY := TWO_256 - 1
  const MINER_DOMAIN := 0x1_00000000_00000000_00000000_00000000_00000000 + 1

  // A nil big.Int behaves as zero in both Clamp and Normalize, so values are plain integers.

  function Clamp(value: int): (r: int)
    ensures MIN_DIFFICULTY <= r <= MAX_DIFFICULTY
  {
    if value < MIN_DIFFICULTY then MIN_DIFFICULTY
    else if value > MAX_DIFFICULTY then MAX_DIFFICULTY
    else value
  }

  function Normalize(value: int): (r: int)
    ensures MIN_DIFFICULTY <= r <= MAX_DIFFICULTY
  {
    if value <= 0 then MIN_DIFFICULTY
    else Clamp(if value >= MINER_DOMAIN then value / MINER_DOMAIN else value)
  }

  function ForMiner(baseDifficulty: int, miner: Address): int {
    Normalize(baseDifficulty) * MINER_DOMAIN + (ToNat(miner) + 1)
  }

  function Target(value: int): int {
    TWO_256 / Normalize(value)
  }

  function ElapsedBlockTime(parentTime: nat, currentTime: nat): (r: nat)
    ensures r >= 1
  {
    if currentTime <= parentTime then 1 else currentTime - parentTime
  }

  function Intervals(timestamps: seq<nat>): (r: seq<nat>)
    ensures |r| == if timestamps == [] then 0 else |timestamps| - 1
  {
    seq(if timestamps == [] then 0 else |timestamps| - 1,
        i requires 0 <= i < |timestamps| - 1 => ElapsedBlockTime(timestamps[i], timestamps[i + 1]))
  }

  function ClampInterval(d: nat): (r: nat)
    ensures 1 <= r <= MAX_FUTURE_BLOCK_TIME
  {
    if d > MAX_FUTURE_BLOCK_TIME then MAX_FUTURE_BLOCK_TIME else if d < 1 then 1 else d
  }

  /** Sum of the clamped intervals. */
  function TotalTime(intervals: seq<nat>): nat {
    if intervals == [] then 0
    else TotalTime(intervals[..|intervals| - 1]) + ClampInterval(intervals[|intervals| - 1])
  }

  /** Sum of the clamped intervals, the i-th (from one) counted i times. */
  function WeightedTime(intervals: seq<nat>): nat {
    if intervals == [] then 0
    else WeightedTime(intervals[..|intervals| - 1]) + ClampInterval(intervals[|intervals| - 1]) * |intervals|
  }

  function WeightSum(n: nat): nat {
    if n == 0 then 0 else WeightSum(n - 1) + n
  }

  function Ratio(avgTime: real): (r: real)
    requires avgTime > 0.0
  {
    var ratio := BLOCK_TIME_TARGET as real / avgTime;
    if ratio > MAX_ADJUSTMENT_FACTOR as real then MAX_ADJUSTMENT_FACTOR as real
    else if ratio < 0.25 then 0.25
    else ratio
  }

  /** The extra cap of the Dark Gravity Wave calculator. */
  function ApplyDigiShield(newDiff: int, oldDiff: int, ratio: real): int {
    if ratio > MAX_ADJUSTMENT_FACTOR as real && newDiff > oldDiff * MAX_ADJUSTMENT_FACTOR
    then oldDiff * MAX_ADJUSTMENT_FACTOR
    else if ratio < 0.25 && newDiff < oldDiff / 4 then oldDiff / 4
    else newDiff
  }

  function EnsureDifficultyChanges(current: int, adjusted: int, avgTime: real): int {
    if adjusted != current then adjusted
    else if avgTime <= BLOCK_TIME_TARGET as real && current > MIN_DIFFICULTY then
      if current < MAX_DIFFICULTY then Clamp(current + 1) else current
    else if avgTime > BLOCK_TIME_TARGET as real && current > MIN_DIFFICULTY then current - 1
    else adjusted
  }

  function Times(x: real, y: real): real {
    x * y
  }

  function Scale(current: int, ratio: real): int {
    Times(current as real, ratio).Floor
  }

  /** What each calculator does once it has its average interval. */
  function Retarget(current: int, avgTime: real): int
    requires avgTime > 0.0
  {
    EnsureDifficultyChanges(current, Clamp(Scale(current, Ratio(avgTime))), avgTime)
  }

  function Last<T>(s: seq<T>, n: nat): seq<T> {
    if |s| > n then s[|s| - n..] else s
  }

  // ---------- averages lie between one second and the cap ----------

  lemma {:induction false} TotalTimeBounds(s: seq<nat>)
    ensures |s| <= TotalTime(s) <= MAX_FUTURE_BLOCK_TIME * |s|
  {
    if s != [] {
      TotalTimeBounds(s[..|s| - 1]);
    }
  }

  lemma WeightedTerm(c: nat, n: nat)
    requires 1 <= c <= MAX_FUTURE_BLOCK_TIME
    ensures n <= c * n <= MAX_FUTURE_BLOCK_TIME * n
  {
  }

  lemma {:induction false} WeightedTimeBounds(s: seq<nat>)
    ensures WeightSum(|s|) <= WeightedTime(s) <= MAX_FUTURE_BLOCK_TIME * WeightSum(|s|)
    ensures |s| <= WeightSum(|s|)
  {
    if s != [] {
      WeightedTimeBounds(s[..|s| - 1]);
      WeightedTerm(ClampInterval(s[|s| - 1]), |s|);
    }
  }

  lemma SignOfFactor(x: real, n: real)
    requires n > 0.0 && x * n >= 0.0
    ensures x >= 0.0
    ensures x * n > 0.0 ==> x > 0.0
  {
  }

  lemma QuotientBounds(a: real, n: real, lo: real, hi: real)
    requires n > 0.0 && lo * n <= a <= hi * n
    ensures lo <= a / n <= hi
  {
    var q := a / n;
    assert q * n == a;
    SignOfFactor(q - lo, n);
    SignOfFactor(hi - q, n);
  }

  /** Which calculator runs at `height`, and the average interval it sees. */
  ghost predicate SufficientWindow(height: nat, timestamps: seq<nat>) {
    |timestamps| >= 2 && (height >= DGW_WINDOW ==> |timestamps| >= DGW_WINDOW)
  }

  function Mean(intervals: seq<nat>): (r: real)
    requires intervals != []
    ensures 1.0 <= r <= MAX_FUTURE_BLOCK_TIME as real
  {
    TotalTimeBounds(intervals);
    QuotientBounds(TotalTime(intervals) as real, |intervals| as real, 1.0, MAX_FUTURE_BLOCK_TIME as real);
    TotalTime(intervals) as real / |intervals| as real
  }

  function WeightedMean(intervals: seq<nat>): (r: real)
    requires intervals != []
    ensures WeightSum(|intervals|) > 0
    ensures 1.0 <= r <= MAX_FUTURE_BLOCK_TIME as real
  {
    WeightedTimeBounds(intervals);
    var w := WeightSum(|intervals|);
    QuotientBounds(WeightedTime(intervals) as real, w as real, 1.0, MAX_FUTURE_BLOCK_TIME as real);
    WeightedTime(intervals) as real / w as real
  }

  ghost function AverageTime(height: nat, timestamps: seq<nat>): (r: real)
    requires SufficientWindow(height, timestamps)
    ensures 1.0 <= r <= MAX_FUTURE_BLOCK_TIME as real
  {
    if height >= DGW_WINDOW then Mean(Intervals(Last(timestamps, DGW_WINDOW)))
    else if |timestamps| < LWMA_WINDOW then Mean(Intervals(timestamps))
    else WeightedMean(Intervals(Last(timestamps, LWMA_WINDOW)))
  }

  /** The next base difficulty: a clamped previous value when the window is too short. */
  ghost function NextDifficulty(prevDifficulty: int, height: nat, timestamps: seq<nat>): int {
    if height == 0 then BASE_DIFFICULTY
    else if !SufficientWindow(height, timestamps) then Clamp(prevDifficulty)
    else
      Retarget(Normalize(prevDifficulty), AverageTime(height, timestamps))
  }

  // ---------- the calculators as the code runs them ----------

  /** The ratio is already inside the shield's bounds, so the shield never acts. */
  lemma ShieldIsIdle(newDiff: int, oldDiff: int, avgTime: real)
    requires avgTime > 0.0
    ensures ApplyDigiShield(newDiff, oldDiff, Ratio(avgTime)) == newDiff
  {
  }

  lemma IntervalsSnoc(window: seq<nat>, i: nat)
    requires 1 <= i < |window|
    ensures Intervals(window)[..i] == Intervals(window)[..i - 1] + [ElapsedBlockTime(window[i - 1], window[i])]
  {
  }

  lemma TotalTimeSnoc(s: seq<nat>, d: nat)
    ensures TotalTime(s + [d]) == TotalTime(s) + ClampInterval(d)
    ensures WeightedTime(s + [d]) == WeightedTime(s) + ClampInterval(d) * (|s| + 1)
  {
    assert (s + [d])[..|s|] == s;
  }

  /** The accumulating loop shared by the two plain averages. */
  method SumBlockTimes(window: seq<nat>) returns (totalTime: nat)
    ensures totalTime == TotalTime(Intervals(window))
  {
    totalTime := 0;
    var i := 1;
    while i < |window|
      invariant 1 <= i && (i <= |window| || window == [])
      invariant totalTime == TotalTime(Intervals(window)[..if window == [] then 0 else i - 1])
    {
      var diff := ElapsedBlockTime(window[i - 1], window[i]);
      IntervalsSnoc(window, i);
      TotalTimeSnoc(Intervals(window)[..i - 1], diff);
      if diff > MAX_FUTURE_BLOCK_TIME { diff := MAX_FUTURE_BLOCK_TIME; }
      if diff < 1 { diff := 1; }
      totalTime := totalTime + diff;
      i := i + 1;
    }
    assert Intervals(window)[..|Intervals(window)|] == Intervals(window);
  }

  /** The interval that ends at `i`, weighted by its place. */
  lemma WeightedSnoc(window: seq<nat>, i: nat)
    requires 1 <= i < |window|
    ensures WeightedTime(Intervals(window)[..i]) == WeightedTime(Intervals(window)[..i - 1])
                                                    + ClampInterval(ElapsedBlockTime(window[i - 1], window[i])) * i
    ensures WeightSum(i) == WeightSum(i - 1) + i
  {
    IntervalsSnoc(window, i);
    TotalTimeSnoc(Intervals(window)[..i - 1], ElapsedBlockTime(window[i - 1], window[i]));
  }

  method SumWeightedBlockTimes(window: seq<nat>) returns (weightedSum: nat, weightSum: nat)
    requires window != []
    ensures weightedSum == WeightedTime(Intervals(window))
    ensures weightSum == WeightSum(|window| - 1)
  {
    weightedSum, weightSum := 0, 0;
    var i := 1;
    while i < |window|
      invariant 1 <= i <= |window|
      invariant weightedSum == WeightedTime(Intervals(window)[..i - 1])
      invariant weightSum == WeightSum(i - 1)
    {
      var blockTime := ElapsedBlockTime(window[i - 1], window[i]);
      WeightedSnoc(window, i);
      if blockTime > MAX_FUTURE_BLOCK_TIME { blockTime := MAX_FUTURE_BLOCK_TIME; }
      if blockTime < 1 { blockTime := 1; }
      weightedSum := weightedSum + blockTime * i;
      weightSum := weightSum + i;
      i := i + 1;
    }
    assert Intervals(window)[..|window| - 1] == Intervals(window);
  }

  method CalculateDarkGravityWave(prevDifficulty: int, timestamps: seq<nat>) returns (r: int)
    ensures |timestamps| < DGW_WINDOW ==> r == Clamp(prevDifficulty)
    ensures |timestamps| >= DGW_WINDOW ==> r == NextDifficulty(prevDifficulty, DGW_WINDOW, timestamps)
  {
    if |timestamps| < DGW_WINDOW {
      return Clamp(prevDifficulty);
    }
    var window := Last(timestamps, DGW_WINDOW);
    var totalTime := SumBlockTimes(window);
    var avgTime := totalTime as real / (|window| - 1) as real;
    assert avgTime == AverageTime(DGW_WINDOW, timestamps);
    var currentDiff := Normalize(prevDifficulty);
    var result := Scale(currentDiff, Ratio(avgTime));
    ShieldIsIdle(result, currentDiff, avgTime);
    result := ApplyDigiShield(result, currentDiff, Ratio(avgTime));
    r := EnsureDifficultyChanges(currentDiff, Clamp(result), avgTime);
  }

  method CalculateSimpleAverage(prevDifficulty: int, timestamps: seq<nat>) returns (r: int)
    ensures |timestamps| < 2 ==> r == Clamp(prevDifficulty)
    ensures |timestamps| >= 2 ==> r == Retarget(Normalize(prevDifficulty), Mean(Intervals(timestamps)))
  {
    if |timestamps| < 2 {
      return Clamp(prevDifficulty);
    }
    var totalTime := SumBlockTimes(timestamps);
    var avgTime := totalTime as real / (|timestamps| - 1) as real;
    assert avgTime == Mean(Intervals(timestamps));
    var currentDiff := Normalize(prevDifficulty);
    var result := Scale(currentDiff, Ratio(avgTime));
    r := EnsureDifficultyChanges(currentDiff, Clamp(result), avgTime);
  }

  method CalculateLWMA(prevDifficulty: int, timestamps: seq<nat>) returns (r: int)
    ensures r == NextDifficulty(prevDifficulty, 1, timestamps)
  {
    if |timestamps| < LWMA_WINDOW {
      r := CalculateSimpleAverage(prevDifficulty, timestamps);
      return;
    }
    var window := Last(timestamps, LWMA_WINDOW);
    var weightedSum, weightSum := SumWeightedBlockTimes(window);
    var avgTime := weightedSum as real / weightSum as real;
    assert avgTime == AverageTime(1, timestamps);
    var currentDiff := Normalize(prevDifficulty);
    var result := Scale(currentDiff, Ratio(avgTime));
    r := EnsureDifficultyChanges(currentDiff, Clamp(result), avgTime);
  }

  method CalculateDifficulty(prevDifficulty: int, height: nat, timestamps: seq<nat>) returns (r: int)
    ensures r == NextDifficulty(prevDifficulty, height, timestamps)
  {
    if height == 0 {
      return BASE_DIFFICULTY;
    }
    if height >= DGW_WINDOW {
      r := CalculateDarkGravityWave(prevDifficulty, timestamps);
    } else {
      r := CalculateLWMA(prevDifficulty, timestamps);
    }
  }

  /** Running total of the elapsed times, zero counted as one. */
  function StampsOf(blockTimes: seq<nat>): (r: seq<nat>)
    ensures |r| == |blockTimes| + 1
  {
    if blockTimes == [] then [0]
    else
      var front := StampsOf(blockTimes[..|blockTimes| - 1]);
      var t := blockTimes[|blockTimes| - 1];
      front + [front[|front| - 1] + if t == 0 then 1 else t]
  }

  method TimestampsFromDeltas(blockTimes: seq<nat>) returns (timestamps: seq<nat>)
    ensures timestamps == StampsOf(blockTimes)
  {
    timestamps := [0];
    var elapsed := 0;
    for i := 0 to |blockTimes|
      invariant timestamps == StampsOf(blockTimes[..i])
      invariant elapsed == timestamps[|timestamps| - 1]
    {
      var blockTime := blockTimes[i];
      if blockTime == 0 { blockTime := 1; }
      elapsed := elapsed + blockTime;
      timestamps := timestamps + [elapsed];
      assert blockTimes[..i + 1][..i] == blockTimes[..i];
    }
    assert blockTimes[..|blockTimes|] == blockTimes;
  }

  /** The synthetic timestamps start at zero and keep every interval, zero counted as one. */
  lemma {:induction false} StampsGiveIntervals(blockTimes: seq<nat>)
    ensures StampsOf(blockTimes)[0] == 0
    ensures forall i :: 0 <= i < |blockTimes| ==>
                          StampsOf(blockTimes)[i + 1] ==
                          StampsOf(blockTimes)[i] + if blockTimes[i] == 0 then 1 else blockTimes[i]
  {
    if blockTimes != [] {
      var n := |blockTimes| - 1;
      StampsGiveIntervals(blockTimes[..n]);
      var stamps, front := StampsOf(blockTimes), StampsOf(blockTimes[..n]);
      assert front == stamps[..n + 1];
      forall i | 0 <= i < n
        ensures stamps[i + 1] == stamps[i] + if blockTimes[i] == 0 then 1 else blockTimes[i]
      {
        assert stamps[i] == front[i] && stamps[i + 1] == front[i + 1] && blockTimes[..n][i] == blockTimes[i];
      }
    }
  }

  /** The synthetic timestamps keep every positive interval. */
  lemma {:induction false} StampsKeepIntervals(blockTimes: seq<nat>)
    requires forall i :: 0 <= i < |blockTimes| ==> blockTimes[i] >= 1
    ensures Intervals(StampsOf(blockTimes)) == blockTimes
  {
    if blockTimes != [] {
      var n := |blockTimes| - 1;
      StampsKeepIntervals(blockTimes[..n]);
      var stamps, front := StampsOf(blockTimes), StampsOf(blockTimes[..n]);
      forall i | 0 <= i < n ensures Intervals(stamps)[i] == blockTimes[i] {
        assert Intervals(front)[i] == blockTimes[i];
        assert stamps[i] == front[i] && stamps[i + 1] == front[i + 1];
      }
    }
  }
}
