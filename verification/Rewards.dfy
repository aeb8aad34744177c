/** Block rewards, the supply formulas and the split of one block's reward. */
module Rewards {
  import opened Bytes

  const ANTD := 1_000_000_000_000_000_000
  const INITIAL_BLOCK_REWARD := 200 * ANTD
  const GENESIS_PREMINE := 60_000_000 * ANTD
  const ELIGIBILITY_THRESHOLD := 100_000 * ANTD
  const SECONDS_PER_BLOCK := 150
  const BLOCKS_PER_DAY := 24 * 60 * 60 / SECONDS_PER_BLOCK
  const BLOCKS_PER_HALVING := BLOCKS_PER_DAY * 365 * 4
  const MAX_HALVINGS := 64
  /** The first period whose halved reward falls below one ANTD. */
  const LAST_PERIOD := 8

  /** The initial reward halved `period` times, without the cut-off. */
  function Halved(period: nat): (r: nat) {
    if period == 0 then INITIAL_BLOCK_REWARD else Halved(period - 1) / 2
  }

  /** Reward of a block in the given period: halved while it stays at one ANTD or more. */
  function PeriodReward(period: nat): nat {
    if period < LAST_PERIOD then Halved(period) else 0
  }

  function BlockReward(blockNumber: nat): nat {
    PeriodReward(blockNumber / BLOCKS_PER_HALVING)
  }

  /** Rewards of the blocks 0 .. n-1. */
  function SumRewards(n: nat): nat {
    if n == 0 then 0 else SumRewards(n - 1) + BlockReward(n - 1)
  }

  /** Rewards of the blocks 1 .. n, the ones a chain of height n has paid out. */
  function PaidRewards(n: nat): nat {
    if n == 0 then 0 else PaidRewards(n - 1) + BlockReward(n)
  }

  lemma HalvedValues()
    ensures Halved(1) == 100 * ANTD && Halved(2) == 50 * ANTD && Halved(3) == 25 * ANTD
    ensures 2 * Halved(4) == 25 * ANTD && 4 * Halved(5) == 25 * ANTD
    ensures 8 * Halved(6) == 25 * ANTD && 16 * Halved(7) == 25 * ANTD && 32 * Halved(8) == 25 * ANTD
  {
    assert Halved(2) == Halved(1) / 2;
    assert Halved(4) == Halved(3) / 2;
    assert Halved(6) == Halved(5) / 2;
    assert Halved(8) == Halved(7) / 2;
  }

  /** A period pays while its halved reward has not dropped below one ANTD. */
  lemma CutOff(period: nat)
    requires period <= LAST_PERIOD
    ensures Halved(period) >= ANTD <==> period < LAST_PERIOD
  {
    HalvedValues();
  }

  /** The reward of any block in base units: 200 coins, halved every 840960 blocks, and nothing after eight periods. */
  lemma BlockRewardIs(n: nat)
    ensures var p := n / 840960;
            BlockReward(n) == if p < 8 then 1_562_500_000_000_000_000 * [128, 64, 32, 16, 8, 4, 2, 1][p] else 0
  {
    HalvedValues();
  }

  method CalculateBlockReward(blockNumber: nat) returns (reward: nat)
    ensures reward == BlockReward(blockNumber)
  {
    var halvingPeriod := blockNumber / BLOCKS_PER_HALVING;
    if halvingPeriod > MAX_HALVINGS {
      halvingPeriod := MAX_HALVINGS;
    }
    reward := INITIAL_BLOCK_REWARD;
    var i := 0;
    while i < halvingPeriod
      invariant i <= halvingPeriod && i < LAST_PERIOD
      invariant reward == Halved(i)
    {
      reward := reward / 2;
      CutOff(i + 1);
      if reward < ANTD {
        return 0;
      }
      i := i + 1;
    }
  }

  function PeriodStart(period: nat): nat {
    period * BLOCKS_PER_HALVING
  }

  function Pay(reward: nat, blocks: nat): nat {
    reward * blocks
  }

  /** What the schedule can ever pay, period by period. */
  function FullPeriods(p: nat): nat {
    if p == 0 then 0 else FullPeriods(p - 1) + Pay(PeriodReward(p - 1), BLOCKS_PER_HALVING)
  }

  function SupplyCap(): nat {
    GENESIS_PREMINE + FullPeriods(LAST_PERIOD)
  }

  /** The cap in base units: the premine and 255 times the last reward per block of a period. */
  lemma SupplyCapIs()
    ensures SupplyCap() == 60_000_000_000_000_000_000_000_000 + 840960 * 255 * 1_562_500_000_000_000_000
  {
    HalvedValues();
    assert FullPeriods(4) == Pay(Halved(3), 840960) + Pay(Halved(2), 840960) + Pay(Halved(1), 840960)
                             + Pay(Halved(0), 840960) by {
      assert FullPeriods(2) == Pay(Halved(1), 840960) + Pay(Halved(0), 840960);
    }
    assert FullPeriods(6) == Pay(Halved(5), 840960) + Pay(Halved(4), 840960) + FullPeriods(4);
    assert FullPeriods(8) == Pay(Halved(7), 840960) + Pay(Halved(6), 840960) + FullPeriods(6);
  }

  method CalculateTotalSupplyCap() returns (total: nat)
    ensures total == SupplyCap()
  {
    total := GENESIS_PREMINE;
    var currentReward := INITIAL_BLOCK_REWARD;
    var halving := 0;
    while halving <= MAX_HALVINGS
      invariant 0 <= halving < LAST_PERIOD
      invariant currentReward == Halved(halving)
      invariant total == GENESIS_PREMINE + FullPeriods(halving)
      decreases MAX_HALVINGS - halving
    {
      var blocksInPeriod := if halving == MAX_HALVINGS then 0 else BLOCKS_PER_HALVING;
      total := total + Pay(currentReward, blocksInPeriod);
      currentReward := currentReward / 2;
      CutOff(halving + 1);
      if currentReward < ANTD {
        break;
      }
      halving := halving + 1;
    }
  }

  // ---------- the supply closed form ----------

  lemma PeriodOf(period: nat, n: nat, k: nat)
    requires n == PeriodStart(period) + k && k < BLOCKS_PER_HALVING
    ensures BlockReward(n) == PeriodReward(period)
  {
    QuotientUnique(n, BLOCKS_PER_HALVING, period, k);
  }

  lemma PaySuccessor(r: nat, k: nat)
    requires k > 0
    ensures Pay(r, k) == Pay(r, k - 1) + r
  {
  }

  /** Inside one period the paid sum grows by the period's reward per block. */
  lemma {:induction false} SumWithinPeriod(period: nat, start: nat, k: nat)
    requires start == PeriodStart(period) && k <= BLOCKS_PER_HALVING
    ensures SumRewards(start + k) == SumRewards(start) + Pay(PeriodReward(period), k)
  {
    if k > 0 {
      SumWithinPeriod(period, start, k - 1);
      PeriodOf(period, start + k - 1, k - 1);
      PaySuccessor(PeriodReward(period), k);
    }
  }

  /** Whole periods: the block-by-block sum is the period-by-period one. */
  lemma {:induction false} SumOfFullPeriods(p: nat, n: nat)
    requires n == PeriodStart(p)
    ensures SumRewards(n) == FullPeriods(p)
  {
    if p > 0 {
      var start := n - BLOCKS_PER_HALVING;
      SumOfFullPeriods(p - 1, start);
      SumWithinPeriod(p - 1, start, BLOCKS_PER_HALVING);
    }
  }

  lemma {:induction false} SumMonotone(m: nat, n: nat)
    requires m <= n
    ensures SumRewards(m) <= SumRewards(n)
  {
    if m < n {
      SumMonotone(m, n - 1);
    }
  }

  lemma {:induction false} RewardsStop(m: nat, n: nat)
    requires LAST_PERIOD * BLOCKS_PER_HALVING <= m <= n
    ensures SumRewards(n) == SumRewards(m)
  {
    if m < n {
      RewardsStop(m, n - 1);
      QuotientAtLeast(n - 1, BLOCKS_PER_HALVING, LAST_PERIOD);
    }
  }

  lemma RewardsStopAfter(period: nat, m: nat, n: nat)
    requires period <= LAST_PERIOD && Halved(period) < ANTD
    requires m == PeriodStart(period) && m <= n
    ensures SumRewards(n) == SumRewards(m)
  {
    CutOff(period);
    RewardsStop(m, n);
  }

  lemma PeriodBoundary(period: nat, n: nat, k: nat)
    requires n == PeriodStart(period) + k && 0 < k <= BLOCKS_PER_HALVING
    ensures n % BLOCKS_PER_HALVING == 0 <==> k == BLOCKS_PER_HALVING
    ensures k == BLOCKS_PER_HALVING ==> n == PeriodStart(period + 1)
  {
    if k < BLOCKS_PER_HALVING {
      QuotientUnique(n, BLOCKS_PER_HALVING, period, k);
    } else {
      QuotientUnique(n, BLOCKS_PER_HALVING, period + 1, 0);
    }
  }

  /** The period-jumping loop computes the premine plus the rewards of the blocks 0 .. n-1. */
  method CalculateCirculatingSupply(blockNumber: nat) returns (total: nat)
    ensures total == GENESIS_PREMINE + SumRewards(blockNumber)
  {
    total := GENESIS_PREMINE;
    var currentBlock := 0;
    var currentReward := INITIAL_BLOCK_REWARD;
    var currentHalving := 0;
    while currentBlock < blockNumber
      invariant currentBlock <= blockNumber && currentHalving < LAST_PERIOD
      invariant currentBlock == blockNumber || currentBlock == PeriodStart(currentHalving)
      invariant currentReward == Halved(currentHalving)
      invariant total == GENESIS_PREMINE + SumRewards(currentBlock)
    {
      var blocksInThisPeriod := BLOCKS_PER_HALVING;
      if currentHalving == MAX_HALVINGS {
        blocksInThisPeriod := blockNumber - currentBlock;
      }
      var blocksToProcess := blocksInThisPeriod;
      if currentBlock + blocksToProcess > blockNumber {
        blocksToProcess := blockNumber - currentBlock;
      }
      total := total + Pay(currentReward, blocksToProcess);
      SumWithinPeriod(currentHalving, currentBlock, blocksToProcess);
      PeriodBoundary(currentHalving, currentBlock + blocksToProcess, blocksToProcess);
      currentBlock := currentBlock + blocksToProcess;
      if currentBlock % BLOCKS_PER_HALVING == 0 && currentBlock > 0 {
        currentHalving := currentHalving + 1;
        if currentHalving > MAX_HALVINGS {
          break;
        }
        currentReward := currentReward / 2;
        CutOff(currentHalving);
        if currentReward < ANTD {
          RewardsStopAfter(currentHalving, currentBlock, blockNumber);
          break;
        }
      }
    }
  }

  /** The circulating supply never falls, never passes the cap, and meets it exactly at the end. */
  lemma SupplyLaws(m: nat, n: nat)
    requires m <= n
    ensures SumRewards(m) <= SumRewards(n)
    ensures GENESIS_PREMINE + SumRewards(n) <= SupplyCap()
    ensures GENESIS_PREMINE + SumRewards(n) == SupplyCap() <==> n >= LAST_PERIOD * BLOCKS_PER_HALVING
  {
    SumMonotone(m, n);
    var last := PeriodStart(LAST_PERIOD);
    SumOfFullPeriods(LAST_PERIOD, last);
    if n < last {
      PaysBeforeCutOff(n);
      PaidBlockRaisesSum(n, last);
    } else {
      RewardsStop(last, n);
    }
  }

  lemma PaysBeforeCutOff(n: nat)
    requires n < LAST_PERIOD * BLOCKS_PER_HALVING
    ensures BlockReward(n) >= ANTD
  {
    QuotientAtLeast(n, BLOCKS_PER_HALVING, LAST_PERIOD);
    PeriodRewardPositive(n / BLOCKS_PER_HALVING);
  }

  lemma PaidBlockRaisesSum(n: nat, last: nat)
    requires n < last && BlockReward(n) >= ANTD
    ensures SumRewards(n) < SumRewards(last)
  {
    SumMonotone(n + 1, last);
  }

  lemma PeriodRewardPositive(p: nat)
    requires p < LAST_PERIOD
    ensures PeriodReward(p) >= ANTD
  {
    CutOff(p);
  }

  /**
   * The formula counts blocks 0 .. n-1 while a chain of height n has paid blocks 1 .. n, so it
   * overstates the paid rewards by R(0) - R(n).
   */
  lemma {:induction false} CirculatingOverstates(n: nat)
    ensures SumRewards(n) + BlockReward(n) == PaidRewards(n) + BlockReward(0)
  {
    if n > 0 {
      CirculatingOverstates(n - 1);
    }
  }

  lemma BlockRewardAtMostInitial(n: nat)
    ensures BlockReward(n) <= BlockReward(0)
    ensures BlockReward(n) == BlockReward(0) <==> n < BLOCKS_PER_HALVING
  {
    HalvedValues();
    var p := n / BLOCKS_PER_HALVING;
    if p < LAST_PERIOD && p > 0 {
      assert p == 1 || p == 2 || p == 3 || p == 4 || p == 5 || p == 6 || p == 7;
    }
  }

  /** It is exact before the first halving and only there. */
  lemma CirculatingExact(n: nat)
    ensures SumRewards(n) == PaidRewards(n) <==> n < BLOCKS_PER_HALVING
    ensures PaidRewards(n) <= SumRewards(n)
  {
    CirculatingOverstates(n);
    BlockRewardAtMostInitial(n);
  }

  // ---------- the split of one block's reward ----------

  datatype Split = Split(miner: nat, mainKing: nat, rotatingKing: nat)

  /** 50, 20 and 130 parts of 200; an ineligible rotating king's part goes to the main king. */
  function SplitReward(totalReward: nat, rotatingEligible: bool): (s: Split)
    ensures s.miner + s.mainKing + s.rotatingKing == totalReward
    ensures s.miner == totalReward / 4
    ensures !rotatingEligible ==> s.rotatingKing == 0
    ensures rotatingEligible ==> s.mainKing == totalReward / 10 && (totalReward > 0 ==> s.rotatingKing > 0)
  {
    var minerReward := totalReward * 50 / 200;
    var mainReward := totalReward * 20 / 200;
    var rotatingShare := totalReward * 130 / 200;
    var remainder := totalReward - (minerReward + mainReward + rotatingShare);
    if rotatingEligible then Split(minerReward, mainReward, rotatingShare + remainder)
    else Split(minerReward, mainReward + rotatingShare + remainder, 0)
  }
}
