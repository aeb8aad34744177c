/** The money supply: block rewards, recycled fees, and what a whole run adds to the balances. */
module Supply {
  import opened Bytes
  import opened Wrappers
  import opened Accounts
  import opened Execution
  import opened Rewards

  function TotalFees(txs: seq<Tx>): int {
    if txs == [] then 0 else TotalFees(txs[..|txs| - 1]) + GasCost(txs[|txs| - 1])
  }

  /** Fee totals by parts: price times gas as a signed word, and sums over any division of the list. */
  lemma {:induction false} FeesOfParts(t: Tx, txs: seq<Tx>, more: seq<Tx>)
    ensures TotalFees([t]) == (t.gasPrice as int) * (if t.gas < TWO_63 then t.gas else t.gas - TWO_64)
    ensures TotalFees(txs + more) == TotalFees(txs) + TotalFees(more)
  {
    assert [t][..0] == [];
    if more == [] {
      assert txs + more == txs;
    } else {
      var n := |more| - 1;
      FeesOfParts(t, txs, more[..n]);
      assert (txs + more)[..|txs + more| - 1] == txs + more[..n];
    }
  }

  /** Block reward plus fees; a fee total that is not positive adds nothing. */
  function TotalReward(fees: int, blockNumber: nat): nat {
    BlockReward(blockNumber) + if fees > 0 then fees else 0
  }

  /** The rotating king's eligibility is read before any reward is credited. */
  function KingEligible(l: Ledger, king: Address): bool {
    king != NO_ADDRESS && l.Balance(king) >= ELIGIBILITY_THRESHOLD
  }

  function CreditSplit(l: Ledger, miner: Address, mainKing: Address, king: Address, s: Split): Ledger {
    var l' := l.Credited(miner, s.miner).Credited(mainKing, s.mainKing);
    if s.rotatingKing > 0 then l'.Credited(king, s.rotatingKing) else l'
  }

  function Distributed(l: Ledger, miner: Address, mainKing: Address, king: Address, fees: int, blockNumber: nat)
    : Ledger
  {
    var total := TotalReward(fees, blockNumber);
    if total == 0 then l else CreditSplit(l, miner, mainKing, king, SplitReward(total, KingEligible(l, king)))
  }

  class RewardDistributor {
    const mainKing: Address

    constructor (mainKing: Address)
      ensures this.mainKing == mainKing
    {
      this.mainKing := mainKing;
    }

    method CreditAll(state: State, miner: Address, king: Address, s: Split)
      modifies state
      ensures state.View() == CreditSplit(old(state.View()), miner, mainKing, king, s)
    {
      var _ := state.AddBalance(miner, s.miner);
      var _ := state.AddBalance(mainKing, s.mainKing);
      if s.rotatingKing > 0 {
        var _ := state.AddBalance(king, s.rotatingKing);
      }
    }

    method DistributeRewards(state: State, miner: Address, transactionFees: int, blockNumber: nat, king: Address)
      returns (distribution: Split)
      modifies state
      ensures state.View() == Distributed(old(state.View()), miner, mainKing, king, transactionFees, blockNumber)
      ensures distribution == SplitReward(TotalReward(transactionFees, blockNumber),
                                          KingEligible(old(state.View()), king))
    {
      var totalReward := CalculateBlockReward(blockNumber);
      if transactionFees > 0 {
        totalReward := totalReward + transactionFees;
      }
      var rotatingEligible := KingEligible(state.View(), king);
      distribution := SplitReward(totalReward, rotatingEligible);
      if totalReward != 0 {
        CreditAll(state, miner, king, distribution);
      }
    }

    /** applyMinerReward: sums the fees of the block and distributes. A zero miner is refused. */
    method ApplyMinerReward(state: State, coinbase: Address, txs: seq<Tx>, blockNumber: nat, king: Address)
      returns (ok: bool)
      modifies state
      ensures ok <==> coinbase != NO_ADDRESS
      ensures state.View() ==
                if ok then Distributed(old(state.View()), coinbase, mainKing, king, TotalFees(txs), blockNumber)
                else old(state.View())
    {
      if coinbase == NO_ADDRESS {
        return false;
      }
      var totalFees := 0;
      for i := 0 to |txs|
        invariant totalFees == TotalFees(txs[..i])
      {
        assert txs[..i + 1][..i] == txs[..i];
        totalFees := totalFees + GasCost(txs[i]);
      }
      assert txs[..|txs|] == txs;
      var _ := DistributeRewards(state, coinbase, totalFees, blockNumber, king);
      ok := true;
    }
  }

  // ---------- conservation, one block ----------

  lemma CreditedSupply(l: Ledger, a: Address, amount: nat)
    ensures l.Credited(a, amount).Supply() == l.Supply() + amount
  {
    SupplyAfter(l, a, l.Balance(a) + amount);
  }

  /** An applied transaction takes exactly its gas cost out of the balances. */
  lemma ApplyBurnsGas(contractAddress: (Address, nat) -> Address, l: Ledger, t: Tx)
    requires Apply(contractAddress, l, t).error.None?
    ensures Apply(contractAddress, l, t).ledger.Supply() == l.Supply() - GasCost(t)
  {
    var paid := Debited(l, t);
    SupplyAfter(l, t.from, l.Balance(t.from) - Cost(t));
    match t.to
    case Some(to) =>
      SupplyAfter(paid, to, 0);
      var start := if paid.Blank(to) then paid.WithBalance(to, 0).WithNonce(to, 0) else paid;
      CreditedSupply(start, to, t.value);
    case None =>
      SupplyAfter(paid, contractAddress(t.from, t.nonce), t.value);
  }

  lemma {:induction false} FeesOfFirst(txs: seq<Tx>)
    requires txs != []
    ensures TotalFees(txs) == GasCost(txs[0]) + TotalFees(txs[1..])
  {
    var n := |txs| - 1;
    if n > 0 {
      FeesOfFirst(txs[..n]);
      assert txs[..n][1..] == txs[1..][..n - 1];
    }
  }

  lemma {:induction false} ApplyAllBurnsFees(contractAddress: (Address, nat) -> Address, l: Ledger, txs: seq<Tx>)
    requires ApplyAll(contractAddress, l, txs).error.None?
    ensures ApplyAll(contractAddress, l, txs).ledger.Supply() == l.Supply() - TotalFees(txs)
    decreases |txs|
  {
    if txs != [] {
      ApplyBurnsGas(contractAddress, l, txs[0]);
      ApplyAllBurnsFees(contractAddress, Apply(contractAddress, l, txs[0]).ledger, txs[1..]);
      FeesOfFirst(txs);
    }
  }

  /** The whole reward is credited, whichever of the three recipients coincide. */
  lemma DistributionPaysAll(l: Ledger, miner: Address, mainKing: Address, king: Address, fees: int, blockNumber: nat)
    ensures Distributed(l, miner, mainKing, king, fees, blockNumber).Supply()
         == l.Supply() + TotalReward(fees, blockNumber)
  {
    var s := SplitReward(TotalReward(fees, blockNumber), KingEligible(l, king));
    var l1 := l.Credited(miner, s.miner);
    CreditedSupply(l, miner, s.miner);
    CreditedSupply(l1, mainKing, s.mainKing);
    CreditedSupply(l1.Credited(mainKing, s.mainKing), king, s.rotatingKing);
  }

  // ---------- the shares of one block ----------

  /** Who receives the rotating king's share. */
  function Payee(l: Ledger, mainKing: Address, king: Address): Address {
    if KingEligible(l, king) then king else mainKing
  }

  /** The part of a reward that is left for the payee once miner and main king have theirs. */
  function KingShare(total: nat): (share: nat)
    ensures share > 0 <==> total > 0
  {
    total - total / 4 - total / 10
  }

  /** The three shares, the payee's last. */
  function Paid(l: Ledger, miner: Address, mainKing: Address, payee: Address, total: nat): Ledger {
    l.Credited(miner, total / 4).Credited(mainKing, total / 10).Credited(payee, KingShare(total))
  }

  lemma CreditedTwice(l: Ledger, a: Address, x: nat, y: nat)
    ensures l.Credited(a, x).Credited(a, y) == l.Credited(a, x + y)
  {
  }

  lemma SharesOf(total: nat, eligible: bool)
    ensures var s := SplitReward(total, eligible);
            && s.miner == total / 4
            && (eligible ==> s.mainKing == total / 10 && s.rotatingKing == KingShare(total))
            && (!eligible ==> s.mainKing == total / 10 + KingShare(total) && s.rotatingKing == 0)
  {
  }

  /** The king matters only through the payee, whichever of the recipients coincide. */
  lemma DistributedIsPaid(l: Ledger, miner: Address, mainKing: Address, king: Address, fees: int, number: nat)
    requires TotalReward(fees, number) > 0
    ensures Distributed(l, miner, mainKing, king, fees, number) ==
              Paid(l, miner, mainKing, Payee(l, mainKing, king), TotalReward(fees, number))
  {
    var total := TotalReward(fees, number);
    SharesOf(total, KingEligible(l, king));
    CreditedTwice(l.Credited(miner, total / 4), mainKing, total / 10, KingShare(total));
  }

  lemma PaidBalance(l: Ledger, miner: Address, mainKing: Address, payee: Address, total: nat, a: Address)
    ensures Paid(l, miner, mainKing, payee, total).Balance(a) ==
              l.Balance(a) + (if a == miner then total / 4 else 0) + (if a == mainKing then total / 10 else 0)
              + (if a == payee then KingShare(total) else 0)
  {
  }

  /** What `a` gets of a reward: a quarter as miner, a tenth as main king, and the rest as payee. */
  function Share(total: nat, miner: Address, mainKing: Address, payee: Address, a: Address): int {
    (if a == miner then total / 4 else 0) + (if a == mainKing then total / 10 else 0)
    + (if a == payee then total - total / 4 - total / 10 else 0)
  }

  /** What each account gets: a quarter, a tenth, and the rest, in base units with every remainder in the rest. */
  lemma DistributedAccounts(l: Ledger, miner: Address, mainKing: Address, king: Address, fees: int, number: nat,
                            a: Address)
    ensures var after := Distributed(l, miner, mainKing, king, fees, number);
            var total := BlockReward(number) + if fees > 0 then fees else 0;
            var payee := if king != NO_ADDRESS && l.Balance(king) >= 100_000_000_000_000_000_000_000 then king
                         else mainKing;
            && after.Balance(a) == l.Balance(a) + Share(total, miner, mainKing, payee, a)
            && after.nonces == l.nonces && after.codes == l.codes
  {
    var total := TotalReward(fees, number);
    if total > 0 {
      DistributedIsPaid(l, miner, mainKing, king, fees, number);
      PaidBalance(l, miner, mainKing, Payee(l, mainKing, king), total, a);
    }
  }

  // ---------- conservation, one block by the apply functions ----------

  /** A block as far as the supply is concerned. */
  datatype Block = Block(txs: seq<Tx>, coinbase: Address, king: Address)

  function BlockApplied(contractAddress: (Address, nat) -> Address, mainKing: Address, l: Ledger, b: Block, height: nat)
    : Ledger
  {
    Distributed(ApplyAll(contractAddress, l, b.txs).ledger, b.coinbase, mainKing, b.king, TotalFees(b.txs), height)
  }

  /**
   * By applyBlockTransactions and applyMinerReward a block changes the sum of all balances by exactly the
   * block reward, provided its fee total is not negative; the int64 conversion of gas makes a negative
   * total possible, and then the missing fees are minted as well. No block is validated this way.
   */
  lemma BlockAddsReward(contractAddress: (Address, nat) -> Address, mainKing: Address, l: Ledger, b: Block, height: nat)
    requires ApplyAll(contractAddress, l, b.txs).error.None?
    ensures var fees, after := TotalFees(b.txs), BlockApplied(contractAddress, mainKing, l, b, height).Supply();
            && (after == l.Supply() + BlockReward(height) <==> fees >= 0)
            && (fees < 0 ==> after == l.Supply() + BlockReward(height) - fees)
  {
    ApplyAllBurnsFees(contractAddress, l, b.txs);
    DistributionPaysAll(ApplyAll(contractAddress, l, b.txs).ledger, b.coinbase, mainKing, b.king,
                        TotalFees(b.txs), height);
  }

  /** Gas below 2^63 in every transaction is enough for a fee total that is not negative. */
  lemma {:induction false} SmallGasFeesNotNegative(txs: seq<Tx>)
    requires forall i :: 0 <= i < |txs| ==> txs[i].gas < TWO_63
    ensures TotalFees(txs) >= 0
  {
    if txs != [] {
      SmallGasFeesNotNegative(txs[..|txs| - 1]);
    }
  }

  /** Gas of 2^63 or more turns the fees of a transaction negative. */
  lemma HugeGasGivesNegativeFees(t: Tx)
    requires TWO_63 <= t.gas < TWO_64 && t.gasPrice > 0
    ensures TotalFees([t]) < 0
  {
    assert [t][..0] == [];
    assert GasCost(t) < 0;
  }

  /** Such a transaction is applied, on an account that holds no more than its value, and money appears. */
  lemma HugeGasIsApplied(contractAddress: (Address, nat) -> Address, mainKing: Address, t: Tx, coinbase: Address,
                         king: Address, height: nat)
    requires TWO_63 <= t.gas < TWO_64 && t.gasPrice > 0 && t.nonce == 0 && t.to.Some?
    ensures var l, b := Ledger(map[t.from := t.value], map[], map[]), Block([t], coinbase, king);
            && ApplyAll(contractAddress, l, [t]).error.None?
            && BlockApplied(contractAddress, mainKing, l, b, height).Supply() > l.Supply() + BlockReward(height)
  {
    var l, b := Ledger(map[t.from := t.value], map[], map[]), Block([t], coinbase, king);
    HugeGasGivesNegativeFees(t);
    assert GasCost(t) <= 0 && Apply(contractAddress, l, t).error.None?;
    assert [t][1..] == [];
    assert ApplyAll(contractAddress, l, [t]).error.None?;
    BlockAddsReward(contractAddress, mainKing, l, b, height);
  }

  // ---------- conservation over runs ----------

  ghost function Run(contractAddress: (Address, nat) -> Address, mainKing: Address, l: Ledger, blocks: seq<Block>)
    : Ledger
  {
    if blocks == [] then l
    else
      var n := |blocks| - 1;
      BlockApplied(contractAddress, mainKing, Run(contractAddress, mainKing, l, blocks[..n]), blocks[n], n + 1)
  }

  /** Every block of the run is applied without failure and carries no negative fee total. */
  ghost predicate RunSucceeds(contractAddress: (Address, nat) -> Address, mainKing: Address, l: Ledger,
                              blocks: seq<Block>)
  {
    forall n {:trigger blocks[n]} :: 0 <= n < |blocks| ==>
      && ApplyAll(contractAddress, Run(contractAddress, mainKing, l, blocks[..n]), blocks[n].txs).error.None?
      && TotalFees(blocks[n].txs) >= 0
      && blocks[n].coinbase != NO_ADDRESS
  }

  lemma RunPrefix(contractAddress: (Address, nat) -> Address, mainKing: Address, l: Ledger, blocks: seq<Block>, n: nat)
    requires RunSucceeds(contractAddress, mainKing, l, blocks) && n <= |blocks|
    ensures RunSucceeds(contractAddress, mainKing, l, blocks[..n])
  {
    forall k {:trigger blocks[..n][k]} | 0 <= k < n
      ensures ApplyAll(contractAddress, Run(contractAddress, mainKing, l, blocks[..n][..k]),
                       blocks[..n][k].txs).error.None?
      ensures TotalFees(blocks[..n][k].txs) >= 0 && blocks[..n][k].coinbase != NO_ADDRESS
    {
      assert blocks[..n][..k] == blocks[..k] && blocks[..n][k] == blocks[k];
    }
  }

  /** After n blocks on the premined genesis the balances sum to the premine plus the paid rewards. */
  lemma {:induction false} SupplyAfterRun(contractAddress: (Address, nat) -> Address, mainKing: Address, l: Ledger,
                                          blocks: seq<Block>)
    requires l.Supply() == GENESIS_PREMINE && RunSucceeds(contractAddress, mainKing, l, blocks)
    ensures Run(contractAddress, mainKing, l, blocks).Supply() == GENESIS_PREMINE + PaidRewards(|blocks|)
  {
    if blocks != [] {
      var n := |blocks| - 1;
      RunPrefix(contractAddress, mainKing, l, blocks, n);
      SupplyAfterRun(contractAddress, mainKing, l, blocks[..n]);
      assert TotalFees(blocks[n].txs) >= 0;
      BlockAddsReward(contractAddress, mainKing, Run(contractAddress, mainKing, l, blocks[..n]), blocks[n], n + 1);
    }
  }

  /** The supply of every such run stays under the cap, and reaches at most the published circulation. */
  lemma SupplyNeverPassesCap(contractAddress: (Address, nat) -> Address, mainKing: Address, l: Ledger,
                             blocks: seq<Block>)
    requires l.Supply() == GENESIS_PREMINE && RunSucceeds(contractAddress, mainKing, l, blocks)
    ensures Run(contractAddress, mainKing, l, blocks).Supply() <= GENESIS_PREMINE + SumRewards(|blocks|) <= SupplyCap()
  {
    SupplyAfterRun(contractAddress, mainKing, l, blocks);
    CirculatingExact(|blocks|);
    SupplyLaws(0, |blocks|);
  }

  /** The genesis store credits the premine to the main king. */
  lemma GenesisSupply(mainKing: Address)
    ensures Ledger(map[], map[], map[]).Credited(mainKing, GENESIS_PREMINE).Supply() == GENESIS_PREMINE
  {
    CreditedSupply(Ledger(map[], map[], map[]), mainKing, GENESIS_PREMINE);
  }
}
