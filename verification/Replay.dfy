/** The replay of stored blocks, the account store a revert rebuilds with it, and what can be connected afterwards. */
module Replay {
  import opened Bytes
  import opened Wrappers
  import opened Accounts
  import opened Execution
  import opened Rewards
  import opened Supply
  import opened BlockExecution

  // ---------- one block ----------

  /** Replaying executes without the checks, pays out no fees, and pays whoever is king now. */
  function Replayed(callTarget: Address, mainKing: Address, presentKing: Address, l: Ledger, b: SealedBlock): Verdict {
    var r := ReplayedAll(callTarget, Machine(b.gasLimit, l), b.txs);
    if r.error.Some? then Verdict(r.error, r.machine.ledger)
    else Verdict(None, Distributed(r.machine.ledger, b.coinbase, mainKing, presentKing, 0, b.number))
  }

  lemma {:induction false} ReplayFailureIsFinal(callTarget: Address, m: Machine, txs: seq<Tx>, i: nat)
    requires i <= |txs| && ReplayedAll(callTarget, m, txs[..i]).error.Some?
    ensures ReplayedAll(callTarget, m, txs) == ReplayedAll(callTarget, m, txs[..i])
  {
    if i < |txs| {
      assert txs[..|txs| - 1][..i] == txs[..i];
      ReplayFailureIsFinal(callTarget, m, txs[..|txs| - 1], i);
    } else {
      assert txs[..i] == txs;
    }
  }

  lemma ReplayStep(callTarget: Address, m: Machine, txs: seq<Tx>, i: nat, now: Machine)
    requires i < |txs| && ReplayedAll(callTarget, m, txs[..i]) == Result(None, now)
    ensures var r := Executed(callTarget, now, txs[i]);
            && ReplayedAll(callTarget, m, txs[..i + 1]) == r
            && (r.error.Some? ==> ReplayedAll(callTarget, m, txs) == r)
  {
    assert txs[..i + 1][..i] == txs[..i];
    if Executed(callTarget, now, txs[i]).error.Some? {
      ReplayFailureIsFinal(callTarget, m, txs, i + 1);
    }
  }

  method ExecuteBlockOnState(callTarget: Address, distributor: RewardDistributor, presentKing: Address, state: State,
                             b: SealedBlock)
    returns (error: Option<BlockError>)
    modifies state
    ensures Verdict(error, state.View()) ==
              Replayed(callTarget, distributor.mainKing, presentKing, old(state.View()), b)
  {
    ghost var m := Machine(b.gasLimit, state.View());
    var v := new VM(state, b.gasLimit);
    for i := 0 to |b.txs|
      invariant fresh(v) && v.s == state
      invariant ReplayedAll(callTarget, m, b.txs[..i]) == Result(None, v.View())
    {
      ReplayStep(callTarget, m, b.txs, i, v.View());
      error := v.Execute(callTarget, b.txs[i]);
      if error.Some? {
        return;
      }
    }
    assert b.txs[..|b.txs|] == b.txs;
    var _ := distributor.DistributeRewards(state, b.coinbase, 0, b.number, presentKing);
    error := None;
  }

  /** A replayed block adds exactly its reward. */
  lemma ReplayedBlockConserves(callTarget: Address, mainKing: Address, presentKing: Address, l: Ledger, b: SealedBlock)
    requires Replayed(callTarget, mainKing, presentKing, l, b).error.None?
    ensures Replayed(callTarget, mainKing, presentKing, l, b).ledger.Supply() == l.Supply() + BlockReward(b.number)
  {
    ReplayedAllKeepsSupply(callTarget, Machine(b.gasLimit, l), b.txs);
    DistributionPaysAll(ReplayedAll(callTarget, Machine(b.gasLimit, l), b.txs).machine.ledger, b.coinbase, mainKing,
                        presentKing, 0, b.number);
  }

  lemma PayeeDecides(l: Ledger, miner: Address, mainKing: Address, king: Address, king': Address, number: nat)
    ensures Distributed(l, miner, mainKing, king, 0, number) == Distributed(l, miner, mainKing, king', 0, number) <==>
              BlockReward(number) == 0 || Payee(l, mainKing, king) == Payee(l, mainKing, king')
  {
    var total, p, p' := BlockReward(number), Payee(l, mainKing, king), Payee(l, mainKing, king');
    if total > 0 {
      DistributedIsPaid(l, miner, mainKing, king, 0, number);
      DistributedIsPaid(l, miner, mainKing, king', 0, number);
      PaidBalance(l, miner, mainKing, p, total, p);
      PaidBalance(l, miner, mainKing, p', total, p);
    }
  }

  lemma FeesShowInAccounts(l: Ledger, miner: Address, mainKing: Address, king: Address, king': Address, fees: int,
                           number: nat)
    ensures Distributed(l, miner, mainKing, king, 0, number) == Distributed(l, miner, mainKing, king', fees, number) ==>
              fees <= 0
    ensures fees <= 0 ==>
              Distributed(l, miner, mainKing, king', fees, number) == Distributed(l, miner, mainKing, king', 0, number)
  {
    DistributionPaysAll(l, miner, mainKing, king, 0, number);
    DistributionPaysAll(l, miner, mainKing, king', fees, number);
  }

  /** The ledger a block's transactions leave on `l`, before anything is paid out. */
  function Unpaid(callTarget: Address, l: Ledger, b: SealedBlock): Ledger {
    ReplayedAll(callTarget, Machine(b.gasLimit, l), b.txs).machine.ledger
  }

  /** No fees to pay out, and the king of the block and the present one stand for the same payee. */
  predicate ReplayFaithful(callTarget: Address, mainKing: Address, presentKing: Address, l: Ledger, b: SealedBlock) {
    && TotalFees(b.txs) <= 0
    && var unpaid := Unpaid(callTarget, l, b);
       BlockReward(b.number) == 0 || Payee(unpaid, mainKing, presentKing) == Payee(unpaid, mainKing, b.king)
  }

  /**
   * A validated block can always be replayed on the same accounts. It gives the same result if and only if it
   * had no fees to pay out and the present king's payee is the one that the block paid.
   */
  lemma ReplayAgreesIff(env: Env, mainKing: Address, presentKing: Address, l: Ledger, b: SealedBlock)
    requires Validated(env, mainKing, l, b).error.None?
    ensures Replayed(env.callTarget, mainKing, presentKing, l, b).error.None?
    ensures Replayed(env.callTarget, mainKing, presentKing, l, b).ledger == Validated(env, mainKing, l, b).ledger <==>
              ReplayFaithful(env.callTarget, mainKing, presentKing, l, b)
  {
    var unpaid := Unpaid(env.callTarget, l, b);
    AcceptedIsReplayed(env, Machine(b.gasLimit, l), ParentHeight(b.number), b.txs);
    FeesShowInAccounts(unpaid, b.coinbase, mainKing, presentKing, b.king, TotalFees(b.txs), b.number);
    PayeeDecides(unpaid, b.coinbase, mainKing, presentKing, b.king, b.number);
  }

  /** An empty block that names a king with enough stake, replayed when another one with enough stake is king. */
  lemma KingChangeShows(env: Env, mainKing: Address, k1: Address, k2: Address, coinbase: Address, gasLimit: nat)
    requires k1 != k2 && k1 != NO_ADDRESS && k2 != NO_ADDRESS
    ensures var l := Ledger(map[k1 := ELIGIBILITY_THRESHOLD, k2 := ELIGIBILITY_THRESHOLD], map[], map[]);
            var b := SealedBlock(1, gasLimit, 0, coinbase, k1, []);
            && Validated(env, mainKing, l, b).error.None? && TotalFees(b.txs) == 0
            && Replayed(env.callTarget, mainKing, k2, l, b).ledger != Validated(env, mainKing, l, b).ledger
            && Replayed(env.callTarget, mainKing, k1, l, b).ledger == Validated(env, mainKing, l, b).ledger
  {
    var l := Ledger(map[k1 := ELIGIBILITY_THRESHOLD, k2 := ELIGIBILITY_THRESHOLD], map[], map[]);
    var b := SealedBlock(1, gasLimit, 0, coinbase, k1, []);
    FirstReward();
    ReplayAgreesIff(env, mainKing, k1, l, b);
    ReplayAgreesIff(env, mainKing, k2, l, b);
  }

  lemma FirstReward()
    ensures BlockReward(1) == INITIAL_BLOCK_REWARD
  {
    assert 1 / BLOCKS_PER_HALVING == 0;
  }

  // ---------- a whole chain ----------

  /** The store a revert rebuilds: all blocks replayed on the genesis accounts, up to the first failure. */
  ghost function Rebuilt(callTarget: Address, mainKing: Address, presentKing: Address, l: Ledger,
                         blocks: seq<SealedBlock>): Verdict
  {
    if blocks == [] then Verdict(None, l)
    else
      var n := |blocks| - 1;
      var before := Rebuilt(callTarget, mainKing, presentKing, l, blocks[..n]);
      if before.error.Some? then before
      else Replayed(callTarget, mainKing, presentKing, before.ledger, blocks[n])
  }

  lemma {:induction false} RebuildFailureIsFinal(callTarget: Address, mainKing: Address, presentKing: Address,
                                                 l: Ledger, blocks: seq<SealedBlock>, n: nat)
    requires n <= |blocks| && Rebuilt(callTarget, mainKing, presentKing, l, blocks[..n]).error.Some?
    ensures Rebuilt(callTarget, mainKing, presentKing, l, blocks) ==
              Rebuilt(callTarget, mainKing, presentKing, l, blocks[..n])
  {
    if n < |blocks| {
      assert blocks[..|blocks| - 1][..n] == blocks[..n];
      RebuildFailureIsFinal(callTarget, mainKing, presentKing, l, blocks[..|blocks| - 1], n);
    } else {
      assert blocks[..n] == blocks;
    }
  }

  lemma RebuiltStep(callTarget: Address, mainKing: Address, presentKing: Address, l: Ledger, blocks: seq<SealedBlock>,
                    n: nat, now: Ledger)
    requires n < |blocks| && Rebuilt(callTarget, mainKing, presentKing, l, blocks[..n]) == Verdict(None, now)
    ensures var next := Replayed(callTarget, mainKing, presentKing, now, blocks[n]);
            && Rebuilt(callTarget, mainKing, presentKing, l, blocks[..n + 1]) == next
            && (next.error.Some? ==> Rebuilt(callTarget, mainKing, presentKing, l, blocks) == next)
  {
    assert blocks[..n + 1][..n] == blocks[..n];
    if Replayed(callTarget, mainKing, presentKing, now, blocks[n]).error.Some? {
      RebuildFailureIsFinal(callTarget, mainKing, presentKing, l, blocks, n + 1);
    }
  }

  /** The account part of revertToHeight: a fresh store with the genesis accounts, and every block replayed on it. */
  method RebuildState(callTarget: Address, distributor: RewardDistributor, presentKing: Address, genesis: Ledger,
                      blocks: seq<SealedBlock>)
    returns (error: Option<BlockError>, state: State)
    ensures fresh(state)
    ensures Verdict(error, state.View()) ==
              Rebuilt(callTarget, distributor.mainKing, presentKing, genesis, blocks)
  {
    state := new State(genesis);
    for h := 0 to |blocks|
      invariant fresh(state)
      invariant Rebuilt(callTarget, distributor.mainKing, presentKing, genesis, blocks[..h]) ==
          Verdict(None, state.View())
    {
      ghost var before := state.View();
      error := ExecuteBlockOnState(callTarget, distributor, presentKing, state, blocks[h]);
      RebuiltStep(callTarget, distributor.mainKing, presentKing, genesis, blocks, h, before);
      if error.Some? {
        return;
      }
    }
    error := None;
    assert blocks[..|blocks|] == blocks;
  }

  // ---------- how far a rebuilt store is from the chain's ----------

  /** How far the rebuilt accounts `r` lead the chain's `o` for the present king, and lag behind for anyone else. */
  function Gap(o: Ledger, r: Ledger, presentKing: Address, a: Address): int {
    if a == presentKing then r.Balance(a) - o.Balance(a) else o.Balance(a) - r.Balance(a)
  }

  /** Apart from the main king nobody but the present king is ever ahead in the rebuilt store. */
  ghost predicate Leans(o: Ledger, r: Ledger, mainKing: Address, presentKing: Address) {
    forall a: Address :: a != mainKing ==> Gap(o, r, presentKing, a) >= 0
  }

  predicate PartedAt(o: Ledger, r: Ledger, mainKing: Address, presentKing: Address, a: Address) {
    a != mainKing && Gap(o, r, presentKing, a) > 0
  }

  ghost predicate Parted(o: Ledger, r: Ledger, mainKing: Address, presentKing: Address) {
    exists a: Address :: PartedAt(o, r, mainKing, presentKing, a)
  }

  lemma NotPartedFromItself(o: Ledger, mainKing: Address, presentKing: Address)
    ensures !Parted(o, o, mainKing, presentKing)
  {
  }

  lemma MovedShift(l: Ledger, l': Ledger, from: Address, to: Address, value: nat, a: Address)
    requires value <= l.Balance(from) && value <= l'.Balance(from)
    ensures Moved(l', from, to, value).Balance(a) - Moved(l, from, to, value).Balance(a) == l'.Balance(a) - l.Balance(a)
  {
  }

  /** A transaction that succeeds on two stores keeps their differences. */
  lemma ExecutedShift(callTarget: Address, m: Machine, m': Machine, t: Tx, a: Address)
    requires m.gas == m'.gas
    requires Executed(callTarget, m, t).error.None? && Executed(callTarget, m', t).error.None?
    ensures var n, n' := Executed(callTarget, m, t).machine, Executed(callTarget, m', t).machine;
            n.gas == n'.gas && n'.ledger.Balance(a) - n.ledger.Balance(a) == m'.ledger.Balance(a) - m.ledger.Balance(a)
  {
    if t.data != [] {
      MovedShift(m.ledger, m'.ledger, NO_ADDRESS, callTarget, CALL_AMOUNT, a);
    } else {
      MovedShift(m.ledger, m'.ledger, t.from, t.to.value, t.value, a);
    }
  }

  lemma {:induction false} ReplayedShift(callTarget: Address, m: Machine, m': Machine, txs: seq<Tx>, a: Address)
    requires m.gas == m'.gas
    requires ReplayedAll(callTarget, m, txs).error.None? && ReplayedAll(callTarget, m', txs).error.None?
    ensures var n, n' := ReplayedAll(callTarget, m, txs).machine, ReplayedAll(callTarget, m', txs).machine;
            n.gas == n'.gas && n'.ledger.Balance(a) - n.ledger.Balance(a) == m'.ledger.Balance(a) - m.ledger.Balance(a)
  {
    if txs != [] {
      var front := txs[..|txs| - 1];
      ReplayedShift(callTarget, m, m', front, a);
      ExecutedShift(callTarget, ReplayedAll(callTarget, m, front).machine, ReplayedAll(callTarget, m', front).machine,
                    txs[|txs| - 1], a);
    }
  }

  /** Whether the rebuilt store pays the present king or the block's, the payee never closes a gap. */
  lemma PayeesLean(o: Ledger, r: Ledger, mainKing: Address, presentKing: Address, king: Address, king': Address,
                   a: Address)
    requires Leans(o, r, mainKing, presentKing) && king' in {presentKing, king} && a != mainKing
    ensures a == presentKing && Payee(o, mainKing, king) == a ==> Payee(r, mainKing, king') == a
    ensures a != presentKing && Payee(r, mainKing, king') == a ==> Payee(o, mainKing, king) == a
  {
    assert Gap(o, r, presentKing, a) >= 0;
  }

  lemma RewardsLean(o: Ledger, r: Ledger, mainKing: Address, presentKing: Address, king: Address, king': Address,
                    miner: Address, fees: int, fees': int, number: nat, a: Address)
    requires Leans(o, r, mainKing, presentKing) && king' in {presentKing, king} && a != mainKing
    requires TotalReward(fees, number) == TotalReward(fees', number)
    ensures Gap(Distributed(o, miner, mainKing, king, fees, number),
                Distributed(r, miner, mainKing, king', fees', number), presentKing, a) >= Gap(o, r, presentKing, a)
  {
    var total := TotalReward(fees, number);
    if total > 0 {
      PayeesLean(o, r, mainKing, presentKing, king, king', a);
      DistributedIsPaid(o, miner, mainKing, king, fees, number);
      DistributedIsPaid(r, miner, mainKing, king', fees', number);
      PaidBalance(o, miner, mainKing, Payee(o, mainKing, king), total, a);
      PaidBalance(r, miner, mainKing, Payee(r, mainKing, king'), total, a);
    }
  }

  /** Paying different payees from one store parts the two results. */
  lemma DifferentPayeesPart(l: Ledger, mainKing: Address, presentKing: Address, king: Address, miner: Address,
                            fees: int, number: nat)
    requires fees <= 0 && BlockReward(number) > 0 && Payee(l, mainKing, presentKing) != Payee(l, mainKing, king)
    ensures Parted(Distributed(l, miner, mainKing, king, fees, number),
                   Distributed(l, miner, mainKing, presentKing, 0, number), mainKing, presentKing)
  {
    var p, q, total := Payee(l, mainKing, king), Payee(l, mainKing, presentKing), BlockReward(number);
    var a := if p == mainKing then q else p;
    DistributedIsPaid(l, miner, mainKing, king, fees, number);
    DistributedIsPaid(l, miner, mainKing, presentKing, 0, number);
    PaidBalance(l, miner, mainKing, p, total, a);
    PaidBalance(l, miner, mainKing, q, total, a);
    assert PartedAt(Distributed(l, miner, mainKing, king, fees, number),
                    Distributed(l, miner, mainKing, presentKing, 0, number), mainKing, presentKing, a);
  }

  predicate Replayable(callTarget: Address, l: Ledger, b: SealedBlock) {
    ReplayedAll(callTarget, Machine(b.gasLimit, l), b.txs).error.None?
  }

  lemma UnpaidGap(callTarget: Address, presentKing: Address, o: Ledger, r: Ledger, b: SealedBlock, a: Address)
    requires Replayable(callTarget, o, b) && Replayable(callTarget, r, b)
    ensures Gap(Unpaid(callTarget, o, b), Unpaid(callTarget, r, b), presentKing, a) == Gap(o, r, presentKing, a)
  {
    ReplayedShift(callTarget, Machine(b.gasLimit, o), Machine(b.gasLimit, r), b.txs, a);
  }

  /** One block, executed on both stores and paid out on each, keeps the lean and every gap. */
  lemma BlockLeans(callTarget: Address, mainKing: Address, presentKing: Address, o: Ledger, r: Ledger, b: SealedBlock,
                   king': Address, fees: int, fees': int)
    requires Replayable(callTarget, o, b) && Replayable(callTarget, r, b)
    requires Leans(o, r, mainKing, presentKing) && king' in {presentKing, b.king}
    requires TotalReward(fees, b.number) == TotalReward(fees', b.number)
    ensures var o' := Distributed(Unpaid(callTarget, o, b), b.coinbase, mainKing, b.king, fees, b.number);
            var r' := Distributed(Unpaid(callTarget, r, b), b.coinbase, mainKing, king', fees', b.number);
            && Leans(o', r', mainKing, presentKing)
            && (Parted(o, r, mainKing, presentKing) ==> Parted(o', r', mainKing, presentKing))
  {
    var u, v := Unpaid(callTarget, o, b), Unpaid(callTarget, r, b);
    var o' := Distributed(u, b.coinbase, mainKing, b.king, fees, b.number);
    var r' := Distributed(v, b.coinbase, mainKing, king', fees', b.number);
    forall a: Address | a != mainKing ensures Gap(u, v, presentKing, a) == Gap(o, r, presentKing, a) {
      UnpaidGap(callTarget, presentKing, o, r, b, a);
    }
    forall a: Address | a != mainKing ensures Gap(o', r', presentKing, a) >= Gap(o, r, presentKing, a) {
      RewardsLean(u, v, mainKing, presentKing, b.king, king', b.coinbase, fees, fees', b.number, a);
    }
    if Parted(o, r, mainKing, presentKing) {
      var a: Address :| PartedAt(o, r, mainKing, presentKing, a);
      assert PartedAt(o', r', mainKing, presentKing, a);
    }
  }

  // ---------- when the rebuilt store is the chain's ----------

  ghost predicate FaithfulAt(env: Env, mainKing: Address, presentKing: Address, l: Ledger, blocks: seq<SealedBlock>,
                             n: nat)
    requires n < |blocks|
  {
    ReplayFaithful(env.callTarget, mainKing, presentKing, RunOf(env, mainKing, l, blocks[..n]), blocks[n])
  }

  ghost predicate AllFaithful(env: Env, mainKing: Address, presentKing: Address, l: Ledger, blocks: seq<SealedBlock>) {
    forall n {:trigger FaithfulAt(env, mainKing, presentKing, l, blocks, n)} :: 0 <= n < |blocks| ==>
      FaithfulAt(env, mainKing, presentKing, l, blocks, n)
  }

  lemma AllFaithfulSnoc(env: Env, mainKing: Address, presentKing: Address, l: Ledger, blocks: seq<SealedBlock>)
    requires blocks != []
    ensures var n := |blocks| - 1;
            AllFaithful(env, mainKing, presentKing, l, blocks) <==>
              AllFaithful(env, mainKing, presentKing, l, blocks[..n]) &&
              FaithfulAt(env, mainKing, presentKing, l, blocks, n)
  {
    var n := |blocks| - 1;
    forall k | 0 <= k < n
      ensures FaithfulAt(env, mainKing, presentKing, l, blocks, k) ==
                FaithfulAt(env, mainKing, presentKing, l, blocks[..n], k)
    {
      assert blocks[..n][..k] == blocks[..k];
    }
  }

  /** Where every block is replayed faithfully, the rebuilt store is the chain's. */
  lemma {:induction false} FaithfulRebuilds(env: Env, mainKing: Address, presentKing: Address, l: Ledger,
                                            blocks: seq<SealedBlock>)
    requires RunAccepted(env, mainKing, l, blocks) && AllFaithful(env, mainKing, presentKing, l, blocks)
    ensures Rebuilt(env.callTarget, mainKing, presentKing, l, blocks) == Verdict(None, RunOf(env, mainKing, l, blocks))
  {
    if blocks != [] {
      var n := |blocks| - 1;
      RunAcceptedPrefix(env, mainKing, l, blocks, n);
      AllFaithfulSnoc(env, mainKing, presentKing, l, blocks);
      FaithfulRebuilds(env, mainKing, presentKing, l, blocks[..n]);
      assert AcceptedAt(env, mainKing, l, blocks, n);
      ReplayAgreesIff(env.(blocks := History(blocks[..n])), mainKing, presentKing,
                      RunOf(env, mainKing, l, blocks[..n]), blocks[n]);
    }
  }

  /** A first block that is not replayed faithfully, for its king alone, parts the stores. */
  lemma UnfaithfulParts(env: Env, mainKing: Address, presentKing: Address, l: Ledger, b: SealedBlock)
    requires Validated(env, mainKing, l, b).error.None? && TotalFees(b.txs) <= 0
    requires !ReplayFaithful(env.callTarget, mainKing, presentKing, l, b)
    ensures Replayed(env.callTarget, mainKing, presentKing, l, b).error.None?
    ensures Parted(Validated(env, mainKing, l, b).ledger,
                   Replayed(env.callTarget, mainKing, presentKing, l, b).ledger, mainKing, presentKing)
  {
    AcceptedIsReplayed(env, Machine(b.gasLimit, l), ParentHeight(b.number), b.txs);
    DifferentPayeesPart(Unpaid(env.callTarget, l, b), mainKing, presentKing, b.king, b.coinbase, TotalFees(b.txs),
                        b.number);
  }

  lemma ReplayedLeans(env: Env, mainKing: Address, presentKing: Address, o: Ledger, r: Ledger, b: SealedBlock)
    requires Validated(env, mainKing, o, b).error.None? && TotalFees(b.txs) <= 0
    requires Replayed(env.callTarget, mainKing, presentKing, r, b).error.None?
    requires Leans(o, r, mainKing, presentKing)
    ensures var o', r' := Validated(env, mainKing, o, b).ledger,
                          Replayed(env.callTarget, mainKing, presentKing, r, b).ledger;
            && Leans(o', r', mainKing, presentKing)
            && (Parted(o, r, mainKing, presentKing) ==> Parted(o', r', mainKing, presentKing))
  {
    AcceptedIsReplayed(env, Machine(b.gasLimit, o), ParentHeight(b.number), b.txs);
    BlockLeans(env.callTarget, mainKing, presentKing, o, r, b, presentKing, TotalFees(b.txs), 0);
  }

  /** Without fees, a rebuilt store parts from the chain's at the first unfaithful block and never comes back. */
  lemma {:induction false} RebuiltLeans(env: Env, mainKing: Address, presentKing: Address, l: Ledger,
                                        blocks: seq<SealedBlock>)
    requires RunAccepted(env, mainKing, l, blocks)
    requires forall i :: 0 <= i < |blocks| ==> TotalFees(blocks[i].txs) <= 0
    requires Rebuilt(env.callTarget, mainKing, presentKing, l, blocks).error.None?
    ensures var o, r := RunOf(env, mainKing, l, blocks),
                        Rebuilt(env.callTarget, mainKing, presentKing, l, blocks).ledger;
            && Leans(o, r, mainKing, presentKing)
            && (AllFaithful(env, mainKing, presentKing, l, blocks) || Parted(o, r, mainKing, presentKing))
  {
    if blocks != [] {
      var n := |blocks| - 1;
      var here := env.(blocks := History(blocks[..n]));
      var o := RunOf(env, mainKing, l, blocks[..n]);
      RunAcceptedPrefix(env, mainKing, l, blocks, n);
      AllFaithfulSnoc(env, mainKing, presentKing, l, blocks);
      assert forall i :: 0 <= i < n ==> blocks[..n][i] == blocks[i];
      RebuiltLeans(env, mainKing, presentKing, l, blocks[..n]);
      assert AcceptedAt(env, mainKing, l, blocks, n);
      var r := Rebuilt(env.callTarget, mainKing, presentKing, l, blocks[..n]).ledger;
      ReplayedLeans(here, mainKing, presentKing, o, r, blocks[n]);
      if AllFaithful(env, mainKing, presentKing, l, blocks[..n]) {
        FaithfulRebuilds(env, mainKing, presentKing, l, blocks[..n]);
        if !FaithfulAt(env, mainKing, presentKing, l, blocks, n) {
          UnfaithfulParts(here, mainKing, presentKing, o, blocks[n]);
        }
      }
    }
  }

  lemma {:induction false} SupplyOfRebuilt(env: Env, mainKing: Address, presentKing: Address, l: Ledger,
                                           blocks: seq<SealedBlock>)
    requires RunAccepted(env, mainKing, l, blocks)
    requires Rebuilt(env.callTarget, mainKing, presentKing, l, blocks).error.None?
    ensures Rebuilt(env.callTarget, mainKing, presentKing, l, blocks).ledger.Supply() ==
              l.Supply() + PaidRewards(|blocks|)
  {
    if blocks != [] {
      var n := |blocks| - 1;
      RunAcceptedPrefix(env, mainKing, l, blocks, n);
      SupplyOfRebuilt(env, mainKing, presentKing, l, blocks[..n]);
      assert AcceptedAt(env, mainKing, l, blocks, n);
      ReplayedBlockConserves(env.callTarget, mainKing, presentKing,
                             Rebuilt(env.callTarget, mainKing, presentKing, l, blocks[..n]).ledger, blocks[n]);
    }
  }

  /** Stores that do not part and hold the same sum: every block was replayed faithfully. */
  lemma SameSupplyLeans(env: Env, mainKing: Address, presentKing: Address, l: Ledger, blocks: seq<SealedBlock>)
    requires RunAccepted(env, mainKing, l, blocks)
    requires Rebuilt(env.callTarget, mainKing, presentKing, l, blocks).error.None?
    requires Rebuilt(env.callTarget, mainKing, presentKing, l, blocks).ledger.Supply() ==
               RunOf(env, mainKing, l, blocks).Supply()
    ensures var o, r := RunOf(env, mainKing, l, blocks),
                        Rebuilt(env.callTarget, mainKing, presentKing, l, blocks).ledger;
            && Leans(o, r, mainKing, presentKing)
            && (AllFaithful(env, mainKing, presentKing, l, blocks) || Parted(o, r, mainKing, presentKing))
  {
    SupplyOfRebuilt(env, mainKing, presentKing, l, blocks);
    SupplyOfRun(env, mainKing, l, blocks);
    MintedNothingIff(blocks);
    RebuiltLeans(env, mainKing, presentKing, l, blocks);
  }

  /**
   * A revert rebuilds the accounts that the chain had if and only if no block on the way paid fees and at each
   * of them the present king's payee is the one that the block paid. No later block makes up for a difference.
   */
  lemma RevertRestoresIff(env: Env, mainKing: Address, presentKing: Address, l: Ledger, blocks: seq<SealedBlock>)
    requires RunAccepted(env, mainKing, l, blocks)
    ensures (Rebuilt(env.callTarget, mainKing, presentKing, l, blocks) ==
               Verdict(None, RunOf(env, mainKing, l, blocks))) <==>
              AllFaithful(env, mainKing, presentKing, l, blocks)
  {
    var v, o := Rebuilt(env.callTarget, mainKing, presentKing, l, blocks), RunOf(env, mainKing, l, blocks);
    if AllFaithful(env, mainKing, presentKing, l, blocks) {
      FaithfulRebuilds(env, mainKing, presentKing, l, blocks);
    } else if v == Verdict(None, o) {
      SameSupplyLeans(env, mainKing, presentKing, l, blocks);
      NotPartedFromItself(o, mainKing, presentKing);
      assert false;
    }
  }

  /** The block validates on the rebuilt store with the result its header commits to. */
  ghost predicate Reconnects(env: Env, mainKing: Address, presentKing: Address, l: Ledger, blocks: seq<SealedBlock>,
                             b: SealedBlock)
  {
    var here, rebuilt := env.(blocks := History(blocks)), Rebuilt(env.callTarget, mainKing, presentKing, l, blocks);
    rebuilt.error.None? &&
    Validated(here, mainKing, rebuilt.ledger, b) == Validated(here, mainKing, RunOf(env, mainKing, l, blocks), b)
  }

  lemma ValidatedLeans(env: Env, mainKing: Address, presentKing: Address, o: Ledger, r: Ledger, b: SealedBlock)
    requires Validated(env, mainKing, o, b).error.None? && Validated(env, mainKing, r, b).error.None?
    requires Leans(o, r, mainKing, presentKing) && Parted(o, r, mainKing, presentKing)
    ensures Validated(env, mainKing, o, b) != Validated(env, mainKing, r, b)
  {
    var height := ParentHeight(b.number);
    AcceptedIsReplayed(env, Machine(b.gasLimit, o), height, b.txs);
    AcceptedIsReplayed(env, Machine(b.gasLimit, r), height, b.txs);
    BlockLeans(env.callTarget, mainKing, presentKing, o, r, b, b.king, TotalFees(b.txs), TotalFees(b.txs));
    var o', r' := Validated(env, mainKing, o, b).ledger, Validated(env, mainKing, r, b).ledger;
    var a: Address :| PartedAt(o', r', mainKing, presentKing, a);
  }

  /**
   * After a revert a block that validated on the chain, be it one taken off or one of another branch, can be
   * connected if and only if the revert restored the accounts.
   */
  lemma ReconnectsIff(env: Env, mainKing: Address, presentKing: Address, l: Ledger, blocks: seq<SealedBlock>,
                      b: SealedBlock)
    requires RunAccepted(env, mainKing, l, blocks)
    requires Validated(env.(blocks := History(blocks)), mainKing, RunOf(env, mainKing, l, blocks), b).error.None?
    ensures Reconnects(env, mainKing, presentKing, l, blocks, b) <==>
              AllFaithful(env, mainKing, presentKing, l, blocks)
  {
    var here, o := env.(blocks := History(blocks)), RunOf(env, mainKing, l, blocks);
    if AllFaithful(env, mainKing, presentKing, l, blocks) {
      FaithfulRebuilds(env, mainKing, presentKing, l, blocks);
    } else if Reconnects(env, mainKing, presentKing, l, blocks, b) {
      var r := Rebuilt(env.callTarget, mainKing, presentKing, l, blocks).ledger;
      ValidatedBlockMints(here, mainKing, o, b);
      ValidatedBlockMints(here, mainKing, r, b);
      SameSupplyLeans(env, mainKing, presentKing, l, blocks);
      ValidatedLeans(here, mainKing, presentKing, o, r, b);
      assert false;
    }
  }

  /** With gas in the signed range, one block with a transaction is enough: after a revert above it nothing connects. */
  lemma NothingConnectsAboveTransactions(env: Env, mainKing: Address, presentKing: Address, l: Ledger,
                                         blocks: seq<SealedBlock>, n: nat, b: SealedBlock)
    requires RunAccepted(env, mainKing, l, blocks) && n < |blocks| && blocks[n].txs != []
    requires forall i :: 0 <= i < |blocks[n].txs| ==> blocks[n].txs[i].gas < TWO_63
    requires Validated(env.(blocks := History(blocks)), mainKing, RunOf(env, mainKing, l, blocks), b).error.None?
    ensures !Reconnects(env, mainKing, presentKing, l, blocks, b)
  {
    var o := RunOf(env, mainKing, l, blocks[..n]);
    assert AcceptedAt(env, mainKing, l, blocks, n);
    AcceptedFeesPositive(env.(blocks := History(blocks[..n])), Machine(blocks[n].gasLimit, o),
                         ParentHeight(blocks[n].number), blocks[n].txs);
    assert !FaithfulAt(env, mainKing, presentKing, l, blocks, n);
    ReconnectsIff(env, mainKing, presentKing, l, blocks, b);
  }
}
