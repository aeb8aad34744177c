/** The executing half of block validation, and what a validated block does to the supply. */
module BlockExecution {
  import opened Bytes
  import opened Wrappers
  import opened Accounts
  import opened Execution
  import opened Rewards
  import opened Supply

  const BASE_GAS: nat := 21000
  const PUSH_GAS: nat := 100
  const TRANSFER_GAS: nat := 21000
  const CALL_AMOUNT: nat := 50

  datatype BlockError =
    | InvalidSignature
    | NonceMismatch
    | InsufficientSpendable
    | InvalidTransaction
    | OutOfGas
    | BalanceTooLow
    | NilRecipient
    | GasUsedMismatch
    | GasLimitExceeded

  /**
   * What execution reads besides the account store: the checks on keys and signature, the address the
   * instructions pay, the canonical blocks and the maturity setting.
   */
  datatype Env = Env(signed: Tx -> bool, callTarget: Address, blocks: map<nat, seq<Tx>>, confirmations: nat)

  /** A block as far as execution and rewards are concerned; `king` is the one its extra data names. */
  datatype SealedBlock = SealedBlock(number: nat, gasLimit: nat, gasUsed: nat, coinbase: Address, king: Address,
                                     txs: seq<Tx>)

  // ---------- the virtual machine ----------

  /** The virtual machine's gas and the store it works on. */
  datatype Machine = Machine(gas: nat, ledger: Ledger)
  datatype Result = Result(error: Option<BlockError>, machine: Machine)

  /** The amounts a transaction must have. */
  predicate WellFormed(t: Tx) {
    t.gas != 0 && t.gasPrice > 0 && 0 < t.value < TWO_256
  }

  function Moved(l: Ledger, from: Address, to: Address, value: nat): Ledger
    requires value <= l.Balance(from)
  {
    l.WithBalance(from, l.Balance(from) - value).Credited(to, value)
  }

  /** Subtraction of 64-bit words. */
  function Less(gas: nat, cost: nat): nat {
    (gas - cost) % TWO_64
  }

  /** Any data runs the same two instructions: push a number, pay a fixed amount from the zero address. */
  function Called(callTarget: Address, m: Machine): Result {
    var pushed := m.(gas := Less(m.gas, PUSH_GAS));
    if m.ledger.Balance(NO_ADDRESS) < CALL_AMOUNT then Result(Some(BalanceTooLow), pushed)
    else
      Result(None, Machine(Less(pushed.gas, TRANSFER_GAS), Moved(m.ledger, NO_ADDRESS, callTarget, CALL_AMOUNT)))
  }

  /** A transfer moves its value and steps the nonce. Gas is counted, not paid. */
  function Executed(callTarget: Address, m: Machine, t: Tx): Result {
    if !WellFormed(t) then Result(Some(InvalidTransaction), m)
    else if m.gas < BASE_GAS then Result(Some(OutOfGas), m)
    else
      var started := m.(gas := m.gas - BASE_GAS);
      if t.data != [] then Called(callTarget, started)
      else if m.ledger.Balance(t.from) < t.value then Result(Some(BalanceTooLow), started)
      else if t.to.None? then Result(Some(NilRecipient), started)
      else
        Result(None,
               started.(ledger := Moved(m.ledger, t.from, t.to.value, t.value).WithNonce(t.from, t.nonce + 1)))
  }

  class VM {
    const s: State
    var gas: nat

    function View(): Machine
      reads this, s
    {
      Machine(gas, s.View())
    }

    constructor (s: State, gasLimit: nat)
      ensures this.s == s && View() == Machine(gasLimit, s.View())
    {
      this.s, gas := s, gasLimit;
    }

    method Transfer(from: Address, to: Address, value: nat)
      requires value <= s.GetBalance(from)
      modifies s
      ensures value > 0 ==> s.View() == Moved(old(s.View()), from, to, value)
      ensures value == 0 ==> s.View() == old(s.View())
    {
      if value == 0 {
        return;
      }
      var _ := s.AddBalance(from, -(value as int));
      var _ := s.AddBalance(to, value);
    }

    method RunInstructions(callTarget: Address) returns (error: Option<BlockError>)
      modifies this, s
      ensures Result(error, View()) == Called(callTarget, old(View()))
    {
      gas := Less(gas, PUSH_GAS);
      if s.GetBalance(NO_ADDRESS) < CALL_AMOUNT {
        return Some(BalanceTooLow);
      }
      Transfer(NO_ADDRESS, callTarget, CALL_AMOUNT);
      gas := Less(gas, TRANSFER_GAS);
      error := None;
    }

    /** A missing recipient stops the program in the source; here it is an error. */
    method Execute(callTarget: Address, t: Tx) returns (error: Option<BlockError>)
      modifies this, s
      ensures Result(error, View()) == Executed(callTarget, old(View()), t)
    {
      if !WellFormed(t) {
        return Some(InvalidTransaction);
      }
      if gas < BASE_GAS {
        return Some(OutOfGas);
      }
      gas := gas - BASE_GAS;
      if |t.data| > 0 {
        error := RunInstructions(callTarget);
        return;
      }
      if s.GetBalance(t.from) < t.value {
        return Some(BalanceTooLow);
      }
      if t.to.None? {
        return Some(NilRecipient);
      }
      Transfer(t.from, t.to.value, t.value);
      s.SetNonce(t.from, t.nonce + 1);
      error := None;
    }
  }

  // ---------- the transactions of a block under validation ----------

  /** Signature, nonce, and the whole cost against what is spendable at the parent's height. */
  function Refusal(env: Env, l: Ledger, height: nat, pending: nat, t: Tx): Option<BlockError> {
    if !env.signed(t) then Some(InvalidSignature)
    else if t.nonce != l.Nonce(t.from) then Some(NonceMismatch)
    else if Spendable(l, env.blocks, t.from, height, env.confirmations, pending) < Cost(t)
    then Some(InsufficientSpendable)
    else None
  }

  function PendingFor(pending: map<Address, nat>, a: Address): nat {
    if a in pending then pending[a] else 0
  }

  method ValidateTransactionForExecution(env: Env, state: State, t: Tx, height: nat, pending: map<Address, nat>)
    returns (error: Option<BlockError>)
    ensures error == Refusal(env, state.View(), height, PendingFor(pending, t.from), t)
  {
    if !env.signed(t) {
      return Some(InvalidSignature);
    }
    if t.nonce != state.GetNonce(t.from) {
      return Some(NonceMismatch);
    }
    var balance := SpendableBalanceAtHeight(state, env.blocks, t.from, height, env.confirmations, pending);
    if balance < Cost(t) {
      return Some(InsufficientSpendable);
    }
    error := None;
  }

  function Stepped(env: Env, m: Machine, height: nat, pending: nat, t: Tx): Result {
    var refusal := Refusal(env, m.ledger, height, pending, t);
    if refusal.Some? then Result(refusal, m) else Executed(env.callTarget, m, t)
  }

  /** Check, then execute; what earlier transactions of the block paid in is not spendable yet. */
  function ExecutedAll(env: Env, m: Machine, height: nat, txs: seq<Tx>): Result {
    if txs == [] then Result(None, m)
    else
      var n := |txs| - 1;
      var before := ExecutedAll(env, m, height, txs[..n]);
      if before.error.Some? then before
      else Stepped(env, before.machine, height, Incoming(txs[..n], txs[n].from), txs[n])
  }

  method CheckAndExecute(env: Env, v: VM, t: Tx, height: nat, pending: map<Address, nat>)
    returns (error: Option<BlockError>)
    modifies v, v.s
    ensures Result(error, v.View()) == Stepped(env, old(v.View()), height, PendingFor(pending, t.from), t)
  {
    error := ValidateTransactionForExecution(env, v.s, t, height, pending);
    if error.None? {
      error := v.Execute(env.callTarget, t);
    }
  }

  /** `pending` holds what the transactions pay to others. */
  ghost predicate Tallies(pending: map<Address, nat>, txs: seq<Tx>) {
    forall a :: PendingFor(pending, a) == Incoming(txs, a)
  }

  function PendingAfter(pending: map<Address, nat>, t: Tx): map<Address, nat> {
    if t.to.Some? && t.to.value != t.from
    then pending[t.to.value := PendingFor(pending, t.to.value) + t.value]
    else pending
  }

  lemma TalliesSnoc(pending: map<Address, nat>, txs: seq<Tx>, i: nat)
    requires i < |txs| && Tallies(pending, txs[..i])
    ensures Tallies(PendingAfter(pending, txs[i]), txs[..i + 1])
  {
    assert txs[..i + 1][..i] == txs[..i];
    forall a ensures PendingFor(PendingAfter(pending, txs[i]), a) == Incoming(txs[..i + 1], a) {
      assert PendingFor(pending, a) == Incoming(txs[..i], a);
    }
  }

  /** Once a transaction has failed, the rest of the block is not looked at. */
  lemma {:induction false} FailureIsFinal(env: Env, m: Machine, height: nat, txs: seq<Tx>, i: nat)
    requires i <= |txs| && ExecutedAll(env, m, height, txs[..i]).error.Some?
    ensures ExecutedAll(env, m, height, txs) == ExecutedAll(env, m, height, txs[..i])
  {
    if i < |txs| {
      assert txs[..|txs| - 1][..i] == txs[..i];
      FailureIsFinal(env, m, height, txs[..|txs| - 1], i);
    } else {
      assert txs[..i] == txs;
    }
  }

  /** Addition of 64-bit words. */
  function More(total: nat, gas: nat): nat {
    (total + gas) % TWO_64
  }

  function TotalGas(txs: seq<Tx>): nat {
    if txs == [] then 0 else More(TotalGas(txs[..|txs| - 1]), txs[|txs| - 1].gas)
  }

  lemma TotalsSnoc(txs: seq<Tx>, i: nat)
    requires i < |txs|
    ensures TotalGas(txs[..i + 1]) == More(TotalGas(txs[..i]), txs[i].gas)
    ensures TotalFees(txs[..i + 1]) == TotalFees(txs[..i]) + GasCost(txs[i])
  {
    assert txs[..i + 1][..i] == txs[..i];
  }

  lemma ExecutedSnoc(env: Env, m: Machine, height: nat, txs: seq<Tx>, i: nat, now: Machine, pending: map<Address, nat>)
    requires i < |txs| && ExecutedAll(env, m, height, txs[..i]) == Result(None, now) && Tallies(pending, txs[..i])
    ensures var r := Stepped(env, now, height, PendingFor(pending, txs[i].from), txs[i]);
            && ExecutedAll(env, m, height, txs[..i + 1]) == r
            && (r.error.Some? ==> ExecutedAll(env, m, height, txs) == r)
            && Tallies(PendingAfter(pending, txs[i]), txs[..i + 1])
  {
    var r := Stepped(env, now, height, PendingFor(pending, txs[i].from), txs[i]);
    assert txs[..i + 1][..i] == txs[..i];
    assert PendingFor(pending, txs[i].from) == Incoming(txs[..i], txs[i].from);
    if r.error.Some? {
      FailureIsFinal(env, m, height, txs, i + 1);
    }
    TalliesSnoc(pending, txs, i);
  }

  function ParentHeight(number: nat): nat {
    if number > 0 then number - 1 else 0
  }

  method ExecuteBlockTransactions(env: Env, state: State, b: SealedBlock)
    returns (error: Option<BlockError>, totalFees: int, totalGasUsed: nat)
    modifies state
    ensures var r := ExecutedAll(env, Machine(b.gasLimit, old(state.View())), ParentHeight(b.number), b.txs);
            error == r.error && state.View() == r.machine.ledger
    ensures error.None? ==> totalFees == TotalFees(b.txs) && totalGasUsed == TotalGas(b.txs)
  {
    ghost var m, height := Machine(b.gasLimit, state.View()), ParentHeight(b.number);
    var v := new VM(state, b.gasLimit);
    totalFees, totalGasUsed := 0, 0;
    var pendingIncoming: map<Address, nat> := map[];
    for i := 0 to |b.txs|
      invariant fresh(v) && v.s == state
      invariant ExecutedAll(env, m, height, b.txs[..i]) == Result(None, v.View())
      invariant totalFees == TotalFees(b.txs[..i]) && totalGasUsed == TotalGas(b.txs[..i])
      invariant Tallies(pendingIncoming, b.txs[..i])
    {
      var t := b.txs[i];
      ExecutedSnoc(env, m, height, b.txs, i, v.View(), pendingIncoming);
      error := CheckAndExecute(env, v, t, ParentHeight(b.number), pendingIncoming);
      if error.Some? {
        return;
      }
      TotalsSnoc(b.txs, i);
      pendingIncoming := PendingAfter(pendingIncoming, t);
      totalGasUsed := More(totalGasUsed, t.gas);
      totalFees := totalFees + GasCost(t);
    }
    assert b.txs[..|b.txs|] == b.txs;
    error := None;
  }

  datatype Verdict = Verdict(error: Option<BlockError>, ledger: Ledger)

  /** Execution, the two gas checks, and the distribution of reward and fees. */
  function Validated(env: Env, mainKing: Address, l: Ledger, b: SealedBlock): Verdict {
    var r := ExecutedAll(env, Machine(b.gasLimit, l), ParentHeight(b.number), b.txs);
    if r.error.Some? then Verdict(r.error, r.machine.ledger)
    else if b.gasUsed != TotalGas(b.txs) then Verdict(Some(GasUsedMismatch), r.machine.ledger)
    else if TotalGas(b.txs) > b.gasLimit then Verdict(Some(GasLimitExceeded), r.machine.ledger)
    else Verdict(None, Distributed(r.machine.ledger, b.coinbase, mainKing, b.king, TotalFees(b.txs), b.number))
  }

  /** The executing part of validateAndExecuteBlock, with its shortcut for an empty block. */
  method ValidateAndExecute(env: Env, distributor: RewardDistributor, state: State, b: SealedBlock)
    returns (error: Option<BlockError>)
    modifies state
    ensures Verdict(error, state.View()) == Validated(env, distributor.mainKing, old(state.View()), b)
  {
    var totalFees, gasUsed := 0, 0;
    if |b.txs| == 0 {
      if b.gasUsed != 0 {
        return Some(GasUsedMismatch);
      }
    } else {
      error, totalFees, gasUsed := ExecuteBlockTransactions(env, state, b);
      if error.Some? {
        return;
      }
      if b.gasUsed != gasUsed {
        return Some(GasUsedMismatch);
      }
      if gasUsed > b.gasLimit {
        return Some(GasLimitExceeded);
      }
    }
    var _ := distributor.DistributeRewards(state, b.coinbase, totalFees, b.number, b.king);
    error := None;
  }

  // ---------- what a block does to the supply ----------

  /** Execution without the checks. */
  function ReplayedAll(callTarget: Address, m: Machine, txs: seq<Tx>): Result {
    if txs == [] then Result(None, m)
    else
      var before := ReplayedAll(callTarget, m, txs[..|txs| - 1]);
      if before.error.Some? then before else Executed(callTarget, before.machine, txs[|txs| - 1])
  }

  lemma MovedKeepsSupply(l: Ledger, from: Address, to: Address, value: nat)
    requires value <= l.Balance(from)
    ensures Moved(l, from, to, value).Supply() == l.Supply()
  {
    SupplyAfter(l, from, l.Balance(from) - value);
    CreditedSupply(l.WithBalance(from, l.Balance(from) - value), to, value);
  }

  /** The machine creates and destroys nothing, whether it succeeds or fails. */
  lemma ExecutedKeepsSupply(callTarget: Address, m: Machine, t: Tx)
    ensures Executed(callTarget, m, t).machine.ledger.Supply() == m.ledger.Supply()
  {
    if t.data != [] {
      if m.ledger.Balance(NO_ADDRESS) >= CALL_AMOUNT {
        MovedKeepsSupply(m.ledger, NO_ADDRESS, callTarget, CALL_AMOUNT);
      }
    } else if t.to.Some? && m.ledger.Balance(t.from) >= t.value {
      MovedKeepsSupply(m.ledger, t.from, t.to.value, t.value);
    }
  }

  lemma {:induction false} ReplayedAllKeepsSupply(callTarget: Address, m: Machine, txs: seq<Tx>)
    ensures ReplayedAll(callTarget, m, txs).machine.ledger.Supply() == m.ledger.Supply()
  {
    if txs != [] {
      var n := |txs| - 1;
      ReplayedAllKeepsSupply(callTarget, m, txs[..n]);
      ExecutedKeepsSupply(callTarget, ReplayedAll(callTarget, m, txs[..n]).machine, txs[n]);
    }
  }

  /** Without a refusal the checks leave no trace. */
  lemma {:induction false} AcceptedIsReplayed(env: Env, m: Machine, height: nat, txs: seq<Tx>)
    requires ExecutedAll(env, m, height, txs).error.None?
    ensures ReplayedAll(env.callTarget, m, txs) == ExecutedAll(env, m, height, txs)
  {
    if txs != [] {
      AcceptedIsReplayed(env, m, height, txs[..|txs| - 1]);
    }
  }

  function Positive(fees: int): nat {
    if fees > 0 then fees else 0
  }

  /**
   * Fees are paid out and never collected: a validated block raises the sum of all balances by its reward
   * and its fee total, so it adds exactly the reward if and only if the fee total is not positive.
   */
  lemma ValidatedBlockMints(env: Env, mainKing: Address, l: Ledger, b: SealedBlock)
    requires Validated(env, mainKing, l, b).error.None?
    ensures var fees, after := TotalFees(b.txs), Validated(env, mainKing, l, b).ledger.Supply();
            && after == l.Supply() + BlockReward(b.number) + Positive(fees)
            && (after == l.Supply() + BlockReward(b.number) <==> fees <= 0)
  {
    var m, height := Machine(b.gasLimit, l), ParentHeight(b.number);
    AcceptedIsReplayed(env, m, height, b.txs);
    ReplayedAllKeepsSupply(env.callTarget, m, b.txs);
    DistributionPaysAll(ExecutedAll(env, m, height, b.txs).machine.ledger, b.coinbase, mainKing, b.king,
                        TotalFees(b.txs), b.number);
  }

  lemma ProductPositive(a: nat, b: nat)
    requires a >= 1 && b >= 1
    ensures a * b >= 1
  {
  }

  lemma GasCostPositive(t: Tx)
    requires WellFormed(t) && t.gas < TWO_63
    ensures GasCost(t) >= 1
  {
    ProductPositive(t.gasPrice, t.gas);
  }

  lemma AcceptedWasWellFormed(env: Env, m: Machine, height: nat, pending: nat, t: Tx)
    requires Stepped(env, m, height, pending, t).error.None?
    ensures WellFormed(t)
  {
  }

  lemma {:induction false} AcceptedFeesPositive(env: Env, m: Machine, height: nat, txs: seq<Tx>)
    requires ExecutedAll(env, m, height, txs).error.None?
    requires forall i :: 0 <= i < |txs| ==> txs[i].gas < TWO_63
    ensures TotalFees(txs) >= |txs|
  {
    if txs != [] {
      var n := |txs| - 1;
      AcceptedFeesPositive(env, m, height, txs[..n]);
      AcceptedWasWellFormed(env, ExecutedAll(env, m, height, txs[..n]).machine, height,
                            Incoming(txs[..n], txs[n].from), txs[n]);
      GasCostPositive(txs[n]);
    }
  }

  /** With gas in the signed range, only an empty block leaves the money supply on schedule. */
  lemma OnlyEmptyBlocksConserve(env: Env, mainKing: Address, l: Ledger, b: SealedBlock)
    requires Validated(env, mainKing, l, b).error.None?
    requires forall i :: 0 <= i < |b.txs| ==> b.txs[i].gas < TWO_63
    ensures Validated(env, mainKing, l, b).ledger.Supply() == l.Supply() + BlockReward(b.number) <==> b.txs == []
  {
    AcceptedFeesPositive(env, Machine(b.gasLimit, l), ParentHeight(b.number), b.txs);
    ValidatedBlockMints(env, mainKing, l, b);
  }

  /** A transfer of one unit with 21000 gas at price one: 21000 units appear. */
  lemma FeesOfOneTransferAreMinted(signed: Tx -> bool, target: Address, mainKing: Address, a: Address, to: Address,
                                   hash: Hash32, king: Address, confirmations: nat, number: nat)
    requires var t := Tx(hash, a, Some(to), 1, 21000, 1, 0, []); signed(t)
    ensures var t := Tx(hash, a, Some(to), 1, 21000, 1, 0, []);
            var env := Env(signed, target, map[], confirmations);
            var l := Ledger(map[a := 21001], map[], map[]);
            var verdict := Validated(env, mainKing, l, SealedBlock(number, 21000, 21000, a, king, [t]));
            verdict.error.None? && verdict.ledger.Supply() == l.Supply() + BlockReward(number) + 21000
  {
    var t := Tx(hash, a, Some(to), 1, 21000, 1, 0, []);
    var env := Env(signed, target, map[], confirmations);
    var l := Ledger(map[a := 21001], map[], map[]);
    var b := SealedBlock(number, 21000, 21000, a, king, [t]);
    assert [t][..0] == [];
    NothingImmature(a, ParentHeight(number), confirmations);
    assert Refusal(env, l, ParentHeight(number), Incoming([], a), t).None?;
    assert ExecutedAll(env, Machine(21000, l), ParentHeight(number), [t][..0]) == Result(None, Machine(21000, l));
    assert TotalGas([t]) == 21000 && TotalFees([t]) == 21000;
    ValidatedBlockMints(env, mainKing, l, b);
  }

  // ---------- runs ----------

  /** The canonical blocks once `blocks` stand at heights 1, 2, ... */
  function History(blocks: seq<SealedBlock>): map<nat, seq<Tx>> {
    if blocks == [] then map[]
    else History(blocks[..|blocks| - 1])[|blocks| := blocks[|blocks| - 1].txs]
  }

  lemma {:induction false} HistoryHolds(blocks: seq<SealedBlock>, h: nat)
    ensures h in History(blocks) <==> 1 <= h <= |blocks|
    ensures 1 <= h <= |blocks| ==> History(blocks)[h] == blocks[h - 1].txs
  {
    if blocks != [] {
      HistoryHolds(blocks[..|blocks| - 1], h);
    }
  }

  ghost function RunOf(env: Env, mainKing: Address, l: Ledger, blocks: seq<SealedBlock>): Ledger {
    if blocks == [] then l
    else
      var n := |blocks| - 1;
      Validated(env.(blocks := History(blocks[..n])), mainKing, RunOf(env, mainKing, l, blocks[..n]), blocks[n]).ledger
  }

  ghost predicate AcceptedAt(env: Env, mainKing: Address, l: Ledger, blocks: seq<SealedBlock>, n: nat)
    requires n < |blocks|
  {
    && blocks[n].number == n + 1
    && Validated(env.(blocks := History(blocks[..n])), mainKing, RunOf(env, mainKing, l, blocks[..n]), blocks[n])
       .error.None?
  }

  /** Every block validates on the run before it. */
  ghost predicate RunAccepted(env: Env, mainKing: Address, l: Ledger, blocks: seq<SealedBlock>) {
    forall n {:trigger AcceptedAt(env, mainKing, l, blocks, n)} :: 0 <= n < |blocks| ==>
      AcceptedAt(env, mainKing, l, blocks, n)
  }

  /** The fees paid out over a run, a total that is not positive counting as none. */
  function Minted(blocks: seq<SealedBlock>): nat {
    if blocks == [] then 0 else Minted(blocks[..|blocks| - 1]) + Positive(TotalFees(blocks[|blocks| - 1].txs))
  }

  lemma {:induction false} MintedNothingIff(blocks: seq<SealedBlock>)
    ensures Minted(blocks) == 0 <==> forall i :: 0 <= i < |blocks| ==> TotalFees(blocks[i].txs) <= 0
  {
    if blocks != [] {
      var n := |blocks| - 1;
      MintedNothingIff(blocks[..n]);
      assert forall i :: 0 <= i < n ==> blocks[..n][i] == blocks[i];
    }
  }

  lemma RunAcceptedPrefix(env: Env, mainKing: Address, l: Ledger, blocks: seq<SealedBlock>, n: nat)
    requires RunAccepted(env, mainKing, l, blocks) && n <= |blocks|
    ensures RunAccepted(env, mainKing, l, blocks[..n])
  {
    forall k | 0 <= k < n ensures AcceptedAt(env, mainKing, l, blocks[..n], k) {
      assert AcceptedAt(env, mainKing, l, blocks, k);
      assert blocks[..n][..k] == blocks[..k];
    }
  }

  /** After n validated blocks the balances sum to the start, the rewards of 1 .. n, and all fees paid out. */
  lemma {:induction false} SupplyOfRun(env: Env, mainKing: Address, l: Ledger, blocks: seq<SealedBlock>)
    requires RunAccepted(env, mainKing, l, blocks)
    ensures RunOf(env, mainKing, l, blocks).Supply() == l.Supply() + PaidRewards(|blocks|) + Minted(blocks)
  {
    if blocks != [] {
      var n := |blocks| - 1;
      RunAcceptedPrefix(env, mainKing, l, blocks, n);
      SupplyOfRun(env, mainKing, l, blocks[..n]);
      assert AcceptedAt(env, mainKing, l, blocks, n);
      ValidatedBlockMints(env.(blocks := History(blocks[..n])), mainKing, RunOf(env, mainKing, l, blocks[..n]),
                          blocks[n]);
    }
  }

  /** A run from genesis follows the published schedule if and only if no block of it has a positive fee total. */
  lemma RunOnScheduleIff(env: Env, mainKing: Address, l: Ledger, blocks: seq<SealedBlock>)
    requires RunAccepted(env, mainKing, l, blocks) && l.Supply() == GENESIS_PREMINE
    ensures RunOf(env, mainKing, l, blocks).Supply() == GENESIS_PREMINE + PaidRewards(|blocks|) <==>
              forall i :: 0 <= i < |blocks| ==> TotalFees(blocks[i].txs) <= 0
  {
    SupplyOfRun(env, mainKing, l, blocks);
    MintedNothingIff(blocks);
  }
}
