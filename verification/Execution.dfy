/** Transaction batches: the simulated validation pass, the real application, and maturity. */
module Execution {
  import opened Bytes
  import opened Wrappers
  import opened Accounts

  /** Values and gas prices are never negative; gas and nonces are 64-bit words in the source. */
  datatype Tx = Tx(hash: Hash32, from: Address, to: Option<Address>, value: nat, gas: nat, gasPrice: nat,
                   nonce: nat, data: seq<byte>)

  /** Conversion of a uint64 to int64. */
  function AsInt64(x: nat): int {
    if x < TWO_63 then x else x - TWO_64
  }

  function GasCost(t: Tx): int {
    t.gasPrice * AsInt64(t.gas)
  }

  function Cost(t: Tx): int {
    t.value + GasCost(t)
  }

  // ---------- real application ----------

  datatype TxError = NilTransaction | WrongNonce | InsufficientBalance | ContractExists
  datatype Outcome = Outcome(error: Option<TxError>, ledger: Ledger)

  /** Sender side: the whole cost leaves, the nonce moves. */
  function Debited(l: Ledger, t: Tx): Ledger
    requires Cost(t) <= l.Balance(t.from)
  {
    l.WithBalance(t.from, l.Balance(t.from) - Cost(t)).WithNonce(t.from, l.Nonce(t.from) + 1)
  }

  /** Recipient side: a blank account is initialised, which resets its nonce, and then credited. */
  function Received(l: Ledger, to: Address, value: nat): Ledger {
    (if l.Blank(to) then l.WithBalance(to, 0).WithNonce(to, 0) else l).Credited(to, value)
  }

  /** Contract creation on the debited ledger. */
  function Created(l: Ledger, addr: Address, t: Tx): Ledger {
    var l' := l.WithBalance(addr, t.value);
    if t.data != [] then l'.WithCode(addr, t.data) else l'
  }

  /** `contractAddress` stands for the hash of sender and nonce that names a new contract. */
  function Apply(contractAddress: (Address, nat) -> Address, l: Ledger, t: Tx): Outcome {
    if t.nonce != l.Nonce(t.from) then Outcome(Some(WrongNonce), l)
    else if l.Balance(t.from) < Cost(t) then Outcome(Some(InsufficientBalance), l)
    else
      var paid := Debited(l, t);
      match t.to
      case Some(to) => Outcome(None, Received(paid, to, t.value))
      case None =>
        var addr := contractAddress(t.from, t.nonce);
        if !paid.Blank(addr) then Outcome(Some(ContractExists), paid)
        else Outcome(None, Created(paid, addr, t))
  }

  function ApplyAll(contractAddress: (Address, nat) -> Address, l: Ledger, txs: seq<Tx>): Outcome
    decreases |txs|
  {
    if txs == [] then Outcome(None, l)
    else
      var first := Apply(contractAddress, l, txs[0]);
      if first.error.Some? then first else ApplyAll(contractAddress, first.ledger, txs[1..])
  }

  /** The gas factor is read as a signed word. */
  lemma CostMeaning(t: Tx)
    ensures t.gas < TWO_63 ==> Cost(t) == t.value + t.gasPrice * t.gas
    ensures t.gas >= TWO_63 ==> Cost(t) == t.value + t.gasPrice * t.gas - t.gasPrice * TWO_64
  {
    assert t.gasPrice * (t.gas - TWO_64) == t.gasPrice * t.gas - t.gasPrice * TWO_64;
  }

  /** Which error is given when; a creation on an occupied address fails with the sender already debited. */
  lemma ApplyErrors(contractAddress: (Address, nat) -> Address, l: Ledger, t: Tx)
    ensures var r := Apply(contractAddress, l, t);
            var addr := contractAddress(t.from, t.nonce);
            var left := l.Balance(addr) - if addr == t.from then Cost(t) else 0;
            && r.error == (if t.nonce != l.Nonce(t.from) then Some(WrongNonce)
                           else if l.Balance(t.from) < Cost(t) then Some(InsufficientBalance)
                           else if t.to == None && (left > 0 || l.Code(addr) != []) then Some(ContractExists)
                           else None)
            && (r.error in {Some(WrongNonce), Some(InsufficientBalance)} ==> r.ledger == l)
            && (r.error == Some(ContractExists) ==>
                  r.ledger == l.WithBalance(t.from, l.Balance(t.from) - Cost(t)).WithNonce(t.from, t.nonce + 1))
  {
  }

  /**
   * What an applied transfer does to each account: cost off the sender, value to the recipient, the sender's nonce
   * up by one, and the nonce of a recipient without balance and code back to zero, also when it is the sender.
   */
  lemma TransferEffect(contractAddress: (Address, nat) -> Address, l: Ledger, t: Tx, to: Address, a: Address)
    requires t.to == Some(to) && Apply(contractAddress, l, t).error.None?
    ensures var after := Apply(contractAddress, l, t).ledger;
            var bare := l.Balance(to) == (if to == t.from then Cost(t) else 0) && l.Code(to) == [];
            && after.Balance(a) == l.Balance(a) - (if a == t.from then Cost(t) else 0)
                                   + (if a == to then t.value else 0)
            && after.Nonce(a) == (if a == to && bare then 0 else if a == t.from then t.nonce + 1 else l.Nonce(a))
            && after.Code(a) == l.Code(a)
  {
  }

  /** What a creation does: the new account holds the value and the data as code. */
  lemma CreationEffect(contractAddress: (Address, nat) -> Address, l: Ledger, t: Tx, a: Address)
    requires t.to == None && Apply(contractAddress, l, t).error.None?
    ensures var after, addr := Apply(contractAddress, l, t).ledger, contractAddress(t.from, t.nonce);
            && after.Balance(a) == (if a == addr then t.value
                                    else if a == t.from then l.Balance(a) - Cost(t) else l.Balance(a))
            && after.Nonce(a) == (if a == t.from then t.nonce + 1 else l.Nonce(a))
            && after.Code(a) == (if a == addr then t.data else l.Code(a))
  {
  }

  method ApplyTransferOrCall(state: State, t: Tx, to: Address)
    modifies state
    ensures state.View() == Received(old(state.View()), to, t.value)
  {
    var hasBalance := state.GetBalance(to) > 0;
    var hasCode := |state.GetCode(to)| > 0;
    if !hasBalance && !hasCode {
      var _ := state.SetBalance(to, 0);
      state.SetNonce(to, 0);
    }
    var _ := state.SetBalance(to, state.GetBalance(to) + t.value);
  }

  method ApplyContractCreation(state: State, addr: Address, t: Tx) returns (error: Option<TxError>)
    modifies state
    ensures error == if old(state.View()).Blank(addr) then None else Some(ContractExists)
    ensures state.View() == if error.None? then Created(old(state.View()), addr, t) else old(state.View())
  {
    if state.GetBalance(addr) > 0 || |state.GetCode(addr)| > 0 {
      return Some(ContractExists);
    }
    var _ := state.SetBalance(addr, t.value);
    if |t.data| > 0 {
      state.SetCode(addr, t.data);
    }
    error := None;
  }

  method ApplyTransaction(contractAddress: (Address, nat) -> Address, state: State, tx: Option<Tx>)
    returns (error: Option<TxError>)
    modifies state
    ensures tx.None? ==> error == Some(NilTransaction) && state.View() == old(state.View())
    ensures tx.Some? ==> Outcome(error, state.View()) == Apply(contractAddress, old(state.View()), tx.value)
  {
    if tx.None? {
      return Some(NilTransaction);
    }
    var t := tx.value;
    var senderNonce := state.GetNonce(t.from);
    if t.nonce != senderNonce {
      return Some(WrongNonce);
    }
    var senderBalance := state.GetBalance(t.from);
    if senderBalance < Cost(t) {
      return Some(InsufficientBalance);
    }
    var _ := state.SetBalance(t.from, senderBalance - Cost(t));
    state.SetNonce(t.from, senderNonce + 1);
    if t.to.None? {
      error := ApplyContractCreation(state, contractAddress(t.from, state.GetNonce(t.from) - 1), t);
    } else {
      ApplyTransferOrCall(state, t, t.to.value);
      error := None;
    }
  }

  method ApplyBlockTransactions(contractAddress: (Address, nat) -> Address, state: State, txs: seq<Tx>)
    returns (error: Option<TxError>)
    modifies state
    ensures Outcome(error, state.View()) == ApplyAll(contractAddress, old(state.View()), txs)
  {
    for i := 0 to |txs|
      invariant ApplyAll(contractAddress, state.View(), txs[i..]) == ApplyAll(contractAddress, old(state.View()), txs)
    {
      assert txs[i..][1..] == txs[i + 1..];
      error := ApplyTransaction(contractAddress, state, Some(txs[i]));
      if error.Some? {
        return;
      }
    }
    error := None;
  }

  // ---------- maturity of received value ----------

  /** Value that `addr` receives from others in a list of transactions. */
  function Incoming(txs: seq<Tx>, addr: Address): nat {
    if txs == [] then 0
    else
      var t := txs[|txs| - 1];
      Incoming(txs[..|txs| - 1], addr) + if t.to == Some(addr) && t.from != addr then t.value else 0
  }

  function BlockTxs(blocks: map<nat, seq<Tx>>, height: nat): seq<Tx> {
    if height in blocks then blocks[height] else []
  }

  /** The same over the canonical blocks lo .. hi-1; a missing block adds nothing. */
  function IncomingBetween(blocks: map<nat, seq<Tx>>, lo: nat, hi: nat, addr: Address): nat
    decreases hi
  {
    if hi <= lo then 0
    else IncomingBetween(blocks, lo, hi - 1, addr) + Incoming(BlockTxs(blocks, hi - 1), addr)
  }

  /** First height whose incoming value is still held back at `currentHeight`. */
  function WindowStart(currentHeight: nat, confirmations: nat): nat
    requires confirmations > 1
  {
    var lookback := confirmations - 1;
    if currentHeight > lookback then currentHeight - lookback + 1 else 0
  }

  function Immature(blocks: map<nat, seq<Tx>>, addr: Address, currentHeight: nat, confirmations: nat, pending: nat)
    : nat
  {
    pending + if confirmations <= 1 then 0
              else IncomingBetween(blocks, WindowStart(currentHeight, confirmations), currentHeight + 1, addr)
  }

  /** The inner loop, over one block. */
  method IncomingOf(txs: seq<Tx>, addr: Address) returns (received: nat)
    ensures received == Incoming(txs, addr)
  {
    received := 0;
    for i := 0 to |txs|
      invariant received == Incoming(txs[..i], addr)
    {
      assert txs[..i + 1][..i] == txs[..i];
      if txs[i].to == Some(addr) && txs[i].from != addr {
        received := received + txs[i].value;
      }
    }
    assert txs[..|txs|] == txs;
  }

  method ImmatureIncomingBalance(blocks: map<nat, seq<Tx>>, addr: Address, currentHeight: nat, confirmations: nat,
                                 pendingIncoming: map<Address, nat>) returns (immature: nat)
    ensures immature == Immature(blocks, addr, currentHeight, confirmations,
                                 if addr in pendingIncoming then pendingIncoming[addr] else 0)
  {
    immature := 0;
    if addr in pendingIncoming {
      immature := immature + pendingIncoming[addr];
    }
    if confirmations <= 1 {
      return;
    }
    ghost var pending := immature;
    var startHeight := WindowStart(currentHeight, confirmations);
    for height := startHeight to currentHeight + 1
      invariant immature == pending + IncomingBetween(blocks, startHeight, height, addr)
    {
      if height in blocks {
        var received := IncomingOf(blocks[height], addr);
        immature := immature + received;
      }
    }
  }

  /**
   * A block's incoming value is held back exactly while it has fewer than the required
   * confirmations; the genesis block is held back one height longer.
   */
  lemma HeldBackIffUnconfirmed(height: nat, currentHeight: nat, confirmations: nat)
    requires height <= currentHeight && confirmations > 1
    ensures WindowStart(currentHeight, confirmations) <= height <==>
              currentHeight - height + 1 < confirmations || (height == 0 && currentHeight == confirmations - 1)
  {
  }

  lemma {:induction false} IncomingOfParts(txs: seq<Tx>, more: seq<Tx>, a: Address)
    ensures Incoming(txs + more, a) == Incoming(txs, a) + Incoming(more, a)
  {
    if more == [] {
      assert txs + more == txs;
    } else {
      var n := |more| - 1;
      IncomingOfParts(txs, more[..n], a);
      assert (txs + more)[..|txs + more| - 1] == txs + more[..n];
    }
  }

  /** One more transaction in a block of the window: its value if it is to the account from another one. */
  lemma {:induction false} OneMoreIncoming(blocks: map<nat, seq<Tx>>, h: nat, t: Tx, lo: nat, hi: nat, a: Address)
    ensures var more := blocks[h := (if h in blocks then blocks[h] else []) + [t]];
            IncomingBetween(more, lo, hi, a) == IncomingBetween(blocks, lo, hi, a)
              + if lo <= h < hi && t.to == Some(a) && t.from != a then t.value else 0
    decreases hi
  {
    if lo < hi {
      OneMoreIncoming(blocks, h, t, lo, hi - 1, a);
      IncomingOfParts(BlockTxs(blocks, h), [t], a);
      assert [t][..0] == [];
    }
  }

  /**
   * The immature value by its additions: pending value on an empty chain, and each transaction of each block
   * counts in full, or not at all, by its recipient and its confirmations.
   */
  lemma ImmatureByAdditions(blocks: map<nat, seq<Tx>>, h: nat, t: Tx, a: Address, height: nat, confirmations: nat,
                            pending: nat)
    ensures Immature(map[], a, height, confirmations, pending) == pending
    ensures var more := blocks[h := (if h in blocks then blocks[h] else []) + [t]];
            var held := h <= height && confirmations > 1 &&
                        (height - h + 1 < confirmations || (h == 0 && height == confirmations - 1));
            Immature(more, a, height, confirmations, pending) ==
              Immature(blocks, a, height, confirmations, pending)
              + if held && t.to == Some(a) && t.from != a then t.value else 0
  {
    if confirmations > 1 {
      var lo := WindowStart(height, confirmations);
      NothingIncoming(a, lo, height + 1);
      OneMoreIncoming(blocks, h, t, lo, height + 1, a);
    }
  }

  lemma {:induction false} NothingIncoming(a: Address, lo: nat, hi: nat)
    ensures IncomingBetween(map[], lo, hi, a) == 0
    decreases hi
  {
    if lo < hi {
      NothingIncoming(a, lo, hi - 1);
    }
  }

  lemma NothingImmature(a: Address, height: nat, confirmations: nat)
    ensures Immature(map[], a, height, confirmations, 0) == 0
  {
    if confirmations > 1 {
      NothingIncoming(a, WindowStart(height, confirmations), height + 1);
    }
  }

  function Spendable(l: Ledger, blocks: map<nat, seq<Tx>>, addr: Address, currentHeight: nat, confirmations: nat,
                     pending: nat): (r: nat)
    ensures r <= l.Balance(addr)
    ensures r > 0 ==> r + Immature(blocks, addr, currentHeight, confirmations, pending) == l.Balance(addr)
  {
    var immature := Immature(blocks, addr, currentHeight, confirmations, pending);
    if l.Balance(addr) < immature then 0 else l.Balance(addr) - immature
  }

  method SpendableBalanceAtHeight(state: State, blocks: map<nat, seq<Tx>>, addr: Address, currentHeight: nat,
                                  confirmations: nat, pendingIncoming: map<Address, nat>) returns (r: nat)
    ensures r == Spendable(state.View(), blocks, addr, currentHeight, confirmations,
                           if addr in pendingIncoming then pendingIncoming[addr] else 0)
  {
    var immature := ImmatureIncomingBalance(blocks, addr, currentHeight, confirmations, pendingIncoming);
    var spendable := state.GetBalance(addr) - immature;
    r := if spendable < 0 then 0 else spendable;
  }
}
