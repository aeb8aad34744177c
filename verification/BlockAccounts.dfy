/** What executed blocks do to every single account, and which blocks are accepted, from the accounts before them. */
module BlockAccounts {
  import opened Bytes
  import opened Wrappers
  import opened Accounts
  import opened Execution
  import opened Rewards
  import opened Supply
  import opened BlockExecution

  // ---------- one transaction ----------

  /** What a successful transaction adds to the balance of `a`. */
  function Effect(callTarget: Address, t: Tx, a: Address): int {
    if t.data == [] then (if t.to == Some(a) then t.value else 0) - (if t.from == a then t.value else 0)
    else (if callTarget == a then 50 else 0) - (if a == NO_ADDRESS then 50 else 0)
  }

  function Steps(t: Tx, a: Address): nat {
    if t.from == a && t.data == [] then 1 else 0
  }

  function GasOf(t: Tx): nat {
    if t.data == [] then 21000 else 42100
  }

  /** Which error the machine gives, from the fields; it fails without touching the accounts. */
  lemma ExecutedErrors(callTarget: Address, m: Machine, t: Tx)
    ensures var r := Executed(callTarget, m, t);
            && (r.error.Some? ==> r.machine.ledger == m.ledger)
            && r.error ==
               if t.gas == 0 || t.gasPrice == 0 || t.value == 0 || t.value >= TWO_256 then Some(InvalidTransaction)
               else if m.gas < 21000 then Some(OutOfGas)
               else if t.data != [] then if m.ledger.Balance(NO_ADDRESS) < 50 then Some(BalanceTooLow) else None
               else if m.ledger.Balance(t.from) < t.value then Some(BalanceTooLow)
               else if t.to == None then Some(NilRecipient) else None
  {
  }

  lemma WordShift(x: int, y: int)
    ensures (x % TWO_64 - y) % TWO_64 == (x - y) % TWO_64
  {
    var q := x / TWO_64;
    assert x - y == (x % TWO_64 - y) + TWO_64 * q;
    WholeWords(x % TWO_64 - y, q);
  }

  lemma WholeWords(x: int, q: int)
    ensures (x + TWO_64 * q) % TWO_64 == x % TWO_64
  {
  }

  /** What success does: only a transfer steps a nonce, its sender's to one more than its own. */
  lemma ExecutedEffect(callTarget: Address, m: Machine, t: Tx, a: Address)
    requires m.gas < TWO_64 && Executed(callTarget, m, t).error.None?
    ensures var n := Executed(callTarget, m, t).machine;
            && n.ledger.Balance(a) == m.ledger.Balance(a) + Effect(callTarget, t, a)
            && n.ledger.Nonce(a) == (if t.data == [] && t.from == a then t.nonce + 1 else m.ledger.Nonce(a))
            && n.ledger.codes == m.ledger.codes
            && n.gas == (m.gas - GasOf(t)) % TWO_64
  {
    WordShift(m.gas - 21100, 21000);
  }

  // ---------- the transactions of a block ----------

  function Net(callTarget: Address, txs: seq<Tx>, a: Address): int {
    if txs == [] then 0
    else Net(callTarget, txs[..|txs| - 1], a) + Effect(callTarget, txs[|txs| - 1], a)
  }

  /** How many transactions without data `a` sends. */
  function Sent(txs: seq<Tx>, a: Address): nat {
    if txs == [] then 0 else Sent(txs[..|txs| - 1], a) + Steps(txs[|txs| - 1], a)
  }

  function GasTaken(txs: seq<Tx>): nat {
    if txs == [] then 0 else GasTaken(txs[..|txs| - 1]) + GasOf(txs[|txs| - 1])
  }

  /** The accounts after `txs`, as sums over them. */
  ghost predicate Settled(callTarget: Address, m: Machine, txs: seq<Tx>, n: Machine) {
    && n.ledger.codes == m.ledger.codes
    && n.gas == (m.gas - GasTaken(txs)) % TWO_64
    && forall a: Address ::
         && n.ledger.Balance(a) == m.ledger.Balance(a) + Net(callTarget, txs, a)
         && n.ledger.Nonce(a) == m.ledger.Nonce(a) + Sent(txs, a)
  }

  /**
   * Everything that transaction `i` of a block has to meet, from the accounts before the block and the
   * transactions before it: no execution is looked at.
   */
  ghost predicate AdmittedAt(env: Env, m: Machine, height: nat, txs: seq<Tx>, i: nat)
    requires i < |txs|
  {
    var t, before := txs[i], txs[..i];
    var balance := m.ledger.Balance(t.from) + Net(env.callTarget, before, t.from);
    var heldBack := Immature(env.blocks, t.from, height, env.confirmations, Incoming(before, t.from));
    && env.signed(t)
    && t.nonce == m.ledger.Nonce(t.from) + Sent(before, t.from)
    && (Cost(t) <= 0 || balance - heldBack >= Cost(t))
    && t.gas > 0 && t.gasPrice > 0 && 0 < t.value < TWO_256
    && (m.gas - GasTaken(before)) % TWO_64 >= 21000
    && if t.data == [] then balance >= t.value && t.to.Some?
       else m.ledger.Balance(NO_ADDRESS) + Net(env.callTarget, before, NO_ADDRESS) >= 50
  }

  ghost predicate AllAdmitted(env: Env, m: Machine, height: nat, txs: seq<Tx>) {
    forall i {:trigger AdmittedAt(env, m, height, txs, i)} :: 0 <= i < |txs| ==> AdmittedAt(env, m, height, txs, i)
  }

  lemma AllAdmittedSnoc(env: Env, m: Machine, height: nat, txs: seq<Tx>)
    requires txs != []
    ensures var n := |txs| - 1;
            AllAdmitted(env, m, height, txs) <==>
              AllAdmitted(env, m, height, txs[..n]) && AdmittedAt(env, m, height, txs, n)
  {
    var n := |txs| - 1;
    forall i | 0 <= i < n
      ensures AdmittedAt(env, m, height, txs, i) == AdmittedAt(env, m, height, txs[..n], i)
    {
      assert txs[..n][..i] == txs[..i];
    }
  }

  /** One checked transaction on accounts that the ones before it have left. */
  lemma StepAdmittedIff(env: Env, m: Machine, height: nat, txs: seq<Tx>, now: Machine)
    requires txs != [] && Settled(env.callTarget, m, txs[..|txs| - 1], now)
    ensures var n := |txs| - 1;
            Stepped(env, now, height, Incoming(txs[..n], txs[n].from), txs[n]).error.None? <==>
              AdmittedAt(env, m, height, txs, n)
  {
    var n := |txs| - 1;
    ExecutedErrors(env.callTarget, now, txs[n]);
  }

  lemma StepSettles(env: Env, m: Machine, height: nat, txs: seq<Tx>, now: Machine)
    requires txs != [] && Settled(env.callTarget, m, txs[..|txs| - 1], now)
    requires var n := |txs| - 1; Stepped(env, now, height, Incoming(txs[..n], txs[n].from), txs[n]).error.None?
    ensures var n := |txs| - 1;
            Settled(env.callTarget, m, txs, Stepped(env, now, height, Incoming(txs[..n], txs[n].from), txs[n]).machine)
  {
    var n := |txs| - 1;
    forall a: Address
      ensures Executed(env.callTarget, now, txs[n]).machine.ledger.Balance(a) ==
                m.ledger.Balance(a) + Net(env.callTarget, txs, a)
      ensures Executed(env.callTarget, now, txs[n]).machine.ledger.Nonce(a) == m.ledger.Nonce(a) + Sent(txs, a)
    {
      ExecutedEffect(env.callTarget, now, txs[n], a);
    }
    ExecutedEffect(env.callTarget, now, txs[n], NO_ADDRESS);
    WordShift(m.gas - GasTaken(txs[..n]), GasOf(txs[n]));
  }

  /**
   * The transactions of a block are executed if and only if each meets its conditions, and then every nonce has
   * gone up by the account's own transfers and every balance by what they and the calls move.
   */
  lemma {:induction false} ExecutedIff(env: Env, m: Machine, height: nat, txs: seq<Tx>)
    requires m.gas < TWO_64
    ensures ExecutedAll(env, m, height, txs).error.None? <==> AllAdmitted(env, m, height, txs)
    ensures AllAdmitted(env, m, height, txs) ==>
              Settled(env.callTarget, m, txs, ExecutedAll(env, m, height, txs).machine)
  {
    if txs != [] {
      var n := |txs| - 1;
      ExecutedIff(env, m, height, txs[..n]);
      AllAdmittedSnoc(env, m, height, txs);
      if AllAdmitted(env, m, height, txs[..n]) {
        var now := ExecutedAll(env, m, height, txs[..n]).machine;
        StepAdmittedIff(env, m, height, txs, now);
        if AdmittedAt(env, m, height, txs, n) {
          StepSettles(env, m, height, txs, now);
        }
      }
    }
  }

  /** The first transaction that does not meet its conditions stops the block, and the ones before it stay applied. */
  lemma RefusedAtFirst(env: Env, m: Machine, height: nat, txs: seq<Tx>, i: nat)
    requires m.gas < TWO_64 && i < |txs|
    requires AllAdmitted(env, m, height, txs[..i]) && !AdmittedAt(env, m, height, txs, i)
    ensures var r, before := ExecutedAll(env, m, height, txs), ExecutedAll(env, m, height, txs[..i]);
            r.error.Some? && r.machine.ledger == before.machine.ledger
            && Settled(env.callTarget, m, txs[..i], before.machine)
  {
    var upTo := txs[..i + 1];
    assert upTo[..i] == txs[..i];
    ExecutedIff(env, m, height, txs[..i]);
    var now := ExecutedAll(env, m, height, txs[..i]).machine;
    assert AdmittedAt(env, m, height, upTo, i) == AdmittedAt(env, m, height, txs, i);
    StepAdmittedIff(env, m, height, upTo, now);
    ExecutedErrors(env.callTarget, now, txs[i]);
    FailureIsFinal(env, m, height, txs, i + 1);
  }

  // ---------- a validated block ----------

  /** The gas that the transactions name, not reduced to a word. */
  function GasNamed(txs: seq<Tx>): nat {
    if txs == [] then 0 else GasNamed(txs[..|txs| - 1]) + txs[|txs| - 1].gas
  }

  lemma {:induction false} TotalGasIs(txs: seq<Tx>)
    ensures TotalGas(txs) == GasNamed(txs) % TWO_64
  {
    if txs != [] {
      TotalGasIs(txs[..|txs| - 1]);
    }
  }

  /** A block passes the executing part of validation exactly under these conditions on its fields. */
  lemma ValidatedIff(env: Env, mainKing: Address, l: Ledger, b: SealedBlock)
    requires b.gasLimit < TWO_64
    ensures Validated(env, mainKing, l, b).error.None? <==>
              && AllAdmitted(env, Machine(b.gasLimit, l), if b.number == 0 then 0 else b.number - 1, b.txs)
              && b.gasUsed == GasNamed(b.txs) % TWO_64 <= b.gasLimit
  {
    ExecutedIff(env, Machine(b.gasLimit, l), ParentHeight(b.number), b.txs);
    TotalGasIs(b.txs);
  }

  /** Paying out on accounts that the block's transactions have left. */
  lemma PaidOut(callTarget: Address, mainKing: Address, m: Machine, b: SealedBlock, n: Machine, a: Address)
    requires Settled(callTarget, m, b.txs, n)
    ensures var after, fees := Distributed(n.ledger, b.coinbase, mainKing, b.king, TotalFees(b.txs), b.number),
                               TotalFees(b.txs);
            var total := BlockReward(b.number) + if fees > 0 then fees else 0;
            var stake := m.ledger.Balance(b.king) + Net(callTarget, b.txs, b.king);
            var payee := if b.king != NO_ADDRESS && stake >= 100_000_000_000_000_000_000_000 then b.king else mainKing;
            && after.Nonce(a) == m.ledger.Nonce(a) + Sent(b.txs, a)
            && after.Balance(a) == m.ledger.Balance(a) + Net(callTarget, b.txs, a)
                                   + Share(total, b.coinbase, mainKing, payee, a)
            && after.codes == m.ledger.codes
  {
    DistributedAccounts(n.ledger, b.coinbase, mainKing, b.king, TotalFees(b.txs), b.number, a);
    assert n.ledger.Balance(b.king) == m.ledger.Balance(b.king) + Net(callTarget, b.txs, b.king);
    assert n.ledger.Nonce(a) == m.ledger.Nonce(a) + Sent(b.txs, a);
  }

  /**
   * The accounts after a validated block: each nonce has gone up by the transfers of its account, each balance by
   * what the block's transactions move and by the shares of reward and fees; no code has changed.
   */
  lemma ValidatedAccounts(env: Env, mainKing: Address, l: Ledger, b: SealedBlock, a: Address)
    requires b.gasLimit < TWO_64 && Validated(env, mainKing, l, b).error.None?
    ensures var after, fees := Validated(env, mainKing, l, b).ledger, TotalFees(b.txs);
            var total := BlockReward(b.number) + if fees > 0 then fees else 0;
            var stake := l.Balance(b.king) + Net(env.callTarget, b.txs, b.king);
            var payee := if b.king != NO_ADDRESS && stake >= 100_000_000_000_000_000_000_000 then b.king else mainKing;
            && after.Nonce(a) == l.Nonce(a) + Sent(b.txs, a)
            && after.Balance(a) == l.Balance(a) + Net(env.callTarget, b.txs, a)
                                   + Share(total, b.coinbase, mainKing, payee, a)
            && after.codes == l.codes
  {
    var m, height := Machine(b.gasLimit, l), ParentHeight(b.number);
    ExecutedIff(env, m, height, b.txs);
    PaidOut(env.callTarget, mainKing, m, b, ExecutedAll(env, m, height, b.txs).machine, a);
  }

  lemma {:induction false} SentGrows(txs: seq<Tx>, i: nat, a: Address)
    requires i <= |txs|
    ensures Sent(txs[..i], a) <= Sent(txs, a)
    ensures i < |txs| && txs[i].from == a && txs[i].data == [] ==> Sent(txs[..i], a) < Sent(txs, a)
  {
    if i < |txs| {
      var front := txs[..|txs| - 1];
      assert front[..i] == txs[..i];
      SentGrows(front, i, a);
    } else {
      assert txs[..i] == txs;
    }
  }

  /** In an executed block a transfer's nonce is below those of all later transactions of its sender. */
  lemma NoncesClimb(env: Env, m: Machine, height: nat, txs: seq<Tx>, i: nat, j: nat)
    requires m.gas < TWO_64 && ExecutedAll(env, m, height, txs).error.None?
    requires i < j < |txs| && txs[i].from == txs[j].from
    ensures txs[i].nonce <= txs[j].nonce
    ensures txs[i].data == [] ==> txs[i].nonce < txs[j].nonce && txs[i] != txs[j]
  {
    ExecutedIff(env, m, height, txs);
    assert AdmittedAt(env, m, height, txs, i) && AdmittedAt(env, m, height, txs, j);
    assert txs[..j][..i] == txs[..i];
    SentGrows(txs[..j], i, txs[i].from);
  }

  /** A transaction with data steps no nonce, so one and the same can stand in a validated block twice. */
  lemma CallRunsTwice(signed: Tx -> bool, target: Address, mainKing: Address, a: Address, hash: Hash32,
                      coinbase: Address, king: Address, confirmations: nat, number: nat)
    requires a != NO_ADDRESS && signed(Tx(hash, a, None, 1, 21000, 1, 0, [1]))
    ensures var t := Tx(hash, a, None, 1, 21000, 1, 0, [1]);
            var env := Env(signed, target, map[], confirmations);
            var l := Ledger(map[a := 21001, NO_ADDRESS := 100], map[], map[]);
            Validated(env, mainKing, l, SealedBlock(number, 84200, 42000, coinbase, king, [t, t])).error.None?
  {
    var t := Tx(hash, a, None, 1, 21000, 1, 0, [1]);
    var env := Env(signed, target, map[], confirmations);
    var l := Ledger(map[a := 21001, NO_ADDRESS := 100], map[], map[]);
    var m, height, txs := Machine(84200, l), ParentHeight(number), [t, t];
    NothingImmature(a, height, confirmations);
    assert txs[..0] == [] && txs[..1] == [t] && [t][..0] == [];
    assert AdmittedAt(env, m, height, txs, 0);
    assert AdmittedAt(env, m, height, txs, 1);
    assert GasNamed([t]) == 21000;
    assert GasNamed(txs) == 42000;
    ValidatedIff(env, mainKing, l, SealedBlock(number, 84200, 42000, coinbase, king, txs));
  }

  // ---------- runs of blocks ----------

  function SentIn(blocks: seq<SealedBlock>, a: Address): nat {
    if blocks == [] then 0 else SentIn(blocks[..|blocks| - 1], a) + Sent(blocks[|blocks| - 1].txs, a)
  }

  function NetIn(callTarget: Address, blocks: seq<SealedBlock>, a: Address): int {
    if blocks == [] then 0
    else NetIn(callTarget, blocks[..|blocks| - 1], a) + Net(callTarget, blocks[|blocks| - 1].txs, a)
  }

  ghost predicate WordLimits(blocks: seq<SealedBlock>) {
    forall i :: 0 <= i < |blocks| ==> blocks[i].gasLimit < TWO_64
  }

  ghost predicate Unrewarded(mainKing: Address, blocks: seq<SealedBlock>, a: Address) {
    a != mainKing && forall i :: 0 <= i < |blocks| ==> blocks[i].coinbase != a && blocks[i].king != a
  }

  lemma UnrewardedByBlock(env: Env, mainKing: Address, l: Ledger, b: SealedBlock, a: Address)
    requires b.gasLimit < TWO_64 && Validated(env, mainKing, l, b).error.None?
    ensures var after := Validated(env, mainKing, l, b).ledger;
            && after.Nonce(a) == l.Nonce(a) + Sent(b.txs, a) && after.codes == l.codes
            && (a != mainKing && b.coinbase != a && b.king != a ==>
                  after.Balance(a) == l.Balance(a) + Net(env.callTarget, b.txs, a))
  {
    ValidatedAccounts(env, mainKing, l, b, a);
  }

  /**
   * Over a whole run of validated blocks: each nonce has gone up by the transfers the account sent, no code has
   * changed, and an account that no block rewards has what the transactions moved, to the unit.
   */
  lemma {:induction false} RunAccounts(env: Env, mainKing: Address, l: Ledger, blocks: seq<SealedBlock>, a: Address)
    requires RunAccepted(env, mainKing, l, blocks) && WordLimits(blocks)
    ensures var after := RunOf(env, mainKing, l, blocks);
            && after.Nonce(a) == l.Nonce(a) + SentIn(blocks, a)
            && after.codes == l.codes
            && (Unrewarded(mainKing, blocks, a) ==>
                  after.Balance(a) == l.Balance(a) + NetIn(env.callTarget, blocks, a))
  {
    if blocks != [] {
      var n := |blocks| - 1;
      RunAcceptedPrefix(env, mainKing, l, blocks, n);
      RunAccounts(env, mainKing, l, blocks[..n], a);
      assert AcceptedAt(env, mainKing, l, blocks, n);
      UnrewardedByBlock(env.(blocks := History(blocks[..n])), mainKing, RunOf(env, mainKing, l, blocks[..n]),
                        blocks[n], a);
      assert Unrewarded(mainKing, blocks, a) ==> Unrewarded(mainKing, blocks[..n], a);
    }
  }

  /** The nonce of every transaction of a run counts the transfers of its sender before it. */
  lemma RunNonce(env: Env, mainKing: Address, l: Ledger, blocks: seq<SealedBlock>, h: nat, i: nat)
    requires RunAccepted(env, mainKing, l, blocks) && WordLimits(blocks) && h < |blocks| && i < |blocks[h].txs|
    ensures var t := blocks[h].txs[i];
            t.nonce == l.Nonce(t.from) + SentIn(blocks[..h], t.from) + Sent(blocks[h].txs[..i], t.from)
  {
    var b, now := blocks[h], RunOf(env, mainKing, l, blocks[..h]);
    RunAcceptedPrefix(env, mainKing, l, blocks, h);
    assert forall k :: 0 <= k < h ==> blocks[..h][k] == blocks[k];
    RunAccounts(env, mainKing, l, blocks[..h], b.txs[i].from);
    assert AcceptedAt(env, mainKing, l, blocks, h);
    var here := env.(blocks := History(blocks[..h]));
    ExecutedIff(here, Machine(b.gasLimit, now), ParentHeight(b.number), b.txs);
    assert AdmittedAt(here, Machine(b.gasLimit, now), ParentHeight(b.number), b.txs, i);
  }

  lemma {:induction false} SentInGrows(blocks: seq<SealedBlock>, n: nat, a: Address)
    requires n <= |blocks|
    ensures SentIn(blocks[..n], a) <= SentIn(blocks, a)
    ensures n < |blocks| ==> SentIn(blocks[..n], a) + Sent(blocks[n].txs, a) <= SentIn(blocks, a)
  {
    if n < |blocks| {
      var front := blocks[..|blocks| - 1];
      assert front[..n] == blocks[..n];
      SentInGrows(front, n, a);
    } else {
      assert blocks[..n] == blocks;
    }
  }

  /** No transfer runs twice: later transactions of its sender, in the same or any later block, have higher nonces. */
  lemma NoTransferRunsTwice(env: Env, mainKing: Address, l: Ledger, blocks: seq<SealedBlock>, h: nat, i: nat,
                            k: nat, j: nat)
    requires RunAccepted(env, mainKing, l, blocks) && WordLimits(blocks)
    requires h <= k < |blocks| && i < |blocks[h].txs| && j < |blocks[k].txs| && (h == k ==> i < j)
    ensures var t, t' := blocks[h].txs[i], blocks[k].txs[j];
            t.data == [] ==> t != t' && (t.from == t'.from ==> t.nonce < t'.nonce)
  {
    var t, t' := blocks[h].txs[i], blocks[k].txs[j];
    RunNonce(env, mainKing, l, blocks, h, i);
    RunNonce(env, mainKing, l, blocks, k, j);
    if h == k {
      assert blocks[h].txs[..j][..i] == blocks[h].txs[..i];
      SentGrows(blocks[h].txs[..j], i, t.from);
    } else {
      SentGrows(blocks[h].txs, i, t.from);
      assert blocks[..k][..h] == blocks[..h];
      SentInGrows(blocks[..k], h, t.from);
    }
  }
}
