/** The simulated validation pass over a batch, and why the real application then never fails. */
module BatchValidation {
  import opened Bytes
  import opened Wrappers
  import opened Accounts
  import opened Execution

  datatype BatchError = NilInBatch | Duplicate | NonceGap | Overspend

  // ---------- library sort, by a numeric key ----------

  ghost predicate Sorted<T>(key: T -> nat, xs: seq<T>) {
    forall i, j :: 0 <= i < j < |xs| ==> key(xs[i]) <= key(xs[j])
  }

  function Insert<T>(key: T -> nat, x: T, xs: seq<T>): seq<T> {
    if xs == [] then [x]
    else if key(x) <= key(xs[0]) then [x] + xs
    else [xs[0]] + Insert(key, x, xs[1..])
  }

  function SortBy<T>(key: T -> nat, xs: seq<T>): seq<T> {
    if xs == [] then [] else Insert(key, xs[0], SortBy(key, xs[1..]))
  }

  lemma {:induction false} InsertKeeps<T>(key: T -> nat, x: T, xs: seq<T>)
    ensures multiset(Insert(key, x, xs)) == multiset{x} + multiset(xs)
  {
    if xs != [] {
      assert xs == [xs[0]] + xs[1..];
      InsertKeeps(key, x, xs[1..]);
    }
  }

  lemma SortedPrepend<T>(key: T -> nat, x: T, xs: seq<T>)
    requires Sorted(key, xs) && forall y :: y in multiset(xs) ==> key(x) <= key(y)
    ensures Sorted(key, [x] + xs)
  {
    var r := [x] + xs;
    forall i, j | 0 <= i < j < |r| ensures key(r[i]) <= key(r[j]) {
      assert r[j] == xs[j - 1] && xs[j - 1] in multiset(xs);
    }
  }

  lemma HeadIsLeast<T>(key: T -> nat, xs: seq<T>, y: T)
    requires Sorted(key, xs) && y in multiset(xs)
    ensures key(xs[0]) <= key(y)
  {
    var i :| 0 <= i < |xs| && xs[i] == y;
  }

  lemma {:induction false} InsertSorts<T>(key: T -> nat, x: T, xs: seq<T>)
    requires Sorted(key, xs)
    ensures Sorted(key, Insert(key, x, xs))
  {
    if xs != [] {
      if key(x) <= key(xs[0]) {
        forall y | y in multiset(xs) ensures key(x) <= key(y) {
          HeadIsLeast(key, xs, y);
        }
        SortedPrepend(key, x, xs);
      } else {
        var rest := Insert(key, x, xs[1..]);
        InsertSorts(key, x, xs[1..]);
        InsertKeeps(key, x, xs[1..]);
        forall y | y in multiset(rest) ensures key(xs[0]) <= key(y) {
          if y != x {
            assert xs == [xs[0]] + xs[1..];
            HeadIsLeast(key, xs, y);
          }
        }
        SortedPrepend(key, xs[0], rest);
      }
    }
  }

  lemma {:induction false} SortIsCorrect<T>(key: T -> nat, xs: seq<T>)
    ensures multiset(SortBy(key, xs)) == multiset(xs) && Sorted(key, SortBy(key, xs))
    ensures |SortBy(key, xs)| == |xs|
  {
    if xs != [] {
      assert xs == [xs[0]] + xs[1..];
      SortIsCorrect(key, xs[1..]);
      InsertKeeps(key, xs[0], SortBy(key, xs[1..]));
      InsertSorts(key, xs[0], SortBy(key, xs[1..]));
    }
    assert |multiset(SortBy(key, xs))| == |multiset(xs)|;
  }

  // ---------- a sender's own transactions ----------

  function NonceOf(t: Tx): nat {
    t.nonce
  }

  function BySender(txs: seq<Tx>, a: Address): seq<Tx> {
    if txs == [] then []
    else
      var rest := BySender(txs[..|txs| - 1], a);
      if txs[|txs| - 1].from == a then rest + [txs[|txs| - 1]] else rest
  }

  lemma BySenderSnoc(txs: seq<Tx>, t: Tx, a: Address)
    ensures BySender(txs + [t], a) == if t.from == a then BySender(txs, a) + [t] else BySender(txs, a)
  {
    assert (txs + [t])[..|txs|] == txs;
  }

  lemma {:induction false} BySenderConcat(xs: seq<Tx>, ys: seq<Tx>, a: Address)
    ensures BySender(xs + ys, a) == BySender(xs, a) + BySender(ys, a)
  {
    if ys == [] {
      assert xs + ys == xs;
    } else {
      var front := ys[..|ys| - 1];
      BySenderConcat(xs, front, a);
      assert (xs + ys)[..|xs + ys| - 1] == xs + front;
    }
  }

  ghost predicate AllFrom(txs: seq<Tx>, owner: Address) {
    forall i :: 0 <= i < |txs| ==> txs[i].from == owner
  }

  lemma {:induction false} BySenderAll(txs: seq<Tx>, owner: Address, a: Address)
    requires AllFrom(txs, owner)
    ensures BySender(txs, a) == if a == owner then txs else []
  {
    if txs != [] {
      var n := |txs| - 1;
      BySenderAll(txs[..n], owner, a);
      assert txs == txs[..n] + [txs[n]];
    }
  }

  /** A transaction occurs as often among its sender's transactions as in the whole list. */
  lemma {:induction false} BySenderCount(txs: seq<Tx>, a: Address, t: Tx)
    ensures multiset(BySender(txs, a))[t] == if t.from == a then multiset(txs)[t] else 0
  {
    if txs != [] {
      var n := |txs| - 1;
      BySenderCount(txs[..n], a, t);
      assert txs == txs[..n] + [txs[n]];
    }
  }

  /** Contiguous nonces from `nonce`, each cost covered by what is left of `budget`. */
  predicate Fundable(nonce: nat, budget: int, txs: seq<Tx>)
    decreases |txs|
  {
    txs != [] ==>
      && txs[0].nonce == nonce
      && Cost(txs[0]) <= budget
      && Fundable(nonce + 1, budget - Cost(txs[0]), txs[1..])
  }

  /** What some transactions cost together. */
  function CostSum(txs: seq<Tx>): int {
    if txs == [] then 0 else CostSum(txs[..|txs| - 1]) + Cost(txs[|txs| - 1])
  }

  lemma {:induction false} CostSumFirst(txs: seq<Tx>)
    requires txs != []
    ensures CostSum(txs) == Cost(txs[0]) + CostSum(txs[1..])
  {
    var n := |txs| - 1;
    if n > 0 {
      CostSumFirst(txs[..n]);
      assert txs[..n][1..] == txs[1..][..n - 1];
    }
  }

  /** The nonce continues the row, and all costs up to this one are within the budget. */
  predicate AffordableAt(nonce: nat, budget: int, txs: seq<Tx>, i: nat)
    requires i < |txs|
  {
    txs[i].nonce == nonce + i && CostSum(txs[..i + 1]) <= budget
  }

  lemma AffordableLater(nonce: nat, budget: int, txs: seq<Tx>, i: nat)
    requires 1 <= i < |txs|
    ensures AffordableAt(nonce, budget, txs, i) <==>
              AffordableAt(nonce + 1, budget - Cost(txs[0]), txs[1..], i - 1)
  {
    CostSumFirst(txs[..i + 1]);
    assert txs[..i + 1][1..] == txs[1..][..i];
  }

  lemma AffordableFirst(nonce: nat, budget: int, txs: seq<Tx>)
    requires txs != []
    ensures AffordableAt(nonce, budget, txs, 0) <==> txs[0].nonce == nonce && Cost(txs[0]) <= budget
  {
    CostSumFirst(txs[..1]);
    assert txs[..1][1..] == [];
  }

  /** A sender's transactions pass exactly when all nonces are in a row and no initial part costs too much. */
  lemma {:induction false} FundableIff(nonce: nat, budget: int, txs: seq<Tx>)
    ensures Fundable(nonce, budget, txs) <==> forall i :: 0 <= i < |txs| ==> AffordableAt(nonce, budget, txs, i)
    decreases |txs|
  {
    if txs != [] {
      var next, left, rest := nonce + 1, budget - Cost(txs[0]), txs[1..];
      FundableIff(next, left, rest);
      AffordableFirst(nonce, budget, txs);
      if Fundable(next, left, rest) {
        forall i | 1 <= i < |txs| ensures AffordableAt(nonce, budget, txs, i) {
          AffordableLater(nonce, budget, txs, i);
        }
      } else {
        var i :| 0 <= i < |rest| && !AffordableAt(next, left, rest, i);
        AffordableLater(nonce, budget, txs, i + 1);
      }
    }
  }

  lemma {:induction false} FundableMonotone(nonce: nat, budget: int, more: int, txs: seq<Tx>)
    requires Fundable(nonce, budget, txs) && budget <= more
    ensures Fundable(nonce, more, txs)
    decreases |txs|
  {
    if txs != [] {
      FundableMonotone(nonce + 1, budget - Cost(txs[0]), more - Cost(txs[0]), txs[1..]);
    }
  }

  // ---------- when the application fails ----------

  /** Every sender can pay for its own transactions, in the order they stand. */
  ghost predicate Ready(l: Ledger, txs: seq<Tx>) {
    forall a :: Fundable(l.Nonce(a), l.Balance(a), BySender(txs, a))
  }

  /** Transfers and calls only, no contract creations. */
  ghost predicate Transfers(txs: seq<Tx>) {
    forall i :: 0 <= i < |txs| ==> txs[i].to.Some?
  }

  /** Transfers and calls, each with a positive total cost. */
  ghost predicate PlainTransfers(txs: seq<Tx>) {
    Transfers(txs) && forall i :: 0 <= i < |txs| ==> Cost(txs[i]) > 0
  }

  function Delta(t: Tx, a: Address): int {
    (if t.to == Some(a) then t.value else 0) - (if t.from == a then Cost(t) else 0)
  }

  /** What the transactions add to an account, by their own amounts. */
  function Net(txs: seq<Tx>, a: Address): int {
    if txs == [] then 0 else Delta(txs[0], a) + Net(txs[1..], a)
  }

  /**
   * By the batch's own sums, transfer `k` reaches an account without balance and code that has used nonces
   * already and has transactions still to come.
   */
  predicate LosesNonce(l: Ledger, txs: seq<Tx>, k: nat)
    requires k < |txs| && txs[k].to.Some?
  {
    var to := txs[k].to.value;
    && l.Balance(to) + Net(txs[..k], to) == (if txs[k].from == to then Cost(txs[k]) else 0)
    && l.Code(to) == []
    && l.Nonce(to) + |BySender(txs[..k + 1], to)| > 0
    && BySender(txs[k + 1..], to) != []
  }

  ghost predicate SomeNonceLost(l: Ledger, txs: seq<Tx>)
    requires Transfers(txs)
  {
    exists k :: 0 <= k < |txs| && LosesNonce(l, txs, k)
  }

  lemma BySenderFirst(txs: seq<Tx>, a: Address)
    requires txs != []
    ensures BySender(txs, a) == (if txs[0].from == a then [txs[0]] else []) + BySender(txs[1..], a)
  {
    assert txs == [txs[0]] + txs[1..];
    BySenderConcat([txs[0]], txs[1..], a);
    assert [txs[0]][..0] == [];
  }

  lemma DebitKeepsFunding(l: Ledger, txs: seq<Tx>, a: Address)
    requires txs != [] && Fundable(l.Nonce(a), l.Balance(a), BySender(txs, a))
    requires Cost(txs[0]) <= l.Balance(txs[0].from)
    ensures var paid := Debited(l, txs[0]);
            Fundable(paid.Nonce(a), paid.Balance(a), BySender(txs[1..], a))
  {
    BySenderFirst(txs, a);
    var mine, left := BySender(txs, a), BySender(txs[1..], a);
    if a == txs[0].from {
      assert mine[0] == txs[0] && mine[1..] == left;
    } else {
      assert mine == left;
    }
  }

  /** The first transfer loses a nonce exactly when it resets one that is still needed. */
  lemma FirstLosesNonce(l: Ledger, txs: seq<Tx>)
    requires txs != [] && txs[0].to.Some? && Cost(txs[0]) <= l.Balance(txs[0].from)
    ensures var to, paid := txs[0].to.value, Debited(l, txs[0]);
            LosesNonce(l, txs, 0) <==> paid.Blank(to) && paid.Nonce(to) > 0 && BySender(txs[1..], to) != []
  {
    var to := txs[0].to.value;
    assert txs[..0] == [] && txs[..1] == [txs[0]];
    BySenderFirst([txs[0]], to);
    assert [txs[0]][1..] == [];
  }

  /** One account's view of one applied transfer that loses no nonce. */
  lemma StepKeepsFunding(contractAddress: (Address, nat) -> Address, l: Ledger, txs: seq<Tx>, a: Address)
    requires txs != [] && Transfers(txs) && !LosesNonce(l, txs, 0)
    requires Fundable(l.Nonce(a), l.Balance(a), BySender(txs, a))
    requires Apply(contractAddress, l, txs[0]).error.None?
    ensures var l' := Apply(contractAddress, l, txs[0]).ledger;
            Fundable(l'.Nonce(a), l'.Balance(a), BySender(txs[1..], a))
  {
    var paid, left := Debited(l, txs[0]), BySender(txs[1..], a);
    var l' := Received(paid, txs[0].to.value, txs[0].value);
    DebitKeepsFunding(l, txs, a);
    FirstLosesNonce(l, txs);
    if left != [] {
      FundableMonotone(paid.Nonce(a), paid.Balance(a), l'.Balance(a), left);
    }
  }

  lemma ReadyStep(contractAddress: (Address, nat) -> Address, l: Ledger, txs: seq<Tx>)
    requires txs != [] && Transfers(txs) && Ready(l, txs)
    ensures Apply(contractAddress, l, txs[0]).error.None?
    ensures Cost(txs[0]) <= l.Balance(txs[0].from)
    ensures !LosesNonce(l, txs, 0) ==> Ready(Apply(contractAddress, l, txs[0]).ledger, txs[1..])
  {
    var t := txs[0];
    assert Fundable(l.Nonce(t.from), l.Balance(t.from), BySender(txs, t.from));
    BySenderFirst(txs, t.from);
    if !LosesNonce(l, txs, 0) {
      var l' := Apply(contractAddress, l, t).ledger;
      forall a ensures Fundable(l'.Nonce(a), l'.Balance(a), BySender(txs[1..], a)) {
        StepKeepsFunding(contractAddress, l, txs, a);
      }
    }
  }

  lemma StillToCome(txs: seq<Tx>, k: nat, a: Address)
    requires 1 <= k < |txs| && BySender(txs[1..], a) == []
    ensures BySender(txs[k + 1..], a) == []
  {
    BySenderConcat(txs[1..][..k], txs[1..][k..], a);
    assert txs[1..] == txs[1..][..k] + txs[1..][k..] && txs[1..][k..] == txs[k + 1..];
  }

  lemma BalanceLater(contractAddress: (Address, nat) -> Address, l: Ledger, txs: seq<Tx>, k: nat, a: Address)
    requires 1 <= k < |txs| && txs[0].to.Some? && Apply(contractAddress, l, txs[0]).error.None?
    ensures Apply(contractAddress, l, txs[0]).ledger.Balance(a) + Net(txs[1..][..k - 1], a) ==
              l.Balance(a) + Net(txs[..k], a)
  {
    assert txs[..k][1..] == txs[1..][..k - 1];
    assert Apply(contractAddress, l, txs[0]).ledger.Balance(a) == l.Balance(a) + Delta(txs[0], a);
  }

  lemma NoncesLater(txs: seq<Tx>, k: nat, a: Address)
    requires 1 <= k < |txs|
    ensures |BySender(txs[..k + 1], a)| == (if txs[0].from == a then 1 else 0) + |BySender(txs[1..][..k], a)|
  {
    assert txs[..k + 1][1..] == txs[1..][..k];
    BySenderFirst(txs[..k + 1], a);
  }

  /** Losing a nonce later on can be judged before or after the first transfer. */
  lemma LosesNonceLater(contractAddress: (Address, nat) -> Address, l: Ledger, txs: seq<Tx>, k: nat)
    requires 1 <= k < |txs| && Transfers(txs) && !LosesNonce(l, txs, 0)
    requires Apply(contractAddress, l, txs[0]).error.None?
    ensures LosesNonce(l, txs, k) <==> LosesNonce(Apply(contractAddress, l, txs[0]).ledger, txs[1..], k - 1)
  {
    var to, rest := txs[k].to.value, txs[1..];
    var l' := Apply(contractAddress, l, txs[0]).ledger;
    FirstLosesNonce(l, txs);
    assert txs[k + 1..] == rest[k..];
    BalanceLater(contractAddress, l, txs, k, to);
    NoncesLater(txs, k, to);
    if BySender(rest, to) == [] {
      StillToCome(txs, k, to);
    }
  }

  /** A sender whose next nonce is above a reset one stops the batch. */
  lemma {:induction false} StaleNonceFails(contractAddress: (Address, nat) -> Address, l: Ledger, txs: seq<Tx>,
                                           a: Address)
    requires Transfers(txs) && l.Nonce(a) == 0
    requires BySender(txs, a) != [] && BySender(txs, a)[0].nonce > 0
    ensures ApplyAll(contractAddress, l, txs).error.Some?
    decreases |txs|
  {
    BySenderFirst(txs, a);
    var first := Apply(contractAddress, l, txs[0]);
    if txs[0].from != a && first.error.None? {
      StaleNonceFails(contractAddress, first.ledger, txs[1..], a);
    }
  }

  /**
   * If every sender can pay for its own transfers, then applying them in order fails exactly when one of them
   * reaches a drained account without code whose used nonce is still needed and is thereby set back to zero.
   */
  lemma {:induction false} ReadyFailsIff(contractAddress: (Address, nat) -> Address, l: Ledger, txs: seq<Tx>)
    requires Ready(l, txs) && Transfers(txs)
    ensures ApplyAll(contractAddress, l, txs).error.Some? <==> SomeNonceLost(l, txs)
    decreases |txs|
  {
    if txs != [] {
      var l' := Apply(contractAddress, l, txs[0]).ledger;
      ReadyStep(contractAddress, l, txs);
      if LosesNonce(l, txs, 0) {
        var to := txs[0].to.value;
        FirstLosesNonce(l, txs);
        assert Fundable(l.Nonce(to), l.Balance(to), BySender(txs, to));
        DebitKeepsFunding(l, txs, to);
        StaleNonceFails(contractAddress, l', txs[1..], to);
      } else {
        ReadyFailsIff(contractAddress, l', txs[1..]);
        forall k | 1 <= k < |txs|
          ensures LosesNonce(l, txs, k) <==> LosesNonce(l', txs[1..], k - 1)
        {
          LosesNonceLater(contractAddress, l, txs, k);
        }
        if SomeNonceLost(l', txs[1..]) {
          var k :| 0 <= k < |txs| - 1 && LosesNonce(l', txs[1..], k);
          assert LosesNonce(l, txs, k + 1);
        }
      }
    }
  }

  /** A sender that has spent everything has no further transaction of positive cost. */
  lemma NothingLeft(nonce: nat, budget: int, txs: seq<Tx>)
    requires Fundable(nonce, budget, txs) && budget <= 0
    requires forall i :: 0 <= i < |txs| ==> Cost(txs[i]) > 0
    ensures txs == []
  {
  }

  lemma {:induction false} SendersPositive(txs: seq<Tx>, a: Address)
    requires forall i :: 0 <= i < |txs| ==> Cost(txs[i]) > 0
    ensures forall i :: 0 <= i < |BySender(txs, a)| ==> Cost(BySender(txs, a)[i]) > 0
  {
    if txs != [] {
      SendersPositive(txs[..|txs| - 1], a);
    }
  }

  /**
   * Where every cost is positive a drained account has nothing left to send, so applying never fails,
   * whatever the transfers between the senders do to each other's balances and nonces.
   */
  lemma {:induction false} ReadyNeverFails(contractAddress: (Address, nat) -> Address, l: Ledger, txs: seq<Tx>)
    requires Ready(l, txs) && PlainTransfers(txs)
    ensures ApplyAll(contractAddress, l, txs).error.None?
    decreases |txs|
  {
    if txs != [] {
      var to := txs[0].to.value;
      ReadyStep(contractAddress, l, txs);
      assert Fundable(l.Nonce(to), l.Balance(to), BySender(txs, to));
      DebitKeepsFunding(l, txs, to);
      FirstLosesNonce(l, txs);
      SendersPositive(txs[1..], to);
      if LosesNonce(l, txs, 0) {
        NothingLeft(Debited(l, txs[0]).Nonce(to), 0, BySender(txs[1..], to));
        assert false;
      }
      ReadyNeverFails(contractAddress, Apply(contractAddress, l, txs[0]).ledger, txs[1..]);
    }
  }

  // ---------- the validation pass ----------

  function AddressKey(a: Address): nat {
    ToNat(a)
  }

  function SenderKey(t: Tx): nat {
    ToNat(t.from)
  }

  predicate AllPresent(txs: seq<Option<Tx>>) {
    forall i :: 0 <= i < |txs| ==> txs[i].Some?
  }

  function Present(txs: seq<Option<Tx>>): seq<Tx> {
    if txs == [] then []
    else
      var front := Present(txs[..|txs| - 1]);
      match txs[|txs| - 1] case Some(t) => front + [t] case None => front
  }

  lemma {:induction false} PresentAt(txs: seq<Option<Tx>>)
    requires AllPresent(txs)
    ensures |Present(txs)| == |txs| && forall i :: 0 <= i < |txs| ==> Present(txs)[i] == txs[i].value
  {
    if txs != [] {
      PresentAt(txs[..|txs| - 1]);
    }
  }

  ghost predicate DistinctHashes(txs: seq<Tx>) {
    forall i, j :: 0 <= i < j < |txs| ==> txs[i].hash != txs[j].hash
  }

  ghost predicate Seen(txs: seq<Tx>, hashes: set<Hash32>) {
    && (forall i :: 0 <= i < |txs| ==> txs[i].hash in hashes)
    && forall h :: h in hashes ==> exists i :: 0 <= i < |txs| && txs[i].hash == h
  }

  lemma DistinctSnoc(txs: seq<Tx>, t: Tx, hashes: set<Hash32>)
    requires DistinctHashes(txs) && Seen(txs, hashes)
    ensures DistinctHashes(txs + [t]) <==> t.hash !in hashes
    ensures Seen(txs + [t], hashes + {t.hash})
  {
    var longer := txs + [t];
    assert forall i :: 0 <= i < |txs| ==> longer[i] == txs[i];
    if t.hash in hashes {
      var i :| 0 <= i < |txs| && txs[i].hash == t.hash;
      assert longer[i].hash == longer[|txs|].hash;
    }
    forall h | h in hashes + {t.hash} ensures exists i :: 0 <= i < |longer| && longer[i].hash == h {
      if h == t.hash {
        assert longer[|txs|].hash == h;
      } else {
        var i :| 0 <= i < |txs| && txs[i].hash == h;
        assert longer[i].hash == h;
      }
    }
  }

  function Group(groups: map<Address, seq<Tx>>, a: Address): seq<Tx> {
    if a in groups then groups[a] else []
  }

  /** The groups are exactly the senders' own transactions. */
  ghost predicate GroupsOf(groups: map<Address, seq<Tx>>, txs: seq<Tx>) {
    && (forall a :: Group(groups, a) == BySender(txs, a))
    && forall a :: a in groups ==> groups[a] != []
  }

  lemma GroupsSnoc(groups: map<Address, seq<Tx>>, txs: seq<Tx>, t: Tx)
    requires GroupsOf(groups, txs)
    ensures GroupsOf(groups[t.from := Group(groups, t.from) + [t]], txs + [t])
  {
    var groups' := groups[t.from := Group(groups, t.from) + [t]];
    forall a ensures Group(groups', a) == BySender(txs + [t], a) {
      BySenderSnoc(txs, t, a);
      assert Group(groups, a) == BySender(txs, a);
    }
  }

  /** What one more transaction does to the grouping loop's state. */
  lemma GroupingStep(txs: seq<Option<Tx>>, i: nat, groups: map<Address, seq<Tx>>, seen: set<Hash32>)
    requires i < |txs| && txs[i].Some? && CleanBatch(txs[..i])
    requires Seen(Present(txs[..i]), seen) && GroupsOf(groups, Present(txs[..i]))
    ensures var t := txs[i].value;
            && (CleanBatch(txs[..i + 1]) <==> t.hash !in seen)
            && Seen(Present(txs[..i + 1]), seen + {t.hash})
            && GroupsOf(groups[t.from := Group(groups, t.from) + [t]], Present(txs[..i + 1]))
  {
    var t, longer := txs[i].value, txs[..i + 1];
    assert longer[..i] == txs[..i];
    assert Present(longer) == Present(txs[..i]) + [t];
    assert forall k :: 0 <= k < i ==> longer[k] == txs[..i][k];
    DistinctSnoc(Present(txs[..i]), t, seen);
    GroupsSnoc(groups, Present(txs[..i]), t);
  }

  ghost predicate CleanBatch(txs: seq<Option<Tx>>) {
    AllPresent(txs) && DistinctHashes(Present(txs))
  }

  lemma {:induction false} PresentPrefix(txs: seq<Option<Tx>>, i: nat)
    requires i <= |txs| && AllPresent(txs)
    ensures Present(txs[..i]) <= Present(txs)
  {
    if i < |txs| {
      PresentPrefix(txs[..|txs| - 1], i);
      assert txs[..|txs| - 1][..i] == txs[..i];
    } else {
      assert txs[..i] == txs;
    }
  }

  lemma CleanPrefix(txs: seq<Option<Tx>>, i: nat)
    requires i <= |txs| && CleanBatch(txs)
    ensures CleanBatch(txs[..i])
  {
    PresentPrefix(txs, i);
  }

  /** Groups by sender; fails on an absent transaction or a repeated hash. */
  method GroupBySender(txs: seq<Option<Tx>>) returns (r: Result<map<Address, seq<Tx>>, BatchError>)
    ensures r.Ok? <==> CleanBatch(txs)
    ensures r.Ok? ==> GroupsOf(r.value, Present(txs))
    ensures r.Err? ==> exists i :: 0 <= i < |txs| && CleanBatch(txs[..i]) && !CleanBatch(txs[..i + 1]) &&
                                   r.error == if txs[i].None? then NilInBatch else Duplicate
  {
    var groups: map<Address, seq<Tx>> := map[];
    var seen: set<Hash32> := {};
    for i := 0 to |txs|
      invariant CleanBatch(txs[..i])
      invariant Seen(Present(txs[..i]), seen)
      invariant GroupsOf(groups, Present(txs[..i]))
    {
      if txs[i].None? {
        assert txs[..i + 1][i].None?;
        return Err(NilInBatch);
      }
      var t := txs[i].value;
      GroupingStep(txs, i, groups, seen);
      if t.hash in seen {
        if CleanBatch(txs) {
          CleanPrefix(txs, i + 1);
        }
        return Err(Duplicate);
      }
      seen := seen + {t.hash};
      groups := groups[t.from := Group(groups, t.from) + [t]];
    }
    assert txs[..|txs|] == txs;
    r := Ok(groups);
  }

  /** Map keys in ascending byte order. */
  method OrderSenders(keys: set<Address>) returns (senders: seq<Address>)
    ensures Sorted(AddressKey, senders)
    ensures forall a :: multiset(senders)[a] == if a in keys then 1 else 0
  {
    var todo, gathered := keys, [];
    while todo != {}
      invariant todo <= keys
      invariant forall a :: multiset(gathered)[a] == if a in keys - todo then 1 else 0
    {
      var a :| a in todo;
      todo, gathered := todo - {a}, gathered + [a];
    }
    senders := SortBy(AddressKey, gathered);
    SortIsCorrect(AddressKey, gathered);
  }

  /** The first transaction that does not pass, and the check it fails. */
  ghost predicate StopsAt(nonce: nat, budget: int, txs: seq<Tx>, i: nat, error: BatchError) {
    && i < |txs| && (forall k :: 0 <= k < i ==> AffordableAt(nonce, budget, txs, k))
    && if txs[i].nonce != nonce + i then error == NonceGap else error == Overspend && CostSum(txs[..i + 1]) > budget
  }

  /** Walks one sender's sorted transactions with a simulated nonce and balance. */
  method CheckSender(nonce: nat, budget: int, txs: seq<Tx>) returns (error: Option<BatchError>)
    ensures error.None? <==> Fundable(nonce, budget, txs)
    ensures error.Some? ==> exists i :: StopsAt(nonce, budget, txs, i, error.value)
  {
    FundableIff(nonce, budget, txs);
    var currentNonce, currentBalance := nonce, budget;
    for i := 0 to |txs|
      invariant currentNonce == nonce + i && currentBalance == budget - CostSum(txs[..i])
      invariant forall k :: 0 <= k < i ==> AffordableAt(nonce, budget, txs, k)
    {
      assert txs[..i + 1][..i] == txs[..i];
      if txs[i].nonce != currentNonce {
        assert !AffordableAt(nonce, budget, txs, i);
        assert StopsAt(nonce, budget, txs, i, NonceGap);
        return Some(NonceGap);
      }
      if currentBalance < Cost(txs[i]) {
        assert !AffordableAt(nonce, budget, txs, i);
        assert StopsAt(nonce, budget, txs, i, Overspend);
        return Some(Overspend);
      }
      currentNonce := currentNonce + 1;
      currentBalance := currentBalance - Cost(txs[i]);
    }
    error := None;
  }

  /** A sender's own transactions by rising nonce. */
  function SortedGroup(txs: seq<Tx>, a: Address): seq<Tx> {
    SortBy(NonceOf, BySender(txs, a))
  }

  /** The sorted groups of the given senders, one after the other. */
  function Plan(senders: seq<Address>, txs: seq<Tx>): seq<Tx> {
    if senders == [] then []
    else Plan(senders[..|senders| - 1], txs) + SortedGroup(txs, senders[|senders| - 1])
  }

  lemma GroupOwner(txs: seq<Tx>, a: Address)
    ensures AllFrom(SortedGroup(txs, a), a)
  {
    var group := SortedGroup(txs, a);
    SortIsCorrect(NonceOf, BySender(txs, a));
    forall i | 0 <= i < |group| ensures group[i].from == a {
      assert group[i] in multiset(group);
      BySenderCount(txs, a, group[i]);
    }
  }

  lemma {:induction false} PlanBySender(senders: seq<Address>, txs: seq<Tx>, a: Address)
    requires multiset(senders)[a] <= 1
    ensures BySender(Plan(senders, txs), a) ==
              if a in multiset(senders) then SortedGroup(txs, a) else []
  {
    if senders != [] {
      var n := |senders| - 1;
      assert senders == senders[..n] + [senders[n]];
      var group := SortedGroup(txs, senders[n]);
      assert multiset(senders) == multiset(senders[..n]) + multiset{senders[n]};
      PlanBySender(senders[..n], txs, a);
      BySenderConcat(Plan(senders[..n], txs), group, a);
      GroupOwner(txs, senders[n]);
      BySenderAll(group, senders[n], a);
    }
  }

  ghost predicate SentBy(txs: seq<Tx>, senders: seq<Address>) {
    forall i :: 0 <= i < |txs| ==> txs[i].from in senders
  }

  lemma {:induction false} PlanSendersOnly(senders: seq<Address>, txs: seq<Tx>)
    ensures SentBy(Plan(senders, txs), senders)
  {
    if senders != [] {
      var n := |senders| - 1;
      var front, group := Plan(senders[..n], txs), SortedGroup(txs, senders[n]);
      PlanSendersOnly(senders[..n], txs);
      GroupOwner(txs, senders[n]);
      var r := front + group;
      forall i | 0 <= i < |r| ensures r[i].from in senders {
        if i < |front| {
          assert front[i].from in senders[..n];
        } else {
          assert group[i - |front|].from == senders[n];
        }
      }
    }
  }

  lemma {:induction false} PlanSorted(senders: seq<Address>, txs: seq<Tx>)
    requires Sorted(AddressKey, senders)
    ensures Sorted(SenderKey, Plan(senders, txs))
  {
    if senders != [] {
      var n := |senders| - 1;
      var front, group := Plan(senders[..n], txs), SortedGroup(txs, senders[n]);
      PlanSorted(senders[..n], txs);
      PlanSendersOnly(senders[..n], txs);
      GroupOwner(txs, senders[n]);
      var r := front + group;
      forall i | 0 <= i < |r| ensures if i < |front| then r[i].from in senders[..n] else r[i].from == senders[n] {
        if i < |front| {
          assert front[i].from in senders[..n];
        } else {
          assert group[i - |front|].from == senders[n];
        }
      }
    }
  }

  /** The plan over every sender is a permutation of the batch. */
  lemma PlanPermutes(senders: seq<Address>, txs: seq<Tx>)
    requires forall a :: multiset(senders)[a] <= 1
    requires forall t :: t in multiset(txs) ==> t.from in multiset(senders)
    ensures multiset(Plan(senders, txs)) == multiset(txs)
  {
    forall t ensures multiset(Plan(senders, txs))[t] == multiset(txs)[t] {
      PlanBySender(senders, txs, t.from);
      BySenderCount(Plan(senders, txs), t.from, t);
      BySenderCount(txs, t.from, t);
      SortIsCorrect(NonceOf, BySender(txs, t.from));
    }
  }

  function SpendableOf(l: Ledger, blocks: map<nat, seq<Tx>>, currentHeight: nat, confirmations: nat): Address -> nat {
    a => Spendable(l, blocks, a, currentHeight, confirmations, 0)
  }

  /** What one sender's group must satisfy. */
  ghost predicate SenderFunded(l: Ledger, spendable: Address -> nat, txs: seq<Tx>, a: Address) {
    Fundable(l.Nonce(a), spendable(a), SortedGroup(txs, a))
  }

  /** The batch as validated against an account store with the given spendable amounts. */
  ghost predicate ValidBatch(l: Ledger, spendable: Address -> nat, txs: seq<Option<Tx>>) {
    CleanBatch(txs) && forall a :: SenderFunded(l, spendable, Present(txs), a)
  }

  /** A permutation of the batch, grouped by ascending sender, each group in nonce order. */
  ghost predicate OrderedBatch(out: seq<Tx>, txs: seq<Tx>) {
    && multiset(out) == multiset(txs)
    && Sorted(SenderKey, out)
    && forall a :: BySender(out, a) == SortedGroup(txs, a)
  }

  method CheckGroup(state: State, blocks: map<nat, seq<Tx>>, currentHeight: nat, confirmations: nat,
                    sender: Address, group: seq<Tx>) returns (senderTxs: seq<Tx>, error: Option<BatchError>)
    ensures senderTxs == SortBy(NonceOf, group)
    ensures error.None? <==>
              Fundable(state.View().Nonce(sender),
                       SpendableOf(state.View(), blocks, currentHeight, confirmations)(sender), senderTxs)
    ensures error.Some? ==> error.value == NonceGap || error.value == Overspend
  {
    senderTxs := SortBy(NonceOf, group);
    var balance := SpendableBalanceAtHeight(state, blocks, sender, currentHeight, confirmations, map[]);
    error := CheckSender(state.GetNonce(sender), balance, senderTxs);
  }

  lemma SenderListed(groups: map<Address, seq<Tx>>, senders: seq<Address>, txs: seq<Tx>, i: nat)
    requires GroupsOf(groups, txs) && i < |senders|
    requires forall a :: multiset(senders)[a] == if a in groups.Keys then 1 else 0
    ensures senders[i] in groups && groups[senders[i]] == BySender(txs, senders[i])
  {
    assert multiset(senders)[senders[i]] > 0;
    assert Group(groups, senders[i]) == BySender(txs, senders[i]);
  }

  method SortAndValidateTransactions(state: State, blocks: map<nat, seq<Tx>>, currentHeight: nat, confirmations: nat,
                                     txs: seq<Option<Tx>>) returns (r: Result<seq<Tx>, BatchError>)
    ensures r.Ok? <==> ValidBatch(state.View(), SpendableOf(state.View(), blocks, currentHeight, confirmations), txs)
    ensures r.Ok? ==> OrderedBatch(r.value, Present(txs))
    ensures r.Err? ==> (CleanBatch(txs) <==> r.error == NonceGap || r.error == Overspend)
  {
    var grouped := GroupBySender(txs);
    if grouped.Err? {
      return Err(grouped.error);
    }
    ghost var l, present := state.View(), Present(txs);
    ghost var spendable := SpendableOf(l, blocks, currentHeight, confirmations);
    var senders := OrderSenders(grouped.value.Keys);
    var validTxs := [];
    for i := 0 to |senders|
      invariant validTxs == Plan(senders[..i], present)
      invariant forall k :: 0 <= k < i ==> SenderFunded(l, spendable, present, senders[k])
    {
      assert senders[..i + 1][..i] == senders[..i];
      SenderListed(grouped.value, senders, present, i);
      var senderTxs, error :=
        CheckGroup(state, blocks, currentHeight, confirmations, senders[i], grouped.value[senders[i]]);
      assert SenderFunded(l, spendable, present, senders[i]) <==> error.None?;
      if error.Some? {
        return Err(error.value);
      }
      validTxs := validTxs + senderTxs;
    }
    assert senders[..|senders|] == senders;
    PlanIsComplete(grouped.value, senders, l, spendable, present);
    r := Ok(validTxs);
  }

  lemma PlanServes(groups: map<Address, seq<Tx>>, senders: seq<Address>, txs: seq<Tx>, a: Address)
    requires GroupsOf(groups, txs)
    requires multiset(senders)[a] == if a in groups.Keys then 1 else 0
    ensures BySender(Plan(senders, txs), a) == SortedGroup(txs, a)
    ensures a !in senders ==> SortedGroup(txs, a) == []
  {
    assert Group(groups, a) == BySender(txs, a);
    PlanBySender(senders, txs, a);
    assert a in senders <==> a in multiset(senders);
  }

  lemma AllSendersPlanned(groups: map<Address, seq<Tx>>, senders: seq<Address>, txs: seq<Tx>)
    requires GroupsOf(groups, txs)
    requires forall a :: multiset(senders)[a] == if a in groups.Keys then 1 else 0
    ensures forall t :: t in multiset(txs) ==> t.from in multiset(senders)
  {
    forall t | t in multiset(txs) ensures t.from in multiset(senders) {
      BySenderCount(txs, t.from, t);
      assert Group(groups, t.from) == BySender(txs, t.from);
    }
  }

  /** What the walk over all senders has established once it ends. */
  lemma PlanIsComplete(groups: map<Address, seq<Tx>>, senders: seq<Address>, l: Ledger, spendable: Address -> nat,
                       txs: seq<Tx>)
    requires GroupsOf(groups, txs) && Sorted(AddressKey, senders)
    requires forall a :: multiset(senders)[a] == if a in groups.Keys then 1 else 0
    requires forall k :: 0 <= k < |senders| ==> SenderFunded(l, spendable, txs, senders[k])
    ensures forall a :: SenderFunded(l, spendable, txs, a)
    ensures OrderedBatch(Plan(senders, txs), txs)
  {
    forall a
      ensures SenderFunded(l, spendable, txs, a)
      ensures BySender(Plan(senders, txs), a) == SortedGroup(txs, a)
    {
      PlanServes(groups, senders, txs, a);
      if a in senders {
        var k :| 0 <= k < |senders| && senders[k] == a;
        assert SenderFunded(l, spendable, txs, senders[k]);
      }
    }
    AllSendersPlanned(groups, senders, txs);
    PlanPermutes(senders, txs);
    PlanSorted(senders, txs);
  }

  /** What is spendable is there, so the senders of a validated batch can pay. */
  lemma ValidatedIsReady(l: Ledger, blocks: map<nat, seq<Tx>>, currentHeight: nat, confirmations: nat,
                         txs: seq<Option<Tx>>, sorted: seq<Tx>)
    requires ValidBatch(l, SpendableOf(l, blocks, currentHeight, confirmations), txs)
    requires OrderedBatch(sorted, Present(txs))
    ensures Ready(l, sorted)
  {
    forall a ensures Fundable(l.Nonce(a), l.Balance(a), BySender(sorted, a)) {
      var spendable := SpendableOf(l, blocks, currentHeight, confirmations);
      assert SenderFunded(l, spendable, Present(txs), a);
      FundableMonotone(l.Nonce(a), spendable(a), l.Balance(a), BySender(sorted, a));
    }
  }

  /**
   * Simulation soundness: a batch of plain transfers of positive cost that passes validation is
   * applied without failure in the order validation returns it.
   */
  lemma ValidatedBatchNeverFails(contractAddress: (Address, nat) -> Address, l: Ledger, blocks: map<nat, seq<Tx>>,
                                 currentHeight: nat, confirmations: nat, txs: seq<Option<Tx>>, sorted: seq<Tx>)
    requires ValidBatch(l, SpendableOf(l, blocks, currentHeight, confirmations), txs)
    requires OrderedBatch(sorted, Present(txs)) && PlainTransfers(sorted)
    ensures ApplyAll(contractAddress, l, sorted).error.None?
  {
    ValidatedIsReady(l, blocks, currentHeight, confirmations, txs, sorted);
    ReadyNeverFails(contractAddress, l, sorted);
  }

  /** A validated batch of transfers fails exactly when it sets back a nonce it still needs. */
  lemma ValidatedBatchFailsIff(contractAddress: (Address, nat) -> Address, l: Ledger, blocks: map<nat, seq<Tx>>,
                               currentHeight: nat, confirmations: nat, txs: seq<Option<Tx>>, sorted: seq<Tx>)
    requires ValidBatch(l, SpendableOf(l, blocks, currentHeight, confirmations), txs)
    requires OrderedBatch(sorted, Present(txs)) && Transfers(sorted)
    ensures ApplyAll(contractAddress, l, sorted).error.Some? <==> SomeNonceLost(l, sorted)
  {
    ValidatedIsReady(l, blocks, currentHeight, confirmations, txs, sorted);
    ReadyFailsIff(contractAddress, l, sorted);
  }

  function SixCoins(a: Address): Ledger {
    Ledger(map[a := 6], map[], map[])
  }

  lemma DrainingBatchValidates(a: Address, t: Tx, u: Tx, currentHeight: nat, confirmations: nat)
    requires t.from == a && u.from == a && t.hash != u.hash && t.nonce == 0 && u.nonce == 1
    requires Cost(t) == 6 && Cost(u) == 0
    ensures var l := SixCoins(a);
            && ValidBatch(l, SpendableOf(l, map[], currentHeight, confirmations), [Some(t), Some(u)])
            && OrderedBatch([t, u], Present([Some(t), Some(u)])) && Present([Some(t), Some(u)]) == [t, u]
  {
    var l := SixCoins(a);
    TwoPresent(t, u);
    TwoSorted(t, u);
    NothingImmature(a, currentHeight, confirmations);
    assert SpendableOf(l, map[], currentHeight, confirmations)(a) == 6;
    assert [t, u][1..] == [u] && [u][1..] == [];
    assert Fundable(1, 0, [u]) && Fundable(0, 6, [t, u]);
    forall b ensures SenderFunded(l, SpendableOf(l, map[], currentHeight, confirmations), [t, u], b)
               && BySender([t, u], b) == SortedGroup([t, u], b) {
      BySenderAll([t, u], a, b);
    }
  }

  /** Paying oneself all one has loses the nonce if more is to come. */
  lemma DrainingLosesNonce(l: Ledger, txs: seq<Tx>, a: Address)
    requires txs != [] && txs[0].from == a && txs[0].to == Some(a)
    requires Cost(txs[0]) == l.Balance(a) && l.Code(a) == [] && BySender(txs[1..], a) != []
    ensures LosesNonce(l, txs, 0)
  {
    FirstLosesNonce(l, txs);
  }

  lemma LosingBatchFails(contractAddress: (Address, nat) -> Address, l: Ledger, txs: seq<Tx>, k: nat)
    requires Ready(l, txs) && Transfers(txs) && k < |txs| && LosesNonce(l, txs, k)
    ensures ApplyAll(contractAddress, l, txs).error.Some?
  {
    ReadyFailsIff(contractAddress, l, txs);
  }

  /** A payment to oneself of value 5 with one gas at price one. */
  function SpendsAll(a: Address, hash: Hash32): (t: Tx)
    ensures t.from == a && t.to == Some(a) && t.nonce == 0 && t.hash == hash && Cost(t) == 6
  {
    Tx(hash, a, Some(a), 5, 1, 1, 0, [])
  }

  /** Gas of 2^64 - 1 counts as minus one, so with the price equal to the value nothing is to pay. */
  function CostsNothing(a: Address, hash: Hash32): (t: Tx)
    ensures t.from == a && t.to == Some(a) && t.nonce == 1 && t.hash == hash && Cost(t) == 0
    ensures t.value > 0 && t.gasPrice > 0 && 0 < t.gas < TWO_64
  {
    Tx(hash, a, Some(a), 3, TWO_64 - 1, 3, 1, [])
  }

  /**
   * A validated batch that fails. An account spends all it has on a payment to itself, which resets its nonce,
   * and then sends once more at no cost.
   */
  lemma ZeroCostBatchFails(contractAddress: (Address, nat) -> Address, a: Address, h: Hash32, h': Hash32,
                           currentHeight: nat, confirmations: nat)
    requires h != h'
    ensures var l, t, u := SixCoins(a), SpendsAll(a, h), CostsNothing(a, h');
            && ValidBatch(l, SpendableOf(l, map[], currentHeight, confirmations), [Some(t), Some(u)])
            && OrderedBatch([t, u], Present([Some(t), Some(u)])) && LosesNonce(l, [t, u], 0)
            && ApplyAll(contractAddress, l, [t, u]).error.Some?
  {
    DrainingBatchValidates(a, SpendsAll(a, h), CostsNothing(a, h'), currentHeight, confirmations);
    DrainingBatchIsReady(a, SpendsAll(a, h), CostsNothing(a, h'));
    DrainingBatchFails(contractAddress, a, SpendsAll(a, h), CostsNothing(a, h'));
  }

  lemma DrainingBatchIsReady(a: Address, t: Tx, u: Tx)
    requires t.from == a && u.from == a && t.hash != u.hash && t.nonce == 0 && u.nonce == 1
    requires Cost(t) == 6 && Cost(u) == 0
    ensures Ready(SixCoins(a), [t, u])
  {
    DrainingBatchValidates(a, t, u, 0, 0);
    ValidatedIsReady(SixCoins(a), map[], 0, 0, [Some(t), Some(u)], [t, u]);
  }

  lemma DrainingBatchFails(contractAddress: (Address, nat) -> Address, a: Address, t: Tx, u: Tx)
    requires Ready(SixCoins(a), [t, u]) && u.from == a && u.to.Some?
    requires t.from == a && t.to == Some(a) && Cost(t) == 6
    ensures LosesNonce(SixCoins(a), [t, u], 0) && ApplyAll(contractAddress, SixCoins(a), [t, u]).error.Some?
  {
    SecondToCome(t, u);
    DrainingLosesNonce(SixCoins(a), [t, u], a);
    LosingBatchFails(contractAddress, SixCoins(a), [t, u], 0);
  }

  lemma SecondToCome(t: Tx, u: Tx)
    ensures BySender([t, u][1..], u.from) == [u]
  {
    assert [t, u][1..] == [u];
    BySenderAll([u], u.from, u.from);
  }

  lemma TwoPresent(t: Tx, u: Tx)
    requires t.hash != u.hash
    ensures Present([Some(t), Some(u)]) == [t, u] && CleanBatch([Some(t), Some(u)])
  {
    var batch := [Some(t), Some(u)];
    assert batch[..1] == [Some(t)] && [Some(t)][..0] == [];
    assert Present([Some(t)]) == [t];
  }

  lemma TwoSorted(t: Tx, u: Tx)
    requires t.nonce <= u.nonce
    ensures SortBy(NonceOf, [t, u]) == [t, u]
  {
    assert [t, u][1..] == [u] && [u][1..] == [];
    assert SortBy(NonceOf, [u]) == [u];
  }

  /** Validation followed by application, on one account store. */
  method ValidateAndApply(contractAddress: (Address, nat) -> Address, state: State, blocks: map<nat, seq<Tx>>,
                          currentHeight: nat, confirmations: nat, txs: seq<Option<Tx>>)
    returns (r: Result<seq<Tx>, BatchError>, error: Option<TxError>)
    modifies state
    ensures r.Err? ==> state.View() == old(state.View())
    ensures r.Ok? ==> OrderedBatch(r.value, Present(txs))
    ensures r.Ok? ==> Outcome(error, state.View()) == ApplyAll(contractAddress, old(state.View()), r.value)
    ensures r.Ok? && Transfers(r.value) ==> (error.Some? <==> SomeNonceLost(old(state.View()), r.value))
    ensures r.Ok? && PlainTransfers(r.value) ==> error.None?
  {
    r := SortAndValidateTransactions(state, blocks, currentHeight, confirmations, txs);
    error := None;
    if r.Ok? {
      ghost var l := state.View();
      if Transfers(r.value) {
        ValidatedBatchFailsIff(contractAddress, l, blocks, currentHeight, confirmations, txs, r.value);
      }
      if PlainTransfers(r.value) {
        ValidatedBatchNeverFails(contractAddress, l, blocks, currentHeight, confirmations, txs, r.value);
      }
      error := ApplyBlockTransactions(contractAddress, state, r.value);
    }
  }
}
