/** The account store: balances, nonces and code by address. */
module Accounts {
  import opened Bytes
  import opened Wrappers

  /** The address of all zero bytes, which stands for no account. */
  const NO_ADDRESS: Address := [0, 0, 0, 0, 0, 0, 0, 0, 0, 0, 0, 0, 0, 0, 0, 0, 0, 0, 0, 0]

  /** The contents of the store; an absent entry reads as zero or empty. */
  datatype Ledger = Ledger(balances: map<Address, nat>, nonces: map<Address, nat>, codes: map<Address, seq<byte>>) {
    function Balance(a: Address): nat {
      if a in balances then balances[a] else 0
    }

    function Nonce(a: Address): nat {
      if a in nonces then nonces[a] else 0
    }

    function Code(a: Address): seq<byte> {
      if a in codes then codes[a] else []
    }

    /** No balance and no code: applyTransferOrCall treats such an account as new. */
    predicate Blank(a: Address) {
      Balance(a) == 0 && Code(a) == []
    }

    function WithBalance(a: Address, amount: nat): Ledger {
      this.(balances := balances[a := amount])
    }

    function WithNonce(a: Address, nonce: nat): Ledger {
      this.(nonces := nonces[a := nonce])
    }

    function WithCode(a: Address, code: seq<byte>): Ledger {
      this.(codes := codes[a := code])
    }

    function Credited(a: Address, amount: nat): Ledger {
      WithBalance(a, Balance(a) + amount)
    }

    /** Sum of all balances. */
    ghost function Supply(): nat {
      SumOf(balances)
    }
  }

  class State {
    var balances: map<Address, nat>
    var nonces: map<Address, nat>
    var codes: map<Address, seq<byte>>

    function View(): Ledger
      reads this
    {
      Ledger(balances, nonces, codes)
    }

    constructor (genesis: Ledger)
      ensures View() == genesis
    {
      balances, nonces, codes := genesis.balances, genesis.nonces, genesis.codes;
    }

    function GetBalance(a: Address): nat
      reads this
    {
      View().Balance(a)
    }

    function GetNonce(a: Address): nat
      reads this
    {
      View().Nonce(a)
    }

    function GetCode(a: Address): seq<byte>
      reads this
    {
      View().Code(a)
    }

    /** A negative balance is refused and nothing is written. */
    method SetBalance(a: Address, balance: int) returns (ok: bool)
      modifies this
      ensures ok <==> balance >= 0
      ensures View() == if ok then old(View()).WithBalance(a, balance) else old(View())
    {
      ok := balance >= 0;
      if ok {
        balances := balances[a := balance];
      }
    }

    method AddBalance(a: Address, amount: int) returns (ok: bool)
      modifies this
      ensures ok <==> old(GetBalance(a)) + amount >= 0
      ensures View() == if ok then old(View()).WithBalance(a, old(GetBalance(a)) + amount) else old(View())
    {
      ok := SetBalance(a, GetBalance(a) + amount);
    }

    method SetNonce(a: Address, nonce: nat)
      modifies this
      ensures View() == old(View()).WithNonce(a, nonce)
    {
      nonces := nonces[a := nonce];
    }

    method SetCode(a: Address, code: seq<byte>)
      modifies this
      ensures View() == old(View()).WithCode(a, code)
    {
      codes := codes[a := code];
    }
  }

  // ---------- sums over maps ----------

  ghost function SumOf(m: map<Address, nat>): nat {
    if m == map[] then 0
    else
      var k :| k in m;
      m[k] + SumOf(m - {k})
  }

  lemma {:induction false} SumWithout(m: map<Address, nat>, a: Address)
    requires a in m
    ensures SumOf(m) == m[a] + SumOf(m - {a})
    decreases |m|
  {
    var k :| k in m && SumOf(m) == m[k] + SumOf(m - {k});
    if k != a {
      assert |m - {k}| < |m| && |m - {a}| < |m| by {
        assert (m - {k}).Keys == m.Keys - {k} && (m - {a}).Keys == m.Keys - {a};
      }
      SumWithout(m - {k}, a);
      SumWithout(m - {a}, k);
      assert m - {k} - {a} == m - {a} - {k};
    }
  }

  lemma SumUpdated(m: map<Address, nat>, a: Address, v: nat)
    ensures SumOf(m[a := v]) == SumOf(m) + v - (if a in m then m[a] else 0)
  {
    SumWithout(m[a := v], a);
    if a in m {
      SumWithout(m, a);
      assert m[a := v] - {a} == m - {a};
    } else {
      assert m[a := v] - {a} == m;
    }
  }

  lemma SupplyAfter(l: Ledger, a: Address, amount: nat)
    ensures l.WithBalance(a, amount).Supply() == l.Supply() + amount - l.Balance(a)
  {
    SumUpdated(l.balances, a, amount);
  }
}
