/** The transaction pool: five indexes kept over one set of pending transactions. */
module TxPool {
  import opened Bytes
  import opened Execution
  import opened PriceHeap
  import opened Wrappers

  // ---------- what the indexes mean ----------

  ghost predicate NonceSorted(list: seq<Tx>) {
    forall i, j :: 0 <= i < j < |list| ==> list[i].nonce < list[j].nonce
  }

  /** Transaction `h` is kept under its own hash and stands in its sender's list. */
  ghost predicate FiledUnder(txs: map<Hash32, Tx>, bySender: map<Address, seq<Tx>>, h: Hash32) {
    h in txs ==> txs[h].hash == h && txs[h].from in bySender && txs[h] in bySender[txs[h].from]
  }

  /** A sender's list is nonempty, rises in nonce, and holds transactions of that sender in the pool. */
  ghost predicate ListOk(txs: map<Hash32, Tx>, a: Address, list: seq<Tx>) {
    && list != [] && NonceSorted(list)
    && forall t :: t in list ==> t.from == a && t.hash in txs && txs[t.hash] == t
  }

  ghost predicate SenderOk(txs: map<Hash32, Tx>, bySender: map<Address, seq<Tx>>, a: Address) {
    a in bySender ==> ListOk(txs, a, bySender[a])
  }

  /** `bySender` files every transaction of the pool once, under its sender, by strictly rising nonce. */
  ghost predicate Filed(txs: map<Hash32, Tx>, bySender: map<Address, seq<Tx>>) {
    && (forall h {:trigger FiledUnder(txs, bySender, h)} :: FiledUnder(txs, bySender, h))
    && (forall a {:trigger SenderOk(txs, bySender, a)} :: SenderOk(txs, bySender, a))
  }

  function Pending(bySender: map<Address, seq<Tx>>, a: Address): seq<Tx> {
    if a in bySender then bySender[a] else []
  }

  function Tracked(tracker: map<Address, nat>, a: Address): nat {
    if a in tracker then tracker[a] else 0
  }

  predicate Covers(tracker: map<Address, nat>, t: Tx) {
    t.nonce <= Tracked(tracker, t.from)
  }

  ghost predicate Attained(tracker: map<Address, nat>, txs: map<Hash32, Tx>, a: Address) {
    a in tracker ==> exists h :: h in txs && txs[h].from == a && txs[h].nonce == tracker[a]
  }

  /** The tracker holds the highest nonce of each sender; none counts as zero. */
  ghost predicate TrackerOk(tracker: map<Address, nat>, txs: map<Hash32, Tx>) {
    && (forall h {:trigger Covers(tracker, txs[h])} :: h in txs ==> Covers(tracker, txs[h]))
    && (forall a {:trigger Attained(tracker, txs, a)} :: Attained(tracker, txs, a))
  }

  /** The queue is a heap-ordered arrangement of exactly the pool's transactions. */
  ghost predicate Queued(heap: seq<Tx>, txs: map<Hash32, Tx>) {
    HeapOrdered(heap) && multiset(heap) == multiset(txs.Values)
  }

  /** Lists with the same entries in rising nonce order are one list. */
  lemma {:induction false} SortedListUnique(s: seq<Tx>, t: seq<Tx>)
    requires NonceSorted(s) && NonceSorted(t) && forall x :: x in s <==> x in t
    ensures s == t
  {
    if s == [] {
      assert forall i :: 0 <= i < |t| ==> t[i] in s;
    } else {
      var a := s[|s| - 1];
      assert a in t;
      var b := t[|t| - 1];
      assert b in s;
      var s', t' := s[..|s| - 1], t[..|t| - 1];
      forall x
        ensures x in s' <==> x in t'
      {
        assert x in s' <==> x in s && x != a;
        assert x in t' <==> x in t && x != b;
      }
      SortedListUnique(s', t');
      assert s == s' + [a] && t == t' + [b];
    }
  }

  lemma SameEntries(txs: map<Hash32, Tx>, x: map<Address, seq<Tx>>, y: map<Address, seq<Tx>>, a: Address)
    requires Filed(txs, x) && Filed(txs, y) && a in x
    ensures a in y && forall t :: t in x[a] ==> t in y[a]
  {
    assert SenderOk(txs, x, a);
    assert x[a][0] in x[a];
    forall t | t in x[a]
      ensures a in y && t in y[a]
    {
      assert FiledUnder(txs, y, t.hash);
    }
  }

  /** The set of transactions determines the per-sender lists, whatever order entries came and went in. */
  lemma FilingUnique(txs: map<Hash32, Tx>, x: map<Address, seq<Tx>>, y: map<Address, seq<Tx>>)
    requires Filed(txs, x) && Filed(txs, y)
    ensures x == y
  {
    forall a | a in y
      ensures a in x
    {
      SameEntries(txs, y, x, a);
    }
    forall a | a in x
      ensures a in y && x[a] == y[a]
    {
      SameEntries(txs, x, y, a);
      SameEntries(txs, y, x, a);
      assert SenderOk(txs, x, a) && SenderOk(txs, y, a);
      SortedListUnique(x[a], y[a]);
    }
  }

  /** The tracker gives the nonce of the sender's last list entry. */
  lemma TrackedIsLast(txs: map<Hash32, Tx>, bySender: map<Address, seq<Tx>>, tracker: map<Address, nat>, a: Address)
    requires Filed(txs, bySender) && TrackerOk(tracker, txs)
    ensures var list := Pending(bySender, a);
            Tracked(tracker, a) == if list == [] then 0 else list[|list| - 1].nonce
  {
    assert SenderOk(txs, bySender, a) && Attained(tracker, txs, a);
    var list := Pending(bySender, a);
    if list != [] {
      var last := list[|list| - 1];
      assert last in list;
      assert Covers(tracker, txs[last.hash]);
    }
    if a in tracker {
      var h :| h in txs && txs[h].from == a && txs[h].nonce == tracker[a];
      assert FiledUnder(txs, bySender, h);
      assert txs[h] in list;
    }
  }

  // ---------- one entry more or less ----------

  lemma ValuesAdd(txs: map<Hash32, Tx>, t: Tx)
    requires t.hash !in txs && forall h :: h in txs ==> txs[h].hash == h
    ensures multiset(txs[t.hash := t].Values) == multiset(txs.Values) + multiset{t}
  {
    var more := txs[t.hash := t];
    forall v
      ensures v in more.Values <==> v in txs.Values || v == t
    {
      if v in more.Values {
        var h :| h in more && more[h] == v;
        assert h != t.hash ==> txs[h] == v;
      }
      if v in txs.Values {
        var h :| h in txs && txs[h] == v;
        assert more[h] == v;
      }
      assert more[t.hash] == t;
    }
    assert more.Values == txs.Values + {t};
    assert t !in txs.Values;
  }

  lemma HashesMatch(txs: map<Hash32, Tx>, bySender: map<Address, seq<Tx>>)
    requires Filed(txs, bySender)
    ensures forall h :: h in txs ==> txs[h].hash == h
  {
    forall h | h in txs
      ensures txs[h].hash == h
    {
      assert FiledUnder(txs, bySender, h);
    }
  }

  lemma FiledAdd(txs: map<Hash32, Tx>, bySender: map<Address, seq<Tx>>, t: Tx)
    requires Filed(txs, bySender) && t.hash !in txs
    requires var list := Pending(bySender, t.from); list != [] ==> list[|list| - 1].nonce < t.nonce
    ensures Filed(txs[t.hash := t], bySender[t.from := Pending(bySender, t.from) + [t]])
  {
    var list := Pending(bySender, t.from);
    var txs', bySender' := txs[t.hash := t], bySender[t.from := list + [t]];
    forall h
      ensures FiledUnder(txs', bySender', h)
    {
      assert FiledUnder(txs, bySender, h);
    }
    forall a
      ensures SenderOk(txs', bySender', a)
    {
      assert SenderOk(txs, bySender, a);
      if a == t.from {
        assert NonceSorted(list + [t]);
        assert forall x :: x in list + [t] <==> x in list || x == t;
      }
    }
  }

  function TrackedAfter(tracker: map<Address, nat>, t: Tx): map<Address, nat> {
    if t.nonce > Tracked(tracker, t.from) then tracker[t.from := t.nonce] else tracker
  }

  lemma TrackerAdd(tracker: map<Address, nat>, txs: map<Hash32, Tx>, h: Hash32, t: Tx)
    requires TrackerOk(tracker, txs) && h !in txs
    ensures TrackerOk(TrackedAfter(tracker, t), txs[h := t])
  {
    var tracker', txs' := TrackedAfter(tracker, t), txs[h := t];
    forall k | k in txs'
      ensures Covers(tracker', txs'[k])
    {
      if k != h {
        assert Covers(tracker, txs[k]);
      }
    }
    forall a
      ensures Attained(tracker', txs', a)
    {
      assert Attained(tracker, txs, a);
      if a in tracker' {
        if a == t.from && t.nonce > Tracked(tracker, t.from) {
          assert txs'[h].nonce == tracker'[a];
        } else {
          var k :| k in txs && txs[k].from == a && txs[k].nonce == tracker[a];
          assert txs'[k] == txs[k];
        }
      }
    }
  }

  function Without(list: seq<Tx>, i: nat): seq<Tx>
    requires i < |list|
  {
    list[..i] + list[i + 1..]
  }

  lemma WithoutKeepsOthers(list: seq<Tx>, i: nat)
    requires i < |list| && NonceSorted(list)
    ensures NonceSorted(Without(list, i))
    ensures forall t :: t in Without(list, i) <==> t in list && t != list[i]
  {
    var r := Without(list, i);
    assert forall k :: 0 <= k < |r| ==> r[k] == list[if k < i then k else k + 1];
    forall t | t in list && t != list[i]
      ensures t in r
    {
      var k :| 0 <= k < |list| && list[k] == t;
      assert r[if k < i then k else k - 1] == t;
    }
  }

  function Unfiled(bySender: map<Address, seq<Tx>>, a: Address, rest: seq<Tx>): map<Address, seq<Tx>> {
    if rest == [] then bySender - {a} else bySender[a := rest]
  }

  lemma FiledRemove(txs: map<Hash32, Tx>, bySender: map<Address, seq<Tx>>, hash: Hash32, a: Address, i: nat)
    requires Filed(txs, bySender) && hash in txs && a == txs[hash].from && a in bySender
    requires i < |bySender[a]| && bySender[a][i].hash == hash
    ensures Filed(txs - {hash}, Unfiled(bySender, a, Without(bySender[a], i)))
  {
    var list := bySender[a];
    var rest := Without(list, i);
    var txs', bySender' := txs - {hash}, Unfiled(bySender, a, rest);
    assert SenderOk(txs, bySender, a);
    assert list[i] in list;
    assert list[i] == txs[hash];
    WithoutKeepsOthers(list, i);
    forall h
      ensures FiledUnder(txs', bySender', h)
    {
      assert FiledUnder(txs, bySender, h);
      if h in txs' && txs[h].from == a {
        assert txs[h] in rest;
      }
    }
    forall b
      ensures SenderOk(txs', bySender', b)
    {
      assert SenderOk(txs, bySender, b);
      if b in bySender' {
        forall t: Tx | t in bySender'[b]
          ensures t.from == b && t.hash in txs' && txs'[t.hash] == t
        {
          assert t in bySender[b];
        }
      }
    }
  }

  // ---------- nonces ----------

  /** The nonce the pool wants next: after the last pending one, unless the state has moved past it. */
  function ExpectedNonce(list: seq<Tx>, stateNonce: nat): nat {
    if list != [] && list[|list| - 1].nonce >= stateNonce then list[|list| - 1].nonce + 1 else stateNonce
  }

  function NextNonce(tracked: nat, stateNonce: nat): nat {
    if tracked >= stateNonce then tracked + 1 else stateNonce
  }

  /** The announced nonce is the expected one unless nothing is pending and the account is untouched. */
  lemma NextNonceIsExpectedIff(txs: map<Hash32, Tx>, bySender: map<Address, seq<Tx>>, tracker: map<Address, nat>,
                               a: Address, stateNonce: nat)
    requires Filed(txs, bySender) && TrackerOk(tracker, txs)
    ensures NextNonce(Tracked(tracker, a), stateNonce) == ExpectedNonce(Pending(bySender, a), stateNonce) <==>
              Pending(bySender, a) != [] || stateNonce != 0
  {
    TrackedIsLast(txs, bySender, tracker, a);
  }

  // ---------- age ----------

  /** cleanupStale: older than the limit, or past the time to live. */
  predicate Stale(cur: nat, height: nat, maxAge: nat, now: int, time: int, ttl: int) {
    (cur > height && cur - height > maxAge) || now - time > ttl
  }

  /** The age cleanupInvalid computes in uint64 arithmetic. */
  function WrappedAge(cur: nat, height: nat): nat {
    (cur - height) % TWO_64
  }

  /** cleanupInvalid: already used nonce, too old, or past the time to live. */
  predicate Invalid(t: Tx, stateNonce: nat, cur: nat, height: nat, staleAge: nat, now: int, time: int, ttl: int) {
    t.nonce < stateNonce || (height > 0 && WrappedAge(cur, height) > staleAge) || now - time > ttl
  }

  /**
   * On age alone the two cleanups agree except that cleanupInvalid keeps everything submitted at height zero
   * and, the subtraction wrapping around, drops what was submitted above the present tip.
   */
  lemma AgeRulesAgreeIff(t: Tx, cur: nat, height: nat, maxAge: nat, time: int, ttl: nat)
    requires cur < TWO_64 && height < TWO_64 && maxAge < TWO_64
    ensures (Stale(cur, height, maxAge, time, time, ttl) <==> Invalid(t, 0, cur, height, maxAge, time, time, ttl))
            <==> (if height == 0 then cur <= maxAge else cur >= height || height - cur >= TWO_64 - maxAge)
  {
    if cur >= height {
      assert WrappedAge(cur, height) == cur - height;
    } else {
      assert WrappedAge(cur, height) == cur - height + TWO_64;
    }
  }

  // ---------- the pool ----------

  /** The three maps by hash: transactions, heights and times of submission. */
  datatype Entries = Entries(txs: map<Hash32, Tx>, heights: map<Hash32, nat>, times: map<Hash32, int>) {
    predicate SameKeys() {
      heights.Keys == txs.Keys && times.Keys == txs.Keys
    }

    function Minus(gone: set<Hash32>): Entries {
      Entries(txs - gone, heights - gone, times - gone)
    }

    function Plus(t: Tx, height: nat, now: int): Entries {
      Entries(txs[t.hash := t], heights[t.hash := height], times[t.hash := now])
    }

    predicate IsStale(h: Hash32, maxAge: nat, cur: nat, now: int, ttl: int)
      requires SameKeys()
    {
      h in txs && Stale(cur, heights[h], maxAge, now, times[h], ttl)
    }

    function StaleKeys(maxAge: nat, cur: nat, now: int, ttl: int): set<Hash32>
      requires SameKeys()
    {
      set h | h in txs && IsStale(h, maxAge, cur, now, ttl)
    }

    predicate IsInvalid(h: Hash32, stateNonceOf: Address -> nat, cur: nat, now: int, limits: Limits)
      requires SameKeys()
    {
      h in txs &&
      Invalid(txs[h], stateNonceOf(txs[h].from), cur, heights[h], limits.staleAge, now, times[h], limits.ttl)
    }

    function InvalidKeys(stateNonceOf: Address -> nat, cur: nat, now: int, limits: Limits): set<Hash32>
      requires SameKeys()
    {
      set h | h in txs && IsInvalid(h, stateNonceOf, cur, now, limits)
    }
  }

  lemma MinusMeans(e: Entries, gone: set<Hash32>, h: Hash32)
    requires e.SameKeys()
    ensures var left := e.Minus(gone);
            && (h in left.txs <==> h in e.txs && h !in gone) && left.SameKeys()
            && (h in left.txs ==> left.txs[h] == e.txs[h])
            && (h in left.txs ==> h in e.heights && h in left.heights && left.heights[h] == e.heights[h])
            && (h in left.txs ==> h in e.times && h in left.times && left.times[h] == e.times[h])
  {
    var left := e.Minus(gone);
    assert left.txs.Keys == e.txs.Keys - gone;
    assert left.heights.Keys == e.heights.Keys - gone && left.times.Keys == e.times.Keys - gone;
    assert h in e.txs ==> h in e.heights.Keys && h in e.times.Keys;
  }

  /** What the cleanup by age keeps, and what the cleanup of unminable entries keeps. */
  lemma CleanupsKeep(e: Entries, stateNonceOf: Address -> nat, cur: nat, now: int, maxAge: nat, limits: Limits,
                     h: Hash32)
    requires e.SameKeys() && h in e.txs
    ensures h in e.heights && h in e.times
    ensures var t, height, late := e.txs[h], e.heights[h], now > e.times[h] + limits.ttl;
            && (h in e.Minus(e.StaleKeys(maxAge, cur, now, limits.ttl)).txs <==> cur <= height + maxAge && !late)
            && (h in e.Minus(e.InvalidKeys(stateNonceOf, cur, now, limits)).txs <==>
                  t.nonce >= stateNonceOf(t.from) && !late &&
                  (height == 0 || (cur - height) % TWO_64 <= limits.staleAge))
  {
    assert h in e.heights.Keys && h in e.times.Keys;
    assert h in e.StaleKeys(maxAge, cur, now, limits.ttl) <==> e.IsStale(h, maxAge, cur, now, limits.ttl);
    assert h in e.InvalidKeys(stateNonceOf, cur, now, limits) <==> e.IsInvalid(h, stateNonceOf, cur, now, limits);
    MinusMeans(e, e.StaleKeys(maxAge, cur, now, limits.ttl), h);
    MinusMeans(e, e.InvalidKeys(stateNonceOf, cur, now, limits), h);
  }

  lemma MinusMore(e: Entries, gone: set<Hash32>, h: Hash32, more: set<Hash32>)
    requires more == gone + {h}
    ensures e.Minus(gone).Minus({h}) == e.Minus(more)
  {
    assert e.txs - more == e.txs - gone - {h};
    assert e.heights - more == e.heights - gone - {h};
    assert e.times - more == e.times - gone - {h};
  }

  lemma MinusNone(e: Entries)
    ensures e.Minus({}) == e
  {
    assert e.txs - {} == e.txs && e.heights - {} == e.heights && e.times - {} == e.times;
  }

  lemma MinusAbsent(e: Entries, h: Hash32)
    requires e.SameKeys() && h !in e.txs
    ensures e.Minus({h}) == e
  {
    assert h !in e.heights.Keys && h !in e.times.Keys;
    assert e.txs - {h} == e.txs && e.heights - {h} == e.heights && e.times - {h} == e.times;
  }

  lemma MinusOne(e: Entries, h: Hash32)
    requires e.SameKeys() && h in e.txs
    ensures |e.Minus({h}).txs| == |e.txs| - 1 && e.Minus({h}).SameKeys()
  {
    var e' := e.Minus({h});
    assert e'.txs.Keys == e.txs.Keys - {h};
    assert e'.heights.Keys == e.heights.Keys - {h} && e'.times.Keys == e.times.Keys - {h};
  }

  lemma MinusKeeps(e: Entries, gone: set<Hash32>, h: Hash32)
    requires e.SameKeys() && h in e.txs && h !in gone
    ensures var e' := e.Minus(gone);
            h in e'.txs && h in e'.heights && h in e'.times && e'.txs[h] == e.txs[h] &&
            e'.heights[h] == e.heights[h] && e'.times[h] == e.times[h]
  {
    assert h in e.heights.Keys && h in e.times.Keys;
  }

  /** The entries once a walk that drops `doomed` has only `left` to visit. */
  ghost function Walked(e: Entries, doomed: set<Hash32>, left: set<Hash32>): Entries {
    e.Minus(doomed - left)
  }

  lemma WalkStarts(e: Entries, doomed: set<Hash32>)
    requires doomed <= e.txs.Keys
    ensures Walked(e, doomed, e.txs.Keys) == e && Walked(e, doomed, {}) == e.Minus(doomed)
  {
    assert doomed - e.txs.Keys == {} && doomed - {} == doomed;
    MinusNone(e);
  }

  lemma RemovalStarts(e: Entries, doomed: set<Hash32>)
    ensures Walked(e, doomed, doomed) == e && Walked(e, doomed, {}) == e.Minus(doomed)
  {
    assert doomed - doomed == {} && doomed - {} == doomed;
    MinusNone(e);
  }

  lemma RemovalStep(e: Entries, doomed: set<Hash32>, left: set<Hash32>, h: Hash32)
    requires h in left && left <= doomed
    ensures Walked(e, doomed, left).Minus({h}) == Walked(e, doomed, left - {h})
  {
    assert doomed - (left - {h}) == doomed - left + {h};
    MinusMore(e, doomed - left, h, doomed - (left - {h}));
  }

  /** Visiting `h` finds its entry as it was, and takes it out or leaves it. */
  lemma WalkStep(e: Entries, doomed: set<Hash32>, left: set<Hash32>, h: Hash32)
    requires e.SameKeys() && left <= e.txs.Keys && h in left
    ensures var now := Walked(e, doomed, left);
            && h in now.txs && h in now.heights && h in now.times
            && now.heights[h] == e.heights[h] && now.times[h] == e.times[h]
            && Walked(e, doomed, left - {h}) == if h in doomed then now.Minus({h}) else now
    ensures left - {h} <= e.txs.Keys && |left - {h}| < |left|
  {
    MinusKeeps(e, doomed - left, h);
    assert left == left - {h} + {h};
    if h in doomed {
      MinusMore(e, doomed - left, h, doomed - (left - {h}));
    } else {
      assert doomed - (left - {h}) == doomed - left;
    }
  }

  lemma KeysAdd(e: Entries, t: Tx, height: nat, now: int)
    requires e.SameKeys() && t.hash !in e.txs
    ensures e.Plus(t, height, now).SameKeys() && |e.Plus(t, height, now).txs| == |e.txs| + 1
  {
    assert e.txs[t.hash := t].Keys == e.txs.Keys + {t.hash};
    assert e.heights[t.hash := height].Keys == e.heights.Keys + {t.hash};
    assert e.times[t.hash := now].Keys == e.times.Keys + {t.hash};
  }

  predicate Short(bySender: map<Address, seq<Tx>>, a: Address, limit: nat) {
    |Pending(bySender, a)| <= limit
  }

  ghost predicate AllShort(bySender: map<Address, seq<Tx>>, limit: nat) {
    forall a {:trigger Short(bySender, a, limit)} :: Short(bySender, a, limit)
  }

  lemma ShortAdd(bySender: map<Address, seq<Tx>>, t: Tx, limit: nat)
    requires AllShort(bySender, limit) && |Pending(bySender, t.from)| < limit
    ensures AllShort(bySender[t.from := Pending(bySender, t.from) + [t]], limit)
  {
    var longer := bySender[t.from := Pending(bySender, t.from) + [t]];
    forall a
      ensures Short(longer, a, limit)
    {
      assert Short(bySender, a, limit);
    }
  }

  lemma ShortRemove(bySender: map<Address, seq<Tx>>, from: Address, i: nat, limit: nat)
    requires AllShort(bySender, limit) && from in bySender && i < |bySender[from]|
    ensures AllShort(Unfiled(bySender, from, Without(bySender[from], i)), limit)
  {
    forall a
      ensures Short(Unfiled(bySender, from, Without(bySender[from], i)), a, limit)
    {
      assert Short(bySender, a, limit) && Short(bySender, from, limit);
    }
  }

  /** What addTx reads from the chain. */
  datatype ChainView = ChainView(stateNonce: nat, spendable: int, latestHeight: nat)

  datatype AddError =
    | NilTx
    | InvalidTx
    | InvalidSignature
    | ChainUnavailable
    | TooLarge
    | GasPriceTooLow
    | InsufficientBalance
    | NonceTooHigh
    | KnownTx
    | PoolFull
    | SenderLimit
    | WrongNonce(want: nat)

  datatype Limits = Limits(poolSize: nat, perSender: nat, txSize: nat, minGasPrice: nat, futureGap: nat,
                           staleAge: nat, ttl: int)

  function Hashes(list: seq<Tx>): set<Hash32> {
    set t | t in list :: t.hash
  }

  lemma HashesMore(list: seq<Tx>, k: nat)
    requires k < |list|
    ensures Hashes(list[..k + 1]) == Hashes(list[..k]) + {list[k].hash}
  {
    assert list[..k + 1] == list[..k] + [list[k]];
  }

  /** A queue that still holds a removed transaction is not the pool's queue. */
  lemma QueueStale(heap: seq<Tx>, txs: map<Hash32, Tx>, hash: Hash32)
    requires Queued(heap, txs) && hash in txs && forall h :: h in txs ==> txs[h].hash == h
    ensures !Queued(heap, txs - {hash})
  {
    assert txs[hash] in multiset(txs.Values);
    var fewer := txs - {hash};
    assert forall h :: h in fewer ==> fewer[h] == txs[h] && fewer[h].hash != hash;
    assert txs[hash] !in fewer.Values;
  }

  class Pool {
    const limits: Limits
    var txs: map<Hash32, Tx>
    var bySender: map<Address, seq<Tx>>
    var submitHeight: map<Hash32, nat>
    var submitTime: map<Hash32, int>
    var nonceTracker: map<Address, nat>
    var pendingHeap: seq<Tx>

    ghost function All(): Entries
      reads this
    {
      Entries(txs, submitHeight, submitTime)
    }

    /** What every change keeps, even before the queue and the tracker are rebuilt. */
    ghost predicate CoreValid()
      reads this
    {
      && Filed(txs, bySender)
      && All().SameKeys()
      && |txs| <= limits.poolSize
      && AllShort(bySender, limits.perSender)
    }

    ghost predicate Coherent()
      reads this
    {
      CoreValid() && Queued(pendingHeap, txs) && TrackerOk(nonceTracker, txs)
    }

    constructor (limits: Limits)
      ensures Coherent() && txs == map[] && this.limits == limits
    {
      this.limits := limits;
      txs, bySender, submitHeight, submitTime, nonceTracker := map[], map[], map[], map[], map[];
      pendingHeap := [];
    }

    /** Why the pool itself has no place for a transaction, if it has none. */
    ghost function Admission(t: Tx, stateNonce: nat): Option<AddError>
      reads this
    {
      var list := Pending(bySender, t.from);
      var want := ExpectedNonce(list, stateNonce);
      if t.hash in txs then Some(KnownTx)
      else if |txs| >= limits.poolSize then Some(PoolFull)
      else if |list| >= limits.perSender then Some(SenderLimit)
      else if t.nonce != want then Some(AddError.WrongNonce(want))
      else None
    }

    /** Why a transaction is turned away, if it is. */
    ghost function Refusal(t: Tx, valid: bool, signed: bool, chain: Option<ChainView>): Option<AddError>
      reads this
    {
      if !valid then Some(InvalidTx)
      else if !signed then Some(InvalidSignature)
      else if chain.None? then Some(ChainUnavailable)
      else
        var view := chain.value;
        if |t.data| > limits.txSize then Some(TooLarge)
        else if t.gasPrice < limits.minGasPrice then Some(GasPriceTooLow)
        else if view.spendable < t.value + t.gas * t.gasPrice then Some(AddError.InsufficientBalance)
        else if t.nonce > view.stateNonce + limits.futureGap then Some(NonceTooHigh)
        else Admission(t, view.stateNonce)
    }

    method GetNextNonce(a: Address, stateNonce: Option<nat>) returns (nonce: nat)
      requires Coherent()
      ensures stateNonce.None? ==> nonce == 0
      ensures stateNonce.Some? ==>
                var want := ExpectedNonce(Pending(bySender, a), stateNonce.value);
                if Pending(bySender, a) == [] && stateNonce.value == 0 then nonce == 1 && want == 0 else nonce == want
    {
      if stateNonce.None? {
        return 0;
      }
      TrackedIsLast(txs, bySender, nonceTracker, a);
      var highest := Tracked(nonceTracker, a);
      if highest >= stateNonce.value {
        return highest + 1;
      }
      return stateNonce.value;
    }

    /** The nonce wanted, from a scan of the sender's list. */
    method ScanExpected(list: seq<Tx>, stateNonce: nat) returns (want: nat)
      requires NonceSorted(list)
      ensures want == ExpectedNonce(list, stateNonce)
    {
      want := stateNonce;
      if |list| > 0 {
        var highest := 0;
        for k := 0 to |list|
          invariant highest == if k == 0 then 0 else list[k - 1].nonce
        {
          if list[k].nonce > highest {
            highest := list[k].nonce;
          }
        }
        if highest >= stateNonce {
          want := highest + 1;
        }
      }
    }

    /** Steps that need no lock: what the transaction and the chain say. */
    method Precheck(t: Tx, valid: bool, signed: bool, chain: Option<ChainView>) returns (e: Option<AddError>)
      ensures e.Some? ==> Refusal(t, valid, signed, chain) == e
      ensures e.None? ==> chain.Some? && Refusal(t, valid, signed, chain) == Admission(t, chain.value.stateNonce)
    {
      if !valid {
        return Some(InvalidTx);
      }
      if !signed {
        return Some(InvalidSignature);
      }
      if chain.None? {
        return Some(ChainUnavailable);
      }
      if |t.data| > limits.txSize {
        return Some(TooLarge);
      }
      if t.gasPrice < limits.minGasPrice {
        return Some(GasPriceTooLow);
      }
      var gasCost := t.gas * t.gasPrice;
      if chain.value.spendable < t.value + gasCost {
        return Some(AddError.InsufficientBalance);
      }
      if t.nonce > chain.value.stateNonce + limits.futureGap {
        return Some(NonceTooHigh);
      }
      return None;
    }

    /** Puts a new transaction into the three maps by hash and at the end of its sender's list. */
    method File(t: Tx, height: nat, now: int)
      requires CoreValid() && t.hash !in txs && |txs| < limits.poolSize
      requires var list := Pending(bySender, t.from);
               |list| < limits.perSender && (list != [] ==> list[|list| - 1].nonce < t.nonce)
      modifies `txs, `bySender, `submitHeight, `submitTime
      ensures CoreValid() && All() == old(All()).Plus(t, height, now)
      ensures bySender == old(bySender)[t.from := old(Pending(bySender, t.from)) + [t]]
    {
      FiledAdd(txs, bySender, t);
      ShortAdd(bySender, t, limits.perSender);
      KeysAdd(All(), t, height, now);
      txs := txs[t.hash := t];
      bySender := bySender[t.from := Pending(bySender, t.from) + [t]];
      submitTime := submitTime[t.hash := now];
      submitHeight := submitHeight[t.hash := height];
    }

    /** Brings tracker and queue up to date after `t` was filed. */
    method Enqueue(t: Tx, ghost before: map<Hash32, Tx>)
      requires CoreValid() && t.hash !in before && txs == before[t.hash := t]
      requires forall h :: h in before ==> before[h].hash == h
      requires Queued(pendingHeap, before) && TrackerOk(nonceTracker, before)
      modifies `nonceTracker, `pendingHeap
      ensures Coherent()
    {
      TrackerAdd(nonceTracker, before, t.hash, t);
      ValuesAdd(before, t);
      if t.nonce > Tracked(nonceTracker, t.from) {
        nonceTracker := nonceTracker[t.from := t.nonce];
      }
      pendingHeap := Push(pendingHeap, t);
    }

    /** Puts a new transaction into all five indexes. */
    method Insert(t: Tx, height: nat, now: int)
      requires Coherent() && t.hash !in txs && |txs| < limits.poolSize
      requires var list := Pending(bySender, t.from);
               |list| < limits.perSender && (list != [] ==> list[|list| - 1].nonce < t.nonce)
      modifies this
      ensures Coherent() && All() == old(All()).Plus(t, height, now)
      ensures bySender == old(bySender)[t.from := old(Pending(bySender, t.from)) + [t]]
    {
      HashesMatch(txs, bySender);
      File(t, height, now);
      Enqueue(t, old(txs));
    }

    /** Checks made under the lock: the pool's limits and the nonce. */
    method Admit(t: Tx, stateNonce: nat) returns (e: Option<AddError>)
      requires CoreValid()
      ensures e == Admission(t, stateNonce)
    {
      if t.hash in txs {
        return Some(KnownTx);
      }
      if |txs| >= limits.poolSize {
        return Some(PoolFull);
      }
      var senderTxs := if t.from in bySender then bySender[t.from] else [];
      if |senderTxs| >= limits.perSender {
        return Some(SenderLimit);
      }
      assert SenderOk(txs, bySender, t.from);
      var expected := ScanExpected(senderTxs, stateNonce);
      if t.nonce != expected {
        return Some(AddError.WrongNonce(expected));
      }
      // The duplicate-nonce error is never returned: the expected nonce is above every pending one.
      for k := 0 to |senderTxs|
      {
        if senderTxs[k].nonce == t.nonce {
          assert false;
        }
      }
      return None;
    }

    /** The reasons against a transaction, each from the fields it depends on, in the order they are looked at. */
    ghost function Objections(t: Tx, valid: bool, signed: bool, chain: Option<ChainView>): seq<(bool, AddError)>
      reads this
    {
      var view := if chain.Some? then chain.value else ChainView(0, 0, 0);
      var list := if t.from in bySender then bySender[t.from] else [];
      var want := if list != [] && list[|list| - 1].nonce >= view.stateNonce then list[|list| - 1].nonce + 1
                  else view.stateNonce;
      [(!valid, InvalidTx),
       (!signed, InvalidSignature),
       (chain == None, ChainUnavailable),
       (|t.data| > limits.txSize, TooLarge),
       (t.gasPrice < limits.minGasPrice, GasPriceTooLow),
       (view.spendable < t.value + t.gas * t.gasPrice, AddError.InsufficientBalance),
       (t.nonce > view.stateNonce + limits.futureGap, NonceTooHigh),
       (t.hash in txs, KnownTx),
       (|txs| >= limits.poolSize, PoolFull),
       (|list| >= limits.perSender, SenderLimit),
       (t.nonce != want, AddError.WrongNonce(want))]
    }

    /** A transaction is turned away for the first reason against it, and taken if and only if there is none. */
    lemma RefusedForFirst(t: Tx, valid: bool, signed: bool, chain: Option<ChainView>)
      ensures var why, reasons := Refusal(t, valid, signed, chain), Objections(t, valid, signed, chain);
              && (why.None? <==> forall k :: 0 <= k < |reasons| ==> !reasons[k].0)
              && forall k :: 0 <= k < |reasons| && reasons[k].0 && (forall j :: 0 <= j < k ==> !reasons[j].0) ==>
                   why == Some(reasons[k].1)
    {
      var reasons := Objections(t, valid, signed, chain);
      assert reasons[0].0 == !valid && reasons[1].0 == !signed && reasons[2].0 == chain.None?;
      if valid && signed && chain.Some? {
        var view := chain.value;
        assert reasons[3].0 == (|t.data| > limits.txSize) && reasons[4].0 == (t.gasPrice < limits.minGasPrice);
        assert reasons[5].0 == (view.spendable < t.value + t.gas * t.gasPrice);
        assert reasons[6].0 == (t.nonce > view.stateNonce + limits.futureGap);
        assert reasons[7].0 == (t.hash in txs) && reasons[8].0 == (|txs| >= limits.poolSize);
        assert reasons[9].0 == (|Pending(bySender, t.from)| >= limits.perSender);
        assert reasons[10].0 == (t.nonce != ExpectedNonce(Pending(bySender, t.from), view.stateNonce));
      }
    }

    /** Adds a transaction to all five indexes, or changes nothing and says why. */
    method AddTx(tx: Option<Tx>, valid: bool, signed: bool, chain: Option<ChainView>, now: int)
      returns (r: Result<(), AddError>)
      requires Coherent()
      modifies this
      ensures Coherent()
      ensures tx.None? ==> r == Err(NilTx)
      ensures tx.Some? ==>
                var refusal := old(Refusal(tx.value, valid, signed, chain));
                r == if refusal.Some? then Err(refusal.value) else Ok(())
      ensures r.Err? ==> unchanged(this)
      ensures r.Ok? ==>
                && tx.Some? && chain.Some?
                && txs == old(txs)[tx.value.hash := tx.value]
                && submitHeight == old(submitHeight)[tx.value.hash := chain.value.latestHeight]
                && submitTime == old(submitTime)[tx.value.hash := now]
                && bySender == old(bySender)[tx.value.from := old(Pending(bySender, tx.value.from)) + [tx.value]]
    {
      if tx.None? {
        return Err(NilTx);
      }
      var t := tx.value;
      var early := Precheck(t, valid, signed, chain);
      if early.Some? {
        return Err(early.value);
      }
      var late := Admit(t, chain.value.stateNonce);
      if late.Some? {
        return Err(late.value);
      }
      Insert(t, chain.value.latestHeight, now);
      return Ok(());
    }

    /** The first entry of a list with the hash of `t`, which it holds. */
    static method IndexOf(list: seq<Tx>, ghost t: Tx, hash: Hash32) returns (i: nat)
      requires t in list && t.hash == hash
      ensures i < |list| && list[i].hash == hash
    {
      i := 0;
      ghost var at :| 0 <= at < |list| && list[at] == t;
      while list[i].hash != hash
        invariant 0 <= i <= at
        decreases |list| - i
      {
        i := i + 1;
      }
    }

    /** Takes one transaction out of the four maps; queue and tracker are left to the caller. */
    method RemoveLocked(hash: Hash32)
      requires CoreValid()
      modifies `txs, `bySender, `submitHeight, `submitTime
      ensures CoreValid() && All() == old(All()).Minus({hash})
      ensures hash in old(txs) ==> |txs| == |old(txs)| - 1
    {
      if hash !in txs {
        MinusAbsent(All(), hash);
        return;
      }
      var t := txs[hash];
      assert FiledUnder(txs, bySender, hash);
      var list := bySender[t.from];
      var i := IndexOf(list, t, hash);
      FiledRemove(txs, bySender, hash, t.from, i);
      MinusOne(All(), hash);
      ShortRemove(bySender, t.from, i, limits.perSender);
      var rest := list[..i] + list[i + 1..];
      var filed := bySender[t.from := rest];
      if |rest| == 0 {
        filed := filed - {t.from};
        assert filed == bySender - {t.from};
      }
      assert filed == Unfiled(bySender, t.from, Without(list, i));
      txs, submitHeight, submitTime := txs - {hash}, submitHeight - {hash}, submitTime - {hash};
      bySender := filed;
      assert All() == old(All()).Minus({hash});
    }

    method RebuildNonceTracker()
      modifies `nonceTracker
      ensures TrackerOk(nonceTracker, txs)
    {
      nonceTracker := map[];
      var keys := txs.Keys;
      while keys != {}
        invariant keys <= txs.Keys && TrackerOk(nonceTracker, txs - keys)
      {
        var h :| h in keys;
        var t := txs[h];
        TrackerAdd(nonceTracker, txs - keys, h, t);
        assert txs - (keys - {h}) == (txs - keys)[h := t];
        if t.nonce > Tracked(nonceTracker, t.from) {
          nonceTracker := nonceTracker[t.from := t.nonce];
        }
        keys := keys - {h};
      }
      assert txs - {} == txs;
    }

    method RebuildPendingHeap()
      requires forall h :: h in txs ==> txs[h].hash == h
      modifies `pendingHeap
      ensures Queued(pendingHeap, txs)
    {
      var heap: seq<Tx> := [];
      var keys := txs.Keys;
      while keys != {}
        invariant keys <= txs.Keys && Queued(heap, txs - keys)
      {
        var h :| h in keys;
        assert txs - (keys - {h}) == (txs - keys)[h := txs[h]];
        ValuesAdd(txs - keys, txs[h]);
        heap := Push(heap, txs[h]);
        keys := keys - {h};
      }
      assert txs - {} == txs;
      pendingHeap := Init(heap);
    }

    method Rebuild()
      requires CoreValid()
      modifies `nonceTracker, `pendingHeap
      ensures Coherent() && All() == old(All())
    {
      HashesMatch(txs, bySender);
      RebuildNonceTracker();
      RebuildPendingHeap();
    }

    /** A single removal leaves the queue stale, so the pool stays coherent only if the hash was unknown. */
    method Remove(hash: Hash32)
      requires Coherent()
      modifies `txs, `bySender, `submitHeight, `submitTime
      ensures CoreValid() && All() == old(All()).Minus({hash})
      ensures Coherent() <==> hash !in old(txs)
    {
      HashesMatch(txs, bySender);
      if hash in txs {
        QueueStale(pendingHeap, txs, hash);
      } else {
        MinusAbsent(All(), hash);
      }
      RemoveLocked(hash);
    }

    method RemoveTxs(list: seq<Tx>)
      requires Coherent()
      modifies this
      ensures Coherent() && All() == old(All()).Minus(Hashes(list))
    {
      MinusNone(All());
      for k := 0 to |list|
        invariant CoreValid() && All() == old(All()).Minus(Hashes(list[..k]))
      {
        RemoveLocked(list[k].hash);
        HashesMore(list, k);
        MinusMore(old(All()), Hashes(list[..k]), list[k].hash, Hashes(list[..k + 1]));
      }
      assert list[..|list|] == list;
      Rebuild();
    }

    method RemoveIfPresent(h: Hash32) returns (present: bool)
      requires CoreValid()
      modifies `txs, `bySender, `submitHeight, `submitTime
      ensures CoreValid() && All() == old(All()).Minus({h})
      ensures present <==> h in old(txs)
      ensures if present then |txs| == |old(txs)| - 1 else All() == old(All())
    {
      present := h in txs;
      if present {
        RemoveLocked(h);
      } else {
        MinusAbsent(All(), h);
      }
    }

    /** Removes the present ones among `hashes` from the maps and counts them. */
    method RemoveEach(hashes: set<Hash32>) returns (removed: nat)
      requires CoreValid()
      modifies `txs, `bySender, `submitHeight, `submitTime
      ensures CoreValid() && All() == old(All()).Minus(hashes)
      ensures removed == |old(txs)| - |txs| && (removed == 0 ==> All() == old(All()))
    {
      ghost var before := All();
      removed := 0;
      var left := hashes;
      RemovalStarts(before, hashes);
      while left != {}
        invariant left <= hashes && CoreValid() && All() == Walked(before, hashes, left)
        invariant removed == |before.txs| - |txs| && (removed == 0 ==> All() == before)
      {
        var h :| h in left;
        RemovalStep(before, hashes, left, h);
        var present := RemoveIfPresent(h);
        if present {
          removed := removed + 1;
        }
        left := left - {h};
      }
    }

    /** Removes the present ones among `hashes` and rebuilds if there were any. */
    method RemoveAll(hashes: set<Hash32>) returns (removed: nat)
      requires Coherent()
      modifies this
      ensures Coherent() && All() == old(All()).Minus(hashes)
      ensures removed == |old(txs)| - |txs|
    {
      removed := RemoveEach(hashes);
      if removed > 0 {
        Rebuild();
      }
    }

    /** One step of cleanupStale: by block age, then by time to live. */
    method VisitStale(h: Hash32, maxAge: nat, cur: nat, now: int) returns (removed: bool)
      requires CoreValid() && h in txs && h in submitHeight && h in submitTime
      modifies `txs, `bySender, `submitHeight, `submitTime
      ensures removed <==> Stale(cur, old(submitHeight[h]), maxAge, now, old(submitTime[h]), limits.ttl)
      ensures CoreValid() && All() == if removed then old(All()).Minus({h}) else old(All())
    {
      if cur > submitHeight[h] && cur - submitHeight[h] > maxAge {
        RemoveLocked(h);
        return true;
      }
      if now - submitTime[h] > limits.ttl {
        RemoveLocked(h);
        return true;
      }
      return false;
    }

    /** The walk of cleanupStale over the map. */
    method RemoveStale(maxAge: nat, cur: nat, now: int) returns (removed: nat)
      requires CoreValid()
      modifies `txs, `bySender, `submitHeight, `submitTime
      ensures CoreValid() && All() == old(All()).Minus(old(All()).StaleKeys(maxAge, cur, now, limits.ttl))
      ensures removed == 0 ==> All() == old(All())
    {
      ghost var before := All();
      ghost var stale := before.StaleKeys(maxAge, cur, now, limits.ttl);
      removed := 0;
      var left := txs.Keys;
      WalkStarts(before, stale);
      while left != {}
        invariant left <= before.txs.Keys && CoreValid() && All() == Walked(before, stale, left)
        invariant removed == 0 ==> All() == before
        decreases |left|
      {
        var h :| h in left;
        WalkStep(before, stale, left, h);
        var dropped := VisitStale(h, maxAge, cur, now);
        assert h in stale <==> before.IsStale(h, maxAge, cur, now, limits.ttl);
        if dropped {
          removed := removed + 1;
        }
        left := left - {h};
      }
    }

    /** Drops what is too old or expired, in whatever order the map is walked. */
    method CleanupStale(maxAge: nat, cur: nat, now: int)
      requires Coherent()
      modifies this
      ensures Coherent() && All() == old(All()).Minus(old(All()).StaleKeys(maxAge, cur, now, limits.ttl))
    {
      var removed := RemoveStale(maxAge, cur, now);
      if removed > 0 {
        Rebuild();
      }
    }

    /** Drops what can no longer be mined and counts it. */
    method CleanupInvalid(stateNonceOf: Address -> nat, cur: nat, now: int) returns (removed: nat)
      requires Coherent()
      modifies this
      ensures Coherent() && All() == old(All()).Minus(old(All()).InvalidKeys(stateNonceOf, cur, now, limits))
      ensures removed == |old(txs)| - |txs|
    {
      ghost var before := All();
      var toRemove := {};
      var left := txs.Keys;
      while left != {}
        invariant left <= txs.Keys && toRemove <= txs.Keys
        invariant forall h :: h in txs ==>
            (h in toRemove <==> h !in left && before.IsInvalid(h, stateNonceOf, cur, now, limits))
      {
        var h :| h in left;
        var t, height, time := txs[h], submitHeight[h], submitTime[h];
        if t.nonce < stateNonceOf(t.from) {
          toRemove := toRemove + {h};
        } else if height > 0 && WrappedAge(cur, height) > limits.staleAge {
          toRemove := toRemove + {h};
        } else if now - time > limits.ttl {
          toRemove := toRemove + {h};
        }
        left := left - {h};
      }
      assert toRemove == before.InvalidKeys(stateNonceOf, cur, now, limits);
      removed := RemoveAll(toRemove);
    }

    /** Drops what a block has included. */
    method CleanupMinedTransactions(mined: seq<Tx>) returns (removed: nat)
      requires Coherent()
      modifies this
      ensures Coherent() && All() == old(All()).Minus(Hashes(mined))
      ensures removed == |old(txs)| - |txs|
    {
      if |mined| == 0 {
        MinusNone(All());
        return 0;
      }
      var minedHashes := {};
      for k := 0 to |mined|
        modifies {}
        invariant minedHashes == Hashes(mined[..k])
      {
        HashesMore(mined, k);
        minedHashes := minedHashes + {mined[k].hash};
      }
      assert mined[..|mined|] == mined;
      removed := RemoveAll(minedHashes);
    }

    method Clear()
      modifies this
      ensures Coherent() && txs == map[]
    {
      txs, bySender, submitHeight, submitTime, nonceTracker := map[], map[], map[], map[], map[];
      pendingHeap := Init([]);
    }

    /** All pending transactions, each once, with a best payer first. */
    method GetPending() returns (list: seq<Tx>)
      requires Coherent()
      ensures multiset(list) == multiset(txs.Values) && HeapOrdered(list)
      ensures list != [] ==> forall h :: h in txs ==> txs[h].gasPrice <= list[0].gasPrice
    {
      list := pendingHeap;
      forall h | h in txs
        ensures list != [] && txs[h].gasPrice <= list[0].gasPrice
      {
        assert txs[h] in txs.Values;
        assert txs[h] in multiset(list);
        var i :| 0 <= i < |list| && list[i] == txs[h];
        RootPaysMost(list, i);
      }
    }
  }
}
