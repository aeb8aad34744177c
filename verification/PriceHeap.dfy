/** The pending queue: a slice kept as a binary heap by gas price, the way Go's container/heap moves entries. */
module PriceHeap {
  import opened Execution

  function Parent(i: nat): nat
    requires i > 0
  {
    (i - 1) / 2
  }

  /** Entry `i` pays no more than its parent. */
  predicate Below(h: seq<Tx>, i: nat)
    requires 0 < i < |h|
  {
    h[i].gasPrice <= h[Parent(i)].gasPrice
  }

  ghost predicate HeapOrdered(h: seq<Tx>) {
    forall i :: 0 < i < |h| ==> Below(h, i)
  }

  /** Entries `2i + 1` and `2i + 2` stand under entry `i`. */
  predicate OverChildren(h: seq<Tx>, i: nat)
    requires i < |h|
  {
    && (2 * i + 1 < |h| ==> h[2 * i + 1].gasPrice <= h[i].gasPrice)
    && (2 * i + 2 < |h| ==> h[2 * i + 2].gasPrice <= h[i].gasPrice)
  }

  lemma HeapOrderedIff(h: seq<Tx>)
    ensures HeapOrdered(h) <==> forall i :: 0 <= i < |h| ==> OverChildren(h, i)
  {
    if HeapOrdered(h) {
      forall i | 0 <= i < |h| ensures OverChildren(h, i) {
        assert 2 * i + 1 < |h| ==> Below(h, 2 * i + 1);
        assert 2 * i + 2 < |h| ==> Below(h, 2 * i + 2);
      }
    } else {
      var i :| 0 < i < |h| && !Below(h, i);
      assert !OverChildren(h, Parent(i)) by {
        assert i == 2 * Parent(i) + 1 || i == 2 * Parent(i) + 2;
      }
    }
  }

  /** Ordered among the entries from position `k` on. */
  ghost predicate OrderedFrom(h: seq<Tx>, k: nat) {
    forall i :: 0 < i < |h| && Parent(i) >= k ==> Below(h, i)
  }

  function Swapped(h: seq<Tx>, i: nat, j: nat): (r: seq<Tx>)
    requires i < |h| && j < |h|
    ensures |r| == |h| && multiset(r) == multiset(h)
  {
    h[i := h[j]][j := h[i]]
  }

  /** Only entry `j` may pay more than its parent, and its children already pay no more than that parent. */
  ghost predicate OrderedButUp(h: seq<Tx>, j: nat)
    requires j < |h|
  {
    && (forall i :: 0 < i < |h| && i != j ==> Below(h, i))
    && (j > 0 ==> forall i :: 0 < i < |h| && Parent(i) == j ==> h[i].gasPrice <= h[Parent(j)].gasPrice)
  }

  lemma UpStep(h: seq<Tx>, j: nat)
    requires 0 < j < |h| && OrderedButUp(h, j) && !Below(h, j)
    ensures OrderedButUp(Swapped(h, Parent(j), j), Parent(j))
  {
    var p, r := Parent(j), Swapped(h, Parent(j), j);
    forall i | 0 < i < |h| && i != p
      ensures Below(r, i) && (p > 0 && Parent(i) == p ==> r[i].gasPrice <= r[Parent(p)].gasPrice)
    {
      if i != j {
        assert Below(h, i);
      }
      if p > 0 {
        assert Below(h, p);
      }
    }
  }

  /** Moves entry `j` up while it pays more than its parent. */
  method Up(h: seq<Tx>, start: nat) returns (r: seq<Tx>)
    requires start < |h| && OrderedButUp(h, start)
    ensures HeapOrdered(r) && multiset(r) == multiset(h) && |r| == |h|
  {
    r := h;
    var j: nat := start;
    while j > 0 && r[j].gasPrice > r[Parent(j)].gasPrice
      invariant j < |r| == |h| && OrderedButUp(r, j) && multiset(r) == multiset(h)
      decreases j
    {
      UpStep(r, j);
      r := Swapped(r, Parent(j), j);
      j := Parent(j);
    }
  }

  method Push(h: seq<Tx>, t: Tx) returns (r: seq<Tx>)
    requires HeapOrdered(h)
    ensures HeapOrdered(r) && multiset(r) == multiset(h) + multiset{t}
  {
    var longer := h + [t];
    forall i | 0 < i < |h|
      ensures Below(longer, i)
    {
      assert Below(h, i);
    }
    assert forall i :: 0 < i < |longer| ==> Parent(i) != |h|;
    r := Up(longer, |h|);
  }

  /** Only the children of entry `i` may pay more than it, and they pay no more than its parent. */
  ghost predicate OrderedButDown(h: seq<Tx>, k: nat, i: nat)
    requires i < |h|
  {
    && (forall c :: 0 < c < |h| && Parent(c) >= k && Parent(c) != i ==> Below(h, c))
    && (i > 0 && Parent(i) >= k ==>
          forall c :: 0 < c < |h| && Parent(c) == i ==> h[c].gasPrice <= h[Parent(i)].gasPrice)
  }

  lemma DownStep(h: seq<Tx>, k: nat, i: nat, j: nat)
    requires k <= i < j < |h| && Parent(j) == i && OrderedButDown(h, k, i)
    requires forall c :: 0 < c < |h| && Parent(c) == i ==> h[c].gasPrice <= h[j].gasPrice
    requires h[j].gasPrice > h[i].gasPrice
    ensures OrderedButDown(Swapped(h, i, j), k, j)
  {
    var r := Swapped(h, i, j);
    forall c | 0 < c < |h| && Parent(c) >= k && Parent(c) != j
      ensures Below(r, c)
    {
      if Parent(c) != i {
        assert Below(h, c);
      }
    }
    forall c | 0 < c < |h| && Parent(c) == j
      ensures r[c].gasPrice <= r[Parent(j)].gasPrice
    {
      assert Below(h, c);
    }
  }

  /** Moves entry `i` down while a child pays more, always past the better paying child. */
  method Down(h: seq<Tx>, start: nat) returns (r: seq<Tx>)
    requires start < |h| && OrderedFrom(h, start + 1)
    ensures OrderedFrom(r, start) && multiset(r) == multiset(h) && |r| == |h|
  {
    r := h;
    var i := start;
    while 2 * i + 1 < |r|
      invariant start <= i < |r| == |h| && OrderedButDown(r, start, i) && multiset(r) == multiset(h)
      decreases |r| - i
    {
      var j := 2 * i + 1;
      if j + 1 < |r| && r[j + 1].gasPrice > r[j].gasPrice {
        j := j + 1;
      }
      if r[j].gasPrice <= r[i].gasPrice {
        break;
      }
      DownStep(r, start, i, j);
      r := Swapped(r, i, j);
      i := j;
    }
  }

  /** Orders any slice, from the last parent back to the root. */
  method Init(h: seq<Tx>) returns (r: seq<Tx>)
    ensures HeapOrdered(r) && multiset(r) == multiset(h)
  {
    r := h;
    var i: nat := |h| / 2;
    while i > 0
      invariant i <= |h| / 2 && |r| == |h| && OrderedFrom(r, i) && multiset(r) == multiset(h)
    {
      i := i - 1;
      r := Down(r, i);
    }
    assert forall c :: 0 < c < |r| ==> Parent(c) >= 0 && Below(r, c);
  }

  /** The first entry pays the most. */
  lemma {:induction false} RootPaysMost(h: seq<Tx>, i: nat)
    requires HeapOrdered(h) && i < |h|
    ensures h[i].gasPrice <= h[0].gasPrice
    decreases i
  {
    if i > 0 {
      assert Below(h, i);
      RootPaysMost(h, Parent(i));
    }
  }

  ghost predicate SortedByPrice(h: seq<Tx>) {
    forall i, j :: 0 <= i < j < |h| ==> h[j].gasPrice <= h[i].gasPrice
  }

  /** The documented price order of the whole list is only assured for at most two entries. */
  lemma HeapSortedIffSmall(n: nat, t: Tx)
    ensures (forall h: seq<Tx> :: |h| == n && HeapOrdered(h) ==> SortedByPrice(h)) <==> n <= 2
  {
    if n <= 2 {
      forall h: seq<Tx> | |h| == n && HeapOrdered(h)
        ensures SortedByPrice(h)
      {
        if n == 2 {
          assert Below(h, 1);
        }
      }
    } else {
      var h := seq(n, i => t.(gasPrice := if i == 0 then 2 else if i == 2 then 1 else 0));
      assert HeapOrdered(h);
      assert h[2].gasPrice > h[1].gasPrice;
      assert !SortedByPrice(h);
    }
  }
}
