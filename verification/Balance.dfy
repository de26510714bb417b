/**
 Balanced partitioning (transfer_queue/sampler/seqlen_balanced_sampler.py) on values: the bins of a k-way state, the
 merge of two states, and the loop that merges the two first states of the heap until one is left.
 Balancer.dfy carries it out on mutable objects.
 */
module Balance {
  import opened Prelude

  datatype Item = Item(idx: nat, val: int)

  /** A Set of the source. */
  datatype Bin = Bin(sum: int, items: seq<Item>)

  function SumOf(items: seq<Item>): int {
    if items == [] then 0 else SumOf(items[..|items| - 1]) + items[|items| - 1].val
  }

  function Join(a: Bin, b: Bin): Bin {
    Bin(a.sum + SumOf(b.items), a.items + b.items)
  }

  // ---------------------------------------------------------------- orders

  predicate ItemsLess(a: seq<Item>, b: seq<Item>) {
    if b == [] then false else if a == [] then true
    else if a[0] == b[0] then ItemsLess(a[1..], b[1..])
    else a[0].idx < b[0].idx || (a[0].idx == b[0].idx && a[0].val < b[0].val)
  }

  predicate Less(a: Bin, b: Bin) {
    if a.sum != b.sum then a.sum < b.sum
    else if |a.items| != |b.items| then |a.items| < |b.items|
    else ItemsLess(a.items, b.items)
  }

  /** What every use of the order needs of it: first the sum, then the number of items. */
  ghost predicate AtLeast(a: Bin, b: Bin) {
    a.sum > b.sum || (a.sum == b.sum && |a.items| >= |b.items|)
  }

  function Insert(b: Bin, bins: seq<Bin>): seq<Bin> {
    if bins == [] || !Less(b, bins[0]) then [b] + bins else [bins[0]] + Insert(b, bins[1..])
  }

  /** sorted(..., reverse=True) */
  function Descending(bins: seq<Bin>): seq<Bin> {
    if bins == [] then [] else Insert(bins[0], Descending(bins[1..]))
  }

  ghost predicate Ordered(bins: seq<Bin>) {
    forall i, j :: 0 <= i < j < |bins| ==> AtLeast(bins[i], bins[j])
  }

  lemma {:induction false} InsertOrdered(b: Bin, bins: seq<Bin>)
    requires Ordered(bins)
    ensures Ordered(Insert(b, bins))
    ensures multiset(Insert(b, bins)) == multiset{b} + multiset(bins)
  {
    if bins == [] || !Less(b, bins[0]) {
      assert [b] + bins == Insert(b, bins);
    } else {
      var r := Insert(b, bins[1..]);
      InsertOrdered(b, bins[1..]);
      assert bins == [bins[0]] + bins[1..];
      forall j | 0 <= j < |r| ensures AtLeast(bins[0], r[j]) {
        assert r[j] in multiset(r);
        if r[j] != b {
          assert r[j] in multiset(bins[1..]);
          var m :| 0 <= m < |bins[1..]| && bins[1..][m] == r[j];
          assert AtLeast(bins[0], bins[m + 1]);
        }
      }
    }
  }

  lemma {:induction false} DescendingOrdered(bins: seq<Bin>)
    ensures Ordered(Descending(bins)) && multiset(Descending(bins)) == multiset(bins)
    ensures |Descending(bins)| == |bins|
    ensures forall b :: b in Descending(bins) <==> b in bins
  {
    if bins != [] {
      DescendingOrdered(bins[1..]);
      InsertOrdered(bins[0], Descending(bins[1..]));
      assert bins == [bins[0]] + bins[1..];
    }
    assert |multiset(Descending(bins))| == |Descending(bins)| && |multiset(bins)| == |bins|;
    forall b ensures b in Descending(bins) <==> b in bins {
      assert b in multiset(Descending(bins)) <==> b in multiset(bins);
    }
  }

  // ---------------------------------------------------------------- states

  function Spread(state: seq<Bin>): int
    requires state != []
  {
    state[0].sum - state[|state| - 1].sum
  }

  /** State.__lt__: the larger spread first, then the larger first bin. */
  predicate Precedes(a: seq<Bin>, b: seq<Bin>)
    requires a != [] && b != []
  {
    if Spread(a) != Spread(b) then Spread(a) > Spread(b) else Less(b[0], a[0])
  }

  function Crossed(a: seq<Bin>, b: seq<Bin>): seq<Bin>
    requires |a| == |b|
  {
    seq(|a|, i requires 0 <= i < |a| => Join(a[i], b[|a| - 1 - i]))
  }

  function Merge(a: seq<Bin>, b: seq<Bin>): seq<Bin>
    requires |a| == |b|
  {
    Descending(Crossed(a, b))
  }

  function Fill(items: seq<Item>, k: nat): seq<Bin> {
    seq(k, i requires 0 <= i < k => if i < |items| then Bin(items[i].val, [items[i]]) else Bin(0, []))
  }

  function NewState(items: seq<Item>, k: nat): seq<Bin> {
    Descending(Fill(items, k))
  }

  ghost predicate BinOk(b: Bin) {
    b.sum == SumOf(b.items)
  }

  /** k bins in descending order whose sums are right. */
  ghost predicate StateOk(state: seq<Bin>, k: nat) {
    k > 0 && |state| == k && Ordered(state) && forall i :: 0 <= i < k ==> BinOk(state[i])
  }

  /** heappush, with the heap listed in the order in which it pops. */
  function Push(heap: seq<seq<Bin>>, state: seq<Bin>): seq<seq<Bin>>
    requires state != [] && forall i :: 0 <= i < |heap| ==> heap[i] != []
  {
    if heap == [] || Precedes(state, heap[0]) then [state] + heap else [heap[0]] + Push(heap[1..], state)
  }

  ghost predicate HeapOk(heap: seq<seq<Bin>>, k: nat) {
    forall i :: 0 <= i < |heap| ==> StateOk(heap[i], k)
  }

  lemma {:induction false} PushAdds(heap: seq<seq<Bin>>, state: seq<Bin>, k: nat)
    requires HeapOk(heap, k) && StateOk(state, k)
    ensures HeapOk(Push(heap, state), k) && |Push(heap, state)| == |heap| + 1
    ensures forall s :: s in Push(heap, state) <==> s == state || s in heap
  {
    if heap == [] || Precedes(state, heap[0]) {
    } else {
      PushAdds(heap[1..], state, k);
      assert forall s :: s in heap <==> s == heap[0] || s in heap[1..];
    }
  }

  lemma {:induction false} SumOfConcat(a: seq<Item>, b: seq<Item>)
    ensures SumOf(a + b) == SumOf(a) + SumOf(b)
  {
    if b == [] {
      assert a + b == a;
    } else {
      assert (a + b)[..|a + b| - 1] == a + b[..|b| - 1];
      SumOfConcat(a, b[..|b| - 1]);
    }
  }

  lemma MergeOk(a: seq<Bin>, b: seq<Bin>, k: nat)
    requires StateOk(a, k) && StateOk(b, k)
    ensures StateOk(Merge(a, b), k)
  {
    var c := Crossed(a, b);
    DescendingOrdered(c);
    forall i | 0 <= i < k ensures BinOk(c[i]) {
      SumOfConcat(a[i].items, b[k - 1 - i].items);
    }
    SumsPermuted(c, Merge(a, b));
  }

  lemma SumsPermuted(c: seq<Bin>, m: seq<Bin>)
    requires |m| == |c| && (forall b :: b in m ==> b in c) && forall i :: 0 <= i < |c| ==> BinOk(c[i])
    ensures forall i :: 0 <= i < |m| ==> BinOk(m[i])
  {
    forall i | 0 <= i < |m| ensures BinOk(m[i]) {
      assert m[i] in c;
    }
  }

  lemma NewStateOk(items: seq<Item>, k: nat)
    requires k > 0
    ensures StateOk(NewState(items, k), k)
  {
    var f := Fill(items, k);
    DescendingOrdered(f);
    forall b | b in f ensures BinOk(b) {
      assert b.items != [] ==> SumOf(b.items[..0]) == 0;
    }
    var m := NewState(items, k);
    forall i | 0 <= i < k ensures BinOk(m[i]) {
      assert m[i] in f;
    }
  }

  /** One round of the loop: merge the two states that pop first and push the result. */
  function Next(heap: seq<seq<Bin>>, k: nat): seq<seq<Bin>>
    requires HeapOk(heap, k) && |heap| > 1
  {
    MergeOk(heap[0], heap[1], k);
    Push(heap[2..], Merge(heap[0], heap[1]))
  }

  lemma NextOk(heap: seq<seq<Bin>>, k: nat)
    requires HeapOk(heap, k) && |heap| > 1
    ensures HeapOk(Next(heap, k), k) && |Next(heap, k)| == |heap| - 1
    ensures forall s :: s in Next(heap, k) ==> s == Merge(heap[0], heap[1]) || s in heap
  {
    MergeOk(heap[0], heap[1], k);
    PushAdds(heap[2..], Merge(heap[0], heap[1]), k);
  }

  function MergeAll(heap: seq<seq<Bin>>, k: nat): seq<Bin>
    requires HeapOk(heap, k) && heap != []
    decreases |heap|
  {
    if |heap| == 1 then heap[0] else
      NextOk(heap, k);
      MergeAll(Next(heap, k), k)
  }

  // ---------------------------------------------------------------- the spread never exceeds the widest initial state

  ghost predicate SpreadsWithin(heap: seq<seq<Bin>>, k: nat, bound: int)
    requires HeapOk(heap, k)
  {
    forall i :: 0 <= i < |heap| ==> Spread(heap[i]) <= bound
  }

  lemma OrderedSums(a: seq<Bin>, i: nat, j: nat)
    requires Ordered(a) && i <= j < |a|
    ensures a[0].sum >= a[i].sum >= a[j].sum >= a[|a| - 1].sum
  {
    assert i < j ==> AtLeast(a[i], a[j]);
    assert 0 < i ==> AtLeast(a[0], a[i]);
    assert j < |a| - 1 ==> AtLeast(a[j], a[|a| - 1]);
  }

  lemma CrossedDifference(a: seq<Bin>, b: seq<Bin>, k: nat, i: nat, j: nat)
    requires StateOk(a, k) && StateOk(b, k) && i < k && j < k
    ensures Crossed(a, b)[i].sum - Crossed(a, b)[j].sum <= if Spread(a) > Spread(b) then Spread(a) else Spread(b)
  {
    var i', j' := k - 1 - i, k - 1 - j;
    if i <= j {
      OrderedSums(a, i, j);
      OrderedSums(b, j', i');
    } else {
      OrderedSums(a, j, i);
      OrderedSums(b, i', j');
    }
    assert BinOk(b[i']) && BinOk(b[j']);
  }

  lemma MergedFrom(a: seq<Bin>, b: seq<Bin>, k: nat)
    requires |a| == |b| == k > 0
    ensures |Crossed(a, b)| == |Merge(a, b)| == k && Merge(a, b)[0] in Crossed(a, b) && Merge(a, b)[k - 1] in Crossed(a, b)
  {
    DescendingOrdered(Crossed(a, b));
  }

  /** Merging the largest bins with the smallest ones gives at most the wider spread. */
  lemma MergeSpread(a: seq<Bin>, b: seq<Bin>, k: nat)
    requires StateOk(a, k) && StateOk(b, k)
    ensures StateOk(Merge(a, b), k)
    ensures Spread(Merge(a, b)) <= if Spread(a) > Spread(b) then Spread(a) else Spread(b)
  {
    MergeOk(a, b, k);
    var c, m := Crossed(a, b), Merge(a, b);
    MergedFrom(a, b, k);
    hide *;
    var i :| 0 <= i < k && c[i] == m[0];
    var j :| 0 <= j < k && c[j] == m[k - 1];
    CrossedDifference(a, b, k, i, j);
  }

  lemma {:induction false} MergeAllSpread(heap: seq<seq<Bin>>, k: nat, bound: int)
    requires HeapOk(heap, k) && heap != [] && SpreadsWithin(heap, k, bound)
    ensures StateOk(MergeAll(heap, k), k) && Spread(MergeAll(heap, k)) <= bound
    decreases |heap|
  {
    if |heap| > 1 {
      NextOk(heap, k);
      MergeSpread(heap[0], heap[1], k);
      var h := Next(heap, k);
      forall i | 0 <= i < |h| ensures Spread(h[i]) <= bound {
        assert h[i] in h;
      }
      MergeAllSpread(h, k, bound);
    }
  }

  // ---------------------------------------------------------------- no item is lost or doubled

  ghost function ItemsIn(bins: seq<Bin>): multiset<Item> {
    if bins == [] then multiset{} else ItemsIn(bins[..|bins| - 1]) + multiset(bins[|bins| - 1].items)
  }

  lemma {:induction false} ItemsInConcat(a: seq<Bin>, b: seq<Bin>)
    ensures ItemsIn(a + b) == ItemsIn(a) + ItemsIn(b)
  {
    if b == [] {
      assert a + b == a;
    } else {
      assert (a + b)[..|a + b| - 1] == a + b[..|b| - 1];
      ItemsInConcat(a, b[..|b| - 1]);
    }
  }

  lemma ItemsInOne(b: Bin)
    ensures ItemsIn([b]) == multiset(b.items)
  {
    assert ItemsIn([b][..0]) == multiset{};
  }

  lemma {:induction false} InsertItems(b: Bin, bins: seq<Bin>)
    ensures ItemsIn(Insert(b, bins)) == multiset(b.items) + ItemsIn(bins)
  {
    ItemsInOne(b);
    if bins == [] || !Less(b, bins[0]) {
      ItemsInConcat([b], bins);
    } else {
      ItemsInOne(bins[0]);
      InsertItems(b, bins[1..]);
      ItemsInConcat([bins[0]], Insert(b, bins[1..]));
      ItemsInConcat([bins[0]], bins[1..]);
      assert bins == [bins[0]] + bins[1..];
    }
  }

  lemma {:induction false} DescendingItems(bins: seq<Bin>)
    ensures ItemsIn(Descending(bins)) == ItemsIn(bins)
  {
    if bins != [] {
      DescendingItems(bins[1..]);
      InsertItems(bins[0], Descending(bins[1..]));
      ItemsInOne(bins[0]);
      ItemsInConcat([bins[0]], bins[1..]);
      assert bins == [bins[0]] + bins[1..];
    }
  }

  lemma ItemsInCons(b: Bin, bins: seq<Bin>)
    ensures ItemsIn([b] + bins) == multiset(b.items) + ItemsIn(bins)
  {
    ItemsInConcat([b], bins);
    ItemsInOne(b);
  }

  ghost predicate Pairs(c: seq<Bin>, a: seq<Bin>, b: seq<Bin>) {
    |c| == |a| == |b| && forall i :: 0 <= i < |c| ==> multiset(c[i].items) == multiset(a[i].items) + multiset(b[|b| - 1 - i].items)
  }

  lemma {:induction false} PairsItems(c: seq<Bin>, a: seq<Bin>, b: seq<Bin>)
    requires Pairs(c, a, b)
    ensures ItemsIn(c) == ItemsIn(a) + ItemsIn(b)
  {
    if c != [] {
      var n := |c| - 1;
      PairsItems(c[..n], a[..n], b[1..]);
      ItemsInCons(b[0], b[1..]);
      assert b == [b[0]] + b[1..];
    }
  }

  lemma MergeItems(a: seq<Bin>, b: seq<Bin>)
    requires |a| == |b|
    ensures ItemsIn(Merge(a, b)) == ItemsIn(a) + ItemsIn(b)
  {
    DescendingItems(Crossed(a, b));
    PairsItems(Crossed(a, b), a, b);
  }

  ghost function HeapItems(heap: seq<seq<Bin>>): multiset<Item> {
    if heap == [] then multiset{} else ItemsIn(heap[0]) + HeapItems(heap[1..])
  }

  lemma {:induction false} PushItems(heap: seq<seq<Bin>>, state: seq<Bin>)
    requires state != [] && forall i :: 0 <= i < |heap| ==> heap[i] != []
    ensures HeapItems(Push(heap, state)) == HeapItems(heap) + ItemsIn(state)
  {
    if heap == [] || Precedes(state, heap[0]) {
      assert ([state] + heap)[1..] == heap;
    } else {
      PushItems(heap[1..], state);
      assert ([heap[0]] + Push(heap[1..], state))[1..] == Push(heap[1..], state);
    }
  }

  lemma NextItems(heap: seq<seq<Bin>>, k: nat)
    requires HeapOk(heap, k) && |heap| > 1
    ensures HeapItems(Next(heap, k)) == HeapItems(heap)
  {
    MergeOk(heap[0], heap[1], k);
    MergeItems(heap[0], heap[1]);
    PushItems(heap[2..], Merge(heap[0], heap[1]));
    assert heap[1..][1..] == heap[2..];
  }

  lemma {:induction false} MergeAllItems(heap: seq<seq<Bin>>, k: nat)
    requires HeapOk(heap, k) && heap != []
    ensures ItemsIn(MergeAll(heap, k)) == HeapItems(heap)
    decreases |heap|
  {
    if |heap| == 1 {
      assert heap[1..] == [];
    } else {
      NextOk(heap, k);
      NextItems(heap, k);
      MergeAllItems(Next(heap, k), k);
    }
  }

  // ---------------------------------------------------------------- no bin stays empty

  /** The first p bins, and only they, have items. */
  ghost predicate FilledTo(state: seq<Bin>, p: nat) {
    p <= |state| && forall i :: 0 <= i < |state| ==> (state[i].items != [] <==> i < p)
  }

  lemma {:induction false} SumNonNegative(items: seq<Item>)
    requires forall i :: 0 <= i < |items| ==> items[i].val >= 0
    ensures SumOf(items) >= 0
  {
    if items != [] { SumNonNegative(items[..|items| - 1]); }
  }

  ghost predicate WeightsOk(bins: seq<Bin>) {
    forall i :: 0 <= i < |bins| ==> GoodBin(bins[i])
  }

  ghost predicate GoodBin(b: Bin) {
    BinOk(b) && forall j :: 0 <= j < |b.items| ==> b.items[j].val >= 0
  }

  lemma JoinGood(a: Bin, b: Bin)
    requires GoodBin(a) && GoodBin(b)
    ensures GoodBin(Join(a, b))
  {
    SumOfConcat(a.items, b.items);
  }

  lemma DescendingWeights(bins: seq<Bin>)
    requires WeightsOk(bins)
    ensures WeightsOk(Descending(bins))
  {
    DescendingOrdered(bins);
    hide GoodBin, Descending;
    forall i | 0 <= i < |Descending(bins)| ensures GoodBin(Descending(bins)[i]) {
      assert Descending(bins)[i] in bins;
    }
  }

  ghost function Filled(bins: seq<Bin>): nat {
    if bins == [] then 0 else Filled(bins[1..]) + if bins[0].items != [] then 1 else 0
  }

  lemma {:induction false} FilledConcat(a: seq<Bin>, b: seq<Bin>)
    ensures Filled(a + b) == Filled(a) + Filled(b)
  {
    if a == [] {
      assert a + b == b;
    } else {
      FilledConcat(a[1..], b);
      assert (a + b)[1..] == a[1..] + b;
    }
  }

  lemma {:induction false} InsertFilled(b: Bin, bins: seq<Bin>)
    ensures Filled(Insert(b, bins)) == Filled(bins) + if b.items != [] then 1 else 0
  {
    if bins == [] || !Less(b, bins[0]) {
      assert ([b] + bins)[1..] == bins;
    } else {
      InsertFilled(b, bins[1..]);
      assert ([bins[0]] + Insert(b, bins[1..]))[1..] == Insert(b, bins[1..]);
    }
  }

  lemma {:induction false} DescendingFilled(bins: seq<Bin>)
    ensures Filled(Descending(bins)) == Filled(bins)
  {
    if bins != [] {
      DescendingFilled(bins[1..]);
      InsertFilled(bins[0], Descending(bins[1..]));
    }
  }

  /** In descending order the non-empty bins form a prefix: an empty one has sum 0 and no items, below any other. */
  lemma {:induction false} OrderedIsFilledTo(bins: seq<Bin>)
    requires Ordered(bins) && WeightsOk(bins)
    ensures FilledTo(bins, Filled(bins))
  {
    if bins != [] {
      var rest := bins[1..];
      assert WeightsOk(rest) && Ordered(rest);
      OrderedIsFilledTo(rest);
      if bins[0].items == [] {
        assert bins[0].sum == 0;
        forall i | 1 <= i < |bins| ensures bins[i].items == [] {
          assert AtLeast(bins[0], bins[i]);
          SumNonNegative(bins[i].items);
        }
        FilledNone(rest);
      }
      forall i | 0 <= i < |bins| ensures bins[i].items != [] <==> i < Filled(bins) {
        assert i > 0 ==> rest[i - 1] == bins[i];
      }
    }
  }

  lemma {:induction false} FilledNone(bins: seq<Bin>)
    requires forall i :: 0 <= i < |bins| ==> bins[i].items == []
    ensures Filled(bins) == 0
  {
    if bins != [] { FilledNone(bins[1..]); }
  }

  /** A prefix of p bins crossed with one of q bins fills p + q bins, or all. */
  lemma {:induction false} CrossedFilled(a: seq<Bin>, b: seq<Bin>, p: nat, q: nat, from: nat)
    requires |a| == |b| && FilledTo(a, p) && FilledTo(b, q) && from <= |a|
    ensures Filled(Crossed(a, b)[from..]) == (if p + q >= |a| then |a| - from else (if from < p then p - from else 0) + if from < |a| - q then q else |a| - from)
    decreases |a| - from
  {
    var c := Crossed(a, b);
    if from < |a| {
      CrossedFilled(a, b, p, q, from + 1);
      assert c[from..][1..] == c[from + 1..];
      assert c[from].items != [] <==> from < p || |a| - 1 - from < q;
    }
  }

  ghost function Least(a: nat, b: nat): nat {
    if a < b then a else b
  }

  lemma MergeFilled(a: seq<Bin>, b: seq<Bin>, k: nat)
    requires StateOk(a, k) && StateOk(b, k) && WeightsOk(a) && WeightsOk(b)
    ensures StateOk(Merge(a, b), k) && WeightsOk(Merge(a, b))
    ensures Filled(Merge(a, b)) == Least(k, Filled(a) + Filled(b))
  {
    MergeOk(a, b, k);
    var c, m := Crossed(a, b), Merge(a, b);
    OrderedIsFilledTo(a);
    OrderedIsFilledTo(b);
    CrossedFilled(a, b, Filled(a), Filled(b), 0);
    assert c[0..] == c;
    DescendingFilled(c);
    MergeWeights(a, b, k);
  }

  lemma MergeWeights(a: seq<Bin>, b: seq<Bin>, k: nat)
    requires StateOk(a, k) && StateOk(b, k) && WeightsOk(a) && WeightsOk(b)
    ensures WeightsOk(Merge(a, b))
  {
    hide GoodBin;
    forall i | 0 <= i < k ensures GoodBin(Crossed(a, b)[i]) {
      JoinGood(a[i], b[k - 1 - i]);
    }
    DescendingWeights(Crossed(a, b));
  }

  ghost function HeapFilled(heap: seq<seq<Bin>>): nat {
    if heap == [] then 0 else Filled(heap[0]) + HeapFilled(heap[1..])
  }

  lemma {:induction false} PushFilled(heap: seq<seq<Bin>>, state: seq<Bin>)
    requires state != [] && forall i :: 0 <= i < |heap| ==> heap[i] != []
    ensures HeapFilled(Push(heap, state)) == HeapFilled(heap) + Filled(state)
  {
    if heap == [] || Precedes(state, heap[0]) {
      assert ([state] + heap)[1..] == heap;
    } else {
      PushFilled(heap[1..], state);
      assert ([heap[0]] + Push(heap[1..], state))[1..] == Push(heap[1..], state);
    }
  }

  ghost predicate AllWeightsOk(heap: seq<seq<Bin>>) {
    forall i :: 0 <= i < |heap| ==> WeightsOk(heap[i])
  }

  lemma NextWeights(heap: seq<seq<Bin>>, k: nat)
    requires HeapOk(heap, k) && |heap| > 1 && AllWeightsOk(heap)
    ensures AllWeightsOk(Next(heap, k))
  {
    MergeFilled(heap[0], heap[1], k);
    NextOk(heap, k);
    var h := Next(heap, k);
    hide WeightsOk, Next;
    forall i | 0 <= i < |h| ensures WeightsOk(h[i]) {
      assert h[i] in h;
    }
  }

  lemma MergeFilledOf(heap: seq<seq<Bin>>, k: nat)
    requires HeapOk(heap, k) && |heap| > 1 && AllWeightsOk(heap)
    ensures Filled(Merge(heap[0], heap[1])) == Least(k, Filled(heap[0]) + Filled(heap[1]))
  {
    assert WeightsOk(heap[0]) && WeightsOk(heap[1]) && StateOk(heap[0], k) && StateOk(heap[1], k);
    MergeFilled(heap[0], heap[1], k);
  }

  lemma NextFilled(heap: seq<seq<Bin>>, k: nat)
    requires HeapOk(heap, k) && |heap| > 1 && AllWeightsOk(heap)
    ensures Least(k, HeapFilled(Next(heap, k))) == Least(k, HeapFilled(heap))
  {
    hide *;
    MergeFilledOf(heap, k);
    HeapFilledTwo(heap);
    NextFilledIs(heap, k);
    LeastOf(k, Filled(heap[0]) + Filled(heap[1]), HeapFilled(heap[2..]));
  }

  lemma HeapFilledTwo(heap: seq<seq<Bin>>)
    requires |heap| > 1
    ensures HeapFilled(heap) == Filled(heap[0]) + Filled(heap[1]) + HeapFilled(heap[2..])
  {
    assert heap[1..][1..] == heap[2..];
  }

  lemma NextFilledIs(heap: seq<seq<Bin>>, k: nat)
    requires HeapOk(heap, k) && |heap| > 1
    ensures HeapFilled(Next(heap, k)) == HeapFilled(heap[2..]) + Filled(Merge(heap[0], heap[1]))
  {
    MergeOk(heap[0], heap[1], k);
    PushFilled(heap[2..], Merge(heap[0], heap[1]));
  }

  lemma LeastOf(k: nat, a: nat, b: nat)
    ensures Least(k, b + Least(k, a)) == Least(k, a + b)
  {
  }

  /** At least min(k, the bins filled at first) bins end up filled. */
  lemma {:induction false} MergeAllFilled(heap: seq<seq<Bin>>, k: nat)
    requires HeapOk(heap, k) && heap != [] && AllWeightsOk(heap)
    ensures StateOk(MergeAll(heap, k), k) && WeightsOk(MergeAll(heap, k))
    ensures Filled(MergeAll(heap, k)) >= Least(k, HeapFilled(heap))
    decreases |heap|
  {
    if |heap| == 1 {
      assert HeapFilled(heap[1..]) == 0;
    } else {
      NextOk(heap, k);
      NextWeights(heap, k);
      NextFilled(heap, k);
      MergeAllFilled(Next(heap, k), k);
    }
  }

  // ---------------------------------------------------------------- equal sizes

  ghost predicate Uniform(state: seq<Bin>, size: nat) {
    forall i :: 0 <= i < |state| ==> |state[i].items| == size
  }

  lemma MergeUniform(a: seq<Bin>, b: seq<Bin>, p: nat, q: nat)
    requires |a| == |b| && Uniform(a, p) && Uniform(b, q)
    ensures Uniform(Merge(a, b), p + q)
  {
    DescendingOrdered(Crossed(a, b));
    var m := Merge(a, b);
    forall i | 0 <= i < |m| ensures |m[i].items| == p + q {
      assert m[i] in Crossed(a, b);
    }
  }

  ghost predicate AllUniform(heap: seq<seq<Bin>>) {
    forall i :: 0 <= i < |heap| ==> IsUniform(heap[i])
  }

  ghost predicate IsUniform(state: seq<Bin>) {
    exists size: nat :: Uniform(state, size)
  }

  lemma {:induction false} MergeAllUniform(heap: seq<seq<Bin>>, k: nat) returns (size: nat)
    requires HeapOk(heap, k) && heap != [] && AllUniform(heap)
    ensures Uniform(MergeAll(heap, k), size)
    decreases |heap|
  {
    if |heap| == 1 {
      assert IsUniform(heap[0]);
      size :| Uniform(heap[0], size);
    } else {
      var m := Merge(heap[0], heap[1]);
      assert IsUniform(heap[0]) && IsUniform(heap[1]);
      var p: nat :| Uniform(heap[0], p);
      var q: nat :| Uniform(heap[1], q);
      MergeUniform(heap[0], heap[1], p, q);
      NextOk(heap, k);
      var h := Next(heap, k);
      hide Uniform;
      forall i | 0 <= i < |h| ensures IsUniform(h[i]) {
        assert h[i] in h;
      }
      size := MergeAllUniform(h, k);
    }
  }

  // ---------------------------------------------------------------- the initial heap

  function Label(weights: seq<int>): seq<Item> {
    seq(|weights|, i requires 0 <= i < |weights| => Item(i, weights[i]))
  }

  /** The tuple order (weight, index). */
  predicate Lighter(a: Item, b: Item) {
    a.val < b.val || (a.val == b.val && a.idx <= b.idx)
  }

  function InsertItem(x: Item, items: seq<Item>): seq<Item> {
    if items == [] || Lighter(x, items[0]) then [x] + items else [items[0]] + InsertItem(x, items[1..])
  }

  function Ascending(items: seq<Item>): seq<Item> {
    if items == [] then [] else InsertItem(items[0], Ascending(items[1..]))
  }

  ghost predicate SortedItems(items: seq<Item>) {
    forall i, j :: 0 <= i < j < |items| ==> items[i].val <= items[j].val
  }

  lemma {:induction false} InsertItemAdds(x: Item, items: seq<Item>)
    ensures multiset(InsertItem(x, items)) == multiset(items) + multiset{x}
  {
    if items == [] || Lighter(x, items[0]) {
      assert InsertItem(x, items) == [x] + items;
    } else {
      InsertItemAdds(x, items[1..]);
      assert items == [items[0]] + items[1..];
    }
  }

  lemma {:induction false} InsertItemSorted(x: Item, items: seq<Item>)
    requires SortedItems(items)
    ensures SortedItems(InsertItem(x, items))
  {
    if items == [] || Lighter(x, items[0]) {
      assert InsertItem(x, items) == [x] + items;
    } else {
      InsertItemSorted(x, items[1..]);
      InsertItemAdds(x, items[1..]);
      InsertedMembers(InsertItem(x, items[1..]), x, items[1..]);
      assert items[0].val <= x.val;
      ConsSorted(items[0], InsertItem(x, items[1..]));
    }
  }

  lemma InsertedMembers(r: seq<Item>, x: Item, items: seq<Item>)
    requires multiset(r) == multiset(items) + multiset{x}
    ensures forall y :: y in r ==> y == x || y in items
  {
    forall y | y in r ensures y == x || y in items { assert y in multiset(r); }
  }

  lemma ConsSorted(x: Item, items: seq<Item>)
    requires SortedItems(items) && forall y :: y in items ==> x.val <= y.val
    ensures SortedItems([x] + items)
  {
    forall j | 0 <= j < |items| ensures x.val <= items[j].val { assert items[j] in items; }
  }

  lemma {:induction false} AscendingSorted(items: seq<Item>)
    ensures SortedItems(Ascending(items)) && multiset(Ascending(items)) == multiset(items)
    ensures |Ascending(items)| == |items|
  {
    if items != [] {
      AscendingSorted(items[1..]);
      InsertItemSorted(items[0], Ascending(items[1..]));
      InsertItemAdds(items[0], Ascending(items[1..]));
      assert items == [items[0]] + items[1..];
    }
    assert |multiset(Ascending(items))| == |Ascending(items)| && |multiset(items)| == |items|;
  }

  /** n is a multiple of chunk. */
  predicate Whole(n: nat, chunk: nat)
    requires chunk > 0
  {
    n == 0 || (n >= chunk && Whole(n - chunk, chunk))
  }

  lemma {:induction false} WholeIsMultiple(n: nat, chunk: nat)
    requires chunk > 0
    ensures Whole(n, chunk) <==> n % chunk == 0
  {
    if n >= chunk {
      WholeIsMultiple(n - chunk, chunk);
      SameRemainder(n, chunk);
    }
  }

  lemma SameRemainder(n: nat, chunk: nat)
    requires n >= chunk > 0
    ensures (n - chunk) % chunk == n % chunk
  {
    var q, r := (n - chunk) / chunk, (n - chunk) % chunk;
    assert n == (q + 1) * chunk + r;
    RemainderUnique(n, chunk, q + 1, r);
  }

  lemma RemainderUnique(n: nat, chunk: nat, q: int, r: nat)
    requires r < chunk && n == q * chunk + r
    ensures n % chunk == r
  {
    var d := n / chunk - q;
    assert d * chunk == r - n % chunk;
  }

  lemma {:induction false} WholeOne(n: nat)
    ensures Whole(n, 1)
  {
    if n > 0 { WholeOne(n - 1); }
  }

  /** One state per `chunk` consecutive items. */
  function InitialHeap(items: seq<Item>, k: nat, chunk: nat): (heap: seq<seq<Bin>>)
    requires k > 0 && chunk > 0 && Whole(|items|, chunk)
    ensures HeapOk(heap, k)
  {
    if items == [] then [] else
      var n := |items| - chunk;
      NewStateOk(items[n..], k);
      PushAdds(InitialHeap(items[..n], k, chunk), NewState(items[n..], k), k);
      Push(InitialHeap(items[..n], k, chunk), NewState(items[n..], k))
  }

  lemma FillSnoc(items: seq<Item>, k: nat)
    requires |items| <= k && k > 0
    ensures var less := if |items| == k then items[..k - 1] else items;
            Fill(items, k) == Fill(less, k - 1) + [if |items| == k then Bin(items[k - 1].val, [items[k - 1]]) else Bin(0, [])]
  {
  }

  lemma SnocCounts(bins: seq<Bin>, b: Bin)
    ensures ItemsIn(bins + [b]) == ItemsIn(bins) + multiset(b.items)
    ensures Filled(bins + [b]) == Filled(bins) + if b.items != [] then 1 else 0
  {
    FilledConcat(bins, [b]);
    ItemsInConcat(bins, [b]);
    ItemsInOne(b);
    assert [b][1..] == [];
  }

  ghost predicate HasItems(bins: seq<Bin>, items: seq<Item>) {
    ItemsIn(bins) == multiset(items) && Filled(bins) == |items|
  }

  lemma HasItemsSnoc(bins: seq<Bin>, items: seq<Item>, x: Item)
    requires HasItems(bins, items)
    ensures HasItems(bins + [Bin(x.val, [x])], items + [x]) && HasItems(bins + [Bin(0, [])], items)
  {
    SnocCounts(bins, Bin(x.val, [x]));
    SnocCounts(bins, Bin(0, []));
  }

  lemma {:induction false} FillItems(items: seq<Item>, k: nat)
    requires |items| <= k
    ensures HasItems(Fill(items, k), items)
    decreases k
  {
    if k == 0 {
      assert ItemsIn(Fill(items, 0)) == multiset{} == multiset(items);
    } else {
      FillSnoc(items, k);
      SplitLast(items);
      hide *;
      if |items| == k {
        var less := items[..k - 1];
        FillItems(less, k - 1);
        HasItemsSnoc(Fill(less, k - 1), less, items[k - 1]);
      } else {
        FillItems(items, k - 1);
        HasItemsSnoc(Fill(items, k - 1), items, Item(0, 0));
      }
    }
  }

  lemma SplitLast(items: seq<Item>)
    ensures items != [] ==> items == items[..|items| - 1] + [items[|items| - 1]]
  {
  }

  lemma NewStateItems(items: seq<Item>, k: nat)
    requires 0 < |items| <= k
    ensures ItemsIn(NewState(items, k)) == multiset(items) && Filled(NewState(items, k)) == |items|
  {
    FillItems(items, k);
    DescendingItems(Fill(items, k));
    DescendingFilled(Fill(items, k));
  }

  lemma PushNewState(rest: seq<seq<Bin>>, items: seq<Item>, k: nat)
    requires HeapOk(rest, k) && 0 < |items| <= k
    ensures StateOk(NewState(items, k), k)
    ensures HeapItems(Push(rest, NewState(items, k))) == HeapItems(rest) + multiset(items)
    ensures HeapFilled(Push(rest, NewState(items, k))) == HeapFilled(rest) + |items|
    ensures Push(rest, NewState(items, k)) != []
  {
    NewStateOk(items, k);
    NewStateItems(items, k);
    hide NewState;
    PushItems(rest, NewState(items, k));
    PushFilled(rest, NewState(items, k));
  }

  lemma {:induction false} InitialHeapItems(items: seq<Item>, k: nat, chunk: nat)
    requires k > 0 && 0 < chunk <= k && Whole(|items|, chunk)
    ensures HeapItems(InitialHeap(items, k, chunk)) == multiset(items)
    ensures HeapFilled(InitialHeap(items, k, chunk)) == |items|
    ensures items != [] ==> InitialHeap(items, k, chunk) != []
    decreases |items|
  {
    if items != [] {
      var n := |items| - chunk;
      InitialHeapItems(items[..n], k, chunk);
      PushNewState(InitialHeap(items[..n], k, chunk), items[n..], k);
      SplitItems(items, n);
      hide *;
      assert InitialHeap(items, k, chunk) == Push(InitialHeap(items[..n], k, chunk), NewState(items[n..], k)) by { InitialHeapStep(items, k, chunk); }
    }
  }

  lemma SplitItems(items: seq<Item>, n: nat)
    requires n <= |items|
    ensures multiset(items) == multiset(items[..n]) + multiset(items[n..])
  {
    assert items == items[..n] + items[n..];
  }

  lemma InitialHeapStep(items: seq<Item>, k: nat, chunk: nat)
    requires k > 0 && chunk > 0 && Whole(|items|, chunk) && items != []
    ensures StateOk(NewState(items[|items| - chunk..], k), k)
    ensures var n := |items| - chunk; InitialHeap(items, k, chunk) == Push(InitialHeap(items[..n], k, chunk), NewState(items[n..], k))
  {
    NewStateOk(items[|items| - chunk..], k);
  }

  /** The weights that one state can spread over: of one item, or of a chunk of k in ascending order. */
  ghost function Gap(chunk: seq<Item>, k: nat): int
    requires chunk != []
  {
    if |chunk| == k then chunk[k - 1].val - chunk[0].val else chunk[|chunk| - 1].val
  }

  lemma NewStateSpread(items: seq<Item>, k: nat)
    requires k > 0 && (|items| == k || |items| == 1) && SortedItems(items) && forall i :: 0 <= i < |items| ==> items[i].val >= 0
    ensures StateOk(NewState(items, k), k) && Spread(NewState(items, k)) <= Gap(items, k)
  {
    NewStateOk(items, k);
    var f, m := Fill(items, k), NewState(items, k);
    DescendingOrdered(f);
    assert m[0] in f && m[k - 1] in f;
    var i :| 0 <= i < k && f[i] == m[0];
    var j :| 0 <= j < k && f[j] == m[k - 1];
    hide NewState, StateOk, Descending;
    assert f[i].sum == (if i < |items| then items[i].val else 0) && f[j].sum == if j < |items| then items[j].val else 0;
    if |items| == k {
      assert items[i].val <= items[k - 1].val && items[0].val <= items[j].val;
    }
  }

  lemma NewStateWeights(items: seq<Item>, k: nat)
    requires k > 0 && forall i :: 0 <= i < |items| ==> items[i].val >= 0
    ensures WeightsOk(NewState(items, k))
  {
    forall i | 0 <= i < k ensures GoodBin(Fill(items, k)[i]) {
      assert SumOf([]) == 0;
      assert i < |items| ==> [items[i]][..0] == [];
    }
    DescendingWeights(Fill(items, k));
  }

  ghost predicate GapsWithin(items: seq<Item>, k: nat, chunk: nat, bound: int)
    requires chunk > 0 && Whole(|items|, chunk)
  {
    items == [] || (Gap(items[|items| - chunk..], k) <= bound && GapsWithin(items[..|items| - chunk], k, chunk, bound))
  }

  lemma {:induction false} InitialHeapSpreads(items: seq<Item>, k: nat, chunk: nat, bound: int)
    requires k > 0 && (chunk == k || chunk == 1) && Whole(|items|, chunk)
    requires SortedItems(items) && (forall i :: 0 <= i < |items| ==> items[i].val >= 0)
    requires GapsWithin(items, k, chunk, bound)
    ensures SpreadsWithin(InitialHeap(items, k, chunk), k, bound) && AllWeightsOk(InitialHeap(items, k, chunk))
    decreases |items|
  {
    if items != [] {
      var n := |items| - chunk;
      var rest, state := InitialHeap(items[..n], k, chunk), NewState(items[n..], k);
      assert GapsWithin(items[..n], k, chunk, bound) && Gap(items[n..], k) <= bound && |items[n..]| == chunk;
      assert Whole(|items[..n]|, chunk);
      hide Whole, GapsWithin, Gap;
      SortedSlices(items, n);
      InitialHeapStep(items, k, chunk);
      hide *;
      InitialHeapSpreads(items[..n], k, chunk, bound);
      NewStateSpread(items[n..], k);
      NewStateWeights(items[n..], k);
      PushSpreads(rest, state, k, bound);
    }
  }

  lemma SortedSlices(items: seq<Item>, n: nat)
    requires n <= |items| && SortedItems(items) && forall i :: 0 <= i < |items| ==> items[i].val >= 0
    ensures SortedItems(items[..n]) && SortedItems(items[n..])
    ensures (forall i :: 0 <= i < |items[..n]| ==> items[..n][i].val >= 0) && forall i :: 0 <= i < |items[n..]| ==> items[n..][i].val >= 0
  {
  }

  lemma PushSpreads(heap: seq<seq<Bin>>, state: seq<Bin>, k: nat, bound: int)
    requires HeapOk(heap, k) && StateOk(state, k) && SpreadsWithin(heap, k, bound) && AllWeightsOk(heap)
    requires Spread(state) <= bound && WeightsOk(state)
    ensures HeapOk(Push(heap, state), k) && SpreadsWithin(Push(heap, state), k, bound) && AllWeightsOk(Push(heap, state))
  {
    PushAdds(heap, state, k);
    var h := Push(heap, state);
    hide Spread, WeightsOk, StateOk, Push;
    forall i | 0 <= i < |h| ensures Spread(h[i]) <= bound && WeightsOk(h[i]) {
      assert h[i] in h;
    }
  }

  lemma NewStateUniform(items: seq<Item>, k: nat)
    requires |items| == k > 0
    ensures Uniform(NewState(items, k), 1)
  {
    var f, state := Fill(items, k), NewState(items, k);
    DescendingOrdered(f);
    forall i | 0 <= i < |state| ensures |state[i].items| == 1 {
      assert state[i] in f;
    }
  }

  lemma PushUniform(heap: seq<seq<Bin>>, state: seq<Bin>, k: nat)
    requires HeapOk(heap, k) && StateOk(state, k) && AllUniform(heap) && IsUniform(state)
    ensures state != [] && AllUniform(Push(heap, state))
  {
    PushAdds(heap, state, k);
    hide StateOk, IsUniform, Push;
    var h := Push(heap, state);
    forall i | 0 <= i < |h| ensures IsUniform(h[i]) {
      assert h[i] in h;
    }
  }

  lemma {:induction false} InitialHeapUniform(items: seq<Item>, k: nat)
    requires k > 0 && Whole(|items|, k)
    ensures AllUniform(InitialHeap(items, k, k))
    decreases |items|
  {
    if items != [] {
      var n := |items| - k;
      InitialHeapUniform(items[..n], k);
      NewStateOk(items[n..], k);
      NewStateUniform(items[n..], k);
      assert IsUniform(NewState(items[n..], k));
      InitialHeapStep(items, k, k);
      hide *;
      PushUniform(InitialHeap(items[..n], k, k), NewState(items[n..], k), k);
    }
  }

  // ---------------------------------------------------------------- the partitions

  function Chunk(k: nat, equalSize: bool): nat {
    if equalSize then k else 1
  }

  ghost predicate Fits(weights: seq<int>, k: nat, equalSize: bool) {
    k > 0 && |weights| >= k && (equalSize ==> Whole(|weights|, k))
  }

  /** karmarkar_karp, before the indexes are read off the final state. */
  function FinalState(weights: seq<int>, k: nat, equalSize: bool): seq<Bin>
    requires Fits(weights, k, equalSize)
  {
    var items := Ascending(Label(weights));
    AscendingSorted(Label(weights));
    WholeOne(|weights|);
    var heap := InitialHeap(items, k, Chunk(k, equalSize));
    InitialHeapItems(items, k, Chunk(k, equalSize));
    MergeAll(heap, k)
  }

  lemma LabelNonNegative(weights: seq<int>)
    requires forall i :: 0 <= i < |weights| ==> weights[i] >= 0
    ensures var items := Ascending(Label(weights)); forall i :: 0 <= i < |items| ==> items[i].val >= 0
  {
    var items := Ascending(Label(weights));
    AscendingSorted(Label(weights));
    forall i | 0 <= i < |items| ensures items[i].val >= 0 {
      assert items[i] in multiset(items);
      assert items[i] in Label(weights);
    }
  }

  /** Every labelled weight is in the final state exactly once; for weights >= 0 no bin is empty. */
  lemma FinalCover(weights: seq<int>, k: nat, equalSize: bool)
    requires Fits(weights, k, equalSize)
    ensures |FinalState(weights, k, equalSize)| == k
    ensures ItemsIn(FinalState(weights, k, equalSize)) == multiset(Label(weights))
    ensures (forall i :: 0 <= i < |weights| ==> weights[i] >= 0) ==>
              forall i :: 0 <= i < k ==> FinalState(weights, k, equalSize)[i].items != []
  {
    var items := Ascending(Label(weights));
    AscendingSorted(Label(weights));
    WholeOne(|weights|);
    var c := Chunk(k, equalSize);
    var heap := InitialHeap(items, k, c);
    InitialHeapItems(items, k, c);
    MergeAllItems(heap, k);
    MergeAllOk(heap, k);
    if forall i :: 0 <= i < |weights| ==> weights[i] >= 0 {
      LabelNonNegative(weights);
      InitialHeapFull(items, k, c);
    }
  }

  lemma InitialHeapFull(items: seq<Item>, k: nat, chunk: nat)
    requires k > 0 && (chunk == k || chunk == 1) && Whole(|items|, chunk) && |items| >= k
    requires SortedItems(items) && (forall i :: 0 <= i < |items| ==> items[i].val >= 0)
    ensures InitialHeap(items, k, chunk) != []
    ensures forall i :: 0 <= i < k ==> i < |MergeAll(InitialHeap(items, k, chunk), k)| && MergeAll(InitialHeap(items, k, chunk), k)[i].items != []
  {
    var heap := InitialHeap(items, k, chunk);
    InitialHeapItems(items, k, chunk);
    var bound := AnyBound(items, k, chunk);
    InitialHeapSpreads(items, k, chunk, bound);
    MergeAllFilled(heap, k);
    hide InitialHeap, MergeAll, WeightsOk;
    OrderedIsFilledTo(MergeAll(heap, k));
    FilledAtMost(MergeAll(heap, k));
  }

  lemma {:induction false} MergeAllOk(heap: seq<seq<Bin>>, k: nat)
    requires HeapOk(heap, k) && heap != []
    ensures StateOk(MergeAll(heap, k), k)
    decreases |heap|
  {
    if |heap| > 1 {
      NextOk(heap, k);
      MergeAllOk(Next(heap, k), k);
    }
  }

  lemma {:induction false} FilledAtMost(bins: seq<Bin>)
    ensures Filled(bins) <= |bins|
  {
    if bins != [] { FilledAtMost(bins[1..]); }
  }

  lemma {:induction false} AnyBound(items: seq<Item>, k: nat, chunk: nat) returns (bound: int)
    requires chunk > 0 && Whole(|items|, chunk)
    ensures GapsWithin(items, k, chunk, bound)
    decreases |items|
  {
    bound := 0;
    if items != [] {
      var n := |items| - chunk;
      var b := AnyBound(items[..n], k, chunk);
      var g := Gap(items[n..], k);
      bound := if b > g then b else g;
      GapsMonotone(items[..n], k, chunk, b, bound);
    }
  }

  lemma {:induction false} GapsMonotone(items: seq<Item>, k: nat, chunk: nat, b: int, c: int)
    requires chunk > 0 && Whole(|items|, chunk) && b <= c && GapsWithin(items, k, chunk, b)
    ensures GapsWithin(items, k, chunk, c)
    decreases |items|
  {
    if items != [] { GapsMonotone(items[..|items| - chunk], k, chunk, b, c); }
  }
}
