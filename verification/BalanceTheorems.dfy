/** What balanced partitioning promises: an exact cover, no empty part, equal sizes on request, and a bounded spread. */
module BalanceTheorems {
  import opened Prelude
  import opened Balance

  // ---------------------------------------------------------------- reading the indexes off the bins

  function InsertIndex(x: nat, s: seq<nat>): seq<nat> {
    if s == [] || x <= s[0] then [x] + s else [s[0]] + InsertIndex(x, s[1..])
  }

  /** The indexes of the items, in ascending order. */
  function Indexes(items: seq<Item>): seq<nat> {
    if items == [] then [] else InsertIndex(items[|items| - 1].idx, Indexes(items[..|items| - 1]))
  }

  lemma NoIndexes(items: seq<Item>)
    ensures Indexes(items) == [] <==> items == []
  {
  }

  /** What get_seqlen_balanced_partitions returns when its checks pass. */
  function Partitions(weights: seq<int>, k: nat, equalSize: bool): seq<seq<nat>>
    requires Fits(weights, k, equalSize)
  {
    var bins := FinalState(weights, k, equalSize);
    seq(|bins|, i requires 0 <= i < |bins| => Indexes(bins[i].items))
  }

  ghost predicate StrictlyAscending(s: seq<nat>) {
    forall i, j :: 0 <= i < j < |s| ==> s[i] < s[j]
  }

  ghost function Weight(weights: seq<int>, part: seq<nat>): int
    requires forall i :: 0 <= i < |part| ==> part[i] < |weights|
  {
    if part == [] then 0 else weights[part[0]] + Weight(weights, part[1..])
  }

  /** Distinct labelled items give strictly ascending indexes of the same total weight. */
  lemma {:induction false} InsertIndexKeeps(x: nat, s: seq<nat>, weights: seq<int>)
    requires StrictlyAscending(s) && x !in s && x < |weights| && forall i :: 0 <= i < |s| ==> s[i] < |weights|
    ensures var r := InsertIndex(x, s);
            && StrictlyAscending(r) && |r| == |s| + 1 && (forall y :: y in r <==> y == x || y in s)
            && (forall i :: 0 <= i < |r| ==> r[i] < |weights|) && Weight(weights, r) == weights[x] + Weight(weights, s)
  {
    if s == [] || x <= s[0] {
      assert ([x] + s)[1..] == s;
    } else {
      var r := InsertIndex(x, s[1..]);
      ConsIndexes(s);
      assert x !in s[1..] && Weight(weights, s) == weights[s[0]] + Weight(weights, s[1..]) && s[0] < |weights|;
      InsertIndexKeeps(x, s[1..], weights);
      assert ([s[0]] + r)[1..] == r;
      assert forall y :: y in r ==> s[0] < y;
      hide StrictlyAscending;
      ConsAscending(s[0], r);
    }
  }

  lemma ConsIndexes(s: seq<nat>)
    requires s != [] && StrictlyAscending(s)
    ensures StrictlyAscending(s[1..]) && (forall y :: y in s[1..] ==> s[0] < y) && forall y :: y in s <==> y == s[0] || y in s[1..]
  {
  }

  lemma ConsAscending(x: nat, s: seq<nat>)
    requires StrictlyAscending(s) && forall y :: y in s ==> x < y
    ensures StrictlyAscending([x] + s)
  {
    forall j | 0 <= j < |s| ensures x < s[j] { assert s[j] in s; }
  }

  ghost predicate Labelled(items: seq<Item>, weights: seq<int>) {
    && (forall i :: 0 <= i < |items| ==> items[i].idx < |weights| && items[i].val == weights[items[i].idx])
    && Distinct(items)
  }

  lemma {:induction false} IndexesOk(items: seq<Item>, weights: seq<int>)
    requires Labelled(items, weights)
    ensures var r := Indexes(items);
            && StrictlyAscending(r) && |r| == |items|
            && (forall y :: y in r <==> HasIndex(items, y))
            && (forall i :: 0 <= i < |r| ==> r[i] < |weights|) && Weight(weights, r) == SumOf(items)
  {
    if items != [] {
      var n := |items| - 1;
      IndexesOk(items[..n], weights);
      var s, x := Indexes(items[..n]), items[n].idx;
      forall i | 0 <= i < n ensures items[..n][i].idx != x {
        assert items[i] != items[n];
      }
      assert x !in s && x < |weights|;
      assert SumOf(items) == SumOf(items[..n]) + weights[x] && Indexes(items) == InsertIndex(x, s);
      hide *;
      InsertIndexKeeps(x, s, weights);
      SnocIndex(items);
    }
  }

  ghost predicate HasIndex(items: seq<Item>, y: int) {
    exists i :: 0 <= i < |items| && items[i].idx == y
  }

  lemma SnocIndex(items: seq<Item>)
    requires items != []
    ensures forall y :: HasIndex(items, y) <==> y == items[|items| - 1].idx || HasIndex(items[..|items| - 1], y)
  {
    var n := |items| - 1;
    forall y ensures HasIndex(items, y) <==> y == items[n].idx || HasIndex(items[..n], y) {
      if i :| 0 <= i < |items| && items[i].idx == y { assert i < n ==> items[..n][i].idx == y; }
      if i :| 0 <= i < n && items[..n][i].idx == y { assert items[i].idx == y; }
    }
  }

  // ---------------------------------------------------------------- each item is in exactly one bin

  lemma {:induction false} BinWithin(bins: seq<Bin>, p: nat)
    requires p < |bins|
    ensures multiset(bins[p].items) <= ItemsIn(bins)
  {
    if p < |bins| - 1 { BinWithin(bins[..|bins| - 1], p); }
  }

  lemma {:induction false} TwoBinsWithin(bins: seq<Bin>, p: nat, q: nat)
    requires p < q < |bins|
    ensures multiset(bins[p].items) + multiset(bins[q].items) <= ItemsIn(bins)
  {
    if q < |bins| - 1 {
      TwoBinsWithin(bins[..|bins| - 1], p, q);
    } else {
      BinWithin(bins[..|bins| - 1], p);
    }
  }

  lemma {:induction false} SomeBinHas(bins: seq<Bin>, x: Item)
    requires x in ItemsIn(bins)
    ensures exists p :: 0 <= p < |bins| && x in bins[p].items
  {
    var n := |bins| - 1;
    if x in bins[n].items {
    } else {
      SomeBinHas(bins[..n], x);
      var p :| 0 <= p < |bins[..n]| && x in bins[..n][p].items;
      assert x in bins[p].items;
    }
  }

  lemma DistinctItems(items: seq<Item>, all: multiset<Item>)
    requires multiset(items) <= all && forall x :: all[x] <= 1
    ensures Distinct(items)
  {
    forall i, j | 0 <= i < j < |items| ensures items[i] != items[j] {
      if items[i] == items[j] { TwoOccurrences(items, i, j); }
    }
  }

  lemma LabelOnce(weights: seq<int>)
    ensures forall x :: multiset(Label(weights))[x] <= 1
    ensures forall x :: x in multiset(Label(weights)) <==> x.idx < |weights| && x.val == weights[x.idx]
  {
    var l := Label(weights);
    forall x ensures multiset(l)[x] <= 1 {
      LabelOnceUpTo(l, |l|, x);
      assert l[..|l|] == l;
    }
    forall x ensures x in multiset(l) <==> x.idx < |weights| && x.val == weights[x.idx] {
      if x.idx < |weights| && x.val == weights[x.idx] { assert l[x.idx] == x; }
    }
  }

  lemma {:induction false} LabelOnceUpTo(l: seq<Item>, n: nat, x: Item)
    requires n <= |l| && forall i :: 0 <= i < |l| ==> l[i].idx == i
    ensures multiset(l[..n])[x] <= (if x.idx < n then 1 else 0)
  {
    if n > 0 {
      LabelOnceUpTo(l, n - 1, x);
      assert l[..n] == l[..n - 1] + [l[n - 1]];
    }
  }

  lemma FinalLabelled(weights: seq<int>, k: nat, equalSize: bool, p: nat)
    requires Fits(weights, k, equalSize) && p < k
    ensures |FinalState(weights, k, equalSize)| == k
    ensures Labelled(FinalState(weights, k, equalSize)[p].items, weights)
  {
    FinalCover(weights, k, equalSize);
    LabelOnce(weights);
    var bins := FinalState(weights, k, equalSize);
    BinWithin(bins, p);
    hide FinalState;
    DistinctItems(bins[p].items, ItemsIn(bins));
    forall i | 0 <= i < |bins[p].items| ensures var x := bins[p].items[i]; x.idx < |weights| && x.val == weights[x.idx] {
      assert bins[p].items[i] in multiset(bins[p].items);
    }
  }

  // ---------------------------------------------------------------- the guarantees

  /** Every index below n is in exactly one part, once; parts are listed in ascending order. */
  ghost predicate ExactCover(parts: seq<seq<nat>>, n: nat) {
    && (forall p :: 0 <= p < |parts| ==> StrictlyAscending(parts[p]) && forall x :: x in parts[p] ==> x < n)
    && (forall x: nat :: x < n ==> InSomePart(parts, x))
    && (forall p, q :: 0 <= p < q < |parts| ==> Disjoint(parts[p], parts[q]))
  }

  ghost predicate InSomePart(parts: seq<seq<nat>>, x: nat) {
    exists p :: 0 <= p < |parts| && x in parts[p]
  }

  ghost predicate Disjoint(a: seq<nat>, b: seq<nat>) {
    forall x :: x in a ==> x !in b
  }

  /** The cover check of the source can never fail. */
  lemma PartitionsCover(weights: seq<int>, k: nat, equalSize: bool)
    requires Fits(weights, k, equalSize)
    ensures |Partitions(weights, k, equalSize)| == k && ExactCover(Partitions(weights, k, equalSize), |weights|)
  {
    var bins, parts := FinalState(weights, k, equalSize), Partitions(weights, k, equalSize);
    FinalCover(weights, k, equalSize);
    LabelOnce(weights);
    hide FinalState, StrictlyAscending;
    forall p | 0 <= p < k ensures StrictlyAscending(parts[p]) && forall x :: x in parts[p] ==> x < |weights| {
      FinalLabelled(weights, k, equalSize, p);
      IndexesOk(bins[p].items, weights);
    }
    forall x: nat | x < |weights| ensures InSomePart(parts, x) {
      PartOf(weights, k, equalSize, x);
    }
    forall p, q | 0 <= p < q < k ensures Disjoint(parts[p], parts[q]) {
      PartsDisjoint(weights, k, equalSize, p, q);
    }
  }

  /** A part lists exactly the indexes of the items in its bin. */
  lemma PartHas(weights: seq<int>, k: nat, equalSize: bool, p: nat, x: nat)
    requires Fits(weights, k, equalSize) && p < k && x < |weights|
    ensures |Partitions(weights, k, equalSize)| == k == |FinalState(weights, k, equalSize)|
    ensures x in Partitions(weights, k, equalSize)[p] <==> Item(x, weights[x]) in multiset(FinalState(weights, k, equalSize)[p].items)
  {
    FinalLabelled(weights, k, equalSize, p);
    var items := FinalState(weights, k, equalSize)[p].items;
    IndexesOk(items, weights);
    hide FinalState, Indexes;
    if i :| 0 <= i < |items| && items[i].idx == x { assert items[i] == Item(x, weights[x]); }
    if i :| 0 <= i < |items| && items[i] == Item(x, weights[x]) { assert items[i].idx == x; }
  }

  lemma PartOf(weights: seq<int>, k: nat, equalSize: bool, x: nat)
    requires Fits(weights, k, equalSize) && x < |weights|
    ensures InSomePart(Partitions(weights, k, equalSize), x)
  {
    var bins, parts := FinalState(weights, k, equalSize), Partitions(weights, k, equalSize);
    FinalCover(weights, k, equalSize);
    LabelOnce(weights);
    var item := Item(x, weights[x]);
    SomeBinHas(bins, item);
    var p :| 0 <= p < |bins| && item in bins[p].items;
    PartHas(weights, k, equalSize, p, x);
    assert x in parts[p];
  }

  lemma PartsDisjoint(weights: seq<int>, k: nat, equalSize: bool, p: nat, q: nat)
    requires Fits(weights, k, equalSize) && p < q < k
    ensures |Partitions(weights, k, equalSize)| == k
    ensures Disjoint(Partitions(weights, k, equalSize)[p], Partitions(weights, k, equalSize)[q])
  {
    var bins, parts := FinalState(weights, k, equalSize), Partitions(weights, k, equalSize);
    FinalCover(weights, k, equalSize);
    LabelOnce(weights);
    TwoBinsWithin(bins, p, q);
    FinalLabelled(weights, k, equalSize, p);
    IndexesOk(bins[p].items, weights);
    hide FinalState, Indexes;
    forall x | x in parts[p] ensures x !in parts[q] {
      PartHas(weights, k, equalSize, p, x);
      PartHas(weights, k, equalSize, q, x);
      assert (multiset(bins[p].items) + multiset(bins[q].items))[Item(x, weights[x])] <= 1;
    }
  }

  // ---------------------------------------------------------------- balance

  /** The part lists as many indexes as its bin has items, of the same total weight. */
  ghost predicate PartMatches(weights: seq<int>, part: seq<nat>, bin: Bin) {
    |part| == |bin.items| && (forall i :: 0 <= i < |part| ==> part[i] < |weights|) && Weight(weights, part) == SumOf(bin.items)
  }

  lemma PartIs(weights: seq<int>, k: nat, equalSize: bool, p: nat)
    requires Fits(weights, k, equalSize) && p < k
    ensures |Partitions(weights, k, equalSize)| == k == |FinalState(weights, k, equalSize)|
    ensures PartMatches(weights, Partitions(weights, k, equalSize)[p], FinalState(weights, k, equalSize)[p])
  {
    FinalLabelled(weights, k, equalSize, p);
    IndexesOk(FinalState(weights, k, equalSize)[p].items, weights);
  }

  /** With weights >= 0, no part is empty, whether or not equal sizes are asked for. */
  lemma PartitionsNonEmpty(weights: seq<int>, k: nat, equalSize: bool)
    requires Fits(weights, k, equalSize) && forall i :: 0 <= i < |weights| ==> weights[i] >= 0
    ensures |Partitions(weights, k, equalSize)| == k && [] !in Partitions(weights, k, equalSize)
  {
    var parts := Partitions(weights, k, equalSize);
    FinalCover(weights, k, equalSize);
    hide *;
    PartIs(weights, k, equalSize, 0);
    forall p | 0 <= p < |parts| ensures parts[p] != [] {
      PartIs(weights, k, equalSize, p);
      assert FinalState(weights, k, equalSize)[p].items != [];
    }
  }

  lemma FinalUniform(weights: seq<int>, k: nat) returns (size: nat)
    requires Fits(weights, k, true)
    ensures Uniform(FinalState(weights, k, true), size)
  {
    var items := Ascending(Label(weights));
    AscendingSorted(Label(weights));
    InitialHeapItems(items, k, k);
    InitialHeapUniform(items, k);
    size := MergeAllUniform(InitialHeap(items, k, k), k);
  }

  /** Asked for equal sizes, every part has n / k indexes. */
  lemma PartitionsEqual(weights: seq<int>, k: nat)
    requires Fits(weights, k, true)
    ensures forall p :: 0 <= p < k ==> p < |Partitions(weights, k, true)| && |Partitions(weights, k, true)[p]| * k == |weights|
  {
    var size := FinalUniform(weights, k);
    FinalCover(weights, k, true);
    UniformCount(FinalState(weights, k, true), size);
    assert |multiset(Label(weights))| == |weights|;
    assert size * k == |weights|;
    assert |Partitions(weights, k, true)| == k;
    hide *;
    forall p | 0 <= p < k ensures p < |Partitions(weights, k, true)| && |Partitions(weights, k, true)[p]| * k == |weights| {
      PartIs(weights, k, true, p);
      BinSize(FinalState(weights, k, true), size, p);
    }
  }

  lemma {:induction false} UniformCount(bins: seq<Bin>, size: nat)
    requires Uniform(bins, size)
    ensures |ItemsIn(bins)| == size * |bins|
  {
    if bins == [] {
    } else {
      var n := |bins| - 1;
      UniformCount(bins[..n], size);
      assert |ItemsIn(bins)| == |ItemsIn(bins[..n])| + |multiset(bins[n].items)|;
      hide ItemsIn, Uniform;
      assert |multiset(bins[n].items)| == |bins[n].items|;
      Distribute(size, n);
    }
  }

  lemma BinSize(bins: seq<Bin>, size: nat, p: nat)
    requires Uniform(bins, size) && p < |bins|
    ensures |bins[p].items| == size
  {
  }

  lemma Distribute(a: int, n: int)
    ensures a * (n + 1) == a * n + a
  {
  }

  /** The widest weight, or within-chunk difference, that one initial state can spread over. */
  ghost predicate Bounds(weights: seq<int>, k: nat, equalSize: bool, bound: int)
    requires Fits(weights, k, equalSize)
  {
    var items := Ascending(Label(weights));
    if equalSize then
      // the sorted list in chunks of k: last minus first of each
      forall lo :: 0 <= lo && lo + k <= |items| && Whole(lo, k) ==> items[lo + k - 1].val - items[lo].val <= bound
    else
      forall i :: 0 <= i < |weights| ==> weights[i] <= bound
  }

  lemma {:induction false} ChunkGaps(items: seq<Item>, n: nat, k: nat, bound: int)
    requires k > 0 && Whole(n, k) && n <= |items|
    requires forall lo :: 0 <= lo && lo + k <= |items| && Whole(lo, k) ==> items[lo + k - 1].val - items[lo].val <= bound
    ensures GapsWithin(items[..n], k, k, bound)
  {
    if n > 0 {
      ChunkGaps(items, n - k, k, bound);
      assert items[..n][n - k..] == items[n - k..n] && items[..n][..n - k] == items[..n - k];
    }
  }

  lemma {:induction false} SingleGaps(items: seq<Item>, k: nat, bound: int)
    requires k > 0 && Whole(|items|, 1) && forall i :: 0 <= i < |items| ==> 0 <= items[i].val <= bound
    ensures GapsWithin(items, k, 1, bound)
  {
    if items != [] { SingleGaps(items[..|items| - 1], k, bound); }
  }

  lemma BoundsGaps(weights: seq<int>, k: nat, equalSize: bool, bound: int)
    requires Fits(weights, k, equalSize) && Bounds(weights, k, equalSize, bound)
    requires forall i :: 0 <= i < |weights| ==> weights[i] >= 0
    ensures var items := Ascending(Label(weights));
            Whole(|items|, Chunk(k, equalSize)) && GapsWithin(items, k, Chunk(k, equalSize), bound)
  {
    var items := Ascending(Label(weights));
    AscendingSorted(Label(weights));
    LabelNonNegative(weights);
    WholeOne(|items|);
    if equalSize {
      ChunkGaps(items, |items|, k, bound);
      assert items[..|items|] == items;
    } else {
      forall i | 0 <= i < |items| ensures items[i].val <= bound {
        assert items[i] in multiset(items);
        assert items[i] in Label(weights);
      }
      SingleGaps(items, k, bound);
    }
  }

  /** Weights between lo and hi are bounded by hi - lo in this sense. */
  lemma WithinBounds(weights: seq<int>, k: nat, lo: int, hi: int)
    requires Fits(weights, k, true) && forall i :: 0 <= i < |weights| ==> lo <= weights[i] <= hi
    ensures Bounds(weights, k, true, hi - lo)
  {
    var items := Ascending(Label(weights));
    AscendingSorted(Label(weights));
    forall i | 0 <= i < |items| ensures lo <= items[i].val <= hi {
      assert items[i] in multiset(items);
      assert items[i] in Label(weights);
    }
  }

  /** Every round merges two states of the widest spread. */
  ghost predicate WidestFirst(heap: seq<seq<Bin>>) {
    forall i, j :: 0 <= i < j < |heap| ==> heap[i] != [] && heap[j] != [] && Spread(heap[i]) >= Spread(heap[j])
  }

  lemma {:induction false} PushWidest(heap: seq<seq<Bin>>, state: seq<Bin>)
    requires WidestFirst(heap) && state != [] && forall i :: 0 <= i < |heap| ==> heap[i] != []
    ensures WidestFirst(Push(heap, state)) && forall s :: s in Push(heap, state) <==> s == state || s in heap
  {
    if heap != [] && !Precedes(state, heap[0]) {
      assert forall i :: 0 <= i < |heap[1..]| ==> heap[1..][i] == heap[i + 1];
      PushWidest(heap[1..], state);
      var r := Push(heap[1..], state);
      forall i | 0 <= i < |r| ensures r[i] != [] && Spread(heap[0]) >= Spread(r[i]) {
        assert r[i] in r;
      }
      assert forall s :: s in heap <==> s == heap[0] || s in heap[1..];
    }
  }

  lemma {:induction false} InitialWidest(items: seq<Item>, k: nat, chunk: nat)
    requires k > 0 && chunk > 0 && Whole(|items|, chunk)
    ensures WidestFirst(InitialHeap(items, k, chunk))
    decreases |items|
  {
    if items != [] {
      var n := |items| - chunk;
      InitialWidest(items[..n], k, chunk);
      NewStateOk(items[n..], k);
      hide NewState;
      PushWidest(InitialHeap(items[..n], k, chunk), NewState(items[n..], k));
    }
  }

  lemma NextWidest(heap: seq<seq<Bin>>, k: nat)
    requires HeapOk(heap, k) && |heap| > 1 && WidestFirst(heap)
    ensures WidestFirst(Next(heap, k))
    ensures forall s :: s in heap[2..] ==> s != [] && Spread(heap[0]) >= Spread(heap[1]) >= Spread(s)
  {
    MergeOk(heap[0], heap[1], k);
    hide Merge;
    PushWidest(heap[2..], Merge(heap[0], heap[1]));
  }

  /** The heap after m rounds of the merge loop. */
  ghost function Rounds(heap: seq<seq<Bin>>, k: nat, m: nat): (r: seq<seq<Bin>>)
    requires HeapOk(heap, k) && m < |heap|
    ensures HeapOk(r, k) && |r| == |heap| - m
    decreases m
  {
    if m == 0 then heap else
      NextOk(heap, k);
      Rounds(Next(heap, k), k, m - 1)
  }

  /** In every round of the run on these weights, no state left on the heap has a wider spread than the two merged. */
  lemma {:induction false} MergesTheWidest(heap: seq<seq<Bin>>, k: nat, m: nat)
    requires HeapOk(heap, k) && WidestFirst(heap) && m + 1 < |heap|
    ensures var now := Rounds(heap, k, m);
            (forall s :: s in now[2..] ==> s != [] && Spread(now[0]) >= Spread(now[1]) >= Spread(s)) && MergeAll(now, k) == MergeAll(heap, k)
    decreases m
  {
    hide Push, Merge, Precedes, Spread, StateOk;
    NextWidest(heap, k);
    NextOk(heap, k);
    if m > 0 { MergesTheWidest(Next(heap, k), k, m - 1); }
  }

  /** The heaviest and the lightest part differ by no more than the widest initial state. */
  lemma PartitionsBalanced(weights: seq<int>, k: nat, equalSize: bool, bound: int, p: nat, q: nat)
    requires Fits(weights, k, equalSize) && Bounds(weights, k, equalSize, bound) && p < k && q < k
    requires forall i :: 0 <= i < |weights| ==> weights[i] >= 0
    ensures |Partitions(weights, k, equalSize)| == k
    ensures var parts := Partitions(weights, k, equalSize);
            && (forall i :: 0 <= i < |parts[p]| ==> parts[p][i] < |weights|) && (forall i :: 0 <= i < |parts[q]| ==> parts[q][i] < |weights|)
            && Weight(weights, parts[p]) - Weight(weights, parts[q]) <= bound
  {
    FinalSpread(weights, k, equalSize, bound);
    PartIs(weights, k, equalSize, p);
    PartIs(weights, k, equalSize, q);
    var bins := FinalState(weights, k, equalSize);
    hide FinalState, Partitions;
    FirstAndLast(bins, p);
    FirstAndLast(bins, q);
    assert BinOk(bins[p]) && BinOk(bins[q]);
  }

  lemma FirstAndLast(bins: seq<Bin>, p: nat)
    requires Ordered(bins) && p < |bins|
    ensures bins[0].sum >= bins[p].sum >= bins[|bins| - 1].sum
  {
    OrderedSums(bins, p, p);
  }

  lemma FinalSpread(weights: seq<int>, k: nat, equalSize: bool, bound: int)
    requires Fits(weights, k, equalSize) && Bounds(weights, k, equalSize, bound)
    requires forall i :: 0 <= i < |weights| ==> weights[i] >= 0
    ensures StateOk(FinalState(weights, k, equalSize), k) && Spread(FinalState(weights, k, equalSize)) <= bound
  {
    var items, c := Ascending(Label(weights)), Chunk(k, equalSize);
    AscendingSorted(Label(weights));
    LabelNonNegative(weights);
    BoundsGaps(weights, k, equalSize, bound);
    InitialHeapItems(items, k, c);
    InitialHeapSpreads(items, k, c, bound);
    MergeAllSpread(InitialHeap(items, k, c), k, bound);
  }

  ghost function Total(weights: seq<int>, parts: seq<seq<nat>>): int
    requires forall p :: 0 <= p < |parts| ==> forall i :: 0 <= i < |parts[p]| ==> parts[p][i] < |weights|
  {
    if parts == [] then 0 else Weight(weights, parts[0]) + Total(weights, parts[1..])
  }

  /** So k times the heaviest part is at most the total plus (k - 1) times the bound. */
  lemma HeaviestPart(weights: seq<int>, k: nat, equalSize: bool, bound: int, p: nat)
    requires Fits(weights, k, equalSize) && Bounds(weights, k, equalSize, bound) && p < k
    requires forall i :: 0 <= i < |weights| ==> weights[i] >= 0
    ensures |Partitions(weights, k, equalSize)| == k
    ensures forall q :: 0 <= q < k ==> forall i :: 0 <= i < |Partitions(weights, k, equalSize)[q]| ==> Partitions(weights, k, equalSize)[q][i] < |weights|
    ensures k * Weight(weights, Partitions(weights, k, equalSize)[p]) <= Total(weights, Partitions(weights, k, equalSize)) + (k - 1) * bound
  {
    var parts := Partitions(weights, k, equalSize);
    forall q | 0 <= q < k
      ensures |parts| == k && (forall i :: 0 <= i < |parts[q]| ==> parts[q][i] < |weights|) && (forall i :: 0 <= i < |parts[p]| ==> parts[p][i] < |weights|)
      ensures Weight(weights, parts[q]) >= Weight(weights, parts[p]) - bound
    {
      PartitionsBalanced(weights, k, equalSize, bound, p, q);
    }
    hide Partitions, Bounds, Fits;
    TotalAtLeast(weights, parts, p, Weight(weights, parts[p]), bound);
    hide *;
    Expand(k, Weight(weights, parts[p]), bound);
  }

  lemma Expand(k: int, top: int, bound: int)
    ensures k * (top - bound) + bound == k * top - (k - 1) * bound
  {
  }

  lemma {:induction false} TotalAtLeast(weights: seq<int>, parts: seq<seq<nat>>, p: nat, top: int, bound: int)
    requires forall q :: 0 <= q < |parts| ==> forall i :: 0 <= i < |parts[q]| ==> parts[q][i] < |weights|
    requires forall q :: 0 <= q < |parts| ==> Weight(weights, parts[q]) >= if q == p then top else top - bound
    ensures Total(weights, parts) >= |parts| * (top - bound) + if p < |parts| then bound else 0
    decreases |parts|
  {
    if parts != [] {
      assert |parts| * (top - bound) == (|parts| - 1) * (top - bound) + (top - bound);
      if p == 0 {
        TotalAtLeast(weights, parts[1..], |parts|, top, bound);
      } else {
        TotalAtLeast(weights, parts[1..], p - 1, top, bound);
      }
    }
  }
}
