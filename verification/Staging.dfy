/**
 Packing tensors into a staging buffer (transfer_queue/utils/mooncake_utils.py): the groups and the layout of a group.
 */
module Staging {
  import opened Prelude

  const ALIGN: nat := 256

  function Aligned(size: nat): nat {
    (size + ALIGN - 1) / ALIGN * ALIGN
  }

  /** The aligned sizes, added up. */
  function Total(sizes: seq<nat>): nat {
    if sizes == [] then 0 else Total(sizes[..|sizes| - 1]) + Aligned(sizes[|sizes| - 1])
  }

  /** _aligned_offsets: back to back, each at the next multiple of 256. */
  method AlignedOffsets(sizes: seq<nat>) returns (offsets: seq<nat>, total: nat)
    ensures |offsets| == |sizes| && total == Total(sizes) && forall k :: 0 <= k < |sizes| ==> offsets[k] == Total(sizes[..k])
  {
    offsets, total := [], 0;
    for i := 0 to |sizes|
      invariant |offsets| == i && total == Total(sizes[..i]) && forall k :: 0 <= k < i ==> offsets[k] == Total(sizes[..k])
    {
      assert sizes[..i + 1][..i] == sizes[..i];
      offsets := offsets + [total];
      total := total + Aligned(sizes[i]);
    }
    assert sizes[..|sizes|] == sizes;
  }

  lemma AlignedIs(size: nat)
    ensures Aligned(size) % ALIGN == 0 && size <= Aligned(size) < size + ALIGN
  {
  }

  lemma {:induction false} TotalGrows(sizes: seq<nat>, j: nat, k: nat)
    requires j < k <= |sizes|
    ensures Total(sizes[..j]) + Aligned(sizes[j]) <= Total(sizes[..k])
  {
    assert sizes[..k][..k - 1] == sizes[..k - 1];
    if j < k - 1 { TotalGrows(sizes, j, k - 1); }
  }

  lemma {:induction false} TotalAligned(sizes: seq<nat>)
    ensures Total(sizes) % ALIGN == 0
  {
    if sizes != [] {
      TotalAligned(sizes[..|sizes| - 1]);
      AlignedIs(sizes[|sizes| - 1]);
    }
  }

  /** The ranges of a group lie in the buffer, aligned and apart. */
  ghost predicate LaysOut(sizes: seq<nat>, buffer: nat) {
    && (forall k :: 0 <= k < |sizes| ==> Total(sizes[..k]) % ALIGN == 0 && Total(sizes[..k]) + sizes[k] <= buffer)
    && (forall j, k :: 0 <= j < k < |sizes| ==> Total(sizes[..j]) + sizes[j] <= Total(sizes[..k]))
  }

  lemma LayoutFits(sizes: seq<nat>, buffer: nat)
    requires Total(sizes) <= buffer || (|sizes| == 1 && sizes[0] <= buffer)
    ensures LaysOut(sizes, buffer)
  {
    forall k | 0 <= k < |sizes| ensures Total(sizes[..k]) % ALIGN == 0 && Total(sizes[..k]) + sizes[k] <= buffer {
      TotalAligned(sizes[..k]);
      AlignedIs(sizes[k]);
      TotalGrows(sizes, k, |sizes|);
      assert sizes[..|sizes|] == sizes;
      assert k == 0 ==> Total(sizes[..k]) == 0;
    }
    forall j, k | 0 <= j < k < |sizes| ensures Total(sizes[..j]) + sizes[j] <= Total(sizes[..k]) {
      AlignedIs(sizes[j]);
      TotalGrows(sizes, j, k);
    }
  }

  // ---------------------------------------------------------------- the groups

  ghost predicate Indexes(group: seq<nat>, n: nat) {
    forall i :: 0 <= i < |group| ==> group[i] < n
  }

  function Sizes(nbytes: seq<nat>, group: seq<nat>): seq<nat>
    requires forall i :: 0 <= i < |group| ==> group[i] < |nbytes|
  {
    seq(|group|, i requires 0 <= i < |group| => nbytes[group[i]])
  }

  function Insert(nbytes: seq<nat>, i: nat, order: seq<nat>): seq<nat>
    requires i < |nbytes| && forall j :: 0 <= j < |order| ==> order[j] < |nbytes|
  {
    if order == [] || nbytes[i] < nbytes[order[0]] then [i] + order else [order[0]] + Insert(nbytes, i, order[1..])
  }

  lemma {:induction false} InsertIs(nbytes: seq<nat>, i: nat, order: seq<nat>)
    requires i < |nbytes| && Indexes(order, |nbytes|)
    ensures Indexes(Insert(nbytes, i, order), |nbytes|) && multiset(Insert(nbytes, i, order)) == multiset(order) + multiset{i}
  {
    if order == [] || nbytes[i] < nbytes[order[0]] {
      assert Insert(nbytes, i, order) == [i] + order;
    } else {
      InsertIs(nbytes, i, order[1..]);
      assert order == [order[0]] + order[1..];
    }
  }

  /** sorted(range(n), key=size): the indexes in ascending order of size. */
  function Order(nbytes: seq<nat>, n: nat): (order: seq<nat>)
    requires n <= |nbytes|
    ensures forall i :: 0 <= i < |order| ==> order[i] < |nbytes|
  {
    if n == 0 then [] else
      InsertIs(nbytes, n - 1, Order(nbytes, n - 1));
      Insert(nbytes, n - 1, Order(nbytes, n - 1))
  }

  lemma OneMore(m: multiset<nat>, x: nat, i: nat)
    ensures (m + multiset{x})[i] == m[i] + if i == x then 1 else 0
  {
  }

  lemma OrderStep(nbytes: seq<nat>, n: nat)
    requires n < |nbytes|
    ensures multiset(Order(nbytes, n + 1)) == multiset(Order(nbytes, n)) + multiset{n}
  {
    InsertIs(nbytes, n, Order(nbytes, n));
  }

  lemma OrderNone(nbytes: seq<nat>, i: nat)
    ensures multiset(Order(nbytes, 0))[i] == 0
  {
  }

  /** Every index once. */
  lemma {:induction false} OrderIs(nbytes: seq<nat>, n: nat, i: nat)
    requires n <= |nbytes|
    ensures multiset(Order(nbytes, n))[i] == if i < n then 1 else 0
  {
    hide *;
    if n == 0 {
      OrderNone(nbytes, i);
    } else {
      OrderIs(nbytes, n - 1, i);
      OrderStep(nbytes, n - 1);
      OneMore(multiset(Order(nbytes, n - 1)), n - 1, i);
    }
  }

  function Close(current: seq<nat>): seq<seq<nat>> {
    if current == [] then [] else [current]
  }

  /** The rest of the groups, with `current` begun. */
  function Split(nbytes: seq<nat>, buffer: nat, order: seq<nat>, current: seq<nat>): seq<seq<nat>>
    requires forall i :: 0 <= i < |order| ==> order[i] < |nbytes|
    requires forall i :: 0 <= i < |current| ==> current[i] < |nbytes|
    decreases |order|
  {
    if order == [] then Close(current) else
      var i, rest := order[0], order[1..];
      if nbytes[i] > buffer then Close(current) + [[i]] + Split(nbytes, buffer, rest, [])
      else if current != [] && Total(Sizes(nbytes, current)) + Aligned(nbytes[i]) > buffer then [current] + Split(nbytes, buffer, rest, [i])
      else Split(nbytes, buffer, rest, current + [i])
  }

  lemma TotalSnoc(nbytes: seq<nat>, group: seq<nat>, i: nat)
    requires Indexes(group, |nbytes|) && i < |nbytes|
    ensures Indexes(group + [i], |nbytes|) && Total(Sizes(nbytes, group + [i])) == Total(Sizes(nbytes, group)) + Aligned(nbytes[i])
  {
    assert Sizes(nbytes, group + [i])[..|group|] == Sizes(nbytes, group);
  }

  method SplitByBytes(nbytes: seq<nat>, buffer: nat) returns (groups: seq<seq<nat>>)
    ensures groups == Split(nbytes, buffer, Order(nbytes, |nbytes|), [])
  {
    groups := [];
    var current: seq<nat>, currentTotal: nat := [], 0;
    var order := Order(nbytes, |nbytes|);
    var k := 0;
    assert order[0..] == order;
    hide Split, Total, Aligned, Order;
    while k < |order|
      invariant k <= |order| && Indexes(current, |nbytes|) && currentTotal == Total(Sizes(nbytes, current))
      invariant groups + Split(nbytes, buffer, order[k..], current) == Split(nbytes, buffer, order, [])
    {
      var i := order[k];
      assert order[k..][0] == i && order[k..][1..] == order[k + 1..];
      SplitOnce(nbytes, buffer, order[k..], current, groups);
      TotalSnoc(nbytes, current, i);
      TotalSnoc(nbytes, [], i);
      if nbytes[i] > buffer {
        groups := groups + Close(current) + [[i]];
        current, currentTotal := [], 0;
      } else if current != [] && currentTotal + Aligned(nbytes[i]) > buffer {
        groups := groups + [current];
        current, currentTotal := [i], Aligned(nbytes[i]);
        assert [] + [i] == [i];
      } else {
        current := current + [i];
        currentTotal := currentTotal + Aligned(nbytes[i]);
      }
      k := k + 1;
    }
    groups := groups + Close(current);
  }

  /** One turn of the loop, with the groups so far in front. */
  lemma SplitOnce(nbytes: seq<nat>, buffer: nat, order: seq<nat>, current: seq<nat>, groups: seq<seq<nat>>)
    requires Indexes(order, |nbytes|) && Indexes(current, |nbytes|) && order != []
    ensures var i, rest, all := order[0], order[1..], groups + Split(nbytes, buffer, order, current);
            if nbytes[i] > buffer then all == (groups + Close(current) + [[i]]) + Split(nbytes, buffer, rest, [])
            else if current != [] && Total(Sizes(nbytes, current)) + Aligned(nbytes[i]) > buffer then
              all == (groups + [current]) + Split(nbytes, buffer, rest, [i])
            else Indexes(current + [i], |nbytes|) && all == groups + Split(nbytes, buffer, rest, current + [i])
  {
  }

  lemma FlatOne(group: seq<nat>)
    ensures Flat<nat>([group]) == group && Flat<nat>(Close(group)) == group
  {
    assert [group][1..] == [];
  }

  /** The groups, one after the other, are the indexes in ascending order of size. */
  lemma {:induction false} SplitCovers(nbytes: seq<nat>, buffer: nat, order: seq<nat>, current: seq<nat>)
    requires Indexes(order, |nbytes|) && Indexes(current, |nbytes|)
    ensures Flat<nat>(Split(nbytes, buffer, order, current)) == current + order
    decreases |order|
  {
    FlatOne(current);
    if order != [] {
      var i, rest := order[0], order[1..];
      assert Indexes(rest, |nbytes|) && Indexes([i], |nbytes|) && Indexes(current + [i], |nbytes|);
      SplitOnce(nbytes, buffer, order, current, []);
      MoveOne(current, order);
      FlatOne([i]);
      hide *;
      if nbytes[i] > buffer {
        SplitCovers(nbytes, buffer, rest, []);
        FlatThree(current, i, Split(nbytes, buffer, rest, []), rest);
      } else if current != [] && Total(Sizes(nbytes, current)) + Aligned(nbytes[i]) > buffer {
        SplitCovers(nbytes, buffer, rest, [i]);
        FlatTwo(current, Split(nbytes, buffer, rest, [i]), order);
      } else {
        SplitCovers(nbytes, buffer, rest, current + [i]);
        WithoutEmpty(Split(nbytes, buffer, order, current));
      }
    }
  }

  lemma MoveOne(current: seq<nat>, order: seq<nat>)
    requires order != []
    ensures current + order == (current + [order[0]]) + order[1..] && [order[0]] + order[1..] == order
  {
  }

  lemma WithoutEmpty(groups: seq<seq<nat>>)
    ensures [] + groups == groups
  {
  }

  lemma FlatTwo(current: seq<nat>, rest: seq<seq<nat>>, order: seq<nat>)
    requires Flat<nat>(rest) == order
    ensures Flat<nat>(([] + [current]) + rest) == current + order
  {
    FlatOne(current);
    assert [] + [current] == [current];
    FlatConcat<nat>([current], rest);
  }

  lemma FlatThree(current: seq<nat>, i: nat, rest: seq<seq<nat>>, order: seq<nat>)
    requires Flat<nat>(rest) == [] + order
    ensures Flat<nat>(([] + Close(current) + [[i]]) + rest) == (current + [i]) + order
  {
    FlatOne(current);
    FlatOne([i]);
    assert [] + Close(current) == Close(current) && [] + order == order;
    FlatConcat<nat>(Close(current), [[i]]);
    FlatConcat<nat>(Close(current) + [[i]], rest);
  }

  ghost predicate Oversized(nbytes: seq<nat>, buffer: nat, group: seq<nat>) {
    |group| == 1 && group[0] < |nbytes| && nbytes[group[0]] > buffer
  }

  /** Fits when laid out: by its aligned total, or because it is alone. */
  ghost predicate Fitting(nbytes: seq<nat>, buffer: nat, group: seq<nat>) {
    && group != [] && Indexes(group, |nbytes|)
    && (Total(Sizes(nbytes, group)) <= buffer || (|group| == 1 && nbytes[group[0]] <= buffer))
  }

  lemma {:induction false} SplitFits(nbytes: seq<nat>, buffer: nat, order: seq<nat>, current: seq<nat>)
    requires Indexes(order, |nbytes|) && (current == [] || Fitting(nbytes, buffer, current))
    ensures forall g :: g in Split(nbytes, buffer, order, current) ==> Oversized(nbytes, buffer, g) || Fitting(nbytes, buffer, g)
    decreases |order|
  {
    if order != [] {
      var i, rest := order[0], order[1..];
      if nbytes[i] > buffer {
        SplitFits(nbytes, buffer, rest, []);
      } else if current != [] && Total(Sizes(nbytes, current)) + Aligned(nbytes[i]) > buffer {
        SplitFits(nbytes, buffer, rest, [i]);
      } else {
        TotalSnoc(nbytes, current, i);
        SplitFits(nbytes, buffer, rest, current + [i]);
      }
    }
  }

  // ---------------------------------------------------------------- what is promised

  /** Every tensor is in exactly one group; a group is one oversized tensor, or its ranges lie in the buffer. */
  lemma GroupsFit(nbytes: seq<nat>, buffer: nat)
    ensures var groups := Split(nbytes, buffer, Order(nbytes, |nbytes|), []);
            && (forall i: nat :: multiset(Flat<nat>(groups))[i] == if i < |nbytes| then 1 else 0)
            && forall g :: g in groups ==> Oversized(nbytes, buffer, g) || (Indexes(g, |nbytes|) && LaysOut(Sizes(nbytes, g), buffer))
  {
    var groups := Split(nbytes, buffer, Order(nbytes, |nbytes|), []);
    forall i: nat ensures multiset(Flat<nat>(groups))[i] == if i < |nbytes| then 1 else 0 { InOneGroup(nbytes, buffer, i); }
    SplitFits(nbytes, buffer, Order(nbytes, |nbytes|), []);
    hide Split, Flat, Order;
    forall g | g in groups && !Oversized(nbytes, buffer, g) ensures Indexes(g, |nbytes|) && LaysOut(Sizes(nbytes, g), buffer) {
      LayoutFits(Sizes(nbytes, g), buffer);
    }
  }

  // ---------------------------------------------------------------- no more groups than the order needs

  /** Ascending by size; of equal sizes the lower index first. */
  ghost predicate BySize(nbytes: seq<nat>, s: seq<nat>) {
    Indexes(s, |nbytes|) && forall j, k :: 0 <= j < k < |s| ==> Smaller(nbytes, s[j], s[k])
  }

  ghost predicate Smaller(nbytes: seq<nat>, i: nat, j: nat) {
    i < |nbytes| && j < |nbytes| && (nbytes[i] < nbytes[j] || (nbytes[i] == nbytes[j] && i < j))
  }

  lemma {:induction false} InsertBySize(nbytes: seq<nat>, i: nat, order: seq<nat>)
    requires i < |nbytes| && BySize(nbytes, order) && forall j :: j in order ==> j < i
    ensures BySize(nbytes, Insert(nbytes, i, order)) && forall j :: j in Insert(nbytes, i, order) <==> j == i || j in order
  {
    if order == [] || nbytes[i] < nbytes[order[0]] {
      forall k | 0 <= k < |order| ensures Smaller(nbytes, i, order[k]) { assert k > 0 ==> Smaller(nbytes, order[0], order[k]); }
    } else {
      assert forall j :: j in order <==> j == order[0] || j in order[1..];
      assert BySize(nbytes, order[1..]);
      InsertBySize(nbytes, i, order[1..]);
      var r := Insert(nbytes, i, order[1..]);
      forall k | 0 <= k < |r| ensures Smaller(nbytes, order[0], r[k]) {
        assert r[k] in r && order[0] in order;
        if r[k] != i {
          var l :| 0 <= l < |order[1..]| && order[1..][l] == r[k];
          assert Smaller(nbytes, order[0], order[l + 1]);
        }
      }
    }
  }

  lemma {:induction false} OrderBySize(nbytes: seq<nat>, n: nat)
    requires n <= |nbytes|
    ensures BySize(nbytes, Order(nbytes, n)) && forall j :: j in Order(nbytes, n) ==> j < n
  {
    if n > 0 {
      OrderBySize(nbytes, n - 1);
      InsertBySize(nbytes, n - 1, Order(nbytes, n - 1));
    }
  }

  /** A group is closed only before or after an oversized tensor, or when the next tensor does not fit any more. */
  ghost predicate ClosedWhenFull(nbytes: seq<nat>, buffer: nat, groups: seq<seq<nat>>) {
    forall g :: 0 <= g < |groups| - 1 ==> FullBefore(nbytes, buffer, groups[g], groups[g + 1])
  }

  ghost predicate FullBefore(nbytes: seq<nat>, buffer: nat, group: seq<nat>, next: seq<nat>) {
    || Oversized(nbytes, buffer, group) || Oversized(nbytes, buffer, next)
    || (Indexes(group, |nbytes|) && next != [] && next[0] < |nbytes| && Total(Sizes(nbytes, group)) + Aligned(nbytes[next[0]]) > buffer)
  }

  lemma ConsFull(nbytes: seq<nat>, buffer: nat, group: seq<nat>, groups: seq<seq<nat>>)
    requires ClosedWhenFull(nbytes, buffer, groups) && (groups != [] ==> FullBefore(nbytes, buffer, group, groups[0]))
    ensures ClosedWhenFull(nbytes, buffer, [group] + groups)
  {
    hide FullBefore;
    var all := [group] + groups;
    forall g | 0 <= g < |all| - 1 ensures FullBefore(nbytes, buffer, all[g], all[g + 1]) {
      assert g > 0 ==> all[g] == groups[g - 1] && all[g + 1] == groups[g - 1 + 1];
    }
  }

  lemma {:induction false} SplitCloses(nbytes: seq<nat>, buffer: nat, order: seq<nat>, current: seq<nat>)
    requires Indexes(order, |nbytes|) && Indexes(current, |nbytes|)
    ensures var groups := Split(nbytes, buffer, order, current);
            && ClosedWhenFull(nbytes, buffer, groups)
            && (current != [] ==> groups != [] && groups[0] != [] && groups[0][0] == current[0])
    decreases |order|
  {
    if order == [] {
    } else {
      var i, rest := order[0], order[1..];
      assert Indexes(rest, |nbytes|) && Indexes([i], |nbytes|) && Indexes(current + [i], |nbytes|);
      if nbytes[i] > buffer {
        var later := Split(nbytes, buffer, rest, []);
        SplitCloses(nbytes, buffer, rest, []);
        assert Oversized(nbytes, buffer, [i]);
        ConsFull(nbytes, buffer, [i], later);
        if current != [] {
          ConsFull(nbytes, buffer, current, [[i]] + later);
          assert Split(nbytes, buffer, order, current) == [current] + ([[i]] + later);
        } else {
          assert Split(nbytes, buffer, order, current) == [[i]] + later;
        }
      } else if current != [] && Total(Sizes(nbytes, current)) + Aligned(nbytes[i]) > buffer {
        var later := Split(nbytes, buffer, rest, [i]);
        SplitCloses(nbytes, buffer, rest, [i]);
        ConsFull(nbytes, buffer, current, later);
        assert Split(nbytes, buffer, order, current) == [current] + later;
      } else {
        SplitCloses(nbytes, buffer, rest, current + [i]);
      }
    }
  }

  /** The groups take the tensors in ascending order of size, and close only when the next one would not fit. */
  lemma GroupsAreGreedy(nbytes: seq<nat>, buffer: nat)
    ensures var groups := Split(nbytes, buffer, Order(nbytes, |nbytes|), []);
            BySize(nbytes, Flat<nat>(groups)) && ClosedWhenFull(nbytes, buffer, groups)
  {
    var order := Order(nbytes, |nbytes|);
    OrderBySize(nbytes, |nbytes|);
    SplitCovers(nbytes, buffer, order, []);
    SplitCloses(nbytes, buffer, order, []);
    hide *;
    assert [] + order == order;
  }

  lemma InOneGroup(nbytes: seq<nat>, buffer: nat, i: nat)
    ensures multiset(Flat<nat>(Split(nbytes, buffer, Order(nbytes, |nbytes|), [])))[i] == if i < |nbytes| then 1 else 0
  {
    var order := Order(nbytes, |nbytes|);
    SplitCovers(nbytes, buffer, order, []);
    OrderIs(nbytes, |nbytes|, i);
    hide *;
    assert [] + order == order;
  }

  ghost predicate AlignedTotalsFit(nbytes: seq<nat>, buffer: nat, groups: seq<seq<nat>>) {
    forall g :: g in groups && Indexes(g, |nbytes|) && !Oversized(nbytes, buffer, g) ==> Total(Sizes(nbytes, g)) <= buffer
  }

  /** No tensor fits the buffer only before its size is rounded up. */
  ghost predicate NoneBetween(nbytes: seq<nat>, buffer: nat) {
    forall i :: 0 <= i < |nbytes| && nbytes[i] <= buffer ==> Aligned(nbytes[i]) <= buffer
  }

  /** The aligned total of every group is within the buffer, as the documentation says, exactly when no tensor has a size
   between the buffer rounded down and the buffer. */
  lemma AlignedTotalsFitExactly(nbytes: seq<nat>, buffer: nat)
    ensures AlignedTotalsFit(nbytes, buffer, Split(nbytes, buffer, Order(nbytes, |nbytes|), [])) <==> NoneBetween(nbytes, buffer)
  {
    var order := Order(nbytes, |nbytes|);
    var groups := Split(nbytes, buffer, order, []);
    if NoneBetween(nbytes, buffer) {
      SplitFits(nbytes, buffer, order, []);
      hide Split;
      forall g | g in groups && !Oversized(nbytes, buffer, g) ensures Total(Sizes(nbytes, g)) <= buffer {
        if |g| == 1 { AloneTotal(nbytes, g); }
      }
    }
    if AlignedTotalsFit(nbytes, buffer, groups) {
      forall i | 0 <= i < |nbytes| && nbytes[i] <= buffer ensures Aligned(nbytes[i]) <= buffer {
        var g := GroupOf(nbytes, buffer, i);
        hide *;
        AlignedWithin(nbytes, buffer, groups, g, i);
      }
    }
  }

  lemma AloneTotal(nbytes: seq<nat>, g: seq<nat>)
    requires |g| == 1 && g[0] < |nbytes|
    ensures Total(Sizes(nbytes, g)) == Aligned(nbytes[g[0]])
  {
    TotalSnoc(nbytes, [], g[0]);
    assert [] + [g[0]] == g;
  }

  lemma GroupOf(nbytes: seq<nat>, buffer: nat, i: nat) returns (g: seq<nat>)
    requires i < |nbytes|
    ensures g in Split(nbytes, buffer, Order(nbytes, |nbytes|), []) && i in g && (Oversized(nbytes, buffer, g) || Fitting(nbytes, buffer, g))
  {
    var order := Order(nbytes, |nbytes|);
    var groups := Split(nbytes, buffer, order, []);
    SplitFits(nbytes, buffer, order, []);
    SplitCovers(nbytes, buffer, order, []);
    OrderIs(nbytes, |nbytes|, i);
    hide Split, Order, Oversized, Fitting;
    assert i in multiset(order) && [] + order == order;
    var n, k := InGroup(groups, i);
    g := groups[n];
  }

  lemma AlignedWithin(nbytes: seq<nat>, buffer: nat, groups: seq<seq<nat>>, g: seq<nat>, i: nat)
    requires AlignedTotalsFit(nbytes, buffer, groups) && g in groups && i in g && i < |nbytes| && nbytes[i] <= buffer
    requires Oversized(nbytes, buffer, g) || Fitting(nbytes, buffer, g)
    ensures Aligned(nbytes[i]) <= buffer
  {
    var k :| 0 <= k < |g| && g[k] == i;
    var sizes := Sizes(nbytes, g);
    TotalGrows(sizes, k, |g|);
    assert sizes[..|g|] == sizes;
  }

  lemma {:induction false} InGroup(groups: seq<seq<nat>>, i: nat) returns (g: nat, k: nat)
    requires i in Flat<nat>(groups)
    ensures g < |groups| && k < |groups[g]| && groups[g][k] == i
  {
    if i in groups[0] {
      g := 0;
      k :| 0 <= k < |groups[0]| && groups[0][k] == i;
    } else {
      g, k := InGroup(groups[1..], i);
      g := g + 1;
    }
  }
}
