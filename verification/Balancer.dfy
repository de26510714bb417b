/**
 karmarkar_karp and get_seqlen_balanced_partitions as the source runs them: mutable sets inside mutable states, merged in
 place by a loop over a heap. The result is the one that Balance defines and BalanceTheorems describes.
 */
module Balancer {
  import opened Prelude
  import B = Balance
  import H = BalanceTheorems

  class ItemSet {
    var sum: int
    var items: seq<B.Item>

    function View(): B.Bin
      reads this
    {
      B.Bin(sum, items)
    }

    constructor ()
      ensures View() == B.Bin(0, [])
    {
      sum, items := 0, [];
    }

    method Add(idx: nat, val: int)
      modifies this
      ensures View() == B.Bin(old(sum) + val, old(items) + [B.Item(idx, val)])
    {
      items := items + [B.Item(idx, val)];
      sum := sum + val;
    }

    method Merge(other: ItemSet)
      requires other != this
      modifies this
      ensures View() == B.Join(old(View()), other.View())
    {
      for i := 0 to |other.items|
        invariant other.items == old(other.items)
        invariant View() == B.Join(old(View()), B.Bin(0, other.items[..i]))
      {
        assert other.items[..i + 1][..i] == other.items[..i];
        items := items + [other.items[i]];
        sum := sum + other.items[i].val;
      }
      assert other.items[..|other.items|] == other.items;
    }
  }

  function Views(sets: seq<ItemSet>): (views: seq<B.Bin>)
    reads sets
    ensures |views| == |sets| && forall i :: 0 <= i < |sets| ==> views[i] == sets[i].View()
  {
    if sets == [] then [] else [sets[0].View()] + Views(sets[1..])
  }

  method InsertSet(x: ItemSet, sets: seq<ItemSet>) returns (r: seq<ItemSet>)
    ensures Views(r) == B.Insert(x.View(), Views(sets))
    ensures multiset(r) == multiset{x} + multiset(sets)
  {
    if sets == [] || !B.Less(x.View(), sets[0].View()) {
      r := [x] + sets;
    } else {
      r := InsertSet(x, sets[1..]);
      r := [sets[0]] + r;
      assert sets == [sets[0]] + sets[1..];
    }
  }

  /** sorted(sets, reverse=True) on references. */
  method SortSets(sets: seq<ItemSet>) returns (r: seq<ItemSet>)
    ensures Views(r) == B.Descending(Views(sets))
    ensures multiset(r) == multiset(sets)
  {
    if sets == [] {
      r := [];
    } else {
      var rest := SortSets(sets[1..]);
      hide B.Insert;
      assert Views(sets)[0] == sets[0].View() && Views(sets)[1..] == Views(sets[1..]);
      r := InsertSet(sets[0], rest);
      ConsMultiset(sets);
    }
  }

  lemma ConsMultiset(sets: seq<ItemSet>)
    requires sets != []
    ensures multiset(sets) == multiset{sets[0]} + multiset(sets[1..])
  {
    assert sets == [sets[0]] + sets[1..];
  }

  /** One set for each item, the rest empty. */
  method FillSets(items: seq<B.Item>, k: nat) returns (sets: seq<ItemSet>)
    requires |items| <= k
    ensures |sets| == k && Distinct(sets) && Views(sets) == B.Fill(items, k)
    ensures forall s :: s in sets ==> fresh(s)
  {
    sets := [];
    for i := 0 to k
      invariant |sets| == i && Distinct(sets)
      invariant forall s :: s in sets ==> fresh(s)
      invariant forall j :: 0 <= j < i ==> sets[j].View() == B.Bin(0, [])
    {
      var s := new ItemSet();
      sets := sets + [s];
    }
    for i := 0 to |items|
      invariant forall j :: 0 <= j < k ==> sets[j].View() == if j < i then B.Bin(items[j].val, [items[j]]) else B.Bin(0, [])
    {
      assert sets[i] in sets;
      sets[i].Add(items[i].idx, items[i].val);
    }
    assert Views(sets) == B.Fill(items, k);
  }

  class PartState {
    const k: nat
    var sets: seq<ItemSet>

    ghost predicate Valid()
      reads this
    {
      k > 0 && |sets| == k && Distinct(sets)
    }

    function View(): seq<B.Bin>
      reads this, sets
    {
      Views(sets)
    }

    constructor (items: seq<B.Item>, k: nat)
      requires k > 0 && |items| <= k
      ensures Valid() && this.k == k && View() == B.NewState(items, k)
      ensures forall s :: s in sets ==> fresh(s)
    {
      var filled := FillSets(items, k);
      var sorted := SortSets(filled);
      this.k, this.sets := k, sorted;
      new;
      PermutedDistinct(filled, sorted);
    }

    /** self.merge(other): largest sets take the smallest, then re-sort. */
    method Merge(other: PartState)
      requires Valid() && other.Valid() && k == other.k
      requires forall s :: s in sets ==> s !in other.sets
      modifies this, sets
      ensures Valid() && View() == B.Merge(old(View()), old(other.View()))
      ensures multiset(sets) == multiset(old(sets))
    {
      ghost var a, b := View(), other.View();
      assert a == Views(sets) && b == Views(other.sets) && |sets| == |other.sets|;
      MergeIs(a, b);
      hide B.Join, B.Descending, B.Crossed, B.Merge, Distinct, Views, ItemSet.View;
      CrossMerge(sets, other.sets);
      CrossedViews(sets, a, b);
      Resort();
    }

    method Resort()
      requires Valid()
      modifies this`sets
      ensures Valid() && View() == B.Descending(old(View())) && multiset(sets) == multiset(old(sets))
    {
      var sorted := SortSets(sets);
      PermutedDistinct(sets, sorted);
      hide B.Descending, Distinct, Views;
      sets := sorted;
    }
  }

  lemma CrossedViews(sets: seq<ItemSet>, a: seq<B.Bin>, b: seq<B.Bin>)
    requires |a| == |b| == |sets| && forall j :: 0 <= j < |sets| ==> sets[j].View() == B.Join(a[j], b[|a| - 1 - j])
    ensures Views(sets) == B.Crossed(a, b)
  {
    var v, c := Views(sets), B.Crossed(a, b);
    assert |c| == |sets|;
    hide *;
    forall j | 0 <= j < |sets| ensures v[j] == c[j] {
      CrossedAt(a, b, j);
    }
  }

  lemma CrossedAt(a: seq<B.Bin>, b: seq<B.Bin>, j: nat)
    requires j < |a| == |b|
    ensures |B.Crossed(a, b)| == |a| && B.Crossed(a, b)[j] == B.Join(a[j], b[|a| - 1 - j])
  {
  }

  lemma MergeIs(a: seq<B.Bin>, b: seq<B.Bin>)
    requires |a| == |b|
    ensures B.Merge(a, b) == B.Descending(B.Crossed(a, b))
  {
  }

  /** The loop of State.merge. */
  method CrossMerge(mine: seq<ItemSet>, theirs: seq<ItemSet>)
    requires |mine| == |theirs| && Distinct(mine)
    requires forall s :: s in mine ==> s !in theirs
    modifies mine
    ensures forall j :: 0 <= j < |mine| ==> mine[j].View() == B.Join(old(mine[j].View()), old(theirs[|mine| - 1 - j].View()))
  {
    var k := |mine|;
    hide B.Join;
    for i := 0 to k
      invariant forall j :: 0 <= j < i ==> mine[j].View() == B.Join(old(mine[j].View()), old(theirs[k - 1 - j].View()))
      invariant forall j :: i <= j < k ==> mine[j].View() == old(mine[j].View())
      invariant forall j :: 0 <= j < k ==> theirs[j].View() == old(theirs[j].View())
    {
      assert mine[i] in mine && forall j :: 0 <= j < k ==> theirs[j] in theirs;
      assert forall j :: 0 <= j < k && j != i ==> mine[j] != mine[i];
      hide Distinct;
      mine[i].Merge(theirs[k - 1 - i]);
    }
  }

  lemma PermutedDistinct(a: seq<ItemSet>, b: seq<ItemSet>)
    requires Distinct(a) && multiset(a) == multiset(b)
    ensures Distinct(b) && |b| == |a| && forall s :: s in b <==> s in a
  {
    assert |multiset(a)| == |a| && |multiset(b)| == |b|;
    forall s ensures s in b <==> s in a { assert s in multiset(a) <==> s in multiset(b); }
    forall i, j | 0 <= i < j < |b| ensures b[i] != b[j] {
      if b[i] == b[j] {
        TwoOccurrences(b, i, j);
        OnceEach(a, b[i]);
      }
    }
  }

  // ---------------------------------------------------------------- the heap of states

  /** A well-formed state with the given value. */
  ghost predicate Shows(h: PartState, view: seq<B.Bin>, k: nat)
    reads h, h.sets
  {
    h.k == k && h.Valid() && B.StateOk(view, k) && h.View() == view
  }

  ghost predicate AllShow(heap: seq<PartState>, views: seq<seq<B.Bin>>, k: nat)
    reads set i | 0 <= i < |heap| :: heap[i], set i, j | 0 <= i < |heap| && 0 <= j < |heap[i].sets| :: heap[i].sets[j]
  {
    |views| == |heap| && forall i :: 0 <= i < |heap| ==> ShowsAt(heap, views, k, i)
  }

  ghost predicate ShowsAt(heap: seq<PartState>, views: seq<seq<B.Bin>>, k: nat, i: nat)
    requires i < |heap| == |views|
    reads heap[i], heap[i].sets
  {
    Shows(heap[i], views[i], k)
  }

  /** Whose sets are whose: different states share none. */
  type Owner = map<PartState, set<ItemSet>>

  ghost predicate OwnersApart(owner: Owner) {
    forall a, b :: a in owner && b in owner && a != b ==> owner[a] !! owner[b]
  }

  /** Different states with only their own sets. */
  ghost predicate Owned(heap: seq<PartState>, owner: Owner)
    reads heap
  {
    Distinct(heap) && forall h :: h in heap ==> OwnedBy(h, owner)
  }

  ghost predicate OwnedBy(h: PartState, owner: Owner)
    reads h
  {
    h in owner && forall s :: s in h.sets ==> s in owner[h]
  }

  ghost predicate Apart(a: PartState, b: PartState)
    reads a`sets, b`sets
  {
    forall s :: s in a.sets ==> s !in b.sets
  }

  /** heappush, with the heap listed in the order in which it pops. */
  method HeapPush(heap: seq<PartState>, ghost views: seq<seq<B.Bin>>, state: PartState, ghost view: seq<B.Bin>, k: nat)
    returns (r: seq<PartState>, ghost pushed: seq<seq<B.Bin>>)
    requires Shows(state, view, k) && AllShow(heap, views, k) && B.HeapOk(views, k)
    ensures multiset(r) == multiset(heap) + multiset{state}
    ensures pushed == B.Push(views, view) && AllShow(r, pushed, k)
  {
    hide B.Precedes, Shows, B.StateOk;
    if heap == [] {
      r, pushed := [state], [view];
      assert ShowsAt(r, pushed, k, 0);
    } else {
      assert ShowsAt(heap, views, k, 0) && Shows(heap[0], views[0], k);
      assert view != [] && views[0] != [] && state.View() == view && heap[0].View() == views[0] by {
        ShownView(state, view, k);
        ShownView(heap[0], views[0], k);
      }
      if B.Precedes(state.View(), heap[0].View()) {
        r, pushed := [state] + heap, [view] + views;
        forall i | 0 <= i < |r| ensures ShowsAt(r, pushed, k, i) {
          assert i > 0 ==> ShowsAt(heap, views, k, i - 1);
        }
      } else {
        forall i | 0 <= i < |heap[1..]| ensures ShowsAt(heap[1..], views[1..], k, i) {
          assert ShowsAt(heap, views, k, i + 1);
        }
        r, pushed := HeapPush(heap[1..], views[1..], state, view, k);
        var rest, others := r, pushed;
        r, pushed := [heap[0]] + r, [views[0]] + pushed;
        assert heap == [heap[0]] + heap[1..];
        forall i | 0 <= i < |r| ensures ShowsAt(r, pushed, k, i) {
          assert i > 0 ==> ShowsAt(rest, others, k, i - 1);
        }
      }
    }
  }

  lemma ShownView(h: PartState, view: seq<B.Bin>, k: nat)
    requires Shows(h, view, k)
    ensures view != [] && h.View() == view && h.Valid() && h.k == k && B.StateOk(view, k)
  {
  }

  lemma PushedDistinct(heap: seq<PartState>, r: seq<PartState>)
    requires |heap| > 1 && Distinct(heap) && multiset(r) == multiset(heap[2..]) + multiset{heap[0]}
    ensures Distinct(r) && forall h :: h in r ==> h in heap
  {
    assert heap == [heap[0]] + [heap[1]] + heap[2..];
    forall x ensures multiset(r)[x] <= 1 { OnceEach(heap, x); }
    DistinctIfOnce(r);
    forall h | h in r ensures h in heap { assert h in multiset(r); }
  }


  /** None of the states is this one or shares a set with it. */
  ghost predicate Clear(heap: seq<PartState>, state: PartState)
    reads heap, state
  {
    forall h :: h in heap ==> h != state && Apart(h, state)
  }

  lemma ClearOf(heap: seq<PartState>, state: PartState)
    requires Clear(heap, state)
    ensures forall h :: h in heap ==> h != state && forall s :: s in h.sets ==> s !in state.sets
  {
  }

  lemma MergedShown(state: PartState, view0: seq<B.Bin>, view1: seq<B.Bin>, k: nat)
    requires state.k == k && state.Valid() && B.StateOk(view0, k) && B.StateOk(view1, k)
    requires state.View() == B.Merge(view0, view1)
    ensures Shows(state, B.Merge(view0, view1), k)
  {
    B.MergeOk(view0, view1, k);
  }

  lemma ShowNew(h: PartState, view: seq<B.Bin>, k: nat)
    requires h.k == k && h.Valid() && B.StateOk(view, k) && h.View() == view
    ensures Shows(h, view, k)
  {
  }

  lemma ShownAt(heap: seq<PartState>, views: seq<seq<B.Bin>>, k: nat)
    requires AllShow(heap, views, k)
    ensures |views| == |heap| && forall i :: 0 <= i < |heap| ==> Shows(heap[i], views[i], k)
  {
    forall i | 0 <= i < |heap| ensures Shows(heap[i], views[i], k) { assert ShowsAt(heap, views, k, i); }
  }

  lemma ShowAll(heap: seq<PartState>, views: seq<seq<B.Bin>>, k: nat)
    requires |views| == |heap| && forall i :: 0 <= i < |heap| ==> Shows(heap[i], views[i], k)
    ensures AllShow(heap, views, k)
  {
  }

  lemma ShownSets(h: PartState, view: seq<B.Bin>, k: nat)
    ensures Shows(h, view, k) <==> SetsShow(h, view, k)
  {
    assert SetsShow(h, view, k) ==> h.View() == view;
  }

  /** Shows, set by set. */
  ghost predicate SetsShow(h: PartState, view: seq<B.Bin>, k: nat)
    reads h, h.sets
  {
    && h.k == k > 0 && |h.sets| == k && Distinct(h.sets) && B.StateOk(view, k)
    && forall i :: 0 <= i < k ==> h.sets[i].View() == view[i]
  }

  /** Merging into the first state leaves the rest of the heap as it is. */
  method MergeFirst(state0: PartState, ghost view0: seq<B.Bin>, state1: PartState, ghost view1: seq<B.Bin>,
                    rest: seq<PartState>, ghost views: seq<seq<B.Bin>>, k: nat)
    requires Shows(state0, view0, k) && Shows(state1, view1, k) && forall s :: s in state0.sets ==> s !in state1.sets
    requires AllShow(rest, views, k) && Clear(rest, state0)
    modifies state0, state0.sets
    ensures |view0| == |view1| && Shows(state0, B.Merge(view0, view1), k) && AllShow(rest, views, k)
    ensures multiset(state0.sets) == multiset(old(state0.sets))
  {
    hide B.Merge, B.StateOk, Shows, ShowsAt, AllShow, Clear, Apart, Views, Distinct, ItemSet.View;
    ShownView(state0, view0, k);
    ShownView(state1, view1, k);
    ClearOf(rest, state0);
    ShownAt(rest, views, k);
    assert forall i :: 0 <= i < |rest| ==> rest[i] in rest;
    forall i | 0 <= i < |rest| ensures SetsShow(rest[i], views[i], k) { ShownSets(rest[i], views[i], k); }
    label before: state0.Merge(state1);
    MergedShown(state0, view0, view1, k);
    forall i | 0 <= i < |rest| ensures Shows(rest[i], views[i], k) {
      var h := rest[i];
      assert h in rest && h.sets == old@before(h.sets);
      forall j | 0 <= j < |h.sets| ensures h.sets[j].View() == old@before(h.sets[j].View()) {
        assert h.sets[j] in h.sets;
      }
      assert old@before(SetsShow(h, views[i], k));
      
      ShownSets(rest[i], views[i], k);
    }
    ShowAll(rest, views, k);
  }

  lemma RestApart(heap: seq<PartState>, owner: Owner)
    requires OwnersApart(owner) && Owned(heap, owner) && |heap| > 1
    ensures Clear(heap[2..], heap[0]) && forall s :: s in heap[0].sets ==> s !in heap[1].sets
    ensures heap[0] in heap && heap[1] in heap && heap[0] != heap[1] && forall h :: h in heap[2..] ==> h in heap && h != heap[0]
  {
    assert OwnedBy(heap[0], owner) && OwnedBy(heap[1], owner);
    forall h | h in heap[2..] ensures h in heap && h != heap[0] && Apart(h, heap[0]) {
      var i :| 0 <= i < |heap[2..]| && heap[2..][i] == h;
      assert heap[i + 2] == h && OwnedBy(h, owner);
    }
  }

  lemma FirstTwo(heap: seq<PartState>, views: seq<seq<B.Bin>>, k: nat)
    requires AllShow(heap, views, k) && |heap| > 1
    ensures |views| == |heap| && Shows(heap[0], views[0], k) && Shows(heap[1], views[1], k) && AllShow(heap[2..], views[2..], k)
  {
    ShownAt(heap, views, k);
    ShowAll(heap[2..], views[2..], k);
  }

  lemma StillOwned(was: seq<ItemSet>, h: PartState, owner: Owner)
    requires h in owner && multiset(h.sets) == multiset(was) && forall s :: s in was ==> s in owner[h]
    ensures OwnedBy(h, owner)
  {
    forall s | s in h.sets ensures s in owner[h] { assert s in multiset(was); }
  }

  lemma PushedOwned(heap: seq<PartState>, r: seq<PartState>, owner: Owner)
    requires |heap| > 1 && Distinct(heap) && multiset(r) == multiset(heap[2..]) + multiset{heap[0]}
    requires forall h :: h in heap ==> OwnedBy(h, owner)
    ensures Owned(r, owner) && forall h :: h in r ==> h in heap
  {
    PushedDistinct(heap, r);
  }

  lemma NextIs(views: seq<seq<B.Bin>>, k: nat)
    requires B.HeapOk(views, k) && |views| > 1
    ensures B.StateOk(B.Merge(views[0], views[1]), k) && B.HeapOk(views[2..], k)
    ensures B.Next(views, k) == B.Push(views[2..], B.Merge(views[0], views[1]))
  {
    B.MergeOk(views[0], views[1], k);
  }

  /** One round of the loop: the second state is merged into the first, which goes back on the heap. */
  method MergeTwo(heap: seq<PartState>, ghost views: seq<seq<B.Bin>>, k: nat, ghost owner: Owner)
    returns (r: seq<PartState>, ghost next: seq<seq<B.Bin>>)
    requires |heap| > 1 && OwnersApart(owner) && Owned(heap, owner) && AllShow(heap, views, k) && B.HeapOk(views, k)
    modifies heap[0], heap[0].sets
    ensures Owned(r, owner) && AllShow(r, next, k) && next == B.Next(views, k)
    ensures forall h :: h in r ==> h in heap
  {
    var state0, state1, rest := heap[0], heap[1], heap[2..];
    ghost var view0, view1, others := views[0], views[1], views[2..];
    RestApart(heap, owner);
    FirstTwo(heap, views, k);
    assert forall h :: h in heap ==> OwnedBy(h, owner);
    ghost var was := state0.sets;
    assert Distinct(heap) && B.StateOk(view0, k) && B.StateOk(view1, k);
    assert state0 in owner && forall s :: s in was ==> s in owner[state0];
    NextIs(views, k);
    hide *;
    MergeFirst(state0, view0, state1, view1, rest, others, k);
    StillOwned(was, state0, owner);
    r, next := HeapPush(rest, others, state0, B.Merge(view0, view1), k);
    PushedOwned(heap, r, owner);
  }

  ghost function AllSets(owner: Owner): set<ItemSet> {
    set h, s | h in owner && s in owner[h] :: s
  }

  /** The merge loop: until one state is left. */
  method MergeStates(states: seq<PartState>, ghost views: seq<seq<B.Bin>>, k: nat, ghost owner: Owner) returns (last: PartState)
    requires states != [] && OwnersApart(owner) && Owned(states, owner) && AllShow(states, views, k) && B.HeapOk(views, k)
    modifies states, AllSets(owner)
    ensures |views| == |states| && Shows(last, B.MergeAll(views, k), k)
  {
    var heap := states;
    ghost var now := views;
    hide OwnersApart, AllShow, B.HeapOk, B.Next, B.StateOk, Distinct;
    ShownAt(states, views, k);
    while |heap| > 1
      invariant |heap| == |now| > 0 && Owned(heap, owner) && AllShow(heap, now, k) && B.HeapOk(now, k)
      invariant B.MergeAll(now, k) == B.MergeAll(views, k)
      invariant forall h :: h in heap ==> h in states
    {
      B.NextOk(now, k);
      assert heap[0] in heap && OwnedBy(heap[0], owner);
      assert forall s :: s in heap[0].sets ==> s in AllSets(owner);
      heap, now := MergeTwo(heap, now, k, owner);
      ShownAt(heap, now, k);
    }
    ShownAt(heap, now, k);
    last := heap[0];
  }

  lemma OneMoreOwned(heap: seq<PartState>, r: seq<PartState>, state: PartState, owner: Owner, owns: Owner)
    requires Owned(heap, owner) && state !in heap && multiset(r) == multiset(heap) + multiset{state}
    requires owns == owner[state := set s | s in state.sets]
    ensures Owned(r, owns) && forall h :: h in r ==> h in heap || h == state
  {
    forall x ensures multiset(r)[x] <= 1 {
      OnceEach(heap, x);
      assert state !in multiset(heap);
    }
    DistinctIfOnce(r);
    forall h | h in r ensures (h in heap || h == state) && OwnedBy(h, owns) {
      assert h in multiset(r);
      assert h in heap ==> OwnedBy(h, owner);
    }
  }

  /** heappush(states_pq, State(items, k)) */
  method PushNewState(heap: seq<PartState>, ghost views: seq<seq<B.Bin>>, items: seq<B.Item>, k: nat, ghost owner: Owner)
    returns (r: seq<PartState>, ghost next: seq<seq<B.Bin>>, ghost owns: Owner)
    requires OwnersApart(owner) && Owned(heap, owner) && AllShow(heap, views, k) && B.HeapOk(views, k)
    requires 0 < |items| <= k
    ensures B.StateOk(B.NewState(items, k), k)
    ensures OwnersApart(owns) && Owned(r, owns) && AllShow(r, next, k) && next == B.Push(views, B.NewState(items, k))
    ensures forall h :: h in r ==> h in heap || fresh(h)
    ensures forall s :: s in AllSets(owns) ==> fresh(s) || s in AllSets(owner)
  {
    var state := new PartState(items, k);
    B.NewStateOk(items, k);
    hide Owned, Shows, AllShow, B.NewState, B.StateOk, B.Push, B.HeapOk, Distinct;
    ghost var view := B.NewState(items, k);
    assert Shows(state, view, k) by { ShowNew(state, view, k); }
    r, next := HeapPush(heap, views, state, view, k);
    owns := owner[state := set s | s in state.sets];
    OneMoreOwned(heap, r, state, owner, owns);
  }

  lemma {:induction false} RoomForOneMore(offset: nat, n: nat, chunk: nat)
    requires chunk > 0 && B.Whole(offset, chunk) && B.Whole(n, chunk) && offset < n
    ensures offset + chunk <= n && B.Whole(offset + chunk, chunk)
  {
    if offset > 0 { RoomForOneMore(offset - chunk, n - chunk, chunk); }
  }

  lemma NextInitial(items: seq<B.Item>, k: nat, chunk: nat, offset: nat)
    requires k > 0 && chunk > 0 && offset + chunk <= |items| && B.Whole(offset, chunk) && B.Whole(offset + chunk, chunk)
    ensures B.StateOk(B.NewState(items[offset..offset + chunk], k), k)
    ensures B.InitialHeap(items[..offset + chunk], k, chunk)
         == B.Push(B.InitialHeap(items[..offset], k, chunk), B.NewState(items[offset..offset + chunk], k))
  {
    var upTo := items[..offset + chunk];
    B.InitialHeapStep(upTo, k, chunk);
    assert upTo[..offset] == items[..offset] && upTo[offset..] == items[offset..offset + chunk];
  }

  /** One state for each chunk of the ascending list. */
  method InitialStates(items: seq<B.Item>, k: nat, chunk: nat)
    returns (heap: seq<PartState>, ghost views: seq<seq<B.Bin>>, ghost owner: Owner)
    requires 0 < chunk <= k && B.Whole(|items|, chunk)
    ensures OwnersApart(owner) && Owned(heap, owner) && AllShow(heap, views, k) && views == B.InitialHeap(items, k, chunk)
    ensures forall h :: h in heap ==> fresh(h)
    ensures forall s :: s in AllSets(owner) ==> fresh(s)
  {
    heap, views, owner := [], [], map[];
    var offset := 0;
    assert items[..0] == [];
    assert AllSets(owner) == {};
    assert OwnersApart(owner) && Owned(heap, owner) && AllShow(heap, views, k) && views == B.InitialHeap(items[..0], k, chunk);
    hide *;
    while offset < |items|
      invariant offset <= |items| && B.Whole(offset, chunk)
      invariant OwnersApart(owner) && Owned(heap, owner) && AllShow(heap, views, k)
      invariant views == B.InitialHeap(items[..offset], k, chunk)
      invariant forall h :: h in heap ==> fresh(h)
      invariant forall s :: s in AllSets(owner) ==> fresh(s)
    {
      RoomForOneMore(offset, |items|, chunk);
      NextInitial(items, k, chunk, offset);
      Sizes(items, offset, chunk);
      heap, views, owner := PushNewState(heap, views, items[offset..offset + chunk], k, owner);
      offset := offset + chunk;
    }
    assert items[..|items|] == items;
  }

  lemma Sizes(items: seq<B.Item>, offset: nat, chunk: nat)
    requires offset + chunk <= |items|
    ensures |items[offset..offset + chunk]| == chunk && |items[..offset]| == offset && |items[..offset + chunk]| == offset + chunk
  {
  }

  method KarmarkarKarp(weights: seq<int>, k: nat, equalSize: bool) returns (last: PartState)
    requires B.Fits(weights, k, equalSize)
    ensures Shows(last, B.FinalState(weights, k, equalSize), k)
  {
    var items := B.Ascending(B.Label(weights));
    B.AscendingSorted(B.Label(weights));
    B.WholeOne(|weights|);
    var chunk := B.Chunk(k, equalSize);
    B.InitialHeapItems(items, k, chunk);
    ghost var final := B.FinalState(weights, k, equalSize);
    assert B.Whole(|items|, chunk) && B.MergeAll(B.InitialHeap(items, k, chunk), k) == final;
    hide *;
    var heap, views, owner := InitialStates(items, k, chunk);
    ShownAt(heap, views, k);
    assert forall i :: 0 <= i < |heap| ==> heap[i] in heap;
    last := MergeStates(heap, views, k, owner);
  }

  lemma ShownBins(h: PartState, view: seq<B.Bin>, k: nat)
    requires Shows(h, view, k)
    ensures k > 0 && |h.sets| == |view| == k && forall j :: 0 <= j < k ==> h.sets[j].items == view[j].items
  {
    assert forall j :: 0 <= j < k ==> h.sets[j].View() == h.View()[j];
  }

  /** The partitions, or nothing where the source's assertions fail. */
  method GetSeqlenBalancedPartitions(weights: seq<int>, k: int, equalSize: bool) returns (r: Option<seq<seq<nat>>>)
    ensures r.Some? ==> k > 0 && B.Fits(weights, k, equalSize) && r.value == H.Partitions(weights, k, equalSize)
    ensures r.Some? <==> k > 0 && B.Fits(weights, k, equalSize) && [] !in H.Partitions(weights, k, equalSize)
  {
    if k <= 0 || |weights| < k { return None; }
    B.WholeIsMultiple(|weights|, k);
    if equalSize && |weights| % k != 0 { return None; }
    var last := KarmarkarKarp(weights, k, equalSize);
    ghost var final, parts := B.FinalState(weights, k, equalSize), H.Partitions(weights, k, equalSize);
    ShownBins(last, final, k);
    var bins := seq(k, i requires 0 <= i < |last.sets| reads last, last.sets => last.sets[i].items);
    assert |parts| == k && forall i :: 0 <= i < k ==> parts[i] == H.Indexes(bins[i]);
    hide *;
    r := CheckAndSort(bins, parts);
  }

  /** _check_and_sort_partitions: fails on an empty partition. */
  method CheckAndSort(bins: seq<seq<B.Item>>, ghost parts: seq<seq<nat>>) returns (r: Option<seq<seq<nat>>>)
    requires |parts| == |bins| && forall i :: 0 <= i < |bins| ==> parts[i] == H.Indexes(bins[i])
    ensures r == if [] in parts then None else Some(parts)
  {
    var sorted: seq<seq<nat>> := [];
    hide *;
    for i := 0 to |bins|
      invariant sorted == parts[..i] && [] !in sorted
    {
      H.NoIndexes(bins[i]);
      if |bins[i]| == 0 {
        assert parts[i] in parts;
        return None;
      }
      sorted := sorted + [H.Indexes(bins[i])];
    }
    assert parts[..|bins|] == parts;
    r := Some(sorted);
  }
}
