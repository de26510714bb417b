/**
 Global indexes (transfer_queue/controller.py): PartitionIndexManager hands them out and takes them back; partitions hold
 them as active or pre-allocated, and map keys to them.
 */
module Indexes {
  import opened Prelude

  // ---------------------------------------------------------------- PartitionIndexManager

  /** allocated_indexes is `live`. */
  datatype Manager = Manager(counter: nat, pool: seq<nat>, owned: map<string, set<nat>>, live: set<nat>)

  function OwnedBy(owned: map<string, set<nat>>, p: string): set<nat> {
    if p in owned then owned[p] else {}
  }

  function Range(start: nat, count: nat): seq<nat> {
    seq(count, i requires 0 <= i => start + i)
  }

  function Reused(m: Manager, count: nat): nat {
    if count < |m.pool| then count else |m.pool|
  }

  /** The indexes handed out: from the front of the pool, then new ones. */
  function Handed(m: Manager, count: nat): seq<nat> {
    m.pool[..Reused(m, count)] + Range(m.counter, count - Reused(m, count))
  }

  function AsSet(s: seq<nat>): set<nat> {
    set i | i in s
  }

  function Allocated(m: Manager, p: string, count: nat): Manager {
    var reused := Reused(m, count);
    Manager(m.counter + count - reused, m.pool[reused..], m.owned[p := OwnedBy(m.owned, p) + AsSet(Handed(m, count))],
            m.live + AsSet(Range(m.counter, count - reused)))
  }

  /** The pool grows by the released indexes, in the order given. */
  function Released(m: Manager, p: string, released: seq<nat>): Manager {
    var left := OwnedBy(m.owned, p) - AsSet(released);
    Manager(m.counter, m.pool + released, if left == {} then m.owned - {p} else m.owned[p := left], m.live - AsSet(released))
  }

  /** Below the counter, every index is in the pool, once, or in the set of one partition. */
  ghost predicate Conserved(m: Manager) {
    && Distinct(m.pool) && (forall i :: i in m.pool ==> i < m.counter)
    && (forall p, i :: p in m.owned && i in m.owned[p] ==> i < m.counter)
    && (forall p, i :: p in m.owned && i in m.owned[p] ==> i !in m.pool)
    && (forall p, q, i :: p in m.owned && q in m.owned && i in m.owned[p] && i in m.owned[q] ==> p == q)
    && (forall i: nat :: i < m.counter ==> i in m.pool || HasOwner(m.owned, i))
    && (forall i :: i in m.live ==> HasOwner(m.owned, i))
  }

  ghost predicate HasOwner(owned: map<string, set<nat>>, i: nat) {
    exists p :: p in owned && i in owned[p]
  }

  lemma HandedIs(m: Manager, count: nat)
    requires Conserved(m)
    ensures |Handed(m, count)| == count && Distinct(Handed(m, count))
    ensures forall i :: i in Handed(m, count) <==> i in m.pool[..Reused(m, count)] || m.counter <= i < m.counter + count - Reused(m, count)
    ensures forall i :: i in Handed(m, count) ==> !HasOwner(m.owned, i)
  {
    var reused := Reused(m, count);
    var front, new_ := m.pool[..reused], Range(m.counter, count - reused);
    assert m.pool == front + m.pool[reused..];
    forall i ensures i in new_ <==> m.counter <= i < m.counter + count - reused {
      if m.counter <= i < m.counter + count - reused { assert new_[i - m.counter] == i; }
    }
    forall i, j | 0 <= i < j < |front + new_| ensures (front + new_)[i] != (front + new_)[j] {
      if i < |front| <= j { assert front[i] in m.pool && new_[j - |front|] in new_; }
    }
    forall i | i in front ensures i in m.pool && !HasOwner(m.owned, i) {
    }
    forall i | i in new_ ensures !HasOwner(m.owned, i) {
      assert i >= m.counter;
    }
  }

  /**
   First in, first out: the indexes at the front of the pool, in their order, and only when it runs out new ones from the
   counter on. The partition's set grows by them and no other changes.
   */
  ghost predicate HandsOut(m: Manager, m': Manager, p: string, count: nat, handed: seq<nat>) {
    var reused := |m.pool| - |m'.pool|;
    && |handed| == count && 0 <= reused <= count
    && m.pool == handed[..reused] + m'.pool && (reused < count ==> m'.pool == [])
    && (forall i :: reused <= i < count ==> handed[i] == m.counter + (i - reused))
    && m'.counter == m.counter + (count - reused)
    && (forall q :: q in m'.owned <==> q in m.owned || q == p)
    && (forall q :: q in m.owned && q != p ==> q in m'.owned && m'.owned[q] == m.owned[q])
    && (forall i :: p in m'.owned && i in m'.owned[p] <==> (p in m.owned && i in m.owned[p]) || i in handed)
  }

  lemma AllocateHandsOut(m: Manager, p: string, count: nat)
    ensures HandsOut(m, Allocated(m, p, count), p, count, Handed(m, count))
  {
    var reused := Reused(m, count);
    assert m.pool == m.pool[..reused] + m.pool[reused..];
    assert Handed(m, count)[..reused] == m.pool[..reused];
  }

  lemma NoneNew(counter: nat)
    ensures Range(counter, 0) == [] && AsSet([]) == {} && forall n: nat :: |Range(counter, n)| == n
  {
  }

  /** allocated_indexes says which indexes some partition holds. */
  ghost predicate TracksHeld(m: Manager) {
    forall i :: i in m.live <==> HasOwner(m.owned, i)
  }

  /** A reused index is not put back into allocated_indexes: it says what is held exactly as long as none is reused. */
  lemma AllocateTracksExactly(m: Manager, p: string, count: nat)
    requires Conserved(m) && TracksHeld(m) && count > 0
    ensures TracksHeld(Allocated(m, p, count)) <==> m.pool == []
  {
    HandedIs(m, count);
    OwnersGrow(m.owned, p, AsSet(Handed(m, count)));
    NewOnes(m, count);
    hide Handed, Range;
    if m.pool != [] {
      var i := m.pool[0];
      assert i in m.pool && m.pool[..Reused(m, count)][0] == i;
      assert i in Handed(m, count) && i < m.counter && !HasOwner(m.owned, i);
    }
  }

  lemma NewOnes(m: Manager, count: nat)
    requires Conserved(m)
    ensures var n := count - Reused(m, count);
            (forall i :: i in Range(m.counter, n) ==> i in AsSet(Handed(m, count))) && forall i :: i in Range(m.counter, n) <==> m.counter <= i < m.counter + n
  {
    var n := count - Reused(m, count);
    forall i ensures i in Range(m.counter, n) <==> m.counter <= i < m.counter + n {
      if m.counter <= i < m.counter + n { assert Range(m.counter, n)[i - m.counter] == i; }
    }
  }

  lemma PoolSplit(m: Manager, reused: nat)
    requires Conserved(m) && reused <= |m.pool|
    ensures Distinct(m.pool[reused..])
    ensures forall i :: i in m.pool <==> i in m.pool[..reused] || i in m.pool[reused..]
    ensures forall i :: i in m.pool[..reused] ==> i !in m.pool[reused..]
  {
    assert m.pool == m.pool[..reused] + m.pool[reused..];
  }

  lemma OwnersGrow(owned: map<string, set<nat>>, p: string, more: set<nat>)
    ensures forall i :: HasOwner(owned[p := OwnedBy(owned, p) + more], i) <==> HasOwner(owned, i) || i in more
  {
    var after := owned[p := OwnedBy(owned, p) + more];
    forall i ensures HasOwner(after, i) <==> HasOwner(owned, i) || i in more {
      if q :| q in owned && i in owned[q] { assert i in after[q]; }
      if i in more { assert i in after[p]; }
    }
  }

  lemma AllocateConserves(m: Manager, p: string, count: nat)
    requires Conserved(m)
    ensures Conserved(Allocated(m, p, count))
  {
    var m2 := Allocated(m, p, count);
    HandedIs(m, count);
    PoolSplit(m, Reused(m, count));
    OwnersGrow(m.owned, p, AsSet(Handed(m, count)));
    NewOnes(m, count);
    hide Handed, Range, Reused;
    forall i: nat | i < m2.counter ensures i in m2.pool || HasOwner(m2.owned, i) {
    }
    forall i | i in m2.live ensures HasOwner(m2.owned, i) {
    }
    forall q, i | q in m2.owned && i in m2.owned[q] ensures i < m2.counter && i !in m2.pool {
      assert i in Handed(m, count) || (q in m.owned && i in m.owned[q]);
    }
    forall q, r, i | q in m2.owned && r in m2.owned && i in m2.owned[q] && i in m2.owned[r] ensures q == r {
      if i in Handed(m, count) { assert !HasOwner(m.owned, i); }
    }
  }

  lemma OwnersShrink(owned: map<string, set<nat>>, p: string, gone: set<nat>)
    requires p in owned && gone <= owned[p]
    requires forall q, i :: q in owned && i in owned[q] && i in owned[p] ==> q == p
    ensures var left := owned[p] - gone;
            var after := if left == {} then owned - {p} else owned[p := left];
            forall i :: HasOwner(after, i) <==> HasOwner(owned, i) && i !in gone
  {
    var left := owned[p] - gone;
    var after := if left == {} then owned - {p} else owned[p := left];
    forall i ensures HasOwner(after, i) <==> HasOwner(owned, i) && i !in gone {
      if q :| q in owned && i in owned[q] {
        if i !in gone {
          if q == p { assert i in left; }
          assert q in after && i in after[q];
        }
      }
      if q :| q in after && i in after[q] { assert i in owned[q]; }
    }
  }

  lemma ReleaseConserves(m: Manager, p: string, released: seq<nat>)
    requires Conserved(m) && p in m.owned && Distinct(released) && AsSet(released) <= m.owned[p]
    ensures Conserved(Released(m, p, released))
  {
    var m2 := Released(m, p, released);
    OwnersShrink(m.owned, p, AsSet(released));
    forall i | i in released ensures i in m.owned[p] && i < m.counter && i !in m.pool {
      assert i in AsSet(released);
      assert i in m.owned[p];
    }
    forall i, j | 0 <= i < j < |m2.pool| ensures m2.pool[i] != m2.pool[j] {
      if i < |m.pool| <= j { assert m2.pool[i] in m.pool && m2.pool[j] in released; }
    }
    assert forall i :: i in m2.pool <==> i in m.pool || i in released;
    forall q, i | q in m2.owned && i in m2.owned[q] ensures q in m.owned && i in m.owned[q] && i < m2.counter && i !in m2.pool {
      if q == p {
        assert i in m.owned[p] - AsSet(released);
      } else {
        assert i in m.owned[q] && i !in m.owned[p];
      }
    }
  }

  class PartitionIndexManager {
    var partitionToIndexes: map<string, set<nat>>
    var reusableIndexes: seq<nat>
    var globalIndexCounter: nat
    var allocatedIndexes: set<nat>

    function View(): Manager
      reads this
    {
      Manager(globalIndexCounter, reusableIndexes, partitionToIndexes, allocatedIndexes)
    }

    constructor ()
      ensures View() == Manager(0, [], map[], {})
    {
      partitionToIndexes, reusableIndexes, globalIndexCounter, allocatedIndexes := map[], [], 0, {};
    }

    /** None: a count that is not positive is a ValueError. */
    method AllocateIndexes(p: string, count: int) returns (r: Option<seq<nat>>)
      modifies this
      ensures if count <= 0 then r == None && View() == old(View())
              else r == Some(Handed(old(View()), count)) && View() == Allocated(old(View()), p, count)
      ensures r.Some? ==> HandsOut(old(View()), View(), p, count, r.value)
    {
      hide HandsOut, AsSet, Range, OwnedBy;
      if count > 0 { AllocateHandsOut(View(), p, count); }
      NoneNew(globalIndexCounter);
      if count <= 0 { return None; }
      var indexes: seq<nat> := [];
      if reusableIndexes != [] {
        var numReuse := if count < |reusableIndexes| then count else |reusableIndexes|;
        indexes := reusableIndexes[..numReuse];
        reusableIndexes := reusableIndexes[numReuse..];
      }
      if |indexes| < count {
        var needed := count - |indexes|;
        var newIndexes := Range(globalIndexCounter, needed);
        allocatedIndexes := allocatedIndexes + AsSet(newIndexes);
        globalIndexCounter := globalIndexCounter + needed;
        indexes := indexes + newIndexes;
      }
      assert indexes == Handed(old(View()), count);
      partitionToIndexes := partitionToIndexes[p := OwnedBy(partitionToIndexes, p) + AsSet(indexes)];
      r := Some(indexes);
    }

    /** None: an index of another partition is a ValueError. */
    method ReleaseIndexes(p: string, released: seq<nat>) returns (r: Option<()>)
      modifies this
      ensures if p !in old(partitionToIndexes) then r == Some(()) && View() == old(View())
              else if !(AsSet(released) <= old(partitionToIndexes)[p]) then r == None && View() == old(View())
              else r == Some(()) && View() == Released(old(View()), p, released)
    {
      if p !in partitionToIndexes { return Some(()); }
      if !(AsSet(released) <= partitionToIndexes[p]) { return None; }
      var left := partitionToIndexes[p] - AsSet(released);
      reusableIndexes := reusableIndexes + released;
      allocatedIndexes := allocatedIndexes - AsSet(released);
      if left == {} {
        partitionToIndexes := partitionToIndexes - {p};
      } else {
        partitionToIndexes := partitionToIndexes[p := left];
      }
      r := Some(());
    }

    method ReleasePartition(p: string) returns (released: seq<nat>)
      modifies this
      ensures Distinct(released) && AsSet(released) == OwnedBy(old(partitionToIndexes), p)
      ensures View() == if p in old(partitionToIndexes) then Released(old(View()), p, released) else old(View())
    {
      released := [];
      if p in partitionToIndexes {
        var todo := partitionToIndexes[p];
        while todo != {}
          invariant todo <= partitionToIndexes[p] && Distinct(released)
          invariant forall i :: i in released <==> i in partitionToIndexes[p] && i !in todo
          decreases |todo|
        {
          var i :| i in todo;
          released := released + [i];
          todo := todo - {i};
        }
        assert AsSet(released) == partitionToIndexes[p];
        partitionToIndexes := partitionToIndexes - {p};
        reusableIndexes := reusableIndexes + released;
        allocatedIndexes := allocatedIndexes - AsSet(released);
      }
    }
  }
}
