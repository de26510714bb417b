/**
 Over any sequence of operations the hybrid unit answers and holds what the plain unit does, as long as no write fails;
 its counters are exact; and when the capacity check counts samples rather than entries.
 */
module HybridRuns {
  import opened Prelude
  import opened Storage
  import opened SsdFiles
  import opened HybridCells
  import opened HybridCheckpoint
  import opened HybridStorage

  datatype Op<!V> =
    | PutOp(data: seq<Column<V>>, keys: seq<nat>)
    | UpdateOp(data: seq<Column<V>>, keys: seq<nat>, up: Update<V>)
    | ClearOp(keys: seq<nat>, only: Option<seq<string>>)
    | SaveAndLoad

  ghost predicate OpOk<V>(op: Op<V>) {
    (op.PutOp? || op.UpdateOp?) ==> DistinctFields(op.data)
  }

  /** What the plain unit answers to one operation. */
  function Answer<V>(u: Unit<V>, op: Op<V>): Result<Unit<V>> {
    match op
    case PutOp(data, keys) => Put(u, data, keys)
    case UpdateOp(data, keys, up) => Updated(u, keys, data, up)
    case ClearOp(keys, only) => Ok(Cleared(u, keys, only))
    case SaveAndLoad => Ok(u)
  }

  function Next<V>(u: Unit<V>, op: Op<V>): Unit<V> {
    match Answer(u, op) case Ok(u') => u' case Err(_) => u
  }

  function Final<V>(u: Unit<V>, ops: seq<Op<V>>): Unit<V> {
    if ops == [] then u else Next(Final(u, ops[..|ops| - 1]), ops[|ops| - 1])
  }

  ghost predicate NoFaults(store: SSDFileStore) {
    forall p :: !store.fails(p)
  }

  method Step<V(!new)>(h: HybridStorageUnitData<V>, op: Op<V>) returns (r: Result<()>)
    requires h.Valid() && OpOk(op) && NoFaults(h.store)
    modifies h, h.base, h.store
    ensures h.Valid() && h.View() == Next(old(h.View()), op)
    ensures match Answer(old(h.View()), op) case Err(e) => r == Err(e) case Ok(_) => r == Ok(())
  {
    match op
    case PutOp(data, keys) =>
      r := h.PutData(data, keys);
    case UpdateOp(data, keys, up) =>
      r := h.ApplyUpdate(keys, data, up);
    case ClearOp(keys, only) =>
      h.Clear(keys, only);
      r := Ok(());
    case SaveAndLoad =>
      var saved := h.SaveCheckpoint();
      var _ := h.LoadCheckpoint(saved);
      r := Ok(());
  }

  method PlainStep<V>(p: StorageUnitData<V>, op: Op<V>) returns (r: Result<()>)
    requires OpOk(op)
    modifies p
    ensures p.View() == Next(old(p.View()), op)
    ensures match Answer(old(p.View()), op) case Err(e) => r == Err(e) case Ok(_) => r == Ok(())
  {
    match op
    case PutOp(data, keys) =>
      r := p.PutData(data, keys);
    case UpdateOp(data, keys, up) =>
      r := p.ApplyUpdate(keys, data, up);
    case ClearOp(keys, only) =>
      p.Clear(keys, only);
      r := Ok(());
    case SaveAndLoad =>
      var saved := p.SaveCheckpoint();
      var _ := p.LoadCheckpoint(saved);
      r := Ok(());
  }

  /** The same operations on a plain and a hybrid unit that start alike: the same answers, and the same reads. */
  method RunBoth<V(!new)>(p: StorageUnitData<V>, h: HybridStorageUnitData<V>, ops: seq<Op<V>>, names: seq<string>, keys: seq<nat>)
    returns (a: Result<map<string, seq<V>>>, b: Result<map<string, seq<V>>>, sameAnswers: bool)
    requires (p as object) != h.base && h.Valid() && NoFaults(h.store) && p.View() == h.View() && forall i :: 0 <= i < |ops| ==> OpOk(ops[i])
    modifies p, h, h.base, h.store
    ensures a == b == Get(Final(old(p.View()), ops).fields, names, keys) && sameAnswers
    ensures h.Valid() && p.View() == h.View() == Final(old(p.View()), ops)
  {
    sameAnswers := true;
    for i := 0 to |ops|
      invariant h.Valid() && p.View() == h.View() == Final(old(p.View()), ops[..i]) && sameAnswers
    {
      assert ops[..i + 1][..i] == ops[..i];
      hide *;
      var x := PlainStep(p, ops[i]);
      var y := Step(h, ops[i]);
      sameAnswers := sameAnswers && x == y;
    }
    assert ops[..|ops|] == ops;
    a := p.GetData(names, keys);
    b := h.GetData(names, keys);
  }

  // ---------------------------------------------------------------- exact counters

  /** The files are as many as the cells that refer to one, and their bytes add up to the sizes in the references. */
  lemma CountersAreExact<V>(cells: Cells<V>, files: Files, slots: seq<Slot>, next: nat)
    requires Fit(cells, files) && (forall p :: p in files ==> p < next)
    requires Distinct(slots) && forall s :: s in slots <==> RefAt(cells, s).Some?
    ensures Count(files, next) == |slots| && Bytes(files, next) == TotalSize(RefsAt(cells, slots))
  {
    hide Fit, RefsAt, Paths, RefAt;
    RefsAtDistinct(cells, files, slots);
    RefsAtLength(cells, slots);
    NoOtherFile(cells, files, slots);
    RemoveFiles(files, RefsAt(cells, slots), next);
    NoFileAbove(map[], 0, next);
  }

  lemma NoOtherFile<V>(cells: Cells<V>, files: Files, slots: seq<Slot>)
    requires Fit(cells, files) && forall s :: s in slots <==> RefAt(cells, s).Some?
    ensures files - Paths(RefsAt(cells, slots)) == map[]
  {
    hide RefsAt, Paths;
    forall p ensures p in files ==> p in Paths(RefsAt(cells, slots)) {
      if p in files {
        assert Referenced(cells, p);
        RefsAtPaths(cells, slots, p);
      }
    }
  }

  lemma {:induction false} RefsAtLength<V>(cells: Cells<V>, slots: seq<Slot>)
    requires forall s :: s in slots ==> RefAt(cells, s).Some?
    ensures |RefsAt(cells, slots)| == |slots|
  {
    if slots != [] { RefsAtLength(cells, slots[..|slots| - 1]); }
  }

  // ---------------------------------------------------------------- capacity

  /** No index that is new is given twice. */
  ghost predicate NewDistinct(active: set<nat>, keys: seq<nat>) {
    forall i, j :: 0 <= i < j < |keys| && keys[i] == keys[j] ==> keys[i] in active
  }

  ghost function With(active: set<nat>, keys: seq<nat>): set<nat> {
    active + set k | k in keys
  }

  lemma {:induction false} NewCountIs(active: set<nat>, keys: seq<nat>)
    ensures |With(active, keys)| <= |active| + NewCount(active, keys)
    ensures NewDistinct(active, keys) <==> |With(active, keys)| == |active| + NewCount(active, keys)
  {
    if keys == [] {
      assert With(active, keys) == active;
    } else {
      var n := |keys| - 1;
      var less, k := keys[..n], keys[n];
      NewCountIs(active, less);
      assert With(active, keys) == With(active, less) + {k};
      OneMoreKey(active, keys);
      if k in active || k in less {
        assert With(active, keys) == With(active, less);
      } else {
        assert k !in With(active, less);
      }
    }
  }

  lemma OneMoreKey(active: set<nat>, keys: seq<nat>)
    requires keys != []
    ensures var n := |keys| - 1; NewDistinct(active, keys) <==> NewDistinct(active, keys[..n]) && (keys[n] in active || keys[n] !in keys[..n])
  {
    var n := |keys| - 1;
    var less := keys[..n];
    if NewDistinct(active, keys) {
      forall i, j | 0 <= i < j < n && less[i] == less[j] ensures less[i] in active { assert keys[i] == keys[j]; }
      if keys[n] in less {
        var i :| 0 <= i < n && less[i] == keys[n];
        assert keys[i] == keys[n];
      }
    }
    if NewDistinct(active, less) && (keys[n] in active || keys[n] !in less) {
      forall i, j | 0 <= i < j < |keys| && keys[i] == keys[j] ensures keys[i] in active {
        assert less[i] == keys[i];
        assert j < n ==> less[j] == keys[j];
      }
    }
  }

  ghost predicate CountsSamples<V>(u: Unit<V>, data: seq<Column<V>>, keys: seq<nat>) {
    forall size: nat :: Put(u.(size := Some(size)), data, keys) == Err(CapacityExceeded) <==> |With(u.active, keys)| > size
  }

  /** At every capacity a put is refused exactly when the samples would be too many, if and only if no new index is given
   twice: the check counts a repeated new index each time. */
  lemma CapacityCountsSamplesExactly<V>(u: Unit<V>, data: seq<Column<V>>, keys: seq<nat>)
    ensures CountsSamples(u, data, keys) <==> NewDistinct(u.active, keys)
  {
    NewCountIs(u.active, keys);
    var fits := u.(size := Some(|With(u.active, keys)|));
    if CountsSamples(u, data, keys) {
      assert Put(fits, data, keys) != Err(CapacityExceeded);
    }
  }

  /** One sample given twice does not fit into an empty unit of capacity 1. */
  lemma RepeatedIndexIsRefused()
    ensures Put<int>(Unit(map[], {}, Some(1)), [Column("f", [7, 8])], [5, 5]) == Err(CapacityExceeded)
    ensures |With({}, [5, 5])| == 1
  {
    assert With({}, [5, 5]) == {5};
    assert NewCount({}, [5, 5]) == 2 by {
      assert [5, 5][..1] == [5] && [5][..0] == [];
      assert NewCount({}, [5]) == 1;
    }
  }
}
