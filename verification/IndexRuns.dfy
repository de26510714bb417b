/**
 Which partition an index belongs to, over runs of creating, inserting, registering keys and clearing
 (transfer_queue/controller.py).
 */
module IndexRuns {
  import opened Prelude
  import opened Indexes

  /** The part of a partition that concerns indexes. `rows` is the length of its status tensors. */
  datatype Part = Part(active: set<nat>, pre: set<nat>, rows: nat, keys: map<string, nat>, rev: map<nat, string>)

  /** `preAlloc` indexes are reserved for every new partition. */
  datatype State = State(preAlloc: nat, m: Manager, parts: map<string, Part>)

  function Initial(preAlloc: nat): State {
    State(preAlloc, Manager(0, [], map[], {}), map[])
  }

  /** The rows after making room for these indexes. */
  function Room(indexes: seq<nat>, rows: nat): nat {
    if indexes == [] then rows else
      var before, last := Room(indexes[..|indexes| - 1], rows), indexes[|indexes| - 1];
      if last >= before then last + 1 else before
  }

  function Create(s: State, p: string): State {
    if p in s.parts then s else
      var handed := Handed(s.m, s.preAlloc);
      s.(m := Allocated(s.m, p, s.preAlloc), parts := s.parts[p := Part({}, AsSet(handed), Room(handed, s.preAlloc), map[], map[])])
  }

  /** activate_pre_allocated_indexes: as many as asked for, the smallest first, or all there are in some order. */
  ghost predicate Activates(part: Part, count: nat, chosen: seq<nat>) {
    && Distinct(chosen) && AsSet(chosen) <= part.pre
    && (if |part.pre| < count then AsSet(chosen) == part.pre
        else |chosen| == count && forall i, j :: i in chosen && j in part.pre && j !in chosen ==> i < j)
  }

  /** The indexes for `count` new samples: the chosen reserved ones, then newly allocated ones. */
  function Batch(m: Manager, count: nat, chosen: seq<nat>): seq<nat> {
    if |chosen| < count then chosen + Handed(m, count - |chosen|) else chosen
  }

  function Taken(m: Manager, p: string, count: nat, chosen: seq<nat>): Manager {
    if |chosen| < count then Allocated(m, p, count - |chosen|) else m
  }

  function Insert(s: State, p: string, count: nat, chosen: seq<nat>): State {
    var s1 := Create(s, p);
    var part := s1.parts[p];
    s1.(m := Taken(s1.m, p, count, chosen),
        parts := s1.parts[p := part.(active := part.active + AsSet(Batch(s1.m, count, chosen)), pre := part.pre - AsSet(chosen))])
  }

  function Missing(keys: seq<string>, known: map<string, nat>): seq<string> {
    if keys == [] then [] else
      var n := |keys| - 1;
      Missing(keys[..n], known) + if keys[n] in known then [] else [keys[n]]
  }

  /** Writes both maps, key after key. */
  function Register(keys: map<string, nat>, rev: map<nat, string>, names: seq<string>, batch: seq<nat>): (map<string, nat>, map<nat, string>)
    requires |names| == |batch|
  {
    if names == [] then (keys, rev) else
      var n := |names| - 1;
      var (k, r) := Register(keys, rev, names[..n], batch[..n]);
      (k[names[n] := batch[n]], r[batch[n] := names[n]])
  }

  /** kv_retrieve_meta with create. */
  function KVCreate(s: State, p: string, keys: seq<string>, chosen: seq<nat>): State
    requires p in Create(s, p).parts && |Batch(Create(s, p).m, |Missing(keys, Create(s, p).parts[p].keys)|, chosen)| == |Missing(keys, Create(s, p).parts[p].keys)|
  {
    var s1 := Create(s, p);
    var part := s1.parts[p];
    var missing := Missing(keys, part.keys);
    if missing == [] then s1 else
      var batch := Batch(s1.m, |missing|, chosen);
      var (k, r) := Register(part.keys, part.rev, missing, batch);
      s1.(m := Taken(s1.m, p, |missing|, chosen),
          parts := s1.parts[p := Part(part.active + AsSet(batch), part.pre - AsSet(chosen), Room(batch, part.rows), k, r)])
  }

  /** clear_data: it stops at an index that has no row, before it changes anything. */
  function ClearData(part: Part, indexes: seq<nat>): Part {
    if exists i :: i in indexes && i >= part.rows then part
    else
      part.(active := part.active - AsSet(indexes),
            keys := part.keys - set i | i in indexes && i in part.rev :: part.rev[i],
            rev := part.rev - AsSet(indexes))
  }

  /** clear_meta, for one partition and the indexes to clear that are active in it. */
  function ClearMeta(s: State, p: string, indexes: seq<nat>): State
    requires p in s.parts
  {
    if indexes == [] then s else
      s.(m := if p in s.m.owned && AsSet(indexes) <= s.m.owned[p] then Released(s.m, p, indexes) else s.m,
         parts := s.parts[p := ClearData(s.parts[p], indexes)])
  }

  function ClearPartition(s: State, p: string, indexes: seq<nat>): State {
    s.(m := if p in s.m.owned then Released(s.m, p, indexes) else s.m, parts := s.parts - {p})
  }

  // ---------------------------------------------------------------- what is kept

  /** Key to index and index to key are inverse to each other, and only active samples have keys. */
  ghost predicate KeysInverse(keys: map<string, nat>, rev: map<nat, string>) {
    && (forall k :: k in keys ==> keys[k] in rev && rev[keys[k]] == k)
    && (forall i :: i in rev ==> rev[i] in keys && keys[rev[i]] == i)
  }

  ghost predicate PartOk(owned: map<string, set<nat>>, p: string, part: Part) {
    && OwnedBy(owned, p) == part.active + part.pre && part.active !! part.pre
    && KeysInverse(part.keys, part.rev) && part.rev.Keys <= part.active
  }

  ghost predicate PartsOk(s: State) {
    forall p :: p in s.parts ==> PartOk(s.m.owned, p, s.parts[p])
  }

  ghost predicate Inv(s: State) {
    s.preAlloc > 0 && Conserved(s.m) && PartsOk(s) && s.m.owned.Keys <= s.parts.Keys
  }

  lemma InitialInv(preAlloc: nat)
    requires preAlloc > 0
    ensures Inv(Initial(preAlloc))
  {
  }

  lemma TakenOwned(m: Manager, p: string, count: nat, chosen: seq<nat>)
    requires Conserved(m) && AsSet(chosen) <= OwnedBy(m.owned, p)
    ensures Conserved(Taken(m, p, count, chosen))
    ensures OwnedBy(Taken(m, p, count, chosen).owned, p) == OwnedBy(m.owned, p) + (AsSet(Batch(m, count, chosen)) - AsSet(chosen))
    ensures forall q :: q != p ==> OwnedBy(Taken(m, p, count, chosen).owned, q) == OwnedBy(m.owned, q)
    ensures Taken(m, p, count, chosen).owned.Keys <= m.owned.Keys + {p}
    ensures forall i :: i in Batch(m, count, chosen) && i !in chosen ==> i !in OwnedBy(m.owned, p)
  {
    if |chosen| < count {
      var n := count - |chosen|;
      AllocateConserves(m, p, n);
      HandedIs(m, n);
      var handed := Handed(m, n);
      forall i | i in handed ensures i !in OwnedBy(m.owned, p) { assert !HasOwner(m.owned, i); }
      assert AsSet(chosen + handed) == AsSet(chosen) + AsSet(handed);
      assert AsSet(handed) !! AsSet(chosen);
    }
  }

  lemma CreateInv(s: State, p: string)
    requires Inv(s)
    ensures Inv(Create(s, p)) && p in Create(s, p).parts
  {
    if p !in s.parts {
      var s1 := Create(s, p);
      AllocateConserves(s.m, p, s.preAlloc);
      HandedIs(s.m, s.preAlloc);
      assert p !in s.m.owned;
      hide Handed, Conserved;
      forall q | q in s1.parts ensures PartOk(s1.m.owned, q, s1.parts[q]) {
        if q != p { assert PartOk(s.m.owned, q, s.parts[q]); }
      }
    }
  }

  /** A partition takes a batch: the rest of the state stays as it is. */
  lemma TakeInv(s: State, p: string, count: nat, chosen: seq<nat>, part2: Part)
    requires Inv(s) && p in s.parts && Activates(s.parts[p], count, chosen)
    requires part2.active == s.parts[p].active + AsSet(Batch(s.m, count, chosen)) && part2.pre == s.parts[p].pre - AsSet(chosen)
    requires KeysInverse(part2.keys, part2.rev) && part2.rev.Keys <= part2.active
    ensures Inv(s.(m := Taken(s.m, p, count, chosen), parts := s.parts[p := part2]))
  {
    var part, s2 := s.parts[p], s.(m := Taken(s.m, p, count, chosen), parts := s.parts[p := part2]);
    assert PartOk(s.m.owned, p, part);
    TakenOwned(s.m, p, count, chosen);
    BatchHas(s.m, count, chosen);
    Moves(OwnedBy(s.m.owned, p), OwnedBy(s2.m.owned, p), part.active, part.pre, AsSet(Batch(s.m, count, chosen)), AsSet(chosen));
    hide Conserved, KeysInverse, Batch, Taken, Activates, OwnedBy;
    forall q | q in s2.parts ensures PartOk(s2.m.owned, q, s2.parts[q]) {
      if q != p { assert PartOk(s.m.owned, q, s.parts[q]); }
    }
  }

  /** Reserved indexes become active, and new ones with them. */
  lemma Moves(was: set<nat>, now: set<nat>, active: set<nat>, pre: set<nat>, batch: set<nat>, chosen: set<nat>)
    requires was == active + pre && active !! pre && chosen <= pre && chosen <= batch && now == was + (batch - chosen)
    requires forall i :: i in batch && i !in chosen ==> i !in was
    ensures now == (active + batch) + (pre - chosen) && (active + batch) !! (pre - chosen)
  {
  }

  lemma BatchHas(m: Manager, count: nat, chosen: seq<nat>)
    requires Conserved(m)
    ensures AsSet(chosen) <= AsSet(Batch(m, count, chosen))
    ensures forall i :: i in Batch(m, count, chosen) <==> i in AsSet(Batch(m, count, chosen))
  {
  }

  lemma InsertInv(s: State, p: string, count: nat, chosen: seq<nat>)
    requires Inv(s) && Activates(Create(s, p).parts[p], count, chosen)
    ensures Inv(Insert(s, p, count, chosen))
  {
    CreateInv(s, p);
    var s1 := Create(s, p);
    var part := s1.parts[p];
    assert PartOk(s1.m.owned, p, part);
    TakeInv(s1, p, count, chosen, part.(active := part.active + AsSet(Batch(s1.m, count, chosen)), pre := part.pre - AsSet(chosen)));
  }

  // ---------------------------------------------------------------- keys

  lemma {:induction false} RegisterHas(keys: map<string, nat>, rev: map<nat, string>, names: seq<string>, batch: seq<nat>)
    requires |names| == |batch|
    ensures var (k, r) := Register(keys, rev, names, batch);
            (forall i :: i in r <==> i in rev || i in batch) && (forall n :: n in k <==> n in keys || n in names)
  {
    if names != [] {
      var n := |names| - 1;
      RegisterHas(keys, rev, names[..n], batch[..n]);
      assert names == names[..n] + [names[n]] && batch == batch[..n] + [batch[n]];
    }
  }

  /** New names for new indexes keep the maps inverse when no name is given twice. */
  lemma {:induction false} RegisterInverse(keys: map<string, nat>, rev: map<nat, string>, names: seq<string>, batch: seq<nat>)
    requires |names| == |batch| && KeysInverse(keys, rev) && Distinct(names) && Distinct(batch)
    requires (forall n :: n in names ==> n !in keys) && forall i :: i in batch ==> i !in rev
    ensures KeysInverse(Register(keys, rev, names, batch).0, Register(keys, rev, names, batch).1)
  {
    if names != [] {
      var n := |names| - 1;
      RegisterInverse(keys, rev, names[..n], batch[..n]);
      RegisterHas(keys, rev, names[..n], batch[..n]);
      assert names[n] !in names[..n] && batch[n] !in batch[..n];
      AddInverse(Register(keys, rev, names[..n], batch[..n]).0, Register(keys, rev, names[..n], batch[..n]).1, names[n], batch[n]);
    }
  }

  lemma AddInverse(keys: map<string, nat>, rev: map<nat, string>, name: string, i: nat)
    requires KeysInverse(keys, rev) && name !in keys && i !in rev
    ensures KeysInverse(keys[name := i], rev[i := name])
  {
  }

  /** The reverse map keeps the first index of a name that is given twice. */
  lemma {:induction false} RegisterRev(keys: map<string, nat>, rev: map<nat, string>, names: seq<string>, batch: seq<nat>, a: nat)
    requires |names| == |batch| && Distinct(batch) && a < |names|
    ensures var (k, r) := Register(keys, rev, names, batch); batch[a] in r && r[batch[a]] == names[a]
  {
    var n := |names| - 1;
    if a < n { RegisterRev(keys, rev, names[..n], batch[..n], a); }
  }

  /** Two indexes registered under one name: one of them no longer leads back. */
  lemma TwiceNotInverse(keys: map<string, nat>, rev: map<nat, string>, names: seq<string>, batch: seq<nat>, a: nat, b: nat)
    requires |names| == |batch| && Distinct(batch) && a < b < |names| && names[a] == names[b]
    ensures !KeysInverse(Register(keys, rev, names, batch).0, Register(keys, rev, names, batch).1)
  {
    RegisterRev(keys, rev, names, batch, a);
    RegisterRev(keys, rev, names, batch, b);
  }

  lemma {:induction false} MissingIs(keys: seq<string>, known: map<string, nat>)
    ensures forall k :: k in Missing(keys, known) <==> k in keys && k !in known
  {
    if keys != [] {
      var n := |keys| - 1;
      MissingIs(keys[..n], known);
      assert forall k :: k in keys <==> k in keys[..n] || k == keys[n];
    }
  }

  lemma BatchLength(s: State, p: string, count: nat, chosen: seq<nat>)
    requires Inv(s) && p in s.parts && Activates(s.parts[p], count, chosen)
    ensures |Batch(s.m, count, chosen)| == count && Distinct(Batch(s.m, count, chosen))
    ensures forall i :: i in Batch(s.m, count, chosen) ==> i !in s.parts[p].active
  {
    var part := s.parts[p];
    assert PartOk(s.m.owned, p, part);
    DistinctCard(chosen, part.pre);
    forall i | i in chosen ensures i in part.pre && i !in part.active { assert i in AsSet(chosen); }
    if |chosen| < count {
      var handed := Handed(s.m, count - |chosen|);
      HandedIs(s.m, count - |chosen|);
      forall i | i in handed ensures i !in part.active && i !in chosen { assert !HasOwner(s.m.owned, i); }
      hide *;
      DistinctAppend(chosen, handed);
    }
  }

  lemma DistinctAppend(a: seq<nat>, b: seq<nat>)
    requires Distinct(a) && Distinct(b) && forall i :: i in b ==> i !in a
    ensures Distinct(a + b)
  {
    forall i, j | 0 <= i < j < |a + b| ensures (a + b)[i] != (a + b)[j] {
      if i < |a| <= j { assert b[j - |a|] in b && a[i] in a; }
    }
  }

  /** Distinct members of a set are no more than the set. */
  lemma {:induction false} DistinctCard(chosen: seq<nat>, pre: set<nat>)
    requires Distinct(chosen) && AsSet(chosen) <= pre
    ensures |chosen| == |AsSet(chosen)| <= |pre|
  {
    if chosen != [] {
      var n := |chosen| - 1;
      assert chosen[n] in AsSet(chosen) && chosen[n] !in chosen[..n];
      assert AsSet(chosen[..n]) == AsSet(chosen) - {chosen[n]};
      DistinctCard(chosen[..n], pre - {chosen[n]});
    }
  }

  /** Registering keys keeps everything, the key maps exactly when no missing key is asked for twice. */
  lemma KVCreateExactly(s: State, p: string, keys: seq<string>, chosen: seq<nat>)
    requires Inv(s) && Activates(Create(s, p).parts[p], |Missing(keys, Create(s, p).parts[p].keys)|, chosen)
    ensures |Batch(Create(s, p).m, |Missing(keys, Create(s, p).parts[p].keys)|, chosen)| == |Missing(keys, Create(s, p).parts[p].keys)|
    ensures Inv(KVCreate(s, p, keys, chosen)) <==> Distinct(Missing(keys, Create(s, p).parts[p].keys))
  {
    CreateInv(s, p);
    var s1 := Create(s, p);
    var part := s1.parts[p];
    var missing := Missing(keys, part.keys);
    assert PartOk(s1.m.owned, p, part);
    BatchLength(s1, p, |missing|, chosen);
    MissingIs(keys, part.keys);
    if missing != [] {
      KVBatch(s1, p, missing, chosen);
    }
  }

  lemma KVBatch(s: State, p: string, missing: seq<string>, chosen: seq<nat>)
    requires Inv(s) && p in s.parts && Activates(s.parts[p], |missing|, chosen) && forall k :: k in missing ==> k !in s.parts[p].keys
    ensures |Batch(s.m, |missing|, chosen)| == |missing|
    ensures var part, batch := s.parts[p], Batch(s.m, |missing|, chosen);
            var (k, r) := Register(part.keys, part.rev, missing, batch);
            Inv(s.(m := Taken(s.m, p, |missing|, chosen), parts := s.parts[p := Part(part.active + AsSet(batch), part.pre - AsSet(chosen), Room(batch, part.rows), k, r)]))
            <==> Distinct(missing)
  {
    var part, batch := s.parts[p], Batch(s.m, |missing|, chosen);
    assert PartOk(s.m.owned, p, part);
    BatchLength(s, p, |missing|, chosen);
    RegisterHas(part.keys, part.rev, missing, batch);
    var (k, r) := Register(part.keys, part.rev, missing, batch);
    var part2 := Part(part.active + AsSet(batch), part.pre - AsSet(chosen), Room(batch, part.rows), k, r);
    var s2 := s.(m := Taken(s.m, p, |missing|, chosen), parts := s.parts[p := part2]);
    if Distinct(missing) {
      RegisterInverse(part.keys, part.rev, missing, batch);
      TakeInv(s, p, |missing|, chosen, part2);
    } else {
      var a, b :| 0 <= a < b < |missing| && missing[a] == missing[b];
      TwiceNotInverse(part.keys, part.rev, missing, batch, a, b);
      assert !PartOk(s2.m.owned, p, s2.parts[p]);
    }
  }

  // ---------------------------------------------------------------- clearing

  ghost predicate WithinRows(part: Part, indexes: seq<nat>) {
    forall i :: i in indexes ==> i < part.rows
  }

  lemma ClearedKeys(part: Part, indexes: seq<nat>)
    requires KeysInverse(part.keys, part.rev) && part.rev.Keys <= part.active && WithinRows(part, indexes)
    ensures KeysInverse(ClearData(part, indexes).keys, ClearData(part, indexes).rev)
    ensures ClearData(part, indexes).rev.Keys <= ClearData(part, indexes).active == part.active - AsSet(indexes)
  {
    var gone := set i | i in indexes && i in part.rev :: part.rev[i];
    var after := ClearData(part, indexes);
    forall k ensures k in gone <==> k in part.keys && part.keys[k] in indexes {
      if k in part.keys && part.keys[k] in indexes { assert part.rev[part.keys[k]] == k; }
      if k in gone {
        var i :| i in indexes && i in part.rev && part.rev[i] == k;
        assert part.keys[k] == i;
      }
    }
    assert after.keys == part.keys - gone;
    hide ClearData;
    forall i | i in after.rev ensures after.rev[i] in after.keys && after.keys[after.rev[i]] == i {
      assert part.keys[part.rev[i]] == i && i !in AsSet(indexes);
    }
  }

  /** Clearing active samples keeps everything exactly when each of them has a row: the error of one without a row is
   swallowed, and the index goes to the pool while the partition keeps it. */
  lemma ClearMetaExactly(s: State, p: string, indexes: seq<nat>)
    requires Inv(s) && p in s.parts && Distinct(indexes) && indexes != [] && AsSet(indexes) <= s.parts[p].active
    ensures Inv(ClearMeta(s, p, indexes)) <==> WithinRows(s.parts[p], indexes)
  {
    var part, s2 := s.parts[p], ClearMeta(s, p, indexes);
    assert PartOk(s.m.owned, p, part);
    assert indexes[0] in AsSet(indexes) && indexes[0] in part.active;
    ReleaseConserves(s.m, p, indexes);
    if WithinRows(part, indexes) {
      ClearedKeys(part, indexes);
      hide Conserved, ClearData, KeysInverse;
      forall q | q in s2.parts ensures PartOk(s2.m.owned, q, s2.parts[q]) {
        if q != p { assert PartOk(s.m.owned, q, s.parts[q]); }
      }
    } else {
      assert s2.parts[p] == part && indexes[0] !in OwnedBy(s2.m.owned, p);
      assert !PartOk(s2.m.owned, p, part);
    }
  }

  lemma ClearPartitionInv(s: State, p: string, indexes: seq<nat>)
    requires Inv(s) && p in s.parts && Distinct(indexes) && AsSet(indexes) == OwnedBy(s.m.owned, p)
    ensures Inv(ClearPartition(s, p, indexes))
  {
    var s2 := ClearPartition(s, p, indexes);
    if p in s.m.owned { ReleaseConserves(s.m, p, indexes); }
    hide Conserved;
    forall q | q in s2.parts ensures PartOk(s2.m.owned, q, s2.parts[q]) {
      assert PartOk(s.m.owned, q, s.parts[q]);
    }
  }

  // ---------------------------------------------------------------- runs

  datatype Step =
    | Creates(p: string)
    | Inserts(p: string, count: nat, chosen: seq<nat>)
    | RegistersKeys(p: string, keys: seq<string>, chosen: seq<nat>)
    | Notifies(p: string, indexes: seq<nat>)
    | MakesRoom(p: string, rows: nat)              // a query of the consumption status
    | Clears(p: string, indexes: seq<nat>)
    | ClearsPartition(p: string, indexes: seq<nat>)

  /** Notifications speak of registered samples; keys are distinct; cleared samples are active and have rows. */
  ghost predicate Enabled(s: State, step: Step) {
    match step
    case Creates(p) => true
    case Inserts(p, count, chosen) => p in Create(s, p).parts && Activates(Create(s, p).parts[p], count, chosen)
    case RegistersKeys(p, keys, chosen) =>
      && p in Create(s, p).parts && Activates(Create(s, p).parts[p], |Missing(keys, Create(s, p).parts[p].keys)|, chosen)
      && |Batch(Create(s, p).m, |Missing(keys, Create(s, p).parts[p].keys)|, chosen)| == |Missing(keys, Create(s, p).parts[p].keys)|
      && Distinct(keys)
    case Notifies(p, indexes) => p in s.parts && AsSet(indexes) <= s.parts[p].active
    case MakesRoom(p, rows) => p in s.parts && rows >= s.parts[p].rows
    case Clears(p, indexes) => p in s.parts && Distinct(indexes) && AsSet(indexes) <= s.parts[p].active && WithinRows(s.parts[p], indexes)
    case ClearsPartition(p, indexes) => p in s.parts && Distinct(indexes) && AsSet(indexes) == OwnedBy(s.m.owned, p)
  }

  function Apply(s: State, step: Step): State
    requires Enabled(s, step)
  {
    match step
    case Creates(p) => Create(s, p)
    case Inserts(p, count, chosen) => Insert(s, p, count, chosen)
    case RegistersKeys(p, keys, chosen) => KVCreate(s, p, keys, chosen)
    case Notifies(p, indexes) => s.(parts := s.parts[p := s.parts[p].(active := s.parts[p].active + AsSet(indexes), rows := Room(indexes, s.parts[p].rows))])
    case MakesRoom(p, rows) => s.(parts := s.parts[p := s.parts[p].(rows := rows)])
    case Clears(p, indexes) => ClearMeta(s, p, indexes)
    case ClearsPartition(p, indexes) => ClearPartition(s, p, indexes)
  }

  lemma {:induction false} MissingDistinct(keys: seq<string>, known: map<string, nat>)
    requires Distinct(keys)
    ensures Distinct(Missing(keys, known))
  {
    if keys != [] {
      var n := |keys| - 1;
      MissingDistinct(keys[..n], known);
      MissingIs(keys[..n], known);
      assert keys[n] !in keys[..n];
    }
  }

  lemma RowsOnly(s: State, p: string, part2: Part)
    requires Inv(s) && p in s.parts && part2 == s.parts[p].(active := part2.active, rows := part2.rows) && part2.active == s.parts[p].active
    ensures Inv(s.(parts := s.parts[p := part2]))
  {
    var s2 := s.(parts := s.parts[p := part2]);
    hide Conserved;
    forall q | q in s2.parts ensures PartOk(s2.m.owned, q, s2.parts[q]) {
      assert PartOk(s.m.owned, q, s.parts[q]);
    }
  }

  lemma StepInv(s: State, step: Step)
    requires Inv(s) && Enabled(s, step)
    ensures Inv(Apply(s, step))
  {
    match step
    case Creates(p) => CreateInv(s, p);
    case Inserts(p, count, chosen) => InsertInv(s, p, count, chosen);
    case RegistersKeys(p, keys, chosen) =>
      MissingDistinct(keys, Create(s, p).parts[p].keys);
      KVCreateExactly(s, p, keys, chosen);
    case Notifies(p, indexes) =>
      assert s.parts[p].active + AsSet(indexes) == s.parts[p].active;
      RowsOnly(s, p, Apply(s, step).parts[p]);
    case MakesRoom(p, rows) => RowsOnly(s, p, Apply(s, step).parts[p]);
    case Clears(p, indexes) => if indexes != [] { ClearMetaExactly(s, p, indexes); }
    case ClearsPartition(p, indexes) => ClearPartitionInv(s, p, indexes);
  }

  ghost predicate Run(s: State, steps: seq<Step>, s2: State)
    decreases |steps|
  {
    if steps == [] then s2 == s else Enabled(s, steps[0]) && Run(Apply(s, steps[0]), steps[1..], s2)
  }

  lemma {:induction false} RunInv(s: State, steps: seq<Step>, s2: State)
    requires Inv(s) && Run(s, steps, s2)
    ensures Inv(s2)
    decreases |steps|
  {
    if steps != [] {
      StepInv(s, steps[0]);
      hide Inv, Apply, Enabled;
      RunInv(Apply(s, steps[0]), steps[1..], s2);
    }
  }

  /** Over any run from the start: no index is lost, none is in two places, and partitions share none. */
  lemma IndexesConserved(preAlloc: nat, steps: seq<Step>, s: State)
    requires preAlloc > 0 && Run(Initial(preAlloc), steps, s)
    ensures Conserved(s.m)
    ensures forall p :: p in s.parts ==> OwnedBy(s.m.owned, p) == s.parts[p].active + s.parts[p].pre && s.parts[p].active !! s.parts[p].pre
    ensures forall p, q, i :: p in s.parts && q in s.parts && i in s.parts[p].active && i in s.parts[q].active ==> p == q
    ensures forall p :: p in s.parts ==> KeysInverse(s.parts[p].keys, s.parts[p].rev)
  {
    InitialInv(preAlloc);
    RunInv(Initial(preAlloc), steps, s);
    assert forall p :: p in s.parts ==> PartOk(s.m.owned, p, s.parts[p]);
    forall p, q, i | p in s.parts && q in s.parts && i in s.parts[p].active && i in s.parts[q].active ensures p == q {
      assert i in OwnedBy(s.m.owned, p) && i in OwnedBy(s.m.owned, q);
    }
  }

  lemma {:induction false} RoomEnough(indexes: seq<nat>, rows: nat)
    requires forall j :: 0 <= j < |indexes| ==> indexes[j] < rows
    ensures Room(indexes, rows) == rows
  {
    if indexes != [] { RoomEnough(indexes[..|indexes| - 1], rows); }
  }

  lemma FirstPartition(preAlloc: nat, p: string)
    requires 0 < preAlloc
    ensures var s := Create(Initial(preAlloc), p);
            Inv(s) && s.m.pool == [] && s.m.counter == preAlloc && p in s.parts && s.parts[p].rows == preAlloc == |s.parts[p].pre|
  {
    InitialInv(preAlloc);
    var s0 := Initial(preAlloc);
    CreateInv(s0, p);
    HandedIs(s0.m, preAlloc);
    hide Conserved, PartsOk, Distinct;
    var handed := Handed(s0.m, preAlloc);
    forall j | 0 <= j < preAlloc ensures handed[j] < preAlloc { assert handed[j] in handed; }
    RoomEnough(handed, preAlloc);
    DistinctCard(handed, AsSet(handed));
  }

  /** Inserting more samples than are reserved makes samples active that have no row yet. */
  lemma InsertOutgrowsRows(preAlloc: nat, p: string, count: nat, chosen: seq<nat>)
    requires 0 < preAlloc < count && Activates(Create(Initial(preAlloc), p).parts[p], count, chosen)
    ensures var s := Insert(Initial(preAlloc), p, count, chosen);
            Inv(s) && preAlloc in s.parts[p].active && s.parts[p].rows == preAlloc && s.m.pool == []
  {
    hide *;
    FirstPartition(preAlloc, p);
    InitialInv(preAlloc);
    InsertInv(Initial(preAlloc), p, count, chosen);
    var s1 := Create(Initial(preAlloc), p);
    ChosenFew(s1.parts[p], count, chosen);
    BatchReaches(s1.m, p, count, chosen);
    Inserted(Initial(preAlloc), p, count, chosen);
  }

  lemma ChosenFew(part: Part, count: nat, chosen: seq<nat>)
    requires Activates(part, count, chosen)
    ensures |chosen| <= |part.pre|
  {
    DistinctCard(chosen, part.pre);
  }

  lemma BatchReaches(m: Manager, p: string, count: nat, chosen: seq<nat>)
    requires m.pool == [] && |chosen| < count
    ensures m.counter in AsSet(Batch(m, count, chosen)) && Taken(m, p, count, chosen).pool == []
  {
    var n := count - |chosen|;
    assert Handed(m, n) == [] + Range(m.counter, n);
    assert Handed(m, n)[0] == m.counter;
    assert Batch(m, count, chosen)[|chosen|] == m.counter;
  }

  lemma Inserted(s: State, p: string, count: nat, chosen: seq<nat>)
    ensures p in Create(s, p).parts
    ensures var s1, s2 := Create(s, p), Insert(s, p, count, chosen);
            && p in s2.parts && s2.m == Taken(s1.m, p, count, chosen) && s2.parts[p].rows == s1.parts[p].rows
            && s2.parts[p].active == s1.parts[p].active + AsSet(Batch(s1.m, count, chosen))
  {
    hide Taken, Batch, Handed, Allocated, Room, AsSet;
  }

  /** Clearing such a sample gives its index to the next new partition while the old one still holds it. */
  lemma ClearedTooEarly(s: State, p: string, i: nat, q: string)
    requires Inv(s) && p in s.parts && i in s.parts[p].active && i >= s.parts[p].rows && s.m.pool == [] && q !in s.parts
    ensures var s2 := Create(ClearMeta(s, p, [i]), q); i in s2.parts[p].active && q in s2.parts && i in s2.parts[q].pre
  {
    assert PartOk(s.m.owned, p, s.parts[p]);
    assert AsSet([i]) == {i} && i in [i];
    var torn := ClearMeta(s, p, [i]);
    assert torn.m.pool == [i] && torn.parts[p] == s.parts[p];
    assert Handed(torn.m, s.preAlloc)[0] == i;
    assert i in Handed(torn.m, s.preAlloc);
  }
}
