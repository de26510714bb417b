/**
 HybridStorageUnitData (transfer_queue/storage/simple_storage.py): large values in files, the rest in the cells. Every
 operation does to the values it holds what the plain unit of Storage.dfy does, or fails and changes nothing.
 */
module HybridStorage {
  import opened Prelude
  import opened Storage
  import opened SsdFiles
  import opened HybridCells
  import opened HybridPut
  import opened HybridCheckpoint

  /** set(keys) in some order. */
  method Unique(keys: seq<nat>) returns (r: seq<nat>)
    ensures Distinct(r) && (forall k :: k in r <==> k in keys) && (|r| == |keys| <==> Distinct(keys))
  {
    r := [];
    for i := 0 to |keys|
      invariant Distinct(r) && |r| <= i && forall k :: k in r <==> k in keys[..i]
      invariant |r| == i <==> Distinct(keys[..i])
    {
      NextDistinct(keys, i);
      if keys[i] !in r { r := r + [keys[i]]; }
      assert forall k :: k in keys[..i + 1] <==> k in keys[..i] || k == keys[i];
    }
    assert keys[..|keys|] == keys;
  }

  lemma NextDistinct(keys: seq<nat>, i: nat)
    requires i < |keys|
    ensures Distinct(keys[..i + 1]) <==> Distinct(keys[..i]) && keys[i] !in keys[..i]
  {
    var a, b := keys[..i], keys[..i + 1];
    if Distinct(b) {
      forall j, k | 0 <= j < k < |a| ensures a[j] != a[k] { assert b[j] != b[k]; }
      forall j | 0 <= j < i ensures keys[j] != keys[i] { assert b[j] != b[i]; }
    }
  }

  /** The references in the cells of these fields and indexes. */
  method GatherRefs<V>(cells: Cells<V>, fields: seq<string>, keys: seq<nat>) returns (refs: seq<Ref>, ghost slots: seq<Slot>)
    requires Distinct(fields) && Distinct(keys)
    ensures refs == RefsAt(cells, slots) && Distinct(slots)
    ensures forall s :: s in slots <==> s.field in fields && s.index in keys
  {
    refs, slots := [], [];
    for c := 0 to |fields|
      invariant refs == RefsAt(cells, slots) && Distinct(slots)
      invariant forall s :: s in slots <==> s.field in fields[..c] && s.index in keys
    {
      for i := 0 to |keys|
        invariant refs == RefsAt(cells, slots) && Distinct(slots)
        invariant forall s :: s in slots <==> (s.field in fields[..c] && s.index in keys) || (s.field == fields[c] && s.index in keys[..i])
      {
        var s := Slot(fields[c], keys[i]);
        assert s !in slots;
        assert (slots + [s])[..|slots|] == slots;
        var ref := RefAt(cells, s);
        refs := refs + if ref.Some? then [ref.value] else [];
        slots := slots + [s];
        assert forall k :: k in keys[..i + 1] <==> k in keys[..i] || k == keys[i];
      }
      assert keys[..|keys|] == keys;
      assert forall f :: f in fields[..c + 1] <==> f in fields[..c] || f == fields[c];
    }
    assert fields[..|fields|] == fields;
  }

  class HybridStorageUnitData<V(!new)> {
    const codec: Codec<V>
    const threshold: nat
    /** The inherited part: the field map, the active indexes and the capacity. */
    const base: StorageUnitData<Held<V>>
    const store: SSDFileStore
    var ssdActiveValues: int
    var ssdActiveBytes: int
    var ssdFallbackValues: nat

    /** The cells and the files fit, and the counters are the number and the total size of the files. */
    ghost predicate Valid()
      reads this, base, store
    {
      && Invertible(codec) && store.Valid() && Fit(base.fieldData, store.files)
      && ssdActiveValues == Count(store.files, store.next) && ssdActiveBytes == Bytes(store.files, store.next)
    }

    /** The plain unit that holds the same values. */
    ghost function View(): Unit<V>
      requires Valid()
      reads this, base, store
    {
      FitIsReadable(base.fieldData, store.files);
      Unit(Decoded(codec, store.files, base.fieldData), base.activeKeys, base.storageSize)
    }

    constructor (codec: Codec<V>, threshold: nat, storageSize: Option<nat>, fails: nat -> bool)
      requires Invertible(codec)
      ensures Valid() && View() == Unit(map[], {}, storageSize) && fresh(base) && fresh(store)
      ensures this.codec == codec && this.threshold == threshold && store.fails == fails
    {
      this.codec, this.threshold := codec, threshold;
      base := new StorageUnitData(storageSize);
      store := new SSDFileStore(fails);
      ssdActiveValues, ssdActiveBytes, ssdFallbackValues := 0, 0, 0;
      new;
      EmptyFits(base.fieldData);
      NoFileAbove(map[], 0, store.next);
    }

    /** _prepare_field_values: encodes one field and writes its large values. */
    method PrepareFieldValues(values: seq<V>) returns (r: Option<(seq<Held<V>>, seq<Ref>, nat)>)
      requires store.Valid()
      modifies store
      ensures store.Valid() && old(store.next) <= store.next
      ensures r.None? ==> store.files == old(store.files) && exists p :: old(store.next) <= p < store.next && store.fails(p)
      ensures r.Some? ==> PreparedRow(codec, threshold, store.files, values, r.value.0) && RowWritten(r.value.0, r.value.1)
      ensures r.Some? ==> Grown(old(store.files), old(store.next), store.files, r.value.1)
    {
      var row, positions, samples, fallback := BigValues(values);
      var written := store.WriteValues(samples);
      if written.None? {
        return None;
      }
      var entries := written.value;
      PositionsFit(codec, threshold, values, positions, samples);
      hide BigAt;
      row := FillRow(values, row, positions, entries);
      RowReady(codec, threshold, old(store.files), old(store.next), store.files, values, row, positions, samples, entries);
      r := Some((row, entries, fallback));
    }

    /** Writes the files of every field before anything is replaced; if one write fails, none of the files stays. */
    method PrepareAll(data: seq<Column<V>>) returns (r: Option<(seq<Column<Held<V>>>, seq<Ref>, nat)>)
      requires store.Valid()
      modifies store
      ensures store.Valid() && old(store.next) <= store.next
      ensures r.None? ==> store.files == old(store.files) && exists p :: old(store.next) <= p < store.next && store.fails(p)
      ensures r.Some? ==> PreparedData(codec, threshold, store.files, data, r.value.0) && DataWritten(r.value.0, r.value.1)
      ensures r.Some? ==> Grown(old(store.files), old(store.next), store.files, r.value.1)
    {
      var prepared: seq<Column<Held<V>>>, entries: seq<Ref>, fallback := [], [], 0;
      for c := 0 to |data|
        invariant store.Valid() && old(store.next) <= store.next
        invariant PreparedData(codec, threshold, store.files, data[..c], prepared) && DataWritten(prepared, entries)
        invariant Grown(old(store.files), old(store.next), store.files, entries)
      {
        ghost var mid, next := store.files, store.next;
        var row := PrepareFieldValues(data[c].values);
        if row.None? {
          store.UnlinkAll(entries);
          return None;
        }
        OneMoreColumn(codec, threshold, old(store.files), old(store.next), mid, next, store.files, data, c, prepared, entries, row.value.0, row.value.1);
        prepared := prepared + [Column(data[c].field, row.value.0)];
        entries := entries + row.value.1;
        fallback := fallback + row.value.2;
      }
      assert data[..|data|] == data;
      r := Some((prepared, entries, fallback));
    }

    /** Nothing that a caller or a later operation can see has changed. */
    twostate predicate Untouched()
      reads this, base, store
    {
      && base.View() == old(base.View()) && store.files == old(store.files)
      && ssdActiveValues == old(ssdActiveValues) && ssdActiveBytes == old(ssdActiveBytes) && ssdFallbackValues == old(ssdFallbackValues)
    }

    method PutData(data: seq<Column<V>>, keys: seq<nat>) returns (r: Result<()>)
      requires Valid() && DistinctFields(data)
      modifies this, base, store
      ensures Valid() && old(store.next) <= store.next
      ensures r.Err? ==> Untouched()
      ensures r == Err(IOFailed) ==> exists p :: old(store.next) <= p < store.next && store.fails(p)
      ensures r != Err(IOFailed) ==> match Put(old(View()), data, keys)
                                     case Err(e) => r == Err(e)
                                     case Ok(u) => r == Ok(()) && View() == u
      ensures r != Err(IOFailed) ==> match r
                                     case Err(e) => PutFails(old(View()), data, keys, e)
                                     case Ok(_) => PutCells(old(View()), View(), data, keys)
    {
      hide PutFails, PutCells, PutColumns, NewCount, RefsAt, Readable;
      PutWrites(View(), data, keys);
      if keys == [] || data == [] {
        r := PutNothing(data, keys);
        return;
      }
      var unique := Unique(keys);
      var hasDuplicates := |unique| != |keys|;
      var names := FieldNames(data);
      var oldRefs, slots := GatherRefs(base.fieldData, names, unique);
      var all := PrepareAll(data);
      if all.None? {
        NoFileAbove(store.files, old(store.next), store.next);
        return Err(IOFailed);
      }
      var prepared, entries := all.value.0, all.value.1;
      SameNames(codec, threshold, store.files, data, prepared);
      r := base.PutData(prepared, keys);
      if r.Err? {
        store.UnlinkAll(entries);
        NoFileAbove(store.files, old(store.next), store.next);
        return;
      }
      ghost var m := Commit(old(base.fieldData), old(store.files), old(store.next), prepared, keys, store.files, entries, slots);
      SlotsReplaced(data, prepared, keys, names, unique, slots);
      assert Ready(m) && base.fieldData == After(m);
      hide Ready, Fit, Grown, DataWritten, AreReplaced;
      ghost var kept := Settle(m, entries, oldRefs, names, unique, hasDuplicates, all.value.2);
      CommitValues(m, kept, codec, threshold, data);
    }

    /** Deletes the files that the put made obsolete and counts. */
    method Settle(ghost m: Commit<V>, entries: seq<Ref>, oldRefs: seq<Ref>, names: seq<string>, unique: seq<nat>, hasDuplicates: bool, fallback: nat)
      returns (ghost kept: set<nat>)
      requires Ready(m) && store.Valid() && m.first <= store.next && store.files == m.grown && base.fieldData == After(m)
      requires ssdActiveValues == Count(m.files, m.first) && ssdActiveBytes == Bytes(m.files, m.first)
      requires entries == m.entries && oldRefs == RefsAt(m.cells, m.slots) && (hasDuplicates <==> !Distinct(m.keys))
      requires Distinct(names) && Distinct(unique) && forall s :: s in m.slots <==> s.field in names && s.index in unique
      modifies this, store`files
      ensures Keeps(m, kept) && store.files == Remaining(m, kept) && store.Valid() && Fit(base.fieldData, store.files)
      ensures ssdActiveValues == Count(store.files, store.next) && ssdActiveBytes == Bytes(store.files, store.next)
    {
      var obsolete := oldRefs;
      kept := Paths(entries);
      if hasDuplicates {
        var retained, same := GatherRefs(base.fieldData, names, unique);
        SamePaths(base.fieldData, same, m.slots);
        kept := Paths(retained);
        obsolete := obsolete + NotKept(entries, Paths(retained));
      }
      hide *;
      Committed(m, kept, obsolete, store.next);
      ssdActiveValues := ssdActiveValues + |entries| - |obsolete|;
      ssdActiveBytes := ssdActiveBytes + TotalSize(entries) - TotalSize(obsolete);
      ssdFallbackValues := ssdFallbackValues + fallback;
      store.UnlinkAll(obsolete);
    }

    /** No index or no field: handed to the inherited put_data as it is. */
    method PutNothing(data: seq<Column<V>>, keys: seq<nat>) returns (r: Result<()>)
      requires Valid() && DistinctFields(data) && (keys == [] || data == [])
      modifies this, base, store
      ensures Valid() && store.next == old(store.next)
      ensures r.Err? ==> Untouched()
      ensures match Put(old(View()), data, keys)
              case Err(e) => r == Err(e)
              case Ok(u) => r == Ok(()) && View() == u
    {
      ghost var plain := View();
      var inline := Inlined(data);
      r := base.PutData(inline, keys);
      InlinedNames(data, inline);
      if r.Ok? {
        ghost var m := Commit(old(base.fieldData), store.files, store.next, inline, keys, store.files, [], []);
        NothingReplaced(m, codec, threshold, data);
        CommitFits(m, {});
        CommitValues(m, {}, codec, threshold, data);
      }
    }

    /** What the plain unit would return, errors included; no file is missing or of the wrong size. */
    method GetData(names: seq<string>, keys: seq<nat>) returns (r: Result<map<string, seq<V>>>)
      requires Valid()
      ensures r == Get(View().fields, names, keys) && Reads(View().fields, names, keys, r)
      ensures r.Ok? <==> forall f :: f in names ==> HoldsAll(View().fields, f, keys)
    {
      hide Reads, HoldsAll;
      GetReads(View().fields, names, keys);
      var got := base.GetData(names, keys);
      FitIsReadable(base.fieldData, store.files);
      GetDecoded(codec, store.files, base.fieldData, names, keys);
      if got.Err? {
        return Err(got.error);
      }
      GetStored(base.fieldData, store.files, names, keys);
      var rows := got.value;
      assert Get(View().fields, names, keys) == Ok(DecodedRows(codec, store.files, rows));
      var values: map<string, seq<V>> := map[];
      var todo := rows.Keys;
      while todo != {}
        invariant todo <= rows.Keys && values.Keys == rows.Keys - todo
        invariant forall f :: f in values ==> values[f] == DecodedSeq(codec, store.files, rows[f])
        decreases |todo|
      {
        var f :| f in todo;
        assert RowStored(rows[f], store.files);
        var row := DecodeRow(rows[f]);
        values := values[f := row.value];
        todo := todo - {f};
      }
      assert values == DecodedRows(codec, store.files, rows);
      r := Ok(values);
    }

    method DecodeRow(row: seq<Held<V>>) returns (r: Option<seq<V>>)
      requires store.Valid()
      ensures r.Some? <==> RowStored(row, store.files)
      ensures r.Some? ==> r.value == DecodedSeq(codec, store.files, row)
    {
      var values: seq<V> := [];
      for i := 0 to |row|
        invariant |values| == i && forall j :: 0 <= j < i ==> CellStored(row[j], store.files) && values[j] == ValueOf(codec, store.files, row[j])
      {
        match row[i]
        case Inline(v) =>
          values := values + [v];
        case OnSSD(ref) =>
          var raw := store.ReadValueFile(ref);
          if raw.None? {
            assert !CellStored(row[i], store.files);
            return None;
          }
          values := values + [codec.decode(raw.value, ref.kind)];
      }
      r := Some(values);
    }

    method Clear(keys: seq<nat>, only: Option<seq<string>>)
      requires Valid()
      modifies this, base, store`files
      ensures Valid() && View() == Cleared(old(View()), keys, only) && ClearedCells(old(View()), View(), keys, only)
    {
      hide ClearedCells, Fit, Cleared, CoversGone, RefsAt;
      ClearRemoves(View(), keys, only);
      var unique := Unique(keys);
      var names := ClearedNames(base.fieldData, only);
      var refs, slots := GatherRefs(base.fieldData, names, unique);
      ghost var u, files := base.View(), store.files;
      GoneSlots(u.fields, keys, only, names, unique, slots);
      ClearedRest(u, View(), keys, only);
      base.Clear(keys, only);
      ClearFits(u, files, keys, only, slots);
      ClearCounts(u.fields, files, slots, store.next);
      ClearValues(codec, u, files, keys, only, slots);
      hide *;
      ssdActiveValues := ssdActiveValues - |refs|;
      ssdActiveBytes := ssdActiveBytes - TotalSize(refs);
      store.UnlinkAll(refs);
    }

    /** The inherited apply_update, on values read back from the files. */
    method ApplyUpdate(keys: seq<nat>, data: seq<Column<V>>, up: Update<V>) returns (r: Result<()>)
      requires Valid() && DistinctFields(data)
      modifies this, base, store
      ensures Valid() && old(store.next) <= store.next
      ensures r.Err? ==> Untouched()
      ensures r == Err(IOFailed) ==> exists p :: old(store.next) <= p < store.next && store.fails(p)
      ensures r != Err(IOFailed) ==> match Updated(old(View()), keys, data, up)
                                     case Err(e) => r == Err(e)
                                     case Ok(u) => r == Ok(()) && View() == u
      ensures r != Err(IOFailed) ==> match r
                                     case Err(e) => UpdateFails(old(View()), keys, data, up, e)
                                     case Ok(_) => UpdatedCells(old(View()), View(), keys, data, up)
    {
      hide UpdateFails, UpdatedCells, PutFails, PutCells;
      UpdateWrites(View(), keys, data, up);
      var computed := MergeAll(keys, data, up);
      if computed.Err? {
        MergeErrors(View().fields, data, keys, up);
        return Err(computed.error);
      }
      r := PutData(computed.value, keys);
    }

    method MergeAll(keys: seq<nat>, data: seq<Column<V>>, up: Update<V>) returns (r: Result<seq<Column<V>>>)
      requires Valid() && DistinctFields(data)
      ensures r == MergeColumns(View().fields, data, keys, up)
      ensures r.Ok? ==> DistinctFields(r.value)
    {
      var computed: seq<Column<V>> := [];
      for c := 0 to |data|
        invariant MergeColumns(View().fields, data[..c], keys, up) == Ok(computed)
        invariant |computed| == c && forall d :: 0 <= d < c ==> computed[d].field == data[d].field
      {
        assert data[..c + 1][..c] == data[..c];
        var merged := MergeField(data[c], keys, up);
        if merged.Err? {
          MergeFails(View().fields, data, keys, up, c);
          return Err(merged.error);
        }
        computed := computed + [merged.value];
      }
      assert data[..|data|] == data;
      r := Ok(computed);
    }

    method MergeField(column: Column<V>, keys: seq<nat>, up: Update<V>) returns (r: Result<Column<V>>)
      requires Valid()
      ensures r == MergeColumn(View().fields, column, keys, up)
    {
      if column.field !in up.plans { return Err(PlanMismatch); }
      var plan := up.plans[column.field];
      var present := HeldRows(plan.held);
      var held: seq<V> := [];
      if present != [] {
        if exists i :: 0 <= i < |present| && present[i] >= |keys| { return Err(PlanMismatch); }
        var got := GetData([column.field], At(keys, present));
        GetOne(View().fields, column.field, keys, present);
        if got.Err? { return Err(got.error); }
        held := got.value[column.field];
      }
      r := FinishColumn(column, plan, present, held, up.merge);
    }

    method SaveCheckpoint() returns (saved: Checkpoint<V>)
      requires Valid()
      ensures Complete(saved) && Restored(codec, saved) == View().fields
      ensures saved.active == base.activeKeys && saved.size == base.storageSize
    {
      var slots := SSDSlots(base.fieldData);
      var index: seq<Entry>, blobs: Files := [], map[];
      RefsAtDistinct(base.fieldData, store.files, slots);
      for i := 0 to |slots|
        invariant |index| == i && forall j :: 0 <= j < i ==> SavedEntry(base.fieldData, store.files, slots[j], index[j], blobs)
        invariant forall p :: p in blobs ==> p in store.files && blobs[p] == store.files[p]
      {
        assert slots[i] in slots;
        var ref := RefAt(base.fieldData, slots[i]).value;
        var raw := store.ReadValueFile(ref);
        blobs := blobs[ref.path := raw.value];
        index := index + [Entry(slots[i], ref)];
      }
      var inline := map f | f in base.fieldData :: map k | k in base.fieldData[f] && base.fieldData[f][k].Inline? :: base.fieldData[f][k].value;
      saved := Checkpoint(base.storageSize, inline, index, blobs, base.activeKeys);
      SavedRestores(codec, base.fieldData, store.files, slots, saved);
    }

    /** Every file is copied in before anything is replaced; a missing, short or unwritable file changes nothing. */
    method LoadCheckpoint(saved: Checkpoint<V>) returns (r: Result<Option<nat>>)
      requires Valid() && DistinctEntries(saved.index)
      modifies this, base, store
      ensures Valid() && old(store.next) <= store.next
      ensures r.Err? ==> Untouched() && r == Err(IOFailed)
      ensures r.Err? ==> !Complete(saved) || exists p :: old(store.next) <= p < store.next && store.fails(p)
      ensures r.Ok? ==> Complete(saved) && r.value == saved.size && View() == Unit(Restored(codec, saved), saved.active, base.storageSize)
    {
      var oldSlots := SSDSlots(base.fieldData);
      var oldRefs := RefsAt(base.fieldData, oldSlots);
      ghost var was := base.fieldData;
      var imported := ImportAll(saved);
      if imported.None? {
        NoFileAbove(store.files, old(store.next), store.next);
        return Err(IOFailed);
      }
      var cells, restored := imported.value.0, imported.value.1;
      LoadFits(codec, saved, was, old(store.files), old(store.next), store.files, restored, oldSlots, store.next);
      hide *;
      var _ := base.LoadCheckpoint(Unit(cells, saved.active, saved.size));
      ssdActiveValues := |restored|;
      ssdActiveBytes := TotalSize(restored);
      store.UnlinkAll(oldRefs);
      r := Ok(saved.size);
    }

    method ImportAll(saved: Checkpoint<V>) returns (r: Option<(Cells<V>, seq<Ref>)>)
      requires store.Valid() && DistinctEntries(saved.index)
      modifies store
      ensures store.Valid() && old(store.next) <= store.next
      ensures r.None? ==> store.files == old(store.files) && (!Complete(saved) || exists p :: old(store.next) <= p < store.next && store.fails(p))
      ensures r.Some? ==> Complete(saved) && Imported(saved, store.files, r.value.1) && r.value.0 == LoadedCells(saved, r.value.1)
      ensures r.Some? ==> Grown(old(store.files), old(store.next), store.files, r.value.1)
    {
      var cells: Cells<V>, refs: seq<Ref> := InlineCells(saved.fields), [];
      for i := 0 to |saved.index|
        invariant store.Valid() && old(store.next) <= store.next
        invariant |refs| == i && forall j :: 0 <= j < i ==> ImportedOne(saved, store.files, saved.index[j].ref, refs[j])
        invariant cells == SetCells(InlineCells(saved.fields), SlotsOf(saved.index[..i]), OnFiles(refs))
        invariant Grown(old(store.files), old(store.next), store.files, refs)
      {
        ghost var mid, next := store.files, store.next;
        var ref := store.ImportFile(saved.blobs, saved.index[i].ref);
        if ref.None? {
          store.UnlinkAll(refs);
          return None;
        }
        GrownOne(mid, next, saved.blobs[saved.index[i].ref.path], saved.index[i].ref.kind);
        hide Grown;
        OneMoreImported(saved, old(store.files), old(store.next), mid, next, store.files, refs, ref.value, i);
        cells := SetCell(cells, saved.index[i].slot, OnSSD(ref.value));
        refs := refs + [ref.value];
      }
      assert saved.index[..|saved.index|] == saved.index;
      r := Some((cells, refs));
    }

    method FillRow(values: seq<V>, inline: seq<Held<V>>, positions: seq<nat>, entries: seq<Ref>) returns (row: seq<Held<V>>)
      requires |inline| == |values| && |entries| == |positions| && forall i :: 0 <= i < |values| ==> inline[i] == Inline(values[i])
      requires (forall j :: 0 <= j < |positions| ==> positions[j] < |values|) && forall i, j :: 0 <= i < j < |positions| ==> positions[i] < positions[j]
      ensures |row| == |values| && forall l :: 0 <= l < |positions| ==> row[positions[l]] == OnSSD(entries[l])
      ensures forall i :: 0 <= i < |row| && i !in positions ==> row[i] == Inline(values[i])
    {
      row := inline;
      for j := 0 to |positions|
        invariant |row| == |values|
        invariant forall i :: 0 <= i < |row| && i !in positions ==> row[i] == Inline(values[i])
        invariant forall l :: 0 <= l < j ==> row[positions[l]] == OnSSD(entries[l])
      {
        row := row[positions[j] := OnSSD(entries[j])];
      }
    }

    /** The values to be written, and where they belong. */
    method BigValues(values: seq<V>) returns (row: seq<Held<V>>, positions: seq<nat>, samples: seq<Encoded>, fallback: nat)
      ensures |row| == |values| && forall i :: 0 <= i < |row| ==> row[i] == Inline(values[i])
      ensures BigAt(codec, threshold, values, positions, samples)
    {
      row, positions, samples, fallback := [], [], [], 0;
      for i := 0 to |values|
        invariant |row| == i && forall j :: 0 <= j < i ==> row[j] == Inline(values[j])
        invariant BigAt(codec, threshold, values[..i], positions, samples)
      {
        var encoded := codec.encode(values[i]);
        row := row + [Inline(values[i])];
        NextBig(codec, threshold, values, i, positions, samples);
        if encoded.Some? && |encoded.value.payload| >= threshold {
          positions, samples := positions + [i], samples + [encoded.value];
        } else if encoded.None? {
          fallback := fallback + 1;
        }
      }
      assert values[..|values|] == values;
    }
  }

  lemma EmptyFits<V>(cells: Cells<V>)
    requires cells == map[]
    ensures Fit(cells, map[])
  {
  }

  /** The positions of the large values, in order, and their encodings. */
  ghost predicate BigAt<V>(codec: Codec<V>, threshold: nat, values: seq<V>, positions: seq<nat>, samples: seq<Encoded>) {
    && |positions| == |samples|
    && (forall j :: 0 <= j < |positions| ==> BigPosition(codec, threshold, values, positions[j], samples[j]))
    && (forall i, j :: 0 <= i < j < |positions| ==> positions[i] < positions[j])
    && (forall i :: 0 <= i < |values| && Big(codec, threshold, values[i]) ==> i in positions)
  }

  ghost predicate BigPosition<V>(codec: Codec<V>, threshold: nat, values: seq<V>, i: nat, e: Encoded) {
    i < |values| && Big(codec, threshold, values[i]) && codec.encode(values[i]) == Some(e)
  }

  lemma PositionsFit<V>(codec: Codec<V>, threshold: nat, values: seq<V>, positions: seq<nat>, samples: seq<Encoded>)
    requires BigAt(codec, threshold, values, positions, samples)
    ensures |positions| == |samples| && (forall j :: 0 <= j < |positions| ==> positions[j] < |values|)
    ensures forall i, j :: 0 <= i < j < |positions| ==> positions[i] < positions[j]
  {
    forall j | 0 <= j < |positions| ensures positions[j] < |values| {
      assert BigPosition(codec, threshold, values, positions[j], samples[j]);
    }
  }

  lemma NextBig<V>(codec: Codec<V>, threshold: nat, values: seq<V>, i: nat, positions: seq<nat>, samples: seq<Encoded>)
    requires i < |values| && BigAt(codec, threshold, values[..i], positions, samples)
    ensures if Big(codec, threshold, values[i]) then BigAt(codec, threshold, values[..i + 1], positions + [i], samples + [codec.encode(values[i]).value])
            else BigAt(codec, threshold, values[..i + 1], positions, samples)
  {
    var all := values[..i + 1];
    forall j | 0 <= j < |positions| ensures BigPosition(codec, threshold, all, positions[j], samples[j]) && positions[j] < i {
      assert BigPosition(codec, threshold, values[..i], positions[j], samples[j]);
    }
    forall k | 0 <= k < i && Big(codec, threshold, all[k]) ensures k in positions {
      assert values[..i][k] == all[k];
    }
    if Big(codec, threshold, values[i]) {
      var more := positions + [i];
      assert more[|positions|] == i;
      assert BigPosition(codec, threshold, all, i, codec.encode(values[i]).value);
    }
  }

  lemma RowPrepared<V>(codec: Codec<V>, threshold: nat, first: nat, now: Files, values: seq<V>, row: seq<Held<V>>,
                       positions: seq<nat>, samples: seq<Encoded>, entries: seq<Ref>)
    requires BigAt(codec, threshold, values, positions, samples) && Written(now, first, entries, samples) && |row| == |values|
    requires forall i :: 0 <= i < |row| && i !in positions ==> row[i] == Inline(values[i])
    requires forall l :: 0 <= l < |positions| ==> positions[l] < |row| && row[positions[l]] == OnSSD(entries[l])
    ensures PreparedRow(codec, threshold, now, values, row)
  {
    forall i | 0 <= i < |row| ensures PreparedCell(codec, threshold, now, values[i], row[i]) {
      if i in positions {
        var l :| 0 <= l < |positions| && positions[l] == i;
        assert BigPosition(codec, threshold, values, positions[l], samples[l]) && WrittenOne(now, first, entries[l], samples[l]);
      }
    }
  }

  lemma RowRefs<V>(values: seq<V>, row: seq<Held<V>>, positions: seq<nat>, entries: seq<Ref>)
    requires |row| == |values| && |positions| == |entries| && DistinctPaths(entries)
    requires forall i :: 0 <= i < |row| && i !in positions ==> row[i] == Inline(values[i])
    requires forall l :: 0 <= l < |positions| ==> positions[l] < |row| && row[positions[l]] == OnSSD(entries[l])
    ensures RowWritten(row, entries)
  {
    forall i, ref | SSDCell(row, i, ref) ensures exists l :: 0 <= l < |positions| && positions[l] == i && entries[l] == ref {
      assert i in positions;
      var l :| 0 <= l < |positions| && positions[l] == i;
    }
    forall ref | HasRef(entries, ref) ensures RowHas(row, ref) {
      var l :| 0 <= l < |entries| && entries[l] == ref;
      assert SSDCell(row, positions[l], ref);
    }
  }

  lemma RowReady<V>(codec: Codec<V>, threshold: nat, files: Files, first: nat, now: Files, values: seq<V>, row: seq<Held<V>>,
                    positions: seq<nat>, samples: seq<Encoded>, entries: seq<Ref>)
    requires BigAt(codec, threshold, values, positions, samples) && Written(now, first, entries, samples) && |row| == |values|
    requires forall p :: p in files ==> p < first
    requires now.Keys == files.Keys + Paths(entries) && now - Paths(entries) == files
    requires forall i :: 0 <= i < |row| && i !in positions ==> row[i] == Inline(values[i])
    requires forall l :: 0 <= l < |positions| ==> positions[l] < |row| && row[positions[l]] == OnSSD(entries[l])
    ensures PreparedRow(codec, threshold, now, values, row) && RowWritten(row, entries) && Grown(files, first, now, entries)
  {
    RowPrepared(codec, threshold, first, now, values, row, positions, samples, entries);
    RowRefs(values, row, positions, entries);
    forall i | 0 <= i < |entries| ensures Stored(now, entries[i]) && entries[i].path >= first {
      assert WrittenOne(now, first, entries[i], samples[i]);
    }
  }

  /** Without indexes or without fields no cell is replaced. */
  lemma NothingReplaced<V>(m: Commit<V>, codec: Codec<V>, threshold: nat, data: seq<Column<V>>)
    requires m.slots == [] && m.entries == [] && m.grown == m.files && m.data == Inlined(data) && (m.keys == [] || data == [])
    requires Fit(m.cells, m.files) && LengthsMatch(m.data, |m.keys|) && DistinctFields(m.data) && forall p :: p in m.files ==> p < m.first
    ensures Ready(m) && Keeps(m, {}) && PreparedData(codec, threshold, m.grown, data, m.data)
    ensures Remaining(m, {}) == m.files
  {
    assert Paths(m.entries) == {} && m.grown - {} == m.files;
    assert Paths(RefsAt(After(m), m.slots)) == {};
    assert Obsolete(m, {}) == [];
    forall c | 0 <= c < |data| ensures |m.data[c].values| == 0 && |data[c].values| == 0 {
      assert m.data[c].field == data[c].field;
    }
  }

  lemma {:induction false} MergeErrors<V>(fields: Fields<V>, data: seq<Column<V>>, keys: seq<nat>, up: Update<V>)
    ensures MergeColumns(fields, data, keys, up) != Err(IOFailed)
  {
    if data != [] {
      var n := |data| - 1;
      MergeErrors(fields, data[..n], keys, up);
      if data[n].field in up.plans {
        var present := Present(up.plans[data[n].field].held);
        var held := HeldValues(fields, data[n].field, keys, present);
        if held.Ok? { CombineErrors(present, held.value, data[n].values, up.merge); }
      }
    }
  }

  lemma {:induction false} CombineErrors<V>(present: seq<nat>, held: seq<V>, values: seq<V>, merge: (V, V) -> Option<V>)
    requires |present| == |held|
    ensures Combine(present, held, values, merge) != Err(IOFailed)
  {
    if present != [] { CombineErrors(present[..|present| - 1], held[..|present| - 1], values, merge); }
  }

  // ---------------------------------------------------------------- reading

  ghost predicate CellStored<V>(cell: Held<V>, files: Files) {
    cell.OnSSD? ==> Stored(files, cell.ref)
  }

  ghost predicate RowStored<V>(row: seq<Held<V>>, files: Files)
    ensures RowStored(row, files) ==> forall i :: 0 <= i < |row| ==> ReadableCell(row[i], files)
  {
    forall i :: 0 <= i < |row| ==> CellStored(row[i], files)
  }

  lemma {:induction false} GetStored<V>(cells: Cells<V>, files: Files, names: seq<string>, keys: seq<nat>)
    requires Fit(cells, files)
    ensures Get(cells, names, keys).Ok? ==> forall f :: f in Get(cells, names, keys).value ==> RowStored(Get(cells, names, keys).value[f], files)
  {
    if names != [] {
      var n := |names| - 1;
      GetStored(cells, files, names[..n], keys);
      if names[n] in cells && HasAll(cells[names[n]], keys) {
        var row := Pick(cells[names[n]], keys);
        forall i | 0 <= i < |row| ensures CellStored(row[i], files) {
          assert keys[i] in keys;
          var s := Slot(names[n], keys[i]);
          assert RefAt(cells, s).Some? ==> Stored(files, RefAt(cells, s).value);
        }
      }
    }
  }

  // ---------------------------------------------------------------- clearing

  ghost predicate Gone(keys: seq<nat>, only: Option<seq<string>>, s: Slot) {
    s.index in keys && (only.None? || s.field in only.value)
  }

  /** The fields to look through. */
  method ClearedNames<V>(cells: Cells<V>, only: Option<seq<string>>) returns (names: seq<string>)
    ensures Distinct(names) && forall f :: f in names <==> f in cells && (only.None? || f in only.value)
  {
    names := [];
    var todo := cells.Keys;
    while todo != {}
      invariant todo <= cells.Keys && Distinct(names) && (forall f :: f in names ==> f !in todo)
      invariant forall f :: f in names <==> f in cells && f !in todo && (only.None? || f in only.value)
      decreases |todo|
    {
      var f :| f in todo;
      if only.None? || f in only.value { names := names + [f]; }
      todo := todo - {f};
    }
  }

  ghost predicate CoversGone<V>(cells: Cells<V>, keys: seq<nat>, only: Option<seq<string>>, slots: seq<Slot>) {
    Distinct(slots) && forall s :: s in slots <==> s.field in cells && Gone(keys, only, s)
  }

  lemma ClearedRest<A, B>(u: Unit<A>, v: Unit<B>, keys: seq<nat>, only: Option<seq<string>>)
    requires u.active == v.active && u.size == v.size
    ensures Cleared(u, keys, only).active == Cleared(v, keys, only).active && Cleared(u, keys, only).size == u.size == Cleared(v, keys, only).size
  {
  }

  lemma GoneSlots<V>(cells: Cells<V>, keys: seq<nat>, only: Option<seq<string>>, names: seq<string>, unique: seq<nat>, slots: seq<Slot>)
    requires Distinct(slots) && forall s :: s in slots <==> s.field in names && s.index in unique
    requires (forall f :: f in names <==> f in cells && (only.None? || f in only.value)) && forall k :: k in unique <==> k in keys
    ensures CoversGone(cells, keys, only, slots)
  {
  }

  lemma ClearedCell<V>(u: Unit<V>, keys: seq<nat>, only: Option<seq<string>>, f: string, k: nat)
    ensures f in Cleared(u, keys, only).fields <==> f in u.fields
    ensures Cell(Cleared(u, keys, only).fields, f, k) == if Gone(keys, only, Slot(f, k)) then None else Cell(u.fields, f, k)
  {
  }

  lemma ClearedRef<V>(u: Unit<Held<V>>, keys: seq<nat>, only: Option<seq<string>>, s: Slot)
    ensures RefAt(Cleared(u, keys, only).fields, s) == if Gone(keys, only, s) then None else RefAt(u.fields, s)
  {
    ClearedCell(u, keys, only, s.field, s.index);
  }

  lemma ClearFits<V>(u: Unit<Held<V>>, files: Files, keys: seq<nat>, only: Option<seq<string>>, slots: seq<Slot>)
    requires Fit(u.fields, files) && CoversGone(u.fields, keys, only, slots)
    ensures Fit(Cleared(u, keys, only).fields, files - Paths(RefsAt(u.fields, slots)))
  {
    var after, left := Cleared(u, keys, only).fields, files - Paths(RefsAt(u.fields, slots));
    forall s ensures RefAt(after, s) == if Gone(keys, only, s) then None else RefAt(u.fields, s) {
      ClearedRef(u, keys, only, s);
    }
    hide Cleared;
    forall s | RefAt(after, s).Some? ensures Stored(left, RefAt(after, s).value) {
      RefsAtPaths(u.fields, slots, RefAt(after, s).value.path);
      assert s !in slots && !RefIn(u.fields, slots, RefAt(after, s).value.path);
    }
    forall p | p in left ensures Referenced(after, p) {
      assert Referenced(u.fields, p);
      var s :| RefAt(u.fields, s).Some? && RefAt(u.fields, s).value.path == p;
      RefsAtPaths(u.fields, slots, p);
      assert s !in slots;
      assert RefAt(after, s).Some?;
    }
  }

  lemma ClearCounts<V>(cells: Cells<V>, files: Files, slots: seq<Slot>, next: nat)
    requires Fit(cells, files) && Distinct(slots) && forall p :: p in files ==> p < next
    ensures Count(files - Paths(RefsAt(cells, slots)), next) == Count(files, next) - |RefsAt(cells, slots)|
    ensures Bytes(files - Paths(RefsAt(cells, slots)), next) == Bytes(files, next) - TotalSize(RefsAt(cells, slots))
  {
    RefsAtDistinct(cells, files, slots);
    RemoveFiles(files, RefsAt(cells, slots), next);
  }

  lemma ClearValues<V>(codec: Codec<V>, u: Unit<Held<V>>, files: Files, keys: seq<nat>, only: Option<seq<string>>, slots: seq<Slot>)
    requires Fit(u.fields, files) && CoversGone(u.fields, keys, only, slots)
    ensures Readable(u.fields, files) && Readable(Cleared(u, keys, only).fields, files - Paths(RefsAt(u.fields, slots)))
    ensures Decoded(codec, files - Paths(RefsAt(u.fields, slots)), Cleared(u, keys, only).fields)
         == Cleared(Unit(Decoded(codec, files, u.fields), u.active, u.size), keys, only).fields
  {
    var after, left := Cleared(u, keys, only).fields, files - Paths(RefsAt(u.fields, slots));
    ClearFits(u, files, keys, only, slots);
    FitIsReadable(u.fields, files);
    FitIsReadable(after, left);
    var plain := Unit(Decoded(codec, files, u.fields), u.active, u.size);
    forall f, k ensures Cell(Decoded(codec, left, after), f, k) == Cell(Cleared(plain, keys, only).fields, f, k) {
      ClearedCell(u, keys, only, f, k);
      ClearedCell(plain, keys, only, f, k);
      DecodedCell(codec, left, after, f, k);
      DecodedCell(codec, files, u.fields, f, k);
    }
    SameFields(Decoded(codec, left, after), Cleared(plain, keys, only).fields);
  }

  function Inlined<V>(data: seq<Column<V>>): seq<Column<Held<V>>> {
    seq(|data|, c requires 0 <= c < |data| =>
      Column(data[c].field, seq(|data[c].values|, i requires 0 <= i < |data[c].values| => Inline(data[c].values[i]))))
  }

  lemma InlinedNames<V>(data: seq<Column<V>>, inline: seq<Column<Held<V>>>)
    requires inline == Inlined(data)
    ensures (forall f :: Named(data, f) <==> Named(inline, f)) && (DistinctFields(data) <==> DistinctFields(inline))
    ensures forall n: nat :: LengthsMatch(data, n) <==> LengthsMatch(inline, n)
  {
    forall c | 0 <= c < |data| ensures inline[c].field == data[c].field && |inline[c].values| == |data[c].values| {
    }
    hide Inlined;
    forall f ensures Named(data, f) <==> Named(inline, f) {
      if c :| 0 <= c < |data| && data[c].field == f { assert inline[c].field == f; }
    }
    forall n: nat ensures LengthsMatch(data, n) <==> LengthsMatch(inline, n) {
      if LengthsMatch(inline, n) {
        forall c | 0 <= c < |data| ensures |data[c].values| == n { assert |inline[c].values| == n; }
      }
    }
    if DistinctFields(inline) {
      forall c, d | 0 <= c < d < |data| ensures data[c].field != data[d].field { assert inline[c].field != inline[d].field; }
    }
  }

  method FieldNames<V>(data: seq<Column<V>>) returns (names: seq<string>)
    requires DistinctFields(data)
    ensures Distinct(names) && forall f :: f in names <==> Named(data, f)
  {
    names := seq(|data|, c requires 0 <= c < |data| => data[c].field);
    forall f ensures f in names <==> Named(data, f) {
      if c :| 0 <= c < |data| && data[c].field == f { assert names[c] == f; }
    }
  }

  lemma SlotsReplaced<V>(data: seq<Column<V>>, prepared: seq<Column<Held<V>>>, keys: seq<nat>, names: seq<string>, unique: seq<nat>, slots: seq<Slot>)
    requires Distinct(slots) && forall s :: s in slots <==> s.field in names && s.index in unique
    requires (forall f :: f in names <==> Named(data, f)) && (forall f :: Named(data, f) <==> Named(prepared, f))
    requires forall k :: k in unique <==> k in keys
    ensures AreReplaced(prepared, keys, slots)
  {
  }

  /** What is deleted is what the commit makes obsolete, and the counters follow. */
  lemma Committed<V>(m: Commit<V>, kept: set<nat>, obsolete: seq<Ref>, next: nat)
    requires Ready(m) && m.first <= next && forall p :: p in m.grown ==> p < next
    requires if Distinct(m.keys) then kept == Paths(m.entries) && obsolete == RefsAt(m.cells, m.slots)
             else kept == Paths(RefsAt(After(m), m.slots)) && obsolete == RefsAt(m.cells, m.slots) + NotKept(m.entries, kept)
    ensures Keeps(m, kept) && m.grown - Paths(obsolete) == Remaining(m, kept)
    ensures Fit(After(m), Remaining(m, kept))
    ensures Count(Remaining(m, kept), next) == Count(m.files, m.first) + |m.entries| - |obsolete|
    ensures Bytes(Remaining(m, kept), next) == Bytes(m.files, m.first) + TotalSize(m.entries) - TotalSize(obsolete)
  {
    if Distinct(m.keys) {
      NoneDropped(m.entries);
      assert obsolete + [] == obsolete;
    }
    assert Keeps(m, kept) && Obsolete(m, kept) == obsolete && m.grown - Paths(obsolete) == Remaining(m, kept);
    hide *;
    CommitFits(m, kept);
    CommitCounts(m, kept, next);
  }

  lemma NoneDropped(entries: seq<Ref>)
    ensures NotKept(entries, Paths(entries)) == []
  {
    forall i | 0 <= i < |entries| ensures entries[i].path in Paths(entries) {
    }
    AllKept(entries, Paths(entries));
  }

  lemma {:induction false} AllKept(entries: seq<Ref>, kept: set<nat>)
    requires forall i :: 0 <= i < |entries| ==> entries[i].path in kept
    ensures NotKept(entries, kept) == []
  {
    if entries != [] { AllKept(entries[..|entries| - 1], kept); }
  }

  lemma SamePaths<V>(cells: Cells<V>, a: seq<Slot>, b: seq<Slot>)
    requires forall s :: s in a <==> s in b
    ensures Paths(RefsAt(cells, a)) == Paths(RefsAt(cells, b))
  {
    forall p ensures p in Paths(RefsAt(cells, a)) <==> p in Paths(RefsAt(cells, b)) {
      if p >= 0 {
        RefsAtPaths(cells, a, p);
        RefsAtPaths(cells, b, p);
      }
    }
  }

  lemma OneMoreColumn<V>(codec: Codec<V>, threshold: nat, files: Files, first: nat, mid: Files, next: nat, now: Files,
                         data: seq<Column<V>>, c: nat, prepared: seq<Column<Held<V>>>, entries: seq<Ref>, row: seq<Held<V>>, more: seq<Ref>)
    requires c < |data| && PreparedData(codec, threshold, mid, data[..c], prepared) && DataWritten(prepared, entries)
    requires Grown(files, first, mid, entries) && Grown(mid, next, now, more) && first <= next
    requires PreparedRow(codec, threshold, now, data[c].values, row) && RowWritten(row, more)
    ensures PreparedData(codec, threshold, now, data[..c + 1], prepared + [Column(data[c].field, row)])
    ensures DataWritten(prepared + [Column(data[c].field, row)], entries + more)
    ensures Grown(files, first, now, entries + more)
  {
    GrownMore(files, first, mid, entries, next, now, more);
    DataWrittenMore(prepared, entries, Column(data[c].field, row), more);
    PreparedStays(codec, threshold, mid, now, more, next, data[..c], prepared);
    assert data[..c + 1] == data[..c] + [data[c]];
    hide PreparedRow, DataWritten, Grown;
    var all := prepared + [Column(data[c].field, row)];
    forall d | 0 <= d < |all| ensures all[d].field == data[..c + 1][d].field && PreparedRow(codec, threshold, now, data[..c + 1][d].values, all[d].values) {
      assert d < c ==> data[..c][d] == data[d];
    }
  }
}
