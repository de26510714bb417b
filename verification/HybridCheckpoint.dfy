/**
 Checkpoints of a hybrid unit (transfer_queue/storage/simple_storage.py): a manifest with the values held in memory, an
 index of the cells that refer to files, and copies of the files.
 */
module HybridCheckpoint {
  import opened Prelude
  import opened Storage
  import opened SsdFiles
  import opened HybridCells
  import opened HybridPut

  /** One entry of the manifest's index: a cell, and its file beside the manifest. */
  datatype Entry = Entry(slot: Slot, ref: Ref)

  datatype Checkpoint<V> = Checkpoint(size: Option<nat>, fields: Fields<V>, index: seq<Entry>, blobs: Files, active: set<nat>)

  ghost predicate DistinctEntries(index: seq<Entry>) {
    forall i, j :: 0 <= i < j < |index| ==> index[i].slot != index[j].slot
  }

  /** Every file of the index is there, with its size. */
  ghost predicate Complete<V>(saved: Checkpoint<V>) {
    DistinctEntries(saved.index) && forall i :: 0 <= i < |saved.index| ==> Stored(saved.blobs, saved.index[i].ref)
  }

  function SetCell<V>(fields: Fields<V>, s: Slot, v: V): Fields<V> {
    fields[s.field := FieldOf(fields, s.field)[s.index := v]]
  }

  function SetCells<V>(fields: Fields<V>, slots: seq<Slot>, values: seq<V>): Fields<V>
    requires |slots| == |values|
  {
    if slots == [] then fields else
      var n := |slots| - 1;
      SetCell(SetCells(fields, slots[..n], values[..n]), slots[n], values[n])
  }

  function SlotsOf(index: seq<Entry>): seq<Slot> {
    seq(|index|, i requires 0 <= i < |index| => index[i].slot)
  }

  ghost function FileValues<V>(codec: Codec<V>, saved: Checkpoint<V>): seq<V>
    requires Complete(saved)
  {
    seq(|saved.index|, i requires 0 <= i < |saved.index| =>
      assert Stored(saved.blobs, saved.index[i].ref); codec.decode(saved.blobs[saved.index[i].ref.path], saved.index[i].ref.kind))
  }

  /** The values of a checkpoint: those in the manifest, and over them those in the files. */
  ghost function Restored<V>(codec: Codec<V>, saved: Checkpoint<V>): Fields<V>
    requires Complete(saved)
  {
    SetCells(saved.fields, SlotsOf(saved.index), FileValues(codec, saved))
  }

  function InlineCells<V>(fields: Fields<V>): Cells<V> {
    map f | f in fields :: map k | k in fields[f] :: Inline(fields[f][k])
  }

  ghost predicate SavedEntry<V>(cells: Cells<V>, files: Files, s: Slot, e: Entry, blobs: Files) {
    && RefAt(cells, s) == Some(e.ref) && e.slot == s
    && e.ref.path in files && e.ref.path in blobs && blobs[e.ref.path] == files[e.ref.path] && |blobs[e.ref.path]| == e.ref.size
  }

  /** Every cell that refers to a file. */
  method SSDSlots<V>(cells: Cells<V>) returns (slots: seq<Slot>)
    ensures Distinct(slots) && forall s :: s in slots <==> RefAt(cells, s).Some?
  {
    slots := [];
    var todo := cells.Keys;
    while todo != {}
      invariant todo <= cells.Keys && Distinct(slots)
      invariant forall s :: s in slots <==> RefAt(cells, s).Some? && s.field !in todo
      decreases |todo|
    {
      var f :| f in todo;
      var keys := cells[f].Keys;
      while keys != {}
        invariant keys <= cells[f].Keys && Distinct(slots)
        invariant forall s :: s in slots <==> RefAt(cells, s).Some? && (s.field !in todo || (s.field == f && s.index !in keys))
        decreases |keys|
      {
        var k :| k in keys;
        if cells[f][k].OnSSD? {
          assert Slot(f, k) !in slots;
          slots := slots + [Slot(f, k)];
        }
        keys := keys - {k};
      }
      todo := todo - {f};
    }
  }

  lemma SavedRestores<V>(codec: Codec<V>, cells: Cells<V>, files: Files, slots: seq<Slot>, saved: Checkpoint<V>)
    requires Fit(cells, files) && Distinct(slots) && forall s :: s in slots <==> RefAt(cells, s).Some?
    requires |saved.index| == |slots| && forall j :: 0 <= j < |slots| ==> SavedEntry(cells, files, slots[j], saved.index[j], saved.blobs)
    requires saved.fields == map f | f in cells :: map k | k in cells[f] && cells[f][k].Inline? :: cells[f][k].value
    ensures Complete(saved) && Readable(cells, files) && Restored(codec, saved) == Decoded(codec, files, cells)
  {
    FitIsReadable(cells, files);
    forall i | 0 <= i < |saved.index| ensures Stored(saved.blobs, saved.index[i].ref) && saved.index[i].slot == slots[i] {
      assert SavedEntry(cells, files, slots[i], saved.index[i], saved.blobs);
    }
    assert SlotsOf(saved.index) == slots;
    forall f, k ensures Cell(Restored(codec, saved), f, k) == Cell(Decoded(codec, files, cells), f, k) {
      SavedCell(codec, cells, files, slots, saved, f, k);
    }
    forall f ensures f in Restored(codec, saved) <==> f in cells {
      SetCellsFields(saved.fields, slots, FileValues(codec, saved), f);
      if i :| 0 <= i < |slots| && slots[i].field == f { assert slots[i] in slots; }
    }
    SameFields(Restored(codec, saved), Decoded(codec, files, cells));
  }

  lemma {:induction false} SetCellsFields<V>(fields: Fields<V>, slots: seq<Slot>, values: seq<V>, f: string)
    requires |slots| == |values|
    ensures f in SetCells(fields, slots, values) <==> f in fields || exists i :: 0 <= i < |slots| && slots[i].field == f
  {
    if slots != [] {
      var n := |slots| - 1;
      SetCellsFields(fields, slots[..n], values[..n], f);
      if i :| 0 <= i < |slots| && slots[i].field == f { assert i < n ==> slots[..n][i].field == f; }
    }
  }

  lemma {:induction false} SetCellsAt<V>(fields: Fields<V>, slots: seq<Slot>, values: seq<V>, s: Slot)
    requires |slots| == |values| && Distinct(slots)
    ensures forall i :: 0 <= i < |slots| && slots[i] == s ==> Cell(SetCells(fields, slots, values), s.field, s.index) == Some(values[i])
    ensures s !in slots ==> Cell(SetCells(fields, slots, values), s.field, s.index) == Cell(fields, s.field, s.index)
  {
    if slots != [] {
      var n := |slots| - 1;
      SetCellsAt(fields, slots[..n], values[..n], s);
      assert forall i :: 0 <= i < n ==> slots[..n][i] == slots[i];
    }
  }

  lemma SavedCell<V>(codec: Codec<V>, cells: Cells<V>, files: Files, slots: seq<Slot>, saved: Checkpoint<V>, f: string, k: nat)
    requires Fit(cells, files) && Readable(cells, files) && Distinct(slots) && forall s :: s in slots <==> RefAt(cells, s).Some?
    requires |saved.index| == |slots| && forall j :: 0 <= j < |slots| ==> SavedEntry(cells, files, slots[j], saved.index[j], saved.blobs)
    requires saved.fields == map f | f in cells :: map k | k in cells[f] && cells[f][k].Inline? :: cells[f][k].value
    requires Complete(saved)
    ensures Cell(Restored(codec, saved), f, k) == Cell(Decoded(codec, files, cells), f, k)
  {
    var s := Slot(f, k);
    SlotsAre(saved.index, cells, files, slots, saved.blobs);
    SetCellsAt(saved.fields, slots, FileValues(codec, saved), s);
    DecodedCell(codec, files, cells, f, k);
    if RefAt(cells, s).Some? {
      var j :| 0 <= j < |slots| && slots[j] == s;
      assert SavedEntry(cells, files, slots[j], saved.index[j], saved.blobs);
    }
  }

  lemma SlotsAre<V>(index: seq<Entry>, cells: Cells<V>, files: Files, slots: seq<Slot>, blobs: Files)
    requires |index| == |slots| && forall j :: 0 <= j < |slots| ==> SavedEntry(cells, files, slots[j], index[j], blobs)
    ensures SlotsOf(index) == slots
  {
    forall j | 0 <= j < |slots| ensures index[j].slot == slots[j] { assert SavedEntry(cells, files, slots[j], index[j], blobs); }
  }

  // ---------------------------------------------------------------- loading

  ghost predicate ImportedOne<V>(saved: Checkpoint<V>, files: Files, source: Ref, ref: Ref) {
    && Stored(saved.blobs, source) && ref.path in files && files[ref.path] == saved.blobs[source.path]
    && ref.size == source.size && ref.kind == source.kind
  }

  /** Every file of the index has been copied in. */
  ghost predicate Imported<V>(saved: Checkpoint<V>, files: Files, refs: seq<Ref>) {
    |refs| == |saved.index| && forall j :: 0 <= j < |refs| ==> ImportedOne(saved, files, saved.index[j].ref, refs[j])
  }

  function OnFiles<V>(refs: seq<Ref>): seq<Held<V>> {
    seq(|refs|, i requires 0 <= i < |refs| => OnSSD(refs[i]))
  }

  function LoadedCells<V>(saved: Checkpoint<V>, refs: seq<Ref>): Cells<V>
    requires |refs| == |saved.index|
  {
    SetCells(InlineCells(saved.fields), SlotsOf(saved.index), OnFiles(refs))
  }

  lemma OneMoreImported<V>(saved: Checkpoint<V>, files: Files, first: nat, mid: Files, next: nat, now: Files, refs: seq<Ref>, ref: Ref, i: nat)
    requires |refs| == i < |saved.index| && first <= next
    requires forall j :: 0 <= j < i ==> ImportedOne(saved, mid, saved.index[j].ref, refs[j])
    requires ImportedOne(saved, now, saved.index[i].ref, ref)
    requires Grown(files, first, mid, refs) && Grown(mid, next, now, [ref])
    ensures forall j :: 0 <= j <= i ==> ImportedOne(saved, now, saved.index[j].ref, (refs + [ref])[j])
    ensures Grown(files, first, now, refs + [ref])
    ensures SetCell(SetCells(InlineCells(saved.fields), SlotsOf(saved.index[..i]), OnFiles(refs)), saved.index[i].slot, OnSSD(ref))
         == SetCells(InlineCells(saved.fields), SlotsOf(saved.index[..i + 1]), OnFiles(refs + [ref]))
  {
    GrownMore(files, first, mid, refs, next, now, [ref]);
    forall j | 0 <= j < i ensures ImportedOne(saved, now, saved.index[j].ref, refs[j]) {
      assert ImportedOne(saved, mid, saved.index[j].ref, refs[j]);
      GrownFile(mid, next, now, [ref], refs[j].path);
    }
    assert SlotsOf(saved.index[..i + 1])[..i] == SlotsOf(saved.index[..i]);
    assert OnFiles<V>(refs + [ref])[..i] == OnFiles<V>(refs);
  }

  lemma LoadedRef<V>(saved: Checkpoint<V>, refs: seq<Ref>, s: Slot)
    requires DistinctEntries(saved.index) && |refs| == |saved.index|
    ensures forall j :: 0 <= j < |refs| && saved.index[j].slot == s ==> RefAt(LoadedCells(saved, refs), s) == Some(refs[j])
    ensures RefAt(LoadedCells(saved, refs), s).Some? ==> exists j :: 0 <= j < |refs| && saved.index[j].slot == s
  {
    var slots := SlotsOf(saved.index);
    SetCellsAt(InlineCells(saved.fields), slots, OnFiles(refs), s);
    forall j | 0 <= j < |refs| && saved.index[j].slot == s ensures slots[j] == s {
    }
    if s in slots {
      var j :| 0 <= j < |slots| && slots[j] == s;
      assert saved.index[j].slot == s;
    }
  }

  lemma LoadFits<V>(codec: Codec<V>, saved: Checkpoint<V>, was: Cells<V>, files: Files, first: nat, now: Files, refs: seq<Ref>, oldSlots: seq<Slot>, next: nat)
    requires Fit(was, files) && Grown(files, first, now, refs) && Complete(saved) && Imported(saved, now, refs)
    requires Distinct(oldSlots) && forall s :: s in oldSlots <==> RefAt(was, s).Some?
    requires first <= next && forall p :: p in now ==> p < next
    ensures var left := now - Paths(RefsAt(was, oldSlots));
            && Fit(LoadedCells(saved, refs), left) && Readable(LoadedCells(saved, refs), left)
            && Count(left, next) == |refs| && Bytes(left, next) == TotalSize(refs)
            && Decoded(codec, left, LoadedCells(saved, refs)) == Restored(codec, saved)
  {
    var left := now - Paths(RefsAt(was, oldSlots));
    var cells := LoadedCells(saved, refs);
    OldFilesGone(was, files, first, now, refs, oldSlots);
    NoFileAbove(map[], 0, next);
    assert left - Paths(refs) == map[];
    RemoveFiles(left, refs, next);
    LoadedFit(saved, left, refs);
    FitIsReadable(cells, left);
    forall f, k ensures Cell(Decoded(codec, left, cells), f, k) == Cell(Restored(codec, saved), f, k) {
      LoadedCell(codec, saved, left, refs, f, k);
    }
    forall f ensures f in cells <==> f in Restored(codec, saved) {
      SetCellsFields(InlineCells(saved.fields), SlotsOf(saved.index), OnFiles(refs), f);
      SetCellsFields(saved.fields, SlotsOf(saved.index), FileValues(codec, saved), f);
    }
    SameFields(Decoded(codec, left, cells), Restored(codec, saved));
  }

  /** Of the files before the load none stays; of those copied in, all do. */
  lemma OldFilesGone<V>(was: Cells<V>, files: Files, first: nat, now: Files, refs: seq<Ref>, oldSlots: seq<Slot>)
    requires Fit(was, files) && Grown(files, first, now, refs) && forall s :: s in oldSlots <==> RefAt(was, s).Some?
    ensures var left := now - Paths(RefsAt(was, oldSlots));
            left.Keys == Paths(refs) && AllStored(left, refs) && forall p :: p in left ==> left[p] == now[p]
  {
    forall p | p in now ensures p in Paths(RefsAt(was, oldSlots)) <==> p !in Paths(refs) {
      GrownFile(files, first, now, refs, p);
      RefsAtPaths(was, oldSlots, p);
      if p < first {
        assert Referenced(was, p);
        var s :| RefAt(was, s).Some? && RefAt(was, s).value.path == p;
        assert s in oldSlots;
      } else {
        forall s | s in oldSlots ensures RefAt(was, s).value.path != p { assert Stored(files, RefAt(was, s).value); }
      }
    }
    forall i | 0 <= i < |refs| ensures Stored(now, refs[i]) && refs[i].path in Paths(refs) {
    }
  }

  lemma LoadedFit<V>(saved: Checkpoint<V>, left: Files, refs: seq<Ref>)
    requires DistinctEntries(saved.index) && |refs| == |saved.index| && DistinctPaths(refs)
    requires left.Keys == Paths(refs) && AllStored(left, refs)
    ensures Fit(LoadedCells(saved, refs), left)
  {
    var cells := LoadedCells(saved, refs);
    forall s | RefAt(cells, s).Some? ensures Stored(left, RefAt(cells, s).value) {
      LoadedRef(saved, refs, s);
    }
    forall s, t | RefAt(cells, s).Some? && RefAt(cells, t).Some? && RefAt(cells, s).value.path == RefAt(cells, t).value.path ensures s == t {
      LoadedRef(saved, refs, s);
      LoadedRef(saved, refs, t);
    }
    forall p | p in left ensures Referenced(cells, p) {
      var i :| 0 <= i < |refs| && refs[i].path == p;
      LoadedRef(saved, refs, saved.index[i].slot);
    }
  }

  lemma LoadedCell<V>(codec: Codec<V>, saved: Checkpoint<V>, left: Files, refs: seq<Ref>, f: string, k: nat)
    requires Complete(saved) && Imported(saved, left, refs) && Readable(LoadedCells(saved, refs), left)
    ensures Cell(Decoded(codec, left, LoadedCells(saved, refs)), f, k) == Cell(Restored(codec, saved), f, k)
  {
    var s, slots := Slot(f, k), SlotsOf(saved.index);
    SetCellsAt(InlineCells(saved.fields), slots, OnFiles(refs), s);
    SetCellsAt(saved.fields, slots, FileValues(codec, saved), s);
    DecodedCell(codec, left, LoadedCells(saved, refs), f, k);
    if s in slots {
      var j :| 0 <= j < |slots| && slots[j] == s;
      assert ImportedOne(saved, left, saved.index[j].ref, refs[j]);
    }
  }
}
