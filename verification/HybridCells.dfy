/**
 The field map of HybridStorageUnitData (transfer_queue/storage/simple_storage.py): each cell is a value or a reference
 to a file. Here: what the references of a field map are, and what it means that they and the files fit.
 */
module HybridCells {
  import opened Prelude
  import opened Storage
  import opened SsdFiles

  datatype Held<V> = Inline(value: V) | OnSSD(ref: Ref)

  type Cells<V> = Fields<Held<V>>

  /** One cell of the field map. */
  datatype Slot = Slot(field: string, index: nat)

  datatype Codec<!V> = Codec(encode: V -> Option<Encoded>, decode: (Payload, string) -> V)

  ghost predicate Invertible<V(!new)>(codec: Codec<V>) {
    forall v :: codec.encode(v).Some? ==> Decode(codec, codec.encode(v).value) == v
  }

  function Decode<V>(codec: Codec<V>, e: Encoded): V {
    codec.decode(e.payload, e.kind)
  }

  // ---------------------------------------------------------------- references and files

  function RefAt<V>(cells: Cells<V>, s: Slot): Option<Ref> {
    if s.field in cells && s.index in cells[s.field] && cells[s.field][s.index].OnSSD? then Some(cells[s.field][s.index].ref) else None
  }

  /** The references point to files of the right size, no two cells share a file, and no file is left unreferenced. */
  ghost predicate Fit<V>(cells: Cells<V>, files: Files) {
    && (forall s :: RefAt(cells, s).Some? ==> Stored(files, RefAt(cells, s).value))
    && Unshared(cells)
    && (forall p :: p in files ==> Referenced(cells, p))
  }

  ghost predicate Unshared<V>(cells: Cells<V>) {
    forall s, t :: RefAt(cells, s).Some? && RefAt(cells, t).Some? && RefAt(cells, s).value.path == RefAt(cells, t).value.path ==> s == t
  }

  ghost predicate Referenced<V>(cells: Cells<V>, p: nat) {
    exists s :: RefAt(cells, s).Some? && RefAt(cells, s).value.path == p
  }

  /** The references found at these cells, in order. */
  function RefsAt<V>(cells: Cells<V>, slots: seq<Slot>): seq<Ref> {
    if slots == [] then [] else
      var n := |slots| - 1;
      RefsAt(cells, slots[..n]) + match RefAt(cells, slots[n]) case Some(ref) => [ref] case None => []
  }

  ghost predicate RefIn<V>(cells: Cells<V>, slots: seq<Slot>, p: nat) {
    exists s :: s in slots && RefAt(cells, s).Some? && RefAt(cells, s).value.path == p
  }

  lemma {:induction false} RefsAtPaths<V>(cells: Cells<V>, slots: seq<Slot>, p: nat)
    ensures p in Paths(RefsAt(cells, slots)) <==> RefIn(cells, slots, p)
  {
    if slots != [] {
      var n := |slots| - 1;
      RefsAtPaths(cells, slots[..n], p);
      assert forall s :: s in slots <==> s in slots[..n] || s == slots[n];
      var more := if RefAt(cells, slots[n]).Some? then [RefAt(cells, slots[n]).value] else [];
      PathsConcat(RefsAt(cells, slots[..n]), more);
      assert Paths(more) == if more == [] then {} else {more[0].path};
    }
  }

  lemma PathsConcat(a: seq<Ref>, b: seq<Ref>)
    ensures Paths(a + b) == Paths(a) + Paths(b)
  {
    var c := a + b;
    forall p ensures p in Paths(c) <==> p in Paths(a) || p in Paths(b) {
      if p in Paths(c) {
        var i :| 0 <= i < |c| && c[i].path == p;
        assert if i < |a| then a[i] == c[i] else b[i - |a|] == c[i];
      }
      if p in Paths(a) {
        var i :| 0 <= i < |a| && a[i].path == p;
        assert c[i] == a[i];
      }
      if p in Paths(b) {
        var i :| 0 <= i < |b| && b[i].path == p;
        assert c[|a| + i] == b[i];
      }
    }
  }

  lemma DistinctConcat(a: seq<Ref>, b: seq<Ref>)
    requires DistinctPaths(a) && DistinctPaths(b) && Paths(a) !! Paths(b)
    ensures DistinctPaths(a + b)
  {
    var c := a + b;
    forall i, j | 0 <= i < j < |c| ensures c[i].path != c[j].path {
      if i < |a| && j >= |a| {
        assert a[i].path in Paths(a) && b[j - |a|].path in Paths(b);
      }
    }
  }

  /** Different cells have different files. */
  lemma {:induction false} RefsAtDistinct<V>(cells: Cells<V>, files: Files, slots: seq<Slot>)
    requires Fit(cells, files) && Distinct(slots)
    ensures DistinctPaths(RefsAt(cells, slots)) && AllStored(files, RefsAt(cells, slots))
  {
    if slots != [] {
      var n := |slots| - 1;
      var less := slots[..n];
      RefsAtDistinct(cells, files, less);
      var ref := RefAt(cells, slots[n]);
      if ref.Some? {
        RefsAtPaths(cells, less, ref.value.path);
        assert slots[n] !in less;
        assert !RefIn(cells, less, ref.value.path);
        DistinctConcat(RefsAt(cells, less), [ref.value]);
      }
    }
  }

  // ---------------------------------------------------------------- values

  function ValueOf<V>(codec: Codec<V>, files: Files, cell: Held<V>): V
    requires cell.OnSSD? ==> cell.ref.path in files
  {
    match cell
    case Inline(v) => v
    case OnSSD(ref) => codec.decode(files[ref.path], ref.kind)
  }

  ghost predicate Readable<V>(cells: Cells<V>, files: Files) {
    forall f, k :: f in cells && k in cells[f] ==> ReadableCell(cells[f][k], files)
  }

  ghost predicate ReadableCell<V>(cell: Held<V>, files: Files) {
    cell.OnSSD? ==> cell.ref.path in files
  }

  lemma FitIsReadable<V>(cells: Cells<V>, files: Files)
    requires Fit(cells, files)
    ensures Readable(cells, files)
  {
    forall f, k | f in cells && k in cells[f] ensures ReadableCell(cells[f][k], files) {
      var s := Slot(f, k);
      assert RefAt(cells, s).Some? ==> Stored(files, RefAt(cells, s).value);
    }
  }

  /** The field map of a plain unit that holds the same values. */
  ghost function Decoded<V>(codec: Codec<V>, files: Files, cells: Cells<V>): Fields<V>
    requires Readable(cells, files)
  {
    map f | f in cells :: DecodedColumn(codec, files, cells, f)
  }

  ghost function DecodedColumn<V>(codec: Codec<V>, files: Files, cells: Cells<V>, f: string): map<nat, V>
    requires Readable(cells, files) && f in cells
  {
    map k | k in cells[f] :: assert ReadableCell(cells[f][k], files); ValueOf(codec, files, cells[f][k])
  }

  /** Two field maps with the same fields and cells are equal. */
  lemma SameFields<V>(a: Fields<V>, b: Fields<V>)
    requires a.Keys == b.Keys && forall f, k :: Cell(a, f, k) == Cell(b, f, k)
    ensures a == b
  {
    forall f | f in a ensures a[f] == b[f] {
      forall k ensures k in a[f] <==> k in b[f] {
        assert Cell(a, f, k) == Cell(b, f, k);
      }
      forall k | k in a[f] ensures a[f][k] == b[f][k] {
        assert Cell(a, f, k) == Cell(b, f, k);
      }
    }
  }

  lemma DecodedCell<V>(codec: Codec<V>, files: Files, cells: Cells<V>, f: string, k: nat)
    requires Readable(cells, files)
    ensures Cell(cells, f, k).None? ==> Cell(Decoded(codec, files, cells), f, k) == None
    ensures Cell(cells, f, k).Some? ==> ReadableCell(Cell(cells, f, k).value, files)
    ensures Cell(cells, f, k).Some? ==> Cell(Decoded(codec, files, cells), f, k) == Some(ValueOf(codec, files, Cell(cells, f, k).value))
  {
    if f in cells && k in cells[f] {
      assert ReadableCell(cells[f][k], files);
    }
  }

  // ---------------------------------------------------------------- reading

  ghost function DecodedSeq<V>(codec: Codec<V>, files: Files, row: seq<Held<V>>): seq<V>
    requires forall i :: 0 <= i < |row| ==> ReadableCell(row[i], files)
  {
    seq(|row|, i requires 0 <= i < |row| => assert ReadableCell(row[i], files); ValueOf(codec, files, row[i]))
  }

  ghost predicate RowsReadable<V>(got: map<string, seq<Held<V>>>, files: Files) {
    forall f :: f in got ==> forall i :: 0 <= i < |got[f]| ==> ReadableCell(got[f][i], files)
  }

  ghost function DecodedRows<V>(codec: Codec<V>, files: Files, got: map<string, seq<Held<V>>>): map<string, seq<V>>
    requires RowsReadable(got, files)
  {
    map f | f in got :: DecodedSeq(codec, files, got[f])
  }

  /** Reading the cells and decoding them is reading the plain unit, errors included. */
  lemma {:induction false} GetDecoded<V>(codec: Codec<V>, files: Files, cells: Cells<V>, names: seq<string>, keys: seq<nat>)
    requires Readable(cells, files)
    ensures Get(cells, names, keys).Ok? ==> RowsReadable(Get(cells, names, keys).value, files)
    ensures Get(Decoded(codec, files, cells), names, keys) ==
              match Get(cells, names, keys)
              case Err(e) => Err(e)
              case Ok(got) => Ok(DecodedRows(codec, files, got))
  {
    if names != [] {
      var n := |names| - 1;
      var plain := Decoded(codec, files, cells);
      GetDecoded(codec, files, cells, names[..n], keys);
      if Get(cells, names[..n], keys).Ok? && names[n] in cells {
        assert plain[names[n]].Keys == cells[names[n]].Keys;
        if HasAll(cells[names[n]], keys) {
          PickDecoded(codec, files, cells, names[n], keys);
          var got, row := Get(cells, names[..n], keys).value, Pick(cells[names[n]], keys);
          assert DecodedRows(codec, files, got[names[n] := row]) == DecodedRows(codec, files, got)[names[n] := DecodedSeq(codec, files, row)];
        }
      }
    }
  }

  lemma PickDecoded<V>(codec: Codec<V>, files: Files, cells: Cells<V>, f: string, keys: seq<nat>)
    requires Readable(cells, files) && f in cells && HasAll(cells[f], keys)
    ensures forall i :: 0 <= i < |keys| ==> ReadableCell(Pick(cells[f], keys)[i], files)
    ensures Pick(DecodedColumn(codec, files, cells, f), keys) == DecodedSeq(codec, files, Pick(cells[f], keys))
  {
    forall i | 0 <= i < |keys| ensures ReadableCell(Pick(cells[f], keys)[i], files) {
      assert keys[i] in cells[f];
    }
  }
}
