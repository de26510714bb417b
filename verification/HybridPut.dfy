/**
 What one put does to the cells and files of a hybrid unit: the new files are written first, then the cells are replaced,
 then the files that no cell refers to any more are deleted.
 */
module HybridPut {
  import opened Prelude
  import opened Storage
  import opened SsdFiles
  import opened HybridCells

  /** Row i of column c is the reference `ref`. */
  ghost predicate OnSSDAt<V>(data: seq<Column<Held<V>>>, c: nat, i: nat, ref: Ref) {
    c < |data| && i < |data[c].values| && data[c].values[i] == OnSSD(ref)
  }

  ghost predicate HasRef(refs: seq<Ref>, ref: Ref) {
    ref in refs
  }

  ghost predicate SomewhereOnSSD<V>(data: seq<Column<Held<V>>>, ref: Ref) {
    exists c: nat, i: nat :: OnSSDAt(data, c, i, ref)
  }

  /** The references in the prepared data are the written entries, each at one place. */
  ghost predicate DataWritten<V>(data: seq<Column<Held<V>>>, entries: seq<Ref>) {
    && (forall c, i, ref :: OnSSDAt(data, c, i, ref) ==> HasRef(entries, ref))
    && (forall ref :: HasRef(entries, ref) ==> SomewhereOnSSD(data, ref))
    && (forall c, i, d, j, ref, other :: OnSSDAt(data, c, i, ref) && OnSSDAt(data, d, j, other) && ref.path == other.path ==> c == d && i == j)
  }

  /** The cells that a put replaces. */
  ghost predicate Replaced<V>(data: seq<Column<Held<V>>>, keys: seq<nat>, s: Slot) {
    Named(data, s.field) && s.index in keys
  }

  ghost predicate AreReplaced<V>(data: seq<Column<Held<V>>>, keys: seq<nat>, slots: seq<Slot>) {
    Distinct(slots) && forall s :: s in slots <==> Replaced(data, keys, s)
  }

  /** The files after the writes: the old ones and the new entries. */
  ghost predicate Grown(files: Files, first: nat, grown: Files, entries: seq<Ref>) {
    && (forall p :: p in files ==> p < first)
    && grown.Keys == files.Keys + Paths(entries) && grown - Paths(entries) == files
    && DistinctPaths(entries) && AllStored(grown, entries)
    && (forall i :: 0 <= i < |entries| ==> entries[i].path >= first)
  }

  lemma GrownFile(files: Files, first: nat, grown: Files, entries: seq<Ref>, p: nat)
    requires Grown(files, first, grown, entries)
    ensures p < first ==> (p in grown <==> p in files) && (p in files ==> grown[p] == files[p]) && p !in Paths(entries)
    ensures p >= first ==> (p in grown <==> p in Paths(entries)) && p !in files
  {
    if p in files {
      assert p in grown - Paths(entries);
    }
  }

  /** A cell after the put: what the data gives it, or what it was. */
  lemma CellAfter<V>(cells: Cells<V>, data: seq<Column<Held<V>>>, keys: seq<nat>, s: Slot) returns (c: nat, i: nat)
    requires LengthsMatch(data, |keys|) && DistinctFields(data)
    ensures Replaced(data, keys, s) ==>
              && Gives(data, keys, s.field, s.index, c, i)
              && Cell(PutColumns(cells, data, keys), s.field, s.index) == Some(data[c].values[i])
    ensures !Replaced(data, keys, s) ==> RefAt(PutColumns(cells, data, keys), s) == RefAt(cells, s)
  {
    c, i := 0, 0;
    if Replaced(data, keys, s) {
      c :| 0 <= c < |data| && data[c].field == s.field;
      i := LastPosition(keys, s.index);
      PutColumnsGiven(cells, data, keys, s.field, s.index, c, i);
    } else {
      PutColumnsElsewhere(cells, data, keys, s.field, s.index);
    }
  }

  /** A reference after the put comes from the data or was there before. */
  lemma RefAfter<V>(cells: Cells<V>, data: seq<Column<Held<V>>>, keys: seq<nat>, entries: seq<Ref>, s: Slot)
    requires LengthsMatch(data, |keys|) && DistinctFields(data) && DataWritten(data, entries)
    ensures RefAt(PutColumns(cells, data, keys), s).Some? && Replaced(data, keys, s) ==>
              HasRef(entries, RefAt(PutColumns(cells, data, keys), s).value)
    ensures !Replaced(data, keys, s) ==> RefAt(PutColumns(cells, data, keys), s) == RefAt(cells, s)
  {
    var c, i := CellAfter(cells, data, keys, s);
    var after := RefAt(PutColumns(cells, data, keys), s);
    if Replaced(data, keys, s) && after.Some? {
      assert OnSSDAt(data, c, i, after.value);
    }
  }

  function NotKept(entries: seq<Ref>, kept: set<nat>): seq<Ref> {
    if entries == [] then [] else
      var n := |entries| - 1;
      NotKept(entries[..n], kept) + if entries[n].path in kept then [] else [entries[n]]
  }

  lemma {:induction false} NotKeptPaths(entries: seq<Ref>, kept: set<nat>)
    ensures Paths(NotKept(entries, kept)) == Paths(entries) - kept
    ensures forall i :: 0 <= i < |NotKept(entries, kept)| ==> NotKept(entries, kept)[i] in entries
  {
    if entries != [] {
      var n := |entries| - 1;
      NotKeptPaths(entries[..n], kept);
      assert entries == entries[..n] + [entries[n]];
      PathsConcat(entries[..n], [entries[n]]);
      OnePath(entries[n]);
      if entries[n].path !in kept {
        PathsConcat(NotKept(entries[..n], kept), [entries[n]]);
      } else {
        assert NotKept(entries, kept) == NotKept(entries[..n], kept);
      }
      var less, all := NotKept(entries[..n], kept), NotKept(entries, kept);
      forall i | 0 <= i < |all| ensures all[i] in entries {
        if i < |less| { assert less[i] in entries[..n]; }
      }
    }
  }

  lemma OnePath(ref: Ref)
    ensures Paths([ref]) == {ref.path}
  {
    assert [ref][0] == ref;
  }

  lemma {:induction false} NotKeptDistinct(entries: seq<Ref>, kept: set<nat>)
    requires DistinctPaths(entries)
    ensures DistinctPaths(NotKept(entries, kept))
  {
    if entries != [] {
      var n := |entries| - 1;
      NotKeptDistinct(entries[..n], kept);
      NotKeptPaths(entries[..n], kept);
      OnePath(entries[n]);
      assert entries[n].path !in Paths(entries[..n]);
      DistinctConcat(NotKept(entries[..n], kept), [entries[n]]);
    }
  }

  /** Everything that a commit starts from. */
  datatype Commit<V> = Commit(
    cells: Cells<V>,
    files: Files,                      // before the writes
    first: nat,
    data: seq<Column<Held<V>>>,        // prepared
    keys: seq<nat>,
    grown: Files,                      // after the writes
    entries: seq<Ref>,
    slots: seq<Slot>)                  // the cells that are replaced

  ghost predicate Ready<V>(m: Commit<V>) {
    && Fit(m.cells, m.files) && Grown(m.files, m.first, m.grown, m.entries)
    && LengthsMatch(m.data, |m.keys|) && DistinctFields(m.data) && DataWritten(m.data, m.entries)
    && AreReplaced(m.data, m.keys, m.slots)
  }

  function After<V>(m: Commit<V>): Cells<V>
    requires LengthsMatch(m.data, |m.keys|)
  {
    PutColumns(m.cells, m.data, m.keys)
  }

  /** The files of the replaced cells, and of the entries that no replaced cell keeps. */
  function Obsolete<V>(m: Commit<V>, kept: set<nat>): seq<Ref> {
    RefsAt(m.cells, m.slots) + NotKept(m.entries, kept)
  }

  /** Which entries are kept: those that a replaced cell now refers to; all when no index is given twice. */
  ghost predicate Keeps<V>(m: Commit<V>, kept: set<nat>)
    requires LengthsMatch(m.data, |m.keys|)
  {
    kept == Paths(RefsAt(After(m), m.slots)) || (Distinct(m.keys) && kept == Paths(m.entries))
  }

  lemma KeptIsReferenced<V>(m: Commit<V>, kept: set<nat>, p: nat)
    requires Ready(m) && Keeps(m, kept) && p in kept
    ensures RefIn(After(m), m.slots, p)
  {
    if kept == Paths(RefsAt(After(m), m.slots)) {
      RefsAtPaths(After(m), m.slots, p);
    } else {
      var n :| 0 <= n < |m.entries| && m.entries[n].path == p;
      assert HasRef(m.entries, m.entries[n]);
      assert SomewhereOnSSD(m.data, m.entries[n]);
      var c: nat, i: nat :| OnSSDAt(m.data, c, i, m.entries[n]);
      var s := Slot(m.data[c].field, m.keys[i]);
      assert Named(m.data, s.field) && Replaced(m.data, m.keys, s);
      assert Gives(m.data, m.keys, s.field, s.index, c, i);
      PutColumnsGiven(m.cells, m.data, m.keys, s.field, s.index, c, i);
      assert s in m.slots && RefAt(After(m), s) == Some(m.entries[n]);
    }
  }

  lemma ReferencedIsKept<V>(m: Commit<V>, kept: set<nat>, s: Slot)
    requires Ready(m) && Keeps(m, kept) && Replaced(m.data, m.keys, s) && RefAt(After(m), s).Some?
    ensures HasRef(m.entries, RefAt(After(m), s).value) && RefAt(After(m), s).value.path in kept
  {
    RefAfter(m.cells, m.data, m.keys, m.entries, s);
    var ref := RefAt(After(m), s).value;
    var n :| 0 <= n < |m.entries| && m.entries[n] == ref;
    assert ref.path in Paths(m.entries);
    assert s in m.slots && RefIn(After(m), m.slots, ref.path);
    RefsAtPaths(After(m), m.slots, ref.path);
  }

  /** Two replaced cells never share a file. */
  lemma ReplacedUnshared<V>(m: Commit<V>, s: Slot, t: Slot)
    requires Ready(m) && Replaced(m.data, m.keys, s) && Replaced(m.data, m.keys, t)
    requires RefAt(After(m), s).Some? && RefAt(After(m), t).Some? && RefAt(After(m), s).value.path == RefAt(After(m), t).value.path
    ensures s == t
  {
    var c, i := CellAfter(m.cells, m.data, m.keys, s);
    var d, j := CellAfter(m.cells, m.data, m.keys, t);
    assert OnSSDAt(m.data, c, i, RefAt(After(m), s).value) && OnSSDAt(m.data, d, j, RefAt(After(m), t).value);
  }

  /** The files that remain. */
  ghost function Remaining<V>(m: Commit<V>, kept: set<nat>): Files {
    m.grown - Paths(Obsolete(m, kept))
  }

  lemma ObsoletePath<V>(m: Commit<V>, kept: set<nat>, p: nat)
    ensures p in Paths(Obsolete(m, kept)) <==> RefIn(m.cells, m.slots, p) || (p in Paths(m.entries) && p !in kept)
  {
    RefsAtPaths(m.cells, m.slots, p);
    NotKeptPaths(m.entries, kept);
    PathsConcat(RefsAt(m.cells, m.slots), NotKept(m.entries, kept));
  }

  /** Of a cell that is not replaced, the file is old and stays. */
  lemma UntouchedStored<V>(m: Commit<V>, kept: set<nat>, s: Slot)
    requires Ready(m) && !Replaced(m.data, m.keys, s) && RefAt(After(m), s).Some?
    ensures RefAt(After(m), s) == RefAt(m.cells, s) && RefAt(m.cells, s).value.path < m.first
    ensures Stored(Remaining(m, kept), RefAt(m.cells, s).value)
  {
    RefAfter(m.cells, m.data, m.keys, m.entries, s);
    var ref := RefAt(m.cells, s).value;
    assert Stored(m.files, ref);
    GrownFile(m.files, m.first, m.grown, m.entries, ref.path);
    ObsoletePath(m, kept, ref.path);
    assert s !in m.slots && !RefIn(m.cells, m.slots, ref.path);
  }

  lemma ReplacedStored<V>(m: Commit<V>, kept: set<nat>, s: Slot)
    requires Ready(m) && Keeps(m, kept) && Replaced(m.data, m.keys, s) && RefAt(After(m), s).Some?
    ensures RefAt(After(m), s).value.path >= m.first
    ensures Stored(Remaining(m, kept), RefAt(After(m), s).value)
  {
    ReferencedIsKept(m, kept, s);
    var ref := RefAt(After(m), s).value;
    var n :| 0 <= n < |m.entries| && m.entries[n] == ref;
    assert Stored(m.grown, ref);
    ObsoletePath(m, kept, ref.path);
    forall t | t in m.slots && RefAt(m.cells, t).Some? ensures RefAt(m.cells, t).value.path < m.first {
      assert Stored(m.files, RefAt(m.cells, t).value);
    }
    assert !RefIn(m.cells, m.slots, ref.path);
  }

  lemma RemainingReferenced<V>(m: Commit<V>, kept: set<nat>, p: nat)
    requires Ready(m) && Keeps(m, kept) && p in Remaining(m, kept)
    ensures Referenced(After(m), p)
  {
    GrownFile(m.files, m.first, m.grown, m.entries, p);
    ObsoletePath(m, kept, p);
    if p < m.first {
      assert Referenced(m.cells, p);
      var s :| RefAt(m.cells, s).Some? && RefAt(m.cells, s).value.path == p;
      assert !RefIn(m.cells, m.slots, p);
      RefAfter(m.cells, m.data, m.keys, m.entries, s);
    } else {
      KeptIsReferenced(m, kept, p);
    }
  }

  /** After a commit the cells and the remaining files fit again. */
  lemma CommitFits<V>(m: Commit<V>, kept: set<nat>)
    requires Ready(m) && Keeps(m, kept)
    ensures Fit(After(m), Remaining(m, kept))
  {
    var after, files := After(m), Remaining(m, kept);
    forall s | RefAt(after, s).Some? ensures Stored(files, RefAt(after, s).value) {
      if Replaced(m.data, m.keys, s) { ReplacedStored(m, kept, s); } else { UntouchedStored(m, kept, s); }
    }
    forall s, t | RefAt(after, s).Some? && RefAt(after, t).Some? && RefAt(after, s).value.path == RefAt(after, t).value.path ensures s == t {
      CommitUnshared(m, kept, s, t);
    }
    forall p | p in files ensures Referenced(after, p) {
      RemainingReferenced(m, kept, p);
    }
  }

  lemma CommitUnshared<V>(m: Commit<V>, kept: set<nat>, s: Slot, t: Slot)
    requires Ready(m) && Keeps(m, kept) && RefAt(After(m), s).Some? && RefAt(After(m), t).Some?
    requires RefAt(After(m), s).value.path == RefAt(After(m), t).value.path
    ensures s == t
  {
    if Replaced(m.data, m.keys, s) { ReplacedStored(m, kept, s); } else { UntouchedStored(m, kept, s); }
    if Replaced(m.data, m.keys, t) { ReplacedStored(m, kept, t); } else { UntouchedStored(m, kept, t); }
    if Replaced(m.data, m.keys, s) && Replaced(m.data, m.keys, t) {
      ReplacedUnshared(m, s, t);
    }
  }

  /** The counters follow the files. */
  lemma CommitCounts<V>(m: Commit<V>, kept: set<nat>, next: nat)
    requires Ready(m) && Keeps(m, kept) && m.first <= next && forall p :: p in m.grown ==> p < next
    ensures Count(Remaining(m, kept), next) == Count(m.files, m.first) + |m.entries| - |Obsolete(m, kept)|
    ensures Bytes(Remaining(m, kept), next) == Bytes(m.files, m.first) + TotalSize(m.entries) - TotalSize(Obsolete(m, kept))
  {
    RemoveFiles(m.grown, m.entries, next);
    NoFileAbove(m.files, m.first, next);
    ObsoleteOk(m, kept);
    RemoveFiles(m.grown, Obsolete(m, kept), next);
  }

  lemma ObsoleteOk<V>(m: Commit<V>, kept: set<nat>)
    requires Ready(m)
    ensures DistinctPaths(Obsolete(m, kept)) && AllStored(m.grown, Obsolete(m, kept))
  {
    var old_, dropped := RefsAt(m.cells, m.slots), NotKept(m.entries, kept);
    RefsAtDistinct(m.cells, m.files, m.slots);
    NotKeptDistinct(m.entries, kept);
    NotKeptPaths(m.entries, kept);
    forall i | 0 <= i < |old_| ensures Stored(m.grown, old_[i]) && old_[i].path < m.first {
      assert Stored(m.files, old_[i]);
      GrownFile(m.files, m.first, m.grown, m.entries, old_[i].path);
    }
    forall i | 0 <= i < |dropped| ensures Stored(m.grown, dropped[i]) && dropped[i].path >= m.first {
      assert dropped[i] in m.entries;
      var n :| 0 <= n < |m.entries| && m.entries[n] == dropped[i];
      assert Stored(m.grown, m.entries[n]);
    }
    DistinctConcat(old_, dropped);
  }

  // ---------------------------------------------------------------- preparing the values

  ghost predicate Big<V>(codec: Codec<V>, threshold: nat, v: V) {
    codec.encode(v).Some? && |codec.encode(v).value.payload| >= threshold
  }

  /** A value of at least `threshold` encoded bytes is in a file, any other in the cell itself. */
  ghost predicate PreparedCell<V>(codec: Codec<V>, threshold: nat, files: Files, v: V, cell: Held<V>) {
    match cell
    case Inline(w) => w == v && !Big(codec, threshold, v)
    case OnSSD(ref) =>
      && Big(codec, threshold, v) && Stored(files, ref)
      && Encoded(files[ref.path], ref.kind) == codec.encode(v).value
  }

  ghost predicate PreparedRow<V>(codec: Codec<V>, threshold: nat, files: Files, values: seq<V>, row: seq<Held<V>>) {
    |row| == |values| && forall i :: 0 <= i < |row| ==> PreparedCell(codec, threshold, files, values[i], row[i])
  }

  ghost predicate PreparedData<V>(codec: Codec<V>, threshold: nat, files: Files, plain: seq<Column<V>>, data: seq<Column<Held<V>>>) {
    |data| == |plain| && forall c :: 0 <= c < |data| ==>
      data[c].field == plain[c].field && PreparedRow(codec, threshold, files, plain[c].values, data[c].values)
  }

  ghost predicate SSDCell<V>(row: seq<Held<V>>, i: nat, ref: Ref) {
    i < |row| && row[i] == OnSSD(ref)
  }

  ghost predicate RowHas<V>(row: seq<Held<V>>, ref: Ref) {
    exists i: nat :: SSDCell(row, i, ref)
  }

  /** The references in a row are its entries, each at one place. */
  ghost predicate RowWritten<V>(row: seq<Held<V>>, entries: seq<Ref>) {
    && (forall i, ref :: SSDCell(row, i, ref) ==> HasRef(entries, ref))
    && (forall ref :: HasRef(entries, ref) ==> RowHas(row, ref))
    && (forall i, j, ref, other :: SSDCell(row, i, ref) && SSDCell(row, j, other) && ref.path == other.path ==> i == j)
  }

  lemma PreparedStays<V>(codec: Codec<V>, threshold: nat, mid: Files, now: Files, more: seq<Ref>, first: nat, plain: seq<Column<V>>, data: seq<Column<Held<V>>>)
    requires PreparedData(codec, threshold, mid, plain, data) && Grown(mid, first, now, more)
    ensures PreparedData(codec, threshold, now, plain, data)
  {
    forall c, i | 0 <= c < |data| && 0 <= i < |data[c].values| ensures PreparedCell(codec, threshold, now, plain[c].values[i], data[c].values[i]) {
      assert PreparedRow(codec, threshold, mid, plain[c].values, data[c].values);
      assert PreparedCell(codec, threshold, mid, plain[c].values[i], data[c].values[i]);
      if data[c].values[i].OnSSD? {
        GrownFile(mid, first, now, more, data[c].values[i].ref.path);
      }
    }
  }

  lemma GrownMore(files: Files, first: nat, mid: Files, entries: seq<Ref>, next: nat, now: Files, more: seq<Ref>)
    requires Grown(files, first, mid, entries) && Grown(mid, next, now, more) && first <= next
    ensures Grown(files, first, now, entries + more) && Paths(entries) !! Paths(more)
  {
    forall p | p in Paths(entries) ensures p !in Paths(more) && p in mid {
      GrownFile(mid, next, now, more, p);
    }
    PathsConcat(entries, more);
    DistinctConcat(entries, more);
    forall i | 0 <= i < |entries| ensures Stored(now, entries[i]) {
      assert Stored(mid, entries[i]);
      GrownFile(mid, next, now, more, entries[i].path);
    }
    assert now - Paths(entries + more) == (now - Paths(more)) - Paths(entries);
    forall i | 0 <= i < |entries + more| ensures Stored(now, (entries + more)[i]) {
      assert i >= |entries| ==> Stored(now, more[i - |entries|]);
    }
  }

  lemma GrownOne(mid: Files, next: nat, payload: Payload, kind: string)
    requires forall p :: p in mid ==> p < next
    ensures Grown(mid, next, mid[next := payload], [Ref(next, |payload|, kind)])
  {
    OnePath(Ref(next, |payload|, kind));
  }

  lemma DataWrittenMore<V>(data: seq<Column<Held<V>>>, entries: seq<Ref>, column: Column<Held<V>>, more: seq<Ref>)
    requires DataWritten(data, entries) && RowWritten(column.values, more) && Paths(entries) !! Paths(more)
    ensures DataWritten(data + [column], entries + more)
  {
    var all := data + [column];
    forall c: nat, i: nat, ref | OnSSDAt(all, c, i, ref) ensures if c < |data| then OnSSDAt(data, c, i, ref) && HasRef(entries, ref) else SSDCell(column.values, i, ref) && HasRef(more, ref) {
      assert c < |data| ==> OnSSDAt(data, c, i, ref);
      assert c == |data| ==> SSDCell(column.values, i, ref);
    }
    forall ref | HasRef(entries + more, ref) ensures SomewhereOnSSD(all, ref) {
      if HasRef(entries, ref) {
        assert SomewhereOnSSD(data, ref);
        var c: nat, i: nat :| OnSSDAt(data, c, i, ref);
        assert OnSSDAt(all, c, i, ref);
      } else {
        assert HasRef(more, ref) && RowHas(column.values, ref);
        var i: nat :| SSDCell(column.values, i, ref);
        assert OnSSDAt(all, |data|, i, ref);
      }
    }
    forall c: nat, i: nat, d: nat, j: nat, ref, other | OnSSDAt(all, c, i, ref) && OnSSDAt(all, d, j, other) && ref.path == other.path ensures c == d && i == j {
      RefPath(if c < |data| then entries else more, ref);
      RefPath(if d < |data| then entries else more, other);
    }
  }

  lemma RefPath(refs: seq<Ref>, ref: Ref)
    requires HasRef(refs, ref)
    ensures ref.path in Paths(refs)
  {
    var i :| 0 <= i < |refs| && refs[i] == ref;
    assert refs[i].path == ref.path;
  }

  // ---------------------------------------------------------------- the values after a commit

  lemma CommitCell<V(!new)>(m: Commit<V>, kept: set<nat>, codec: Codec<V>, threshold: nat, plain: seq<Column<V>>, f: string, k: nat)
    requires Ready(m) && Keeps(m, kept) && Invertible(codec) && PreparedData(codec, threshold, m.grown, plain, m.data)
    requires Readable(After(m), Remaining(m, kept)) && Readable(m.cells, m.files) && LengthsMatch(plain, |m.keys|)
    ensures Cell(Decoded(codec, Remaining(m, kept), After(m)), f, k) == Cell(PutColumns(Decoded(codec, m.files, m.cells), plain, m.keys), f, k)
  {
    var s := Slot(f, k);
    var c, i := CellAfter(m.cells, m.data, m.keys, s);
    DecodedCell(codec, Remaining(m, kept), After(m), f, k);
    if Replaced(m.data, m.keys, s) {
      SameNames(codec, threshold, m.grown, plain, m.data);
      assert Gives(plain, m.keys, f, k, c, i);
      PutColumnsGiven(Decoded(codec, m.files, m.cells), plain, m.keys, f, k, c, i);
      assert PreparedRow(codec, threshold, m.grown, plain[c].values, m.data[c].values);
      assert PreparedCell(codec, threshold, m.grown, plain[c].values[i], m.data[c].values[i]);
      if m.data[c].values[i].OnSSD? {
        assert codec.encode(plain[c].values[i]).Some?;
      }
    } else {
      SameNames(codec, threshold, m.grown, plain, m.data);
      PutColumnsElsewhere(m.cells, m.data, m.keys, f, k);
      PutColumnsElsewhere(Decoded(codec, m.files, m.cells), plain, m.keys, f, k);
      DecodedCell(codec, m.files, m.cells, f, k);
      if RefAt(m.cells, s).Some? {
        UntouchedStored(m, kept, s);
        GrownFile(m.files, m.first, m.grown, m.entries, RefAt(m.cells, s).value.path);
      }
    }
  }

  lemma SameNames<V>(codec: Codec<V>, threshold: nat, files: Files, plain: seq<Column<V>>, data: seq<Column<Held<V>>>)
    requires PreparedData(codec, threshold, files, plain, data)
    ensures forall f :: Named(plain, f) <==> Named(data, f)
    ensures DistinctFields(plain) <==> DistinctFields(data)
    ensures forall n: nat :: LengthsMatch(plain, n) <==> LengthsMatch(data, n)
  {
    forall f ensures Named(plain, f) <==> Named(data, f) {
      if c :| 0 <= c < |data| && data[c].field == f { assert plain[c].field == f; }
      if c :| 0 <= c < |plain| && plain[c].field == f { assert data[c].field == f; }
    }
    forall c | 0 <= c < |data| ensures |data[c].values| == |plain[c].values| {
      assert PreparedRow(codec, threshold, files, plain[c].values, data[c].values);
    }
  }

  /** What the unit then holds is what the put does to a plain unit. */
  lemma CommitValues<V(!new)>(m: Commit<V>, kept: set<nat>, codec: Codec<V>, threshold: nat, plain: seq<Column<V>>)
    requires Ready(m) && Keeps(m, kept) && Invertible(codec) && PreparedData(codec, threshold, m.grown, plain, m.data)
    ensures Readable(After(m), Remaining(m, kept)) && Readable(m.cells, m.files) && LengthsMatch(plain, |m.keys|)
    ensures Decoded(codec, Remaining(m, kept), After(m)) == PutColumns(Decoded(codec, m.files, m.cells), plain, m.keys)
  {
    CommitFits(m, kept);
    FitIsReadable(After(m), Remaining(m, kept));
    FitIsReadable(m.cells, m.files);
    SameNames(codec, threshold, m.grown, plain, m.data);
    var a, b := Decoded(codec, Remaining(m, kept), After(m)), PutColumns(Decoded(codec, m.files, m.cells), plain, m.keys);
    forall f ensures f in a <==> f in b {
      PutColumnsKeys(m.cells, m.data, m.keys, f);
      PutColumnsKeys(Decoded(codec, m.files, m.cells), plain, m.keys, f);
    }
    forall f, k ensures Cell(a, f, k) == Cell(b, f, k) {
      CommitCell(m, kept, codec, threshold, plain, f, k);
    }
    SameFields(a, b);
  }
}
