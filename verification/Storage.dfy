/**
 StorageUnitData (transfer_queue/storage/simple_storage.py): one map from global index to value per field, and the set of
 active indexes. The functions say what each operation does to the unit as a value; the class carries it out.
 */
module Storage {
  import opened Prelude

  type Fields<V> = map<string, map<nat, V>>

  /** One entry of the dict given to put_data: a field and its list of values. Field names are distinct in a dict. */
  datatype Column<V> = Column(field: string, values: seq<V>)

  datatype Unit<V> = Unit(fields: Fields<V>, active: set<nat>, size: Option<nat>)

  datatype Error = CapacityExceeded | LengthMismatch | FieldNotFound | KeyNotFound | PlanMismatch | MergeFailed | KindMismatch | IOFailed

  datatype Result<+T> = Ok(value: T) | Err(error: Error)

  ghost predicate DistinctFields<V>(data: seq<Column<V>>) {
    forall c, d :: 0 <= c < d < |data| ==> data[c].field != data[d].field
  }

  // ---------------------------------------------------------------- put_data

  /** How many of the given keys, counted one by one, are not active yet. */
  function NewCount(active: set<nat>, keys: seq<nat>): nat {
    if keys == [] then 0 else NewCount(active, keys[..|keys| - 1]) + if keys[|keys| - 1] in active then 0 else 1
  }

  /** Writes the values under the keys, in order: the last one given for a key stays. */
  function PutColumn<V>(column: map<nat, V>, keys: seq<nat>, values: seq<V>): map<nat, V>
    requires |keys| == |values|
  {
    if keys == [] then column else
      var n := |keys| - 1;
      PutColumn(column, keys[..n], values[..n])[keys[n] := values[n]]
  }

  function FieldOf<V>(fields: Fields<V>, f: string): map<nat, V> {
    if f in fields then fields[f] else map[]
  }

  predicate LengthsMatch<V>(data: seq<Column<V>>, n: nat) {
    forall c :: 0 <= c < |data| ==> |data[c].values| == n
  }

  function PutColumns<V>(fields: Fields<V>, data: seq<Column<V>>, keys: seq<nat>): Fields<V>
    requires LengthsMatch(data, |keys|)
  {
    if data == [] then fields else
      var last := data[|data| - 1];
      var before := PutColumns(fields, data[..|data| - 1], keys);
      before[last.field := PutColumn(FieldOf(before, last.field), keys, last.values)]
  }

  function Put<V>(u: Unit<V>, data: seq<Column<V>>, keys: seq<nat>): Result<Unit<V>> {
    if u.size.Some? && |u.active| + NewCount(u.active, keys) > u.size.value then Err(CapacityExceeded)
    else if !LengthsMatch(data, |keys|) then Err(LengthMismatch)
    else Ok(u.(fields := PutColumns(u.fields, data, keys), active := u.active + set k | k in keys))
  }

  // ---------------------------------------------------------------- get_data

  predicate HasAll<V>(column: map<nat, V>, keys: seq<nat>) {
    forall k :: k in keys ==> k in column
  }

  function Pick<V>(column: map<nat, V>, keys: seq<nat>): seq<V>
    requires HasAll(column, keys)
  {
    seq(|keys|, i requires 0 <= i < |keys| => column[keys[i]])
  }

  /** Reads field after field; the first one that fails decides the error. */
  function Get<V>(fields: Fields<V>, names: seq<string>, keys: seq<nat>): Result<map<string, seq<V>>> {
    if names == [] then Ok(map[]) else
      var n := |names| - 1;
      match Get(fields, names[..n], keys)
      case Err(e) => Err(e)
      case Ok(got) =>
        if names[n] !in fields then Err(FieldNotFound)
        else if !HasAll(fields[names[n]], keys) then Err(KeyNotFound)
        else Ok(got[names[n] := Pick(fields[names[n]], keys)])
  }

  // ---------------------------------------------------------------- clear

  function Cleared<V>(u: Unit<V>, keys: seq<nat>, only: Option<seq<string>>): Unit<V> {
    var gone := set k | k in keys;
    var fields := map f | f in u.fields :: if only.Some? && f !in only.value then u.fields[f] else u.fields[f] - gone;
    u.(fields := fields, active := if only.Some? then u.active else u.active - gone)
  }

  // ---------------------------------------------------------------- apply_update

  /** merge_plan[field]: which rows are held already, and which values the column accepts, when its kind is known. */
  datatype Plan<!V> = Plan(held: seq<bool>, accepts: Option<V -> bool>)

  /** merge_fn, and what the controller planned for each field. */
  datatype Update<!V> = Update(merge: (V, V) -> Option<V>, plans: map<string, Plan<V>>)

  function Present(held: seq<bool>): seq<nat> {
    if held == [] then [] else
      var n := |held| - 1;
      Present(held[..n]) + if held[n] then [n] else []
  }

  /** Merges the held values into the new ones, position after position. */
  function Combine<V>(present: seq<nat>, held: seq<V>, values: seq<V>, merge: (V, V) -> Option<V>): Result<seq<V>>
    requires |present| == |held|
  {
    if present == [] then Ok(values) else
      var n := |present| - 1;
      match Combine(present[..n], held[..n], values, merge)
      case Err(e) => Err(e)
      case Ok(so_far) =>
        if present[n] >= |values| || present[n] >= |so_far| then Err(PlanMismatch)
        else match merge(held[n], values[present[n]])
          case None => Err(MergeFailed)
          case Some(v) => Ok(so_far[present[n] := v])
  }

  predicate Accepted<V>(plan: Plan<V>, values: seq<V>) {
    plan.accepts.Some? ==> forall i :: 0 <= i < |values| ==> plan.accepts.value(values[i])
  }

  function At(keys: seq<nat>, present: seq<nat>): seq<nat>
    requires forall i :: 0 <= i < |present| ==> present[i] < |keys|
  {
    seq(|present|, i requires 0 <= i < |present| => keys[present[i]])
  }

  /** The rows that are held, as Get reads them: nothing is read when no row is held. */
  function HeldValues<V>(fields: Fields<V>, field: string, keys: seq<nat>, present: seq<nat>): (r: Result<seq<V>>)
    ensures r.Ok? ==> |r.value| == |present|
  {
    if present == [] then Ok([])
    else if exists i :: 0 <= i < |present| && present[i] >= |keys| then Err(PlanMismatch)
    else if field !in fields then Err(FieldNotFound)
    else if !HasAll(fields[field], At(keys, present)) then Err(KeyNotFound)
    else Ok(Pick(fields[field], At(keys, present)))
  }

  function MergeColumn<V>(fields: Fields<V>, column: Column<V>, keys: seq<nat>, up: Update<V>): Result<Column<V>> {
    if column.field !in up.plans then Err(PlanMismatch) else
      var plan := up.plans[column.field];
      var present := Present(plan.held);
      match HeldValues(fields, column.field, keys, present)
      case Err(e) => Err(e)
      case Ok(held) =>
        Finished(column, plan, present, held, up.merge)
  }

  function Finished<V>(column: Column<V>, plan: Plan<V>, present: seq<nat>, held: seq<V>, merge: (V, V) -> Option<V>): Result<Column<V>>
    requires |present| == |held|
  {
    match Combine(present, held, column.values, merge)
    case Err(e) => Err(e)
    case Ok(values) => if Accepted(plan, values) then Ok(Column(column.field, values)) else Err(KindMismatch)
  }

  function MergeColumns<V>(fields: Fields<V>, data: seq<Column<V>>, keys: seq<nat>, up: Update<V>): Result<seq<Column<V>>> {
    if data == [] then Ok([]) else
      var n := |data| - 1;
      match MergeColumns(fields, data[..n], keys, up)
      case Err(e) => Err(e)
      case Ok(merged) =>
        match MergeColumn(fields, data[n], keys, up)
        case Err(e) => Err(e)
        case Ok(column) => Ok(merged + [column])
  }

  function Updated<V>(u: Unit<V>, keys: seq<nat>, data: seq<Column<V>>, up: Update<V>): Result<Unit<V>> {
    match MergeColumns(u.fields, data, keys, up)
    case Err(e) => Err(e)
    case Ok(merged) => Put(u, merged, keys)
  }

  // ---------------------------------------------------------------- what a put leaves behind

  /** The cell of one field and index. */
  function Cell<V>(fields: Fields<V>, f: string, k: nat): Option<V> {
    if f in fields && k in fields[f] then Some(fields[f][k]) else None
  }

  /** Position c of the data gives field f; the last value given for k in it is at position i. */
  ghost predicate Gives<V>(data: seq<Column<V>>, keys: seq<nat>, f: string, k: nat, c: nat, i: nat) {
    && c < |data| && data[c].field == f
    && i < |keys| && keys[i] == k && forall j :: i < j < |keys| ==> keys[j] != k
  }

  ghost predicate Named<V>(data: seq<Column<V>>, f: string) {
    exists c :: 0 <= c < |data| && data[c].field == f
  }

  lemma {:induction false} PutColumnAt<V>(column: map<nat, V>, keys: seq<nat>, values: seq<V>, k: nat)
    requires |keys| == |values|
    ensures k in PutColumn(column, keys, values) <==> k in column || k in keys
    ensures k !in keys && k in column ==> PutColumn(column, keys, values)[k] == column[k]
  {
    if keys != [] {
      var n := |keys| - 1;
      PutColumnAt(column, keys[..n], values[..n], k);
      assert k in keys <==> k == keys[n] || k in keys[..n];
    }
  }

  lemma {:induction false} PutColumnLast<V>(column: map<nat, V>, keys: seq<nat>, values: seq<V>, i: nat)
    requires |keys| == |values| && i < |keys| && forall j :: i < j < |keys| ==> keys[j] != keys[i]
    ensures keys[i] in PutColumn(column, keys, values) && PutColumn(column, keys, values)[keys[i]] == values[i]
  {
    var n := |keys| - 1;
    if i < n {
      PutColumnLast(column, keys[..n], values[..n], i);
    }
  }

  lemma {:induction false} PutColumnsElsewhere<V>(fields: Fields<V>, data: seq<Column<V>>, keys: seq<nat>, f: string, k: nat)
    requires LengthsMatch(data, |keys|) && (!Named(data, f) || k !in keys)
    ensures Cell(PutColumns(fields, data, keys), f, k) == Cell(fields, f, k)
  {
    if data != [] {
      var n := |data| - 1;
      var before := PutColumns(fields, data[..n], keys);
      assert forall c :: 0 <= c < n ==> data[..n][c] == data[c];
      PutColumnsElsewhere(fields, data[..n], keys, f, k);
      PutColumnAt(FieldOf(before, data[n].field), keys, data[n].values, k);
    }
  }

  lemma {:induction false} PutColumnsKeys<V>(fields: Fields<V>, data: seq<Column<V>>, keys: seq<nat>, f: string)
    requires LengthsMatch(data, |keys|)
    ensures f in PutColumns(fields, data, keys) <==> f in fields || Named(data, f)
  {
    if data != [] {
      var n := |data| - 1;
      PutColumnsKeys(fields, data[..n], keys, f);
      if c :| 0 <= c < |data| && data[c].field == f { assert c < n ==> data[..n][c].field == f; }
      if c :| 0 <= c < n && data[..n][c].field == f { assert data[c].field == f; }
    }
  }

  lemma {:induction false} PutColumnsGiven<V>(fields: Fields<V>, data: seq<Column<V>>, keys: seq<nat>, f: string, k: nat, c: nat, i: nat)
    requires LengthsMatch(data, |keys|) && DistinctFields(data) && Gives(data, keys, f, k, c, i)
    ensures Cell(PutColumns(fields, data, keys), f, k) == Some(data[c].values[i])
  {
    var n := |data| - 1;
    var before := PutColumns(fields, data[..n], keys);
    if c == n {
      PutColumnLast(FieldOf(before, f), keys, data[n].values, i);
    } else {
      assert data[c].field != data[n].field;
      PutColumnsGiven(fields, data[..n], keys, f, k, c, i);
    }
  }

  lemma {:induction false} LastPosition(keys: seq<nat>, k: nat) returns (i: nat)
    requires k in keys
    ensures i < |keys| && keys[i] == k && forall j :: i < j < |keys| ==> keys[j] != k
  {
    i := |keys| - 1;
    if keys[i] != k {
      var n := i;
      i := LastPosition(keys[..n], k);
      assert forall j :: i < j < n ==> keys[..n][j] == keys[j];
    }
  }

  // ---------------------------------------------------------------- what a put writes and a clear removes

  /** The last value given for a field and index is there, every other cell is as before, and the indexes are active. */
  ghost predicate PutCells<V>(u: Unit<V>, u': Unit<V>, data: seq<Column<V>>, keys: seq<nat>) {
    && u'.size == u.size && (forall k :: k in u'.active <==> k in u.active || k in keys)
    && (forall f, k, c: nat, i: nat :: Gives(data, keys, f, k, c, i) ==> i < |data[c].values| && Cell(u'.fields, f, k) == Some(data[c].values[i]))
    && (forall f, k :: !Named(data, f) || k !in keys ==> Cell(u'.fields, f, k) == Cell(u.fields, f, k))
    && (forall f :: f in u'.fields <==> f in u.fields || Named(data, f))
  }

  /** Capacity is looked at before lengths. */
  ghost predicate PutFails<V>(u: Unit<V>, data: seq<Column<V>>, keys: seq<nat>, e: Error) {
    if u.size.Some? && |u.active| + NewCount(u.active, keys) > u.size.value then e == CapacityExceeded
    else e == LengthMismatch && exists c :: 0 <= c < |data| && |data[c].values| != |keys|
  }

  lemma PutWrites<V>(u: Unit<V>, data: seq<Column<V>>, keys: seq<nat>)
    requires DistinctFields(data)
    ensures match Put(u, data, keys)
            case Ok(u') => PutCells(u, u', data, keys)
            case Err(e) => PutFails(u, data, keys, e)
  {
    hide PutColumns;
    if Put(u, data, keys).Ok? {
      forall f, k, c: nat, i: nat | Gives(data, keys, f, k, c, i) ensures Cell(PutColumns(u.fields, data, keys), f, k) == Some(data[c].values[i]) {
        PutColumnsGiven(u.fields, data, keys, f, k, c, i);
      }
      forall f, k | !Named(data, f) || k !in keys ensures Cell(PutColumns(u.fields, data, keys), f, k) == Cell(u.fields, f, k) {
        PutColumnsElsewhere(u.fields, data, keys, f, k);
      }
      forall f ensures f in PutColumns(u.fields, data, keys) <==> f in u.fields || Named(data, f) {
        PutColumnsKeys(u.fields, data, keys, f);
      }
    }
  }

  /** The given indexes are gone from the given fields, or from all of them and from the active set; nothing else changes. */
  ghost predicate ClearedCells<V>(u: Unit<V>, u': Unit<V>, keys: seq<nat>, only: Option<seq<string>>) {
    && u'.size == u.size && u'.fields.Keys == u.fields.Keys
    && (forall k :: k in u'.active <==> k in u.active && (only.None? ==> k !in keys))
    && (forall f, k :: Cell(u'.fields, f, k) == if k in keys && (only.None? || f in only.value) then None else Cell(u.fields, f, k))
  }

  lemma ClearedIs<V>(u: Unit<V>, fields: Fields<V>, keys: seq<nat>, only: Option<seq<string>>)
    requires fields.Keys == u.fields.Keys
    requires forall f :: f in fields ==> fields[f] == if only.Some? && f !in only.value then u.fields[f] else u.fields[f] - set k | k in keys
    ensures Cleared(u, keys, only) == u.(fields := fields, active := if only.Some? then u.active else u.active - set k | k in keys)
  {
  }

  lemma ClearRemoves<V>(u: Unit<V>, keys: seq<nat>, only: Option<seq<string>>)
    ensures ClearedCells(u, Cleared(u, keys, only), keys, only)
  {
  }

  // ---------------------------------------------------------------- what a read returns

  ghost predicate HoldsAll<V>(fields: Fields<V>, f: string, keys: seq<nat>) {
    f in fields && forall k :: k in keys ==> k in fields[f]
  }

  /** The values of one field in the order in which they were asked for. */
  ghost predicate InOrder<V>(fields: Fields<V>, f: string, keys: seq<nat>, row: seq<V>) {
    |row| == |keys| && forall i :: 0 <= i < |keys| ==> Cell(fields, f, keys[i]) == Some(row[i])
  }

  ghost predicate FirstMissing<V>(fields: Fields<V>, names: seq<string>, keys: seq<nat>, n: int) {
    && 0 <= n < |names| && !HoldsAll(fields, names[n], keys)
    && forall m :: 0 <= m < n ==> HoldsAll(fields, names[m], keys)
  }

  /** Every field holds every index and is read in request order; or the first field that does not decides the error. */
  ghost predicate Reads<V>(fields: Fields<V>, names: seq<string>, keys: seq<nat>, r: Result<map<string, seq<V>>>) {
    match r
    case Ok(got) =>
      && (forall f :: f in names ==> HoldsAll(fields, f, keys))
      && (forall f :: f in got <==> f in names) && (forall f :: f in got ==> InOrder(fields, f, keys, got[f]))
    case Err(e) =>
      exists n :: FirstMissing(fields, names, keys, n) && e == if names[n] in fields then KeyNotFound else FieldNotFound
  }

  lemma {:induction false} GetReads<V>(fields: Fields<V>, names: seq<string>, keys: seq<nat>)
    ensures Reads(fields, names, keys, Get(fields, names, keys))
    ensures Get(fields, names, keys).Ok? <==> forall f :: f in names ==> HoldsAll(fields, f, keys)
  {
    if names != [] {
      var n := |names| - 1;
      GetReads(fields, names[..n], keys);
      assert forall f :: f in names <==> f in names[..n] || f == names[n];
      hide HoldsAll, InOrder;
      match Get(fields, names[..n], keys)
      case Err(e) => MissingEarlier(fields, names, keys, e);
      case Ok(got) =>
        assert forall m :: 0 <= m < n ==> names[m] in names[..n];
        GetLast(fields, names[n], keys);
        if !HoldsAll(fields, names[n], keys) { assert FirstMissing(fields, names, keys, n); }
    }
  }

  lemma MissingEarlier<V>(fields: Fields<V>, names: seq<string>, keys: seq<nat>, e: Error)
    requires names != [] && Reads(fields, names[..|names| - 1], keys, Err(e))
    ensures Reads(fields, names, keys, Err(e)) && exists f :: f in names && !HoldsAll(fields, f, keys)
  {
    hide HoldsAll;
    var n := |names| - 1;
    var m :| FirstMissing(fields, names[..n], keys, m) && e == if names[..n][m] in fields then KeyNotFound else FieldNotFound;
    assert names[..n][m] == names[m] && forall l :: 0 <= l < m ==> names[..n][l] == names[l];
    assert FirstMissing(fields, names, keys, m);
  }

  lemma GetLast<V>(fields: Fields<V>, f: string, keys: seq<nat>)
    ensures HoldsAll(fields, f, keys) <==> f in fields && HasAll(fields[f], keys)
    ensures HoldsAll(fields, f, keys) ==> InOrder(fields, f, keys, Pick(fields[f], keys))
  {
  }

  ghost predicate HadOrGiven<V>(u: Unit<V>, data: seq<Column<V>>, keys: seq<nat>, f: string, wanted: seq<nat>) {
    && (f in u.fields || Named(data, f))
    && forall k :: k in wanted ==> Cell(u.fields, f, k).Some? || (Named(data, f) && k in keys)
  }

  ghost predicate ReadsBack<V>(u: Unit<V>, data: seq<Column<V>>, keys: seq<nat>, f: string, wanted: seq<nat>, row: seq<V>) {
    && |row| == |wanted|
    && (forall i, c: nat, j: nat :: 0 <= i < |wanted| && Gives(data, keys, f, wanted[i], c, j) ==> j < |data[c].values| && row[i] == data[c].values[j])
    && (forall i :: 0 <= i < |wanted| && (!Named(data, f) || wanted[i] !in keys) ==> Cell(u.fields, f, wanted[i]) == Some(row[i]))
  }

  /** Reading after a put: the last value given where one was given, what was there before elsewhere. */
  lemma PutThenGet<V>(u: Unit<V>, data: seq<Column<V>>, keys: seq<nat>, names: seq<string>, wanted: seq<nat>)
    requires DistinctFields(data) && Put(u, data, keys).Ok?
    ensures Get(Put(u, data, keys).value.fields, names, wanted).Ok? <==> forall f :: f in names ==> HadOrGiven(u, data, keys, f, wanted)
    ensures var r := Get(Put(u, data, keys).value.fields, names, wanted);
            r.Ok? ==> forall f :: f in names ==> f in r.value && ReadsBack(u, data, keys, f, wanted, r.value[f])
  {
    var u' := Put(u, data, keys).value;
    hide Put, Get;
    PutWrites(u, data, keys);
    GetReads(u'.fields, names, wanted);
    forall f, k ensures Cell(u'.fields, f, k).Some? <==> (Named(data, f) && k in keys) || Cell(u.fields, f, k).Some? {
      if Named(data, f) && k in keys {
        var c :| 0 <= c < |data| && data[c].field == f;
        var i := LastPosition(keys, k);
        assert Gives(data, keys, f, k, c, i);
      }
    }
    forall f ensures HoldsAll(u'.fields, f, wanted) <==> f in u'.fields && forall k :: k in wanted ==> Cell(u'.fields, f, k).Some? {
    }
    forall f ensures HadOrGiven(u, data, keys, f, wanted) <==> HoldsAll(u'.fields, f, wanted) {
    }
  }

  // ---------------------------------------------------------------- what an update leaves in a cell

  predicate IsHeld(held: seq<bool>, i: int) {
    0 <= i < |held| && held[i]
  }

  /** merge(old, new) at position i; None when there is no old value, no new one, or the merge fails. */
  ghost function MergedAt<V>(fields: Fields<V>, column: Column<V>, keys: seq<nat>, merge: (V, V) -> Option<V>, i: nat): Option<V> {
    if i < |keys| && i < |column.values| && Cell(fields, column.field, keys[i]).Some?
      then merge(Cell(fields, column.field, keys[i]).value, column.values[i]) else None
  }

  /** Held rows are merged with the value already there, the others taken as they are. */
  ghost function FinalAt<V>(fields: Fields<V>, column: Column<V>, keys: seq<nat>, held: seq<bool>, merge: (V, V) -> Option<V>, i: nat): Option<V> {
    if IsHeld(held, i) then MergedAt(fields, column, keys, merge, i) else if i < |column.values| then Some(column.values[i]) else None
  }

  ghost predicate MergedRow<V>(fields: Fields<V>, column: Column<V>, keys: seq<nat>, held: seq<bool>, merge: (V, V) -> Option<V>, row: seq<V>) {
    && |row| == |column.values| && (forall i :: IsHeld(held, i) ==> i < |row|)
    && forall i: nat :: i < |row| ==> FinalAt(fields, column, keys, held, merge, i) == Some(row[i])
  }

  ghost predicate AllAccepted<V>(plan: Plan<V>, row: seq<V>) {
    plan.accepts.Some? ==> forall i :: 0 <= i < |row| ==> plan.accepts.value(row[i])
  }

  /** The first held position whose merge cannot be done. */
  ghost predicate FirstFailure<V>(fields: Fields<V>, column: Column<V>, keys: seq<nat>, held: seq<bool>, merge: (V, V) -> Option<V>, i: nat) {
    && IsHeld(held, i) && MergedAt(fields, column, keys, merge, i).None?
    && forall j: nat :: j < i && IsHeld(held, j) ==> MergedAt(fields, column, keys, merge, j).Some?
  }

  ghost predicate RefusedAt<V>(plan: Plan<V>, v: Option<V>) {
    v.Some? && plan.accepts.Some? && !plan.accepts.value(v.value)
  }

  /** Why a column is refused: its plan, then the read of the held rows, then their merges, then the kind of the result. */
  ghost predicate ColumnFails<V>(fields: Fields<V>, column: Column<V>, keys: seq<nat>, up: Update<V>, e: Error) {
    if column.field !in up.plans then e == PlanMismatch else
      var plan := up.plans[column.field];
      if exists i :: IsHeld(plan.held, i) && i >= |keys| then e == PlanMismatch
      else if (exists i :: IsHeld(plan.held, i)) && column.field !in fields then e == FieldNotFound
      else if exists i :: IsHeld(plan.held, i) && i < |keys| && Cell(fields, column.field, keys[i]).None? then e == KeyNotFound
      else if exists i: nat :: FirstFailure(fields, column, keys, plan.held, up.merge, i) then
        exists i: nat :: FirstFailure(fields, column, keys, plan.held, up.merge, i) && e == if i < |column.values| then MergeFailed else PlanMismatch
      else e == KindMismatch && exists i: nat :: RefusedAt(plan, FinalAt(fields, column, keys, plan.held, up.merge, i))
  }

  ghost predicate ColumnMerges<V>(fields: Fields<V>, column: Column<V>, keys: seq<nat>, up: Update<V>, merged: Column<V>) {
    && column.field in up.plans && merged.field == column.field
    && MergedRow(fields, column, keys, up.plans[column.field].held, up.merge, merged.values)
    && AllAccepted(up.plans[column.field], merged.values)
  }

  lemma {:induction false} PresentIs(held: seq<bool>)
    ensures forall i :: i in Present(held) <==> IsHeld(held, i)
    ensures forall p, q :: 0 <= p < q < |Present(held)| ==> Present(held)[p] < Present(held)[q]
  {
    if held != [] {
      var n := |held| - 1;
      PresentIs(held[..n]);
      assert forall i :: IsHeld(held, i) <==> IsHeld(held[..n], i) || (i == n && held[n]);
      var less := Present(held[..n]);
      forall p | 0 <= p < |less| ensures less[p] < n { assert less[p] in less; }
    }
  }

  ghost predicate Combines<V>(present: seq<nat>, held: seq<V>, values: seq<V>, merge: (V, V) -> Option<V>, p: nat)
    requires |present| == |held|
  {
    p < |present| && present[p] < |values| && merge(held[p], values[present[p]]).Some?
  }

  ghost predicate Combined<V>(present: seq<nat>, held: seq<V>, values: seq<V>, merge: (V, V) -> Option<V>, row: seq<V>)
    requires |present| == |held|
  {
    && |row| == |values| && (forall i :: 0 <= i < |row| && i !in present ==> row[i] == values[i])
    && forall p: nat :: p < |present| ==> present[p] < |row| && merge(held[p], values[present[p]]) == Some(row[present[p]])
  }

  ghost predicate StopsAt<V>(present: seq<nat>, held: seq<V>, values: seq<V>, merge: (V, V) -> Option<V>, p: nat)
    requires |present| == |held|
  {
    && p < |present| && !Combines(present, held, values, merge, p)
    && forall q: nat :: q < p ==> Combines(present, held, values, merge, q)
  }

  /** Either every held position is merged, old value first, or the first that cannot be decides the error. */
  lemma {:induction false} CombineIs<V>(present: seq<nat>, held: seq<V>, values: seq<V>, merge: (V, V) -> Option<V>)
    requires |present| == |held| && forall p, q :: 0 <= p < q < |present| ==> present[p] < present[q]
    ensures match Combine(present, held, values, merge)
            case Ok(row) => Combined(present, held, values, merge, row)
            case Err(e) => exists p: nat :: StopsAt(present, held, values, merge, p) && e == if present[p] < |values| then MergeFailed else PlanMismatch
  {
    if present != [] {
      hide Combined, StopsAt;
      var n := |present| - 1;
      CombineIs(present[..n], held[..n], values, merge);
      match Combine(present[..n], held[..n], values, merge)
      case Ok(before) =>
        CombinedBefore(present, held, values, merge, before);
        if Combines(present, held, values, merge, n) {
          CombineLast(present, held, values, merge, before);
        }
      case Err(e) =>
        var p: nat :| StopsAt(present[..n], held[..n], values, merge, p) && e == if present[..n][p] < |values| then MergeFailed else PlanMismatch;
        StopsEarlier(present, held, values, merge, p);
    } else {
      assert Combined(present, held, values, merge, values);
    }
  }

  lemma CombinedBefore<V>(present: seq<nat>, held: seq<V>, values: seq<V>, merge: (V, V) -> Option<V>, before: seq<V>)
    requires |present| == |held| && present != [] && Combined(present[..|present| - 1], held[..|present| - 1], values, merge, before)
    ensures |before| == |values| && (Combines(present, held, values, merge, |present| - 1) || StopsAt(present, held, values, merge, |present| - 1))
  {
    var n := |present| - 1;
    forall q: nat | q < n ensures Combines(present, held, values, merge, q) {
      assert present[..n][q] == present[q] && held[..n][q] == held[q];
    }
  }

  lemma CombineLast<V>(present: seq<nat>, held: seq<V>, values: seq<V>, merge: (V, V) -> Option<V>, before: seq<V>)
    requires |present| == |held| && present != [] && forall p, q :: 0 <= p < q < |present| ==> present[p] < present[q]
    requires Combined(present[..|present| - 1], held[..|present| - 1], values, merge, before) && Combines(present, held, values, merge, |present| - 1)
    ensures var n := |present| - 1;
            present[n] < |before| && Combined(present, held, values, merge, before[present[n] := merge(held[n], values[present[n]]).value])
  {
    var n := |present| - 1;
    forall p: nat | p < n
      ensures present[p] < |values| && merge(held[p], values[present[p]]) == Some(before[present[p]]) && present[p] != present[n]
    {
      assert present[..n][p] == present[p] && held[..n][p] == held[p];
    }
    assert forall i :: i in present <==> i in present[..n] || i == present[n];
  }

  lemma StopsEarlier<V>(present: seq<nat>, held: seq<V>, values: seq<V>, merge: (V, V) -> Option<V>, p: nat)
    requires |present| == |held| && present != [] && StopsAt(present[..|present| - 1], held[..|present| - 1], values, merge, p)
    ensures StopsAt(present, held, values, merge, p) && present[..|present| - 1][p] == present[p]
  {
    var n := |present| - 1;
    forall q: nat | q < n
      ensures Combines(present[..n], held[..n], values, merge, q) <==> Combines(present, held, values, merge, q)
    {
      assert present[..n][q] == present[q] && held[..n][q] == held[q];
    }
  }

  lemma HeldValuesAre<V>(fields: Fields<V>, column: Column<V>, keys: seq<nat>, held: seq<bool>)
    ensures match HeldValues(fields, column.field, keys, Present(held))
            case Ok(had) => |had| == |Present(held)| && forall p: nat :: p < |had| ==>
                              Present(held)[p] < |keys| && Cell(fields, column.field, keys[Present(held)[p]]) == Some(had[p])
            case Err(e) =>
              if exists i :: IsHeld(held, i) && i >= |keys| then e == PlanMismatch
              else (exists i :: IsHeld(held, i))
                   && if column.field !in fields then e == FieldNotFound
                      else e == KeyNotFound && exists i :: IsHeld(held, i) && i < |keys| && Cell(fields, column.field, keys[i]).None?
  {
    PresentIs(held);
    var present := Present(held);
    hide Present;
    if present != [] {
      assert IsHeld(held, present[0]) by { assert present[0] in present; }
      if i :| 0 <= i < |present| && present[i] >= |keys| { assert IsHeld(held, present[i]) by { assert present[i] in present; } }
      if i :| IsHeld(held, i) && i >= |keys| { assert i in present; }
      if (forall i :: 0 <= i < |present| ==> present[i] < |keys|) && column.field in fields && !HasAll(fields[column.field], At(keys, present)) {
        var k :| k in At(keys, present) && k !in fields[column.field];
        var p :| 0 <= p < |present| && At(keys, present)[p] == k;
        assert present[p] in present;
        assert IsHeld(held, present[p]) && keys[present[p]] == k;
      }
    }
  }

  lemma MergeColumnIs<V>(fields: Fields<V>, column: Column<V>, keys: seq<nat>, up: Update<V>)
    ensures match MergeColumn(fields, column, keys, up)
            case Ok(merged) => ColumnMerges(fields, column, keys, up, merged)
            case Err(e) => ColumnFails(fields, column, keys, up, e)
  {
    if column.field in up.plans {
      var plan := up.plans[column.field];
      var present := Present(plan.held);
      PresentIs(plan.held);
      HeldValuesAre(fields, column, keys, plan.held);
      if HeldValues(fields, column.field, keys, present).Ok? {
        FinishedIs(fields, column, keys, plan, HeldValues(fields, column.field, keys, present).value, up);
      }
    }
  }

  ghost predicate HeldReadable<V>(fields: Fields<V>, column: Column<V>, keys: seq<nat>, held: seq<bool>) {
    forall i :: IsHeld(held, i) ==> i < |keys| && Cell(fields, column.field, keys[i]).Some?
  }

  lemma FinishedIs<V>(fields: Fields<V>, column: Column<V>, keys: seq<nat>, plan: Plan<V>, had: seq<V>, up: Update<V>)
    requires column.field in up.plans && up.plans[column.field] == plan && |had| == |Present(plan.held)|
    requires forall p: nat :: p < |had| ==> Present(plan.held)[p] < |keys| && Cell(fields, column.field, keys[Present(plan.held)[p]]) == Some(had[p])
    ensures match Finished(column, plan, Present(plan.held), had, up.merge)
            case Ok(merged) => ColumnMerges(fields, column, keys, up, merged)
            case Err(e) => ColumnFails(fields, column, keys, up, e)
  {
    var present, values := Present(plan.held), column.values;
    PresentIs(plan.held);
    hide Present, ColumnFails, ColumnMerges;
    forall i | IsHeld(plan.held, i) ensures i < |keys| && Cell(fields, column.field, keys[i]).Some? {
      assert i in present;
    }
    forall p: nat | p < |present|
      ensures IsHeld(plan.held, present[p])
      ensures MergedAt(fields, column, keys, up.merge, present[p]) ==
              if present[p] < |values| then up.merge(had[p], values[present[p]]) else None
    {
      assert present[p] in present;
    }
    CombineIs(present, had, values, up.merge);
    match Combine(present, had, values, up.merge)
    case Ok(row) =>
      assert MergedRow(fields, column, keys, plan.held, up.merge, row) by { RowMerged(fields, column, keys, plan, had, up, row); }
      KindDecides(fields, column, keys, plan, up, row);
    case Err(e) =>
      var p: nat :| StopsAt(present, had, values, up.merge, p) && e == if present[p] < |values| then MergeFailed else PlanMismatch;
      forall j: nat | j < present[p] && IsHeld(plan.held, j) ensures MergedAt(fields, column, keys, up.merge, j).Some? {
        assert j in present;
        var q :| 0 <= q < |present| && present[q] == j;
        assert Combines(present, had, values, up.merge, q);
      }
      MergeDecides(fields, column, keys, plan, up, present[p], e);
  }

  lemma RowMerged<V>(fields: Fields<V>, column: Column<V>, keys: seq<nat>, plan: Plan<V>, had: seq<V>, up: Update<V>, row: seq<V>)
    requires var present := Present(plan.held);
             && |had| == |present| && |row| == |column.values| && (forall i :: 0 <= i < |row| && i !in present ==> row[i] == column.values[i])
             && (forall i :: i in present <==> IsHeld(plan.held, i))
             && (forall p: nat :: p < |present| ==> present[p] < |row| && MergedAt(fields, column, keys, up.merge, present[p]) == Some(row[present[p]]))
    ensures MergedRow(fields, column, keys, plan.held, up.merge, row)
  {
    hide Present, MergedAt;
  }

  lemma KindDecides<V>(fields: Fields<V>, column: Column<V>, keys: seq<nat>, plan: Plan<V>, up: Update<V>, row: seq<V>)
    requires column.field in up.plans && up.plans[column.field] == plan && HeldReadable(fields, column, keys, plan.held)
    requires MergedRow(fields, column, keys, plan.held, up.merge, row)
    ensures if Accepted(plan, row) then ColumnMerges(fields, column, keys, up, Column(column.field, row))
            else ColumnFails(fields, column, keys, up, KindMismatch)
  {
    hide MergedAt;
    forall i: nat | IsHeld(plan.held, i) ensures MergedAt(fields, column, keys, up.merge, i).Some? {
      assert FinalAt(fields, column, keys, plan.held, up.merge, i) == Some(row[i]);
    }
    if !Accepted(plan, row) {
      var i: nat :| i < |row| && !plan.accepts.value(row[i]);
      assert RefusedAt(plan, FinalAt(fields, column, keys, plan.held, up.merge, i));
    }
  }

  lemma MergeDecides<V>(fields: Fields<V>, column: Column<V>, keys: seq<nat>, plan: Plan<V>, up: Update<V>, i: nat, e: Error)
    requires column.field in up.plans && up.plans[column.field] == plan && HeldReadable(fields, column, keys, plan.held)
    requires FirstFailure(fields, column, keys, plan.held, up.merge, i) && e == if i < |column.values| then MergeFailed else PlanMismatch
    ensures ColumnFails(fields, column, keys, up, e)
  {
    hide FirstFailure;
  }

  // ---------------------------------------------------------------- the whole update

  ghost predicate ColumnsMerge<V>(fields: Fields<V>, data: seq<Column<V>>, keys: seq<nat>, up: Update<V>, merged: seq<Column<V>>) {
    |merged| == |data| && forall c :: 0 <= c < |data| ==> ColumnMerges(fields, data[c], keys, up, merged[c])
  }

  /** The first column that is refused. */
  ghost predicate FirstRefused<V>(fields: Fields<V>, data: seq<Column<V>>, keys: seq<nat>, up: Update<V>, c: int, e: Error) {
    && 0 <= c < |data| && ColumnFails(fields, data[c], keys, up, e)
    && forall d, other :: 0 <= d < c ==> !ColumnFails(fields, data[d], keys, up, other)
  }

  lemma MergesOrFails<V>(fields: Fields<V>, column: Column<V>, keys: seq<nat>, up: Update<V>, merged: Column<V>, e: Error)
    requires ColumnMerges(fields, column, keys, up, merged)
    ensures !ColumnFails(fields, column, keys, up, e)
  {
    var plan := up.plans[column.field];
    hide MergedAt;
    forall i: nat | IsHeld(plan.held, i)
      ensures MergedAt(fields, column, keys, up.merge, i).Some? && i < |keys| && Cell(fields, column.field, keys[i]).Some?
    {
      assert FinalAt(fields, column, keys, plan.held, up.merge, i) == Some(merged.values[i]);
      MergedHasOld(fields, column, keys, up.merge, i);
    }
    forall i: nat ensures !RefusedAt(plan, FinalAt(fields, column, keys, plan.held, up.merge, i)) {
    }
  }

  lemma MergedHasOld<V>(fields: Fields<V>, column: Column<V>, keys: seq<nat>, merge: (V, V) -> Option<V>, i: nat)
    requires MergedAt(fields, column, keys, merge, i).Some?
    ensures i < |keys| && Cell(fields, column.field, keys[i]).Some?
  {
  }

  ghost predicate Refused<V>(fields: Fields<V>, data: seq<Column<V>>, keys: seq<nat>, up: Update<V>, e: Error) {
    exists c :: FirstRefused(fields, data, keys, up, c, e)
  }

  lemma {:induction false} MergeColumnsAre<V>(fields: Fields<V>, data: seq<Column<V>>, keys: seq<nat>, up: Update<V>)
    ensures match MergeColumns(fields, data, keys, up)
            case Ok(merged) => ColumnsMerge(fields, data, keys, up, merged)
            case Err(e) => Refused(fields, data, keys, up, e)
  {
    if data != [] {
      var n := |data| - 1;
      hide ColumnFails, ColumnMerges, MergeColumn, Refused, ColumnsMerge;
      MergeColumnsAre(fields, data[..n], keys, up);
      MergeColumnIs(fields, data[n], keys, up);
      match MergeColumns(fields, data[..n], keys, up)
      case Err(e) => RefusedEarlier(fields, data, keys, up, e);
      case Ok(before) =>
        match MergeColumn(fields, data[n], keys, up) {
          case Err(e) => RefusedLast(fields, data, keys, up, before, e);
          case Ok(last) => MergedLast(fields, data, keys, up, before, last);
        }
    }
  }

  lemma RefusedEarlier<V>(fields: Fields<V>, data: seq<Column<V>>, keys: seq<nat>, up: Update<V>, e: Error)
    requires data != [] && Refused(fields, data[..|data| - 1], keys, up, e)
    ensures Refused(fields, data, keys, up, e)
  {
    hide ColumnFails;
    var c :| FirstRefused(fields, data[..|data| - 1], keys, up, c, e);
    assert FirstRefused(fields, data, keys, up, c, e);
  }

  lemma RefusedLast<V>(fields: Fields<V>, data: seq<Column<V>>, keys: seq<nat>, up: Update<V>, before: seq<Column<V>>, e: Error)
    requires data != [] && ColumnsMerge(fields, data[..|data| - 1], keys, up, before) && ColumnFails(fields, data[|data| - 1], keys, up, e)
    ensures Refused(fields, data, keys, up, e)
  {
    hide ColumnFails, ColumnMerges;
    forall d, other | 0 <= d < |data| - 1 ensures !ColumnFails(fields, data[d], keys, up, other) {
      MergesOrFails(fields, data[d], keys, up, before[d], other);
    }
    assert FirstRefused(fields, data, keys, up, |data| - 1, e);
  }

  lemma MergedLast<V>(fields: Fields<V>, data: seq<Column<V>>, keys: seq<nat>, up: Update<V>, before: seq<Column<V>>, last: Column<V>)
    requires data != [] && ColumnsMerge(fields, data[..|data| - 1], keys, up, before) && ColumnMerges(fields, data[|data| - 1], keys, up, last)
    ensures ColumnsMerge(fields, data, keys, up, before + [last])
  {
    hide ColumnMerges;
  }

  /** What the cell of a field and index holds when its last position in the data is i. */
  ghost predicate NewCell<V>(u: Unit<V>, u': Unit<V>, column: Column<V>, keys: seq<nat>, up: Update<V>, i: nat)
    requires i < |keys| && i < |column.values| && column.field in up.plans
  {
    var was, now := Cell(u.fields, column.field, keys[i]), Cell(u'.fields, column.field, keys[i]);
    if IsHeld(up.plans[column.field].held, i) then was.Some? && now.Some? && up.merge(was.value, column.values[i]) == now
    else now == Some(column.values[i])
  }

  /** Held cells hold the merge of old and new, the other named ones the new value; every other cell is as before. */
  ghost predicate UpdatedCells<V>(u: Unit<V>, u': Unit<V>, keys: seq<nat>, data: seq<Column<V>>, up: Update<V>) {
    && u'.size == u.size && (forall k :: k in u'.active <==> k in u.active || k in keys)
    && (forall f, k, c: nat, i: nat :: Gives(data, keys, f, k, c, i) ==>
          i < |data[c].values| && f in up.plans && NewCell(u, u', data[c], keys, up, i))
    && (forall f, k :: !Named(data, f) || k !in keys ==> Cell(u'.fields, f, k) == Cell(u.fields, f, k))
  }

  /** A column is refused, or all could be merged and the put fails. */
  ghost predicate UpdateFails<V>(u: Unit<V>, keys: seq<nat>, data: seq<Column<V>>, up: Update<V>, e: Error) {
    || Refused(u.fields, data, keys, up, e)
    || (PutFails(u, data, keys, e) && forall c, other :: 0 <= c < |data| ==> !ColumnFails(u.fields, data[c], keys, up, other))
  }

  lemma UpdateWrites<V>(u: Unit<V>, keys: seq<nat>, data: seq<Column<V>>, up: Update<V>)
    requires DistinctFields(data)
    ensures match Updated(u, keys, data, up)
            case Ok(u') => UpdatedCells(u, u', keys, data, up)
            case Err(e) => UpdateFails(u, keys, data, up, e)
  {
    hide ColumnFails, ColumnMerges, MergeColumns, PutFails, Put, PutCells, Refused;
    MergeColumnsAre(u.fields, data, keys, up);
    match MergeColumns(u.fields, data, keys, up)
    case Err(_) =>
    case Ok(merged) =>
      MergedShape(u.fields, data, keys, up, merged);
      PutWrites(u, merged, keys);
      match Put(u, merged, keys)
      case Ok(u') => MergedCells(u, u', keys, data, up, merged);
      case Err(e) =>
        SamePutFails(u, data, merged, keys, e);
        forall c, other | 0 <= c < |data| ensures !ColumnFails(u.fields, data[c], keys, up, other) {
          MergesOrFails(u.fields, data[c], keys, up, merged[c], other);
        }
  }

  lemma MergedShape<V>(fields: Fields<V>, data: seq<Column<V>>, keys: seq<nat>, up: Update<V>, merged: seq<Column<V>>)
    requires ColumnsMerge(fields, data, keys, up, merged)
    ensures |merged| == |data| && forall c :: 0 <= c < |data| ==> merged[c].field == data[c].field && |merged[c].values| == |data[c].values|
    ensures DistinctFields(data) ==> DistinctFields(merged)
  {
    hide MergedAt, AllAccepted;
    forall c | 0 <= c < |data| ensures merged[c].field == data[c].field && |merged[c].values| == |data[c].values| {
      assert ColumnMerges(fields, data[c], keys, up, merged[c]);
    }
  }

  lemma SamePutFails<V>(u: Unit<V>, data: seq<Column<V>>, merged: seq<Column<V>>, keys: seq<nat>, e: Error)
    requires |merged| == |data| && forall c :: 0 <= c < |data| ==> merged[c].field == data[c].field && |merged[c].values| == |data[c].values|
    requires PutFails(u, merged, keys, e)
    ensures PutFails(u, data, keys, e)
  {
  }

  lemma MergedCells<V>(u: Unit<V>, u': Unit<V>, keys: seq<nat>, data: seq<Column<V>>, up: Update<V>, merged: seq<Column<V>>)
    requires ColumnsMerge(u.fields, data, keys, up, merged) && PutCells(u, u', merged, keys)
    requires |merged| == |data| && forall c :: 0 <= c < |data| ==> merged[c].field == data[c].field && |merged[c].values| == |data[c].values|
    ensures UpdatedCells(u, u', keys, data, up)
  {
    hide ColumnMerges;
    forall f, k, c: nat, i: nat | Gives(data, keys, f, k, c, i)
      ensures i < |data[c].values| && f in up.plans && NewCell(u, u', data[c], keys, up, i)
    {
      assert Gives(merged, keys, f, k, c, i);
      CellMerged(u, u', data[c], keys, up, merged[c], i);
    }
    forall f ensures Named(data, f) <==> Named(merged, f) {
      if c :| 0 <= c < |data| && data[c].field == f { assert merged[c].field == f; }
      if c :| 0 <= c < |data| && merged[c].field == f { assert data[c].field == f; }
    }
  }

  lemma CellMerged<V>(u: Unit<V>, u': Unit<V>, column: Column<V>, keys: seq<nat>, up: Update<V>, merged: Column<V>, i: nat)
    requires ColumnMerges(u.fields, column, keys, up, merged) && i < |keys| && i < |merged.values|
    requires Cell(u'.fields, column.field, keys[i]) == Some(merged.values[i])
    ensures i < |column.values| && column.field in up.plans && NewCell(u, u', column, keys, up, i)
  {
    assert FinalAt(u.fields, column, keys, up.plans[column.field].held, up.merge, i) == Some(merged.values[i]);
  }

  // ---------------------------------------------------------------- the loops

  /** values[i] = merge_fn(old, new_values[i]) for the rows that are held. */
  method CombineRows<V>(present: seq<nat>, held: seq<V>, newValues: seq<V>, merge: (V, V) -> Option<V>) returns (r: Result<seq<V>>)
    requires |present| == |held|
    ensures r == Combine(present, held, newValues, merge)
  {
    var values := newValues;
    for i := 0 to |present|
      invariant Combine(present[..i], held[..i], newValues, merge) == Ok(values) && |values| == |newValues|
    {
      assert present[..i + 1][..i] == present[..i] && held[..i + 1][..i] == held[..i];
      var merged := if present[i] < |newValues| then merge(held[i], newValues[present[i]]) else None;
      if merged.None? {
        CombineFails(present, held, newValues, merge, i);
        return Err(if present[i] < |newValues| then MergeFailed else PlanMismatch);
      }
      values := values[present[i] := merged.value];
    }
    assert present[..|present|] == present && held[..|held|] == held;
    r := Ok(values);
  }

  /** The first row that fails decides the result. */
  lemma {:induction false} CombineFails<V>(present: seq<nat>, held: seq<V>, values: seq<V>, merge: (V, V) -> Option<V>, i: nat)
    requires |present| == |held| && i < |present| && Combine(present[..i + 1], held[..i + 1], values, merge).Err?
    ensures Combine(present, held, values, merge) == Combine(present[..i + 1], held[..i + 1], values, merge)
    decreases |present|
  {
    var n := |present| - 1;
    if i < n {
      assert present[..n][..i + 1] == present[..i + 1] && held[..n][..i + 1] == held[..i + 1];
      CombineFails(present[..n], held[..n], values, merge, i);
    } else {
      assert present[..i + 1] == present && held[..i + 1] == held;
    }
  }

  /** Merges the held rows and checks the kind of every final value. */
  method FinishColumn<V>(column: Column<V>, plan: Plan<V>, present: seq<nat>, held: seq<V>, merge: (V, V) -> Option<V>)
    returns (r: Result<Column<V>>)
    requires |present| == |held|
    ensures r == Finished(column, plan, present, held, merge)
  {
    var merged := CombineRows(present, held, column.values, merge);
    if merged.Err? { return Err(merged.error); }
    if !Accepted(plan, merged.value) { return Err(KindMismatch); }
    r := Ok(Column(column.field, merged.value));
  }

  lemma GetOne<V>(fields: Fields<V>, field: string, keys: seq<nat>, present: seq<nat>)
    requires present != [] && forall i :: 0 <= i < |present| ==> present[i] < |keys|
    ensures var got, held := Get(fields, [field], At(keys, present)), HeldValues(fields, field, keys, present);
            if got.Err? then held == Err(got.error) else field in got.value && held == Ok(got.value[field])
  {
    assert [field][..0] == [];
  }

  lemma {:induction false} MergeFails<V>(fields: Fields<V>, data: seq<Column<V>>, keys: seq<nat>, up: Update<V>, c: nat)
    requires c < |data| && MergeColumns(fields, data[..c + 1], keys, up).Err?
    ensures MergeColumns(fields, data, keys, up) == MergeColumns(fields, data[..c + 1], keys, up)
    decreases |data|
  {
    var n := |data| - 1;
    if c < n {
      assert data[..n][..c + 1] == data[..c + 1];
      MergeFails(fields, data[..n], keys, up, c);
    } else {
      assert data[..c + 1] == data;
    }
  }

  method HeldRows(held: seq<bool>) returns (present: seq<nat>)
    ensures present == Present(held)
  {
    present := [];
    for i := 0 to |held|
      invariant present == Present(held[..i])
    {
      assert held[..i + 1][..i] == held[..i];
      if held[i] { present := present + [i]; }
    }
    assert held[..|held|] == held;
  }

  class StorageUnitData<V> {
    const storageSize: Option<nat>
    var fieldData: Fields<V>
    var activeKeys: set<nat>

    function View(): Unit<V>
      reads this
    {
      Unit(fieldData, activeKeys, storageSize)
    }

    constructor (storageSize: Option<nat>)
      ensures View() == Unit(map[], {}, storageSize)
    {
      this.storageSize, fieldData, activeKeys := storageSize, map[], {};
    }

    method PutData(data: seq<Column<V>>, keys: seq<nat>) returns (r: Result<()>)
      modifies this
      ensures match Put(old(View()), data, keys)
              case Err(e) => r == Err(e) && View() == old(View())
              case Ok(u) => r == Ok(()) && View() == u
      ensures DistinctFields(data) ==> match r
                                       case Err(e) => PutFails(old(View()), data, keys, e)
                                       case Ok(_) => PutCells(old(View()), View(), data, keys)
    {
      hide PutFails, PutCells;
      if DistinctFields(data) { PutWrites(View(), data, keys); }
      if storageSize.Some? && |activeKeys| + NewCount(activeKeys, keys) > storageSize.value {
        return Err(CapacityExceeded);
      }
      if !LengthsMatch(data, |keys|) {
        return Err(LengthMismatch);
      }
      for c := 0 to |data|
        invariant fieldData == PutColumns(old(fieldData), data[..c], keys) && activeKeys == old(activeKeys)
      {
        assert data[..c + 1][..c] == data[..c];
        PutField(data[c].field, keys, data[c].values);
      }
      assert data[..|data|] == data;
      activeKeys := activeKeys + set k | k in keys;
      r := Ok(());
    }

    method PutField(f: string, keys: seq<nat>, values: seq<V>)
      requires |keys| == |values|
      modifies this`fieldData
      ensures fieldData == old(fieldData)[f := PutColumn(FieldOf(old(fieldData), f), keys, values)]
    {
      if f !in fieldData {
        fieldData := fieldData[f := map[]];
      }
      for i := 0 to |keys|
        invariant fieldData == old(fieldData)[f := PutColumn(FieldOf(old(fieldData), f), keys[..i], values[..i])]
      {
        assert keys[..i + 1][..i] == keys[..i] && values[..i + 1][..i] == values[..i];
        fieldData := fieldData[f := fieldData[f][keys[i] := values[i]]];
      }
      assert keys[..|keys|] == keys && values[..|keys|] == values;
    }

    method GetData(names: seq<string>, keys: seq<nat>) returns (r: Result<map<string, seq<V>>>)
      ensures r == Get(fieldData, names, keys) && Reads(fieldData, names, keys, r)
      ensures r.Ok? <==> forall f :: f in names ==> HoldsAll(fieldData, f, keys)
    {
      hide Reads, HoldsAll;
      GetReads(fieldData, names, keys);
      var got: map<string, seq<V>> := map[];
      for i := 0 to |names|
        invariant Get(fieldData, names[..i], keys) == Ok(got)
      {
        assert names[..i + 1][..i] == names[..i];
        if names[i] !in fieldData || !HasAll(fieldData[names[i]], keys) {
          GetFails(fieldData, names, keys, i);
          return Err(if names[i] !in fieldData then FieldNotFound else KeyNotFound);
        }
        got := got[names[i] := Pick(fieldData[names[i]], keys)];
      }
      assert names[..|names|] == names;
      r := Ok(got);
    }

    method Clear(keys: seq<nat>, only: Option<seq<string>>)
      modifies this
      ensures View() == Cleared(old(View()), keys, only) && ClearedCells(old(View()), View(), keys, only)
    {
      hide ClearedCells, Cleared;
      ClearRemoves(View(), keys, only);
      var todo := fieldData.Keys;
      ghost var gone := set k | k in keys;
      while todo != {}
        invariant todo <= fieldData.Keys == old(fieldData).Keys && activeKeys == old(activeKeys)
        invariant forall f :: f in fieldData ==>
          fieldData[f] == if f in todo || (only.Some? && f !in only.value) then old(fieldData)[f] else old(fieldData)[f] - gone
        decreases |todo|
      {
        var f :| f in todo;
        if only.None? || f in only.value {
          var column := PopAll(fieldData[f], keys);
          fieldData := fieldData[f := column];
        }
        todo := todo - {f};
      }
      ClearedIs(old(View()), fieldData, keys, only);
      if only.None? {
        activeKeys := activeKeys - set k | k in keys;
      }
    }

    method PopAll(column: map<nat, V>, keys: seq<nat>) returns (r: map<nat, V>)
      ensures r == column - set k | k in keys
    {
      r := column;
      for i := 0 to |keys|
        invariant r == column - set j | 0 <= j < i :: keys[j]
      {
        r := r - {keys[i]};
      }
    }

    /** All columns are merged and checked before the one put. */
    method ApplyUpdate(keys: seq<nat>, data: seq<Column<V>>, up: Update<V>) returns (r: Result<()>)
      requires DistinctFields(data)
      modifies this
      ensures match Updated(old(View()), keys, data, up)
              case Err(e) => r == Err(e) && View() == old(View())
              case Ok(u) => r == Ok(()) && View() == u
      ensures match r
              case Err(e) => UpdateFails(old(View()), keys, data, up, e)
              case Ok(_) => UpdatedCells(old(View()), View(), keys, data, up)
    {
      hide UpdateFails, UpdatedCells, PutFails, PutCells, Put, MergeColumn, DistinctFields;
      UpdateWrites(View(), keys, data, up);
      var computed: seq<Column<V>> := [];
      for c := 0 to |data|
        invariant MergeColumns(fieldData, data[..c], keys, up) == Ok(computed) && View() == old(View())
      {
        assert data[..c + 1][..c] == data[..c];
        var merged := MergeField(data[c], keys, up);
        if merged.Err? {
          MergeFails(fieldData, data, keys, up, c);
          return Err(merged.error);
        }
        computed := computed + [merged.value];
      }
      assert data[..|data|] == data;
      r := PutData(computed, keys);
    }

    method MergeField(column: Column<V>, keys: seq<nat>, up: Update<V>) returns (r: Result<Column<V>>)
      ensures r == MergeColumn(fieldData, column, keys, up)
    {
      if column.field !in up.plans { return Err(PlanMismatch); }
      var plan := up.plans[column.field];
      var present := HeldRows(plan.held);
      var held: seq<V> := [];
      if present != [] {
        if exists i :: 0 <= i < |present| && present[i] >= |keys| { return Err(PlanMismatch); }
        var got := GetData([column.field], At(keys, present));
        GetOne(fieldData, column.field, keys, present);
        if got.Err? { return Err(got.error); }
        held := got.value[column.field];
      }
      r := FinishColumn(column, plan, present, held, up.merge);
    }

    method SaveCheckpoint() returns (saved: Unit<V>)
      ensures saved == View()
    {
      saved := Unit(fieldData, activeKeys, storageSize);
    }

    /** The saved size is returned; the unit keeps its own. */
    method LoadCheckpoint(saved: Unit<V>) returns (size: Option<nat>)
      modifies this
      ensures size == saved.size && View() == saved.(size := storageSize)
    {
      fieldData, activeKeys := saved.fields, saved.active;
      size := saved.size;
    }
  }

  lemma {:induction false} GetFails<V>(fields: Fields<V>, names: seq<string>, keys: seq<nat>, i: nat)
    requires i < |names| && Get(fields, names[..i + 1], keys).Err?
    ensures Get(fields, names, keys) == Get(fields, names[..i + 1], keys)
    decreases |names|
  {
    var n := |names| - 1;
    if i < n {
      assert names[..n][..i + 1] == names[..i + 1];
      GetFails(fields, names[..n], keys, i);
    } else {
      assert names[..i + 1] == names;
    }
  }
}