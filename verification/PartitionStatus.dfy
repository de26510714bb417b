/**
 The status tensors of a partition (DataPartitionStatus in transfer_queue/controller.py): they grow by rows and columns, and
 the consumption vectors grow with them, so that they always say what Delivery.Status says.
 */
module PartitionStatus {
  import opened Prelude
  import opened Delivery

  function Zeros(n: nat): (zeros: seq<bool>)
    ensures |zeros| == n && forall i :: 0 <= i < n ==> !zeros[i]
  {
    seq(n, i => false)
  }

  function RowsFor(indexes: seq<nat>): nat {
    if indexes == [] then 0 else
      var before, last := RowsFor(indexes[..|indexes| - 1]), indexes[|indexes| - 1];
      if last >= before then last + 1 else before
  }

  lemma {:induction false} RowsForAll(indexes: seq<nat>)
    ensures forall i :: i in indexes ==> i < RowsFor(indexes)
    ensures RowsFor(indexes) > 0 ==> RowsFor(indexes) - 1 in indexes
  {
    if indexes != [] {
      RowsForAll(indexes[..|indexes| - 1]);
      assert forall i :: i in indexes <==> i in indexes[..|indexes| - 1] || i == indexes[|indexes| - 1];
    }
  }

  ghost function Ones(v: seq<bool>): set<nat> {
    set i | 0 <= i < |v| && v[i]
  }

  ghost predicate Rectangular(production: seq<seq<bool>>, width: nat) {
    forall i :: 0 <= i < |production| ==> |production[i]| == width
  }

  ghost predicate At(production: seq<seq<bool>>, i: nat, j: nat) {
    i < |production| && j < |production[i]| && production[i][j]
  }

  ghost function Produced(production: seq<seq<bool>>, columns: map<string, nat>): set<Cell> {
    set i: nat, f | i < |production| && f in columns && At(production, i, columns[f]) :: Cell(i, f)
  }

  /** Fields have columns of their own, the first ones. */
  ghost predicate ColumnsOk(columns: map<string, nat>) {
    && (forall f :: f in columns ==> columns[f] < |columns|)
    && (forall f, g :: f in columns && g in columns && columns[f] == columns[g] ==> f == g)
  }

  /** The tensor is a rectangle with a column for every field; the columns without a field are zero. */
  ghost predicate TensorOk(production: seq<seq<bool>>, width: nat, columns: map<string, nat>) {
    && Rectangular(production, width) && ColumnsOk(columns) && |columns| <= width
    && forall i: nat, j: nat :: At(production, i, j) ==> j < |columns|
  }

  // ---------------------------------------------------------------- growing

  function MoreRows(production: seq<seq<bool>>, width: nat, more: nat): seq<seq<bool>> {
    production + seq(more, i => Zeros(width))
  }

  function MoreColumns(production: seq<seq<bool>>, more: nat): seq<seq<bool>> {
    seq(|production|, i requires 0 <= i < |production| => production[i] + Zeros(more))
  }

  lemma MoreRowsOk(production: seq<seq<bool>>, width: nat, columns: map<string, nat>, more: nat)
    requires TensorOk(production, width, columns)
    ensures TensorOk(MoreRows(production, width, more), width, columns)
    ensures Produced(MoreRows(production, width, more), columns) == Produced(production, columns)
  {
    var now := MoreRows(production, width, more);
    forall i: nat, j: nat ensures At(now, i, j) <==> At(production, i, j) {
    }
  }

  lemma MoreColumnsOk(production: seq<seq<bool>>, width: nat, more: nat)
    requires Rectangular(production, width)
    ensures Rectangular(MoreColumns(production, more), width + more) && |MoreColumns(production, more)| == |production|
    ensures forall i: nat, j: nat :: At(MoreColumns(production, more), i, j) <==> At(production, i, j)
  {
    var now := MoreColumns(production, more);
    forall i | 0 <= i < |production| ensures now[i] == production[i] + Zeros(more) && |now[i]| == width + more {
      assert now[i] == production[i] + Zeros(more);
      assert |production[i]| == width;
    }
  }

  lemma MoreZeros(v: seq<bool>, more: nat)
    ensures |v + Zeros(more)| == |v| + more && Ones(v + Zeros(more)) == Ones(v)
  {
  }

  /** Each new field gets the next column. */
  function Registered(columns: map<string, nat>, fields: seq<string>): map<string, nat> {
    if fields == [] then columns else
      var before, last := Registered(columns, fields[..|fields| - 1]), fields[|fields| - 1];
      if last in before then before else before[last := |before|]
  }

  ghost predicate Extends(columns: map<string, nat>, now: map<string, nat>) {
    && ColumnsOk(now) && |columns| <= |now| && columns.Keys <= now.Keys
    && (forall f :: f in columns ==> f in now && now[f] == columns[f])
    && (forall f :: f in now && f !in columns ==> now[f] >= |columns|)
  }

  lemma ExtendOne(columns: map<string, nat>, before: map<string, nat>, f: string)
    requires Extends(columns, before) && f !in before
    ensures Extends(columns, before[f := |before|])
  {
    var now := before[f := |before|];
    assert |now| == |before| + 1;
  }

  lemma {:induction false} RegisteredOk(columns: map<string, nat>, fields: seq<string>)
    requires ColumnsOk(columns)
    ensures Extends(columns, Registered(columns, fields))
  {
    if fields != [] {
      var n := |fields| - 1;
      var before := Registered(columns, fields[..n]);
      assert Registered(columns, fields) == if fields[n] in before then before else before[fields[n] := |before|];
      hide *;
      RegisteredOk(columns, fields[..n]);
      if fields[n] !in before { ExtendOne(columns, before, fields[n]); }
    }
  }

  lemma {:induction false} RegisteredHas(columns: map<string, nat>, fields: seq<string>, f: string)
    ensures f in Registered(columns, fields) <==> f in columns || f in fields
  {
    if fields != [] {
      RegisteredHas(columns, fields[..|fields| - 1], f);
      assert fields == fields[..|fields| - 1] + [fields[|fields| - 1]];
    }
  }

  lemma RegisteredKeys(columns: map<string, nat>, fields: seq<string>)
    ensures Registered(columns, fields).Keys == columns.Keys + Names(fields)
  {
    forall f ensures f in Registered(columns, fields) <==> f in columns || f in fields { RegisteredHas(columns, fields, f); }
  }

  function Names(fields: seq<string>): set<string> {
    set f | f in fields
  }

  /** A new field's column is zero. */
  lemma RegisteredProduced(production: seq<seq<bool>>, columns: map<string, nat>, now: map<string, nat>, width: nat)
    requires TensorOk(production, width, columns) && Extends(columns, now)
    ensures Produced(production, now) == Produced(production, columns)
  {
  }

  lemma SameAt(production: seq<seq<bool>>, now: seq<seq<bool>>, columns: map<string, nat>)
    requires |now| == |production| && forall i: nat, j: nat :: At(now, i, j) <==> At(production, i, j)
    ensures Produced(now, columns) == Produced(production, columns)
  {
  }

  lemma WiderOk(production: seq<seq<bool>>, columns: map<string, nat>, now: map<string, nat>, width: nat, more: nat)
    requires TensorOk(production, width, columns) && Extends(columns, now) && |now| <= width + more
    ensures TensorOk(MoreColumns(production, more), width + more, now) && |MoreColumns(production, more)| == |production|
    ensures Produced(MoreColumns(production, more), now) == Produced(production, now)
    ensures more == 0 ==> TensorOk(production, width, now)
  {
    MoreColumnsOk(production, width, more);
    SameAt(production, MoreColumns(production, more), now);
  }

  lemma RegisterOk(production: seq<seq<bool>>, columns: map<string, nat>, fields: seq<string>, width: nat, more: nat)
    requires TensorOk(production, width, columns) && |Registered(columns, fields)| <= width + more
    ensures var now, wider := Registered(columns, fields), MoreColumns(production, more);
            && now.Keys == columns.Keys + Names(fields) && |wider| == |production|
            && TensorOk(wider, width + more, now) && Produced(wider, now) == Produced(production, columns)
            && (more == 0 ==> TensorOk(production, width, now) && Produced(production, now) == Produced(production, columns))
  {
    var now := Registered(columns, fields);
    RegisteredOk(columns, fields);
    RegisteredKeys(columns, fields);
    RegisteredProduced(production, columns, now, width);
    WiderOk(production, columns, now, width, more);
  }

  // ---------------------------------------------------------------- writing

  /** status[rows, columns] = value */
  function Write(production: seq<seq<bool>>, rows: seq<nat>, at: set<nat>, value: bool): seq<seq<bool>> {
    seq(|production|, i requires 0 <= i < |production| =>
      if i in rows then seq(|production[i]|, j requires 0 <= j < |production[i]| => if j in at then value else production[i][j]) else production[i])
  }

  lemma WriteAt(production: seq<seq<bool>>, rows: seq<nat>, at: set<nat>, value: bool, i: nat, j: nat)
    ensures At(Write(production, rows, at, value), i, j) <==>
              if i in rows && j in at && i < |production| && j < |production[i]| then value else At(production, i, j)
  {
  }

  lemma WriteProduced(production: seq<seq<bool>>, width: nat, columns: map<string, nat>, rows: seq<nat>, fields: seq<string>, value: bool)
    requires TensorOk(production, width, columns) && (forall i :: i in rows ==> i < |production|) && forall f :: f in fields ==> f in columns
    ensures var now := Write(production, rows, set f | f in fields :: columns[f], value);
            var cells := set i, f | i in rows && f in fields :: Cell(i, f);
            TensorOk(now, width, columns) && |now| == |production|
            && Produced(now, columns) == if value then Produced(production, columns) + cells else Produced(production, columns) - cells
  {
    var at := set f | f in fields :: columns[f];
    var now := Write(production, rows, at, value);
    forall i: nat, j: nat ensures At(now, i, j) <==> if i in rows && j in at then value && i < |production| && j < width else At(production, i, j) {
      WriteAt(production, rows, at, value, i, j);
    }
    forall f | f in columns ensures columns[f] in at <==> f in fields {
    }
  }

  function WriteOnes(v: seq<bool>, rows: seq<nat>): seq<bool> {
    seq(|v|, i requires 0 <= i < |v| => i in rows || v[i])
  }

  // ---------------------------------------------------------------- the object

  class PartitionStatus {
    var production: seq<seq<bool>>
    var width: nat
    var columns: map<string, nat>
    var consumption: map<string, seq<bool>>

    /** Every consumption vector has a place for every row. */
    ghost predicate Valid()
      reads this
    {
      TensorOk(production, width, columns) && forall t :: t in consumption ==> |consumption[t]| == |production|
    }

    ghost function View(): Status
      reads this
    {
      Status(|production|, columns.Keys, Produced(production, columns), AllOnes(consumption))
    }

    lemma InStep()
      requires Valid()
      ensures forall t :: t in consumption ==> |consumption[t]| == |production|
    {
    }

    constructor (rows: nat)
      ensures Valid() && View() == Status(rows, {}, {}, map[])
    {
      production, width, columns, consumption := seq(rows, i => Zeros(1)), 1, map[], map[];
    }

    method EnsureSamplesCapacity(required: nat)
      requires Valid()
      modifies this`production, this`consumption
      ensures Valid() && View() == old(View()).(rows := if required > old(|production|) then required else old(|production|))
    {
      if required > |production| {
        var more := required - |production|;
        MoreRowsOk(production, width, columns, more);
        hide *;
        production := MoreRows(production, width, more);
        assert |production| == required by { RowCount(old(production), width, more); }
        LengthenAll(more, required);
      }
    }

    method LengthenAll(more: nat, rows: nat)
      requires forall t :: t in consumption ==> |consumption[t]| + more == rows
      modifies this`consumption
      ensures (forall t :: t in consumption ==> |consumption[t]| == rows) && AllOnes(consumption) == old(AllOnes(consumption))
    {
      var todo := consumption.Keys;
      while todo != {}
        invariant todo <= consumption.Keys == old(consumption).Keys
        invariant forall t :: t in consumption ==> consumption[t] == if t in todo then old(consumption)[t] else old(consumption)[t] + Zeros(more)
        decreases |todo|
      {
        var t :| t in todo;
        consumption := consumption[t := consumption[t] + Zeros(more)];
        todo := todo - {t};
      }
      forall t | t in consumption ensures |consumption[t]| == rows && Ones(consumption[t]) == Ones(old(consumption)[t]) {
        MoreZeros(old(consumption)[t], more);
      }
    }

    /** Room for the rows, columns for the fields, then the cells. */
    method UpdateProductionStatus(indexes: seq<nat>, fields: seq<string>, ready: bool)
      requires Valid()
      modifies this
      ensures Valid() && View() == Notified(old(View()), RowsFor(indexes), (set i | i in indexes), Names(fields), ready)
    {
      EnsureSamplesCapacity(RowsFor(indexes));
      RowsForAll(indexes);
      hide *;
      ghost var grown := View();
      RegisterFields(fields);
      WriteCells(indexes, fields, ready);
      NotifiedIs(old(View()), grown, View(), indexes, fields, ready);
    }

    method RegisterFields(fields: seq<string>)
      requires Valid()
      modifies this`columns, this`production, this`width
      ensures Valid() && View() == old(View()).(fields := old(View()).fields + Names(fields))
    {
      var now := Registered(columns, fields);
      var more := if |now| > width then |now| - width else 0;
      RegisterOk(production, columns, fields, width, more);
      hide TensorOk, Produced, Registered, MoreColumns, AllOnes, Names;
      columns := now;
      if more > 0 {
        production := MoreColumns(production, more);
        width := width + more;
      }
    }

    method WriteCells(indexes: seq<nat>, fields: seq<string>, ready: bool)
      requires Valid() && (forall i :: i in indexes ==> i < |production|) && forall f :: f in fields ==> f in columns
      modifies this`production
      ensures Valid()
      ensures var cells := set i, f | i in indexes && f in fields :: Cell(i, f);
              View() == old(View()).(produced := if ready then old(View()).produced + cells else old(View()).produced - cells)
    {
      WriteProduced(production, width, columns, indexes, fields, ready);
      production := Write(production, indexes, set f | f in fields :: columns[f], ready);
    }

    /** The vector of a task, made on first use. */
    method GetConsumptionStatus(task: string) returns (v: seq<bool>)
      requires Valid()
      modifies this`consumption
      ensures Valid() && View() == Asked(old(View()), task)
      ensures |v| == |production| && Ones(v) == UsedBy(old(View()), task) && task in consumption && consumption[task] == v
    {
      if task !in consumption {
        consumption := consumption[task := Zeros(|production|)];
        assert Ones(Zeros(|production|)) == {};
      }
      v := consumption[task];
      assert AllOnes(consumption) == old(View()).used[task := UsedBy(old(View()), task)];
    }

    /** The rows that the consumer has not had and that are ready in every field. */
    method ScanDataStatus(fields: seq<string>, task: string) returns (r: seq<nat>)
      requires Valid()
      modifies this`consumption
      ensures Valid() && r == Scan(old(View()), fields, task)
      ensures View() == Scanned(old(View()), fields, task)
    {
      if exists f :: f in fields && f !in columns {
        assert !Known(View(), fields);
        return [];
      }
      assert Known(View(), fields);
      ghost var was := View();
      var consumed := GetConsumptionStatus(task);
      ColumnsFit(production, width, columns);
      r := ReadyRows(was, fields, task, consumed);
    }

    method ReadyRows(ghost s: Status, fields: seq<string>, task: string, consumed: seq<bool>) returns (r: seq<nat>)
      requires |consumed| == |production| && Ones(consumed) == UsedBy(s, task) && s.produced == Produced(production, columns)
      requires (forall f :: f in fields ==> f in columns)
      requires forall f, i :: f in columns && 0 <= i < |production| ==> columns[f] < |production[i]|
      ensures r == ReadyBelow(s, fields, task, |production|)
    {
      r := [];
      hide Produced, Ones, UsedBy, IsReady;
      for i := 0 to |production|
        invariant r == ReadyBelow(s, fields, task, i)
      {
        RowReady(s, fields, task, production, columns, consumed, i);
        if !consumed[i] && forall f :: f in fields ==> production[i][columns[f]] {
          r := r + [i];
        }
      }
    }

    /** An index without a row is an error that is swallowed. */
    method MarkConsumed(task: string, indexes: seq<nat>)
      requires Valid()
      modifies this`consumption
      ensures Valid() && View() == Marked(old(View()), task, indexes)
    {
      var v := GetConsumptionStatus(task);
      if forall i :: i in indexes ==> i < |v| {
        var marked := WriteOnes(v, indexes);
        assert Ones(marked) == Ones(v) + set i | i in indexes;
        UpdateOnes(consumption, task, marked);
        consumption := consumption[task := marked];
      }
    }

    /** Vectors are zeroed in place: they keep their length. */
    method ResetConsumption(which: Option<string>)
      requires Valid()
      modifies this`consumption
      ensures Valid() && View() == ResetStatus(old(View()), which)
    {
      if which.Some? {
        if which.value in consumption {
          consumption := consumption[which.value := Zeros(|consumption[which.value]|)];
        }
      } else {
        var todo := consumption.Keys;
        while todo != {}
          invariant todo <= consumption.Keys == old(consumption).Keys
          invariant forall t :: t in consumption ==> consumption[t] == if t in todo then old(consumption)[t] else Zeros(|old(consumption)[t]|)
          decreases |todo|
        {
          var t :| t in todo;
          consumption := consumption[t := Zeros(|consumption[t]|)];
          todo := todo - {t};
        }
      }
      ResetOnes(old(consumption), consumption, which);
    }
  }

  lemma ResetOnes(was: map<string, seq<bool>>, now: map<string, seq<bool>>, which: Option<string>)
    requires now.Keys == was.Keys && forall t :: t in was ==> now[t] == if Resets(which, t) then Zeros(|was[t]|) else was[t]
    ensures AllOnes(now) == map t | t in AllOnes(was) :: if Resets(which, t) then {} else AllOnes(was)[t]
  {
    forall t | t in was && Resets(which, t) ensures Ones(now[t]) == {} {
    }
  }

  ghost function AllOnes(consumption: map<string, seq<bool>>): map<string, set<nat>> {
    map t | t in consumption :: Ones(consumption[t])
  }

  lemma UpdateOnes(consumption: map<string, seq<bool>>, task: string, v: seq<bool>)
    ensures AllOnes(consumption[task := v]) == AllOnes(consumption)[task := Ones(v)]
  {
  }

  lemma RowCount(production: seq<seq<bool>>, width: nat, more: nat)
    ensures |MoreRows(production, width, more)| == |production| + more
  {
  }

  lemma NotifiedIs(was: Status, grown: Status, now: Status, indexes: seq<nat>, fields: seq<string>, ready: bool)
    requires grown == was.(rows := if RowsFor(indexes) > was.rows then RowsFor(indexes) else was.rows)
    requires var cells := set i, f | i in indexes && f in fields :: Cell(i, f);
             now == grown.(fields := grown.fields + Names(fields), produced := if ready then grown.produced + cells else grown.produced - cells)
    ensures now == Notified(was, RowsFor(indexes), (set i | i in indexes), Names(fields), ready)
  {
    var a, b := (set i | i in indexes), Names(fields);
    assert (set i, f | i in indexes && f in fields :: Cell(i, f)) == set i, f | i in a && f in b :: Cell(i, f);
  }

  lemma ColumnsFit(production: seq<seq<bool>>, width: nat, columns: map<string, nat>)
    requires TensorOk(production, width, columns)
    ensures forall f, i :: f in columns && 0 <= i < |production| ==> columns[f] < |production[i]|
  {
  }

  lemma RowReady(s: Status, fields: seq<string>, task: string, production: seq<seq<bool>>, columns: map<string, nat>, consumed: seq<bool>, i: nat)
    requires i < |production| == |consumed| && Ones(consumed) == UsedBy(s, task) && s.produced == Produced(production, columns)
    requires forall f :: f in fields ==> f in columns && columns[f] < |production[i]|
    ensures IsReady(s, fields, task, i) <==> !consumed[i] && forall f :: f in fields ==> production[i][columns[f]]
  {
    assert consumed[i] <==> i in Ones(consumed);
    forall f | f in fields ensures Cell(i, f) in s.produced <==> production[i][columns[f]] {
      assert At(production, i, columns[f]) <==> production[i][columns[f]];
    }
  }
}
