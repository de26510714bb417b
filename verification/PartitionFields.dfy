/**
 The field metadata of a partition (DataPartitionStatus in transfer_queue/controller.py) over whole runs of notifications
 and clears: it stands for one map from field and sample to the last shape written there.
 */
module PartitionFields {
  import opened Prelude
  import opened FieldMeta

  /** The records of the fields, and the samples of the partition. */
  datatype Partition = Partition(fields: map<string, Meta>, active: set<nat>)

  datatype Cell = Cell(field: string, index: nat)

  type Table = map<Cell, Option<Shape>>

  datatype Op =
    | Notify(indexes: set<nat>, schema: map<string, Incoming>)
    | ClearData(gone: set<nat>)
    | ClearFields(gone: set<nat>, names: seq<string>)

  const Fresh := Partition(map[], {})

  /** The check that update_production_status makes before it changes anything. */
  ghost predicate DtypeConflict(p: Partition, schema: map<string, Incoming>) {
    exists f :: f in schema && f in p.fields && schema[f].dtype.Some? && p.fields[f].dtype.Some? && schema[f].dtype != p.fields[f].dtype
  }

  function Entry(p: Partition, f: string, inc: Incoming, indexes: set<nat>): Meta {
    if f in p.fields then Updated(p.fields[f], inc, indexes).0 else Created(inc, indexes)
  }

  ghost function Notified(p: Partition, indexes: set<nat>, schema: map<string, Incoming>): Partition {
    if DtypeConflict(p, schema) || indexes == {} then p
    else Partition(p.fields + map f | f in schema :: Entry(p, f, schema[f], indexes), p.active + indexes)
  }

  ghost function Cleared(p: Partition, gone: set<nat>): Partition {
    Partition(if p.active - gone == {} then map[] else WithoutSamples(p.fields, gone, None), p.active - gone)
  }

  ghost function FieldsCleared(p: Partition, gone: set<nat>, names: seq<string>): Partition {
    p.(fields := WithoutSamples(p.fields, gone, Some(names)))
  }

  /** remove_samples on every field, or on the named ones; records that it empties are dropped. */
  ghost function WithoutSamples(fields: map<string, Meta>, gone: set<nat>, only: Option<seq<string>>): map<string, Meta> {
    map f | f in fields && (Named(only, f) ==> fields[f].indexes - gone != {}) :: if Named(only, f) then Removed(fields[f], gone) else fields[f]
  }

  predicate Named(only: Option<seq<string>>, f: string) {
    only.None? || f in only.value
  }

  ghost function Apply(p: Partition, op: Op): Partition {
    match op
    case Notify(indexes, schema) => Notified(p, indexes, schema)
    case ClearData(gone) => Cleared(p, gone)
    case ClearFields(gone, names) => FieldsCleared(p, gone, names)
  }

  /** Notifications are well-formed and keep the kind and dtype of a field that exists. */
  ghost predicate OpOk(p: Partition, op: Op) {
    op.Notify? ==> forall f :: f in op.schema ==> WellFormed(op.schema[f], op.indexes) && (f in p.fields ==> SameKind(p.fields[f], op.schema[f]))
  }

  /** No empty record is kept, and records only speak of samples of the partition. */
  ghost predicate Inv(p: Partition) {
    forall f :: f in p.fields ==> FieldOk(p, f)
  }

  ghost predicate FieldOk(p: Partition, f: string)
    requires f in p.fields
  {
    Ok(p.fields[f]) && p.fields[f].indexes <= p.active
  }

  // ---------------------------------------------------------------- the map it stands for

  ghost function Shown(p: Partition): Table {
    map f, g | f in p.fields && g in p.fields[f].indexes :: Cell(f, g) := ShapeOf(p.fields[f], g)
  }

  ghost function Written(indexes: set<nat>, schema: map<string, Incoming>): Table {
    map f, g | f in schema && g in indexes :: Cell(f, g) := Given(schema[f], g)
  }

  /** The same operation on the map. */
  ghost function ApplyTable(t: Table, op: Op): Table {
    match op
    case Notify(indexes, schema) => t + Written(indexes, schema)
    case ClearData(gone) => map c | c in t && c.index !in gone :: t[c]
    case ClearFields(gone, names) => map c | c in t && !(c.field in names && c.index in gone) :: t[c]
  }

  lemma NoConflict(p: Partition, op: Op)
    requires op.Notify? && OpOk(p, op)
    ensures !DtypeConflict(p, op.schema)
  {
  }

  lemma NotifyField(p: Partition, op: Op, f: string)
    requires Inv(p) && op.Notify? && OpOk(p, op) && op.indexes != {} && f in Apply(p, op).fields
    ensures FieldOk(Apply(p, op), f)
    ensures forall g :: (g in Apply(p, op).fields[f].indexes <==> (f in op.schema && g in op.indexes) || (f in p.fields && g in p.fields[f].indexes))
    ensures forall g :: g in Apply(p, op).fields[f].indexes ==>
              ShapeOf(Apply(p, op).fields[f], g) == if f in op.schema && g in op.indexes then Given(op.schema[f], g) else ShapeOf(p.fields[f], g)
  {
    NoConflict(p, op);
    if f in p.fields { assert FieldOk(p, f); }
    if f in op.schema {
      var inc, m2 := op.schema[f], Apply(p, op).fields[f];
      if f in p.fields {
        UpdateReads(p.fields[f], inc, op.indexes);
        assert m2 == Updated(p.fields[f], inc, op.indexes).0;
        SameReads(m2, Shapes(p.fields[f]) + GivenAll(inc, op.indexes));
      } else {
        CreateReads(inc, op.indexes);
        SameReads(m2, GivenAll(inc, op.indexes));
      }
    }
  }

  lemma SameReads(m: Meta, shapes: map<nat, Option<Shape>>)
    requires Shapes(m) == shapes
    ensures forall g :: g in m.indexes <==> g in shapes
    ensures forall g :: g in m.indexes ==> ShapeOf(m, g) == shapes[g]
  {
    assert forall g :: g in m.indexes <==> g in Shapes(m);
  }

  lemma NotifyRefines(p: Partition, op: Op)
    requires Inv(p) && op.Notify? && OpOk(p, op)
    ensures Inv(Apply(p, op)) && Shown(Apply(p, op)) == ApplyTable(Shown(p), op)
  {
    hide *;
    if op.indexes != {} {
      NotifyKeepsInv(p, op);
      var now, t := Shown(Apply(p, op)), ApplyTable(Shown(p), op);
      forall c
        ensures c in now <==> c in t
        ensures c in t ==> now[c] == t[c]
      {
        NotifyShows(p, op, c);
      }
      assert now == t;
    } else {
      NotifyNothing(p, op);
    }
  }

  lemma NotifyKeepsInv(p: Partition, op: Op)
    requires Inv(p) && op.Notify? && OpOk(p, op) && op.indexes != {}
    ensures Inv(Apply(p, op))
  {
    hide Apply, OpOk, FieldOk;
    forall f | f in Apply(p, op).fields ensures FieldOk(Apply(p, op), f) { NotifyField(p, op, f); }
  }

  lemma NotifyNothing(p: Partition, op: Op)
    requires op.Notify? && op.indexes == {}
    ensures Apply(p, op) == p && ApplyTable(Shown(p), op) == Shown(p)
  {
    assert Written(op.indexes, op.schema) == map[];
  }

  lemma NotifyShows(p: Partition, op: Op, c: Cell)
    requires Inv(p) && op.Notify? && OpOk(p, op) && op.indexes != {}
    ensures c in Shown(Apply(p, op)) <==> c in ApplyTable(Shown(p), op)
    ensures c in Shown(Apply(p, op)) ==> Shown(Apply(p, op))[c] == ApplyTable(Shown(p), op)[c]
  {
    NoConflict(p, op);
    if c.field in Apply(p, op).fields { NotifyField(p, op, c.field); }
  }

  /** What remove_samples leaves of one field, when it leaves something. */
  lemma RemovedField(m: Meta, gone: set<nat>)
    requires Ok(m) && m.indexes - gone != {}
    ensures Ok(Removed(m, gone)) && Removed(m, gone).indexes == m.indexes - gone
    ensures forall g :: g in Removed(m, gone).indexes ==> ShapeOf(Removed(m, gone), g) == ShapeOf(m, g)
  {
    RemoveReads(m, gone);
    SameReads(Removed(m, gone), Shapes(m) - gone);
    assert Shapes(m).Keys == m.indexes;
  }

  lemma WithoutInv(p: Partition, gone: set<nat>, only: Option<seq<string>>, active: set<nat>)
    requires Inv(p) && forall f :: f in p.fields && Named(only, f) ==> p.fields[f].indexes - gone <= active
    requires forall f :: f in p.fields && !Named(only, f) ==> p.fields[f].indexes <= active
    ensures Inv(Partition(WithoutSamples(p.fields, gone, only), active))
  {
    var p2 := Partition(WithoutSamples(p.fields, gone, only), active);
    forall f | f in p2.fields ensures FieldOk(p2, f) {
      assert FieldOk(p, f);
      if Named(only, f) { RemovedField(p.fields[f], gone); }
    }
  }

  lemma WithoutShows(p: Partition, gone: set<nat>, only: Option<seq<string>>, c: Cell)
    requires Inv(p)
    ensures var p2 := p.(fields := WithoutSamples(p.fields, gone, only));
            && (c in Shown(p2) <==> c in Shown(p) && !(Named(only, c.field) && c.index in gone))
            && (c in Shown(p2) ==> Shown(p2)[c] == Shown(p)[c])
  {
    if c.field in p.fields {
      assert FieldOk(p, c.field);
      if Named(only, c.field) && p.fields[c.field].indexes - gone != {} {
        RemovedField(p.fields[c.field], gone);
      } else {
        assert c.index in p.fields[c.field].indexes && c.index !in gone ==> c.index in p.fields[c.field].indexes - gone;
      }
    }
  }

  lemma ClearDataShows(p: Partition, gone: set<nat>, c: Cell)
    requires Inv(p)
    ensures c in Shown(Cleared(p, gone)) <==> c in Shown(p) && c.index !in gone
    ensures c in Shown(Cleared(p, gone)) ==> Shown(Cleared(p, gone))[c] == Shown(p)[c]
  {
    if p.active - gone == {} {
      if c in Shown(p) {
        assert FieldOk(p, c.field);
        assert c.index in p.active && c.index !in p.active - gone;
      }
    } else {
      WithoutShows(p, gone, None, c);
    }
  }

  lemma ClearedInv(p: Partition, gone: set<nat>)
    requires Inv(p)
    ensures Inv(Cleared(p, gone))
  {
    if p.active - gone != {} {
      forall f | f in p.fields ensures p.fields[f].indexes <= p.active { assert FieldOk(p, f); }
      WithoutInv(p, gone, None, p.active - gone);
    }
  }

  lemma ClearDataRefines(p: Partition, gone: set<nat>)
    requires Inv(p)
    ensures Inv(Apply(p, ClearData(gone))) && Shown(Apply(p, ClearData(gone))) == ApplyTable(Shown(p), ClearData(gone))
  {
    ClearedInv(p, gone);
    hide Cleared, Shown, Inv;
    forall c ensures (c in Shown(Cleared(p, gone)) <==> c in Shown(p) && c.index !in gone)
                  && (c in Shown(Cleared(p, gone)) ==> Shown(Cleared(p, gone))[c] == Shown(p)[c]) {
      ClearDataShows(p, gone, c);
    }
  }

  lemma ClearFieldsRefines(p: Partition, gone: set<nat>, names: seq<string>)
    requires Inv(p)
    ensures Inv(Apply(p, ClearFields(gone, names)))
    ensures Shown(Apply(p, ClearFields(gone, names))) == ApplyTable(Shown(p), ClearFields(gone, names))
  {
    FieldsClearedInv(p, gone, names);
    var p2 := FieldsCleared(p, gone, names);
    hide FieldsCleared, Shown, Inv;
    forall c ensures (c in Shown(p2) <==> c in Shown(p) && !(c.field in names && c.index in gone)) && (c in Shown(p2) ==> Shown(p2)[c] == Shown(p)[c]) {
      FieldsClearedShow(p, gone, names, c);
    }
  }

  lemma FieldsClearedShow(p: Partition, gone: set<nat>, names: seq<string>, c: Cell)
    requires Inv(p)
    ensures var p2 := FieldsCleared(p, gone, names);
            && (c in Shown(p2) <==> c in Shown(p) && !(c.field in names && c.index in gone))
            && (c in Shown(p2) ==> Shown(p2)[c] == Shown(p)[c])
  {
    WithoutShows(p, gone, Some(names), c);
  }

  lemma FieldsClearedInv(p: Partition, gone: set<nat>, names: seq<string>)
    requires Inv(p)
    ensures Inv(FieldsCleared(p, gone, names))
  {
    forall f | f in p.fields ensures p.fields[f].indexes <= p.active { assert FieldOk(p, f); }
    WithoutInv(p, gone, Some(names), p.active);
  }

  lemma StepRefines(p: Partition, op: Op)
    requires Inv(p) && OpOk(p, op)
    ensures Inv(Apply(p, op)) && Shown(Apply(p, op)) == ApplyTable(Shown(p), op)
  {
    match op
    case Notify(indexes, schema) => NotifyRefines(p, op);
    case ClearData(gone) => ClearDataRefines(p, gone);
    case ClearFields(gone, names) => ClearFieldsRefines(p, gone, names);
  }

  ghost predicate Run(p: Partition, ops: seq<Op>, p2: Partition)
    decreases |ops|
  {
    if ops == [] then p2 == p else OpOk(p, ops[0]) && Run(Apply(p, ops[0]), ops[1..], p2)
  }

  ghost function RunTable(t: Table, ops: seq<Op>): Table
    decreases |ops|
  {
    if ops == [] then t else RunTable(ApplyTable(t, ops[0]), ops[1..])
  }

  /** After any run, reading any field of any sample gives the last shape written and not cleared since. */
  lemma {:induction false} RunRefines(p: Partition, ops: seq<Op>, p2: Partition)
    requires Inv(p) && Run(p, ops, p2)
    ensures Inv(p2) && Shown(p2) == RunTable(Shown(p), ops)
    decreases |ops|
  {
    if ops != [] {
      StepRefines(p, ops[0]);
      hide Apply, ApplyTable, OpOk, Shown;
      RunRefines(Apply(p, ops[0]), ops[1..], p2);
    }
  }
}
