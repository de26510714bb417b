/**
 FieldMeta (transfer_queue/controller.py): the columnar metadata of one field of a partition. One shape for all samples
 while they agree, one per sample after they differ, and one again when a removal leaves a single shape.
 */
module FieldMeta {
  import opened Prelude

  type Shape = seq<nat>

  /** The record as a value; Python's None is None. */
  datatype Meta = Meta(
    indexes: set<nat>,
    dtype: Option<string>,
    shape: Option<Shape>,
    nested: Option<bool>,
    nonTensor: Option<bool>,
    perSample: map<nat, Shape>)

  /** One field of an incoming schema. */
  datatype Incoming = Incoming(dtype: Option<string>, shape: Option<Shape>, nested: bool, nonTensor: bool, perSample: Option<map<nat, Shape>>)

  datatype Error = DtypeMismatch | NoPerSampleShapes | NoShape | AssertionFails

  const Reset := Meta({}, None, None, None, None, map[])

  function Created(inc: Incoming, indexes: set<nat>): Meta {
    Meta(indexes, inc.dtype, inc.shape, Some(inc.nested), Some(inc.nonTensor), if inc.perSample.Some? then inc.perSample.value else map[])
  }

  function SetAll(shapes: map<nat, Shape>, indexes: set<nat>, shape: Shape): map<nat, Shape> {
    shapes + map g | g in indexes :: shape
  }

  /** update(): the record afterwards, and the error it raises. */
  function Updated(m: Meta, inc: Incoming, indexes: set<nat>): (Meta, Option<Error>) {
    if inc.dtype.Some? && m.dtype.Some? && inc.dtype != m.dtype then (m, Some(DtypeMismatch)) else
      var m1 := if inc.dtype.Some? then m.(dtype := inc.dtype) else m;
      if inc.nested then
        if inc.perSample.None? then (m1, Some(NoPerSampleShapes))
        else if m1.nested == Some(false) then
          if m1.shape.None? then (m1, Some(AssertionFails))
          else
            (m1.(perSample := SetAll(m1.perSample, m1.indexes, m1.shape.value) + inc.perSample.value,
                 nested := Some(true), shape := None, indexes := m1.indexes + indexes), None)
        else (m1.(perSample := m1.perSample + inc.perSample.value, indexes := m1.indexes + indexes), None)
      else if inc.nonTensor then (m1.(indexes := m1.indexes + indexes), None)
      else if inc.shape.None? then (m1, Some(NoShape))
      else if m1.nested == Some(true) then
        (m1.(perSample := SetAll(m1.perSample, indexes, inc.shape.value), indexes := m1.indexes + indexes), None)
      else if m1.nonTensor == Some(false) && m1.shape.None? then (m1, Some(AssertionFails))
      else if m1.nonTensor == Some(false) && m1.shape != inc.shape then
        (m1.(perSample := SetAll(SetAll(m1.perSample, m1.indexes, m1.shape.value), indexes, inc.shape.value),
             shape := None, nested := Some(true), indexes := m1.indexes + indexes), None)
      else (m1.(indexes := m1.indexes + indexes), None)
  }

  /** The only shape there is. */
  ghost predicate OnlyShape(shapes: map<nat, Shape>, shape: Shape) {
    shape in shapes.Values && forall other :: other in shapes.Values ==> other == shape
  }

  /** remove_samples() */
  ghost function Removed(m: Meta, gone: set<nat>): Meta {
    Collapsed(Dropped(m, gone))
  }

  function Dropped(m: Meta, gone: set<nat>): Meta {
    m.(perSample := m.perSample - gone, indexes := m.indexes - gone)
  }

  ghost function Collapsed(m: Meta): Meta {
    if m.indexes == {} then Reset
    else if m.nested == Some(true) && exists shape :: OnlyShape(m.perSample, shape) then
      var shape :| OnlyShape(m.perSample, shape);
      m.(nested := Some(false), shape := Some(shape), perSample := map[])
    else m
  }

  // ---------------------------------------------------------------- what can be read from it

  /** The shape that a reader of the schema finds for one sample. */
  function ShapeOf(m: Meta, g: nat): Option<Shape> {
    if m.nested == Some(true) then (if g in m.perSample then Some(m.perSample[g]) else None) else m.shape
  }

  /** The map that the record stands for. */
  ghost function Shapes(m: Meta): map<nat, Option<Shape>> {
    map g | g in m.indexes :: ShapeOf(m, g)
  }

  /** A record in use: not empty, and its fields say one thing. */
  ghost predicate Ok(m: Meta) {
    && m.indexes != {} && m.nested.Some? && m.nonTensor.Some?
    && (m.nonTensor.value ==> m.nested == Some(false) && m.shape.None? && m.perSample == map[])
    && (!m.nonTensor.value && m.nested.value ==> m.shape.None? && m.perSample.Keys == m.indexes)
    && (!m.nonTensor.value && !m.nested.value ==> m.shape.Some? && m.perSample == map[])
  }

  /** What the storage managers send: a shape per sample exactly for a nested field, one shape for a regular tensor. */
  ghost predicate WellFormed(inc: Incoming, indexes: set<nat>) {
    && (inc.nested ==> !inc.nonTensor && inc.shape.None? && inc.perSample.Some? && inc.perSample.value.Keys == indexes)
    && (!inc.nested ==> inc.perSample.None? && (inc.nonTensor <==> inc.shape.None?))
  }

  ghost predicate SameKind(m: Meta, inc: Incoming) {
    m.nonTensor == Some(inc.nonTensor) && (inc.dtype.Some? && m.dtype.Some? ==> inc.dtype == m.dtype)
  }

  /** The shape that the schema gives for one of its samples. */
  ghost function Given(inc: Incoming, g: nat): Option<Shape> {
    if inc.nested then (if inc.perSample.Some? && g in inc.perSample.value then Some(inc.perSample.value[g]) else None) else inc.shape
  }

  ghost function GivenAll(inc: Incoming, indexes: set<nat>): map<nat, Option<Shape>> {
    map g | g in indexes :: Given(inc, g)
  }

  lemma CreateReads(inc: Incoming, indexes: set<nat>)
    requires WellFormed(inc, indexes) && indexes != {}
    ensures Ok(Created(inc, indexes)) && Shapes(Created(inc, indexes)) == GivenAll(inc, indexes)
  {
  }

  /** An update of the same kind never fails, and then every sample reads the last shape given for it. */
  lemma UpdateReads(m: Meta, inc: Incoming, indexes: set<nat>)
    requires Ok(m) && WellFormed(inc, indexes) && SameKind(m, inc)
    ensures Updated(m, inc, indexes).1 == None && Ok(Updated(m, inc, indexes).0)
    ensures Shapes(Updated(m, inc, indexes).0) == Shapes(m) + GivenAll(inc, indexes)
  {
    var m2 := Updated(m, inc, indexes).0;
    assert m2.indexes == m.indexes + indexes;
    forall g | g in m2.indexes ensures ShapeOf(m2, g) == if g in indexes then Given(inc, g) else ShapeOf(m, g) {
    }
  }

  /** Every way an update fails, and what a record that it does not fail on then says besides the shapes. */
  lemma UpdateDecides(m: Meta, inc: Incoming, indexes: set<nat>)
    ensures var (m2, error) := Updated(m, inc, indexes);
            var agrees := inc.dtype.Some? && m.dtype.Some? ==> inc.dtype == m.dtype;
            && (error == Some(DtypeMismatch) <==> !agrees)
            && (error == Some(NoPerSampleShapes) <==> agrees && inc.nested && inc.perSample.None?)
            && (error == Some(NoShape) <==> agrees && !inc.nested && !inc.nonTensor && inc.shape.None?)
            && (error == Some(AssertionFails) <==> agrees && m.shape.None? && LooksForShape(m, inc))
    ensures var (m2, error) := Updated(m, inc, indexes);
            && (error.Some? ==> m2 == m || (m.dtype.None? && m2 == m.(dtype := inc.dtype)))
            && (error.None? ==> m2.indexes == m.indexes + indexes && m2.nonTensor == m.nonTensor
                                && m2.dtype == if inc.dtype.Some? then inc.dtype else m.dtype)
  {
  }

  /** The update is of a kind that spreads or compares the one shape of a regular field. */
  ghost predicate LooksForShape(m: Meta, inc: Incoming) {
    || (inc.nested && inc.perSample.Some? && m.nested == Some(false))
    || (!inc.nested && !inc.nonTensor && inc.shape.Some? && m.nested != Some(true) && m.nonTensor == Some(false))
  }

  /** A removal takes away the samples and no other shape; an emptied record is reset. */
  lemma RemoveReads(m: Meta, gone: set<nat>)
    requires Ok(m)
    ensures Shapes(Removed(m, gone)) == Shapes(m) - gone
    ensures if m.indexes - gone == {} then Removed(m, gone) == Reset else Ok(Removed(m, gone))
  {
    var m2 := Removed(m, gone);
    var left := m.perSample - gone;
    if m.indexes - gone != {} && m.nested == Some(true) && exists shape :: OnlyShape(left, shape) {
      forall g | g in m2.indexes ensures ShapeOf(m2, g) == ShapeOf(m, g) {
        assert left[g] in left.Values;
      }
    }
  }

  /** Shapes are kept per sample only once two samples of the field differ, or nested ones have been sent. */
  lemma UpdateNests(m: Meta, inc: Incoming, indexes: set<nat>)
    requires Ok(m) && m.nonTensor == Some(false) && WellFormed(inc, indexes) && SameKind(m, inc)
    ensures Updated(m, inc, indexes).0.nested == Some(true) <==> m.nested == Some(true) || inc.nested || inc.shape != m.shape
  {
  }

  /** And only as long as two of the samples left differ. */
  lemma RemoveCollapses(m: Meta, gone: set<nat>)
    requires Ok(m) && m.indexes - gone != {}
    ensures Removed(m, gone).nested == Some(true) <==>
              exists g, h :: g in m.indexes - gone && h in m.indexes - gone && ShapeOf(m, g) != ShapeOf(m, h)
  {
    if m.nested == Some(true) {
      var left := m.perSample - gone;
      assert left.Keys == m.indexes - gone;
      if shape :| OnlyShape(left, shape) {
        forall g | g in m.indexes - gone ensures ShapeOf(m, g) == Some(shape) { assert left[g] in left.Values; }
      }
      if forall g, h :: g in m.indexes - gone && h in m.indexes - gone ==> ShapeOf(m, g) == ShapeOf(m, h) {
        var g :| g in m.indexes - gone;
        forall other | other in left.Values ensures other == left[g] {
          var h :| h in left && left[h] == other;
          assert ShapeOf(m, h) == ShapeOf(m, g);
        }
        assert OnlyShape(left, left[g]);
      }
    }
  }

  /** A field of non-tensors that is sent a tensor shape never returns it. */
  lemma KindChangeLosesTheShape(m: Meta, inc: Incoming, indexes: set<nat>, g: nat)
    requires Ok(m) && m.nonTensor == Some(true) && WellFormed(inc, indexes) && !inc.nonTensor && !inc.nested && g in indexes
    requires inc.dtype.Some? && m.dtype.Some? ==> inc.dtype == m.dtype
    ensures Updated(m, inc, indexes).1 == None && ShapeOf(Updated(m, inc, indexes).0, g) == None && Given(inc, g).Some?
  {
  }

  /** A reset record that is used again loses the shape: it has to be dropped instead. */
  lemma ResetLosesTheShape(inc: Incoming, indexes: set<nat>, g: nat)
    requires WellFormed(inc, indexes) && !inc.nonTensor && g in indexes
    ensures Updated(Reset, inc, indexes).1 == None && ShapeOf(Updated(Reset, inc, indexes).0, g) == None && Given(inc, g).Some?
  {
  }

  // ---------------------------------------------------------------- the object

  class FieldMetadata {
    var globalIndexes: set<nat>
    var dtype: Option<string>
    var shape: Option<Shape>
    var isNested: Option<bool>
    var isNonTensor: Option<bool>
    var perSampleShapes: map<nat, Shape>

    function View(): Meta
      reads this
    {
      Meta(globalIndexes, dtype, shape, isNested, isNonTensor, perSampleShapes)
    }

    constructor (inc: Incoming, indexes: set<nat>)
      ensures View() == Created(inc, indexes)
    {
      globalIndexes, dtype, shape := indexes, inc.dtype, inc.shape;
      isNested, isNonTensor := Some(inc.nested), Some(inc.nonTensor);
      perSampleShapes := if inc.perSample.Some? then inc.perSample.value else map[];
    }

    method SetShapes(indexes: set<nat>, newShape: Shape)
      modifies this`perSampleShapes
      ensures perSampleShapes == SetAll(old(perSampleShapes), indexes, newShape)
    {
      hide SetAll;
      var todo := indexes;
      SetNone(perSampleShapes, indexes, newShape);
      while todo != {}
        invariant todo <= indexes && perSampleShapes == SetAll(old(perSampleShapes), indexes - todo, newShape)
        decreases |todo|
      {
        var g :| g in todo;
        SetOneMore(old(perSampleShapes), indexes, todo, g, newShape);
        perSampleShapes := perSampleShapes[g := newShape];
        todo := todo - {g};
      }
      assert indexes - todo == indexes;
    }

    static lemma SetNone(shapes: map<nat, Shape>, indexes: set<nat>, newShape: Shape)
      ensures SetAll(shapes, indexes - indexes, newShape) == shapes
    {
    }

    static lemma SetOneMore(shapes: map<nat, Shape>, indexes: set<nat>, todo: set<nat>, g: nat, newShape: Shape)
      requires g in todo && todo <= indexes
      ensures SetAll(shapes, indexes - todo, newShape)[g := newShape] == SetAll(shapes, indexes - (todo - {g}), newShape)
    {
      var less, more := SetAll(shapes, indexes - todo, newShape), SetAll(shapes, indexes - (todo - {g}), newShape);
      assert forall h :: h in less[g := newShape] <==> h in more;
    }

    method Update(inc: Incoming, indexes: set<nat>) returns (error: Option<Error>)
      modifies this
      ensures (View(), error) == Updated(old(View()), inc, indexes)
    {
      if inc.dtype.Some? {
        if dtype.None? {
          dtype := inc.dtype;
        } else if dtype != inc.dtype {
          return Some(DtypeMismatch);
        }
      }
      if inc.nested {
        if inc.perSample.None? { return Some(NoPerSampleShapes); }
        if isNested == Some(false) {
          if shape.None? { return Some(AssertionFails); }
          SetShapes(globalIndexes, shape.value);
          isNested := Some(true);
          shape := None;
        }
        perSampleShapes := perSampleShapes + inc.perSample.value;
      } else if !inc.nonTensor {
        if inc.shape.None? { return Some(NoShape); }
        if isNested == Some(true) {
          SetShapes(indexes, inc.shape.value);
        } else if isNonTensor == Some(false) {
          if shape.None? { return Some(AssertionFails); }
          if shape != inc.shape {
            SetShapes(globalIndexes, shape.value);
            SetShapes(indexes, inc.shape.value);
            shape := None;
            isNested := Some(true);
          }
        }
      }
      globalIndexes := globalIndexes + indexes;
      error := None;
    }

    method RemoveSamples(indexes: seq<nat>)
      modifies this
      ensures View() == Removed(old(View()), set g | g in indexes)
    {
      DropSamples(indexes);
      if globalIndexes == {} {
        isNested, isNonTensor, shape, dtype, perSampleShapes := None, None, None, None, map[];
      } else if isNested == Some(true) {
        var remaining := perSampleShapes.Values;
        OneValue(perSampleShapes);
        if |remaining| == 1 {
          var only :| only in remaining;
          OnlyCollapse(View(), only);
          isNested, shape, perSampleShapes := Some(false), Some(only), map[];
        }
      }
    }

    method DropSamples(indexes: seq<nat>)
      modifies this`perSampleShapes, this`globalIndexes
      ensures View() == Dropped(old(View()), set g | g in indexes)
    {
      for i := 0 to |indexes|
        invariant View() == Dropped(old(View()), SomeOf(indexes, i))
      {
        assert SomeOf(indexes, i + 1) == SomeOf(indexes, i) + {indexes[i]};
        perSampleShapes := perSampleShapes - {indexes[i]};
        globalIndexes := globalIndexes - {indexes[i]};
      }
      assert SomeOf(indexes, |indexes|) == set g | g in indexes;
    }
  }

  ghost function SomeOf(s: seq<nat>, i: nat): set<nat>
    requires i <= |s|
  {
    set g | g in s[..i]
  }

  lemma OneValue(shapes: map<nat, Shape>)
    ensures |shapes.Values| == 1 <==> exists shape :: OnlyShape(shapes, shape)
  {
    var values := shapes.Values;
    if |values| == 1 {
      var v :| v in values;
      var others := values - {v};
      assert |others| == 0 && others == {};
      forall other | other in values ensures other == v {
        assert other !in others;
      }
      assert OnlyShape(shapes, v);
    }
    if shape :| OnlyShape(shapes, shape) {
      assert values == {shape};
    }
  }

  lemma OnlyCollapse(m: Meta, only: Shape)
    requires |m.perSample.Values| == 1 && only in m.perSample.Values && m.indexes != {} && m.nested == Some(true)
    ensures Collapsed(m) == m.(nested := Some(false), shape := Some(only), perSample := map[])
  {
    OneValue(m.perSample);
  }
}
