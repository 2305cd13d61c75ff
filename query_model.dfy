/** The query model of Gribble: the `Select` record that the expression
    front end fills in, the `SetOperation` that nests one `Select` in another,
    and the `Has*` predicates the statement writer consults. */
module QueryModel {
  import opened Wrappers

  /** Select.TopValueType: whether `Top` counts rows or is a percentage. */
  datatype TopValueType = Count | Percent

  /** SetOperation.OperationType: a closed set of exactly two tags. */
  datatype OperationType = Intersect | Compliment

  /** Data.DataType: whether a source or target is a table or a query. */
  datatype DataType = Table | Query

  /** Data, Projection, SelectProjection, OrderByProjection and Operator are
      only referenced by the query model; they are kept minimal here. */
  datatype Data = Data(kind: DataType)
  datatype Projection = Projection(name: string)
  datatype SelectProjection = SelectProjection(projection: Projection, alias: string)
  datatype OrderByProjection = OrderByProjection(projection: Projection, descending: bool)
  datatype Operator = Operator(text: string)

  /** A C# IList field, which may be null. */
  datatype NullableList<T> = Null | List(items: seq<T>)

  /** The fields of Select.cs. Every C# list that may be null is a
      NullableList and the nullable Where is an Option; `setOperations` keeps the source's field name
      (spelled SetOperatons there). */
  datatype Select = Select(
    top: int,
    topType: TopValueType,
    start: int,
    first: bool,
    firstOrDefault: bool,
    count: bool,
    randomize: bool,
    projection: NullableList<SelectProjection>,
    source: Data,
    target: Data,
    where: Option<Operator>,
    distinct: NullableList<Projection>,
    orderBy: NullableList<OrderByProjection>,
    setOperations: NullableList<SetOperation>)

  /** A set operation: its tag and the nested query it combines with,
      which may be null in C# and is therefore an Option. */
  datatype SetOperation = SetOperation(kind: OperationType, select: Option<Select>)

  /** `new Select()`: numeric fields 0, enums at their first member, flags
      false, lists and Where null, Source a table and Target a query. */
  function DefaultSelect(): (s: Select)
    ensures s.source.kind == Table && s.target.kind == Query
    ensures !HasConditions(s)
  {
    Select(0, Count, 0, false, false, false, false, Null,
           Data(Table), Data(Query), None, Null, Null, Null)
  }

  /** `new SetOperation()`: the first tag and no nested query. */
  function DefaultSetOperation(): SetOperation
  {
    SetOperation(Intersect, None)
  }

  // ---------------------------------------------------------------------
  // The Has* getters of Select.cs

  predicate HasTop(s: Select)
  {
    s.top > 0
  }

  predicate HasStart(s: Select)
  {
    s.start > 0
  }

  /** `list != null && list.Any()`. */
  predicate Populated<T>(list: NullableList<T>)
  {
    list.List? && list.items != []
  }

  predicate HasProjection(s: Select)
  {
    Populated(s.projection)
  }

  predicate HasWhere(s: Select)
  {
    s.where.Some?
  }

  predicate HasDistinct(s: Select)
  {
    Populated(s.distinct)
  }

  predicate HasOrderBy(s: Select)
  {
    Populated(s.orderBy)
  }

  predicate HasSetOperations(s: Select)
  {
    Populated(s.setOperations)
  }

  /** `ops.Any(x => x.Type == kind)`, walked as LINQ walks it. */
  function AnyOfKind(ops: seq<SetOperation>, kind: OperationType): (r: bool)
  {
    if ops == [] then false
    else ops[0].kind == kind || AnyOfKind(ops[1..], kind)
  }

  predicate HasIntersections(s: Select)
  {
    s.setOperations.List? && AnyOfKind(s.setOperations.items, Intersect)
  }

  predicate HasCompliments(s: Select)
  {
    s.setOperations.List? && AnyOfKind(s.setOperations.items, Compliment)
  }

  predicate HasConditions(s: Select)
  {
    HasTop(s) || HasStart(s) || s.first || s.firstOrDefault || s.count || s.randomize ||
    HasProjection(s) || HasWhere(s) || HasDistinct(s) || HasOrderBy(s) || HasSetOperations(s)
  }

  // ---------------------------------------------------------------------
  // The eleven feature groups HasConditions combines, stated on the raw
  // fields, independently of the Has* getters.

  datatype Feature =
    | TopFeature | StartFeature | FirstFeature | FirstOrDefaultFeature | CountFeature
    | RandomizeFeature | ProjectionFeature | WhereFeature | DistinctFeature
    | OrderByFeature | SetOperationsFeature

  predicate Present(s: Select, f: Feature)
  {
    match f
    case TopFeature => s.top >= 1
    case StartFeature => s.start >= 1
    case FirstFeature => s.first
    case FirstOrDefaultFeature => s.firstOrDefault
    case CountFeature => s.count
    case RandomizeFeature => s.randomize
    case ProjectionFeature => s.projection.List? && |s.projection.items| >= 1
    case WhereFeature => s.where != None
    case DistinctFeature => s.distinct.List? && |s.distinct.items| >= 1
    case OrderByFeature => s.orderBy.List? && |s.orderBy.items| >= 1
    case SetOperationsFeature => s.setOperations.List? && |s.setOperations.items| >= 1
  }

  /** The getter that reports each feature group. */
  predicate Reported(s: Select, f: Feature)
  {
    match f
    case TopFeature => HasTop(s)
    case StartFeature => HasStart(s)
    case FirstFeature => s.first
    case FirstOrDefaultFeature => s.firstOrDefault
    case CountFeature => s.count
    case RandomizeFeature => s.randomize
    case ProjectionFeature => HasProjection(s)
    case WhereFeature => HasWhere(s)
    case DistinctFeature => HasDistinct(s)
    case OrderByFeature => HasOrderBy(s)
    case SetOperationsFeature => HasSetOperations(s)
  }

  /** Each getter holds exactly when its feature group is present: Top and
      Start only when positive (zero and negative mean absent), each list
      only when non-null and non-empty, Where only when non-null. */
  lemma GettersReportFeatures(s: Select, f: Feature)
    ensures Reported(s, f) <==> Present(s, f)
  {
  }

  /** HasConditions is exactly "some feature group is present". */
  lemma HasConditionsIffSomeFeature(s: Select)
    ensures HasConditions(s) <==> exists f :: Present(s, f)
  {
    if HasConditions(s) {
      var f :=
        if HasTop(s) then TopFeature
        else if HasStart(s) then StartFeature
        else if s.first then FirstFeature
        else if s.firstOrDefault then FirstOrDefaultFeature
        else if s.count then CountFeature
        else if s.randomize then RandomizeFeature
        else if HasProjection(s) then ProjectionFeature
        else if HasWhere(s) then WhereFeature
        else if HasDistinct(s) then DistinctFeature
        else if HasOrderBy(s) then OrderByFeature
        else SetOperationsFeature;
      assert Reported(s, f);
      GettersReportFeatures(s, f);
    } else {
      forall f ensures !Present(s, f) {
        GettersReportFeatures(s, f);
      }
    }
  }

  /** A Select without conditions has every getter and every flag false. */
  lemma NoConditionsMeansPlainSelect(s: Select)
    requires !HasConditions(s)
    ensures !HasTop(s) && !HasStart(s) && !s.first && !s.firstOrDefault && !s.count && !s.randomize
    ensures !HasProjection(s) && !HasWhere(s) && !HasDistinct(s) && !HasOrderBy(s)
    ensures !HasSetOperations(s) && !HasIntersections(s) && !HasCompliments(s)
    ensures s.top <= 0 && s.start <= 0
  {
    if HasIntersections(s) || HasCompliments(s) {
      SetOperationsPartition(s);
    }
  }

  // ---------------------------------------------------------------------
  // Set operations

  /** Any(x => x.Type == kind) holds exactly when some element carries the tag. */
  lemma {:induction false} AnyOfKindExists(ops: seq<SetOperation>, kind: OperationType)
    ensures AnyOfKind(ops, kind) <==> exists i :: 0 <= i < |ops| && ops[i].kind == kind
  {
    if ops != [] {
      AnyOfKindExists(ops[1..], kind);
      if !AnyOfKind(ops, kind) {
        forall i | 0 <= i < |ops| ensures ops[i].kind != kind {
          if i > 0 {
            assert ops[i] == ops[1..][i - 1];
          }
        }
      } else if ops[0].kind != kind {
        var j :| 0 <= j < |ops[1..]| && ops[1..][j].kind == kind;
        assert ops[j + 1].kind == kind;
      }
    }
  }

  /** Intersections and compliments each imply set operations, and since
      every element is tagged one way or the other, set operations imply
      one of the two. */
  lemma SetOperationsPartition(s: Select)
    ensures HasIntersections(s) ==> HasSetOperations(s)
    ensures HasCompliments(s) ==> HasSetOperations(s)
    ensures HasSetOperations(s) ==> HasIntersections(s) || HasCompliments(s)
  {
    if s.setOperations.List? {
      var ops := s.setOperations.items;
      AnyOfKindExists(ops, Intersect);
      AnyOfKindExists(ops, Compliment);
      if ops != [] {
        assert ops[0].kind == Intersect || ops[0].kind == Compliment;
      }
    }
  }

  /** A single set operation reports exactly one of intersections and
      compliments. */
  lemma SingleSetOperationHasOneTag(s: Select, op: SetOperation)
    requires s.setOperations == List([op])
    ensures HasIntersections(s) != HasCompliments(s)
    ensures HasIntersections(s) <==> op.kind == Intersect
  {
    assert [op][1..] == [];
    assert AnyOfKind([op], Intersect) == (op.kind == Intersect);
    assert AnyOfKind([op], Compliment) == (op.kind == Compliment);
  }

  /** Depth of the query tree: a Select counts one, plus its deepest nested
      Select reached through its set operations. */
  function Depth(s: Select): (d: nat)
    ensures d >= 1
    decreases s, 1
  {
    1 + NestedDepth(s, 0)
  }

  /** The deepest nested Select among the set operations from index i on. */
  function NestedDepth(s: Select, i: nat): nat
    decreases s, 0, if s.setOperations.List? then |s.setOperations.items| - i else 0
  {
    match s.setOperations
    case Null => 0
    case List(ops) =>
      if i >= |ops| then 0
      else
        var rest := NestedDepth(s, i + 1);
        match ops[i].select
        case None => rest
        case Some(nested) =>
          assert ops[i] in ops;
          var here := Depth(nested);
          if here < rest then rest else here
  }

  lemma {:induction false} NestedDepthBound(s: Select, i: nat, j: nat)
    requires s.setOperations.List? && i <= j < |s.setOperations.items|
    requires s.setOperations.items[j].select.Some?
    ensures Depth(s.setOperations.items[j].select.value) <= NestedDepth(s, i)
    decreases j - i
  {
    if i < j {
      NestedDepthBound(s, i + 1, j);
    }
  }

  /** The query model is a finite tree: descending into the nested Select
      of any set operation strictly lowers the depth. */
  lemma NestedSelectIsShallower(s: Select, j: nat)
    requires s.setOperations.List? && j < |s.setOperations.items|
    requires s.setOperations.items[j].select.Some?
    ensures Depth(s.setOperations.items[j].select.value) < Depth(s)
  {
    NestedDepthBound(s, 0, j);
  }

  // ---------------------------------------------------------------------
  // Turning a single toggle on

  /** One assignment a caller makes to a fresh field. */
  datatype Toggle =
    | SetTop(n: int) | SetStart(n: int) | SetFirst | SetFirstOrDefault | SetCount
    | SetRandomize | SetProjection(ps: seq<SelectProjection>) | SetWhere(w: Operator)
    | SetDistinct(ds: seq<Projection>) | SetOrderBy(os: seq<OrderByProjection>)
    | SetSetOperations(ops: seq<SetOperation>)

  /** The assignment that turns the feature on (a positive number, a true
      flag, a non-empty list, a Where). */
  predicate TurnsOn(t: Toggle)
  {
    match t
    case SetTop(n) => n > 0
    case SetStart(n) => n > 0
    case SetProjection(ps) => ps != []
    case SetDistinct(ds) => ds != []
    case SetOrderBy(os) => os != []
    case SetSetOperations(ops) => ops != []
    case _ => true
  }

  function Apply(s: Select, t: Toggle): Select
  {
    match t
    case SetTop(n) => s.(top := n)
    case SetStart(n) => s.(start := n)
    case SetFirst => s.(first := true)
    case SetFirstOrDefault => s.(firstOrDefault := true)
    case SetCount => s.(count := true)
    case SetRandomize => s.(randomize := true)
    case SetProjection(ps) => s.(projection := List(ps))
    case SetWhere(w) => s.(where := Some(w))
    case SetDistinct(ds) => s.(distinct := List(ds))
    case SetOrderBy(os) => s.(orderBy := List(os))
    case SetSetOperations(ops) => s.(setOperations := List(ops))
  }

  function FeatureOf(t: Toggle): Feature
  {
    match t
    case SetTop(_) => TopFeature
    case SetStart(_) => StartFeature
    case SetFirst => FirstFeature
    case SetFirstOrDefault => FirstOrDefaultFeature
    case SetCount => CountFeature
    case SetRandomize => RandomizeFeature
    case SetProjection(_) => ProjectionFeature
    case SetWhere(_) => WhereFeature
    case SetDistinct(_) => DistinctFeature
    case SetOrderBy(_) => OrderByFeature
    case SetSetOperations(_) => SetOperationsFeature
  }

  /** Setting one field leaves the getter of every other feature as it was. */
  lemma ToggleLeavesOtherFeature(s: Select, t: Toggle, f: Feature)
    requires f != FeatureOf(t)
    ensures Reported(Apply(s, t), f) <==> Reported(s, f)
  {
    match t
    case SetTop(_) =>
    case SetStart(_) =>
    case SetFirst =>
    case SetFirstOrDefault =>
    case SetCount =>
    case SetRandomize =>
    case SetProjection(_) =>
    case SetWhere(_) =>
    case SetDistinct(_) =>
    case SetOrderBy(_) =>
    case SetSetOperations(_) =>
  }

  /** Turning on any one toggle makes HasConditions true, makes its own
      getter true, and leaves every other getter (including intersections
      and compliments, unless the set operations themselves were set) as
      it was. */
  lemma ToggleTurnsOnConditions(s: Select, t: Toggle)
    requires TurnsOn(t)
    ensures HasConditions(Apply(s, t))
    ensures Reported(Apply(s, t), FeatureOf(t))
    ensures forall f :: f != FeatureOf(t) ==> (Reported(Apply(s, t), f) <==> Reported(s, f))
    ensures !t.SetSetOperations? ==>
      HasIntersections(Apply(s, t)) == HasIntersections(s) &&
      HasCompliments(Apply(s, t)) == HasCompliments(s)
  {
    var s' := Apply(s, t);
    assert Present(s', FeatureOf(t));
    GettersReportFeatures(s', FeatureOf(t));
    HasConditionsIffSomeFeature(s');
    forall f | f != FeatureOf(t)
      ensures Reported(s', f) <==> Reported(s, f)
    {
      ToggleLeavesOtherFeature(s, t, f);
    }
  }
}
