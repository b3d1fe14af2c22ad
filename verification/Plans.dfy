/**
The value of a query builder: its own settings and, for each eager-loaded edge, the value of the builder of that edge.
*/
module Plans {
  import opened Schema
  import opened Store
  import opened Wrappers

  datatype Error =
    | UninitializedInterceptor
    | TraverseError(reason: string)
    | ValidationError(field: string)
    | UnexpectedForeignKey(column: string, key: nat)
    | NilForeignKey(column: string, node: nat)
    | NotFound(entity: Entity)
    | NotSingular(entity: Entity)
    | NotLoaded(edge: string)
    | TooManyColumns(count: nat)

  /** An interceptor of a builder: a nil one, a traverser with its verdict, or one that only wraps the querier. The two
      last hand the result of the querier on. */
  datatype Interceptor = Uninitialized | Traverser(verdict: Option<string>) | Wrapper

  datatype Plan = Plan(
    entity: Entity,
    inters: seq<Interceptor>,
    fields: seq<string>,
    preds: seq<Predicate>,
    order: seq<OrderTerm>,
    limit: Option<nat>,
    offset: Option<nat>,
    withFKs: bool,
    many: Option<Plan>,
    one: Option<Plan>)

  function Max(a: nat, b: nat): nat { if a < b then b else a }

  function Height(p: Plan): nat {
    1 + Max(if p.many.Some? then Height(p.many.value) else 0, if p.one.Some? then Height(p.one.value) else 0)
  }

  /** The number of builders in the tree. */
  function Size(p: Plan): nat {
    1 + (if p.many.Some? then Size(p.many.value) else 0) + (if p.one.Some? then Size(p.one.value) else 0)
  }

  /** The builder of an edge queries the entity at the other end. */
  ghost predicate WellTyped(p: Plan) {
    && (p.many.Some? ==>
          && ManyEdge(p.entity).Some? && p.many.value.entity == ManyEdge(p.entity).value.target
          && WellTyped(p.many.value))
    && (p.one.Some? ==>
          && OneEdge(p.entity).Some? && p.one.value.entity == OneEdge(p.entity).value.target
          && WellTyped(p.one.value))
  }

  // ----- preparing -----

  function InterceptorError(inters: seq<Interceptor>): Option<Error> {
    if inters == [] then None
    else match inters[0]
      case Uninitialized => Some(UninitializedInterceptor)
      case Traverser(Some(reason)) => Some(TraverseError(reason))
      case _ => InterceptorError(inters[1..])
  }

  function FieldError(e: Entity, fields: seq<string>): Option<Error> {
    if fields == [] then None
    else if !ValidColumn(e, fields[0]) then Some(ValidationError(fields[0]))
    else FieldError(e, fields[1..])
  }

  function PrepareError(p: Plan): Option<Error> {
    var err := InterceptorError(p.inters);
    if err.Some? then err else FieldError(p.entity, p.fields)
  }

  // ----- the query of one builder -----

  function AppendOnce(columns: seq<string>, column: string): seq<string> {
    if column in columns then columns else columns + [column]
  }

  function Without(columns: seq<string>, column: string): seq<string> {
    if columns == [] then []
    else (if columns[0] == column then [] else [columns[0]]) + Without(columns[1..], column)
  }

  /** The columns read for a builder: all of them, or the selected ones with the identifier in front, and the foreign
      keys that its own edge needs. */
  function SelectedColumns(p: Plan): seq<string> {
    var visible := p.one.Some? && OneEdge(p.entity).Some? && !OneEdge(p.entity).value.hidden;
    var chosen :=
      if p.fields == [] then Columns(p.entity)
      else
        var picked := [IdColumn(p.entity)] + Without(p.fields, IdColumn(p.entity));
        if visible then AppendOnce(picked, OneEdge(p.entity).value.column) else picked;
    if p.withFKs || p.one.Some? then chosen + ForeignKeys(p.entity) else chosen
  }

  function SpecOf(p: Plan): QuerySpec {
    QuerySpec(p.entity, SelectedColumns(p), p.preds, p.order,
              if p.limit.Some? then p.limit.value else 0, if p.offset.Some? then p.offset.value else 0)
  }

  predicate Whole(p: Plan) {
    SpecOf(p).limit == 0 && SpecOf(p).offset == 0
  }

  /** No eager-loaded builder has a limit or an offset. The root may. */
  ghost predicate WholeBelow(p: Plan) {
    && (p.many.Some? ==> Whole(p.many.value) && WholeBelow(p.many.value))
    && (p.one.Some? ==> Whole(p.one.value) && WholeBelow(p.one.value))
  }

  // ----- the builders of the edges, as a load changes them -----

  ghost predicate SameShape(p: Plan, q: Plan) {
    && (WellTyped(p) <==> WellTyped(q)) && p.entity == q.entity
    && Height(p) == Height(q) && Size(p) == Size(q)
    && (Whole(p) <==> Whole(q)) && (WholeBelow(p) <==> WholeBelow(q))
  }

  /** The foreign key that assigns children to their parents is read with them. */
  function Keyed(p: Plan, edge: Edge): (r: Plan)
    ensures SameShape(p, r)
  {
    if edge.hidden then p.(withFKs := true)
    else if p.fields == [] then p
    else p.(fields := AppendOnce(p.fields, edge.column))
  }

  function Bind(p: Plan, column: string, keys: seq<nat>): (r: Plan)
    ensures SameShape(p, r)
  {
    p.(preds := p.preds + [InValues(column, keys)])
  }

  /** The query for the children of the parents with the given identifiers. */
  function ChildrenOf(p: Plan, ids: seq<nat>): (child: Plan)
    requires WellTyped(p) && p.many.Some?
    ensures WellTyped(child) && Height(child) < Height(p) && Size(child) == Size(p.many.value)
    ensures WholeBelow(p) ==> Whole(child) && WholeBelow(child)
  {
    var edge := ManyEdge(p.entity).value;
    Bind(Keyed(p.many.value, edge), edge.column, ids)
  }

  /** The query for the parents with the given identifiers. */
  function ParentsOf(p: Plan, ids: seq<nat>): (parent: Plan)
    requires WellTyped(p) && p.one.Some?
    ensures WellTyped(parent) && Height(parent) < Height(p) && Size(parent) == Size(p.one.value)
    ensures WholeBelow(p) ==> Whole(parent) && WholeBelow(parent)
  {
    Bind(p.one.value, IdColumn(OneEdge(p.entity).value.target), ids)
  }

  /** The foreign key of a node: a plain field reads NULL as the zero value, a hidden pointer as nil. */
  function ForeignKey(edge: Edge, values: Row): Option<nat> {
    if edge.hidden then Pointer(values, edge.column) else Some(Field(values, edge.column))
  }

  // ----- lemmas -----

  lemma {:induction false} InterceptorErrorNone(inters: seq<Interceptor>)
    ensures InterceptorError(inters).None? <==>
            forall i :: 0 <= i < |inters| ==> inters[i] == Traverser(None) || inters[i] == Wrapper
  {
    if inters != [] { InterceptorErrorNone(inters[1..]); }
  }

  lemma {:induction false} FieldErrorNone(e: Entity, fields: seq<string>)
    ensures FieldError(e, fields).None? <==> forall i :: 0 <= i < |fields| ==> ValidColumn(e, fields[i])
  {
    if fields != [] { FieldErrorNone(e, fields[1..]); }
  }

  lemma {:induction false} WithoutIn(columns: seq<string>, column: string, c: string)
    ensures c in Without(columns, column) <==> c in columns && c != column
  {
    if columns != [] { WithoutIn(columns[1..], column, c); }
  }

  /** Exactly which columns are read: all of them if none was selected, otherwise the selected ones, the identifier, and
      a visible foreign key that the builder's own edge needs; and the hidden foreign keys if they are asked for or
      needed. */
  lemma {:induction false} ColumnsRead(p: Plan, c: string)
    requires WellTyped(p)
    ensures c in SelectedColumns(p) <==>
            || (p.fields == [] && c in Columns(p.entity))
            || (p.fields != [] && (c in p.fields || c == IdColumn(p.entity)))
            || (p.fields != [] && p.one.Some? && !OneEdge(p.entity).value.hidden && c == OneEdge(p.entity).value.column)
            || ((p.withFKs || p.one.Some?) && c in ForeignKeys(p.entity))
    ensures |SelectedColumns(p)| > 0 && SelectedColumns(p)[0] == IdColumn(p.entity)
  {
    assert Columns(p.entity)[0] == IdColumn(p.entity);
    WithoutIn(p.fields, IdColumn(p.entity), c);
  }

  /** An interceptor that lets every query through. */
  predicate Harmless(inter: Interceptor) { inter == Traverser(None) || inter == Wrapper }

  /** The first interceptor that is nil or refuses is the error of preparing, with the reason that it gives. */
  lemma {:induction false} FirstRefusal(inters: seq<Interceptor>, k: nat)
    requires k < |inters| && !Harmless(inters[k]) && forall i :: 0 <= i < k ==> Harmless(inters[i])
    ensures InterceptorError(inters) ==
            match inters[k]
            case Traverser(Some(reason)) => Some(TraverseError(reason))
            case _ => Some(UninitializedInterceptor)
    decreases inters
  {
    if k > 0 { FirstRefusal(inters[1..], k - 1); }
  }

  lemma {:induction false} FirstInvalidField(e: Entity, fields: seq<string>, k: nat)
    requires k < |fields| && !ValidColumn(e, fields[k]) && forall i :: 0 <= i < k ==> ValidColumn(e, fields[i])
    ensures FieldError(e, fields) == Some(ValidationError(fields[k]))
    decreases fields
  {
    if k > 0 { FirstInvalidField(e, fields[1..], k - 1); }
  }

  /** What preparing a builder returns: the first interceptor that is nil or refuses; if there is none, the first
      selected field that is no column; and no error otherwise. */
  lemma {:induction false} PrepareReturns(p: Plan)
    ensures forall k: nat :: k < |p.inters| && !Harmless(p.inters[k])
                             && (forall i :: 0 <= i < k ==> Harmless(p.inters[i])) ==>
              PrepareError(p) == match p.inters[k]
                                 case Traverser(Some(reason)) => Some(TraverseError(reason))
                                 case _ => Some(UninitializedInterceptor)
    ensures (forall i :: 0 <= i < |p.inters| ==> Harmless(p.inters[i])) ==>
              && (forall k: nat :: k < |p.fields| && !ValidColumn(p.entity, p.fields[k])
                                   && (forall i :: 0 <= i < k ==> ValidColumn(p.entity, p.fields[i])) ==>
                    PrepareError(p) == Some(ValidationError(p.fields[k])))
              && ((forall i :: 0 <= i < |p.fields| ==> ValidColumn(p.entity, p.fields[i])) ==>
                    PrepareError(p).None?)
  {
    forall k: nat | k < |p.inters| && !Harmless(p.inters[k]) && forall i :: 0 <= i < k ==> Harmless(p.inters[i]) {
      FirstRefusal(p.inters, k);
    }
    InterceptorErrorNone(p.inters);
    FieldErrorNone(p.entity, p.fields);
    if forall i :: 0 <= i < |p.inters| ==> Harmless(p.inters[i]) {
      forall k: nat | k < |p.fields| && !ValidColumn(p.entity, p.fields[k])
                      && forall i :: 0 <= i < k ==> ValidColumn(p.entity, p.fields[i])
      {
        FirstInvalidField(p.entity, p.fields, k);
      }
    }
  }

  /** Whatever the caller selected, the identifier is read, and so is the foreign key of an eager-loaded parent. */
  lemma {:induction false} KeysAreSelected(p: Plan)
    requires WellTyped(p)
    ensures IdColumn(p.entity) in SelectedColumns(p)
    ensures p.one.Some? ==> OneEdge(p.entity).value.column in SelectedColumns(p)
  {
    EdgesAreInverse(p.entity);
  }

  /** Whatever the caller selected, a keyed builder reads the foreign key of its edge. */
  lemma {:induction false} KeyedIsSelected(p: Plan, e: Entity)
    requires ManyEdge(e).Some? && p.entity == ManyEdge(e).value.target
    ensures ManyEdge(e).value.column in SelectedColumns(Keyed(p, ManyEdge(e).value))
  {
    EdgesAreInverse(e);
    var edge := ManyEdge(e).value;
    WithoutIn(Keyed(p, edge).fields, IdColumn(p.entity), edge.column);
  }

  /** A selected column has the row's value. */
  lemma {:induction false} SelectedIsRead(columns: seq<string>, row: Row, c: string)
    requires c in columns
    ensures Pointer(Project(columns, row), c) == Pointer(row, c)
    ensures Field(Project(columns, row), c) == Field(row, c)
  {
  }
}
