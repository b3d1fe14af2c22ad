/**
Eager loading, twice: what it means (for every row, one query per edge), and how the builders compute it (one query
per edge for all rows, joined in memory).
*/
module Eager {
  import opened Schema
  import opened Store
  import opened Plans
  import opened Wrappers

  /** A loaded entity with its edges. */
  datatype Loaded = Loaded(
    entity: Entity, values: Row, loadedMany: bool, loadedOne: bool, many: seq<Loaded>, one: Option<Loaded>)

  // ----- the meaning: one query per row and edge -----

  /** The children of a row. */
  ghost function ViewMany(db: DB, p: Plan, row: Row): seq<Loaded>
    requires WellTyped(p)
    decreases Height(p), 0
  {
    if p.many.None? then []
    else
      var children := ChildrenOf(p, [IdOf(p.entity, row)]);
      Views(db, children, Select(db, SpecOf(children)))
  }

  /** The parent of a row; a NULL foreign key has none. */
  ghost function ViewOne(db: DB, p: Plan, row: Row): Option<Loaded>
    requires WellTyped(p)
    decreases Height(p), 0
  {
    if p.one.None? || Pointer(row, OneEdge(p.entity).value.column).None? then None
    else
      var parents := ParentsOf(p, [Pointer(row, OneEdge(p.entity).value.column).value]);
      var found := Views(db, parents, Select(db, SpecOf(parents)));
      if found == [] then None else Some(found[0])
  }

  /** What a row loads to. */
  ghost function View(db: DB, p: Plan, row: Row): Loaded
    requires WellTyped(p)
    decreases Height(p), 1
  {
    Loaded(p.entity, Project(SelectedColumns(p), row), p.many.Some?, p.one.Some?,
           ViewMany(db, p, row), ViewOne(db, p, row))
  }

  ghost function Views(db: DB, p: Plan, rows: seq<Row>): seq<Loaded>
    requires WellTyped(p)
    decreases Height(p), 2, |rows|
  {
    if rows == [] then [] else [View(db, p, rows[0])] + Views(db, p, rows[1..])
  }

  /** No builder that is needed for the children of the row is refused when it is prepared. */
  ghost predicate ManyReady(db: DB, p: Plan, row: Row)
    requires WellTyped(p)
    decreases Height(p), 0
  {
    p.many.Some? ==> Ready(db, ChildrenOf(p, [IdOf(p.entity, row)]))
  }

  /** No builder that is needed for the parent of the row is refused. A visible foreign key is followed even when it
      is NULL, a hidden one is not. */
  ghost predicate OneReady(db: DB, p: Plan, row: Row)
    requires WellTyped(p)
    decreases Height(p), 0
  {
    p.one.Some? ==>
      var edge := OneEdge(p.entity).value;
      var key := Pointer(row, edge.column);
      (edge.hidden && key.None?) || Ready(db, ParentsOf(p, if key.Some? then [key.value] else []))
  }

  ghost predicate RowReady(db: DB, p: Plan, row: Row)
    requires WellTyped(p)
    decreases Height(p), 1
  {
    ManyReady(db, p, row) && OneReady(db, p, row)
  }

  /** No builder that is needed for the whole load is refused. */
  ghost predicate Ready(db: DB, p: Plan)
    requires WellTyped(p)
    decreases Height(p), 2
  {
    PrepareError(p).None? && forall row :: row in Select(db, SpecOf(p)) ==> RowReady(db, p, row)
  }

  // ----- the computation: one query per edge -----

  datatype Outcome = Outcome(res: Result<seq<Loaded>, Error>, after: Plan, queries: nat)

  /** The effect of loading one edge, with the edge's builder as the load leaves it. */
  datatype EdgeOutcome = EdgeOutcome(res: Result<seq<Loaded>, Error>, after: Option<Plan>, queries: nat)

  function Bare(p: Plan, values: Row): Loaded {
    Loaded(p.entity, values, p.many.Some?, p.one.Some?, [], None)
  }

  function BareAll(p: Plan, rows: seq<Row>): seq<Loaded> {
    if rows == [] then [] else [Bare(p, rows[0])] + BareAll(p, rows[1..])
  }

  /** The nodes that the query of a builder reads, without their edges. */
  function NodesOf(db: DB, p: Plan): seq<Loaded> {
    BareAll(p, ProjectAll(SelectedColumns(p), Select(db, SpecOf(p))))
  }

  function NodeId(n: Loaded): nat { IdOf(n.entity, n.values) }

  function Ids(nodes: seq<Loaded>): seq<nat> {
    if nodes == [] then [] else [NodeId(nodes[0])] + Ids(nodes[1..])
  }

  /** The children with the given foreign key, in the order they were returned. */
  function WithForeignKey(edge: Edge, key: nat, kids: seq<Loaded>): seq<Loaded> {
    if kids == [] then []
    else (if ForeignKey(edge, kids[0].values) == Some(key) then [kids[0]] else [])
         + WithForeignKey(edge, key, kids[1..])
  }

  function StrayChild(edge: Edge, ids: seq<nat>, kids: seq<Loaded>): Option<Error> {
    if kids == [] then None
    else match ForeignKey(edge, kids[0].values)
      case None => Some(NilForeignKey(edge.column, NodeId(kids[0])))
      case Some(key) =>
        if key !in ids then Some(UnexpectedForeignKey(edge.column, key)) else StrayChild(edge, ids, kids[1..])
  }

  /** Every returned child goes to the last node that has its foreign key as identifier. */
  function Adopt(edge: Edge, nodes: seq<Loaded>, kids: seq<Loaded>): seq<Loaded> {
    if nodes == [] then []
    else
      var id := NodeId(nodes[0]);
      [nodes[0].(many := if id in Ids(nodes[1..]) then [] else WithForeignKey(edge, id, kids))]
      + Adopt(edge, nodes[1..], kids)
  }

  /** The distinct foreign keys of the nodes, in order of first occurrence. */
  function Keys(edge: Edge, nodes: seq<Loaded>): seq<nat> {
    if nodes == [] then []
    else
      var keys := Keys(edge, nodes[..|nodes| - 1]);
      match ForeignKey(edge, nodes[|nodes| - 1].values)
      case None => keys
      case Some(key) => if key in keys then keys else keys + [key]
  }

  function StrayParent(edge: Edge, keys: seq<nat>, parents: seq<Loaded>): Option<Error> {
    if parents == [] then None
    else if NodeId(parents[0]) !in keys then Some(UnexpectedForeignKey(edge.column, NodeId(parents[0])))
    else StrayParent(edge, keys, parents[1..])
  }

  /** The last of the nodes with the given identifier. */
  function LastWithId(id: nat, nodes: seq<Loaded>): Option<Loaded> {
    if nodes == [] then None
    else if NodeId(nodes[|nodes| - 1]) == id then Some(nodes[|nodes| - 1])
    else LastWithId(id, nodes[..|nodes| - 1])
  }

  function AttachParents(edge: Edge, nodes: seq<Loaded>, parents: seq<Loaded>): seq<Loaded> {
    if nodes == [] then []
    else
      var key := ForeignKey(edge, nodes[0].values);
      [nodes[0].(one := if key.Some? then LastWithId(key.value, parents) else None)]
      + AttachParents(edge, nodes[1..], parents)
  }

  function BatchAll(db: DB, p: Plan): Outcome
    requires WellTyped(p)
    decreases Height(p), 2
  {
    var err := PrepareError(p);
    if err.Some? then Outcome(Failure(err.value), p, 0)
    else
      var nodes := NodesOf(db, p);
      if nodes == [] then Outcome(Success([]), p, 1) else BatchEdges(db, p, nodes)
  }

  /** Loads the edges of nodes that one query has read. */
  function BatchEdges(db: DB, p: Plan, nodes: seq<Loaded>): Outcome
    requires WellTyped(p)
    decreases Height(p), 1
  {
    var m := BatchMany(db, p, nodes);
    if m.res.Failure? then Outcome(m.res, p.(many := m.after), 1 + m.queries)
    else
      var o := BatchOne(db, p, m.res.value);
      Outcome(o.res, p.(many := m.after, one := o.after), 1 + m.queries + o.queries)
  }

  function BatchMany(db: DB, p: Plan, nodes: seq<Loaded>): EdgeOutcome
    requires WellTyped(p)
    decreases Height(p), 0
  {
    if p.many.None? then EdgeOutcome(Success(nodes), p.many, 0)
    else
      var edge := ManyEdge(p.entity).value;
      var out := BatchAll(db, ChildrenOf(p, Ids(nodes)));
      var res :=
        match out.res
        case Failure(e) => Failure(e)
        case Success(kids) =>
          var stray := StrayChild(edge, Ids(nodes), kids);
          if stray.Some? then Failure(stray.value) else Success(Adopt(edge, nodes, kids));
      EdgeOutcome(res, Some(out.after), out.queries)
  }

  function BatchOne(db: DB, p: Plan, nodes: seq<Loaded>): EdgeOutcome
    requires WellTyped(p)
    decreases Height(p), 0
  {
    if p.one.None? then EdgeOutcome(Success(nodes), p.one, 0)
    else
      var edge := OneEdge(p.entity).value;
      var keys := Keys(edge, nodes);
      if keys == [] then EdgeOutcome(Success(nodes), p.one, 0)
      else
        var out := BatchAll(db, ParentsOf(p, keys));
        var res :=
          match out.res
          case Failure(e) => Failure(e)
          case Success(parents) =>
            var stray := StrayParent(edge, keys, parents);
            if stray.Some? then Failure(stray.value) else Success(AttachParents(edge, nodes, parents));
        EdgeOutcome(res, Some(out.after), out.queries)
  }
}
