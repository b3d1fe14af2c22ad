/**
Exactly when a load does not compute its meaning because of a limit or an offset on the builder of an edge.
*/
module EagerLimits {
  import opened Schema
  import opened Store
  import opened Plans
  import opened Eager
  import opened EagerAgrees
  import opened EagerEdges
  import opened Wrappers

  /** The load succeeds with what one query per row and edge returns. */
  ghost predicate Means(db: DB, p: Plan)
    requires WellTyped(p)
  {
    BatchAll(db, p).res == Success(Views(db, p, Select(db, SpecOf(p))))
  }

  ghost predicate MeansAlways(p: Plan)
    requires WellTyped(p)
  {
    forall db :: WellFormed(db) && ZeroFree(db) ==> Means(db, p)
  }

  // ----- builders that can be prepared -----

  ghost predicate AllPrepared(p: Plan) {
    && PrepareError(p).None?
    && (p.many.Some? ==> AllPrepared(p.many.value))
    && (p.one.Some? ==> AllPrepared(p.one.value))
  }

  lemma {:induction false} KeyedPrepares(p: Plan, edge: Edge)
    requires PrepareError(p).None? && ValidColumn(p.entity, edge.column)
    ensures PrepareError(Keyed(p, edge)).None?
  {
    FieldErrorNone(p.entity, p.fields);
    FieldErrorNone(p.entity, AppendOnce(p.fields, edge.column));
  }

  lemma {:induction false} EdgesPrepared(p: Plan, ids: seq<nat>)
    requires WellTyped(p) && AllPrepared(p)
    ensures p.many.Some? ==> AllPrepared(ChildrenOf(p, ids))
    ensures p.one.Some? ==> AllPrepared(ParentsOf(p, ids))
  {
    EdgesAreInverse(p.entity);
    if p.many.Some? { KeyedPrepares(p.many.value, ManyEdge(p.entity).value); }
  }

  lemma {:induction false} PreparedIsReady(db: DB, p: Plan)
    requires WellTyped(p) && AllPrepared(p)
    ensures Ready(db, p)
    decreases Height(p), 1
  {
    forall row | row in Select(db, SpecOf(p)) ensures RowReady(db, p, row) { PreparedRowIsReady(db, p, row); }
  }

  lemma {:induction false} PreparedRowIsReady(db: DB, p: Plan, row: Row)
    requires WellTyped(p) && AllPrepared(p)
    ensures RowReady(db, p, row)
    decreases Height(p), 0
  {
    if p.many.Some? {
      var ids := [IdOf(p.entity, row)];
      EdgesPrepared(p, ids);
      PreparedIsReady(db, ChildrenOf(p, ids));
    }
    if p.one.Some? {
      var key := Pointer(row, OneEdge(p.entity).value.column);
      var keys := if key.Some? then [key.value] else [];
      EdgesPrepared(p, keys);
      PreparedIsReady(db, ParentsOf(p, keys));
    }
  }

  // ----- one edge at a time -----

  lemma {:induction false} NodesAt(db: DB, p: Plan)
    requires WellTyped(p)
    ensures var rows := Select(db, SpecOf(p));
            && |NodesOf(db, p)| == |rows|
            && forall i :: 0 <= i < |rows| ==>
                 && NodesOf(db, p)[i] == Bare(p, Project(SelectedColumns(p), rows[i]))
                 && NodeId(NodesOf(db, p)[i]) == IdOf(p.entity, rows[i])
  {
    ProjectedNodes(p, Select(db, SpecOf(p)));
  }

  /** The children of all nodes are those of their rows. */
  ghost predicate ManyMeans(db: DB, p: Plan, rows: seq<Row>, nodes: seq<Loaded>)
    requires WellTyped(p) && |rows| == |nodes|
  {
    var res := BatchMany(db, p, nodes).res;
    && res.Success? && |res.value| == |rows|
    && forall i :: 0 <= i < |rows| ==> res.value[i] == nodes[i].(many := ViewMany(db, p, rows[i]))
  }

  /** The parents of all nodes are those of their rows. */
  ghost predicate OneMeans(db: DB, p: Plan, rows: seq<Row>, nodes: seq<Loaded>)
    requires WellTyped(p) && |rows| == |nodes|
  {
    var res := BatchOne(db, p, nodes).res;
    && res.Success? && |res.value| == |rows|
    && forall i :: 0 <= i < |rows| ==> res.value[i] == nodes[i].(one := ViewOne(db, p, rows[i]))
  }

  /** A load means what it should if both its edges do. */
  lemma {:induction false} MeansByEdges(db: DB, p: Plan)
    requires WellTyped(p) && PrepareError(p).None?
    requires var rows, nodes := Select(db, SpecOf(p)), NodesOf(db, p);
             rows != [] ==>
               && |nodes| == |rows| && ManyMeans(db, p, rows, nodes)
               && OneMeans(db, p, rows, BatchMany(db, p, nodes).res.value)
    ensures Means(db, p)
  {
    NodesAt(db, p);
    var rows, nodes := Select(db, SpecOf(p)), NodesOf(db, p);
    if rows != [] {
      var m := BatchMany(db, p, nodes).res.value;
      AssembleViews(db, p, rows, nodes, m, BatchOne(db, p, m).res.value);
    }
  }

  /** The edges do not look at each other's builders. */
  lemma {:induction false} EdgesAreSeparate(db: DB, p: Plan, q: Plan, rows: seq<Row>, nodes: seq<Loaded>)
    requires WellTyped(p) && WellTyped(q) && q.entity == p.entity && |rows| == |nodes|
    ensures q.many == p.many ==> (ManyMeans(db, p, rows, nodes) <==> ManyMeans(db, q, rows, nodes))
    ensures q.one == p.one ==> (OneMeans(db, p, rows, nodes) <==> OneMeans(db, q, rows, nodes))
  {
    forall row {:trigger ViewMany(db, p, row)} {:trigger ViewOne(db, p, row)}
      ensures q.many == p.many ==> ViewMany(db, q, row) == ViewMany(db, p, row)
      ensures q.one == p.one ==> ViewOne(db, q, row) == ViewOne(db, p, row)
    {
      SeparateViews(db, p, q, row);
    }
    SeparateBatches(db, p, q, nodes);
  }

  lemma {:induction false} SeparateViews(db: DB, p: Plan, q: Plan, row: Row)
    requires WellTyped(p) && WellTyped(q) && q.entity == p.entity
    ensures q.many == p.many ==> ViewMany(db, q, row) == ViewMany(db, p, row)
    ensures q.one == p.one ==> ViewOne(db, q, row) == ViewOne(db, p, row)
  {
    if q.many == p.many && p.many.Some? {
      assert ChildrenOf(p, [IdOf(p.entity, row)]) == ChildrenOf(q, [IdOf(p.entity, row)]);
    }
  }

  lemma {:induction false} SeparateBatches(db: DB, p: Plan, q: Plan, nodes: seq<Loaded>)
    requires WellTyped(p) && WellTyped(q) && q.entity == p.entity
    ensures q.many == p.many ==> BatchMany(db, q, nodes) == BatchMany(db, p, nodes)
    ensures q.one == p.one ==> BatchOne(db, q, nodes) == BatchOne(db, p, nodes)
  {
    if q.many == p.many && p.many.Some? {
      assert ChildrenOf(p, Ids(nodes)) == ChildrenOf(q, Ids(nodes));
    }
  }

  /** An edge without limits in its tree means what it should. */
  lemma {:induction false} WholeManyMeans(db: DB, p: Plan, rows: seq<Row>, nodes: seq<Loaded>)
    requires WellFormed(db) && ZeroFree(db) && WellTyped(p) && AllPrepared(p)
    requires p.many.Some? ==> Whole(p.many.value) && WholeBelow(p.many.value)
    requires rows != [] && DistinctIds(p.entity, rows) && |nodes| == |rows|
    requires forall i :: 0 <= i < |rows| ==> nodes[i].many == [] && NodeId(nodes[i]) == IdOf(p.entity, rows[i])
    ensures ManyMeans(db, p, rows, nodes)
  {
    var q := p.(one := None);
    EdgesAreSeparate(db, p, q, rows, nodes);
    if p.many.Some? {
      AgreeMany(db, q, rows, nodes);
      forall row | row in rows ensures ManyReady(db, q, row) { PreparedRowIsReady(db, q, row); }
    } else {
      NoMany(db, q, rows, nodes);
    }
  }

  lemma {:induction false} WholeOneMeans(db: DB, p: Plan, rows: seq<Row>, nodes: seq<Loaded>)
    requires WellFormed(db) && ZeroFree(db) && WellTyped(p) && AllPrepared(p)
    requires p.one.Some? ==> Whole(p.one.value) && WholeBelow(p.one.value)
    requires rows != [] && |nodes| == |rows| && forall row :: row in rows ==> WellFormedRow(p.entity, row)
    requires forall i :: 0 <= i < |rows| ==>
               nodes[i].one == None && nodes[i].values == Project(SelectedColumns(p), rows[i])
    ensures OneMeans(db, p, rows, nodes)
  {
    var q := p.(many := None);
    EdgesAreSeparate(db, p, q, rows, nodes);
    if p.one.Some? {
      assert SelectedColumns(q) == SelectedColumns(p);
      AgreeOne(db, q, rows, nodes);
      forall row | row in rows ensures OneReady(db, q, row) { PreparedRowIsReady(db, q, row); }
    } else {
      NoOne(db, q, rows, nodes);
    }
  }

  lemma {:induction false} MeansOfEdges(db: DB, p: Plan)
    requires WellTyped(p) && Means(db, p) && Select(db, SpecOf(p)) != []
    ensures var m := BatchMany(db, p, NodesOf(db, p)).res;
            && m.Success?
            && BatchOne(db, p, m.value).res == Success(Views(db, p, Select(db, SpecOf(p))))
  {
    NodesAt(db, p);
    assert BatchAll(db, p) == BatchEdges(db, p, NodesOf(db, p));
  }

  lemma {:induction false} MeansManyAt(db: DB, p: Plan, i: nat)
    requires WellTyped(p) && Means(db, p) && i < |Select(db, SpecOf(p))|
    ensures var m := BatchMany(db, p, NodesOf(db, p)).res;
            m.Success? && i < |m.value| && m.value[i].many == ViewMany(db, p, Select(db, SpecOf(p))[i])
  {
    var rows := Select(db, SpecOf(p));
    NodesAt(db, p);
    MeansOfEdges(db, p);
    ViewsAt(db, p, rows);
    ManyKeepsValues(db, p, NodesOf(db, p));
    OneKeepsMany(db, p, BatchMany(db, p, NodesOf(db, p)).res.value);
    assert View(db, p, rows[i]).many == ViewMany(db, p, rows[i]);
  }

  lemma {:induction false} MeansOneAt(db: DB, p: Plan, i: nat)
    requires WellTyped(p) && Means(db, p) && i < |Select(db, SpecOf(p))|
    ensures var m := BatchMany(db, p, NodesOf(db, p)).res;
            && m.Success?
            && var o := BatchOne(db, p, m.value).res;
               o.Success? && i < |o.value| && o.value[i].one == ViewOne(db, p, Select(db, SpecOf(p))[i])
  {
    var rows := Select(db, SpecOf(p));
    NodesAt(db, p);
    MeansOfEdges(db, p);
    ViewsAt(db, p, rows);
    assert View(db, p, rows[i]).one == ViewOne(db, p, rows[i]);
  }

  lemma {:induction false} OneKeepsMany(db: DB, p: Plan, nodes: seq<Loaded>)
    requires WellTyped(p) && BatchOne(db, p, nodes).res.Success?
    ensures var res := BatchOne(db, p, nodes).res.value;
            |res| == |nodes| && forall i :: 0 <= i < |nodes| ==> res[i].many == nodes[i].many
  {
    if p.one.Some? {
      var edge := OneEdge(p.entity).value;
      var keys := Keys(edge, nodes);
      if keys != [] { AttachParentsAt(edge, nodes, BatchAll(db, ParentsOf(p, keys)).res.value); }
    }
  }

  // ----- a family -----

  /** A row with the given identifier and, if the column is one of its columns, the given key there; NULL elsewhere. */
  function MakeRow(columns: seq<string>, id: string, column: string, n: nat, key: nat): Row {
    map c | c in columns :: if c == id then Key(n) else if c == column then Key(key) else Null
  }

  /** Rows with identifiers from 1 and the listed keys. */
  function MakeRows(columns: seq<string>, id: string, column: string, keys: seq<nat>): (rows: seq<Row>)
    ensures |rows| == |keys|
  {
    if keys == [] then []
    else
      var last := |keys| - 1;
      MakeRows(columns, id, column, keys[..last]) + [MakeRow(columns, id, column, last + 1, keys[last])]
  }

  lemma {:induction false} MadeRows(columns: seq<string>, id: string, column: string, keys: seq<nat>, i: nat)
    requires i < |keys|
    ensures MakeRows(columns, id, column, keys)[i] == MakeRow(columns, id, column, i + 1, keys[i])
  {
    if i < |keys| - 1 { MadeRows(columns, id, column, keys[..|keys| - 1], i); }
  }

  function AllColumns(e: Entity): seq<string> { Columns(e) + ForeignKeys(e) }

  function Zeros(n: nat): (keys: seq<nat>)
    ensures |keys| == n
  {
    if n == 0 then [] else Zeros(n - 1) + [0]
  }

  function Table(e: Entity, column: string, keys: seq<nat>): (rows: seq<Row>)
    ensures |rows| == |keys|
  {
    MakeRows(AllColumns(e), IdColumn(e), column, keys)
  }

  /** A database with the given number of parents, with identifiers from 1, and a child for every listed key. */
  function Family(e: Entity, parents: nat, keys: seq<nat>): DB
    requires ManyEdge(e).Some?
  {
    var edge := ManyEdge(e).value;
    DB(x => if x == e then Table(e, "", Zeros(parents))
            else if x == edge.target then Table(edge.target, edge.column, keys) else [],
       v => 0)
  }

  lemma {:induction false} IdIsColumn(e: Entity)
    ensures IdColumn(e) in AllColumns(e) && "" != IdColumn(e)
  {
    assert AllColumns(e)[0] == IdColumn(e);
    assert |IdColumn(e)| > 0;
  }

  lemma {:induction false} KeyColumn(e: Entity)
    requires OneEdge(e).Some?
    ensures OneEdge(e).value.column in AllColumns(e) && OneEdge(e).value.column != IdColumn(e)
    ensures OneEdge(e).value.target != e && OneEdge(e).value.column != ""
  {
    EdgesAreInverse(e);
    assert |OneEdge(e).value.column| != |IdColumn(e)| || e == DeploymentProfile;
  }

  /** What matters about such a database. */
  ghost predicate IsFamily(db: DB, e: Entity, parents: nat, keys: seq<nat>)
    requires ManyEdge(e).Some?
  {
    var up, down := (db.rows)(e), (db.rows)(ManyEdge(e).value.target);
    && (forall v :: (db.rank)(v) == 0)
    && |up| == parents && |down| == |keys|
    && (forall i :: 0 <= i < |up| ==> IdOf(e, up[i]) == i + 1 && Pointer(up[i], IdColumn(e)) == Some(i + 1))
    && forall i :: 0 <= i < |down| ==> Pointer(down[i], ManyEdge(e).value.column) == Some(keys[i])
  }

  lemma {:induction false} MadeRowFits(
    e: Entity, columns: seq<string>, id: string, column: string, n: nat, key: nat, row: Row)
    requires columns == AllColumns(e) && id == IdColumn(e) && id in columns && column != id
    requires OneEdge(e).Some? ==> OneEdge(e).value.column in columns && OneEdge(e).value.column != id
    requires row == MakeRow(columns, id, column, n, key)
    ensures WellFormedRow(e, row) && IdOf(e, row) == n && Pointer(row, id) == Some(n)
    ensures column in columns ==> Pointer(row, column) == Some(key)
  {
    assert forall c :: c in Columns(e) || c in ForeignKeys(e) ==> c in columns;
  }

  lemma {:induction false} TableFits(
    e: Entity, columns: seq<string>, id: string, column: string, keys: seq<nat>, i: nat, row: Row)
    requires columns == AllColumns(e) && id == IdColumn(e) && id in columns && column != id
    requires OneEdge(e).Some? ==> OneEdge(e).value.column in columns && OneEdge(e).value.column != id
    requires i < |keys| && row == MakeRows(columns, id, column, keys)[i]
    ensures WellFormedRow(e, row) && IdOf(e, row) == i + 1 && Pointer(row, id) == Some(i + 1)
    ensures column in columns ==> Pointer(row, column) == Some(keys[i])
  {
    MadeRows(columns, id, column, keys, i);
    MadeRowFits(e, columns, id, column, i + 1, keys[i], row);
  }

  lemma {:induction false} FamilyTables(e: Entity, parents: nat, keys: seq<nat>)
    requires ManyEdge(e).Some?
    ensures var db := Family(e, parents, keys);
            var edge := ManyEdge(e).value;
            && (db.rows)(e) == Table(e, "", Zeros(parents))
            && (db.rows)(edge.target) == Table(edge.target, edge.column, keys)
            && forall x :: x != e && x != edge.target ==> (db.rows)(x) == []
  {
    EdgesAreInverse(e);
    KeyColumn(ManyEdge(e).value.target);
  }

  lemma {:induction false} FamilyIsOne(e: Entity, parents: nat, keys: seq<nat>)
    requires ManyEdge(e).Some?
    ensures var db := Family(e, parents, keys);
            WellFormed(db) && ZeroFree(db) && IsFamily(db, e, parents, keys)
  {
    var db := Family(e, parents, keys);
    var edge := ManyEdge(e).value;
    EdgesAreInverse(e);
    IdIsColumn(e);
    IdIsColumn(edge.target);
    KeyColumn(edge.target);
    if OneEdge(e).Some? { KeyColumn(e); }
    FamilyTables(e, parents, keys);
    var up, down := (db.rows)(e), (db.rows)(edge.target);
    forall i | 0 <= i < |up|
      ensures WellFormedRow(e, up[i]) && IdOf(e, up[i]) == i + 1 && Pointer(up[i], IdColumn(e)) == Some(i + 1)
    {
      TableFits(e, AllColumns(e), IdColumn(e), "", Zeros(parents), i, up[i]);
    }
    forall i | 0 <= i < |down|
      ensures WellFormedRow(edge.target, down[i]) && IdOf(edge.target, down[i]) == i + 1
      ensures Pointer(down[i], edge.column) == Some(keys[i])
    {
      TableFits(edge.target, AllColumns(edge.target), IdColumn(edge.target), edge.column, keys, i, down[i]);
    }
    NumberedIsWellFormed(db, e, edge.target);
  }

  lemma {:induction false} NumberedIsWellFormed(db: DB, a: Entity, b: Entity)
    requires forall x :: x != a && x != b ==> (db.rows)(x) == []
    requires forall i :: 0 <= i < |(db.rows)(a)| ==>
               WellFormedRow(a, (db.rows)(a)[i]) && IdOf(a, (db.rows)(a)[i]) == i + 1
    requires forall i :: 0 <= i < |(db.rows)(b)| ==>
               WellFormedRow(b, (db.rows)(b)[i]) && IdOf(b, (db.rows)(b)[i]) == i + 1
    ensures WellFormed(db) && ZeroFree(db)
  {
    forall x: Entity, i | 0 <= i < |(db.rows)(x)|
      ensures WellFormedRow(x, (db.rows)(x)[i]) && IdOf(x, (db.rows)(x)[i]) == i + 1
    {
      assert x == a || x == b;
    }
  }

  /** Nothing is ordered by a collation that ranks all values the same. */
  lemma {:induction false} NoCollation(db: DB, order: seq<OrderTerm>, a: Row, b: Row)
    requires forall v :: (db.rank)(v) == 0
    ensures Before(db, order, a, b)
  {
    if order != [] { NoCollation(db, order[1..], a, b); }
  }

  lemma {:induction false} SortsNothing(db: DB, order: seq<OrderTerm>, rows: seq<Row>)
    requires forall v :: (db.rank)(v) == 0
    ensures Sort(db, order, rows) == rows
  {
    if rows != [] {
      SortsNothing(db, order, rows[1..]);
      if rows[1..] != [] { NoCollation(db, order, rows[0], rows[1]); }
    }
  }

  // ----- when a limit does no harm -----

  /** The number of rows at which the page of a builder begins to hide others. */
  function Cut(p: Plan): nat {
    if SpecOf(p).offset > 0 then SpecOf(p).offset else SpecOf(p).limit
  }

  lemma {:induction false} AllWithKey(edge: Edge, key: nat, kids: seq<Loaded>)
    requires forall i :: 0 <= i < |kids| ==> ForeignKey(edge, kids[i].values) == Some(key)
    ensures WithForeignKey(edge, key, kids) == kids
  {
    if kids != [] { AllWithKey(edge, key, kids[1..]); }
  }

  /** With a single node, the query for the children of all nodes is the one for the children of this one. */
  lemma {:induction false} SingleManyMeans(db: DB, p: Plan, row: Row, node: Loaded)
    requires WellFormed(db) && ZeroFree(db) && WellTyped(p) && AllPrepared(p)
    requires p.many.Some? && WholeBelow(p.many.value) && NodeId(node) == IdOf(p.entity, row)
    ensures ManyMeans(db, p, [row], [node])
  {
    var edge := ManyEdge(p.entity).value;
    var id := IdOf(p.entity, row);
    assert Ids([node]) == [id] by { assert [node][1..] == []; }
    var all := ChildrenOf(p, [id]);
    var kids := Views(db, all, Select(db, SpecOf(all)));
    SingleKids(db, p, id);
    AdoptAt(edge, [node], kids);
    assert [node][1..] == [] && Ids([]) == [];
  }

  lemma {:induction false} SingleKids(db: DB, p: Plan, id: nat)
    requires WellFormed(db) && ZeroFree(db) && WellTyped(p) && AllPrepared(p)
    requires p.many.Some? && WholeBelow(p.many.value)
    ensures var edge := ManyEdge(p.entity).value;
            var all := ChildrenOf(p, [id]);
            var kids := Views(db, all, Select(db, SpecOf(all)));
            && BatchAll(db, all).res == Success(kids)
            && StrayChild(edge, [id], kids).None? && WithForeignKey(edge, id, kids) == kids
  {
    var edge := ManyEdge(p.entity).value;
    var all := ChildrenOf(p, [id]);
    var kids := Views(db, all, Select(db, SpecOf(all)));
    EdgesPrepared(p, [id]);
    PreparedIsReady(db, all);
    Agree(db, all);
    ViewsAt(db, all, Select(db, SpecOf(all)));
    NoStrayChild(db, p, [id], kids);
    StrayChildNone(edge, [id], kids);
    AllWithKey(edge, id, kids);
  }

  lemma {:induction false} Pigeonhole(e: Entity, rows: seq<Row>, keys: seq<nat>)
    requires DistinctIds(e, rows) && forall i :: 0 <= i < |rows| ==> IdOf(e, rows[i]) in keys
    ensures |rows| <= |keys|
  {
    if rows != [] {
      var last := |rows| - 1;
      var k :| 0 <= k < |keys| && keys[k] == IdOf(e, rows[last]);
      var fewer := keys[..k] + keys[k + 1..];
      forall i | 0 <= i < last ensures IdOf(e, rows[..last][i]) in fewer {
        var j :| 0 <= j < |keys| && keys[j] == IdOf(e, rows[i]);
        assert j != k;
        assert fewer[if j < k then j else j - 1] == keys[j];
      }
      Pigeonhole(e, rows[..last], fewer);
    }
  }

  function Boundless(p: Plan): Plan { p.(limit := None, offset := None) }

  /** A query by identifiers selects at most as many rows as there are identifiers. */
  lemma {:induction false} SelectsFew(db: DB, p: Plan, keys: seq<nat>)
    requires WellFormed(db)
    ensures var rows := Select(db, SpecOf(Bind(Boundless(p), IdColumn(p.entity), keys)));
            && |rows| <= |keys|
            && Select(db, SpecOf(Bind(p, IdColumn(p.entity), keys))) == Page(SpecOf(p).offset, SpecOf(p).limit, rows)
  {
    var bound := Bind(Boundless(p), IdColumn(p.entity), keys);
    var rows := Select(db, SpecOf(bound));
    SelectSound(db, SpecOf(bound));
    forall i | 0 <= i < |rows| ensures IdOf(p.entity, rows[i]) in keys {
      assert rows[i] in rows;
      BoundRow(Boundless(p), IdColumn(p.entity), keys, rows[i]);
    }
    Pigeonhole(p.entity, rows, keys);
  }

  lemma {:induction false} FewKeys(edge: Edge, nodes: seq<Loaded>)
    ensures |Keys(edge, nodes)| <= |nodes|
  {
    if nodes != [] { FewKeys(edge, nodes[..|nodes| - 1]); }
  }

  lemma {:induction false} SameViews(db: DB, p: Plan, q: Plan, rows: seq<Row>)
    requires WellTyped(p) && WellTyped(q) && q == p.(limit := q.limit, offset := q.offset)
    ensures Views(db, p, rows) == Views(db, q, rows)
  {
    ViewsAt(db, p, rows);
    ViewsAt(db, q, rows);
    assert SelectedColumns(p) == SelectedColumns(q);
    forall i | 0 <= i < |rows| ensures View(db, p, rows[i]) == View(db, q, rows[i]) {
      SameEdgesSameView(db, p, q, rows[i]);
    }
  }

  /** A limit that is not reached is none. */
  lemma {:induction false} UnreachedLimit(db: DB, p: Plan, w: Plan, keys: seq<nat>)
    requires WellFormed(db) && ZeroFree(db) && WellTyped(p) && AllPrepared(p) && p.one.Some?
    requires WholeBelow(p.one.value) && w == p.(one := Some(Boundless(p.one.value)))
    requires SpecOf(p.one.value).offset == 0 && |keys| <= SpecOf(p.one.value).limit
    ensures WellTyped(w) && AllPrepared(w)
    ensures var all, allW := ParentsOf(p, keys), ParentsOf(w, keys);
            && Select(db, SpecOf(all)) == Select(db, SpecOf(allW))
            && Views(db, all, Select(db, SpecOf(all))) == Views(db, allW, Select(db, SpecOf(allW)))
            && BatchAll(db, all).res == BatchAll(db, allW).res
  {
    SelectsFew(db, p.one.value, keys);
    var all, allW := ParentsOf(p, keys), ParentsOf(w, keys);
    EdgesPrepared(p, keys);
    EdgesPrepared(w, keys);
    PreparedIsReady(db, all);
    PreparedIsReady(db, allW);
    SameViews(db, all, allW, Select(db, SpecOf(all)));
    Agree(db, all);
    Agree(db, allW);
  }

  /** A limit on the builder of the parents that is not smaller than the number of nodes. */
  lemma {:induction false} LargeLimitMeans(db: DB, p: Plan, rows: seq<Row>, nodes: seq<Loaded>)
    requires WellFormed(db) && ZeroFree(db) && WellTyped(p) && AllPrepared(p) && p.one.Some?
    requires WholeBelow(p.one.value) && SpecOf(p.one.value).offset == 0
    requires 0 < |rows| == |nodes| && |rows| <= SpecOf(p.one.value).limit
    requires forall row :: row in rows ==> WellFormedRow(p.entity, row)
    requires forall i :: 0 <= i < |rows| ==>
               nodes[i].one == None && nodes[i].values == Project(SelectedColumns(p), rows[i])
    ensures OneMeans(db, p, rows, nodes)
  {
    var edge := OneEdge(p.entity).value;
    var w := p.(one := Some(Boundless(p.one.value)));
    var keys := Keys(edge, nodes);
    FewKeys(edge, nodes);
    UnreachedLimit(db, p, w, keys);
    assert SelectedColumns(w) == SelectedColumns(p);
    WholeOneMeans(db, w, rows, nodes);
    forall i | 0 <= i < |rows| ensures ViewOne(db, p, rows[i]) == ViewOne(db, w, rows[i]) {
      var key := Pointer(rows[i], edge.column);
      if key.Some? { UnreachedLimit(db, p, w, [key.value]); }
    }
    assert BatchOne(db, p, nodes).res == BatchOne(db, w, nodes).res;
  }

  /** An offset on the builder of the parents that is not smaller than the number of nodes: no parent is found, neither
      for all nodes nor for one of them. */
  lemma {:induction false} LargeOffsetMeans(db: DB, p: Plan, rows: seq<Row>, nodes: seq<Loaded>)
    requires WellFormed(db) && WellTyped(p) && AllPrepared(p) && p.one.Some?
    requires 0 < |rows| == |nodes| && |rows| <= SpecOf(p.one.value).offset
    requires forall i :: 0 <= i < |rows| ==> nodes[i].one == None
    ensures OneMeans(db, p, rows, nodes)
  {
    var edge := OneEdge(p.entity).value;
    var keys := Keys(edge, nodes);
    FewKeys(edge, nodes);
    SelectsFew(db, p.one.value, keys);
    EdgesPrepared(p, keys);
    AttachParentsAt(edge, nodes, []);
    forall i | 0 <= i < |rows| ensures ViewOne(db, p, rows[i]) == None {
      var key := Pointer(rows[i], edge.column);
      if key.Some? { SelectsFew(db, p.one.value, [key.value]); }
    }
    if keys != [] {
      var all := ParentsOf(p, keys);
      assert Select(db, SpecOf(all)) == [];
      assert BatchAll(db, all).res == Success([]);
      assert StrayParent(edge, keys, []).None?;
    }
  }

  /** What the rest of the tree has to be for the question about one edge. */
  ghost predicate OtherwiseWhole(p: Plan) {
    && (p.many.Some? ==> WholeBelow(p.many.value))
    && (p.one.Some? ==> WholeBelow(p.one.value))
  }

  lemma {:induction false} ChildLimitHolds(p: Plan)
    requires WellTyped(p) && AllPrepared(p) && OtherwiseWhole(p) && p.many.Some?
    requires p.one.Some? ==> Whole(p.one.value)
    requires Whole(p.many.value) || SpecOf(p).limit == 1
    ensures MeansAlways(p)
  {
    forall db | WellFormed(db) && ZeroFree(db) ensures Means(db, p) {
      var rows, nodes := Select(db, SpecOf(p)), NodesOf(db, p);
      NodesAt(db, p);
      SelectSound(db, SpecOf(p));
      if rows != [] {
        if Whole(p.many.value) {
          WholeManyMeans(db, p, rows, nodes);
        } else {
          assert rows == [rows[0]] && nodes == [nodes[0]];
          SingleManyMeans(db, p, rows[0], nodes[0]);
        }
        WholeOneMeans(db, p, rows, BatchMany(db, p, nodes).res.value);
      }
      MeansByEdges(db, p);
    }
  }

  lemma {:induction false} ParentLimitHolds(p: Plan)
    requires WellTyped(p) && AllPrepared(p) && OtherwiseWhole(p) && p.one.Some?
    requires p.many.Some? ==> Whole(p.many.value)
    requires Cut(p.one.value) == 0 || 0 < SpecOf(p).limit <= Cut(p.one.value)
    ensures MeansAlways(p)
  {
    forall db | WellFormed(db) && ZeroFree(db) ensures Means(db, p) {
      var rows, nodes := Select(db, SpecOf(p)), NodesOf(db, p);
      NodesAt(db, p);
      SelectSound(db, SpecOf(p));
      if rows != [] {
        WholeManyMeans(db, p, rows, nodes);
        var m := BatchMany(db, p, nodes).res.value;
        if Cut(p.one.value) == 0 {
          WholeOneMeans(db, p, rows, m);
        } else if SpecOf(p.one.value).offset > 0 {
          LargeOffsetMeans(db, p, rows, m);
        } else {
          LargeLimitMeans(db, p, rows, m);
        }
      }
      MeansByEdges(db, p);
    }
  }

  // ----- when it does -----

  /** Adding one predicate to a builder that has none. */
  lemma {:induction false} SelectsBound(db: DB, q: Plan, column: string, ks: seq<nat>)
    requires q.preds == [] && forall v :: (db.rank)(v) == 0
    ensures Select(db, SpecOf(Bind(q, column, ks))) ==
            Page(SpecOf(q).offset, SpecOf(q).limit, Matching([InValues(column, ks)], (db.rows)(q.entity)))
  {
    SortsNothing(db, q.order, Matching([InValues(column, ks)], (db.rows)(q.entity)));
    assert q.preds + [InValues(column, ks)] == [InValues(column, ks)];
  }

  lemma {:induction false} SelectsUnbound(db: DB, p: Plan)
    requires p.preds == [] && forall v :: (db.rank)(v) == 0
    ensures Select(db, SpecOf(p)) == Page(SpecOf(p).offset, SpecOf(p).limit, (db.rows)(p.entity))
  {
    MatchingAll([], (db.rows)(p.entity));
    SortsNothing(db, p.order, (db.rows)(p.entity));
  }

  lemma {:induction false} CountByKey(edge: Edge, key: nat, kids: seq<Loaded>, rows: seq<Row>)
    requires |kids| == |rows|
    requires forall i :: 0 <= i < |rows| ==>
               Pointer(rows[i], edge.column).Some? && ForeignKey(edge, kids[i].values) == Pointer(rows[i], edge.column)
    ensures |WithForeignKey(edge, key, kids)| == |Matching([InValues(edge.column, [key])], rows)|
  {
    if rows != [] {
      CountByKey(edge, key, kids[1..], rows[1..]);
      var one := [InValues(edge.column, [key])];
      assert SatAll(one, rows[0]) <==> Sat(one[0], rows[0]);
    }
  }

  /** How many children a node is given. */
  lemma {:induction false} AdoptedCount(db: DB, p: Plan, i: nat)
    requires WellFormed(db) && WellTyped(p) && p.many.Some? && i < |Select(db, SpecOf(p))|
    requires BatchMany(db, p, NodesOf(db, p)).res.Success?
    ensures var m := BatchMany(db, p, NodesOf(db, p)).res.value;
            var column := ManyEdge(p.entity).value.column;
            && i < |m|
            && |m[i].many| == |Matching([InValues(column, [IdOf(p.entity, Select(db, SpecOf(p))[i])])],
                                        Select(db, SpecOf(ChildrenOf(p, Ids(NodesOf(db, p))))))|
  {
    var edge := ManyEdge(p.entity).value;
    var nodes := NodesOf(db, p);
    var all := ChildrenOf(p, Ids(nodes));
    var kids := BatchAll(db, all).res.value;
    NodesAt(db, p);
    SelectSound(db, SpecOf(p));
    AdoptAt(edge, nodes, kids);
    IdsAt(nodes[i + 1..]);
    KidsHoldKeys(db, p, Ids(nodes), kids);
    CountByKey(edge, NodeId(nodes[i]), kids, Select(db, SpecOf(all)));
  }

  lemma {:induction false} KidsHoldKeys(db: DB, p: Plan, ids: seq<nat>, kids: seq<Loaded>)
    requires WellFormed(db) && WellTyped(p) && p.many.Some?
    requires BatchAll(db, ChildrenOf(p, ids)).res == Success(kids)
    ensures var edge := ManyEdge(p.entity).value;
            var rows := Select(db, SpecOf(ChildrenOf(p, ids)));
            && |kids| == |rows|
            && forall i :: 0 <= i < |rows| ==>
                 && Pointer(rows[i], edge.column).Some?
                 && ForeignKey(edge, kids[i].values) == Pointer(rows[i], edge.column)
  {
    var edge := ManyEdge(p.entity).value;
    var all := ChildrenOf(p, ids);
    var rows := Select(db, SpecOf(all));
    LoadedHoldRows(db, all);
    SelectSound(db, SpecOf(all));
    KeyedIsSelected(p.many.value, p.entity);
    assert SelectedColumns(all) == SelectedColumns(Keyed(p.many.value, edge));
    forall i | 0 <= i < |rows|
      ensures Pointer(rows[i], edge.column).Some? && ForeignKey(edge, kids[i].values) == Pointer(rows[i], edge.column)
    {
      assert rows[i] in rows;
      BoundRow(Keyed(p.many.value, edge), edge.column, ids, rows[i]);
      SelectedIsRead(SelectedColumns(all), rows[i], edge.column);
    }
  }

  /** The keys of n children of the first parent and one child of the second. */
  function CrowdKeys(n: nat, first: nat): (keys: seq<nat>)
    ensures |keys| == n + 1 && forall i :: 0 <= i <= n ==> keys[i] == if i < n then first else first + 1
  {
    if n == 0 then [first + 1] else [first] + CrowdKeys(n - 1, first)
  }

  /** Rows of the first parent in front of one row of the second: the page of all of them has that row where the page of
      the second parent has not, or the other way round. */
  lemma {:induction false} PageMixes(second: seq<Predicate>, offset: nat, limit: nat, rows: seq<Row>)
    requires offset > 0 || limit > 0
    requires |rows| == 1 + if offset > 0 then offset else limit
    requires forall i :: 0 <= i < |rows| ==> (SatAll(second, rows[i]) <==> i == |rows| - 1)
    ensures |Page(offset, limit, Matching(second, rows))| != |Matching(second, Page(offset, limit, rows))|
  {
    var n := |rows| - 1;
    MatchingOnlyLast(second, rows);
    if offset > 0 {
      assert rows[offset..] == [rows[n]];
      MatchingOnlyLast(second, [rows[n]]);
    } else {
      assert rows[0..] == rows;
      assert [rows[n]][0..] == [rows[n]];
      forall row | row in rows[..n] ensures !SatAll(second, row) {}
      MatchingNone(second, rows[..n]);
    }
  }

  lemma {:induction false} CrowdMatches(column: string, n: nat, first: nat, rows: seq<Row>)
    requires |rows| == n + 1
    requires forall i :: 0 <= i < |rows| ==> Pointer(rows[i], column) == Some(if i < n then first else first + 1)
    ensures Matching([InValues(column, [first, first + 1])], rows) == rows
    ensures forall i :: 0 <= i < |rows| ==> (SatAll([InValues(column, [first + 1])], rows[i]) <==> i == n)
  {
    var both, second := [InValues(column, [first, first + 1])], [InValues(column, [first + 1])];
    forall i | 0 <= i < |rows| ensures SatAll(both, rows[i]) && (SatAll(second, rows[i]) <==> i == n) {
      assert SatAll(second, rows[i]) <==> Sat(second[0], rows[i]);
    }
    MatchingAll(both, rows);
  }

  /** The database on which a limit of the children goes wrong: so many children of one selected parent that they fill
      the page, and then one child of the next. */
  lemma {:induction false} ChildLimitFails(p: Plan)
    requires WellTyped(p) && p.many.Some? && p.preds == [] && p.many.value.preds == []
    requires !Whole(p.many.value) && SpecOf(p).limit != 1
    ensures var db := Family(p.entity, SpecOf(p).offset + 2, CrowdKeys(Cut(p.many.value), SpecOf(p).offset + 1));
            WellFormed(db) && ZeroFree(db) && !Means(db, p)
  {
    var first := SpecOf(p).offset + 1;
    var keys := CrowdKeys(Cut(p.many.value), first);
    FamilyIsOne(p.entity, first + 1, keys);
    CrowdFails(Family(p.entity, first + 1, keys), p, first, keys);
  }

  ghost predicate IsCrowd(db: DB, p: Plan, first: nat, keys: seq<nat>) {
    && WellTyped(p) && p.many.Some? && p.preds == [] && p.many.value.preds == []
    && !Whole(p.many.value) && SpecOf(p).limit != 1
    && first == SpecOf(p).offset + 1 && keys == CrowdKeys(Cut(p.many.value), first)
    && IsFamily(db, p.entity, first + 1, keys)
  }

  lemma {:induction false} CrowdFails(db: DB, p: Plan, first: nat, keys: seq<nat>)
    requires WellFormed(db) && IsCrowd(db, p, first, keys)
    ensures !Means(db, p)
  {
    CrowdParents(db, p, first, keys);
    CrowdChildren(db, p, first, keys);
    if BatchMany(db, p, NodesOf(db, p)).res.Success? {
      AdoptedCount(db, p, 1);
      ViewsAt(db, ChildrenOf(p, [first + 1]), Select(db, SpecOf(ChildrenOf(p, [first + 1]))));
    }
    if Means(db, p) { MeansManyAt(db, p, 1); }
  }

  /** The two selected parents. */
  lemma {:induction false} CrowdParents(db: DB, p: Plan, first: nat, keys: seq<nat>)
    requires IsCrowd(db, p, first, keys)
    ensures var rows := Select(db, SpecOf(p));
            && |rows| == 2 && IdOf(p.entity, rows[0]) == first && IdOf(p.entity, rows[1]) == first + 1
            && Ids(NodesOf(db, p)) == [first, first + 1]
  {
    SelectsUnbound(db, p);
    PageSuffix(SpecOf(p).offset, SpecOf(p).limit, (db.rows)(p.entity), 2);
    TwoIds(db, p, first);
  }

  lemma {:induction false} PageSuffix(offset: nat, limit: nat, rows: seq<Row>, n: nat)
    requires |rows| == offset + n && (limit == 0 || limit >= n)
    ensures Page(offset, limit, rows) == rows[offset..]
  {
  }

  lemma {:induction false} TwoIds(db: DB, p: Plan, first: nat)
    requires WellTyped(p)
    requires var rows := Select(db, SpecOf(p));
             |rows| == 2 && IdOf(p.entity, rows[0]) == first && IdOf(p.entity, rows[1]) == first + 1
    ensures Ids(NodesOf(db, p)) == [first, first + 1]
  {
    NodesAt(db, p);
    IdsAt(NodesOf(db, p));
  }

  /** What is selected for both of them, and for the second. */
  lemma {:induction false} CrowdChildren(db: DB, p: Plan, first: nat, keys: seq<nat>)
    requires IsCrowd(db, p, first, keys)
    ensures |Select(db, SpecOf(ChildrenOf(p, [first + 1])))| !=
            |Matching([InValues(ManyEdge(p.entity).value.column, [first + 1])],
                      Select(db, SpecOf(ChildrenOf(p, [first, first + 1]))))|
  {
    var column := ManyEdge(p.entity).value.column;
    var child := Keyed(p.many.value, ManyEdge(p.entity).value);
    var rows := (db.rows)(child.entity);
    SelectsBound(db, child, column, [first, first + 1]);
    SelectsBound(db, child, column, [first + 1]);
    CrowdMatches(column, Cut(p.many.value), first, rows);
    PageMixes([InValues(column, [first + 1])], SpecOf(child).offset, SpecOf(child).limit, rows);
  }

  /** A limit and an offset of the builder of the children hold for the one query that loads the children of all nodes,
      not for each node. So a load computes its meaning on every database if and only if that builder has neither, or
      the load can only ever have one node. */
  lemma {:induction false} ChildLimitIff(p: Plan)
    requires WellTyped(p) && AllPrepared(p) && OtherwiseWhole(p) && p.many.Some?
    requires p.one.Some? ==> Whole(p.one.value)
    requires p.preds == [] && p.many.value.preds == []
    ensures MeansAlways(p) <==> Whole(p.many.value) || SpecOf(p).limit == 1
  {
    if Whole(p.many.value) || SpecOf(p).limit == 1 {
      ChildLimitHolds(p);
    } else {
      ChildLimitFails(p);
    }
  }

  /** The keys of some children that are skipped, and then of one child for each of n + 1 parents. */
  function LineKeys(skipped: nat, n: nat): (keys: seq<nat>)
    ensures |keys| == skipped + n + 1
    ensures forall i :: skipped <= i < |keys| ==> keys[i] == i - skipped + 1
  {
    if skipped > 0 then [1] + LineKeys(skipped - 1, n)
    else if n == 0 then [1] else LineKeys(0, n - 1) + [n + 1]
  }

  /** The database on which a limit of the parents goes wrong: more parents than fit the page, with a child each. */
  lemma {:induction false} ParentLimitFails(p: Plan)
    requires WellTyped(p) && p.one.Some? && p.preds == [] && p.one.value.preds == []
    requires Cut(p.one.value) > 0 && (SpecOf(p).limit == 0 || SpecOf(p).limit > Cut(p.one.value))
    ensures ManyEdge(p.one.value.entity).Some?
    ensures var n := Cut(p.one.value);
            var db := Family(p.one.value.entity, n + 1, LineKeys(SpecOf(p).offset, n));
            WellFormed(db) && ZeroFree(db) && !Means(db, p)
  {
    EdgesAreInverse(p.entity);
    var n := Cut(p.one.value);
    var keys := LineKeys(SpecOf(p).offset, n);
    FamilyIsOne(p.one.value.entity, n + 1, keys);
    LineFails(Family(p.one.value.entity, n + 1, keys), p, n);
  }

  ghost predicate IsLine(db: DB, p: Plan, n: nat) {
    && WellTyped(p) && p.one.Some? && p.preds == [] && p.one.value.preds == []
    && n == Cut(p.one.value) > 0 && (SpecOf(p).limit == 0 || SpecOf(p).limit > n)
    && ManyEdge(p.one.value.entity) == Some(OneEdge(p.entity).value.(target := p.entity))
    && IsFamily(db, p.one.value.entity, n + 1, LineKeys(SpecOf(p).offset, n))
  }

  lemma {:induction false} LineFails(db: DB, p: Plan, n: nat)
    requires WellFormed(db) && IsLine(db, p, n)
    ensures !Means(db, p)
  {
    LineParent(db, p, n);
    if Means(db, p) {
      MeansOneAt(db, p, n);
      LineJoined(db, p, n);
    }
  }

  /** The parent that the join finds for the last node. */
  lemma {:induction false} LineJoined(db: DB, p: Plan, n: nat)
    requires WellFormed(db) && IsLine(db, p, n) && BatchMany(db, p, NodesOf(db, p)).res.Success?
    ensures var o := BatchOne(db, p, BatchMany(db, p, NodesOf(db, p)).res.value).res;
            o.Success? ==> |o.value| == n + 1 && (o.value[n].one.Some? <==> SpecOf(p.one.value).offset > 0)
  {
    BareHoldRows(db, p);
    ManyKeepsValues(db, p, NodesOf(db, p));
    LineParents(db, p, n, BatchMany(db, p, NodesOf(db, p)).res.value);
  }

  /** The selected nodes: the last of them refers to the last parent. */
  lemma {:induction false} LineNodes(db: DB, p: Plan, n: nat)
    requires IsLine(db, p, n)
    ensures var rows := Select(db, SpecOf(p));
            |rows| == n + 1 &&
            forall i :: 0 <= i < |rows| ==> Pointer(rows[i], OneEdge(p.entity).value.column) == Some(i + 1)
  {
    SelectsUnbound(db, p);
    PageSuffix(SpecOf(p).offset, SpecOf(p).limit, (db.rows)(p.entity), n + 1);
  }

  /** The parent that is found for the last node alone. */
  lemma {:induction false} LineParent(db: DB, p: Plan, n: nat)
    requires IsLine(db, p, n)
    ensures |Select(db, SpecOf(p))| == n + 1 &&
            (ViewOne(db, p, Select(db, SpecOf(p))[n]).Some? <==> SpecOf(p.one.value).offset == 0)
  {
    var q := p.one.value;
    var mine := ParentsOf(p, [n + 1]);
    LineNodes(db, p, n);
    SelectsBound(db, q, IdColumn(q.entity), [n + 1]);
    LastParent(IdColumn(q.entity), n, (db.rows)(q.entity));
    ViewsAt(db, mine, Select(db, SpecOf(mine)));
  }

  lemma {:induction false} LastParent(column: string, n: nat, rows: seq<Row>)
    requires |rows| == n + 1 && forall i :: 0 <= i < |rows| ==> Pointer(rows[i], column) == Some(i + 1)
    ensures Matching([InValues(column, [n + 1])], rows) == [rows[n]]
  {
    var last := [InValues(column, [n + 1])];
    forall i | 0 <= i < |rows| ensures SatAll(last, rows[i]) <==> i == n {
      assert SatAll(last, rows[i]) <==> Sat(last[0], rows[i]);
    }
    MatchingOnlyLast(last, rows);
  }

  /** The parent that is found for the last node among the parents of all nodes. */
  lemma {:induction false} LineParents(db: DB, p: Plan, n: nat, nodes: seq<Loaded>)
    requires WellFormed(db) && IsLine(db, p, n) && HoldRows(db, p, nodes)
    ensures var o := BatchOne(db, p, nodes).res;
            o.Success? ==> |o.value| == n + 1 && (o.value[n].one.Some? <==> SpecOf(p.one.value).offset > 0)
  {
    var edge := OneEdge(p.entity).value;
    LineNodes(db, p, n);
    LineKeysAsked(db, p, n, nodes);
    var keys := Keys(edge, nodes);
    LineSelected(db, p, n, keys);
    if BatchOne(db, p, nodes).res.Success? {
      var all := ParentsOf(p, keys);
      var parents := BatchAll(db, all).res.value;
      LoadedHoldRows(db, all);
      AttachParentsAt(edge, nodes, parents);
      LastOfRows(db, all, n + 1, parents);
    }
  }

  /** The keys of the nodes are all that are asked for. */
  lemma {:induction false} LineKeysAsked(db: DB, p: Plan, n: nat, nodes: seq<Loaded>)
    requires WellTyped(p) && p.one.Some? && HoldRows(db, p, nodes) && |nodes| == n + 1
    requires var rows := Select(db, SpecOf(p));
             forall i :: 0 <= i < |rows| ==> Pointer(rows[i], OneEdge(p.entity).value.column) == Some(i + 1)
    ensures forall k :: 1 <= k <= n + 1 ==> k in Keys(OneEdge(p.entity).value, nodes)
    ensures ForeignKey(OneEdge(p.entity).value, nodes[n].values) == Some(n + 1)
  {
    var edge := OneEdge(p.entity).value;
    var rows := Select(db, SpecOf(p));
    KeysOfRows(p, rows, nodes);
    forall k | 1 <= k <= n + 1 ensures k in Keys(edge, nodes) {
      assert ForeignKey(edge, rows[k - 1]) == Some(k);
    }
  }

  /** Looking up an identifier among nodes that hold rows. */
  lemma {:induction false} LastOfRows(db: DB, p: Plan, id: nat, nodes: seq<Loaded>)
    requires WellTyped(p) && HoldRows(db, p, nodes)
    ensures var rows := Select(db, SpecOf(p));
            LastWithId(id, nodes).Some? <==> exists i :: 0 <= i < |rows| && IdOf(p.entity, rows[i]) == id
  {
    var rows := Select(db, SpecOf(p));
    LastWithIdFinds(id, nodes);
    KeysAreSelected(p);
    forall i | 0 <= i < |nodes| ensures NodeId(nodes[i]) == IdOf(p.entity, rows[i]) {
      SelectedIsRead(SelectedColumns(p), rows[i], IdColumn(p.entity));
    }
  }

  /** The parents that are selected for all nodes: without the last one, or the last one alone. */
  lemma {:induction false} LineSelected(db: DB, p: Plan, n: nat, keys: seq<nat>)
    requires IsLine(db, p, n) && forall k :: 1 <= k <= n + 1 ==> k in keys
    ensures var q := p.one.value;
            var rows := Select(db, SpecOf(ParentsOf(p, keys)));
            if SpecOf(q).offset > 0 then |rows| == 1 && IdOf(q.entity, rows[0]) == n + 1
            else forall i :: 0 <= i < |rows| ==> IdOf(q.entity, rows[i]) != n + 1
  {
    var q := p.one.value;
    var table := (db.rows)(q.entity);
    SelectsBound(db, q, IdColumn(q.entity), keys);
    forall i | 0 <= i < |table| ensures SatAll([InValues(IdColumn(q.entity), keys)], table[i]) {
      assert Pointer(table[i], IdColumn(q.entity)) == Some(i + 1);
    }
    MatchingAll([InValues(IdColumn(q.entity), keys)], table);
  }

  /** For the builder of the parents: a load computes its meaning on every database if and only if that builder has
      neither a limit nor an offset, or the load can only ever have as many nodes as fit the limit, or the offset. */
  lemma {:induction false} ParentLimitIff(p: Plan)
    requires WellTyped(p) && AllPrepared(p) && OtherwiseWhole(p) && p.one.Some?
    requires p.many.Some? ==> Whole(p.many.value)
    requires p.preds == [] && p.one.value.preds == []
    ensures MeansAlways(p) <==> Cut(p.one.value) == 0 || 0 < SpecOf(p).limit <= Cut(p.one.value)
  {
    if Cut(p.one.value) == 0 || 0 < SpecOf(p).limit <= Cut(p.one.value) {
      ParentLimitHolds(p);
    } else {
      ParentLimitFails(p);
    }
  }
}
