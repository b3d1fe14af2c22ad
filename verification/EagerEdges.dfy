/**
What the loaded edges say about the database: the two directions of an edge agree; and what a limit on the root builder
and a zero identifier do.
*/
module EagerEdges {
  import opened Schema
  import opened Store
  import opened Plans
  import opened Eager
  import opened EagerAgrees
  import opened Wrappers

  // ----- the two directions of an edge -----

  ghost predicate Unfiltered(p: Plan) {
    p.preds == [] && Whole(p)
  }

  /** Without paging, the selected rows are the rows of the table that satisfy the predicates. */
  lemma {:induction false} SelectComplete(db: DB, spec: QuerySpec, row: Row)
    requires spec.limit == 0 && spec.offset == 0
    ensures row in Select(db, spec) <==> row in (db.rows)(spec.entity) && SatAll(spec.preds, row)
  {
    var kept := Matching(spec.preds, (db.rows)(spec.entity));
    SortIn(db, spec.order, kept, row);
    MatchingIn(spec.preds, (db.rows)(spec.entity), row);
  }

  lemma {:induction false} BoundSelection(db: DB, p: Plan, column: string, key: nat, row: Row)
    requires Unfiltered(p)
    ensures row in Select(db, SpecOf(Bind(p, column, [key]))) <==>
            row in (db.rows)(p.entity) && Pointer(row, column) == Some(key)
  {
    var bound := Bind(p, column, [key]);
    SelectComplete(db, SpecOf(bound), row);
    assert SatAll(bound.preds, row) <==> Sat(bound.preds[0], row);
  }

  /** A child is loaded under a parent row exactly when its foreign key is the identifier of the row. */
  lemma {:induction false} ChildIffKey(db: DB, p: Plan, row: Row, kid: Row)
    requires WellFormed(db) && WellTyped(p) && p.many.Some? && Unfiltered(p.many.value)
    requires kid in (db.rows)(p.many.value.entity)
    ensures IdOf(p.many.value.entity, kid) in Ids(ViewMany(db, p, row)) <==>
            Pointer(kid, ManyEdge(p.entity).value.column) == Some(IdOf(p.entity, row))
  {
    var edge := ManyEdge(p.entity).value;
    var id := IdOf(p.entity, row);
    var child := Keyed(p.many.value, edge);
    var mine := ChildrenOf(p, [id]);
    var rows := Select(db, SpecOf(mine));
    var table := (db.rows)(mine.entity);
    ViewIds(db, mine, rows);
    IdsAt(Views(db, mine, rows));
    BoundSelection(db, child, edge.column, id, kid);
    if IdOf(mine.entity, kid) in Ids(Views(db, mine, rows)) {
      var i :| 0 <= i < |rows| && IdOf(mine.entity, rows[i]) == IdOf(mine.entity, kid);
      BoundSelection(db, child, edge.column, id, rows[i]);
      assert rows[i] in rows;
      SameIdSameRow(mine.entity, table, rows[i], kid);
    }
    if kid in rows {
      var i :| 0 <= i < |rows| && rows[i] == kid;
      assert Ids(Views(db, mine, rows))[i] == IdOf(mine.entity, kid);
    }
  }

  lemma {:induction false} SameIdSameRow(e: Entity, table: seq<Row>, a: Row, b: Row)
    requires DistinctIds(e, table) && a in table && b in table && IdOf(e, a) == IdOf(e, b)
    ensures a == b
  {
    var i :| 0 <= i < |table| && table[i] == a;
    var j :| 0 <= j < |table| && table[j] == b;
    if i < j { assert false; } else if j < i { assert false; }
  }

  /** The parent loaded for a row is the one whose identifier is the row's foreign key, if there is one. */
  lemma {:induction false} ParentIffKey(db: DB, p: Plan, row: Row, parent: Row)
    requires WellFormed(db) && WellTyped(p) && p.one.Some? && Unfiltered(p.one.value)
    requires parent in (db.rows)(p.one.value.entity)
    ensures var one := ViewOne(db, p, row);
            (one.Some? && NodeId(one.value) == IdOf(p.one.value.entity, parent)) <==>
            Pointer(row, OneEdge(p.entity).value.column) == Some(IdOf(p.one.value.entity, parent))
  {
    if Pointer(row, OneEdge(p.entity).value.column).Some? {
      var key := Pointer(row, OneEdge(p.entity).value.column).value;
      var mine := ParentsOf(p, [key]);
      var rows := Select(db, SpecOf(mine));
      FoundById(db, p.one.value, key, rows, parent);
      if rows != [] { ViewIds(db, mine, rows); }
    }
  }

  lemma {:induction false} FoundById(db: DB, p: Plan, key: nat, rows: seq<Row>, row: Row)
    requires WellFormed(db) && Unfiltered(p) && row in (db.rows)(p.entity)
    requires rows == Select(db, SpecOf(Bind(p, IdColumn(p.entity), [key])))
    ensures rows != [] ==> IdOf(p.entity, rows[0]) == key
    ensures IdOf(p.entity, row) == key ==> rows != []
  {
    if rows != [] {
      assert rows[0] in rows;
      BoundSelection(db, p, IdColumn(p.entity), key, rows[0]);
    }
    BoundSelection(db, p, IdColumn(p.entity), key, row);
    var i :| 0 <= i < |(db.rows)(p.entity)| && (db.rows)(p.entity)[i] == row;
    assert WellFormedRow(p.entity, row);
  }

  /** Forward and inverse edges agree: when `f` loads children and `b` loads parents, both without filters, a node of
      `b` is among the children of a node of `f` exactly when that node is the parent that `b` loaded for it. */
  lemma {:induction false} EdgesAgree(db: DB, f: Plan, b: Plan, i: nat, j: nat)
    requires WellFormed(db) && ZeroFree(db)
    requires WellTyped(f) && WholeBelow(f) && f.many.Some? && Unfiltered(f.many.value)
    requires WellTyped(b) && WholeBelow(b) && b.one.Some? && Unfiltered(b.one.value)
    requires b.entity == ManyEdge(f.entity).value.target
    requires BatchAll(db, f).res.Success? && i < |BatchAll(db, f).res.value|
    requires BatchAll(db, b).res.Success? && j < |BatchAll(db, b).res.value|
    ensures var parent, child := BatchAll(db, f).res.value[i], BatchAll(db, b).res.value[j];
            NodeId(child) in Ids(parent.many) <==> child.one.Some? && NodeId(child.one.value) == NodeId(parent)
  {
    Agree(db, f);
    Agree(db, b);
    EdgesAreInverse(f.entity);
    var fRows, bRows := Select(db, SpecOf(f)), Select(db, SpecOf(b));
    ViewIds(db, f, fRows);
    ViewIds(db, b, bRows);
    ViewsAt(db, f, fRows);
    ViewsAt(db, b, bRows);
    SelectSound(db, SpecOf(f));
    SelectSound(db, SpecOf(b));
    assert fRows[i] in fRows && bRows[j] in bRows;
    ChildIffKey(db, f, fRows[i], bRows[j]);
    ParentIffKey(db, b, bRows[j], fRows[i]);
  }

  /** Following an edge to the children and back, in one load, returns to the node it started from. */
  lemma {:induction false} ThereAndBack(db: DB, p: Plan, i: nat, j: nat)
    requires WellFormed(db) && ZeroFree(db) && WellTyped(p) && WholeBelow(p)
    requires p.many.Some? && p.many.value.one.Some? && Unfiltered(p.many.value.one.value)
    requires BatchAll(db, p).res.Success? && i < |BatchAll(db, p).res.value|
    requires j < |BatchAll(db, p).res.value[i].many|
    ensures var parent := BatchAll(db, p).res.value[i];
            parent.many[j].one.Some? && NodeId(parent.many[j].one.value) == NodeId(parent)
  {
    Agree(db, p);
    EdgesAreInverse(p.entity);
    var rows := Select(db, SpecOf(p));
    ViewsAt(db, p, rows);
    ViewIds(db, p, rows);
    SelectSound(db, SpecOf(p));
    assert rows[i] in rows;
    BackFromChild(db, p, rows[i], j);
  }

  lemma {:induction false} BackFromChild(db: DB, p: Plan, row: Row, j: nat)
    requires WellFormed(db) && WellTyped(p)
    requires p.many.Some? && p.many.value.one.Some? && Unfiltered(p.many.value.one.value)
    requires row in (db.rows)(p.entity) && j < |ViewMany(db, p, row)|
    ensures var one := ViewMany(db, p, row)[j].one;
            one.Some? && NodeId(one.value) == IdOf(p.entity, row)
  {
    EdgesAreInverse(p.entity);
    var edge := ManyEdge(p.entity).value;
    var id := IdOf(p.entity, row);
    var mine := ChildrenOf(p, [id]);
    var rows := Select(db, SpecOf(mine));
    ViewsAt(db, mine, rows);
    SelectSound(db, SpecOf(mine));
    assert rows[j] in rows;
    BoundRow(Keyed(p.many.value, edge), edge.column, [id], rows[j]);
    ParentIffKey(db, mine, rows[j], row);
  }

  // ----- zero identifiers -----

  /** A visible foreign key that is NULL is looked up as the zero value. The node then gets what its own query finds
      exactly when the key is not NULL or no selected parent has the zero identifier. */
  lemma {:induction false} NullFindsZero(db: DB, p: Plan, keys: seq<nat>, row: Row)
    requires WellFormed(db) && WellTyped(p) && WholeBelow(p) && p.one.Some? && !OneEdge(p.entity).value.hidden
    requires Field(row, OneEdge(p.entity).value.column) in keys
    ensures var column := OneEdge(p.entity).value.column;
            var parents := ParentsOf(p, keys);
            var rows := Select(db, SpecOf(parents));
            LastWithId(Field(row, column), Views(db, parents, rows)) == ViewOne(db, p, row) <==>
            Pointer(row, column).Some? || forall r :: r in rows ==> IdOf(parents.entity, r) != 0
  {
    var column := OneEdge(p.entity).value.column;
    var parents := ParentsOf(p, keys);
    var rows := Select(db, SpecOf(parents));
    if Pointer(row, column).Some? {
      ParentNarrow(db, p, keys, Field(row, column));
    } else {
      ViewIds(db, parents, rows);
      LastWithIdFinds(0, Views(db, parents, rows));
      if forall r :: r in rows ==> IdOf(parents.entity, r) != 0 {
        forall i | 0 <= i < |rows| ensures NodeId(Views(db, parents, rows)[i]) != 0 { assert rows[i] in rows; }
      }
    }
  }

  // ----- results of one query -----

  /** The unlimited form of a builder. */
  function Unlimited(p: Plan): Plan { p.(limit := None) }

  lemma {:induction false} LimitTakes(db: DB, p: Plan, n: nat)
    requires n > 0
    ensures var all, some := Select(db, SpecOf(Unlimited(p))), Select(db, SpecOf(p.(limit := Some(n))));
            some == if |all| <= n then all else all[..n]
  {
  }

  lemma {:induction false} ViewsTake(db: DB, p: Plan, rows: seq<Row>, n: nat)
    requires WellTyped(p) && n <= |rows|
    ensures |Views(db, p, rows)| == |rows|
    ensures Views(db, p, rows[..n]) == Views(db, p, rows)[..n]
  {
    ViewsAt(db, p, rows);
    ViewsAt(db, p, rows[..n]);
  }

  /** A limit on the root builder returns the first nodes of the unlimited load, with the same edges. */
  lemma {:induction false} LimitedLoad(db: DB, p: Plan, n: nat)
    requires WellFormed(db) && ZeroFree(db) && WellTyped(p) && WholeBelow(p) && n > 0
    requires BatchAll(db, Unlimited(p)).res.Success?
    ensures var all, some := BatchAll(db, Unlimited(p)).res, BatchAll(db, p.(limit := Some(n))).res;
            some == Success(if |all.value| <= n then all.value else all.value[..n])
  {
    var u, l := Unlimited(p), p.(limit := Some(n));
    var all, some := Select(db, SpecOf(u)), Select(db, SpecOf(l));
    Agree(db, u);
    LimitTakes(db, p, n);
    forall row ensures RowReady(db, l, row) == RowReady(db, u, row) && View(db, l, row) == View(db, u, row) {
      ViewIgnoresLimit(db, u, l, row);
    }
    Agree(db, l);
    ViewsAt(db, u, all);
    ViewsAt(db, u, some);
    ViewsAt(db, l, some);
    assert Views(db, l, some) == Views(db, u, some);
    if |all| > n { ViewsTake(db, u, all, n); }
  }

  lemma {:induction false} ViewIgnoresLimit(db: DB, p: Plan, q: Plan, row: Row)
    requires WellTyped(p) && WellTyped(q) && q == p.(limit := q.limit)
    ensures View(db, p, row) == View(db, q, row) && RowReady(db, p, row) == RowReady(db, q, row)
  {
    SameEdgesSameView(db, p, q, row);
    assert SelectedColumns(p) == SelectedColumns(q);
  }
}
