/**
The batched load computes the per-row meaning: for every database, every tree of builders and every projection.
*/
module EagerAgrees {
  import opened Schema
  import opened Store
  import opened Plans
  import opened Eager
  import opened Wrappers

  /** No entity that is the parent in an edge with a visible foreign key has a row whose identifier is the zero value.
      A NULL in such a key is read as the zero value. */
  ghost predicate ZeroFree(db: DB) {
    forall e: Entity, i ::
      ManyEdge(e).Some? && !ManyEdge(e).value.hidden && 0 <= i < |(db.rows)(e)| ==> IdOf(e, (db.rows)(e)[i]) != 0
  }

  // ----- pointwise readings of the list functions -----

  lemma {:induction false} ViewsAt(db: DB, p: Plan, rows: seq<Row>)
    requires WellTyped(p)
    ensures |Views(db, p, rows)| == |rows|
    ensures forall i :: 0 <= i < |rows| ==> Views(db, p, rows)[i] == View(db, p, rows[i])
  {
    if rows != [] { ViewsAt(db, p, rows[1..]); }
  }

  lemma {:induction false} BareAllAt(p: Plan, rows: seq<Row>)
    ensures |BareAll(p, rows)| == |rows|
    ensures forall i :: 0 <= i < |rows| ==> BareAll(p, rows)[i] == Bare(p, rows[i])
  {
    if rows != [] { BareAllAt(p, rows[1..]); }
  }

  lemma {:induction false} IdsAt(nodes: seq<Loaded>)
    ensures |Ids(nodes)| == |nodes|
    ensures forall i :: 0 <= i < |nodes| ==> Ids(nodes)[i] == NodeId(nodes[i])
  {
    if nodes != [] { IdsAt(nodes[1..]); }
  }

  lemma {:induction false} AdoptAt(edge: Edge, nodes: seq<Loaded>, kids: seq<Loaded>)
    ensures |Adopt(edge, nodes, kids)| == |nodes|
    ensures forall i :: 0 <= i < |nodes| ==>
              Adopt(edge, nodes, kids)[i] ==
              nodes[i].(many := if NodeId(nodes[i]) in Ids(nodes[i + 1..]) then []
                                else WithForeignKey(edge, NodeId(nodes[i]), kids))
  {
    if nodes != [] {
      AdoptAt(edge, nodes[1..], kids);
      forall i | 0 < i < |nodes| ensures nodes[i + 1..] == nodes[1..][i..] {}
    }
  }

  lemma {:induction false} AttachParentsAt(edge: Edge, nodes: seq<Loaded>, parents: seq<Loaded>)
    ensures |AttachParents(edge, nodes, parents)| == |nodes|
    ensures forall i :: 0 <= i < |nodes| ==>
              AttachParents(edge, nodes, parents)[i] ==
              nodes[i].(one := var key := ForeignKey(edge, nodes[i].values);
                               if key.Some? then LastWithId(key.value, parents) else None)
  {
    if nodes != [] { AttachParentsAt(edge, nodes[1..], parents); }
  }

  /** The key list of a many-to-one load is duplicate-free and holds exactly the keys of the nodes. */
  lemma {:induction false} KeysAreTheKeys(edge: Edge, nodes: seq<Loaded>)
    ensures forall k :: k in Keys(edge, nodes) <==>
              exists i :: 0 <= i < |nodes| && ForeignKey(edge, nodes[i].values) == Some(k)
    ensures forall i, j :: 0 <= i < j < |Keys(edge, nodes)| ==> Keys(edge, nodes)[i] != Keys(edge, nodes)[j]
  {
    if nodes != [] {
      var init := nodes[..|nodes| - 1];
      KeysAreTheKeys(edge, init);
      forall k ensures k in Keys(edge, nodes) <==>
                       exists i :: 0 <= i < |nodes| && ForeignKey(edge, nodes[i].values) == Some(k) {
        if k in Keys(edge, nodes) {
          if k in Keys(edge, init) {
            var i :| 0 <= i < |init| && ForeignKey(edge, init[i].values) == Some(k);
            assert ForeignKey(edge, nodes[i].values) == Some(k);
          } else {
            assert ForeignKey(edge, nodes[|nodes| - 1].values) == Some(k);
          }
        }
        if i :| 0 <= i < |nodes| && ForeignKey(edge, nodes[i].values) == Some(k) {
          if i < |init| { assert ForeignKey(edge, init[i].values) == Some(k); }
        }
      }
    }
  }

  lemma {:induction false} StrayChildNone(edge: Edge, ids: seq<nat>, kids: seq<Loaded>)
    ensures StrayChild(edge, ids, kids).None? <==>
            forall i :: 0 <= i < |kids| ==>
              ForeignKey(edge, kids[i].values).Some? && ForeignKey(edge, kids[i].values).value in ids
  {
    if kids != [] { StrayChildNone(edge, ids, kids[1..]); }
  }

  lemma {:induction false} StrayParentNone(edge: Edge, keys: seq<nat>, parents: seq<Loaded>)
    ensures StrayParent(edge, keys, parents).None? <==>
            forall i :: 0 <= i < |parents| ==> NodeId(parents[i]) in keys
  {
    if parents != [] { StrayParentNone(edge, keys, parents[1..]); }
  }

  lemma {:induction false} LastWithIdFinds(id: nat, nodes: seq<Loaded>)
    ensures LastWithId(id, nodes).None? <==> forall i :: 0 <= i < |nodes| ==> NodeId(nodes[i]) != id
    ensures LastWithId(id, nodes).Some? ==>
              exists i :: 0 <= i < |nodes| && NodeId(nodes[i]) == id && LastWithId(id, nodes).value == nodes[i]
  {
    if nodes != [] {
      LastWithIdFinds(id, nodes[..|nodes| - 1]);
      assert nodes[..|nodes| - 1] + [nodes[|nodes| - 1]] == nodes;
    }
  }

  // ----- what a view depends on -----

  /** The view of a row does not depend on the predicates of its own builder. */
  lemma {:induction false} ViewsIgnorePreds(db: DB, p: Plan, q: Plan, rows: seq<Row>)
    requires WellTyped(p) && WellTyped(q) && q == p.(preds := q.preds)
    ensures Views(db, p, rows) == Views(db, q, rows)
  {
    ViewsAt(db, p, rows);
    ViewsAt(db, q, rows);
    forall i | 0 <= i < |rows| ensures View(db, p, rows[i]) == View(db, q, rows[i]) {
      ViewIgnoresPreds(db, p, q, rows[i]);
    }
  }

  lemma {:induction false} ViewIgnoresPreds(db: DB, p: Plan, q: Plan, row: Row)
    requires WellTyped(p) && WellTyped(q) && q == p.(preds := q.preds)
    ensures View(db, p, row) == View(db, q, row)
    ensures RowReady(db, p, row) == RowReady(db, q, row)
  {
    SameEdgesSameView(db, p, q, row);
    assert SelectedColumns(p) == SelectedColumns(q);
  }

  /** The edges of a row depend on nothing but the builders of the edges. */
  lemma {:induction false} SameEdgesSameView(db: DB, p: Plan, q: Plan, row: Row)
    requires WellTyped(p) && WellTyped(q) && q.entity == p.entity && q.many == p.many && q.one == p.one
    ensures ViewMany(db, p, row) == ViewMany(db, q, row) && ViewOne(db, p, row) == ViewOne(db, q, row)
    ensures RowReady(db, p, row) == RowReady(db, q, row)
  {
    assert p.many.Some? ==> ChildrenOf(p, [IdOf(p.entity, row)]) == ChildrenOf(q, [IdOf(p.entity, row)]);
  }

  // ----- one query for many keys, narrowed to one key -----

  /** Asking for one key is filtering the answer for a list of keys that contains it. */
  lemma {:induction false} BindNarrows(db: DB, p: Plan, column: string, keys: seq<nat>, narrow: seq<nat>)
    requires Whole(p)
    requires forall k :: k in narrow ==> k in keys
    ensures Select(db, SpecOf(Bind(p, column, narrow))) ==
            Matching([InValues(column, narrow)], Select(db, SpecOf(Bind(p, column, keys))))
  {
    var wide, one := [InValues(column, keys)], [InValues(column, narrow)];
    SelectMore(db, SpecOf(p), wide);
    SelectMore(db, SpecOf(p), one);
    assert SpecOf(Bind(p, column, keys)) == SpecOf(p).(preds := p.preds + wide);
    assert SpecOf(Bind(p, column, narrow)) == SpecOf(p).(preds := p.preds + one);
    var rows := Select(db, SpecOf(p));
    MatchingTwice(wide, one, rows);
    forall row ensures SatAll(wide + one, row) <==> SatAll(one, row) {
      SatAllConcat(wide, one, row);
      assert SatAll(one, row) ==> Sat(one[0], row);
    }
    MatchingAgrees(wide + one, one, rows);
  }

  /** The query for some of the keys is ready exactly when the rows it selects are. */
  lemma {:induction false} ReadyNarrows(db: DB, p: Plan, column: string, keys: seq<nat>, narrow: seq<nat>)
    requires WellTyped(p) && Whole(p)
    requires forall k :: k in narrow ==> k in keys
    ensures Ready(db, Bind(p, column, narrow)) <==>
            && PrepareError(p).None?
            && forall r :: r in Select(db, SpecOf(Bind(p, column, keys))) && Sat(InValues(column, narrow), r) ==>
                 RowReady(db, p, r)
  {
    var mine := Bind(p, column, narrow);
    var rows := Select(db, SpecOf(Bind(p, column, keys)));
    var one := [InValues(column, narrow)];
    BindNarrows(db, p, column, keys, narrow);
    forall r ensures r in Select(db, SpecOf(mine)) <==> r in rows && Sat(InValues(column, narrow), r) {
      MatchingIn(one, rows, r);
      assert SatAll(one, r) <==> Sat(one[0], r);
    }
    forall r ensures RowReady(db, p, r) == RowReady(db, mine, r) { ViewIgnoresPreds(db, p, mine, r); }
  }

  lemma {:induction false} BoundRow(p: Plan, column: string, keys: seq<nat>, row: Row)
    requires SatAll(Bind(p, column, keys).preds, row)
    ensures Pointer(row, column).Some? && Pointer(row, column).value in keys
  {
    SatAllConcat(p.preds, [InValues(column, keys)], row);
    assert Sat([InValues(column, keys)][0], row);
  }

  // ----- the one-to-many join -----

  /** The nodes are the images of the rows under a view. */
  ghost predicate Images(nodes: seq<Loaded>, rows: seq<Row>, view: Row -> Loaded) {
    |nodes| == |rows| && forall i :: 0 <= i < |rows| ==> nodes[i] == view(rows[i])
  }

  lemma {:induction false} ViewsAreImages(db: DB, p: Plan, rows: seq<Row>, view: Row -> Loaded, nodes: seq<Loaded>)
    requires WellTyped(p) && forall row :: view(row) == View(db, p, row)
    ensures nodes == Views(db, p, rows) <==> Images(nodes, rows, view)
  {
    ViewsAt(db, p, rows);
  }

  /** Distributing the images of rows by foreign key is filtering the rows by foreign key. */
  lemma {:induction false} JoinByForeignKey(
    edge: Edge, key: nat, kids: seq<Loaded>, rows: seq<Row>, view: Row -> Loaded)
    requires Images(kids, rows, view)
    requires forall i :: 0 <= i < |rows| ==>
               Pointer(rows[i], edge.column).Some? && ForeignKey(edge, kids[i].values) == Pointer(rows[i], edge.column)
    ensures Images(WithForeignKey(edge, key, kids), Matching([InValues(edge.column, [key])], rows), view)
  {
    if rows != [] {
      JoinByForeignKey(edge, key, kids[1..], rows[1..], view);
      var one := [InValues(edge.column, [key])];
      assert SatAll(one, rows[0]) <==> Sat(one[0], rows[0]);
    }
  }

  /** Looking an identifier up among the images of rows is filtering the rows by identifier. */
  lemma {:induction false} JoinById(e: Entity, key: nat, parents: seq<Loaded>, rows: seq<Row>, view: Row -> Loaded)
    requires Images(parents, rows, view) && DistinctIds(e, rows)
    requires forall i :: 0 <= i < |rows| ==>
               Pointer(rows[i], IdColumn(e)).Some? && NodeId(parents[i]) == IdOf(e, rows[i])
    ensures var found := Matching([InValues(IdColumn(e), [key])], rows);
            LastWithId(key, parents) == if found == [] then None else Some(view(found[0]))
  {
    var one := [InValues(IdColumn(e), [key])];
    var found := Matching(one, rows);
    LastWithIdFinds(key, parents);
    if found != [] {
      MatchingIn(one, rows, found[0]);
      assert Sat(one[0], found[0]);
      var i :| 0 <= i < |rows| && rows[i] == found[0];
      assert NodeId(parents[i]) == key;
    } else {
      forall i | 0 <= i < |rows| ensures NodeId(parents[i]) != key {
        MatchingIn(one, rows, rows[i]);
        assert !SatAll(one, rows[i]);
      }
    }
  }

  lemma {:induction false} ProjectedNodes(p: Plan, rows: seq<Row>)
    requires WellTyped(p)
    ensures var nodes := BareAll(p, ProjectAll(SelectedColumns(p), rows));
            && |nodes| == |rows|
            && forall i :: 0 <= i < |rows| ==>
                 && nodes[i] == Bare(p, Project(SelectedColumns(p), rows[i]))
                 && NodeId(nodes[i]) == IdOf(p.entity, rows[i])
  {
    ProjectAllAt(SelectedColumns(p), rows);
    BareAllAt(p, ProjectAll(SelectedColumns(p), rows));
    KeysAreSelected(p);
    forall i | 0 <= i < |rows|
      ensures IdOf(p.entity, Project(SelectedColumns(p), rows[i])) == IdOf(p.entity, rows[i])
    {
      SelectedIsRead(SelectedColumns(p), rows[i], IdColumn(p.entity));
    }
  }

  /** The children query of one row, as a part of the children query of all rows. */
  lemma {:induction false} ChildrenNarrow(db: DB, p: Plan, ids: seq<nat>, id: nat)
    requires WellFormed(db) && WellTyped(p) && WholeBelow(p) && p.many.Some? && id in ids
    ensures var all, mine := ChildrenOf(p, ids), ChildrenOf(p, [id]);
            var edge := ManyEdge(p.entity).value;
            var rows := Select(db, SpecOf(all));
            && Select(db, SpecOf(mine)) == Matching([InValues(edge.column, [id])], rows)
            && WithForeignKey(edge, id, Views(db, all, rows)) == Views(db, mine, Select(db, SpecOf(mine)))
  {
    var all, mine := ChildrenOf(p, ids), ChildrenOf(p, [id]);
    var edge := ManyEdge(p.entity).value;
    var child := Keyed(p.many.value, edge);
    var rows := Select(db, SpecOf(all));
    BindNarrows(db, child, edge.column, ids, [id]);
    SelectSound(db, SpecOf(all));
    forall i | 0 <= i < |rows| ensures Pointer(rows[i], edge.column).Some? {
      assert rows[i] in rows;
      BoundRow(child, edge.column, ids, rows[i]);
    }
    KeyedIsSelected(p.many.value, p.entity);
    assert SelectedColumns(all) == SelectedColumns(child);
    var view := (row: Row) => View(db, all, row);
    var kids := Views(db, all, rows);
    ViewsAreImages(db, all, rows, view, kids);
    forall i | 0 <= i < |rows| ensures ForeignKey(edge, kids[i].values) == Pointer(rows[i], edge.column) {
      SelectedIsRead(SelectedColumns(all), rows[i], edge.column);
    }
    JoinByForeignKey(edge, id, kids, rows, view);
    ViewsAreImages(db, all, Select(db, SpecOf(mine)), view, WithForeignKey(edge, id, kids));
    ViewsIgnorePreds(db, all, mine, Select(db, SpecOf(mine)));
  }

  lemma {:induction false} AgreeMany(db: DB, p: Plan, rows: seq<Row>, nodes: seq<Loaded>)
    requires WellFormed(db) && ZeroFree(db) && WellTyped(p) && WholeBelow(p) && p.many.Some?
    requires DistinctIds(p.entity, rows) && rows != []
    requires |nodes| == |rows| && forall i :: 0 <= i < |rows| ==> NodeId(nodes[i]) == IdOf(p.entity, rows[i])
    ensures var out := BatchMany(db, p, nodes);
            && (out.res.Success? <==> forall row :: row in rows ==> ManyReady(db, p, row))
            && (out.res.Success? ==>
                  && |out.res.value| == |rows|
                  && forall i :: 0 <= i < |rows| ==>
                       out.res.value[i] == nodes[i].(many := ViewMany(db, p, rows[i])))
    decreases Height(p), 0
  {
    var ids := Ids(nodes);
    IdsAt(nodes);
    Agree(db, ChildrenOf(p, ids));
    ReadyByRow(db, p, rows, ids);
    var all := ChildrenOf(p, ids);
    ViewsAt(db, all, Select(db, SpecOf(all)));
    NoStrayChild(db, p, ids, Views(db, all, Select(db, SpecOf(all))));
    AdoptAgrees(db, p, rows, nodes);
  }

  /** The nodes hold the selected columns of the rows. */
  ghost predicate HoldRows(db: DB, p: Plan, nodes: seq<Loaded>) {
    var rows := Select(db, SpecOf(p));
    && |nodes| == |rows|
    && forall i :: 0 <= i < |rows| ==>
         nodes[i].entity == p.entity && nodes[i].values == Project(SelectedColumns(p), rows[i])
  }

  /** Every selected child has one of the foreign keys that were asked for. */
  lemma {:induction false} NoStrayChild(db: DB, p: Plan, ids: seq<nat>, kids: seq<Loaded>)
    requires WellFormed(db) && WellTyped(p) && p.many.Some? && HoldRows(db, ChildrenOf(p, ids), kids)
    ensures StrayChild(ManyEdge(p.entity).value, ids, kids).None?
  {
    var edge := ManyEdge(p.entity).value;
    var all := ChildrenOf(p, ids);
    var kidRows := Select(db, SpecOf(all));
    SelectSound(db, SpecOf(all));
    KeyedIsSelected(p.many.value, p.entity);
    assert SelectedColumns(all) == SelectedColumns(Keyed(p.many.value, edge));
    forall i | 0 <= i < |kidRows|
      ensures ForeignKey(edge, kids[i].values).Some? && ForeignKey(edge, kids[i].values).value in ids
    {
      assert kidRows[i] in kidRows;
      BoundRow(Keyed(p.many.value, edge), edge.column, ids, kidRows[i]);
      SelectedIsRead(SelectedColumns(all), kidRows[i], edge.column);
    }
    StrayChildNone(edge, ids, kids);
  }

  /** Every node adopts the children that its own query returns. */
  lemma {:induction false} AdoptAgrees(db: DB, p: Plan, rows: seq<Row>, nodes: seq<Loaded>)
    requires WellFormed(db) && WellTyped(p) && WholeBelow(p) && p.many.Some?
    requires DistinctIds(p.entity, rows)
    requires |nodes| == |rows| && forall i :: 0 <= i < |rows| ==> NodeId(nodes[i]) == IdOf(p.entity, rows[i])
    ensures var all := ChildrenOf(p, Ids(nodes));
            var adopted := Adopt(ManyEdge(p.entity).value, nodes, Views(db, all, Select(db, SpecOf(all))));
            && |adopted| == |rows|
            && forall i :: 0 <= i < |rows| ==> adopted[i] == nodes[i].(many := ViewMany(db, p, rows[i]))
  {
    var all := ChildrenOf(p, Ids(nodes));
    var kids := Views(db, all, Select(db, SpecOf(all)));
    AdoptAt(ManyEdge(p.entity).value, nodes, kids);
    forall i | 0 <= i < |rows|
      ensures Adopt(ManyEdge(p.entity).value, nodes, kids)[i] == nodes[i].(many := ViewMany(db, p, rows[i]))
    {
      AdoptAgreesAt(db, p, rows, nodes, i);
    }
  }

  lemma {:induction false} AdoptAgreesAt(db: DB, p: Plan, rows: seq<Row>, nodes: seq<Loaded>, i: nat)
    requires WellFormed(db) && WellTyped(p) && WholeBelow(p) && p.many.Some?
    requires DistinctIds(p.entity, rows) && i < |rows|
    requires |nodes| == |rows| && forall i :: 0 <= i < |rows| ==> NodeId(nodes[i]) == IdOf(p.entity, rows[i])
    ensures var all := ChildrenOf(p, Ids(nodes));
            var adopted := Adopt(ManyEdge(p.entity).value, nodes, Views(db, all, Select(db, SpecOf(all))));
            |adopted| == |rows| && adopted[i] == nodes[i].(many := ViewMany(db, p, rows[i]))
  {
    var ids := Ids(nodes);
    IdsAt(nodes);
    var all := ChildrenOf(p, ids);
    AdoptAt(ManyEdge(p.entity).value, nodes, Views(db, all, Select(db, SpecOf(all))));
    IdsAt(nodes[i + 1..]);
    assert ids[i] in ids;
    ChildrenNarrow(db, p, ids, ids[i]);
  }

  /** The query for all children is ready exactly when the query for the children of each row is. */
  lemma {:induction false} ReadyByRow(db: DB, p: Plan, rows: seq<Row>, ids: seq<nat>)
    requires WellTyped(p) && WholeBelow(p) && p.many.Some? && rows != []
    requires |ids| == |rows| && forall i :: 0 <= i < |rows| ==> ids[i] == IdOf(p.entity, rows[i])
    ensures Ready(db, ChildrenOf(p, ids)) <==> forall row :: row in rows ==> ManyReady(db, p, row)
  {
    var edge := ManyEdge(p.entity).value;
    var child := Keyed(p.many.value, edge);
    var kidRows := Select(db, SpecOf(Bind(child, edge.column, ids)));
    var ready := (r: Row) => RowReady(db, child, r);
    forall i | 0 <= i < |rows|
      ensures ManyReady(db, p, rows[i]) <==>
              && PrepareError(child).None?
              && forall r :: r in kidRows && Sat(InValues(edge.column, [ids[i]]), r) ==> ready(r)
    {
      ReadyNarrows(db, child, edge.column, ids, [ids[i]]);
    }
    ReadyNarrows(db, child, edge.column, ids, ids);
    assert Ready(db, ChildrenOf(p, ids)) <==>
           && PrepareError(child).None?
           && forall r :: r in kidRows && Sat(InValues(edge.column, ids), r) ==> ready(r);
    ReadySplits(edge.column, ids, kidRows, ready);
    if forall row :: row in rows ==> ManyReady(db, p, row) {
      assert ManyReady(db, p, rows[0]);
    }
  }

  /** A property of the rows that match one of the keys is a property of the rows that match each key. */
  lemma {:induction false} ReadySplits(column: string, keys: seq<nat>, rows: seq<Row>, ready: Row -> bool)
    ensures (forall r :: r in rows && Sat(InValues(column, keys), r) ==> ready(r)) <==>
            forall i :: 0 <= i < |keys| ==>
              forall r :: r in rows && Sat(InValues(column, [keys[i]]), r) ==> ready(r)
  {
    if forall i :: 0 <= i < |keys| ==> forall r :: r in rows && Sat(InValues(column, [keys[i]]), r) ==> ready(r) {
      forall r | r in rows && Sat(InValues(column, keys), r) ensures ready(r) {
        var i :| 0 <= i < |keys| && keys[i] == Pointer(r, column).value;
        assert Sat(InValues(column, [keys[i]]), r);
      }
    }
  }

  // ----- the many-to-one join -----

  /** The parent query of one key, as a part of the parent query of all keys. */
  lemma {:induction false} ParentNarrow(db: DB, p: Plan, keys: seq<nat>, key: nat)
    requires WellFormed(db) && WellTyped(p) && WholeBelow(p) && p.one.Some? && key in keys
    ensures var all, mine := ParentsOf(p, keys), ParentsOf(p, [key]);
            var rows := Select(db, SpecOf(all));
            && Select(db, SpecOf(mine)) == Matching([InValues(IdColumn(all.entity), [key])], rows)
            && LastWithId(key, Views(db, all, rows)) ==
               var found := Views(db, mine, Select(db, SpecOf(mine))); if found == [] then None else Some(found[0])
  {
    var all, mine := ParentsOf(p, keys), ParentsOf(p, [key]);
    ParentRows(db, p, keys, key);
    LookUpById(db, all, key, Select(db, SpecOf(all)));
    var mineRows := Select(db, SpecOf(mine));
    ViewsIgnorePreds(db, all, mine, mineRows);
    ViewsAt(db, all, mineRows);
  }

  lemma {:induction false} ParentRows(db: DB, p: Plan, keys: seq<nat>, key: nat)
    requires WellFormed(db) && WellTyped(p) && WholeBelow(p) && p.one.Some? && key in keys
    ensures var all, mine := ParentsOf(p, keys), ParentsOf(p, [key]);
            var id := IdColumn(all.entity);
            var rows := Select(db, SpecOf(all));
            && Select(db, SpecOf(mine)) == Matching([InValues(id, [key])], rows)
            && DistinctIds(all.entity, rows) && forall i :: 0 <= i < |rows| ==> Pointer(rows[i], id).Some?
  {
    var all := ParentsOf(p, keys);
    var rows := Select(db, SpecOf(all));
    BindNarrows(db, p.one.value, IdColumn(all.entity), keys, [key]);
    RowsHaveIds(db, all);
  }

  lemma {:induction false} RowsHaveIds(db: DB, p: Plan)
    requires WellFormed(db)
    ensures var rows := Select(db, SpecOf(p));
            DistinctIds(p.entity, rows) && forall i :: 0 <= i < |rows| ==> Pointer(rows[i], IdColumn(p.entity)).Some?
  {
    var rows := Select(db, SpecOf(p));
    SelectSound(db, SpecOf(p));
    forall i | 0 <= i < |rows| ensures Pointer(rows[i], IdColumn(p.entity)).Some? { assert rows[i] in rows; }
  }

  /** Looking an identifier up among the views of rows is filtering the rows by identifier. */
  lemma {:induction false} LookUpById(db: DB, p: Plan, key: nat, rows: seq<Row>)
    requires WellTyped(p) && DistinctIds(p.entity, rows)
    requires forall i :: 0 <= i < |rows| ==> Pointer(rows[i], IdColumn(p.entity)).Some?
    ensures var found := Matching([InValues(IdColumn(p.entity), [key])], rows);
            LastWithId(key, Views(db, p, rows)) == if found == [] then None else Some(View(db, p, found[0]))
  {
    var view := (row: Row) => View(db, p, row);
    var parents := Views(db, p, rows);
    ViewsAreImages(db, p, rows, view, parents);
    ViewIds(db, p, rows);
    JoinById(p.entity, key, parents, rows, view);
  }

  lemma {:induction false} ViewIds(db: DB, p: Plan, rows: seq<Row>)
    requires WellTyped(p)
    ensures |Views(db, p, rows)| == |rows|
    ensures forall i :: 0 <= i < |rows| ==> NodeId(Views(db, p, rows)[i]) == IdOf(p.entity, rows[i])
  {
    ViewsAt(db, p, rows);
    KeysAreSelected(p);
    forall i | 0 <= i < |rows| ensures NodeId(Views(db, p, rows)[i]) == IdOf(p.entity, rows[i]) {
      SelectedIsRead(SelectedColumns(p), rows[i], IdColumn(p.entity));
    }
  }

  lemma {:induction false} AgreeOne(db: DB, p: Plan, rows: seq<Row>, nodes: seq<Loaded>)
    requires WellFormed(db) && ZeroFree(db) && WellTyped(p) && WholeBelow(p) && p.one.Some?
    requires forall row :: row in rows ==> WellFormedRow(p.entity, row)
    requires rows != [] && |nodes| == |rows|
    requires forall i :: 0 <= i < |rows| ==>
               nodes[i].values == Project(SelectedColumns(p), rows[i]) && nodes[i].one == None
    ensures var out := BatchOne(db, p, nodes);
            && (out.res.Success? <==> forall row :: row in rows ==> OneReady(db, p, row))
            && (out.res.Success? ==>
                  && |out.res.value| == |rows|
                  && forall i :: 0 <= i < |rows| ==>
                       out.res.value[i] == nodes[i].(one := ViewOne(db, p, rows[i])))
    decreases Height(p), 0
  {
    var edge := OneEdge(p.entity).value;
    var keys := Keys(edge, nodes);
    KeysOfRows(p, rows, nodes);
    if keys == [] {
      forall i | 0 <= i < |rows| ensures ForeignKey(edge, rows[i]).None? {
        assert forall k :: ForeignKey(edge, rows[i]) == Some(k) ==> k in keys;
      }
    } else {
      Agree(db, ParentsOf(p, keys));
      var all := ParentsOf(p, keys);
      ViewsAt(db, all, Select(db, SpecOf(all)));
      NoStrayParent(db, p, keys, Views(db, all, Select(db, SpecOf(all))));
      AttachAgrees(db, p, rows, nodes);
      ReadyByKey(db, p, rows, keys);
    }
  }

  /** The keys that are asked for are the keys of the rows. */
  lemma {:induction false} KeysOfRows(p: Plan, rows: seq<Row>, nodes: seq<Loaded>)
    requires WellTyped(p) && p.one.Some?
    requires |nodes| == |rows|
    requires forall i :: 0 <= i < |rows| ==> nodes[i].values == Project(SelectedColumns(p), rows[i])
    ensures var edge := OneEdge(p.entity).value;
            && (forall i :: 0 <= i < |rows| ==> ForeignKey(edge, nodes[i].values) == ForeignKey(edge, rows[i]))
            && forall k :: k in Keys(edge, nodes) <==>
                 exists i :: 0 <= i < |rows| && ForeignKey(edge, rows[i]) == Some(k)
  {
    var edge := OneEdge(p.entity).value;
    KeysAreSelected(p);
    forall i | 0 <= i < |rows| ensures ForeignKey(edge, nodes[i].values) == ForeignKey(edge, rows[i]) {
      SelectedIsRead(SelectedColumns(p), rows[i], edge.column);
    }
    KeysOfSameKeys(edge, rows, nodes);
  }

  lemma {:induction false} KeysOfSameKeys(edge: Edge, rows: seq<Row>, nodes: seq<Loaded>)
    requires |nodes| == |rows|
    requires forall i :: 0 <= i < |rows| ==> ForeignKey(edge, nodes[i].values) == ForeignKey(edge, rows[i])
    ensures forall k :: k in Keys(edge, nodes) <==>
              exists i :: 0 <= i < |rows| && ForeignKey(edge, rows[i]) == Some(k)
  {
    KeysAreTheKeys(edge, nodes);
    forall k ensures k in Keys(edge, nodes) <==> exists i :: 0 <= i < |rows| && ForeignKey(edge, rows[i]) == Some(k) {
      if i :| 0 <= i < |rows| && ForeignKey(edge, rows[i]) == Some(k) {
        assert ForeignKey(edge, nodes[i].values) == Some(k);
      }
      if k in Keys(edge, nodes) {
        var i :| 0 <= i < |nodes| && ForeignKey(edge, nodes[i].values) == Some(k);
        assert ForeignKey(edge, rows[i]) == Some(k);
      }
    }
  }

  /** Every selected parent has one of the identifiers that were asked for. */
  lemma {:induction false} NoStrayParent(db: DB, p: Plan, keys: seq<nat>, parents: seq<Loaded>)
    requires WellFormed(db) && WellTyped(p) && p.one.Some? && HoldRows(db, ParentsOf(p, keys), parents)
    ensures StrayParent(OneEdge(p.entity).value, keys, parents).None?
  {
    var all := ParentsOf(p, keys);
    var rows := Select(db, SpecOf(all));
    SelectSound(db, SpecOf(all));
    KeysAreSelected(all);
    forall i | 0 <= i < |rows| ensures NodeId(parents[i]) in keys {
      assert rows[i] in rows;
      BoundRow(p.one.value, IdColumn(all.entity), keys, rows[i]);
      SelectedIsRead(SelectedColumns(all), rows[i], IdColumn(all.entity));
    }
    StrayParentNone(OneEdge(p.entity).value, keys, parents);
  }

  /** Every node is attached to the parent that its own query returns. */
  lemma {:induction false} AttachAgrees(db: DB, p: Plan, rows: seq<Row>, nodes: seq<Loaded>)
    requires WellFormed(db) && ZeroFree(db) && WellTyped(p) && WholeBelow(p) && p.one.Some?
    requires forall row :: row in rows ==> WellFormedRow(p.entity, row)
    requires |nodes| == |rows|
    requires forall i :: 0 <= i < |rows| ==> nodes[i].values == Project(SelectedColumns(p), rows[i])
    ensures var edge := OneEdge(p.entity).value;
            var all := ParentsOf(p, Keys(edge, nodes));
            var attached := AttachParents(edge, nodes, Views(db, all, Select(db, SpecOf(all))));
            && |attached| == |rows|
            && forall i :: 0 <= i < |rows| ==> attached[i] == nodes[i].(one := ViewOne(db, p, rows[i]))
  {
    var edge := OneEdge(p.entity).value;
    var keys := Keys(edge, nodes);
    KeysOfRows(p, rows, nodes);
    var all := ParentsOf(p, keys);
    var parents := Views(db, all, Select(db, SpecOf(all)));
    AttachParentsAt(edge, nodes, parents);
    forall i | 0 <= i < |rows|
      ensures AttachParents(edge, nodes, parents)[i] == nodes[i].(one := ViewOne(db, p, rows[i]))
    {
      assert rows[i] in rows;
      ParentOfRow(db, p, keys, rows[i]);
    }
  }

  /** Looking a node's key up among the parents of all nodes finds what its own query finds. */
  lemma {:induction false} ParentOfRow(db: DB, p: Plan, keys: seq<nat>, row: Row)
    requires WellFormed(db) && ZeroFree(db) && WellTyped(p) && WholeBelow(p) && p.one.Some?
    requires WellFormedRow(p.entity, row)
    requires var key := ForeignKey(OneEdge(p.entity).value, row); key.Some? ==> key.value in keys
    ensures var key := ForeignKey(OneEdge(p.entity).value, row);
            var all := ParentsOf(p, keys);
            ViewOne(db, p, row) ==
            if key.Some? then LastWithId(key.value, Views(db, all, Select(db, SpecOf(all)))) else None
  {
    var edge := OneEdge(p.entity).value;
    var key := Pointer(row, edge.column);
    if key.Some? {
      ParentNarrow(db, p, keys, key.value);
    } else if !edge.hidden {
      var all := ParentsOf(p, keys);
      var rows := Select(db, SpecOf(all));
      NoZeroParent(db, p, keys);
      ViewIds(db, all, rows);
      forall i | 0 <= i < |rows| ensures NodeId(Views(db, all, rows)[i]) != 0 { assert rows[i] in rows; }
      LastWithIdFinds(0, Views(db, all, rows));
    }
  }

  lemma {:induction false} NoZeroParent(db: DB, p: Plan, keys: seq<nat>)
    requires WellFormed(db) && ZeroFree(db) && WellTyped(p) && p.one.Some? && !OneEdge(p.entity).value.hidden
    ensures var all := ParentsOf(p, keys);
            forall r :: r in Select(db, SpecOf(all)) ==> IdOf(all.entity, r) != 0
  {
    var all := ParentsOf(p, keys);
    EdgesAreInverse(p.entity);
    SelectSound(db, SpecOf(all));
    forall r | r in Select(db, SpecOf(all)) ensures IdOf(all.entity, r) != 0 {
      var table := (db.rows)(all.entity);
      var j :| 0 <= j < |table| && table[j] == r;
    }
  }

  /** The query for all parents is ready exactly when the query for the parent of each row is. */
  lemma {:induction false} ReadyByKey(db: DB, p: Plan, rows: seq<Row>, keys: seq<nat>)
    requires WellFormed(db) && ZeroFree(db) && WellTyped(p) && WholeBelow(p) && p.one.Some?
    requires forall k :: k in keys <==>
               exists i :: 0 <= i < |rows| && ForeignKey(OneEdge(p.entity).value, rows[i]) == Some(k)
    requires keys != []
    ensures Ready(db, ParentsOf(p, keys)) <==> forall row :: row in rows ==> OneReady(db, p, row)
  {
    var edge := OneEdge(p.entity).value;
    var parent := p.one.value;
    var id := IdColumn(edge.target);
    var parentRows := Select(db, SpecOf(Bind(parent, id, keys)));
    var ready := (r: Row) => RowReady(db, parent, r);
    ReadyNarrows(db, parent, id, keys, keys);
    assert Ready(db, ParentsOf(p, keys)) <==>
           && PrepareError(parent).None?
           && forall r :: r in parentRows && Sat(InValues(id, keys), r) ==> ready(r);
    ReadySplits(id, keys, parentRows, ready);
    forall i | 0 <= i < |rows|
      ensures OneReady(db, p, rows[i]) <==>
              (ForeignKey(edge, rows[i]).Some? ==>
                 && PrepareError(parent).None?
                 && forall r :: r in parentRows && Sat(InValues(id, [ForeignKey(edge, rows[i]).value]), r) ==> ready(r))
    {
      ReadyOfRow(db, p, keys, rows[i]);
    }
    assert keys[0] in keys;
    var j :| 0 <= j < |rows| && ForeignKey(edge, rows[j]) == Some(keys[0]);
    if forall row :: row in rows ==> OneReady(db, p, row) {
      assert OneReady(db, p, rows[j]);
      forall i | 0 <= i < |keys|
        ensures forall r :: r in parentRows && Sat(InValues(id, [keys[i]]), r) ==> ready(r)
      {
        assert keys[i] in keys;
        var k :| 0 <= k < |rows| && ForeignKey(edge, rows[k]) == Some(keys[i]);
        assert OneReady(db, p, rows[k]);
      }
    }
    if Ready(db, ParentsOf(p, keys)) {
      forall row | row in rows ensures OneReady(db, p, row) {
        var i :| 0 <= i < |rows| && rows[i] == row;
        if ForeignKey(edge, row).Some? {
          assert ForeignKey(edge, row).value in keys;
        }
      }
    }
  }

  lemma {:induction false} ReadyOfRow(db: DB, p: Plan, keys: seq<nat>, row: Row)
    requires WellFormed(db) && ZeroFree(db) && WellTyped(p) && WholeBelow(p) && p.one.Some?
    requires var key := ForeignKey(OneEdge(p.entity).value, row); key.Some? ==> key.value in keys
    ensures var edge := OneEdge(p.entity).value;
            var id := IdColumn(edge.target);
            OneReady(db, p, row) <==>
            (ForeignKey(edge, row).Some? ==>
               && PrepareError(p.one.value).None?
               && forall r :: r in Select(db, SpecOf(ParentsOf(p, keys)))
                              && Sat(InValues(id, [ForeignKey(edge, row).value]), r) ==>
                    RowReady(db, p.one.value, r))
  {
    var edge := OneEdge(p.entity).value;
    var id := IdColumn(edge.target);
    var key := Pointer(row, edge.column);
    if key.Some? {
      ReadyNarrows(db, p.one.value, id, keys, [key.value]);
    } else if !edge.hidden {
      ReadyNarrows(db, p.one.value, id, keys, []);
      NoZeroParent(db, p, keys);
    }
  }

  // ----- the theorem -----

  /** The batched load succeeds exactly when every builder it reaches can be prepared, and then it returns what one
      query per row and edge returns, in the same order. In particular no returned row ever has a foreign key that the
      load did not ask for. */
  lemma {:induction false} Agree(db: DB, p: Plan)
    requires WellFormed(db) && ZeroFree(db) && WellTyped(p) && WholeBelow(p)
    ensures BatchAll(db, p).res.Success? <==> Ready(db, p)
    ensures Ready(db, p) ==> BatchAll(db, p).res == Success(Views(db, p, Select(db, SpecOf(p))))
    decreases Height(p), 2
  {
    var rows := Select(db, SpecOf(p));
    var nodes := BareAll(p, ProjectAll(SelectedColumns(p), rows));
    SelectSound(db, SpecOf(p));
    ProjectedNodes(p, rows);
    if PrepareError(p).None? && rows != [] { AgreeEdges(db, p, rows, nodes); }
  }

  lemma {:induction false} AgreeEdges(db: DB, p: Plan, rows: seq<Row>, nodes: seq<Loaded>)
    requires WellFormed(db) && ZeroFree(db) && WellTyped(p) && WholeBelow(p)
    requires rows != [] && DistinctIds(p.entity, rows) && forall row :: row in rows ==> WellFormedRow(p.entity, row)
    requires |nodes| == |rows|
    requires forall i :: 0 <= i < |rows| ==>
               nodes[i] == Bare(p, Project(SelectedColumns(p), rows[i])) && NodeId(nodes[i]) == IdOf(p.entity, rows[i])
    ensures BatchEdges(db, p, nodes).res.Success? <==> forall row :: row in rows ==> RowReady(db, p, row)
    ensures BatchEdges(db, p, nodes).res.Success? ==> BatchEdges(db, p, nodes).res.value == Views(db, p, rows)
    decreases Height(p), 1
  {
    var m := BatchMany(db, p, nodes);
    if p.many.Some? { AgreeMany(db, p, rows, nodes); } else { NoMany(db, p, rows, nodes); }
    if m.res.Success? {
      var o := BatchOne(db, p, m.res.value);
      if p.one.Some? { AgreeOne(db, p, rows, m.res.value); } else { NoOne(db, p, rows, m.res.value); }
      if o.res.Success? { AssembleViews(db, p, rows, nodes, m.res.value, o.res.value); }
    }
  }

  lemma {:induction false} NoMany(db: DB, p: Plan, rows: seq<Row>, nodes: seq<Loaded>)
    requires WellTyped(p) && p.many.None? && |nodes| == |rows| && forall i :: 0 <= i < |rows| ==> nodes[i].many == []
    ensures BatchMany(db, p, nodes).res == Success(nodes)
    ensures forall row :: row in rows ==> ManyReady(db, p, row)
    ensures forall i :: 0 <= i < |rows| ==> nodes[i] == nodes[i].(many := ViewMany(db, p, rows[i]))
  {
  }

  lemma {:induction false} NoOne(db: DB, p: Plan, rows: seq<Row>, nodes: seq<Loaded>)
    requires WellTyped(p) && p.one.None? && |nodes| == |rows| && forall i :: 0 <= i < |rows| ==> nodes[i].one == None
    ensures BatchOne(db, p, nodes).res == Success(nodes)
    ensures forall row :: row in rows ==> OneReady(db, p, row)
    ensures forall i :: 0 <= i < |rows| ==> nodes[i] == nodes[i].(one := ViewOne(db, p, rows[i]))
  {
  }

  /** Nodes with their children and parents are the views of the rows. */
  lemma {:induction false} AssembleViews(
    db: DB, p: Plan, rows: seq<Row>, nodes: seq<Loaded>, withMany: seq<Loaded>, withOne: seq<Loaded>)
    requires WellTyped(p) && |nodes| == |withMany| == |withOne| == |rows|
    requires forall i :: 0 <= i < |rows| ==> nodes[i] == Bare(p, Project(SelectedColumns(p), rows[i]))
    requires forall i :: 0 <= i < |rows| ==> withMany[i] == nodes[i].(many := ViewMany(db, p, rows[i]))
    requires forall i :: 0 <= i < |rows| ==> withOne[i] == withMany[i].(one := ViewOne(db, p, rows[i]))
    ensures withOne == Views(db, p, rows)
  {
    ViewsAt(db, p, rows);
    forall i | 0 <= i < |rows| ensures withOne[i] == View(db, p, rows[i]) {
      assert withOne[i] == nodes[i].(many := ViewMany(db, p, rows[i]), one := ViewOne(db, p, rows[i]));
    }
  }

  /** Loading children changes nothing but the children. */
  lemma {:induction false} ManyKeeps(db: DB, p: Plan, vals: seq<Loaded>)
    requires WellTyped(p) && BatchMany(db, p, vals).res.Success?
    ensures var more := BatchMany(db, p, vals).res.value;
            && |more| == |vals|
            && forall i :: 0 <= i < |vals| ==> more[i] == vals[i].(many := more[i].many)
  {
    if p.many.Some? {
      var kids := BatchAll(db, ChildrenOf(p, Ids(vals))).res.value;
      AdoptAt(ManyEdge(p.entity).value, vals, kids);
    }
  }

  /** Loading parents changes nothing but the parents, and does not look at the builder of the children. */
  lemma {:induction false} OneKeeps(db: DB, p: Plan, q: Plan, vals: seq<Loaded>)
    requires WellTyped(p) && WellTyped(q) && q == p.(many := q.many)
    ensures BatchOne(db, q, vals) == BatchOne(db, p, vals)
    ensures BatchOne(db, p, vals).res.Success? ==>
              var more := BatchOne(db, p, vals).res.value;
              && |more| == |vals|
              && forall i :: 0 <= i < |vals| ==> more[i] == vals[i].(one := more[i].one)
  {
    if p.one.Some? {
      var keys := Keys(OneEdge(p.entity).value, vals);
      if keys != [] && BatchOne(db, p, vals).res.Success? {
        var parents := BatchAll(db, ParentsOf(p, keys)).res.value;
        AttachParentsAt(OneEdge(p.entity).value, vals, parents);
      }
    }
  }

  // ----- errors -----

  predicate OfPreparing(e: Error) {
    e.UninitializedInterceptor? || e.TraverseError? || e.ValidationError?
  }

  lemma {:induction false} PreparingErrors(p: Plan)
    ensures PrepareError(p).Some? ==> OfPreparing(PrepareError(p).value)
  {
    InterceptorErrors(p.inters);
    FieldErrors(p.entity, p.fields);
  }

  lemma {:induction false} InterceptorErrors(inters: seq<Interceptor>)
    ensures InterceptorError(inters).Some? ==> OfPreparing(InterceptorError(inters).value)
  {
    if inters != [] { InterceptorErrors(inters[1..]); }
  }

  lemma {:induction false} FieldErrors(e: Entity, fields: seq<string>)
    ensures FieldError(e, fields).Some? ==> OfPreparing(FieldError(e, fields).value)
  {
    if fields != [] { FieldErrors(e, fields[1..]); }
  }

  ghost predicate SameValues(nodes: seq<Loaded>, loaded: seq<Loaded>) {
    && |nodes| == |loaded|
    && forall i :: 0 <= i < |nodes| ==> loaded[i].entity == nodes[i].entity && loaded[i].values == nodes[i].values
  }

  lemma {:induction false} EdgesKeepValues(edge: Edge, nodes: seq<Loaded>, others: seq<Loaded>)
    ensures SameValues(nodes, Adopt(edge, nodes, others)) && SameValues(nodes, AttachParents(edge, nodes, others))
  {
    AdoptAt(edge, nodes, others);
    AttachParentsAt(edge, nodes, others);
  }

  lemma {:induction false} ManyKeepsValues(db: DB, p: Plan, nodes: seq<Loaded>)
    requires WellTyped(p) && BatchMany(db, p, nodes).res.Success?
    ensures SameValues(nodes, BatchMany(db, p, nodes).res.value)
  {
    if p.many.Some? {
      EdgesKeepValues(ManyEdge(p.entity).value, nodes, BatchAll(db, ChildrenOf(p, Ids(nodes))).res.value);
    }
  }

  lemma {:induction false} OneKeepsValues(db: DB, p: Plan, nodes: seq<Loaded>)
    requires WellTyped(p) && BatchOne(db, p, nodes).res.Success?
    ensures SameValues(nodes, BatchOne(db, p, nodes).res.value)
  {
    if p.one.Some? {
      var edge := OneEdge(p.entity).value;
      var keys := Keys(edge, nodes);
      if keys != [] { EdgesKeepValues(edge, nodes, BatchAll(db, ParentsOf(p, keys)).res.value); }
    }
  }

  /** Loading edges leaves the columns of the nodes alone. */
  lemma {:induction false} LoadedHoldRows(db: DB, p: Plan)
    requires WellTyped(p) && BatchAll(db, p).res.Success?
    ensures HoldRows(db, p, BatchAll(db, p).res.value)
  {
    var rows := Select(db, SpecOf(p));
    var nodes := BareAll(p, ProjectAll(SelectedColumns(p), rows));
    BareHoldRows(db, p);
    if nodes != [] {
      var m := BatchMany(db, p, nodes);
      ManyKeepsValues(db, p, nodes);
      OneKeepsValues(db, p, m.res.value);
    }
  }

  lemma {:induction false} BareHoldRows(db: DB, p: Plan)
    requires WellTyped(p)
    ensures HoldRows(db, p, NodesOf(db, p))
  {
    var rows := Select(db, SpecOf(p));
    ProjectAllAt(SelectedColumns(p), rows);
    BareAllAt(p, ProjectAll(SelectedColumns(p), rows));
  }

  /** The only errors of a load are those of preparing a builder: whatever the tables, the columns, the filters and the
      limits are, no foreign key is ever unexpected or nil. */
  lemma {:induction false} OnlyPreparingFails(db: DB, p: Plan)
    requires WellFormed(db) && WellTyped(p)
    ensures BatchAll(db, p).res.Failure? ==> OfPreparing(BatchAll(db, p).res.error)
    decreases Height(p), 1
  {
    PreparingErrors(p);
    var nodes := NodesOf(db, p);
    var m := BatchMany(db, p, nodes);
    ManyFails(db, p, nodes);
    if m.res.Success? { OneFails(db, p, m.res.value); }
  }

  lemma {:induction false} ManyFails(db: DB, p: Plan, nodes: seq<Loaded>)
    requires WellFormed(db) && WellTyped(p)
    ensures BatchMany(db, p, nodes).res.Failure? ==> OfPreparing(BatchMany(db, p, nodes).res.error)
    decreases Height(p), 0
  {
    if p.many.Some? {
      var all := ChildrenOf(p, Ids(nodes));
      OnlyPreparingFails(db, all);
      if BatchAll(db, all).res.Success? {
        LoadedHoldRows(db, all);
        NoStrayChild(db, p, Ids(nodes), BatchAll(db, all).res.value);
      }
    }
  }

  lemma {:induction false} OneFails(db: DB, p: Plan, nodes: seq<Loaded>)
    requires WellFormed(db) && WellTyped(p)
    ensures BatchOne(db, p, nodes).res.Failure? ==> OfPreparing(BatchOne(db, p, nodes).res.error)
    decreases Height(p), 0
  {
    if p.one.Some? {
      var keys := Keys(OneEdge(p.entity).value, nodes);
      if keys != [] {
        var all := ParentsOf(p, keys);
        OnlyPreparingFails(db, all);
        if BatchAll(db, all).res.Success? {
          LoadedHoldRows(db, all);
          NoStrayParent(db, p, keys, BatchAll(db, all).res.value);
        }
      }
    }
  }
}
