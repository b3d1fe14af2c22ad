/**
Exactly when a load computes its meaning on a database that may hold rows with the zero identifier.
*/
module EagerZero {
  import opened Schema
  import opened Store
  import opened Plans
  import opened Eager
  import opened EagerAgrees
  import opened EagerLimits
  import opened Wrappers

  // ----- the condition -----

  /** The keys of the parents that a load asks for. */
  ghost function AskedKeys(db: DB, p: Plan): seq<nat>
    requires WellTyped(p) && p.one.Some?
  {
    Keys(OneEdge(p.entity).value, NodesOf(db, p))
  }

  /** A node whose visible foreign key is NULL, and a parent with the zero identifier. */
  ghost predicate NullMeetsZero(db: DB, p: Plan)
    requires WellTyped(p) && p.one.Some?
  {
    && !OneEdge(p.entity).value.hidden
    && exists row, parent :: row in Select(db, SpecOf(p)) && Pointer(row, OneEdge(p.entity).value.column).None?
                             && parent in Select(db, SpecOf(p.one.value)) && IdOf(p.one.value.entity, parent) == 0
  }

  /** Every builder that the load reaches can be prepared, and NULL meets zero at none of them. */
  ghost predicate Clear(db: DB, p: Plan)
    requires WellTyped(p)
    decreases Height(p)
  {
    && PrepareError(p).None?
    && (Select(db, SpecOf(p)) != [] ==>
          && (p.many.Some? ==> Clear(db, ChildrenOf(p, Ids(NodesOf(db, p)))))
          && (p.one.Some? ==> !NullMeetsZero(db, p))
          && (p.one.Some? && AskedKeys(db, p) != [] ==> Clear(db, ParentsOf(p, AskedKeys(db, p)))))
  }

  // ----- the children -----

  /** Children with the same keys, distributed to the same lists, are the same. */
  lemma {:induction false} SameGroups(edge: Edge, ids: seq<nat>, kids: seq<Loaded>, others: seq<Loaded>)
    requires |kids| == |others|
    requires forall i :: 0 <= i < |kids| ==>
               var key := ForeignKey(edge, kids[i].values);
               key.Some? && key.value in ids && ForeignKey(edge, others[i].values) == key
    requires forall id :: id in ids ==> WithForeignKey(edge, id, kids) == WithForeignKey(edge, id, others)
    ensures kids == others
    decreases |kids|
  {
    if kids != [] {
      var key := ForeignKey(edge, kids[0].values).value;
      assert WithForeignKey(edge, key, kids)[0] == WithForeignKey(edge, key, others)[0];
      forall id | id in ids ensures WithForeignKey(edge, id, kids[1..]) == WithForeignKey(edge, id, others[1..]) {
        var n := if id == key then 1 else 0;
        assert WithForeignKey(edge, id, kids)[n..] == WithForeignKey(edge, id, kids[1..]);
        assert WithForeignKey(edge, id, others)[n..] == WithForeignKey(edge, id, others[1..]);
      }
      SameGroups(edge, ids, kids[1..], others[1..]);
    }
  }

  /** Every child that a query for children returns has one of the keys that were asked for. */
  lemma {:induction false} KidKeys(db: DB, p: Plan, ids: seq<nat>, kids: seq<Loaded>)
    requires WellFormed(db) && WellTyped(p) && p.many.Some? && HoldRows(db, ChildrenOf(p, ids), kids)
    ensures var edge := ManyEdge(p.entity).value;
            var rows := Select(db, SpecOf(ChildrenOf(p, ids)));
            forall i :: 0 <= i < |kids| ==>
              && ForeignKey(edge, kids[i].values) == Pointer(rows[i], edge.column)
              && Pointer(rows[i], edge.column).Some? && Pointer(rows[i], edge.column).value in ids
  {
    var edge := ManyEdge(p.entity).value;
    var all := ChildrenOf(p, ids);
    var rows := Select(db, SpecOf(all));
    SelectSound(db, SpecOf(all));
    KeyedIsSelected(p.many.value, p.entity);
    assert SelectedColumns(all) == SelectedColumns(Keyed(p.many.value, edge));
    forall i | 0 <= i < |kids|
      ensures ForeignKey(edge, kids[i].values) == Pointer(rows[i], edge.column)
      ensures Pointer(rows[i], edge.column).Some? && Pointer(rows[i], edge.column).value in ids
    {
      assert rows[i] in rows;
      BoundRow(Keyed(p.many.value, edge), edge.column, ids, rows[i]);
      SelectedIsRead(SelectedColumns(all), rows[i], edge.column);
    }
  }

  /** The views of the rows hold the rows. */
  lemma {:induction false} ViewsHoldRows(db: DB, p: Plan)
    requires WellTyped(p)
    ensures HoldRows(db, p, Views(db, p, Select(db, SpecOf(p))))
  {
    ViewsAt(db, p, Select(db, SpecOf(p)));
  }

  ghost predicate Rooted(db: DB, p: Plan, rows: seq<Row>, nodes: seq<Loaded>) {
    && rows == Select(db, SpecOf(p)) != [] && |nodes| == |rows|
    && forall i :: 0 <= i < |rows| ==>
         && nodes[i].values == Project(SelectedColumns(p), rows[i])
         && NodeId(nodes[i]) == IdOf(p.entity, rows[i])
  }

  /** The children mean what they should if and only if the load of all children does. */
  lemma {:induction false} ManyStep(db: DB, p: Plan, rows: seq<Row>, nodes: seq<Loaded>)
    requires WellFormed(db) && WellTyped(p) && WholeBelow(p) && p.many.Some? && Rooted(db, p, rows, nodes)
    ensures ManyMeans(db, p, rows, nodes) <==> Means(db, ChildrenOf(p, Ids(nodes)))
  {
    var all := ChildrenOf(p, Ids(nodes));
    SelectSound(db, SpecOf(p));
    ViewsHoldRows(db, all);
    NoStrayChild(db, p, Ids(nodes), Views(db, all, Select(db, SpecOf(all))));
    AdoptAgrees(db, p, rows, nodes);
    if ManyMeans(db, p, rows, nodes) { ManyMeansAll(db, p, rows, nodes); }
  }

  lemma {:induction false} ManyMeansAll(db: DB, p: Plan, rows: seq<Row>, nodes: seq<Loaded>)
    requires WellFormed(db) && WellTyped(p) && WholeBelow(p) && p.many.Some? && Rooted(db, p, rows, nodes)
    requires DistinctIds(p.entity, rows) && ManyMeans(db, p, rows, nodes)
    ensures Means(db, ChildrenOf(p, Ids(nodes)))
  {
    var edge := ManyEdge(p.entity).value;
    var ids := Ids(nodes);
    var all := ChildrenOf(p, ids);
    var kids, views := BatchAll(db, all).res.value, Views(db, all, Select(db, SpecOf(all)));
    LoadedHoldRows(db, all);
    ViewsHoldRows(db, all);
    KidKeys(db, p, ids, kids);
    KidKeys(db, p, ids, views);
    forall id | id in ids ensures WithForeignKey(edge, id, kids) == WithForeignKey(edge, id, views) {
      SameKids(db, p, rows, nodes, kids, id);
    }
    SameGroups(edge, ids, kids, views);
  }

  lemma {:induction false} SameKids(
    db: DB, p: Plan, rows: seq<Row>, nodes: seq<Loaded>, kids: seq<Loaded>, id: nat)
    requires WellFormed(db) && WellTyped(p) && WholeBelow(p) && p.many.Some? && Rooted(db, p, rows, nodes)
    requires DistinctIds(p.entity, rows) && ManyMeans(db, p, rows, nodes) && id in Ids(nodes)
    requires BatchAll(db, ChildrenOf(p, Ids(nodes))).res == Success(kids)
    ensures var all := ChildrenOf(p, Ids(nodes));
            var edge := ManyEdge(p.entity).value;
            WithForeignKey(edge, id, kids) == WithForeignKey(edge, id, Views(db, all, Select(db, SpecOf(all))))
  {
    IdsAt(nodes);
    var i :| 0 <= i < |nodes| && Ids(nodes)[i] == id;
    KidsOfNode(db, p, rows, nodes, kids, i);
    ChildrenNarrow(db, p, Ids(nodes), id);
  }

  /** What a node adopts is what its row's own query returns. */
  lemma {:induction false} KidsOfNode(
    db: DB, p: Plan, rows: seq<Row>, nodes: seq<Loaded>, kids: seq<Loaded>, i: nat)
    requires WellTyped(p) && p.many.Some? && Rooted(db, p, rows, nodes) && i < |nodes|
    requires DistinctIds(p.entity, rows) && ManyMeans(db, p, rows, nodes)
    requires BatchAll(db, ChildrenOf(p, Ids(nodes))).res == Success(kids)
    ensures WithForeignKey(ManyEdge(p.entity).value, NodeId(nodes[i]), kids) == ViewMany(db, p, rows[i])
  {
    AdoptsOwn(ManyEdge(p.entity).value, nodes, kids, i);
  }

  lemma {:induction false} AdoptsOwn(edge: Edge, nodes: seq<Loaded>, kids: seq<Loaded>, i: nat)
    requires i < |nodes| && forall j, k :: 0 <= j < k < |nodes| ==> NodeId(nodes[j]) != NodeId(nodes[k])
    ensures |Adopt(edge, nodes, kids)| == |nodes|
    ensures Adopt(edge, nodes, kids)[i] == nodes[i].(many := WithForeignKey(edge, NodeId(nodes[i]), kids))
  {
    AdoptAt(edge, nodes, kids);
    IdsAt(nodes[i + 1..]);
  }

  // ----- the parents -----

  lemma {:induction false} ParentsMatch(db: DB, p: Plan, keys: seq<nat>)
    requires WellTyped(p) && p.one.Some? && Whole(p.one.value)
    ensures var q := p.one.value;
            Select(db, SpecOf(ParentsOf(p, keys))) ==
            Matching([InValues(IdColumn(q.entity), keys)], Select(db, SpecOf(q)))
  {
    SelectMore(db, SpecOf(p.one.value), [InValues(IdColumn(p.one.value.entity), keys)]);
  }

  lemma {:induction false} SatOne(e: Entity, keys: seq<nat>, r: Row)
    requires Pointer(r, IdColumn(e)).Some?
    ensures SatAll([InValues(IdColumn(e), keys)], r) <==> IdOf(e, r) in keys
  {
    var bound := [InValues(IdColumn(e), keys)];
    assert SatAll(bound, r) <==> Sat(bound[0], r);
  }

  /** The parents that are selected for the keys. */
  lemma {:induction false} SelectedForKeys(db: DB, p: Plan, keys: seq<nat>, r: Row)
    requires WellFormed(db) && WellTyped(p) && p.one.Some? && Whole(p.one.value)
    ensures r in Select(db, SpecOf(ParentsOf(p, keys))) <==>
            r in Select(db, SpecOf(p.one.value)) && IdOf(p.one.value.entity, r) in keys
  {
    var q := p.one.value;
    ParentsMatch(db, p, keys);
    MatchingIn([InValues(IdColumn(q.entity), keys)], Select(db, SpecOf(q)), r);
    RowsHaveIds(db, q);
    if r in Select(db, SpecOf(q)) { SatOne(q.entity, keys, r); }
  }

  lemma {:induction false} ZeroAmong(db: DB, p: Plan, keys: seq<nat>)
    requires WellFormed(db) && WellTyped(p) && p.one.Some? && Whole(p.one.value)
    ensures var all := ParentsOf(p, keys);
            (exists r :: r in Select(db, SpecOf(all)) && IdOf(all.entity, r) == 0) <==>
            0 in keys && exists r :: r in Select(db, SpecOf(p.one.value)) && IdOf(all.entity, r) == 0
  {
    var few, many := Select(db, SpecOf(ParentsOf(p, keys))), Select(db, SpecOf(p.one.value));
    forall r ensures r in few <==> r in many && IdOf(p.one.value.entity, r) in keys {
      SelectedForKeys(db, p, keys, r);
    }
    ZeroInBoth(p.one.value.entity, keys, few, many);
  }

  lemma {:induction false} ZeroInBoth(e: Entity, keys: seq<nat>, few: seq<Row>, many: seq<Row>)
    requires forall r :: r in few <==> r in many && IdOf(e, r) in keys
    ensures (exists r :: r in few && IdOf(e, r) == 0) <==> 0 in keys && exists r :: r in many && IdOf(e, r) == 0
  {
  }

  lemma {:induction false} DistinctLast(nodes: seq<Loaded>, t: nat)
    requires t < |nodes| && forall i, j :: 0 <= i < j < |nodes| ==> NodeId(nodes[i]) != NodeId(nodes[j])
    ensures LastWithId(NodeId(nodes[t]), nodes) == Some(nodes[t])
  {
    LastWithIdFinds(NodeId(nodes[t]), nodes);
  }

  lemma {:induction false} HeldIds(db: DB, p: Plan, nodes: seq<Loaded>)
    requires WellFormed(db) && WellTyped(p) && HoldRows(db, p, nodes)
    ensures var rows := Select(db, SpecOf(p));
            && (forall i :: 0 <= i < |rows| ==> NodeId(nodes[i]) == IdOf(p.entity, rows[i]))
            && forall i, j :: 0 <= i < j < |nodes| ==> NodeId(nodes[i]) != NodeId(nodes[j])
  {
    var rows := Select(db, SpecOf(p));
    SelectSound(db, SpecOf(p));
    KeysAreSelected(p);
    forall i | 0 <= i < |rows| ensures NodeId(nodes[i]) == IdOf(p.entity, rows[i]) {
      SelectedIsRead(SelectedColumns(p), rows[i], IdColumn(p.entity));
    }
  }

  /** Whether a parent with the zero identifier is loaded for the keys. */
  lemma {:induction false} ZeroLoaded(db: DB, p: Plan, keys: seq<nat>, parents: seq<Loaded>)
    requires WellFormed(db) && WellTyped(p) && p.one.Some? && Whole(p.one.value)
    requires HoldRows(db, ParentsOf(p, keys), parents)
    ensures LastWithId(0, parents).Some? <==>
            0 in keys && exists r :: r in Select(db, SpecOf(p.one.value)) && IdOf(p.one.value.entity, r) == 0
  {
    var all := ParentsOf(p, keys);
    var rows := Select(db, SpecOf(all));
    HeldIds(db, all, parents);
    ZeroAmong(db, p, keys);
    LastWithIdFinds(0, parents);
    if LastWithId(0, parents).Some? {
      var i :| 0 <= i < |parents| && NodeId(parents[i]) == 0;
      assert rows[i] in rows && IdOf(all.entity, rows[i]) == 0;
    }
    if r :| r in rows && IdOf(all.entity, r) == 0 {
      var i :| 0 <= i < |rows| && rows[i] == r;
      assert NodeId(parents[i]) == 0;
    }
  }

  /** The parent of a row, among the views of all parents that are asked for. */
  lemma {:induction false} ParentAmongViews(db: DB, p: Plan, keys: seq<nat>, row: Row)
    requires WellFormed(db) && WellTyped(p) && WholeBelow(p) && p.one.Some?
    requires row in Select(db, SpecOf(p)) && !NullMeetsZero(db, p)
    requires var key := ForeignKey(OneEdge(p.entity).value, row); key.Some? ==> key.value in keys
    ensures var key := ForeignKey(OneEdge(p.entity).value, row);
            var all := ParentsOf(p, keys);
            ViewOne(db, p, row) ==
            if key.Some? then LastWithId(key.value, Views(db, all, Select(db, SpecOf(all)))) else None
  {
    var edge := OneEdge(p.entity).value;
    var key := Pointer(row, edge.column);
    var all := ParentsOf(p, keys);
    if key.Some? {
      ParentNarrow(db, p, keys, key.value);
    } else if !edge.hidden {
      ViewsHoldRows(db, all);
      ZeroLoaded(db, p, keys, Views(db, all, Select(db, SpecOf(all))));
    }
  }

  /** If NULL meets zero, the node is given a parent that its row does not have. */
  lemma {:induction false} ZeroAttached(db: DB, p: Plan, rows: seq<Row>, nodes: seq<Loaded>)
    requires WellFormed(db) && WellTyped(p) && WholeBelow(p) && p.one.Some? && Rooted(db, p, rows, nodes)
    requires NullMeetsZero(db, p)
    ensures !OneMeans(db, p, rows, nodes)
  {
    var row :| row in rows && Pointer(row, OneEdge(p.entity).value.column).None?;
    var i :| 0 <= i < |rows| && rows[i] == row;
    if BatchOne(db, p, nodes).res.Success? { ZeroAttachedAt(db, p, rows, nodes, i); }
  }

  lemma {:induction false} ZeroAttachedAt(db: DB, p: Plan, rows: seq<Row>, nodes: seq<Loaded>, i: nat)
    requires WellFormed(db) && WellTyped(p) && WholeBelow(p) && p.one.Some? && Rooted(db, p, rows, nodes)
    requires NullMeetsZero(db, p) && BatchOne(db, p, nodes).res.Success?
    requires i < |rows| && Pointer(rows[i], OneEdge(p.entity).value.column).None?
    ensures var res := BatchOne(db, p, nodes).res.value;
            |res| == |rows| && res[i].one.Some? && ViewOne(db, p, rows[i]).None?
  {
    var edge := OneEdge(p.entity).value;
    var keys := Keys(edge, nodes);
    KeysOfRows(p, rows, nodes);
    assert ForeignKey(edge, rows[i]) == Some(0) && 0 in keys;
    var all := ParentsOf(p, keys);
    var parents := BatchAll(db, all).res.value;
    LoadedHoldRows(db, all);
    ZeroLoaded(db, p, keys, parents);
    AttachParentsAt(edge, nodes, parents);
  }

  /** The parents mean what they should if and only if the load of all parents does and NULL does not meet zero. */
  lemma {:induction false} OneStep(db: DB, p: Plan, rows: seq<Row>, nodes: seq<Loaded>)
    requires WellFormed(db) && WellTyped(p) && WholeBelow(p) && p.one.Some? && Rooted(db, p, rows, nodes)
    requires forall i :: 0 <= i < |rows| ==> nodes[i].one == None
    ensures var keys := Keys(OneEdge(p.entity).value, nodes);
            OneMeans(db, p, rows, nodes) <==>
            !NullMeetsZero(db, p) && (keys != [] ==> Means(db, ParentsOf(p, keys)))
  {
    var keys := Keys(OneEdge(p.entity).value, nodes);
    if NullMeetsZero(db, p) {
      ZeroAttached(db, p, rows, nodes);
    } else if keys == [] {
      NoKeysMean(db, p, rows, nodes);
    } else {
      if Means(db, ParentsOf(p, keys)) { ParentsMean(db, p, rows, nodes); }
      if OneMeans(db, p, rows, nodes) { OneMeansAll(db, p, rows, nodes); }
    }
  }

  lemma {:induction false} NoKeysMean(db: DB, p: Plan, rows: seq<Row>, nodes: seq<Loaded>)
    requires WellTyped(p) && p.one.Some? && Rooted(db, p, rows, nodes)
    requires Keys(OneEdge(p.entity).value, nodes) == []
    requires forall i :: 0 <= i < |rows| ==> nodes[i].one == None
    ensures OneMeans(db, p, rows, nodes)
  {
    var edge := OneEdge(p.entity).value;
    KeysOfRows(p, rows, nodes);
    forall i | 0 <= i < |rows| ensures nodes[i] == nodes[i].(one := ViewOne(db, p, rows[i])) {
      assert forall k :: ForeignKey(edge, rows[i]) == Some(k) ==> k in Keys(edge, nodes);
    }
  }

  lemma {:induction false} ParentsMean(db: DB, p: Plan, rows: seq<Row>, nodes: seq<Loaded>)
    requires WellFormed(db) && WellTyped(p) && WholeBelow(p) && p.one.Some? && Rooted(db, p, rows, nodes)
    requires var keys := Keys(OneEdge(p.entity).value, nodes); keys != [] && Means(db, ParentsOf(p, keys))
    requires !NullMeetsZero(db, p)
    ensures OneMeans(db, p, rows, nodes)
  {
    var edge := OneEdge(p.entity).value;
    var keys := Keys(edge, nodes);
    var all := ParentsOf(p, keys);
    var parents := Views(db, all, Select(db, SpecOf(all)));
    KeysOfRows(p, rows, nodes);
    ViewsHoldRows(db, all);
    NoStrayParent(db, p, keys, parents);
    AttachParentsAt(edge, nodes, parents);
    forall i | 0 <= i < |rows|
      ensures AttachParents(edge, nodes, parents)[i] == nodes[i].(one := ViewOne(db, p, rows[i]))
    {
      assert rows[i] in rows;
      ParentAmongViews(db, p, keys, rows[i]);
    }
  }

  lemma {:induction false} OneMeansAll(db: DB, p: Plan, rows: seq<Row>, nodes: seq<Loaded>)
    requires WellFormed(db) && WellTyped(p) && WholeBelow(p) && p.one.Some? && Rooted(db, p, rows, nodes)
    requires Keys(OneEdge(p.entity).value, nodes) != [] && !NullMeetsZero(db, p) && OneMeans(db, p, rows, nodes)
    ensures Means(db, ParentsOf(p, Keys(OneEdge(p.entity).value, nodes)))
  {
    var edge := OneEdge(p.entity).value;
    var keys := Keys(edge, nodes);
    var all := ParentsOf(p, keys);
    var parents, views := BatchAll(db, all).res.value, Views(db, all, Select(db, SpecOf(all)));
    LoadedHoldRows(db, all);
    ViewsHoldRows(db, all);
    HeldIds(db, all, parents);
    HeldIds(db, all, views);
    forall t | 0 <= t < |parents| ensures parents[t] == views[t] {
      SameParent(db, p, rows, nodes, parents, views, t);
    }
    assert parents == views;
  }

  lemma {:induction false} SameParent(
    db: DB, p: Plan, rows: seq<Row>, nodes: seq<Loaded>, parents: seq<Loaded>, views: seq<Loaded>, t: nat)
    requires WellFormed(db) && WellTyped(p) && WholeBelow(p) && p.one.Some? && Rooted(db, p, rows, nodes)
    requires Keys(OneEdge(p.entity).value, nodes) != [] && !NullMeetsZero(db, p) && OneMeans(db, p, rows, nodes)
    requires var all := ParentsOf(p, Keys(OneEdge(p.entity).value, nodes));
             && BatchAll(db, all).res == Success(parents) && views == Views(db, all, Select(db, SpecOf(all)))
             && HoldRows(db, all, parents) && HoldRows(db, all, views)
    requires t < |parents| && NodeId(parents[t]) == NodeId(views[t])
    ensures parents[t] == views[t]
  {
    var edge := OneEdge(p.entity).value;
    var keys := Keys(edge, nodes);
    var all := ParentsOf(p, keys);
    HeldIds(db, all, parents);
    HeldIds(db, all, views);
    KeysOfRows(p, rows, nodes);
    var id := NodeId(parents[t]);
    ParentsAsked(db, p, keys, t);
    var i :| 0 <= i < |rows| && ForeignKey(edge, rows[i]) == Some(id);
    assert rows[i] in rows;
    ParentAmongViews(db, p, keys, rows[i]);
    AttachParentsAt(edge, nodes, parents);
    assert AttachParents(edge, nodes, parents)[i].one == ViewOne(db, p, rows[i]);
    DistinctLast(parents, t);
    DistinctLast(views, t);
  }

  lemma {:induction false} ParentsAsked(db: DB, p: Plan, keys: seq<nat>, t: nat)
    requires WellFormed(db) && WellTyped(p) && p.one.Some? && t < |Select(db, SpecOf(ParentsOf(p, keys)))|
    ensures IdOf(ParentsOf(p, keys).entity, Select(db, SpecOf(ParentsOf(p, keys)))[t]) in keys
  {
    var all := ParentsOf(p, keys);
    var rows := Select(db, SpecOf(all));
    SelectSound(db, SpecOf(all));
    assert rows[t] in rows;
    BoundRow(p.one.value, IdColumn(all.entity), keys, rows[t]);
  }

  // ----- the whole tree -----

  lemma {:induction false} SameKeys(edge: Edge, nodes: seq<Loaded>, others: seq<Loaded>)
    requires SameValues(nodes, others)
    ensures Keys(edge, nodes) == Keys(edge, others)
    decreases |nodes|
  {
    if nodes != [] { SameKeys(edge, nodes[..|nodes| - 1], others[..|others| - 1]); }
  }

  /** The nodes of a load, with and without their children. */
  lemma {:induction false} NodesAreRooted(db: DB, p: Plan)
    requires WellTyped(p) && Select(db, SpecOf(p)) != []
    ensures var rows, nodes := Select(db, SpecOf(p)), NodesOf(db, p);
            && Rooted(db, p, rows, nodes) && (forall i :: 0 <= i < |rows| ==> nodes[i].one == None)
            && (BatchMany(db, p, nodes).res.Success? ==>
                  var m := BatchMany(db, p, nodes).res.value;
                  && Rooted(db, p, rows, m) && SameValues(nodes, m)
                  && forall i :: 0 <= i < |rows| ==> m[i].one == None)
  {
    var rows, nodes := Select(db, SpecOf(p)), NodesOf(db, p);
    NodesAt(db, p);
    if BatchMany(db, p, nodes).res.Success? {
      ManyKeepsValues(db, p, nodes);
      ManyKeeps(db, p, nodes);
    }
  }

  lemma {:induction false} MeansBothEdges(db: DB, p: Plan)
    requires WellTyped(p) && Means(db, p) && Select(db, SpecOf(p)) != []
    ensures var rows, nodes := Select(db, SpecOf(p)), NodesOf(db, p);
            && |nodes| == |rows| && ManyMeans(db, p, rows, nodes)
            && OneMeans(db, p, rows, BatchMany(db, p, nodes).res.value)
  {
    var rows, nodes := Select(db, SpecOf(p)), NodesOf(db, p);
    NodesAt(db, p);
    MeansOfEdges(db, p);
    var m := BatchMany(db, p, nodes).res.value;
    ManyKeeps(db, p, nodes);
    OneKeeps(db, p, p, m);
    ViewsAt(db, p, rows);
    forall i | 0 <= i < |rows|
      ensures m[i] == nodes[i].(many := ViewMany(db, p, rows[i]))
      ensures BatchOne(db, p, m).res.value[i] == m[i].(one := ViewOne(db, p, rows[i]))
    {
      assert BatchOne(db, p, m).res.value[i] == View(db, p, rows[i]);
    }
  }

  /** A load means what it should if and only if both its edges do. */
  lemma {:induction false} MeansIffEdges(db: DB, p: Plan)
    requires WellTyped(p) && PrepareError(p).None? && Select(db, SpecOf(p)) != []
    ensures var rows, nodes := Select(db, SpecOf(p)), NodesOf(db, p);
            |nodes| == |rows| &&
            (Means(db, p) <==>
               ManyMeans(db, p, rows, nodes) && OneMeans(db, p, rows, BatchMany(db, p, nodes).res.value))
  {
    var rows, nodes := Select(db, SpecOf(p)), NodesOf(db, p);
    NodesAt(db, p);
    if Means(db, p) {
      MeansBothEdges(db, p);
    } else if ManyMeans(db, p, rows, nodes) && OneMeans(db, p, rows, BatchMany(db, p, nodes).res.value) {
      MeansByEdges(db, p);
    }
  }

  lemma {:induction false} ChildrenClear(db: DB, p: Plan)
    requires WellFormed(db) && WellTyped(p) && WholeBelow(p) && Select(db, SpecOf(p)) != []
    ensures var rows, nodes := Select(db, SpecOf(p)), NodesOf(db, p);
            |nodes| == |rows| &&
            (ManyMeans(db, p, rows, nodes) <==> (p.many.Some? ==> Clear(db, ChildrenOf(p, Ids(nodes)))))
    decreases Height(p), 0
  {
    var rows, nodes := Select(db, SpecOf(p)), NodesOf(db, p);
    NodesAreRooted(db, p);
    if p.many.Some? {
      ManyStep(db, p, rows, nodes);
      ZeroIff(db, ChildrenOf(p, Ids(nodes)));
    } else {
      NodesAt(db, p);
      NoMany(db, p, rows, nodes);
    }
  }

  lemma {:induction false} ParentsClear(db: DB, p: Plan)
    requires WellFormed(db) && WellTyped(p) && WholeBelow(p) && Select(db, SpecOf(p)) != []
    requires BatchMany(db, p, NodesOf(db, p)).res.Success?
    ensures var rows, m := Select(db, SpecOf(p)), BatchMany(db, p, NodesOf(db, p)).res.value;
            |m| == |rows| &&
            (OneMeans(db, p, rows, m) <==>
               && (p.one.Some? ==> !NullMeetsZero(db, p))
               && (p.one.Some? && AskedKeys(db, p) != [] ==> Clear(db, ParentsOf(p, AskedKeys(db, p)))))
    decreases Height(p), 0
  {
    var rows, m := Select(db, SpecOf(p)), BatchMany(db, p, NodesOf(db, p)).res.value;
    NodesAreRooted(db, p);
    if p.one.Some? {
      SameKeys(OneEdge(p.entity).value, NodesOf(db, p), m);
      OneStep(db, p, rows, m);
      if AskedKeys(db, p) != [] { ZeroIff(db, ParentsOf(p, AskedKeys(db, p))); }
    } else {
      NoOne(db, p, rows, m);
    }
  }

  /** On every well-formed database and for every tree of builders without limits on its edges: a load computes its
      meaning if and only if all builders that it reaches can be prepared, and at none of them a node whose visible
      foreign key is NULL meets a selected parent with the zero identifier. */
  lemma {:induction false} ZeroIff(db: DB, p: Plan)
    requires WellFormed(db) && WellTyped(p) && WholeBelow(p)
    ensures Means(db, p) <==> Clear(db, p)
    decreases Height(p), 1
  {
    if PrepareError(p).None? {
      if Select(db, SpecOf(p)) == [] {
        MeansByEdges(db, p);
      } else {
        MeansIffEdges(db, p);
        ChildrenClear(db, p);
        if BatchMany(db, p, NodesOf(db, p)).res.Success? { ParentsClear(db, p); }
      }
    }
  }

  /** A parent with the zero identifier, and children without a parent. */
  function Orphans(e: Entity, children: nat): DB
    requires ManyEdge(e).Some?
  {
    var target := ManyEdge(e).value.target;
    DB(x => if x == e then [MakeRow(AllColumns(e), IdColumn(e), "", 0, 0)]
            else if x == target then Table(target, "", Zeros(children)) else [],
       v => 0)
  }

  lemma {:induction false} OrphansAreWellFormed(e: Entity, children: nat)
    requires ManyEdge(e).Some?
    ensures var db := Orphans(e, children);
            var target := ManyEdge(e).value.target;
            && WellFormed(db) && |(db.rows)(e)| == 1 && IdOf(e, (db.rows)(e)[0]) == 0
            && |(db.rows)(target)| == children
            && forall i :: 0 <= i < children ==> Pointer((db.rows)(target)[i], OneEdge(target).value.column).None?
  {
    var db := Orphans(e, children);
    var target := ManyEdge(e).value.target;
    EdgesAreInverse(e);
    KeyColumn(target);
    IdIsColumn(e);
    IdIsColumn(target);
    if OneEdge(e).Some? { KeyColumn(e); }
    OrphanTables(e, children);
    MadeRowFits(e, AllColumns(e), IdColumn(e), "", 0, 0, (db.rows)(e)[0]);
    var down := (db.rows)(target);
    forall i | 0 <= i < |down|
      ensures WellFormedRow(target, down[i]) && IdOf(target, down[i]) == i + 1
      ensures Pointer(down[i], OneEdge(target).value.column).None?
    {
      OrphanFits(target, AllColumns(target), IdColumn(target), OneEdge(target).value.column, children, i, down[i]);
    }
    ZeroIsWellFormed(db, e, target);
  }

  lemma {:induction false} OrphanTables(e: Entity, children: nat)
    requires ManyEdge(e).Some?
    ensures var db := Orphans(e, children);
            var target := ManyEdge(e).value.target;
            && (db.rows)(e) == [MakeRow(AllColumns(e), IdColumn(e), "", 0, 0)]
            && (db.rows)(target) == MakeRows(AllColumns(target), IdColumn(target), "", Zeros(children))
            && forall x :: x != e && x != target ==> (db.rows)(x) == []
  {
    EdgesAreInverse(e);
    KeyColumn(ManyEdge(e).value.target);
  }

  lemma {:induction false} OrphanFits(
    e: Entity, columns: seq<string>, id: string, column: string, children: nat, i: nat, row: Row)
    requires columns == AllColumns(e) && id == IdColumn(e) && id in columns && "" != id && "" != column
    requires OneEdge(e).Some? && OneEdge(e).value.column == column && column in columns && column != id
    requires i < children && row == MakeRows(columns, id, "", Zeros(children))[i]
    ensures WellFormedRow(e, row) && IdOf(e, row) == i + 1 && Pointer(row, column).None?
  {
    TableFits(e, columns, id, "", Zeros(children), i, row);
    MadeRows(columns, id, "", Zeros(children), i);
    NoKey(columns, id, column, i + 1, Zeros(children)[i]);
  }

  lemma {:induction false} NoKey(columns: seq<string>, id: string, column: string, n: nat, key: nat)
    requires column in columns && column != id && column != ""
    ensures Pointer(MakeRow(columns, id, "", n, key), column).None?
  {
  }

  lemma {:induction false} ZeroIsWellFormed(db: DB, a: Entity, b: Entity)
    requires forall x :: x != a && x != b ==> (db.rows)(x) == []
    requires |(db.rows)(a)| == 1 && WellFormedRow(a, (db.rows)(a)[0])
    requires forall i :: 0 <= i < |(db.rows)(b)| ==>
               WellFormedRow(b, (db.rows)(b)[i]) && IdOf(b, (db.rows)(b)[i]) == i + 1
    ensures WellFormed(db)
  {
    forall x: Entity, i | 0 <= i < |(db.rows)(x)| ensures WellFormedRow(x, (db.rows)(x)[i]) {
      assert x == a || x == b;
    }
  }

  /** Such a database makes the load of any parents go wrong. */
  lemma {:induction false} ZeroFails(p: Plan)
    requires WellTyped(p) && WholeBelow(p) && p.one.Some? && !OneEdge(p.entity).value.hidden
    requires p.preds == [] && p.one.value.preds == []
    ensures ManyEdge(p.one.value.entity).Some?
    ensures var db := Orphans(p.one.value.entity, SpecOf(p).offset + 1);
            WellFormed(db) && !Means(db, p)
  {
    EdgesAreInverse(p.entity);
    var e := p.one.value.entity;
    var db := Orphans(e, SpecOf(p).offset + 1);
    OrphansAreWellFormed(e, SpecOf(p).offset + 1);
    SelectsUnbound(db, p);
    SelectsUnbound(db, p.one.value);
    PageSuffix(SpecOf(p).offset, SpecOf(p).limit, (db.rows)(p.entity), 1);
    ZeroIff(db, p);
    assert Select(db, SpecOf(p))[0] in Select(db, SpecOf(p));
    assert Select(db, SpecOf(p.one.value))[0] in Select(db, SpecOf(p.one.value));
  }
}
