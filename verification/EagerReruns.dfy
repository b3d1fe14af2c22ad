/**
Running the same builders again. A load adds foreign-key predicates to the builders of the edges, and they stay.
*/
module EagerReruns {
  import opened Schema
  import opened Store
  import opened Plans
  import opened Eager
  import opened EagerAgrees
  import opened Wrappers

  // ----- what a load leaves behind -----

  /** `q` is `p` with other builders for the same edges. */
  ghost predicate Similar(p: Plan, q: Plan) {
    && q == p.(many := q.many, one := q.one)
    && (q.many.Some? <==> p.many.Some?) && (q.one.Some? <==> p.one.Some?)
    && SpecOf(q) == SpecOf(p) && PrepareError(q) == PrepareError(p)
    && WellTyped(q) && Height(q) == Height(p) && (WholeBelow(p) ==> WholeBelow(q))
  }

  ghost predicate SimilarEdge(p: Option<Plan>, q: Option<Plan>) {
    && (p.Some? <==> q.Some?)
    && (p.Some? ==>
          && q.value.entity == p.value.entity && Height(q.value) == Height(p.value) && WellTyped(q.value)
          && (Whole(p.value) && WholeBelow(p.value) ==> Whole(q.value) && WholeBelow(q.value)))
  }

  /** A load leaves the root builder as it was, and the tree as large and as well-formed as it was. */
  lemma {:induction false} AfterIsSimilar(db: DB, p: Plan)
    requires WellTyped(p)
    ensures Similar(p, BatchAll(db, p).after)
    decreases Height(p), 1
  {
    var nodes := NodesOf(db, p);
    SimilarByEdges(p, p);
    if PrepareError(p).None? && nodes != [] {
      AfterEdgesIsSimilar(db, p, nodes);
      assert BatchAll(db, p) == BatchEdges(db, p, nodes);
    }
  }

  lemma {:induction false} SimilarByEdges(p: Plan, q: Plan)
    requires WellTyped(p) && q == p.(many := q.many, one := q.one)
    requires q.many != p.many ==> SimilarEdge(p.many, q.many)
    requires q.one != p.one ==> SimilarEdge(p.one, q.one)
    ensures Similar(p, q)
  {
  }

  lemma {:induction false} AfterEdgesIsSimilar(db: DB, p: Plan, nodes: seq<Loaded>)
    requires WellTyped(p)
    ensures Similar(p, BatchEdges(db, p, nodes).after)
    decreases Height(p), 0, 1
  {
    EdgesAfterAreSimilar(db, p, nodes);
    var m := BatchMany(db, p, nodes);
    if m.res.Success? {
      EdgesAfterAreSimilar(db, p, m.res.value);
      SimilarByEdges(p, p.(many := m.after, one := BatchOne(db, p, m.res.value).after));
    } else {
      SimilarByEdges(p, p.(many := m.after));
    }
  }

  lemma {:induction false} EdgesAfterAreSimilar(db: DB, p: Plan, nodes: seq<Loaded>)
    requires WellTyped(p)
    ensures SimilarEdge(p.many, BatchMany(db, p, nodes).after)
    ensures SimilarEdge(p.one, BatchOne(db, p, nodes).after)
    decreases Height(p), 0, 0
  {
    if p.many.Some? { AfterIsSimilar(db, ChildrenOf(p, Ids(nodes))); }
    if p.one.Some? {
      var keys := Keys(OneEdge(p.entity).value, nodes);
      if keys != [] { AfterIsSimilar(db, ParentsOf(p, keys)); }
    }
  }

  /** An edge's builder that has been run for a list of keys, asked again for some of them, answers as a builder that
      has not been run. */
  lemma {:induction false} StableEdge(db: DB, p: Plan, column: string, keys: seq<nat>, narrow: seq<nat>, after: Plan)
    requires WellTyped(p) && Whole(p) && WellTyped(after)
    requires forall k :: k in narrow ==> k in keys
    requires SpecOf(after) == SpecOf(Bind(p, column, keys)) && PrepareError(after) == PrepareError(p)
    requires forall row :: row in Select(db, SpecOf(Bind(p, column, keys))) ==>
               View(db, after, row) == View(db, p, row) && RowReady(db, after, row) == RowReady(db, p, row)
    ensures var again, fresh' := Bind(after, column, narrow), Bind(p, column, narrow);
            && Views(db, again, Select(db, SpecOf(again))) == Views(db, fresh', Select(db, SpecOf(fresh')))
            && Ready(db, again) == Ready(db, fresh')
  {
    var again, fresh' := Bind(after, column, narrow), Bind(p, column, narrow);
    var rows := Select(db, SpecOf(fresh'));
    NarrowedAgain(db, p, column, keys, narrow, after);
    ViewsAt(db, again, rows);
    ViewsAt(db, fresh', rows);
    forall row | row in rows
      ensures View(db, again, row) == View(db, fresh', row) && RowReady(db, again, row) == RowReady(db, fresh', row)
    {
      ViewIgnoresPreds(db, after, again, row);
      ViewIgnoresPreds(db, p, fresh', row);
    }
    forall i | 0 <= i < |rows| ensures View(db, again, rows[i]) == View(db, fresh', rows[i]) { assert rows[i] in rows; }
  }

  lemma {:induction false} NarrowedAgain(db: DB, p: Plan, column: string, keys: seq<nat>, narrow: seq<nat>, after: Plan)
    requires Whole(p) && SpecOf(after) == SpecOf(Bind(p, column, keys))
    requires forall k :: k in narrow ==> k in keys
    ensures var rows := Select(db, SpecOf(Bind(p, column, narrow)));
            && Select(db, SpecOf(Bind(after, column, narrow))) == rows
            && forall row :: row in rows ==> row in Select(db, SpecOf(Bind(p, column, keys)))
  {
    var again := Bind(after, column, narrow);
    var one := [InValues(column, narrow)];
    var all := Select(db, SpecOf(Bind(p, column, keys)));
    BindNarrows(db, p, column, keys, narrow);
    SelectMore(db, SpecOf(after), one);
    assert SpecOf(again) == SpecOf(after).(preds := after.preds + one);
    forall row | row in Matching(one, all) ensures row in all { MatchingIn(one, all, row); }
  }

  // ----- on an unchanged database -----

  /** A row of the result has the same edges before and after the load. */
  lemma {:induction false} StableRow(db: DB, p: Plan, row: Row)
    requires WellFormed(db) && ZeroFree(db) && WellTyped(p) && WholeBelow(p)
    requires Ready(db, p) && row in Select(db, SpecOf(p))
    ensures var q := BatchAll(db, p).after;
            WellTyped(q) && View(db, q, row) == View(db, p, row) && RowReady(db, q, row) == RowReady(db, p, row)
    decreases Height(p), 3
  {
    var rows := Select(db, SpecOf(p));
    var nodes := NodesOf(db, p);
    EdgesAfter(db, p);
    var q := BatchAll(db, p).after;
    var m := BatchMany(db, p, nodes);
    if p.many.Some? {
      AgreeMany(db, p, rows, nodes);
      StableChildren(db, p, q, rows, nodes, row);
    }
    if p.one.Some? { StableParent(db, p, q, rows, m.res.value, row); }
  }

  /** The builders of the edges after a load that reads rows. */
  lemma {:induction false} EdgesAfter(db: DB, p: Plan)
    requires WellFormed(db) && ZeroFree(db) && WellTyped(p) && WholeBelow(p)
    requires Ready(db, p) && Select(db, SpecOf(p)) != []
    ensures var rows, nodes := Select(db, SpecOf(p)), NodesOf(db, p);
            var m := BatchMany(db, p, nodes);
            var q := BatchAll(db, p).after;
            && Similar(p, q) && q.many == m.after
            && m.res.Success? && |m.res.value| == |rows| == |nodes|
            && q.one == BatchOne(db, p, m.res.value).after
            && DistinctIds(p.entity, rows)
            && (forall i :: 0 <= i < |rows| ==> NodeId(nodes[i]) == IdOf(p.entity, rows[i]))
            && forall i :: 0 <= i < |rows| ==> m.res.value[i].values == Project(SelectedColumns(p), rows[i])
  {
    var rows := Select(db, SpecOf(p));
    var nodes := NodesOf(db, p);
    SelectSound(db, SpecOf(p));
    ProjectedNodes(p, rows);
    AfterIsSimilar(db, p);
    AgreeEdges(db, p, rows, nodes);
    assert BatchAll(db, p) == BatchEdges(db, p, nodes);
    ManyKeepsValues(db, p, nodes);
  }

  lemma {:induction false} StableChildren(
    db: DB, p: Plan, q: Plan, rows: seq<Row>, nodes: seq<Loaded>, row: Row)
    requires WellFormed(db) && ZeroFree(db) && WellTyped(p) && WholeBelow(p) && p.many.Some?
    requires rows != [] && row in rows && forall r :: r in rows ==> ManyReady(db, p, r)
    requires |nodes| == |rows| && forall i :: 0 <= i < |rows| ==> NodeId(nodes[i]) == IdOf(p.entity, rows[i])
    requires Similar(p, q) && q.many == BatchMany(db, p, nodes).after
    ensures ViewMany(db, q, row) == ViewMany(db, p, row) && ManyReady(db, q, row) == ManyReady(db, p, row)
    decreases Height(p), 1
  {
    var edge := ManyEdge(p.entity).value;
    var ids := Ids(nodes);
    IdsAt(nodes);
    ReadyByRow(db, p, rows, ids);
    var i :| 0 <= i < |rows| && rows[i] == row;
    assert ids[i] in ids;
    StableKids(db, p, ids, ids[i]);
    assert ChildrenOf(q, [ids[i]]) == Bind(Keyed(q.many.value, edge), edge.column, [ids[i]]);
  }

  /** The builder of the children that was run for a list of parents, asked again for one of them. */
  lemma {:induction false} StableKids(db: DB, p: Plan, ids: seq<nat>, id: nat)
    requires WellFormed(db) && ZeroFree(db) && WellTyped(p) && WholeBelow(p) && p.many.Some?
    requires Ready(db, ChildrenOf(p, ids)) && id in ids
    ensures var edge := ManyEdge(p.entity).value;
            var after := BatchAll(db, ChildrenOf(p, ids)).after;
            var again, mine := Bind(Keyed(after, edge), edge.column, [id]), ChildrenOf(p, [id]);
            && WellTyped(again) && Ready(db, again) == Ready(db, mine)
            && Views(db, again, Select(db, SpecOf(again))) == Views(db, mine, Select(db, SpecOf(mine)))
    decreases Height(p), 0
  {
    var edge := ManyEdge(p.entity).value;
    var child := Keyed(p.many.value, edge);
    var all := ChildrenOf(p, ids);
    var after := BatchAll(db, all).after;
    AfterIsSimilar(db, all);
    forall kid | kid in Select(db, SpecOf(all))
      ensures View(db, after, kid) == View(db, child, kid) && RowReady(db, after, kid) == RowReady(db, child, kid)
    {
      StableRow(db, all, kid);
      ViewIgnoresPreds(db, child, all, kid);
    }
    assert Keyed(after, edge) == after;
    StableEdge(db, child, edge.column, ids, [id], after);
  }

  lemma {:induction false} StableParent(
    db: DB, p: Plan, q: Plan, rows: seq<Row>, nodes: seq<Loaded>, row: Row)
    requires WellFormed(db) && ZeroFree(db) && WellTyped(p) && WholeBelow(p) && p.one.Some?
    requires row in rows && forall r :: r in rows ==> OneReady(db, p, r)
    requires |nodes| == |rows|
    requires forall i :: 0 <= i < |rows| ==> nodes[i].values == Project(SelectedColumns(p), rows[i])
    requires Similar(p, q) && q.one == BatchOne(db, p, nodes).after
    ensures ViewOne(db, q, row) == ViewOne(db, p, row) && OneReady(db, q, row) == OneReady(db, p, row)
    decreases Height(p), 0, 1
  {
    var edge := OneEdge(p.entity).value;
    var keys := Keys(edge, nodes);
    KeysOfRows(p, rows, nodes);
    var i :| 0 <= i < |rows| && rows[i] == row;
    if keys != [] {
      ReadyByKey(db, p, rows, keys);
      StableParentAt(db, p, q, keys, row);
    }
  }

  lemma {:induction false} StableParentAt(db: DB, p: Plan, q: Plan, keys: seq<nat>, row: Row)
    requires WellFormed(db) && ZeroFree(db) && WellTyped(p) && WholeBelow(p) && p.one.Some?
    requires Ready(db, ParentsOf(p, keys))
    requires var key := Pointer(row, OneEdge(p.entity).value.column); key.Some? ==> key.value in keys
    requires Similar(p, q) && q.one == Some(BatchAll(db, ParentsOf(p, keys)).after)
    ensures ViewOne(db, q, row) == ViewOne(db, p, row) && OneReady(db, q, row) == OneReady(db, p, row)
    decreases Height(p), 0, 0, 1
  {
    var key := Pointer(row, OneEdge(p.entity).value.column);
    StableParents(db, p, q, keys, if key.Some? then [key.value] else []);
  }

  lemma {:induction false} StableParents(db: DB, p: Plan, q: Plan, keys: seq<nat>, narrow: seq<nat>)
    requires WellFormed(db) && ZeroFree(db) && WellTyped(p) && WholeBelow(p) && p.one.Some?
    requires Ready(db, ParentsOf(p, keys)) && forall k :: k in narrow ==> k in keys
    requires Similar(p, q) && q.one == Some(BatchAll(db, ParentsOf(p, keys)).after)
    ensures var again, fresh' := ParentsOf(q, narrow), ParentsOf(p, narrow);
            && Views(db, again, Select(db, SpecOf(again))) == Views(db, fresh', Select(db, SpecOf(fresh')))
            && Ready(db, again) == Ready(db, fresh')
    decreases Height(p), 0, 0, 0
  {
    var all := ParentsOf(p, keys);
    AfterIsSimilar(db, all);
    forall r | r in Select(db, SpecOf(all))
      ensures View(db, q.one.value, r) == View(db, p.one.value, r)
           && RowReady(db, q.one.value, r) == RowReady(db, p.one.value, r)
    {
      StableRow(db, all, r);
      ViewIgnoresPreds(db, p.one.value, all, r);
    }
    StableEdge(db, p.one.value, IdColumn(all.entity), keys, narrow, q.one.value);
  }

  /** The builders after one load. */
  ghost function AfterLoad(db: DB, p: Plan): (q: Plan)
    requires WellTyped(p)
    ensures Similar(p, q)
  {
    AfterIsSimilar(db, p);
    BatchAll(db, p).after
  }

  /** The builders after n loads from the same database. */
  ghost function AfterLoads(db: DB, p: Plan, n: nat): (q: Plan)
    requires WellTyped(p)
    ensures WellTyped(q)
    decreases n
  {
    if n == 0 then p else AfterLoads(db, AfterLoad(db, p), n - 1)
  }

  lemma {:induction false} RerunOnce(db: DB, p: Plan)
    requires WellFormed(db) && ZeroFree(db) && WellTyped(p) && WholeBelow(p) && BatchAll(db, p).res.Success?
    ensures var q := BatchAll(db, p).after;
            WellTyped(q) && WholeBelow(q) && BatchAll(db, q).res == BatchAll(db, p).res
  {
    var rows := Select(db, SpecOf(p));
    var q := BatchAll(db, p).after;
    AfterIsSimilar(db, p);
    Agree(db, p);
    forall row | row in rows ensures View(db, q, row) == View(db, p, row) && RowReady(db, q, row) {
      StableRow(db, p, row);
    }
    Agree(db, q);
    ViewsAt(db, p, rows);
    ViewsAt(db, q, rows);
    forall i | 0 <= i < |rows| ensures View(db, q, rows[i]) == View(db, p, rows[i]) { assert rows[i] in rows; }
    assert Views(db, q, rows) == Views(db, p, rows);
  }

  ghost predicate Returns(db: DB, p: Plan, res: Result<seq<Loaded>, Error>) {
    WellTyped(p) && WholeBelow(p) && BatchAll(db, p).res == res
  }

  lemma {:induction false} OneMoreRerun(db: DB, p: Plan, res: Result<seq<Loaded>, Error>)
    requires WellFormed(db) && ZeroFree(db) && res.Success? && Returns(db, p, res)
    ensures Returns(db, AfterLoad(db, p), res)
  {
    RerunOnce(db, p);
  }

  lemma {:induction false} RerunsReturn(db: DB, p: Plan, n: nat, res: Result<seq<Loaded>, Error>) returns (q: Plan)
    requires WellFormed(db) && ZeroFree(db) && res.Success? && Returns(db, p, res)
    ensures q == AfterLoads(db, p, n) && Returns(db, q, res)
    decreases n
  {
    q := p;
    if n > 0 {
      OneMoreRerun(db, p, res);
      q := RerunsReturn(db, AfterLoad(db, p), n - 1, res);
    }
  }

  /** On an unchanged database every further run of the same builders returns what the first one returned. */
  lemma {:induction false} Reruns(db: DB, p: Plan, n: nat)
    requires WellFormed(db) && ZeroFree(db) && WellTyped(p) && WholeBelow(p) && BatchAll(db, p).res.Success?
    ensures WholeBelow(AfterLoads(db, p, n))
    ensures BatchAll(db, AfterLoads(db, p, n)).res == BatchAll(db, p).res
  {
    var q := RerunsReturn(db, p, n, BatchAll(db, p).res);
  }

  // ----- on a changing database -----

  /** The builders after one load from each of the databases in turn. */
  ghost function AfterRuns(dbs: seq<DB>, p: Plan): (q: Plan)
    requires WellTyped(p)
    ensures Similar(p, q)
    decreases |dbs|
  {
    if dbs == [] then
      SimilarByEdges(p, p);
      p
    else
      AfterLoad(dbs[|dbs| - 1], AfterRuns(dbs[..|dbs| - 1], p))
  }

  /** If the run returned anything, it returned a node with this identifier. */
  ghost predicate Seen(db: DB, p: Plan, id: nat) {
    Select(db, SpecOf(p)) != [] ==> id in Ids(NodesOf(db, p))
  }

  ghost predicate SeenByAll(dbs: seq<DB>, p: Plan, id: nat) {
    forall i :: 0 <= i < |dbs| ==> Seen(dbs[i], p, id)
  }

  /** The builder of an edge before and after runs: only what loads change is different. */
  ghost predicate SameSettings(before: Plan, after: Plan) {
    && after.entity == before.entity && after.inters == before.inters && after.order == before.order
    && after.limit == before.limit && after.offset == before.offset
  }

  /** What the builder of the children still accepts after a run. */
  lemma {:induction false} ChildPredicatesOnce(db: DB, p: Plan, kid: Row, id: nat)
    requires WellTyped(p) && p.many.Some? && PrepareError(p).None?
    requires Pointer(kid, ManyEdge(p.entity).value.column) == Some(id)
    ensures var before, after := p.many.value, AfterLoad(db, p).many.value;
            && SameSettings(before, after)
            && (SatAll(after.preds, kid) <==> SatAll(before.preds, kid) && Seen(db, p, id))
  {
    var ids := Ids(NodesOf(db, p));
    ManyAfter(db, p);
    if Select(db, SpecOf(p)) != [] {
      var child := Keyed(p.many.value, ManyEdge(p.entity).value);
      var bound := [InValues(ManyEdge(p.entity).value.column, ids)];
      SatAllConcat(child.preds, bound, kid);
      assert SatAll(bound, kid) <==> Sat(bound[0], kid);
    }
  }

  /** The builder of the children after a run: bound to the identifiers of the run, unless it returned nothing. */
  lemma {:induction false} ManyAfter(db: DB, p: Plan)
    requires WellTyped(p) && p.many.Some? && PrepareError(p).None?
    ensures if Select(db, SpecOf(p)) == [] then AfterLoad(db, p) == p
            else Similar(ChildrenOf(p, Ids(NodesOf(db, p))), AfterLoad(db, p).many.value)
  {
    var nodes := NodesOf(db, p);
    ProjectedNodes(p, Select(db, SpecOf(p)));
    if nodes != [] {
      assert BatchAll(db, p) == BatchEdges(db, p, nodes);
      ManyOfEdges(db, p, nodes);
      AfterIsSimilar(db, ChildrenOf(p, Ids(nodes)));
    }
  }

  lemma {:induction false} ManyOfEdges(db: DB, p: Plan, nodes: seq<Loaded>)
    requires WellTyped(p) && p.many.Some?
    ensures BatchEdges(db, p, nodes).after.many == Some(BatchAll(db, ChildrenOf(p, Ids(nodes))).after)
  {
    assert BatchEdges(db, p, nodes).after.many == BatchMany(db, p, nodes).after;
  }

  /** What it still accepts after any sequence of runs. */
  lemma {:induction false} ChildPredicates(dbs: seq<DB>, p: Plan, kid: Row, id: nat)
    requires WellTyped(p) && p.many.Some? && PrepareError(p).None?
    requires Pointer(kid, ManyEdge(p.entity).value.column) == Some(id)
    ensures var before, after := p.many.value, AfterRuns(dbs, p).many.value;
            && SameSettings(before, after)
            && (SatAll(after.preds, kid) <==> SatAll(before.preds, kid) && SeenByAll(dbs, p, id))
    decreases |dbs|
  {
    if dbs != [] {
      var init, db := dbs[..|dbs| - 1], dbs[|dbs| - 1];
      ChildPredicates(init, p, kid, id);
      ChildPredicatesOnce(db, AfterRuns(init, p), kid, id);
      SeenBySimilar(db, p, AfterRuns(init, p), id);
      SeenByLast(dbs, p, id);
    }
  }

  lemma {:induction false} SeenBySimilar(db: DB, p: Plan, q: Plan, id: nat)
    requires WellTyped(p) && Similar(p, q)
    ensures Seen(db, p, id) == Seen(db, q, id)
  {
    var rows := Select(db, SpecOf(p));
    assert SpecOf(p).columns == SelectedColumns(p) && SpecOf(q).columns == SelectedColumns(q);
    ProjectedNodes(p, rows);
    assert NodesOf(db, p) == NodesOf(db, q) by {
      ProjectedNodes(q, rows);
    }
  }

  lemma {:induction false} SeenByLast(dbs: seq<DB>, p: Plan, id: nat)
    requires dbs != []
    ensures SeenByAll(dbs, p, id) <==> SeenByAll(dbs[..|dbs| - 1], p, id) && Seen(dbs[|dbs| - 1], p, id)
  {
    AllButLast(dbs, (db: DB) => Seen(db, p, id));
  }

  lemma {:induction false} AllButLast(dbs: seq<DB>, seen: DB -> bool)
    requires dbs != []
    ensures var init := dbs[..|dbs| - 1];
            (forall i :: 0 <= i < |dbs| ==> seen(dbs[i])) <==>
            (forall i :: 0 <= i < |init| ==> seen(init[i])) && seen(dbs[|dbs| - 1])
  {
    var init := dbs[..|dbs| - 1];
    if forall i :: 0 <= i < |dbs| ==> seen(dbs[i]) {
      forall i | 0 <= i < |init| ensures seen(init[i]) { assert init[i] == dbs[i]; }
    }
    if (forall i :: 0 <= i < |init| ==> seen(init[i])) && seen(dbs[|dbs| - 1]) {
      forall i | 0 <= i < |dbs| ensures seen(dbs[i]) { if i < |init| { assert init[i] == dbs[i]; } }
    }
  }

  /** After any sequence of runs, the children query of a parent still returns all its children if every run that
      returned anything returned the parent, and returns nothing otherwise. */
  lemma {:induction false} ChildrenAfterRuns(dbs: seq<DB>, db: DB, p: Plan, id: nat)
    requires WellTyped(p) && p.many.Some? && PrepareError(p).None?
    ensures Select(db, SpecOf(ChildrenOf(AfterRuns(dbs, p), [id]))) ==
            if SeenByAll(dbs, p, id) then Select(db, SpecOf(ChildrenOf(p, [id]))) else []
  {
    var s, t := SpecOf(ChildrenOf(p, [id])), SpecOf(ChildrenOf(AfterRuns(dbs, p), [id]));
    SpecAfterRuns(dbs, p, id);
    forall kid | kid in (db.rows)(s.entity)
      ensures SatAll(t.preds, kid) <==> SatAll(s.preds, kid) && SeenByAll(dbs, p, id)
    {
      AcceptedAfterRuns(dbs, p, kid, id);
    }
    SelectUnder(db, s, t, SeenByAll(dbs, p, id));
  }

  lemma {:induction false} SpecAfterRuns(dbs: seq<DB>, p: Plan, id: nat)
    requires WellTyped(p) && p.many.Some? && PrepareError(p).None?
    ensures var s, t := SpecOf(ChildrenOf(p, [id])), SpecOf(ChildrenOf(AfterRuns(dbs, p), [id]));
            t == s.(columns := t.columns, preds := t.preds)
  {
    ChildPredicates(dbs, p, map[ManyEdge(p.entity).value.column := Key(id)], id);
    SpecOfSameSettings(p.many.value, AfterRuns(dbs, p).many.value, ManyEdge(p.entity).value, [id]);
  }

  lemma {:induction false} SpecOfSameSettings(before: Plan, after: Plan, edge: Edge, ids: seq<nat>)
    requires SameSettings(before, after)
    ensures var s, t := SpecOf(Bind(Keyed(before, edge), edge.column, ids)),
                        SpecOf(Bind(Keyed(after, edge), edge.column, ids));
            t == s.(columns := t.columns, preds := t.preds)
  {
  }

  lemma {:induction false} SelectUnder(db: DB, s: QuerySpec, t: QuerySpec, accepted: bool)
    requires t == s.(columns := t.columns, preds := t.preds)
    requires forall row :: row in (db.rows)(s.entity) ==> (SatAll(t.preds, row) <==> SatAll(s.preds, row) && accepted)
    ensures Select(db, t) == if accepted then Select(db, s) else []
  {
    if accepted {
      MatchingAgrees(t.preds, s.preds, (db.rows)(s.entity));
    } else {
      MatchingNone(t.preds, (db.rows)(s.entity));
    }
  }

  lemma {:induction false} AcceptedAfterRuns(dbs: seq<DB>, p: Plan, kid: Row, id: nat)
    requires WellTyped(p) && p.many.Some? && PrepareError(p).None?
    ensures SatAll(ChildrenOf(AfterRuns(dbs, p), [id]).preds, kid) <==>
            SatAll(ChildrenOf(p, [id]).preds, kid) && SeenByAll(dbs, p, id)
  {
    var edge := ManyEdge(p.entity).value;
    var one := [InValues(edge.column, [id])];
    SatAllConcat(p.many.value.preds, one, kid);
    SatAllConcat(AfterRuns(dbs, p).many.value.preds, one, kid);
    assert SatAll(one, kid) <==> Sat(one[0], kid);
    if SatAll(one, kid) { ChildPredicates(dbs, p, kid, id); }
  }

  lemma {:induction false} IdsOfViews(db: DB, p: Plan, rows: seq<Row>)
    requires WellTyped(p)
    ensures Ids(Views(db, p, rows)) == RowIds(p.entity, rows)
  {
    if rows != [] {
      IdsOfViews(db, p, rows[1..]);
      ViewIds(db, p, rows);
      assert Views(db, p, rows)[1..] == Views(db, p, rows[1..]);
    }
  }

  /** A load with builders that were run before, on whatever databases, attaches to a node exactly the children it
      would get from fresh builders if every earlier run that returned anything returned the node, and none otherwise.
      A parent that was inserted between two runs gets no children. */
  lemma {:induction false} RerunsAttach(dbs: seq<DB>, db: DB, p: Plan)
    requires WellFormed(db) && ZeroFree(db) && WellTyped(p) && WholeBelow(p) && p.many.Some?
    requires BatchAll(db, AfterRuns(dbs, p)).res.Success?
    ensures var rows := Select(db, SpecOf(p));
            var nodes := BatchAll(db, AfterRuns(dbs, p)).res.value;
            && |nodes| == |rows|
            && forall i :: 0 <= i < |rows| ==>
                 var id := IdOf(p.entity, rows[i]);
                 Ids(nodes[i].many) ==
                 if SeenByAll(dbs, p, id)
                 then RowIds(p.many.value.entity, Select(db, SpecOf(ChildrenOf(p, [id]))))
                 else []
  {
    var rows := Select(db, SpecOf(p));
    var q := AfterRuns(dbs, p);
    Agree(db, q);
    ViewsAt(db, q, rows);
    forall i | 0 <= i < |rows|
      ensures var id := IdOf(p.entity, rows[i]);
              Ids(ViewMany(db, q, rows[i])) ==
              if SeenByAll(dbs, p, id)
              then RowIds(p.many.value.entity, Select(db, SpecOf(ChildrenOf(p, [id]))))
              else []
    {
      var id := IdOf(p.entity, rows[i]);
      ChildrenAfterRuns(dbs, db, p, id);
      var children := ChildrenOf(q, [id]);
      IdsOfViews(db, children, Select(db, SpecOf(children)));
    }
  }

  // ----- parents on a changing database -----

  /** If the run came to query parents, it asked for this key. */
  ghost predicate Asked(db: DB, p: Plan, key: nat)
    requires WellTyped(p) && p.one.Some?
  {
    var m := BatchMany(db, p, NodesOf(db, p)).res;
    Select(db, SpecOf(p)) != [] && m.Success? ==>
      var keys := Keys(OneEdge(p.entity).value, m.value);
      keys != [] ==> key in keys
  }

  /** Every run that came to query parents did; what a run comes to depends on the runs before it. */
  ghost predicate AskedByAll(dbs: seq<DB>, p: Plan, key: nat)
    requires WellTyped(p) && p.one.Some?
    decreases |dbs|
  {
    dbs == [] ||
    (AskedByAll(dbs[..|dbs| - 1], p, key) && Asked(dbs[|dbs| - 1], AfterRuns(dbs[..|dbs| - 1], p), key))
  }

  /** The builder of the parents after a run: bound to the keys of the run, unless it came to query none. */
  lemma {:induction false} OneAfter(db: DB, p: Plan)
    requires WellTyped(p) && p.one.Some? && PrepareError(p).None?
    ensures var m := BatchMany(db, p, NodesOf(db, p)).res;
            if Select(db, SpecOf(p)) != [] && m.Success? && Keys(OneEdge(p.entity).value, m.value) != []
            then Similar(ParentsOf(p, Keys(OneEdge(p.entity).value, m.value)), AfterLoad(db, p).one.value)
            else AfterLoad(db, p).one == p.one
  {
    var nodes := NodesOf(db, p);
    ProjectedNodes(p, Select(db, SpecOf(p)));
    if nodes != [] {
      assert BatchAll(db, p) == BatchEdges(db, p, nodes);
      OneOfEdges(db, p, nodes);
    }
  }

  lemma {:induction false} OneOfEdges(db: DB, p: Plan, nodes: seq<Loaded>)
    requires WellTyped(p) && p.one.Some?
    ensures var m := BatchMany(db, p, nodes).res;
            var after := BatchEdges(db, p, nodes).after;
            if m.Success? && Keys(OneEdge(p.entity).value, m.value) != []
            then after.one.Some? && Similar(ParentsOf(p, Keys(OneEdge(p.entity).value, m.value)), after.one.value)
            else after.one == p.one
  {
    var m := BatchMany(db, p, nodes).res;
    if m.Success? { OneOfOne(db, p, m.value); }
  }

  lemma {:induction false} OneOfOne(db: DB, p: Plan, nodes: seq<Loaded>)
    requires WellTyped(p) && p.one.Some?
    ensures var keys := Keys(OneEdge(p.entity).value, nodes);
            var after := BatchOne(db, p, nodes).after;
            if keys != [] then after.Some? && Similar(ParentsOf(p, keys), after.value) else after == p.one
  {
    var keys := Keys(OneEdge(p.entity).value, nodes);
    if keys != [] { AfterIsSimilar(db, ParentsOf(p, keys)); }
  }

  lemma {:induction false} ParentPredicatesOnce(db: DB, p: Plan, parent: Row, key: nat)
    requires WellTyped(p) && p.one.Some? && PrepareError(p).None?
    requires Pointer(parent, IdColumn(OneEdge(p.entity).value.target)) == Some(key)
    ensures var before, after := p.one.value, AfterLoad(db, p).one.value;
            && SameSettings(before, after)
            && (SatAll(after.preds, parent) <==> SatAll(before.preds, parent) && Asked(db, p, key))
  {
    OneAfter(db, p);
    var m := BatchMany(db, p, NodesOf(db, p)).res;
    if m.Success? {
      var bound := [InValues(IdColumn(OneEdge(p.entity).value.target), Keys(OneEdge(p.entity).value, m.value))];
      SatAllConcat(p.one.value.preds, bound, parent);
      assert SatAll(bound, parent) <==> Sat(bound[0], parent);
    }
  }

  lemma {:induction false} ParentPredicates(dbs: seq<DB>, p: Plan, parent: Row, key: nat)
    requires WellTyped(p) && p.one.Some? && PrepareError(p).None?
    requires Pointer(parent, IdColumn(OneEdge(p.entity).value.target)) == Some(key)
    ensures var before, after := p.one.value, AfterRuns(dbs, p).one.value;
            && SameSettings(before, after)
            && (SatAll(after.preds, parent) <==> SatAll(before.preds, parent) && AskedByAll(dbs, p, key))
    decreases |dbs|
  {
    if dbs != [] {
      var init := dbs[..|dbs| - 1];
      ParentPredicates(init, p, parent, key);
      ParentPredicatesOnce(dbs[|dbs| - 1], AfterRuns(init, p), parent, key);
    }
  }

  /** After any sequence of runs, the query for one parent still finds it if every run that came to query parents asked
      for it, and finds nothing otherwise. */
  lemma {:induction false} ParentsAfterRuns(dbs: seq<DB>, db: DB, p: Plan, key: nat)
    requires WellTyped(p) && p.one.Some? && PrepareError(p).None?
    ensures Select(db, SpecOf(ParentsOf(AfterRuns(dbs, p), [key]))) ==
            if AskedByAll(dbs, p, key) then Select(db, SpecOf(ParentsOf(p, [key]))) else []
  {
    var s, t := SpecOf(ParentsOf(p, [key])), SpecOf(ParentsOf(AfterRuns(dbs, p), [key]));
    var id := IdColumn(OneEdge(p.entity).value.target);
    ParentPredicates(dbs, p, map[id := Key(key)], key);
    forall parent | parent in (db.rows)(s.entity)
      ensures SatAll(t.preds, parent) <==> SatAll(s.preds, parent) && AskedByAll(dbs, p, key)
    {
      var one := [InValues(id, [key])];
      SatAllConcat(p.one.value.preds, one, parent);
      SatAllConcat(AfterRuns(dbs, p).one.value.preds, one, parent);
      assert SatAll(one, parent) <==> Sat(one[0], parent);
      if SatAll(one, parent) { ParentPredicates(dbs, p, parent, key); }
    }
    SelectUnder(db, s, t, AskedByAll(dbs, p, key));
  }

  /** A load with builders that were run before attaches to a node the parent that it would get from fresh builders if
      every earlier run that came to query parents asked for it, and none otherwise. */
  lemma {:induction false} RerunsAttachParent(dbs: seq<DB>, db: DB, p: Plan)
    requires WellFormed(db) && ZeroFree(db) && WellTyped(p) && WholeBelow(p) && p.one.Some?
    requires BatchAll(db, AfterRuns(dbs, p)).res.Success?
    ensures var rows := Select(db, SpecOf(p));
            var nodes := BatchAll(db, AfterRuns(dbs, p)).res.value;
            && |nodes| == |rows|
            && forall i :: 0 <= i < |rows| ==>
                 var key := Pointer(rows[i], OneEdge(p.entity).value.column);
                 && (nodes[i].one.Some? <==>
                       key.Some? && AskedByAll(dbs, p, key.value) && ViewOne(db, p, rows[i]).Some?)
                 && (nodes[i].one.Some? ==> NodeId(nodes[i].one.value) == key.value)
  {
    var rows := Select(db, SpecOf(p));
    var q := AfterRuns(dbs, p);
    Agree(db, q);
    ViewsAt(db, q, rows);
    forall i | 0 <= i < |rows|
      ensures var key := Pointer(rows[i], OneEdge(p.entity).value.column);
              var one := ViewOne(db, q, rows[i]);
              && (one.Some? <==> key.Some? && AskedByAll(dbs, p, key.value) && ViewOne(db, p, rows[i]).Some?)
              && (one.Some? ==> NodeId(one.value) == key.value)
    {
      if Pointer(rows[i], OneEdge(p.entity).value.column).Some? { ParentAfterRuns(dbs, db, p, rows[i]); }
    }
  }

  lemma {:induction false} ParentAfterRuns(dbs: seq<DB>, db: DB, p: Plan, row: Row)
    requires WellFormed(db) && WellTyped(p) && p.one.Some? && PrepareError(p).None?
    requires Pointer(row, OneEdge(p.entity).value.column).Some?
    ensures var key := Pointer(row, OneEdge(p.entity).value.column).value;
            var one := ViewOne(db, AfterRuns(dbs, p), row);
            && (one.Some? <==> AskedByAll(dbs, p, key) && ViewOne(db, p, row).Some?)
            && (one.Some? ==> NodeId(one.value) == key)
  {
    var key := Pointer(row, OneEdge(p.entity).value.column).value;
    var q := AfterRuns(dbs, p);
    ParentsAfterRuns(dbs, db, p, key);
    FoundParent(db, p, row);
    FoundParent(db, q, row);
  }

  lemma {:induction false} FoundParent(db: DB, p: Plan, row: Row)
    requires WellFormed(db) && WellTyped(p) && p.one.Some?
    requires Pointer(row, OneEdge(p.entity).value.column).Some?
    ensures var key := Pointer(row, OneEdge(p.entity).value.column).value;
            && (ViewOne(db, p, row).Some? <==> Select(db, SpecOf(ParentsOf(p, [key]))) != [])
            && (ViewOne(db, p, row).Some? ==> NodeId(ViewOne(db, p, row).value) == key)
  {
    var key := Pointer(row, OneEdge(p.entity).value.column).value;
    var mine := ParentsOf(p, [key]);
    var rows := Select(db, SpecOf(mine));
    ViewIds(db, mine, rows);
    SelectSound(db, SpecOf(mine));
    if rows != [] {
      assert rows[0] in rows;
      BoundRow(p.one.value, IdColumn(mine.entity), [key], rows[0]);
    }
  }
}
