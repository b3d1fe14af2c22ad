/**
Laws of the batched load: its cost, what it conserves, and what its result does not depend on.
*/
module EagerLaws {
  import opened Schema
  import opened Store
  import opened Plans
  import opened Eager
  import opened EagerAgrees
  import opened Wrappers

  // ----- cost -----

  /** However many rows are returned, a load sends at most one query per builder of the tree. */
  lemma {:induction false} QueriesAreBounded(db: DB, p: Plan)
    requires WellTyped(p)
    ensures BatchAll(db, p).queries <= Size(p)
    decreases Height(p), 1
  {
    var nodes := NodesOf(db, p);
    EdgeQueriesAreBounded(db, p, nodes);
    var m := BatchMany(db, p, nodes);
    if m.res.Success? { EdgeQueriesAreBounded(db, p, m.res.value); }
  }

  lemma {:induction false} EdgeQueriesAreBounded(db: DB, p: Plan, nodes: seq<Loaded>)
    requires WellTyped(p)
    ensures BatchMany(db, p, nodes).queries <= if p.many.Some? then Size(p.many.value) else 0
    ensures BatchOne(db, p, nodes).queries <= if p.one.Some? then Size(p.one.value) else 0
    decreases Height(p), 0
  {
    if p.many.Some? { QueriesAreBounded(db, ChildrenOf(p, Ids(nodes))); }
    if p.one.Some? {
      var keys := Keys(OneEdge(p.entity).value, nodes);
      if keys != [] { QueriesAreBounded(db, ParentsOf(p, keys)); }
    }
  }

  // ----- conservation -----

  function Adopted(nodes: seq<Loaded>): seq<Loaded> {
    if nodes == [] then [] else nodes[0].many + Adopted(nodes[1..])
  }

  /** The children whose foreign key is in the list. */
  function Claimed(edge: Edge, ids: seq<nat>, kids: seq<Loaded>): seq<Loaded> {
    if kids == [] then []
    else
      var key := ForeignKey(edge, kids[0].values);
      (if key.Some? && key.value in ids then [kids[0]] else []) + Claimed(edge, ids, kids[1..])
  }

  lemma {:induction false} ClaimedSplits(edge: Edge, id: nat, ids: seq<nat>, kids: seq<Loaded>)
    ensures multiset(Claimed(edge, [id] + ids, kids)) ==
            multiset(Claimed(edge, ids, kids)) + multiset(if id in ids then [] else WithForeignKey(edge, id, kids))
  {
    if kids != [] {
      ClaimedSplits(edge, id, ids, kids[1..]);
      var more := Claimed(edge, [id] + ids, kids[1..]);
      var less := Claimed(edge, ids, kids[1..]);
      var mine := if id in ids then [] else WithForeignKey(edge, id, kids[1..]);
      FirstSplits(edge, id, ids, kids[0], more, less, mine);
    }
  }

  /** One more child in front. */
  lemma {:induction false} FirstSplits(
    edge: Edge, id: nat, ids: seq<nat>, kid: Loaded, more: seq<Loaded>, less: seq<Loaded>, mine: seq<Loaded>)
    requires multiset(more) == multiset(less) + multiset(mine)
    ensures var key := ForeignKey(edge, kid.values);
            multiset((if key.Some? && key.value in [id] + ids then [kid] else []) + more) ==
            multiset((if key.Some? && key.value in ids then [kid] else []) + less) +
            multiset(if id in ids then mine else (if key == Some(id) then [kid] else []) + mine)
  {
  }

  lemma {:induction false} AllClaimed(edge: Edge, ids: seq<nat>, kids: seq<Loaded>)
    requires StrayChild(edge, ids, kids).None?
    ensures Claimed(edge, ids, kids) == kids
  {
    if kids != [] { AllClaimed(edge, ids, kids[1..]); }
  }

  lemma {:induction false} NoneClaimed(edge: Edge, kids: seq<Loaded>)
    ensures Claimed(edge, [], kids) == []
  {
    if kids != [] { NoneClaimed(edge, kids[1..]); }
  }

  /** Adoption gives every child with a known key to exactly one node, also when nodes share an identifier. */
  lemma {:induction false} AdoptClaims(edge: Edge, nodes: seq<Loaded>, kids: seq<Loaded>)
    ensures multiset(Adopted(Adopt(edge, nodes, kids))) == multiset(Claimed(edge, Ids(nodes), kids))
  {
    if nodes == [] {
      NoneClaimed(edge, kids);
    } else {
      AdoptClaims(edge, nodes[1..], kids);
      ClaimedSplits(edge, NodeId(nodes[0]), Ids(nodes[1..]), kids);
      var adopted := Adopt(edge, nodes, kids);
      assert adopted[1..] == Adopt(edge, nodes[1..], kids);
    }
  }

  /** When no child is refused, the children of all nodes together are the children that the query returned: none is
      lost and none is given twice. */
  lemma {:induction false} AdoptConserves(edge: Edge, nodes: seq<Loaded>, kids: seq<Loaded>)
    requires StrayChild(edge, Ids(nodes), kids).None?
    ensures multiset(Adopted(Adopt(edge, nodes, kids))) == multiset(kids)
  {
    AdoptClaims(edge, nodes, kids);
    AllClaimed(edge, Ids(nodes), kids);
  }

  /** The keys of a many-to-one load are listed in order of first occurrence. */
  lemma {:induction false} KeysInOrder(edge: Edge, nodes: seq<Loaded>, i: nat, j: nat)
    requires i < j < |Keys(edge, nodes)|
    ensures exists a :: 0 <= a < |nodes| && ForeignKey(edge, nodes[a].values) == Some(Keys(edge, nodes)[i])
                        && forall b :: 0 <= b <= a ==> ForeignKey(edge, nodes[b].values) != Some(Keys(edge, nodes)[j])
  {
    var init := nodes[..|nodes| - 1];
    var keys := Keys(edge, nodes);
    var before := Keys(edge, init);
    KeysAreTheKeys(edge, init);
    if j < |before| {
      KeysInOrder(edge, init, i, j);
      var a :| 0 <= a < |init| && ForeignKey(edge, init[a].values) == Some(before[i])
               && forall b :: 0 <= b <= a ==> ForeignKey(edge, init[b].values) != Some(before[j]);
      assert ForeignKey(edge, nodes[a].values) == Some(keys[i]);
      forall b | 0 <= b <= a ensures ForeignKey(edge, nodes[b].values) != Some(keys[j]) { assert init[b] == nodes[b]; }
    } else {
      assert keys[i] in before;
      var a :| 0 <= a < |init| && ForeignKey(edge, init[a].values) == Some(keys[i]);
      assert ForeignKey(edge, nodes[a].values) == Some(keys[i]);
      forall b | 0 <= b <= a ensures ForeignKey(edge, nodes[b].values) != Some(keys[j]) { assert init[b] == nodes[b]; }
    }
  }

  // ----- projection -----

  /** A loaded graph without the columns: identifiers and edges. */
  datatype Shape = Shape(id: nat, loadedMany: bool, loadedOne: bool, many: seq<Shape>, one: Option<Shape>)

  function ShapeOf(n: Loaded): Shape
    decreases n
  {
    Shape(NodeId(n), n.loadedMany, n.loadedOne, ShapesOf(n.many),
          if n.one.Some? then Some(ShapeOf(n.one.value)) else None)
  }

  function ShapesOf(ns: seq<Loaded>): seq<Shape>
    decreases ns
  {
    if ns == [] then [] else [ShapeOf(ns[0])] + ShapesOf(ns[1..])
  }

  /** The tree of builders with every column selection removed. */
  function Unselected(p: Plan): Plan {
    p.(fields := [], withFKs := false,
       many := if p.many.Some? then Some(Unselected(p.many.value)) else None,
       one := if p.one.Some? then Some(Unselected(p.one.value)) else None)
  }

  lemma {:induction false} UnselectedIsTyped(p: Plan)
    requires WellTyped(p)
    ensures WellTyped(Unselected(p)) && Height(Unselected(p)) == Height(p)
  {
    if p.many.Some? { UnselectedIsTyped(p.many.value); }
    if p.one.Some? { UnselectedIsTyped(p.one.value); }
  }

  lemma {:induction false} UnselectedTwice(p: Plan)
    ensures Unselected(Unselected(p)) == Unselected(p)
  {
    if p.many.Some? { UnselectedTwice(p.many.value); }
    if p.one.Some? { UnselectedTwice(p.one.value); }
  }

  lemma {:induction false} ShapeForgetsColumns(db: DB, p: Plan, row: Row)
    requires WellTyped(p)
    ensures WellTyped(Unselected(p)) && ShapeOf(View(db, p, row)) == ShapeOf(View(db, Unselected(p), row))
    decreases Height(p), 1
  {
    UnselectedIsTyped(p);
    var q := Unselected(p);
    KeysAreSelected(p);
    KeysAreSelected(q);
    SelectedIsRead(SelectedColumns(p), row, IdColumn(p.entity));
    SelectedIsRead(SelectedColumns(q), row, IdColumn(p.entity));
    ChildShapesForgetColumns(db, p, q, row);
    ParentShapeForgetsColumns(db, p, q, row);
  }

  lemma {:induction false} SelectIgnoresColumns(db: DB, s: QuerySpec, t: QuerySpec)
    requires t == s.(columns := t.columns)
    ensures Select(db, s) == Select(db, t)
  {
  }

  /** The queries of the edges do not depend on the columns either. */
  lemma {:induction false} UnselectedChildren(db: DB, p: Plan, q: Plan, ids: seq<nat>)
    requires WellTyped(p) && WellTyped(q) && q == Unselected(p) && p.many.Some?
    ensures var c, d := ChildrenOf(p, ids), ChildrenOf(q, ids);
            && Unselected(c) == Unselected(d) && Height(c) == Height(d)
            && Select(db, SpecOf(c)) == Select(db, SpecOf(d))
  {
    UnselectedEdge(db, p.many.value, ManyEdge(p.entity).value, ids);
  }

  lemma {:induction false} UnselectedEdge(db: DB, p: Plan, edge: Edge, ids: seq<nat>)
    requires WellTyped(p)
    ensures var c, d := Bind(Keyed(p, edge), edge.column, ids), Bind(Keyed(Unselected(p), edge), edge.column, ids);
            && Unselected(c) == Unselected(d) && Height(c) == Height(d)
            && Select(db, SpecOf(c)) == Select(db, SpecOf(d))
  {
    var c, d := Bind(Keyed(p, edge), edge.column, ids), Bind(Keyed(Unselected(p), edge), edge.column, ids);
    UnselectedTwice(p);
    UnselectedIsTyped(p);
    assert c.many == p.many && c.one == p.one && d.many == Unselected(p).many && d.one == Unselected(p).one;
    assert Unselected(c) == Unselected(p).(preds := c.preds) && Unselected(d) == Unselected(p).(preds := d.preds);
    SelectIgnoresColumns(db, SpecOf(c), SpecOf(d));
  }

  lemma {:induction false} UnselectedParents(db: DB, p: Plan, q: Plan, keys: seq<nat>)
    requires WellTyped(p) && WellTyped(q) && q == Unselected(p) && p.one.Some?
    ensures var c, d := ParentsOf(p, keys), ParentsOf(q, keys);
            && Unselected(c) == Unselected(d) && Height(c) == Height(d)
            && Select(db, SpecOf(c)) == Select(db, SpecOf(d))
  {
    var c, d := ParentsOf(p, keys), ParentsOf(q, keys);
    UnselectedTwice(p.one.value);
    UnselectedIsTyped(p.one.value);
    SelectIgnoresColumns(db, SpecOf(c), SpecOf(d));
  }

  function FirstOf(ns: seq<Loaded>): Option<Loaded> {
    if ns == [] then None else Some(ns[0])
  }

  lemma {:induction false} FirstShape(ns: seq<Loaded>, ms: seq<Loaded>)
    requires ShapesOf(ns) == ShapesOf(ms)
    ensures ns == [] <==> ms == []
    ensures ns != [] ==> ShapeOf(ns[0]) == ShapeOf(ms[0])
  {
    if ns != [] && ms != [] {
      assert ShapesOf(ns)[0] == ShapeOf(ns[0]) && ShapesOf(ms)[0] == ShapeOf(ms[0]);
    }
  }

  lemma {:induction false} ChildShapesForgetColumns(db: DB, p: Plan, q: Plan, row: Row)
    requires WellTyped(p) && WellTyped(q) && q == Unselected(p) && Height(q) == Height(p)
    ensures ShapesOf(ViewMany(db, p, row)) == ShapesOf(ViewMany(db, q, row))
    decreases Height(p), 0
  {
    if p.many.Some? {
      var ids := [IdOf(p.entity, row)];
      UnselectedChildren(db, p, q, ids);
      var c, d := ChildrenOf(p, ids), ChildrenOf(q, ids);
      ShapesForgetColumns(db, c, d, Select(db, SpecOf(c)));
    }
  }

  lemma {:induction false} ParentShapeForgetsColumns(db: DB, p: Plan, q: Plan, row: Row)
    requires WellTyped(p) && WellTyped(q) && q == Unselected(p) && Height(q) == Height(p)
    ensures ViewOne(db, p, row).Some? <==> ViewOne(db, q, row).Some?
    ensures ViewOne(db, p, row).Some? ==>
              ShapeOf(ViewOne(db, p, row).value) == ShapeOf(ViewOne(db, q, row).value)
    decreases Height(p), 0
  {
    if p.one.Some? && Pointer(row, OneEdge(p.entity).value.column).Some? {
      var keys := [Pointer(row, OneEdge(p.entity).value.column).value];
      UnselectedParents(db, p, q, keys);
      var c, d := ParentsOf(p, keys), ParentsOf(q, keys);
      var rows := Select(db, SpecOf(c));
      ShapesForgetColumns(db, c, d, rows);
      var vs, ws := Views(db, c, rows), Views(db, d, rows);
      FirstShape(vs, ws);
      assert ViewOne(db, p, row) == FirstOf(vs);
      assert ViewOne(db, q, row) == FirstOf(ws);
    }
  }

  lemma {:induction false} ShapesForgetColumns(db: DB, p: Plan, q: Plan, rows: seq<Row>)
    requires WellTyped(p) && WellTyped(q) && Unselected(p) == Unselected(q) && Height(p) == Height(q)
    ensures ShapesOf(Views(db, p, rows)) == ShapesOf(Views(db, q, rows))
    decreases Height(p), 2, |rows|
  {
    if rows != [] {
      ShapeForgetsColumns(db, p, rows[0]);
      ShapeForgetsColumns(db, q, rows[0]);
      ShapesForgetColumns(db, p, q, rows[1..]);
      var vs, ws := Views(db, p, rows), Views(db, q, rows);
      assert vs[1..] == Views(db, p, rows[1..]) && ws[1..] == Views(db, q, rows[1..]);
    }
  }

  /** Two trees of builders that differ only in the selected columns load the same identifiers and edges. */
  lemma {:induction false} ProjectionInvariance(db: DB, p: Plan, q: Plan)
    requires WellFormed(db) && ZeroFree(db)
    requires WellTyped(p) && WellTyped(q) && WholeBelow(p) && WholeBelow(q)
    requires Unselected(p) == Unselected(q)
    requires BatchAll(db, p).res.Success? && BatchAll(db, q).res.Success?
    ensures ShapesOf(BatchAll(db, p).res.value) == ShapesOf(BatchAll(db, q).res.value)
  {
    Agree(db, p);
    Agree(db, q);
    UnselectedIsTyped(p);
    UnselectedIsTyped(q);
    var rows := Select(db, SpecOf(p));
    assert rows == Select(db, SpecOf(q));
    ShapesForgetColumns(db, p, q, rows);
  }
}
