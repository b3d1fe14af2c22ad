/**
The in-memory joins at the heart of a load: creating the nodes of a result, indexing them, and distributing the
neighbours that one query has returned over them.
*/
module Loaders {
  import opened Schema
  import opened Store
  import opened Plans
  import opened Eager
  import opened EagerAgrees
  import opened Nodes
  import opened Wrappers

  ghost predicate DistinctObjects(nodes: seq<Node>) {
    forall i, j :: 0 <= i < j < |nodes| ==> nodes[i] != nodes[j]
  }

  ghost function ObjectsOf(nodes: seq<Node>): set<Node> {
    set n | n in nodes
  }

  /** The nodes hold what the values hold, edges aside. */
  ghost predicate SameColumns(nodes: seq<Node>, vals: seq<Loaded>) {
    |nodes| == |vals| && forall i :: 0 <= i < |nodes| ==>
      && nodes[i].entity == vals[i].entity && nodes[i].values == vals[i].values
      && nodes[i].loadedMany == vals[i].loadedMany && nodes[i].loadedOne == vals[i].loadedOne
  }

  /** One new node per row. */
  method CreateNodes(e: Entity, loadedMany: bool, loadedOne: bool, rows: seq<Row>, ghost p: Plan)
    returns (nodes: seq<Node>)
    requires p.entity == e && loadedMany == p.many.Some? && loadedOne == p.one.Some?
    ensures fresh(ObjectsOf(nodes)) && DistinctObjects(nodes)
    ensures SameColumns(nodes, BareAll(p, rows))
    ensures forall i :: 0 <= i < |nodes| ==> nodes[i].many == [] && nodes[i].one == null
  {
    nodes := [];
    BareAllAt(p, rows);
    for i := 0 to |rows|
      invariant |nodes| == i && fresh(ObjectsOf(nodes)) && DistinctObjects(nodes)
      invariant forall k :: 0 <= k < i ==>
                  && nodes[k].entity == e && nodes[k].values == rows[k]
                  && nodes[k].loadedMany == loadedMany && nodes[k].loadedOne == loadedOne
                  && nodes[k].many == [] && nodes[k].one == null
    {
      var node := new Node(e, rows[i], loadedMany, loadedOne);
      assert forall k :: 0 <= k < i ==> nodes[k] in ObjectsOf(nodes);
      nodes := nodes + [node];
    }
  }

  /** The last node of the list with each identifier. */
  ghost predicate IndexesLast(index: map<nat, Node>, nodes: seq<Node>) {
    && IndexesSome(index, nodes)
    && (forall i :: 0 <= i < |nodes| ==> nodes[i].Id() in index)
    && (forall i :: 0 <= i < |nodes| ==> (index[nodes[i].Id()] == nodes[i] <==> IsLast(nodes, i)))
  }

  ghost predicate IndexesSome(index: map<nat, Node>, nodes: seq<Node>) {
    forall k :: k in index ==> index[k] in nodes && index[k].Id() == k
  }

  ghost predicate IsLast(nodes: seq<Node>, i: nat)
    requires i < |nodes|
  {
    forall j :: i < j < |nodes| ==> nodes[j].Id() != nodes[i].Id()
  }

  lemma {:induction false} IndexesOneMore(index: map<nat, Node>, nodes: seq<Node>, n: Node)
    requires IndexesLast(index, nodes) && n !in nodes
    ensures IndexesLast(index[n.Id() := n], nodes + [n])
  {
    var more, next := nodes + [n], index[n.Id() := n];
    forall i | 0 <= i < |more|
      ensures next[more[i].Id()] == more[i] <==> IsLast(more, i)
    {
      if i < |nodes| && more[i].Id() != n.Id() {
        assert forall j :: i < j < |nodes| ==> more[j] == nodes[j];
        assert IsLast(more, i) ==> IsLast(nodes, i) by {
          if IsLast(more, i) {
            forall j | i < j < |nodes| ensures nodes[j].Id() != nodes[i].Id() { assert more[j].Id() != more[i].Id(); }
          }
        }
      } else if i < |nodes| {
        assert more[|nodes|].Id() == more[i].Id();
      }
    }
  }

  lemma {:induction false} IndexesNext(index: map<nat, Node>, nodes: seq<Node>, i: nat)
    requires DistinctObjects(nodes) && i < |nodes| && IndexesLast(index, nodes[..i])
    ensures IndexesLast(index[nodes[i].Id() := nodes[i]], nodes[..i + 1])
  {
    assert nodes[..i + 1] == nodes[..i] + [nodes[i]];
    IndexesOneMore(index, nodes[..i], nodes[i]);
  }

  /** Collects the identifiers of the nodes and indexes the nodes by them. */
  method IndexById(nodes: seq<Node>, ghost vals: seq<Loaded>) returns (fks: seq<nat>, index: map<nat, Node>)
    requires DistinctObjects(nodes) && SameColumns(nodes, vals)
    modifies ObjectsOf(nodes)`many
    ensures fks == Ids(vals) && IndexesLast(index, nodes)
    ensures forall i :: 0 <= i < |nodes| ==> nodes[i].many == []
  {
    fks, index := [], map[];
    for i := 0 to |nodes|
      invariant |fks| == i && forall k :: 0 <= k < i ==> fks[k] == nodes[k].Id()
      invariant IndexesLast(index, nodes[..i])
      invariant forall k :: 0 <= k < i ==> nodes[k].many == []
    {
      IndexesNext(index, nodes, i);
      fks := fks + [nodes[i].Id()];
      index := index[nodes[i].Id() := nodes[i]];
      nodes[i].many := [];
    }
    assert nodes[..|nodes|] == nodes;
    IdsOfColumns(nodes, vals, fks);
  }

  ghost predicate NoneStray(edge: Edge, ids: set<nat>, ns: seq<Node>) {
    forall i :: 0 <= i < |ns| ==> StrayNode(edge, ids, ns[i]).None?
  }

  lemma {:induction false} NoneStrayMore(edge: Edge, ids: set<nat>, ns: seq<Node>, j: nat)
    requires j < |ns| && NoneStray(edge, ids, ns[..j]) && StrayNode(edge, ids, ns[j]).None?
    ensures ns[..j + 1] == ns[..j] + [ns[j]] && NoneStray(edge, ids, ns[..j + 1])
  {
  }

  /** Appends every child to the node that its foreign key indexes, or stops at the first child that has none. */
  method AssignChildren(edge: Edge, nodes: seq<Node>, index: map<nat, Node>, neighbors: seq<Node>)
    returns (err: Option<Error>, ghost stop: nat)
    requires IndexesSome(index, nodes)
    requires forall i :: 0 <= i < |nodes| ==> nodes[i].many == []
    modifies ObjectsOf(nodes)`many
    ensures stop <= |neighbors| && NoneStray(edge, index.Keys, neighbors[..stop])
    ensures err == if stop == |neighbors| then None else StrayNode(edge, index.Keys, neighbors[stop])
    ensures err.None? <==> stop == |neighbors|
    ensures err.None? ==> AllAdopted(edge, index, nodes, neighbors)
  {
    var j := 0;
    err, stop := None, 0;
    while j < |neighbors|
      invariant 0 <= j == stop <= |neighbors|
      invariant NoneStray(edge, index.Keys, neighbors[..j])
      invariant AllAdopted(edge, index, nodes, neighbors[..j])
    {
      var n := neighbors[j];
      var fk := ForeignKey(edge, n.values);
      if fk.None? { return Some(NilForeignKey(edge.column, n.Id())), j; }
      if fk.value !in index { return Some(UnexpectedForeignKey(edge.column, fk.value)), j; }
      NoneStrayMore(edge, index.Keys, neighbors, j);
      AppendChild(edge, nodes, index, neighbors[..j], n);
      j, stop := j + 1, stop + 1;
    }
    assert neighbors[..j] == neighbors;
  }

  /** The children of a node: those with its identifier as foreign key, if the node is the indexed one. */
  function Share(edge: Edge, index: map<nat, Node>, node: Node, neighbors: seq<Node>): seq<Node> {
    if node.Id() in index && index[node.Id()] == node then WithKey(edge, node.Id(), neighbors) else []
  }

  ghost predicate AllAdopted(edge: Edge, index: map<nat, Node>, nodes: seq<Node>, neighbors: seq<Node>)
    reads ObjectsOf(nodes)
  {
    forall i :: 0 <= i < |nodes| ==> nodes[i].many == Share(edge, index, nodes[i], neighbors)
  }

  /** Appends one child. */
  method AppendChild(edge: Edge, nodes: seq<Node>, index: map<nat, Node>, ghost before: seq<Node>, n: Node)
    requires IndexesSome(index, nodes) && AllAdopted(edge, index, nodes, before)
    requires ForeignKey(edge, n.values).Some? && ForeignKey(edge, n.values).value in index
    modifies ObjectsOf(nodes)`many
    ensures AllAdopted(edge, index, nodes, before + [n])
  {
    var key := ForeignKey(edge, n.values).value;
    var node := index[key];
    node.many := node.many + [n];
    assert (before + [n])[..|before|] == before;
    forall i | 0 <= i < |nodes| ensures nodes[i].many == Share(edge, index, nodes[i], before + [n]) {
      assert nodes[i] == node ==> nodes[i].Id() == key;
    }
  }

  /** The nodes in groups of equal foreign key. */
  ghost predicate IndexesGroups(edge: Edge, index: map<nat, seq<Node>>, keys: seq<nat>, nodes: seq<Node>) {
    && (forall k :: k in index <==> k in keys)
    && (forall k :: k in index ==> index[k] == WithKey(edge, k, nodes))
    && (forall i :: 0 <= i < |nodes| && ForeignKey(edge, nodes[i].values).Some? ==>
          ForeignKey(edge, nodes[i].values).value in index)
  }

  /** Collects the distinct foreign keys of the nodes and groups the nodes by them. Nodes without a key are skipped. */
  method GroupByKey(edge: Edge, nodes: seq<Node>, ghost vals: seq<Loaded>)
    returns (keys: seq<nat>, index: map<nat, seq<Node>>)
    requires SameColumns(nodes, vals)
    ensures keys == Keys(edge, vals) && IndexesGroups(edge, index, keys, nodes)
  {
    keys, index := [], map[];
    for i := 0 to |nodes|
      invariant keys == Keys(edge, vals[..i]) && IndexesGroups(edge, index, keys, nodes[..i])
    {
      GroupsOneMore(edge, index, keys, nodes[..i], nodes[i]);
      assert nodes[..i + 1] == nodes[..i] + [nodes[i]] && vals[..i + 1][..i] == vals[..i];
      var fk := ForeignKey(edge, nodes[i].values);
      if fk.Some? {
        var group := [];
        if fk.value in index { group := index[fk.value]; } else { keys := keys + [fk.value]; }
        index := index[fk.value := group + [nodes[i]]];
      }
    }
    assert nodes[..|nodes|] == nodes && vals[..|nodes|] == vals;
  }

  lemma {:induction false} WithKeyEmpty(edge: Edge, key: nat, nodes: seq<Node>)
    requires forall i :: 0 <= i < |nodes| ==> ForeignKey(edge, nodes[i].values) != Some(key)
    ensures WithKey(edge, key, nodes) == []
  {
    if WithKey(edge, key, nodes) != [] {
      WithKeyIn(edge, key, nodes, WithKey(edge, key, nodes)[0]);
    }
  }

  lemma {:induction false} GroupsOneMore(
    edge: Edge, index: map<nat, seq<Node>>, keys: seq<nat>, nodes: seq<Node>, n: Node)
    requires IndexesGroups(edge, index, keys, nodes)
    ensures var fk := ForeignKey(edge, n.values);
            if fk.None? then IndexesGroups(edge, index, keys, nodes + [n])
            else if fk.value in index then
              IndexesGroups(edge, index[fk.value := index[fk.value] + [n]], keys, nodes + [n])
            else IndexesGroups(edge, index[fk.value := [n]], keys + [fk.value], nodes + [n])
  {
    assert (nodes + [n])[..|nodes|] == nodes;
    var fk := ForeignKey(edge, n.values);
    if fk.Some? && fk.value !in index { WithKeyEmpty(edge, fk.value, nodes); }
  }

  /** Attaches every parent to all nodes of its group, or stops at the first parent that has none. */
  method AssignParents(
    edge: Edge, nodes: seq<Node>, index: map<nat, seq<Node>>, ghost keys: seq<nat>, neighbors: seq<Node>)
    returns (err: Option<Error>, ghost stop: nat)
    requires DistinctObjects(nodes) && IndexesGroups(edge, index, keys, nodes)
    requires forall i :: 0 <= i < |nodes| ==> nodes[i].one == null
    modifies ObjectsOf(nodes)`one
    ensures AllKnown(keys, neighbors, stop)
    ensures stop < |neighbors| ==>
              neighbors[stop].Id() !in keys && err == Some(UnexpectedForeignKey(edge.column, neighbors[stop].Id()))
    ensures stop == |neighbors| ==> err == None
    ensures err.None? ==> AllAttached(edge, nodes, neighbors)
  {
    stop := 0;
    NoneAttached(edge, nodes, neighbors);
    for j := 0 to |neighbors|
      invariant stop == j && AllKnown(keys, neighbors, j)
      invariant AllAttached(edge, nodes, neighbors[..j])
    {
      var known := AttachNext(edge, nodes, index, keys, neighbors, j);
      if !known { return Some(UnexpectedForeignKey(edge.column, neighbors[j].Id())), j; }
      KnownOneMore(keys, neighbors, j);
      stop := stop + 1;
    }
    AllOf(neighbors);
    err := None;
  }

  /** The keys of the first of them were asked for. */
  ghost predicate AllKnown(keys: seq<nat>, neighbors: seq<Node>, stop: nat) {
    stop <= |neighbors| && forall j :: 0 <= j < stop ==> neighbors[j].Id() in keys
  }

  lemma {:induction false} KnownOneMore(keys: seq<nat>, neighbors: seq<Node>, j: nat)
    requires AllKnown(keys, neighbors, j) && j < |neighbors| && neighbors[j].Id() in keys
    ensures AllKnown(keys, neighbors, j + 1)
  {
  }

  lemma {:induction false} NoneAttached(edge: Edge, nodes: seq<Node>, neighbors: seq<Node>)
    requires forall i :: 0 <= i < |nodes| ==> nodes[i].one == null
    ensures AllAttached(edge, nodes, neighbors[..0])
  {
    assert neighbors[..0] == [];
  }

  lemma {:induction false} AllOf(nodes: seq<Node>)
    ensures nodes[..|nodes|] == nodes
  {
  }

  /** Attaches the next parent to its group, if it has one. */
  method AttachNext(
    edge: Edge, nodes: seq<Node>, index: map<nat, seq<Node>>, ghost keys: seq<nat>, neighbors: seq<Node>, j: nat)
    returns (known: bool)
    requires DistinctObjects(nodes) && IndexesGroups(edge, index, keys, nodes)
    requires j < |neighbors| && AllAttached(edge, nodes, neighbors[..j])
    modifies ObjectsOf(nodes)`one
    ensures known <==> neighbors[j].Id() in keys
    ensures known ==> AllAttached(edge, nodes, neighbors[..j + 1])
  {
    known := neighbors[j].Id() in index;
    if !known { return; }
    AttachGroup(edge, nodes, index[neighbors[j].Id()], neighbors[..j], neighbors[j]);
    OneMore(neighbors, j);
  }

  lemma {:induction false} OneMore(nodes: seq<Node>, i: nat)
    requires i < |nodes|
    ensures nodes[..i + 1] == nodes[..i] + [nodes[i]]
  {
  }

  ghost predicate AllAttached(edge: Edge, nodes: seq<Node>, neighbors: seq<Node>)
    reads ObjectsOf(nodes)
  {
    forall i :: 0 <= i < |nodes| ==>
      var key := ForeignKey(edge, nodes[i].values);
      nodes[i].one == if key.Some? then LastNode(key.value, neighbors) else null
  }

  /** Attaches one parent to its group. */
  method AttachGroup(edge: Edge, nodes: seq<Node>, group: seq<Node>, ghost before: seq<Node>, n: Node)
    requires DistinctObjects(nodes) && group == WithKey(edge, n.Id(), nodes)
    requires AllAttached(edge, nodes, before)
    modifies ObjectsOf(nodes)`one
    ensures AllAttached(edge, nodes, before + [n])
  {
    forall m | m in group ensures m in ObjectsOf(nodes) { WithKeyIn(edge, n.Id(), nodes, m); }
    for i := 0 to |group|
      invariant forall k :: 0 <= k < |nodes| ==>
                  nodes[k].one == if nodes[k] in group[..i] then n else old(nodes[k].one)
    {
      assert group[i] in group;
      group[i].one := n;
      assert group[..i + 1] == group[..i] + [group[i]];
    }
    assert group[..|group|] == group;
    assert (before + [n])[..|before|] == before;
    forall k | 0 <= k < |nodes|
      ensures nodes[k] in group <==> ForeignKey(edge, nodes[k].values) == Some(n.Id())
    {
      WithKeyIn(edge, n.Id(), nodes, nodes[k]);
    }
  }

  // ----- the loaders compute the list functions of the batched load -----

  lemma {:induction false} IdsOfColumns(nodes: seq<Node>, vals: seq<Loaded>, fks: seq<nat>)
    requires SameColumns(nodes, vals)
    requires |fks| == |nodes| && forall i :: 0 <= i < |nodes| ==> fks[i] == nodes[i].Id()
    ensures fks == Ids(vals)
  {
    IdsAt(vals);
  }

  lemma {:induction false} IndexedIds(index: map<nat, Node>, nodes: seq<Node>, fks: seq<nat>)
    requires IndexesLast(index, nodes)
    requires |fks| == |nodes| && forall i :: 0 <= i < |nodes| ==> fks[i] == nodes[i].Id()
    ensures forall k :: k in index.Keys <==> k in fks
  {
    forall k | k in index ensures k in fks {
      var i :| 0 <= i < |nodes| && nodes[i] == index[k];
      assert fks[i] == k;
    }
    forall k | k in fks ensures k in index {
      var i :| 0 <= i < |fks| && fks[i] == k;
      assert nodes[i].Id() in index;
    }
  }

  lemma {:induction false} AdoptedShows(
    edge: Edge, index: map<nat, Node>, nodes: seq<Node>, vals: seq<Loaded>,
    kids: seq<Node>, kidVals: seq<Loaded>, S: set<Node>)
    requires SameColumns(nodes, vals) && IndexesLast(index, nodes)
    requires ShowsAll(kids, kidVals, S) && AllAdopted(edge, index, nodes, kids)
    ensures |Adopt(edge, vals, kidVals)| == |nodes|
    ensures forall i :: 0 <= i < |nodes| ==> ShowsAll(nodes[i].many, Adopt(edge, vals, kidVals)[i].many, S)
  {
    AdoptAt(edge, vals, kidVals);
    forall i | 0 <= i < |nodes| ensures ShowsAll(nodes[i].many, Adopt(edge, vals, kidVals)[i].many, S) {
      LastIsNotAmongTheRest(nodes, vals, i);
      WithKeyShows(edge, nodes[i].Id(), kids, kidVals, S);
      assert nodes[i].Id() in index;
    }
  }

  lemma {:induction false} LastIsNotAmongTheRest(nodes: seq<Node>, vals: seq<Loaded>, i: nat)
    requires SameColumns(nodes, vals) && i < |nodes|
    ensures IsLast(nodes, i) <==> nodes[i].Id() !in Ids(vals[i + 1..])
  {
    var rest := vals[i + 1..];
    IdsAt(rest);
    forall j | 0 <= j < |rest| ensures Ids(rest)[j] == nodes[i + 1 + j].Id() {
      assert rest[j] == vals[i + 1 + j];
    }
    if nodes[i].Id() !in Ids(rest) {
      forall j | i < j < |nodes| ensures nodes[j].Id() != nodes[i].Id() {
        assert Ids(rest)[j - i - 1] == nodes[j].Id();
      }
    }
  }

  lemma {:induction false} AttachedShows(
    edge: Edge, nodes: seq<Node>, vals: seq<Loaded>, parents: seq<Node>, parentVals: seq<Loaded>, S: set<Node>)
    requires SameColumns(nodes, vals)
    requires ShowsAll(parents, parentVals, S) && AllAttached(edge, nodes, parents)
    ensures var attached := AttachParents(edge, vals, parentVals);
            && |attached| == |nodes|
            && forall i :: 0 <= i < |nodes| ==>
                 && (attached[i].one.Some? <==> nodes[i].one != null)
                 && (attached[i].one.Some? ==> Shows(nodes[i].one, attached[i].one.value, S))
  {
    AttachParentsAt(edge, vals, parentVals);
    forall i | 0 <= i < |nodes|
      ensures var attached := AttachParents(edge, vals, parentVals);
              && (attached[i].one.Some? <==> nodes[i].one != null)
              && (attached[i].one.Some? ==> Shows(nodes[i].one, attached[i].one.value, S))
    {
      var key := ForeignKey(edge, nodes[i].values);
      if key.Some? { LastNodeShows(key.value, parents, parentVals, S); }
    }
  }

  /** Distributes the children that a query has returned over their parents. */
  method AdoptChildren(
    edge: Edge, nodes: seq<Node>, index: map<nat, Node>, neighbors: seq<Node>,
    ghost fks: seq<nat>, ghost vals: seq<Loaded>, ghost kidVals: seq<Loaded>, ghost S: set<Node>)
    returns (err: Option<Error>)
    requires SameColumns(nodes, vals) && IndexesLast(index, nodes)
    requires fks == Ids(vals) && forall i :: 0 <= i < |nodes| ==> nodes[i].many == []
    requires ShowsAll(neighbors, kidVals, S) && ObjectsOf(nodes) !! S
    modifies ObjectsOf(nodes)`many
    ensures err == StrayChild(edge, fks, kidVals)
    ensures err.None? ==>
              && |Adopt(edge, vals, kidVals)| == |nodes|
              && forall i :: 0 <= i < |nodes| ==> ShowsAll(nodes[i].many, Adopt(edge, vals, kidVals)[i].many, S)
  {
    IdsAt(vals);
    IndexedIds(index, nodes, fks);
    ghost var stop;
    err, stop := AssignChildren(edge, nodes, index, neighbors);
    assert ShowsAll(neighbors, kidVals, S);
    forall i | 0 <= i < stop ensures StrayNode(edge, index.Keys, neighbors[i]).None? {
      assert neighbors[..stop][i] == neighbors[i];
    }
    StrayChildShows(edge, fks, index.Keys, neighbors, kidVals, S, stop);
    if err.None? { AdoptedShows(edge, index, nodes, vals, neighbors, kidVals, S); }
  }

  /** Attaches the parents that a query has returned to their children. */
  method AttachToParents(
    edge: Edge, nodes: seq<Node>, index: map<nat, seq<Node>>, neighbors: seq<Node>,
    ghost keys: seq<nat>, ghost vals: seq<Loaded>, ghost parentVals: seq<Loaded>, ghost S: set<Node>)
    returns (err: Option<Error>)
    requires DistinctObjects(nodes) && SameColumns(nodes, vals) && IndexesGroups(edge, index, keys, nodes)
    requires forall i :: 0 <= i < |nodes| ==> nodes[i].one == null
    requires ShowsAll(neighbors, parentVals, S) && ObjectsOf(nodes) !! S
    modifies ObjectsOf(nodes)`one
    ensures err == StrayParent(edge, keys, parentVals)
    ensures err.None? ==> var attached := AttachParents(edge, vals, parentVals);
              && |attached| == |nodes|
              && forall i :: 0 <= i < |nodes| ==>
                   && (attached[i].one.Some? <==> nodes[i].one != null)
                   && (attached[i].one.Some? ==> Shows(nodes[i].one, attached[i].one.value, S))
  {
    ghost var stop;
    err, stop := AssignParents(edge, nodes, index, keys, neighbors);
    assert ShowsAll(neighbors, parentVals, S);
    StrayParentShows(edge, keys, neighbors, parentVals, S, stop);
    if err.None? { AttachedShows(edge, nodes, vals, neighbors, parentVals, S); }
  }

  /** What a run returns: an error or the roots of the object graph for the given values, made of new nodes. */
  ghost predicate Delivers(r: Result<seq<Node>, Error>, res: Result<seq<Loaded>, Error>, S: set<Node>)
    reads S
  {
    match (r, res)
    case (Success(nodes), Success(vals)) => ShowsAll(nodes, vals, S)
    case (Failure(e), Failure(f)) => e == f
    case _ => false
  }

  /** The result of joining the nodes with the children that a query for them has returned, or its error. */
  function JoinedChildren(edge: Edge, vals: seq<Loaded>, res: Result<seq<Loaded>, Error>): Result<seq<Loaded>, Error> {
    match res
    case Failure(e) => Failure(e)
    case Success(kids) =>
      var stray := StrayChild(edge, Ids(vals), kids);
      if stray.Some? then Failure(stray.value) else Success(Adopt(edge, vals, kids))
  }

  lemma {:induction false} BatchManyJoins(db: DB, p: Plan, vals: seq<Loaded>)
    requires WellTyped(p) && p.many.Some?
    ensures var out := BatchAll(db, ChildrenOf(p, Ids(vals)));
            BatchMany(db, p, vals) ==
            EdgeOutcome(JoinedChildren(ManyEdge(p.entity).value, vals, out.res), Some(out.after), out.queries)
  {
  }

  ghost predicate Childless(nodes: seq<Node>)
    reads nodes
  {
    forall i :: 0 <= i < |nodes| ==> nodes[i].many == []
  }

  /** The nodes have got the children of the result, or the error is its error. */
  ghost predicate GivesMany(
    err: Option<Error>, res: Result<seq<Loaded>, Error>, nodes: seq<Node>, S: set<Node>)
    reads nodes, S
  {
    && (if err.Some? then res == Failure(err.value) else res.Success?)
    && (res.Success? ==> |res.value| == |nodes| && forall i :: 0 <= i < |nodes| ==>
          ShowsAll(nodes[i].many, res.value[i].many, S))
  }

  method JoinChildren(
    edge: Edge, nodes: seq<Node>, index: map<nat, Node>, r: Result<seq<Node>, Error>, ghost vals: seq<Loaded>,
    ghost res: Result<seq<Loaded>, Error>, ghost S: set<Node>)
    returns (err: Option<Error>)
    requires SameColumns(nodes, vals) && IndexesLast(index, nodes) && Childless(nodes)
    requires Delivers(r, res, S) && ObjectsOf(nodes) !! S
    modifies ObjectsOf(nodes)`many
    ensures GivesMany(err, JoinedChildren(edge, vals, res), nodes, S)
  {
    if r.Failure? { return Some(r.error); }
    err := AdoptChildren(edge, nodes, index, r.value, Ids(vals), vals, res.value, S);
  }

  /** The result of joining the nodes with the parents that a query for their keys has returned, or its error. */
  function JoinedParents(edge: Edge, keys: seq<nat>, vals: seq<Loaded>, res: Result<seq<Loaded>, Error>)
    : Result<seq<Loaded>, Error>
  {
    match res
    case Failure(e) => Failure(e)
    case Success(parents) =>
      var stray := StrayParent(edge, keys, parents);
      if stray.Some? then Failure(stray.value) else Success(AttachParents(edge, vals, parents))
  }

  lemma {:induction false} BatchOneJoins(db: DB, p: Plan, vals: seq<Loaded>)
    requires WellTyped(p) && p.one.Some? && Keys(OneEdge(p.entity).value, vals) != []
    ensures var keys := Keys(OneEdge(p.entity).value, vals);
            var out := BatchAll(db, ParentsOf(p, keys));
            BatchOne(db, p, vals) ==
            EdgeOutcome(JoinedParents(OneEdge(p.entity).value, keys, vals, out.res), Some(out.after), out.queries)
  {
  }

  /** The nodes have got the parents of the result, or the error is its error. */
  ghost predicate GivesOne(
    err: Option<Error>, res: Result<seq<Loaded>, Error>, nodes: seq<Node>, S: set<Node>)
    reads nodes, S
  {
    && (if err.Some? then res == Failure(err.value) else res.Success?)
    && (res.Success? ==> |res.value| == |nodes| && forall i :: 0 <= i < |nodes| ==>
          && (res.value[i].one.Some? <==> nodes[i].one != null)
          && (res.value[i].one.Some? ==> Shows(nodes[i].one, res.value[i].one.value, S)))
  }

  method JoinParents(
    edge: Edge, nodes: seq<Node>, index: map<nat, seq<Node>>, r: Result<seq<Node>, Error>, ghost keys: seq<nat>,
    ghost vals: seq<Loaded>, ghost res: Result<seq<Loaded>, Error>, ghost S: set<Node>)
    returns (err: Option<Error>)
    requires DistinctObjects(nodes) && SameColumns(nodes, vals) && IndexesGroups(edge, index, keys, nodes)
    requires forall i :: 0 <= i < |nodes| ==> nodes[i].one == null
    requires Delivers(r, res, S) && ObjectsOf(nodes) !! S
    modifies ObjectsOf(nodes)`one
    ensures GivesOne(err, JoinedParents(edge, keys, vals, res), nodes, S)
  {
    if r.Failure? { return Some(r.error); }
    err := AttachToParents(edge, nodes, index, r.value, keys, vals, res.value, S);
  }

  /** Nodes whose edges show the edges of the values show the values. */
  lemma {:induction false} NodesShow(nodes: seq<Node>, vals: seq<Loaded>, S: set<Node>, T: set<Node>, U: set<Node>)
    requires SameColumns(nodes, vals) && ObjectsOf(nodes) + S + T == U
    requires forall i :: 0 <= i < |nodes| ==> ShowsAll(nodes[i].many, vals[i].many, S)
    requires forall i :: 0 <= i < |nodes| ==>
               && (vals[i].one.Some? <==> nodes[i].one != null)
               && (vals[i].one.Some? ==> Shows(nodes[i].one, vals[i].one.value, T))
    ensures ShowsAll(nodes, vals, U)
  {
    forall i | 0 <= i < |nodes| ensures Shows(nodes[i], vals[i], U) {
      assert nodes[i] in ObjectsOf(nodes);
      ShowsAllInLarger(nodes[i].many, vals[i].many, S, U);
      if vals[i].one.Some? { ShowsInLarger(nodes[i].one, vals[i].one.value, T, U); }
    }
  }
}
