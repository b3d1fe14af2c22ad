/**
Loaded nodes as the program holds them: objects with edges to other objects, where nodes with the same parent share it.
*/
module Nodes {
  import opened Schema
  import opened Store
  import opened Plans
  import opened Eager
  import opened Wrappers

  class Node {
    const entity: Entity
    const values: Row
    const loadedMany: bool
    const loadedOne: bool
    var many: seq<Node>
    var one: Node?

    constructor (entity: Entity, values: Row, loadedMany: bool, loadedOne: bool)
      ensures this.entity == entity && this.values == values
      ensures this.loadedMany == loadedMany && this.loadedOne == loadedOne
      ensures many == [] && one == null
    {
      this.entity, this.values := entity, values;
      this.loadedMany, this.loadedOne := loadedMany, loadedOne;
      many, one := [], null;
    }

    function Id(): nat { IdOf(entity, values) }

    /** The children, or an error if they were not asked for. */
    method ManyOrErr() returns (r: Result<seq<Node>, Error>)
      ensures r == if loadedMany then Success(many) else Failure(NotLoaded("many"))
      ensures forall v, S :: Shows(this, v, S) ==>
                (r.Success? <==> v.loadedMany) && (r.Success? ==> ShowsAll(r.value, v.many, S))
    {
      if loadedMany { return Success(many); }
      return Failure(NotLoaded("many"));
    }

    /** The parent, or an error that tells a missing parent from one that was not asked for. */
    method OneOrErr() returns (r: Result<Node, Error>)
      requires loadedOne ==> OneEdge(entity).Some?
      ensures one != null ==> r == Success(one)
      ensures one == null ==>
                r == Failure(if loadedOne then NotFound(OneEdge(entity).value.target) else NotLoaded("one"))
      ensures forall v, S :: Shows(this, v, S) ==>
                (r.Success? <==> v.one.Some?) && (r.Success? ==> Shows(r.value, v.one.value, S))
    {
      if one != null {
        return Success(one);
      } else if loadedOne {
        return Failure(NotFound(OneEdge(entity).value.target));
      }
      return Failure(NotLoaded("one"));
    }
  }

  /** The object graph from `n`, inside `S`, is the loaded value `v`. */
  ghost predicate Shows(n: Node, v: Loaded, S: set<Node>)
    reads S
    decreases v
  {
    && n in S
    && n.entity == v.entity && n.values == v.values && n.loadedMany == v.loadedMany && n.loadedOne == v.loadedOne
    && |n.many| == |v.many| && (forall i :: 0 <= i < |v.many| ==> Shows(n.many[i], v.many[i], S))
    && (v.one.Some? <==> n.one != null)
    && (v.one.Some? ==> Shows(n.one, v.one.value, S))
  }

  ghost predicate ShowsAll(ns: seq<Node>, vs: seq<Loaded>, S: set<Node>)
    reads S
  {
    |ns| == |vs| && forall i :: 0 <= i < |vs| ==> Shows(ns[i], vs[i], S)
  }

  lemma {:induction false} ShowsInLarger(n: Node, v: Loaded, S: set<Node>, T: set<Node>)
    requires Shows(n, v, S) && S <= T
    ensures Shows(n, v, T)
    decreases v
  {
    forall i | 0 <= i < |v.many| ensures Shows(n.many[i], v.many[i], T) { ShowsInLarger(n.many[i], v.many[i], S, T); }
    if v.one.Some? { ShowsInLarger(n.one, v.one.value, S, T); }
  }

  lemma {:induction false} ShowsAllInLarger(ns: seq<Node>, vs: seq<Loaded>, S: set<Node>, T: set<Node>)
    requires ShowsAll(ns, vs, S) && S <= T
    ensures ShowsAll(ns, vs, T)
  {
    forall i | 0 <= i < |vs| ensures Shows(ns[i], vs[i], T) { ShowsInLarger(ns[i], vs[i], S, T); }
  }

  // ----- the list functions of the batched load, on objects -----

  /** The nodes with the given foreign key, in order. */
  function WithKey(edge: Edge, key: nat, ns: seq<Node>): seq<Node> {
    if ns == [] then []
    else
      WithKey(edge, key, ns[..|ns| - 1])
      + if ForeignKey(edge, ns[|ns| - 1].values) == Some(key) then [ns[|ns| - 1]] else []
  }

  function StrayNode(edge: Edge, ids: set<nat>, n: Node): Option<Error> {
    match ForeignKey(edge, n.values)
    case None => Some(NilForeignKey(edge.column, n.Id()))
    case Some(key) => if key !in ids then Some(UnexpectedForeignKey(edge.column, key)) else None
  }

  function LastNode(id: nat, ns: seq<Node>): Node? {
    if ns == [] then null
    else if ns[|ns| - 1].Id() == id then ns[|ns| - 1]
    else LastNode(id, ns[..|ns| - 1])
  }

  lemma {:induction false} WithForeignKeyAppend(edge: Edge, key: nat, vs: seq<Loaded>, v: Loaded)
    ensures WithForeignKey(edge, key, vs + [v]) ==
            WithForeignKey(edge, key, vs) + if ForeignKey(edge, v.values) == Some(key) then [v] else []
  {
    if vs == [] {
      assert [v][1..] == [];
    } else {
      WithForeignKeyAppend(edge, key, vs[1..], v);
      assert (vs + [v])[1..] == vs[1..] + [v];
    }
  }

  lemma {:induction false} WithKeyShows(edge: Edge, key: nat, ns: seq<Node>, vs: seq<Loaded>, S: set<Node>)
    requires ShowsAll(ns, vs, S)
    ensures ShowsAll(WithKey(edge, key, ns), WithForeignKey(edge, key, vs), S)
  {
    if ns != [] {
      var m := |ns| - 1;
      WithKeyShows(edge, key, ns[..m], vs[..m], S);
      WithForeignKeyAppend(edge, key, vs[..m], vs[m]);
      assert vs == vs[..m] + [vs[m]];
      assert Shows(ns[m], vs[m], S);
    }
  }

  lemma {:induction false} WithKeyIn(edge: Edge, key: nat, ns: seq<Node>, n: Node)
    ensures n in WithKey(edge, key, ns) <==> n in ns && ForeignKey(edge, n.values) == Some(key)
  {
    if ns != [] {
      WithKeyIn(edge, key, ns[..|ns| - 1], n);
      assert ns == ns[..|ns| - 1] + [ns[|ns| - 1]];
    }
  }

  lemma {:induction false} LastNodeShows(id: nat, ns: seq<Node>, vs: seq<Loaded>, S: set<Node>)
    requires ShowsAll(ns, vs, S)
    ensures LastWithId(id, vs).Some? <==> LastNode(id, ns) != null
    ensures LastWithId(id, vs).Some? ==> Shows(LastNode(id, ns), LastWithId(id, vs).value, S)
  {
    if ns != [] {
      var m := |ns| - 1;
      assert Shows(ns[m], vs[m], S);
      LastNodeShows(id, ns[..m], vs[..m], S);
    }
  }

  /** The first child that is refused decides the error. */
  lemma {:induction false} StrayChildShows(
    edge: Edge, ids: seq<nat>, known: set<nat>, ns: seq<Node>, vs: seq<Loaded>, S: set<Node>, j: nat)
    requires ShowsAll(ns, vs, S) && j <= |ns|
    requires forall k :: k in known <==> k in ids
    requires forall i :: 0 <= i < j ==> StrayNode(edge, known, ns[i]).None?
    ensures j == |ns| ==> StrayChild(edge, ids, vs).None?
    ensures j < |ns| && StrayNode(edge, known, ns[j]).Some? ==>
              StrayChild(edge, ids, vs) == StrayNode(edge, known, ns[j])
  {
    if ns != [] {
      assert Shows(ns[0], vs[0], S);
      if j > 0 {
        assert StrayNode(edge, known, ns[0]).None?;
        StrayChildShows(edge, ids, known, ns[1..], vs[1..], S, j - 1);
      }
    }
  }

  lemma {:induction false} StrayParentShows(
    edge: Edge, keys: seq<nat>, ns: seq<Node>, vs: seq<Loaded>, S: set<Node>, j: nat)
    requires ShowsAll(ns, vs, S) && j <= |ns|
    requires forall i :: 0 <= i < j ==> ns[i].Id() in keys
    ensures j == |ns| ==> StrayParent(edge, keys, vs).None?
    ensures j < |ns| && ns[j].Id() !in keys ==>
              StrayParent(edge, keys, vs) == Some(UnexpectedForeignKey(edge.column, ns[j].Id()))
  {
    if ns != [] {
      assert Shows(ns[0], vs[0], S);
      if j > 0 {
        assert ns[0].Id() in keys;
        StrayParentShows(edge, keys, ns[1..], vs[1..], S, j - 1);
      }
    }
  }
}
