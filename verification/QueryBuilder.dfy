/**
The query builders: objects that are configured step by step, cloned, and run. Running one loads its edges through the
builders of the edges, which it changes.
*/
module QueryBuilder {
  import opened Schema
  import opened Store
  import opened Plans
  import opened Eager
  import opened EagerAgrees
  import opened EagerEdges
  import opened EagerLaws
  import opened EagerReruns
  import opened Loaders
  import opened Nodes
  import opened Slices
  import opened Wrappers

  /** The connection: answers queries and counts them. */
  class Driver {
    const db: DB
    var queries: nat

    constructor (db: DB)
      ensures this.db == db && queries == 0
    {
      this.db, queries := db, 0;
    }

    method QueryNodes(spec: QuerySpec) returns (rows: seq<Row>)
      modifies this`queries
      ensures rows == ProjectAll(spec.columns, Select(db, spec)) && queries == old(queries) + 1
    {
      rows := ProjectAll(spec.columns, Select(db, spec));
      queries := queries + 1;
    }
  }

  /** One call on a builder. The options of a With call are calls on the new builder of the edge. */
  datatype Call =
    | Where(preds: seq<Predicate>)
    | Limit(n: nat)
    | Offset(n: nat)
    | Order(terms: seq<OrderTerm>)
    | SelectFields(fields: seq<string>)
    | WithMany(options: seq<Call>)
    | WithOne(options: seq<Call>)

  /** The builder a client returns. */
  function New(inters: Entity -> seq<Interceptor>, e: Entity): Plan {
    Plan(e, inters(e), [], [], [], None, None, false, None, None)
  }

  /** The effect of a call. An entity without an edge has no With call for it. */
  function Apply(inters: Entity -> seq<Interceptor>, p: Plan, call: Call): (q: Plan)
    ensures q.entity == p.entity && (WellTyped(p) ==> WellTyped(q))
    decreases call, 0
  {
    match call
    case Where(preds) => p.(preds := p.preds + preds)
    case Limit(n) => p.(limit := Some(n))
    case Offset(n) => p.(offset := Some(n))
    case Order(terms) => p.(order := p.order + terms)
    case SelectFields(fields) => p.(fields := p.fields + fields)
    case WithMany(options) =>
      if ManyEdge(p.entity).None? then p
      else p.(many := Some(ApplyAll(inters, New(inters, ManyEdge(p.entity).value.target), options)))
    case WithOne(options) =>
      if OneEdge(p.entity).None? then p
      else p.(one := Some(ApplyAll(inters, New(inters, OneEdge(p.entity).value.target), options)))
  }

  function ApplyAll(inters: Entity -> seq<Interceptor>, p: Plan, calls: seq<Call>): (q: Plan)
    ensures q.entity == p.entity && (WellTyped(p) ==> WellTyped(q))
    decreases calls, 1
  {
    if calls == [] then p else Apply(inters, ApplyAll(inters, p, calls[..|calls| - 1]), calls[|calls| - 1])
  }

  /** What a clone is built from: everything but the flag that a parent's load sets. */
  function Cloned(p: Plan): (q: Plan)
    ensures q.entity == p.entity
    ensures WellTyped(p) ==> WellTyped(q)
  {
    p.(withFKs := false,
       many := if p.many.Some? then Some(Cloned(p.many.value)) else None,
       one := if p.one.Some? then Some(Cloned(p.one.value)) else None)
  }

  lemma {:induction false} ProjectedIds(e: Entity, rows: seq<Row>)
    ensures RowIds(e, ProjectAll([IdColumn(e)], rows)) == RowIds(e, rows)
  {
    if rows != [] { ProjectedIds(e, rows[1..]); }
  }

  /** The identifiers of a query that has selected columns. They are scanned into a list of keys, which takes one
      column; and a limit of 0 is taken literally here. */
  function IdsOf(db: DB, p: Plan): Result<seq<nat>, Error> {
    if PrepareError(p).Some? then Failure(PrepareError(p).value)
    else if |p.fields| > 1 then Failure(TooManyColumns(|p.fields|))
    else if p.limit == Some(0) then Success([])
    else Success(RowIds(p.entity, Select(db, SpecOf(p))))
  }

  /** The identifiers of the rows, one for each, in their order. */
  ghost predicate Identifies(e: Entity, ids: seq<nat>, rows: seq<Row>) {
    |ids| == |rows| && forall i :: 0 <= i < |rows| ==> ids[i] == Field(rows[i], IdColumn(e))
  }

  lemma {:induction false} RowIdsIdentify(e: Entity, rows: seq<Row>)
    ensures Identifies(e, RowIds(e, rows), rows)
  {
    if rows != [] { RowIdsIdentify(e, rows[1..]); }
  }

  /** A builder without selected fields that can be prepared and whose limit is not literally 0 gives the identifiers of
      the rows that it selects; where its load succeeds, they are those of the loaded nodes. */
  lemma {:induction false} IdsAreThose(db: DB, p: Plan)
    requires WellTyped(p) && p.fields == [] && PrepareError(p).None? && p.limit != Some(0)
    ensures var ids := IdsOf(db, p.(fields := [IdColumn(p.entity)]));
            && ids.Success? && Identifies(p.entity, ids.value, Select(db, SpecOf(p)))
            && (BatchAll(db, p).res.Success? ==> ids.value == Ids(BatchAll(db, p).res.value))
  {
    var q := p.(fields := [IdColumn(p.entity)]);
    IdIsValid(p.entity);
    FieldErrorOneMore(p.entity, [], IdColumn(p.entity));
    assert [] + [IdColumn(p.entity)] == q.fields;
    SelectIgnoresColumns(db, SpecOf(p), SpecOf(q));
    RowIdsIdentify(p.entity, Select(db, SpecOf(p)));
    if BatchAll(db, p).res.Success? { LoadedIds(db, p, IdsOf(db, q).value); }
  }

  lemma {:induction false} LoadedIds(db: DB, p: Plan, ids: seq<nat>)
    requires WellTyped(p) && BatchAll(db, p).res.Success? && Identifies(p.entity, ids, Select(db, SpecOf(p)))
    ensures ids == Ids(BatchAll(db, p).res.value)
  {
    var rows, nodes := Select(db, SpecOf(p)), BatchAll(db, p).res.value;
    LoadedHoldRows(db, p);
    KeysAreSelected(p);
    IdsAt(nodes);
    forall i | 0 <= i < |rows| ensures ids[i] == Ids(nodes)[i] {
      SelectedIsRead(SelectedColumns(p), rows[i], IdColumn(p.entity));
    }
  }

  /** The query context: the part of the settings that a builder holds by reference. */
  class QueryContext {
    var fields: Slice<string>
    var limit: Option<nat>
    var offset: Option<nat>

    constructor (fields: Slice<string>, limit: Option<nat>, offset: Option<nat>)
      ensures this.fields == fields && this.limit == limit && this.offset == offset
    {
      this.fields, this.limit, this.offset := fields, limit, offset;
    }

    method Clone() returns (c: QueryContext)
      requires Fits(fields)
      ensures fresh(c) && Fits(c.fields) && fresh(c.fields.cells)
      ensures Elements(c.fields) == Elements(fields) && c.limit == limit && c.offset == offset
    {
      var copy := CopySlice(fields);
      c := new QueryContext(copy, limit, offset);
    }
  }

  /** The zero value of a predicate. */
  const NOTHING := InValues("", [])

  ghost function BuildersOf(q: Query?): set<Query>
    reads q
  {
    if q == null then {} else q.Repr
  }

  ghost function MemoryOf(q: Query?): set<object>
    reads q
  {
    if q == null then {} else q.Store
  }

  ghost function ValueOf(q: Query?): Option<Plan>
    reads q
  {
    if q == null then None else Some(q.tree)
  }

  class Query {
    const config: Entity -> seq<Interceptor>
    const entity: Entity
    const ctx: QueryContext
    var inters: seq<Interceptor>
    var preds: Slice<Predicate>
    var order: Slice<OrderTerm>
    var withFKs: bool
    var many: Query?
    var one: Query?
    /** The builders of the tree. */
    ghost var Repr: set<Query>
    /** The builders, their contexts and their backing arrays. */
    ghost var Store: set<object>
    /** The value of the builder and of the builders of its edges. */
    ghost var tree: Plan

    /** The backing arrays of its lists. */
    ghost function Arrays(): set<object>
      reads this, ctx
    {
      {ctx.fields.cells as object, preds.cells, order.cells}
    }

    /** The settings are in place, in objects that belong to this builder. */
    ghost predicate Settled()
      reads this, ctx, Store
    {
      && {this, ctx, ctx.fields.cells, preds.cells, order.cells} <= Store
      && Fits(ctx.fields) && Fits(preds) && Fits(order)
      && tree == Plan(entity, inters, Elements(ctx.fields), Elements(preds), Elements(order), ctx.limit,
                      ctx.offset, withFKs, tree.many, tree.one)
      && forall o :: o in Store ==> !(o is Node) && !(o is Driver)
    }

    /** The objects of this builder are not those of an edge's builder. */
    ghost predicate Apart(q: Query)
      reads this, ctx, q
    {
      && this !in q.Repr && this !in q.Store && ctx !in q.Store
      && ctx.fields.cells !in q.Store && preds.cells !in q.Store && order.cells !in q.Store
    }

    ghost predicate Valid()
      reads this, Store
      decreases Repr
      ensures Valid() ==> this in Repr && this in Store && WellTyped(tree)
    {
      && this in Repr && ctx in Store && Settled() && WellTyped(tree)
      && (many != null ==>
            many in Store && many.Repr < Repr && many.Store <= Store && Apart(many) && many.Valid())
      && (one != null ==> one in Store && one.Repr < Repr && one.Store <= Store && Apart(one) && one.Valid())
      && (many != null && one != null ==> many.Store !! one.Store)
      && tree.many == ValueOf(many)
      && tree.one == ValueOf(one)
    }

    constructor (inters: Entity -> seq<Interceptor>, e: Entity)
      ensures Valid() && fresh(Repr) && fresh(Store) && tree == New(inters, e) && config == inters
    {
      var names: Slice<string> := NewSlice();
      var context := new QueryContext(names, None, None);
      var none: Slice<Predicate> := NewSlice();
      var unordered: Slice<OrderTerm> := NewSlice();
      this.config, entity, this.inters, ctx := inters, e, inters(e), context;
      preds, order, withFKs := none, unordered, false;
      many, one := null, null;
      Repr, Store, tree := {this}, {this, context, names.cells, none.cells, unordered.cells}, New(inters, e);
    }

    /** A new builder with settings of its own, the others from another builder, and the given builders for its
        edges. */
    constructor Copy(
      q: Query, ctx: QueryContext, preds: Slice<Predicate>, order: Slice<OrderTerm>, many: Query?, one: Query?,
      ghost edges: set<object>)
      requires q.Settled() && q.FitEdges(many, one) && edges == MemoryOf(many) + MemoryOf(one)
      requires Fits(ctx.fields) && Elements(ctx.fields) == q.tree.fields
      requires Fits(preds) && Elements(preds) == q.tree.preds && Fits(order) && Elements(order) == q.tree.order
      requires ctx.limit == q.tree.limit && ctx.offset == q.tree.offset
      requires {ctx, ctx.fields.cells, preds.cells, order.cells} !! edges
      ensures config == q.config && this.ctx == ctx && this.preds == preds && this.order == order
      ensures this.many == many && this.one == one && Joined(edges)
      ensures tree == q.tree.(withFKs := false, many := ValueOf(many), one := ValueOf(one))
    {
      config, entity, inters, this.ctx, this.preds := q.config, q.entity, q.inters, ctx, preds;
      this.order, withFKs := order, false;
      this.many, this.one := many, one;
      Repr := {this} + BuildersOf(many) + BuildersOf(one);
      Store := {this, ctx, ctx.fields.cells, preds.cells, order.cells} + edges;
      tree := q.tree.(withFKs := false, many := ValueOf(many), one := ValueOf(one));
    }

    /** This builder was made of its settings and the builders of its edges. */
    ghost predicate Joined(edges: set<object>)
      reads this, ctx, ctx.fields.cells, preds.cells, order.cells, many, one, MemoryOf(many), MemoryOf(one)
    {
      && FitEdges(many, one) && edges == MemoryOf(many) + MemoryOf(one)
      && Repr == {this} + BuildersOf(many) + BuildersOf(one) && this !in BuildersOf(many) + BuildersOf(one)
      && Store == {this, ctx, ctx.fields.cells, preds.cells, order.cells} + edges
      && {this, ctx, ctx.fields.cells, preds.cells, order.cells} !! edges
      && Fits(ctx.fields) && Fits(preds) && Fits(order)
      && tree == Plan(entity, inters, Elements(ctx.fields), Elements(preds), Elements(order), ctx.limit, ctx.offset,
                      withFKs, ValueOf(many), ValueOf(one))
    }

    lemma {:induction false} JoinedIsValid(edges: set<object>)
      requires Joined(edges)
      ensures Valid()
    {
    }

    /** A builder depends on nothing but its memory. */
    twostate lemma {:induction false} StillValid()
      requires old(Valid()) && unchanged(old(Store))
      ensures Valid() && Store == old(Store) && Repr == old(Repr) && tree == old(tree)
    {
    }

    // ----- configuring -----

    method AddPredicates(ps: seq<Predicate>)
      requires Valid()
      modifies this`preds, this`tree, this`Store, preds.cells
      ensures Valid() && tree == old(tree).(preds := old(tree).preds + ps)
      ensures fresh(Store - old(Store)) && (preds.cells == old(preds.cells) || fresh(preds.cells))
    {
      AppendPredicates(ps);
    }

    method AppendPredicates(ps: seq<Predicate>)
      requires Settled()
      modifies this`preds, this`tree, this`Store, preds.cells
      ensures Settled() && tree == old(tree).(preds := old(tree).preds + ps)
      ensures Store == old(Store) + {preds.cells} && (preds.cells == old(preds.cells) || fresh(preds.cells))
    {
      preds := Append(preds, ps, NOTHING);
      Store, tree := Store + {preds.cells}, tree.(preds := tree.preds + ps);
    }

    method SetLimit(n: nat)
      requires Valid()
      modifies this`tree, ctx`limit
      ensures Valid() && tree == old(tree).(limit := Some(n))
    {
      ctx.limit := Some(n);
      tree := tree.(limit := Some(n));
    }

    method SetOffset(n: nat)
      requires Valid()
      modifies this`tree, ctx`offset
      ensures Valid() && tree == old(tree).(offset := Some(n))
    {
      ctx.offset := Some(n);
      tree := tree.(offset := Some(n));
    }

    method AddOrder(terms: seq<OrderTerm>)
      requires Valid()
      modifies this`order, this`tree, this`Store, order.cells
      ensures Valid() && tree == old(tree).(order := old(tree).order + terms)
      ensures fresh(Store - old(Store)) && (order.cells == old(order.cells) || fresh(order.cells))
    {
      AppendOrder(terms);
    }

    method AppendOrder(terms: seq<OrderTerm>)
      requires Settled()
      modifies this`order, this`tree, this`Store, order.cells
      ensures Settled() && tree == old(tree).(order := old(tree).order + terms)
      ensures Store == old(Store) + {order.cells} && (order.cells == old(order.cells) || fresh(order.cells))
    {
      order := Append(order, terms, OrderTerm("", false));
      Store, tree := Store + {order.cells}, tree.(order := tree.order + terms);
    }

    method AddFields(fs: seq<string>)
      requires Valid()
      modifies this`tree, this`Store, ctx`fields, ctx.fields.cells
      ensures Valid() && tree == old(tree).(fields := old(tree).fields + fs)
      ensures fresh(Store - old(Store)) && (ctx.fields.cells == old(ctx.fields.cells) || fresh(ctx.fields.cells))
    {
      AppendFields(fs);
    }

    method AppendFields(fs: seq<string>)
      requires Settled()
      modifies this`tree, this`Store, ctx`fields, ctx.fields.cells
      ensures Settled() && tree == old(tree).(fields := old(tree).fields + fs)
      ensures Store == old(Store) + {ctx.fields.cells}
      ensures ctx.fields.cells == old(ctx.fields.cells) || fresh(ctx.fields.cells)
    {
      ctx.fields := Append(ctx.fields, fs, "");
      Store, tree := Store + {ctx.fields.cells}, tree.(fields := tree.fields + fs);
    }

    /** A new builder for an edge, configured by the options. */
    method Configured(target: Entity, options: seq<Call>) returns (query: Query)
      ensures query.Valid() && fresh(query.Repr) && fresh(query.Store) && query.entity == target
      ensures query.tree == ApplyAll(config, New(config, target), options)
      decreases options, 2
    {
      query := new Query(config, target);
      query.PerformAll(options);
    }

    /** Replaces the builder of the children by a new one, configured by the options. */
    method LoadWithMany(options: seq<Call>)
      requires Valid() && ManyEdge(entity).Some?
      modifies this`many, this`Repr, this`Store, this`tree
      ensures Valid() && fresh(Repr - old(Repr)) && fresh(Store - old(Store)) && Arrays() == old(Arrays())
      ensures var target := New(config, ManyEdge(entity).value.target);
              tree == old(tree).(many := Some(ApplyAll(config, target, options)))
      decreases options, 3
    {
      var query := Configured(ManyEdge(entity).value.target, options);
      AttachMany(query);
    }

    /** Replaces the builder of the parent by a new one, configured by the options. */
    method LoadWithOne(options: seq<Call>)
      requires Valid() && OneEdge(entity).Some?
      modifies this`one, this`Repr, this`Store, this`tree
      ensures Valid() && fresh(Repr - old(Repr)) && fresh(Store - old(Store)) && Arrays() == old(Arrays())
      ensures var target := New(config, OneEdge(entity).value.target);
              tree == old(tree).(one := Some(ApplyAll(config, target, options)))
      decreases options, 3
    {
      var query := Configured(OneEdge(entity).value.target, options);
      AttachOne(query);
    }

    method Perform(call: Call)
      requires Valid()
      modifies this, ctx, Arrays()
      ensures Valid() && fresh(Repr - old(Repr)) && fresh(Store - old(Store))
      ensures fresh(Arrays() - old(Arrays()))
      ensures tree == Apply(config, old(tree), call)
      decreases call, 0
    {
      match call
      case WithMany(options) => if ManyEdge(entity).Some? { LoadWithMany(options); }
      case WithOne(options) => if OneEdge(entity).Some? { LoadWithOne(options); }
      case _ => Configure(call);
    }

    method Configure(call: Call)
      requires Valid() && !call.WithMany? && !call.WithOne?
      modifies this, ctx, Arrays()
      ensures Valid() && Repr == old(Repr) && fresh(Store - old(Store))
      ensures fresh(Arrays() - old(Arrays()))
      ensures tree == Apply(config, old(tree), call)
    {
      match call
      case Where(ps) => AddPredicates(ps);
      case Limit(n) => SetLimit(n);
      case Offset(n) => SetOffset(n);
      case Order(terms) => AddOrder(terms);
      case SelectFields(fs) => AddFields(fs);
    }

    method PerformAll(calls: seq<Call>)
      requires Valid()
      modifies this, ctx, Arrays()
      ensures Valid() && fresh(Repr - old(Repr)) && fresh(Store - old(Store))
      ensures tree == ApplyAll(config, old(tree), calls)
      decreases calls, 1
    {
      var i := 0;
      while i < |calls|
        invariant 0 <= i <= |calls|
        invariant Valid() && fresh(Repr - old(Repr)) && fresh(Store - old(Store))
        invariant fresh(Arrays() - old(Arrays()))
        invariant tree == ApplyAll(config, old(tree), calls[..i])
      {
        Perform(calls[i]);
        assert calls[..i + 1][..i] == calls[..i];
        i := i + 1;
      }
      assert calls[..i] == calls;
    }

    /** A clone is made of new builders with new contexts and new backing arrays, all the way down. */
    method Clone() returns (c: Query)
      requires Valid()
      ensures c.Valid() && fresh(c.Store) && c.config == config && c.tree == Cloned(old(tree))
      decreases Repr, 2
    {
      var m, o;
      ghost var edges;
      m, o, edges := CloneEdges();
      c := CloneAround(m, o, edges);
    }

    method CloneEdges() returns (m: Query?, o: Query?, ghost edges: set<object>)
      requires Valid()
      ensures FitEdges(m, o) && edges == MemoryOf(m) + MemoryOf(o) && fresh(edges)
      ensures Cloned(tree) == tree.(withFKs := false, many := ValueOf(m), one := ValueOf(o))
      decreases Repr, 1
    {
      m := CloneEdge(many);
      o := CloneEdge(one);
      edges := MemoryOf(m) + MemoryOf(o);
    }

    /** Builders for the edges of this one, without common memory. */
    ghost predicate FitEdges(m: Query?, o: Query?)
      reads m, o, MemoryOf(m), MemoryOf(o)
    {
      && (m != null ==> m.Valid() && ManyEdge(entity).Some? && m.entity == ManyEdge(entity).value.target)
      && (o != null ==> o.Valid() && OneEdge(entity).Some? && o.entity == OneEdge(entity).value.target)
      && MemoryOf(m) !! MemoryOf(o)
    }

    method CloneAround(m: Query?, o: Query?, ghost edges: set<object>) returns (c: Query)
      requires Settled() && WellTyped(tree) && FitEdges(m, o) && edges == MemoryOf(m) + MemoryOf(o)
      ensures c.Valid() && fresh(c.Store - edges) && c.config == config
      ensures c.tree == tree.(withFKs := false, many := ValueOf(m), one := ValueOf(o))
    {
      var context, copy, terms;
      ghost var own;
      context, copy, terms, own := CloneSettings();
      c := CopyWith(context, copy, terms, m, o, own, edges);
    }

    method CopyWith(
      context: QueryContext, copy: Slice<Predicate>, terms: Slice<OrderTerm>, m: Query?, o: Query?,
      ghost own: set<object>, ghost edges: set<object>)
      returns (c: Query)
      requires Settled() && WellTyped(tree) && FitEdges(m, o) && edges == MemoryOf(m) + MemoryOf(o)
      requires Fits(context.fields) && Elements(context.fields) == tree.fields
      requires Fits(copy) && Elements(copy) == tree.preds && Fits(terms) && Elements(terms) == tree.order
      requires context.limit == tree.limit && context.offset == tree.offset
      requires own == {context, context.fields.cells, copy.cells, terms.cells} && own !! edges
      ensures fresh(c) && c.Valid() && c.Store == {c} + own + edges && c.config == config
      ensures c.tree == tree.(withFKs := false, many := ValueOf(m), one := ValueOf(o))
    {
      c := new Query.Copy(this, context, copy, terms, m, o, edges);
      c.JoinedIsValid(edges);
    }

    method CloneSettings()
      returns (context: QueryContext, copy: Slice<Predicate>, terms: Slice<OrderTerm>, ghost own: set<object>)
      requires Settled()
      ensures fresh(own) && own == {context, context.fields.cells, copy.cells, terms.cells}
      ensures Fits(context.fields) && Elements(context.fields) == tree.fields
      ensures Fits(copy) && Elements(copy) == tree.preds && Fits(terms) && Elements(terms) == tree.order
      ensures context.limit == tree.limit && context.offset == tree.offset
    {
      context := ctx.Clone();
      copy := CopySlice(preds);
      terms := CopySlice(order);
      own := {context, context.fields.cells, copy.cells, terms.cells};
    }

    /** A nil builder clones to nil. */
    method CloneEdge(q: Query?) returns (c: Query?)
      requires Valid() && (q == many || q == one)
      ensures q == null <==> c == null
      ensures fresh(MemoryOf(c)) && (c != null ==> c.Valid() && c.entity == q.entity)
      ensures c != null ==> q.Valid() && c.tree == Cloned(old(q.tree))
      decreases Repr, 0
    {
      c := null;
      if q != null { c := q.Clone(); }
    }

    ghost method Include(query: Query)
      requires Valid() && query.Valid() && Apart(query)
      modifies this`Repr, this`Store
      ensures Valid() && Repr == old(Repr) + query.Repr && Store == old(Store) + {query} && query.Repr < Repr
    {
      Repr, Store := Repr + query.Repr, Store + {query};
    }

    method AttachMany(query: Query)
      requires Valid() && query.Valid() && Apart(query)
      requires ManyEdge(entity).Some? && query.entity == ManyEdge(entity).value.target
      requires one != null ==> query.Store !! one.Store
      modifies this`many, this`Repr, this`Store, this`tree
      ensures Valid() && Repr == old(Repr) + query.Repr && Store == old(Store) + query.Store && many == query
      ensures tree == old(tree).(many := Some(query.tree))
    {
      PutMany(query);
      Tighten();
    }

    method PutMany(query: Query)
      requires Valid() && query.Valid() && Apart(query)
      requires ManyEdge(entity).Some? && query.entity == ManyEdge(entity).value.target
      requires one != null ==> query.Store !! one.Store
      modifies this`many, this`Repr, this`Store
      ensures Loose() && Repr == old(Repr) + query.Repr && Store == old(Store) + {query} && many == query
    {
      Include(query);
      SetMany(query);
    }

    method SetMany(query: Query)
      requires Valid() && query.Valid() && Apart(query) && query in Store && query.Repr < Repr
      requires ManyEdge(entity).Some? && query.entity == ManyEdge(entity).value.target
      requires one != null ==> query.Store !! one.Store
      modifies this`many
      ensures Loose() && many == query
    {
      many := query;
    }

    method AttachOne(query: Query)
      requires Valid() && query.Valid() && Apart(query)
      requires OneEdge(entity).Some? && query.entity == OneEdge(entity).value.target
      requires many != null ==> query.Store !! many.Store
      modifies this`one, this`Repr, this`Store, this`tree
      ensures Valid() && Repr == old(Repr) + query.Repr && Store == old(Store) + query.Store && one == query
      ensures tree == old(tree).(one := Some(query.tree))
    {
      PutOne(query);
      Tighten();
    }

    method PutOne(query: Query)
      requires Valid() && query.Valid() && Apart(query)
      requires OneEdge(entity).Some? && query.entity == OneEdge(entity).value.target
      requires many != null ==> query.Store !! many.Store
      modifies this`one, this`Repr, this`Store
      ensures Loose() && Repr == old(Repr) + query.Repr && Store == old(Store) + {query} && one == query
    {
      Include(query);
      SetOne(query);
    }

    method SetOne(query: Query)
      requires Valid() && query.Valid() && Apart(query) && query in Store && query.Repr < Repr
      requires OneEdge(entity).Some? && query.entity == OneEdge(entity).value.target
      requires many != null ==> query.Store !! many.Store
      modifies this`one
      ensures Loose() && one == query
    {
      one := query;
    }

    // ----- running -----

    /** Refuses nil interceptors, failing traversers and unknown columns, in this order. */
    method Prepare() returns (err: Option<Error>)
      requires Valid()
      ensures err == PrepareError(tree)
    {
      var i := 0;
      while i < |inters|
        invariant 0 <= i <= |inters|
        invariant InterceptorError(inters) == InterceptorError(inters[i..])
      {
        match inters[i] {
          case Uninitialized => return Some(UninitializedInterceptor);
          case Traverser(verdict) => if verdict.Some? { return Some(TraverseError(verdict.value)); }
          case Wrapper =>
        }
        i := i + 1;
      }
      i := 0;
      while i < ctx.fields.len
        invariant 0 <= i <= ctx.fields.len
        invariant FieldError(entity, tree.fields) == FieldError(entity, tree.fields[i..])
      {
        var field := ctx.fields.cells[i];
        assert field == tree.fields[i];
        if !ValidColumn(entity, field) { return Some(ValidationError(field)); }
        i := i + 1;
      }
      return None;
    }

    /** The selected columns, with the identifier in front. */
    method PickedColumns() returns (columns: seq<string>)
      requires Valid()
      ensures columns == [IdColumn(entity)] + Without(tree.fields, IdColumn(entity))
    {
      columns := [IdColumn(entity)];
      var i := 0;
      while i < ctx.fields.len
        invariant 0 <= i <= ctx.fields.len
        invariant columns + Without(tree.fields[i..], IdColumn(entity)) ==
                  [IdColumn(entity)] + Without(tree.fields, IdColumn(entity))
      {
        var field := ctx.fields.cells[i];
        assert field == tree.fields[i];
        if field != IdColumn(entity) { columns := columns + [field]; }
        i := i + 1;
      }
    }

    /** The query of this builder. */
    method QuerySpecOf() returns (spec: QuerySpec)
      requires Valid()
      ensures spec == SpecOf(tree)
    {
      var columns := Columns(entity);
      if ctx.fields.len > 0 {
        columns := PickedColumns();
        if one != null && !OneEdge(entity).value.hidden {
          columns := AppendOnce(columns, OneEdge(entity).value.column);
        }
      }
      if withFKs || one != null { columns := columns + ForeignKeys(entity); }
      spec := QuerySpec(entity, columns, preds.cells[..preds.len], order.cells[..order.len], 0, 0);
      if ctx.limit.Some? { spec := spec.(limit := ctx.limit.value); }
      if ctx.offset.Some? { spec := spec.(offset := ctx.offset.value); }
    }

    method AppendFieldOnce(column: string)
      requires Valid()
      modifies this`tree, this`Store, ctx`fields, ctx.fields.cells
      ensures Valid() && tree == old(tree).(fields := AppendOnce(old(tree).fields, column))
      ensures fresh(Store - old(Store))
    {
      if column !in ctx.fields.cells[..ctx.fields.len] {
        AddFields([column]);
      }
    }

    /** Makes sure that the foreign key which assigns the nodes of this builder to their parents is read. */
    method ReadForeignKey(edge: Edge)
      requires Valid()
      modifies this`withFKs, this`tree, this`Store, ctx`fields, ctx.fields.cells
      ensures Valid() && tree == Keyed(old(tree), edge) && fresh(Store - old(Store))
    {
      if edge.hidden {
        withFKs := true;
        tree := tree.(withFKs := true);
      } else if ctx.fields.len > 0 {
        AppendFieldOnce(edge.column);
      }
    }

    /** Restricts this builder to the nodes of the given parents. */
    method BindToParents(edge: Edge, fks: seq<nat>)
      requires Valid()
      modifies this`withFKs, this`preds, this`tree, this`Store, ctx`fields, ctx.fields.cells, preds.cells
      ensures Valid() && tree == Bind(Keyed(old(tree), edge), edge.column, fks) && fresh(Store - old(Store))
    {
      ReadForeignKey(edge);
      AddPredicates([InValues(edge.column, fks)]);
    }

    /** Runs this builder for the given parents. */
    method RunForParents(drv: Driver, edge: Edge, fks: seq<nat>)
      returns (r: Result<seq<Node>, Error>, ghost S: set<Node>)
      requires Valid()
      modifies Store, drv`queries
      ensures Valid() && Repr == old(Repr) && fresh(Store - old(Store))
      ensures var out := BatchAll(drv.db, Bind(Keyed(old(tree), edge), edge.column, fks));
              && tree == out.after
              && drv.queries == old(drv.queries) + out.queries
              && fresh(S) && Delivers(r, out.res, S)
      decreases Repr, 10
    {
      BindToParents(edge, fks);
      r, S := Run(drv);
    }

    /** Runs this builder for the given keys. */
    method RunForKeys(drv: Driver, ids: seq<nat>) returns (r: Result<seq<Node>, Error>, ghost S: set<Node>)
      requires Valid()
      modifies Store, drv`queries
      ensures Valid() && Repr == old(Repr) && fresh(Store - old(Store))
      ensures var out := BatchAll(drv.db, Bind(old(tree), IdColumn(entity), ids));
              && tree == out.after
              && drv.queries == old(drv.queries) + out.queries
              && fresh(S) && Delivers(r, out.res, S)
      decreases Repr, 10
    {
      AddPredicates([InValues(IdColumn(entity), ids)]);
      r, S := Run(drv);
    }

    /** What holds after the builder of an edge was run: all but that this builder's memory and value cover it. */
    ghost predicate Loose()
      reads this, Store, many, one, MemoryOf(many), MemoryOf(one)
      decreases Repr, 0
    {
      && this in Repr && ctx in Store && Settled() && WellTyped(tree)
      && (many != null ==> many in Store && many.Repr < Repr && Apart(many) && many.Valid())
      && (one != null ==> one in Store && one.Repr < Repr && Apart(one) && one.Valid())
      && (many != null && one != null ==> many.Store !! one.Store)
      && (many != null ==> ManyEdge(entity).Some? && many.entity == ManyEdge(entity).value.target)
      && (one != null ==> OneEdge(entity).Some? && one.entity == OneEdge(entity).value.target)
    }

    ghost method Tighten()
      requires Loose()
      modifies this`Store, this`tree
      ensures Valid() && Store == old(Store + MemoryOf(many) + MemoryOf(one))
      ensures tree == old(tree.(many := ValueOf(many), one := ValueOf(one)))
    {
      Store := Store + MemoryOf(many) + MemoryOf(one);
      tree := tree.(many := ValueOf(many),
                    one := ValueOf(one));
    }

    /** What a run of the builder of the children leaves of this one. */
    twostate lemma {:induction false} LooseAfterMany()
      requires old(Valid()) && many != null && unchanged(this, ctx)
      requires unchanged(old(ctx.fields.cells), old(preds.cells), old(order.cells))
      requires unchanged(old(MemoryOf(one)))
      requires many.Valid() && many.Repr == old(many.Repr) && fresh(many.Store - old(many.Store))
      ensures Loose()
      ensures one != null ==> one.Store == old(one.Store) && one.tree == old(one.tree)
    {
    }

    method CallMany(drv: Driver, fks: seq<nat>) returns (r: Result<seq<Node>, Error>, ghost S: set<Node>)
      requires Valid() && many != null
      modifies many.Store, drv`queries
      ensures Loose() && fresh(many.Store - old(many.Store))
      ensures one != null ==> one.Store == old(one.Store) && one.tree == old(one.tree)
      ensures var out := BatchAll(drv.db, ChildrenOf(tree, fks));
              && many.tree == out.after
              && drv.queries == old(drv.queries) + out.queries
              && fresh(S) && Delivers(r, out.res, S)
      decreases Repr, 0
    {
      r, S := many.RunForParents(drv, ManyEdge(entity).value, fks);
      LooseAfterMany();
    }

    twostate lemma {:induction false} LooseAfterOne()
      requires old(Valid()) && one != null && unchanged(this, ctx)
      requires unchanged(old(ctx.fields.cells), old(preds.cells), old(order.cells))
      requires unchanged(old(MemoryOf(many)))
      requires one.Valid() && one.Repr == old(one.Repr) && fresh(one.Store - old(one.Store))
      ensures Loose()
      ensures many != null ==> many.Store == old(many.Store) && many.tree == old(many.tree)
    {
    }

    method CallOne(drv: Driver, ids: seq<nat>) returns (r: Result<seq<Node>, Error>, ghost S: set<Node>)
      requires Valid() && one != null
      modifies one.Store, drv`queries
      ensures Loose() && fresh(one.Store - old(one.Store))
      ensures many != null ==> many.Store == old(many.Store) && many.tree == old(many.tree)
      ensures var out := BatchAll(drv.db, ParentsOf(tree, ids));
              && one.tree == out.after
              && drv.queries == old(drv.queries) + out.queries
              && fresh(S) && Delivers(r, out.res, S)
      decreases Repr, 0
    {
      r, S := one.RunForKeys(drv, ids);
      LooseAfterOne();
    }

    /** Runs the builder of the children for the given parents. */
    method RunMany(drv: Driver, fks: seq<nat>) returns (r: Result<seq<Node>, Error>, ghost S: set<Node>)
      requires Valid() && many != null
      modifies Store, drv`queries
      ensures Valid() && Repr == old(Repr) && fresh(Store - old(Store))
      ensures var out := BatchAll(drv.db, ChildrenOf(old(tree), fks));
              && tree == old(tree).(many := Some(out.after))
              && drv.queries == old(drv.queries) + out.queries
              && fresh(S) && Delivers(r, out.res, S)
      decreases Repr, 1
    {
      r, S := CallMany(drv, fks);
      Tighten();
    }

    /** Runs the builder of the parents for the given keys. */
    method RunOne(drv: Driver, ids: seq<nat>) returns (r: Result<seq<Node>, Error>, ghost S: set<Node>)
      requires Valid() && one != null
      modifies Store, drv`queries
      ensures Valid() && Repr == old(Repr) && fresh(Store - old(Store))
      ensures var out := BatchAll(drv.db, ParentsOf(old(tree), ids));
              && tree == old(tree).(one := Some(out.after))
              && drv.queries == old(drv.queries) + out.queries
              && fresh(S) && Delivers(r, out.res, S)
      decreases Repr, 1
    {
      r, S := CallOne(drv, ids);
      Tighten();
    }

    /** Indexes the nodes and queries their children. */
    method QueryChildren(drv: Driver, nodes: seq<Node>, ghost vals: seq<Loaded>)
      returns (index: map<nat, Node>, r: Result<seq<Node>, Error>, ghost S: set<Node>)
      requires Valid() && many != null
      requires DistinctObjects(nodes) && SameColumns(nodes, vals)
      modifies Store, drv`queries, ObjectsOf(nodes)`many
      ensures Valid() && Repr == old(Repr) && fresh(Store - old(Store))
      ensures var out := BatchAll(drv.db, ChildrenOf(old(tree), Ids(vals)));
              && tree == old(tree).(many := Some(out.after))
              && drv.queries == old(drv.queries) + out.queries
              && fresh(S) && Delivers(r, out.res, S)
      ensures IndexesLast(index, nodes) && Childless(nodes)
      decreases Repr, 3
    {
      var fks;
      fks, index := IndexNodes(nodes, vals);
      r, S := RunManyFor(drv, nodes, fks);
    }

    /** Running a builder does not change nodes that were loaded before. */
    method RunManyFor(drv: Driver, ghost nodes: seq<Node>, fks: seq<nat>)
      returns (r: Result<seq<Node>, Error>, ghost S: set<Node>)
      requires Valid() && many != null && Childless(nodes)
      modifies Store, drv`queries
      ensures Valid() && Repr == old(Repr) && fresh(Store - old(Store)) && Childless(nodes)
      ensures var out := BatchAll(drv.db, ChildrenOf(old(tree), fks));
              && tree == old(tree).(many := Some(out.after))
              && drv.queries == old(drv.queries) + out.queries
              && fresh(S) && Delivers(r, out.res, S)
      decreases Repr, 2
    {
      r, S := RunMany(drv, fks);
    }

    /** A builder does not depend on the nodes. */
    method IndexNodes(nodes: seq<Node>, ghost vals: seq<Loaded>) returns (fks: seq<nat>, index: map<nat, Node>)
      requires Valid() && DistinctObjects(nodes) && SameColumns(nodes, vals)
      modifies ObjectsOf(nodes)`many
      ensures Valid() && Repr == old(Repr) && Store == old(Store) && tree == old(tree)
      ensures fks == Ids(vals) && IndexesLast(index, nodes) && Childless(nodes)
    {
      fks, index := IndexById(nodes, vals);
    }

    method LoadMany(drv: Driver, nodes: seq<Node>, ghost vals: seq<Loaded>)
      returns (err: Option<Error>, ghost S: set<Node>)
      requires Valid() && many != null
      requires DistinctObjects(nodes) && SameColumns(nodes, vals)
      modifies Store, drv`queries, ObjectsOf(nodes)`many
      ensures Valid() && Repr == old(Repr) && fresh(Store - old(Store))
      ensures var out := BatchMany(drv.db, old(tree), vals);
              && tree == old(tree).(many := out.after)
              && drv.queries == old(drv.queries) + out.queries
              && fresh(S) && GivesMany(err, out.res, nodes, S)
      decreases Repr, 4
    {
      ghost var p := tree;
      var nodeids, r;
      nodeids, r, S := QueryChildren(drv, nodes, vals);
      err := AttachChildren(nodes, nodeids, r, vals, BatchAll(drv.db, ChildrenOf(p, Ids(vals))).res, S);
      BatchManyJoins(drv.db, p, vals);
    }

    /** Attaching nodes to nodes does not concern the builders. */
    method AttachChildren(
      nodes: seq<Node>, index: map<nat, Node>, r: Result<seq<Node>, Error>, ghost vals: seq<Loaded>,
      ghost res: Result<seq<Loaded>, Error>, ghost S: set<Node>)
      returns (err: Option<Error>)
      requires Valid() && many != null && SameColumns(nodes, vals) && IndexesLast(index, nodes) && Childless(nodes)
      requires Delivers(r, res, S) && ObjectsOf(nodes) !! S
      modifies ObjectsOf(nodes)`many
      ensures Valid() && GivesMany(err, JoinedChildren(ManyEdge(entity).value, vals, res), nodes, S)
    {
      err := JoinChildren(ManyEdge(entity).value, nodes, index, r, vals, res, S);
    }

    method LoadOne(drv: Driver, nodes: seq<Node>, ghost vals: seq<Loaded>)
      returns (err: Option<Error>, ghost S: set<Node>)
      requires Valid() && one != null
      requires DistinctObjects(nodes) && SameColumns(nodes, vals)
      requires forall i :: 0 <= i < |nodes| ==> nodes[i].one == null && vals[i].one == None
      modifies Store, drv`queries, ObjectsOf(nodes)`one
      ensures Valid() && Repr == old(Repr) && fresh(Store - old(Store))
      ensures var out := BatchOne(drv.db, old(tree), vals);
              && tree == old(tree).(one := out.after)
              && drv.queries == old(drv.queries) + out.queries
              && fresh(S) && GivesOne(err, out.res, nodes, S)
      decreases Repr, 4
    {
      var edge := OneEdge(entity).value;
      var ids, nodeids := GroupByKey(edge, nodes, vals);
      if |ids| == 0 { return None, {}; }
      err, S := LoadParents(drv, nodes, ids, nodeids, vals);
    }

    /** Queries the parents with the given keys and attaches them to the nodes. */
    method LoadParents(
      drv: Driver, nodes: seq<Node>, ids: seq<nat>, nodeids: map<nat, seq<Node>>, ghost vals: seq<Loaded>)
      returns (err: Option<Error>, ghost S: set<Node>)
      requires Valid() && one != null && ids != [] && ids == Keys(OneEdge(entity).value, vals)
      requires DistinctObjects(nodes) && SameColumns(nodes, vals)
      requires IndexesGroups(OneEdge(entity).value, nodeids, ids, nodes)
      requires forall i :: 0 <= i < |nodes| ==> nodes[i].one == null && vals[i].one == None
      modifies Store, drv`queries, ObjectsOf(nodes)`one
      ensures Valid() && Repr == old(Repr) && fresh(Store - old(Store))
      ensures var out := BatchOne(drv.db, old(tree), vals);
              && tree == old(tree).(one := out.after)
              && drv.queries == old(drv.queries) + out.queries
              && fresh(S) && GivesOne(err, out.res, nodes, S)
      decreases Repr, 3
    {
      ghost var p := tree;
      var r;
      r, S := RunOne(drv, ids);
      err := AttachParent(nodes, nodeids, r, ids, vals, BatchAll(drv.db, ParentsOf(p, ids)).res, S);
      BatchOneJoins(drv.db, p, vals);
    }

    method AttachParent(
      nodes: seq<Node>, index: map<nat, seq<Node>>, r: Result<seq<Node>, Error>, ghost keys: seq<nat>,
      ghost vals: seq<Loaded>, ghost res: Result<seq<Loaded>, Error>, ghost S: set<Node>)
      returns (err: Option<Error>)
      requires Valid() && one != null && DistinctObjects(nodes) && SameColumns(nodes, vals)
      requires IndexesGroups(OneEdge(entity).value, index, keys, nodes)
      requires forall i :: 0 <= i < |nodes| ==> nodes[i].one == null
      requires Delivers(r, res, S) && ObjectsOf(nodes) !! S
      modifies ObjectsOf(nodes)`one
      ensures Valid() && GivesOne(err, JoinedParents(OneEdge(entity).value, keys, vals, res), nodes, S)
    {
      err := JoinParents(OneEdge(entity).value, nodes, index, r, keys, vals, res, S);
    }

    /** Loads the children, if they are asked for. */
    method LoadManyIfAsked(drv: Driver, nodes: seq<Node>, ghost vals: seq<Loaded>)
      returns (err: Option<Error>, ghost S: set<Node>)
      requires Valid()
      requires DistinctObjects(nodes) && SameColumns(nodes, vals)
      requires forall i :: 0 <= i < |nodes| ==> nodes[i].many == [] && vals[i].many == [] && vals[i].one == None
      modifies Store, drv`queries, ObjectsOf(nodes)`many
      ensures Valid() && Repr == old(Repr) && fresh(Store - old(Store))
      ensures var out := BatchMany(drv.db, old(tree), vals);
              && tree == old(tree).(many := out.after)
              && drv.queries == old(drv.queries) + out.queries
              && (if err.Some? then out.res == Failure(err.value) else out.res.Success?)
              && fresh(S)
              && (out.res.Success? ==>
                    && SameColumns(nodes, out.res.value)
                    && forall i :: 0 <= i < |nodes| ==>
                         out.res.value[i].one == None && ShowsAll(nodes[i].many, out.res.value[i].many, S))
      decreases Repr, 5
    {
      ghost var p := tree;
      err, S := None, {};
      if many != null { err, S := LoadMany(drv, nodes, vals); }
      if err.None? { ManyKeeps(drv.db, p, vals); }
    }

    method LoadAnyOne(drv: Driver, nodes: seq<Node>, ghost vals: seq<Loaded>)
      returns (err: Option<Error>, ghost S: set<Node>)
      requires Valid()
      requires DistinctObjects(nodes) && SameColumns(nodes, vals)
      requires forall i :: 0 <= i < |nodes| ==> nodes[i].one == null && vals[i].one == None
      modifies Store, drv`queries, ObjectsOf(nodes)`one
      ensures Valid() && Repr == old(Repr) && fresh(Store - old(Store))
      ensures var out := BatchOne(drv.db, old(tree), vals);
              && tree == old(tree).(one := out.after)
              && drv.queries == old(drv.queries) + out.queries
              && fresh(S) && GivesOne(err, out.res, nodes, S)
      decreases Repr, 5
    {
      err, S := None, {};
      if one != null { err, S := LoadOne(drv, nodes, vals); }
    }

    /** Loads the parents, if they are asked for, of nodes whose children are loaded. */
    method LoadOneIfAsked(drv: Driver, nodes: seq<Node>, ghost vals: seq<Loaded>, ghost p: Plan, ghost kids: set<Node>)
      returns (err: Option<Error>, ghost S: set<Node>)
      requires Valid() && WellTyped(p) && tree == p.(many := tree.many)
      requires DistinctObjects(nodes) && SameColumns(nodes, vals) && ObjectsOf(nodes) !! kids
      requires forall i :: 0 <= i < |nodes| ==>
                 && nodes[i].one == null && vals[i].one == None
                 && ShowsAll(nodes[i].many, vals[i].many, kids)
      modifies Store, drv`queries, ObjectsOf(nodes)`one
      ensures Valid() && Repr == old(Repr) && fresh(Store - old(Store))
      ensures var out := BatchOne(drv.db, p, vals);
              && tree == old(tree).(one := out.after)
              && drv.queries == old(drv.queries) + out.queries
              && (if err.Some? then out.res == Failure(err.value) else out.res.Success?)
              && ObjectsOf(nodes) + kids <= S && fresh(S - ObjectsOf(nodes) - kids)
              && (out.res.Success? ==> ShowsAll(nodes, out.res.value, S))
      decreases Repr, 6
    {
      OneKeeps(drv.db, p, tree, vals);
      ghost var parents;
      err, parents := LoadAnyOne(drv, nodes, vals);
      S := ObjectsOf(nodes) + kids + parents;
      if err.None? { NodesShow(nodes, BatchOne(drv.db, p, vals).res.value, kids, parents, S); }
    }

    /** Loads the edges of nodes that one query has read. */
    method LoadEdges(drv: Driver, nodes: seq<Node>, ghost vals: seq<Loaded>)
      returns (err: Option<Error>, ghost S: set<Node>)
      requires Valid()
      requires DistinctObjects(nodes) && SameColumns(nodes, vals)
      requires forall i :: 0 <= i < |nodes| ==>
                 && nodes[i].many == [] && nodes[i].one == null
                 && vals[i].many == [] && vals[i].one == None
      modifies Store, drv`queries, ObjectsOf(nodes)
      ensures Valid() && Repr == old(Repr) && fresh(Store - old(Store))
      ensures var out := BatchEdges(drv.db, old(tree), vals);
              && tree == out.after
              && drv.queries == old(drv.queries) + out.queries - 1
              && (if err.Some? then out.res == Failure(err.value) else out.res.Success?)
              && ObjectsOf(nodes) <= S && fresh(S - ObjectsOf(nodes))
              && (out.res.Success? ==> ShowsAll(nodes, out.res.value, S))
      decreases Repr, 7
    {
      ghost var p := tree;
      ghost var kids;
      S := ObjectsOf(nodes);
      err, kids := LoadManyIfAsked(drv, nodes, vals);
      if err.Some? { return; }
      err, S := LoadOneIfAsked(drv, nodes, BatchMany(drv.db, p, vals).res.value, p, kids);
    }

    /** Runs the query of this builder and loads the edges of its result. */
    method SqlAll(drv: Driver) returns (r: Result<seq<Node>, Error>, ghost S: set<Node>)
      requires Valid() && PrepareError(tree).None?
      modifies Store, drv`queries
      ensures Valid() && Repr == old(Repr) && fresh(Store - old(Store))
      ensures var out := BatchAll(drv.db, old(tree));
              && tree == out.after
              && drv.queries == old(drv.queries) + out.queries
              && fresh(S) && Delivers(r, out.res, S)
      decreases Repr, 8
    {
      var nodes;
      ghost var vals;
      nodes, vals := Fetch(drv);
      S := ObjectsOf(nodes);
      if |nodes| == 0 { return Success([]), S; }
      var err;
      err, S := LoadEdges(drv, nodes, vals);
      r := if err.Some? then Failure(err.value) else Success(nodes);
    }

    /** Runs the query of this builder alone. */
    method Fetch(drv: Driver) returns (nodes: seq<Node>, ghost vals: seq<Loaded>)
      requires Valid() && PrepareError(tree).None?
      modifies drv`queries
      ensures Valid() && tree == old(tree) && drv.queries == old(drv.queries) + 1
      ensures fresh(ObjectsOf(nodes)) && DistinctObjects(nodes) && SameColumns(nodes, vals)
      ensures forall i :: 0 <= i < |nodes| ==>
                nodes[i].many == [] && nodes[i].one == null && vals[i].many == [] && vals[i].one == None
      ensures BatchAll(drv.db, tree) ==
              if vals == [] then Outcome(Success([]), tree, 1) else BatchEdges(drv.db, tree, vals)
    {
      var spec := QuerySpecOf();
      var rows := drv.QueryNodes(spec);
      vals := BareAll(tree, rows);
      BareAllAt(tree, rows);
      nodes := CreateNodes(entity, many != null, one != null, rows, tree);
    }

    /** Prepares and runs this builder. */
    method Run(drv: Driver) returns (r: Result<seq<Node>, Error>, ghost S: set<Node>)
      requires Valid()
      modifies Store, drv`queries
      ensures Valid() && Repr == old(Repr) && fresh(Store - old(Store))
      ensures var out := BatchAll(drv.db, old(tree));
              && tree == out.after
              && drv.queries == old(drv.queries) + out.queries
              && fresh(S) && Delivers(r, out.res, S)
      decreases Repr, 9
    {
      var err := Prepare();
      if err.Some? { return Failure(err.value), {}; }
      r, S := SqlAll(drv);
    }

    /** The nodes that the builder asks for, with their edges: what one query per row and edge would return, for at
        most one query per builder. */
    method All(drv: Driver) returns (r: Result<seq<Node>, Error>, ghost S: set<Node>)
      requires Valid()
      modifies Store, drv`queries
      ensures Valid() && Repr == old(Repr) && fresh(Store - old(Store)) && fresh(S)
      ensures tree == BatchAll(drv.db, old(tree)).after
      ensures Delivers(r, BatchAll(drv.db, old(tree)).res, S)
      ensures drv.queries <= old(drv.queries) + Size(old(tree))
      ensures WellFormed(drv.db) && ZeroFree(drv.db) && WholeBelow(old(tree)) ==>
                && (r.Success? <==> Ready(drv.db, old(tree)))
                && (r.Success? ==>
                      ShowsAll(r.value, Views(drv.db, old(tree), Select(drv.db, SpecOf(old(tree)))), S))
    {
      QueriesAreBounded(drv.db, tree);
      if WellFormed(drv.db) && ZeroFree(drv.db) && WholeBelow(tree) { Agree(drv.db, tree); }
      r, S := Run(drv);
    }

    /** The first node of the unlimited load, or NotFound. The limit stays on the builder. */
    method First(drv: Driver) returns (r: Result<Node, Error>, ghost S: set<Node>)
      requires Valid()
      modifies Store, drv`queries
      ensures Valid() && Repr == old(Repr) && fresh(Store - old(Store)) && fresh(S)
      ensures tree == BatchAll(drv.db, old(tree).(limit := Some(1))).after && ctx.limit == Some(1)
      ensures WellFormed(drv.db) && ZeroFree(drv.db) && WholeBelow(old(tree))
              && BatchAll(drv.db, Unlimited(old(tree))).res.Success? ==>
                var all := BatchAll(drv.db, Unlimited(old(tree))).res.value;
                if all == [] then r == Failure(NotFound(entity)) else r.Success? && Shows(r.value, all[0], S)
      ensures match BatchAll(drv.db, old(tree).(limit := Some(1))).res
              case Failure(e) => r == Failure(e)
              case Success(some) =>
                if some == [] then r == Failure(NotFound(entity)) else r.Success? && Shows(r.value, some[0], S)
    {
      LimitedLoadIfSound(drv.db, tree, 1);
      LimitStays(drv.db, tree, 1);
      SetLimit(1);
      var nodes;
      nodes, S := Run(drv);
      if nodes.Failure? { return Failure(nodes.error), S; }
      r := if |nodes.value| == 0 then Failure(NotFound(entity)) else Success(nodes.value[0]);
    }

    /** The only node of the unlimited load; NotFound if there is none, NotSingular if there are more, although at most
        two are fetched. The limit stays on the builder. */
    method Only(drv: Driver) returns (r: Result<Node, Error>, ghost S: set<Node>)
      requires Valid()
      modifies Store, drv`queries
      ensures Valid() && Repr == old(Repr) && fresh(Store - old(Store)) && fresh(S)
      ensures tree == BatchAll(drv.db, old(tree).(limit := Some(2))).after && ctx.limit == Some(2)
      ensures WellFormed(drv.db) && ZeroFree(drv.db) && WholeBelow(old(tree))
              && BatchAll(drv.db, Unlimited(old(tree))).res.Success? ==>
                var all := BatchAll(drv.db, Unlimited(old(tree))).res.value;
                if |all| == 0 then r == Failure(NotFound(entity))
                else if |all| == 1 then r.Success? && Shows(r.value, all[0], S)
                else r == Failure(NotSingular(entity))
      ensures match BatchAll(drv.db, old(tree).(limit := Some(2))).res
              case Failure(e) => r == Failure(e)
              case Success(some) =>
                if |some| == 0 then r == Failure(NotFound(entity))
                else if |some| == 1 then r.Success? && Shows(r.value, some[0], S)
                else r == Failure(NotSingular(entity))
    {
      LimitedLoadIfSound(drv.db, tree, 2);
      LimitStays(drv.db, tree, 2);
      SetLimit(2);
      var nodes;
      nodes, S := Run(drv);
      if nodes.Failure? { return Failure(nodes.error), S; }
      r := if |nodes.value| == 1 then Success(nodes.value[0])
           else if |nodes.value| == 0 then Failure(NotFound(entity))
           else Failure(NotSingular(entity));
    }

    /** The identifiers that the query selects. The identifier stays among the selected fields. */
    method AllIds(drv: Driver) returns (r: Result<seq<nat>, Error>)
      requires Valid()
      modifies Store, drv`queries
      ensures Valid() && tree == old(tree).(fields := old(tree).fields + [IdColumn(entity)])
      ensures fresh(Store - old(Store)) && r == IdsOf(drv.db, tree)
      ensures old(tree).fields == [] && PrepareError(old(tree)).None? && old(tree).limit != Some(0) ==>
                && r.Success? && Identifies(entity, r.value, Select(drv.db, SpecOf(old(tree))))
                && (BatchAll(drv.db, old(tree)).res.Success? ==> r.value == Ids(BatchAll(drv.db, old(tree)).res.value))
      ensures PrepareError(old(tree)).Some? ==> r == Failure(PrepareError(old(tree)).value)
      ensures PrepareError(old(tree)).None? && old(tree).fields != [] ==>
                r == Failure(TooManyColumns(|old(tree).fields| + 1))
    {
      IdsIf(drv.db, tree);
      AddFields([IdColumn(entity)]);
      var err := Prepare();
      if err.Some? { return Failure(err.value); }
      if ctx.fields.len > 1 { return Failure(TooManyColumns(ctx.fields.len)); }
      r := ScanIds(drv);
    }

    method ScanIds(drv: Driver) returns (r: Result<seq<nat>, Error>)
      requires Valid() && PrepareError(tree).None? && |tree.fields| <= 1
      modifies drv`queries
      ensures Valid() && tree == old(tree) && r == IdsOf(drv.db, tree)
    {
      var spec := QuerySpecOf();
      var rows := drv.QueryNodes(spec.(columns := [IdColumn(entity)]));
      ProjectedIds(entity, Select(drv.db, spec));
      r := Success(if ctx.limit == Some(0) then [] else RowIds(entity, rows));
    }

    method FirstId(drv: Driver) returns (r: Result<nat, Error>)
      requires Valid()
      modifies Store, drv`queries
      ensures Valid() && fresh(Store - old(Store))
      ensures tree == old(tree).(limit := Some(1), fields := old(tree).fields + [IdColumn(entity)])
      ensures match IdsOf(drv.db, tree)
              case Failure(e) => r == Failure(e)
              case Success(ids) => r == if ids == [] then Failure(NotFound(entity)) else Success(ids[0])
      ensures old(tree).fields == [] && PrepareError(old(tree)).None? ==>
                && IsFirst(drv.db, old(tree), if r.Success? then Some(r.value) else None)
                && (r.Failure? ==> r == Failure(NotFound(entity)))
    {
      FirstIdIf(drv.db, tree);
      SetLimit(1);
      var ids := AllIds(drv);
      if ids.Failure? { return Failure(ids.error); }
      r := if |ids.value| == 0 then Failure(NotFound(entity)) else Success(ids.value[0]);
    }

    /** Whether the query selects anything. It says so once: the identifier stays among the selected fields, so a
        builder that has selected fields, or was asked before, fails. */
    method Exist(drv: Driver) returns (r: Result<bool, Error>)
      requires Valid()
      modifies Store, drv`queries
      ensures Valid() && fresh(Store - old(Store))
      ensures tree == old(tree).(limit := Some(1), fields := old(tree).fields + [IdColumn(entity)])
      ensures r == Exists(drv.db, old(tree))
    {
      ExistsIs(drv.db, tree);
      var id := FirstId(drv);
      if id.Success? { return Success(true); }
      if id.error == NotFound(entity) { return Success(false); }
      r := Failure(id.error);
    }
  }

  lemma {:induction false} IdsIf(db: DB, p: Plan)
    requires WellTyped(p)
    ensures var ids := IdsOf(db, p.(fields := p.fields + [IdColumn(p.entity)]));
            && (p.fields == [] && PrepareError(p).None? && p.limit != Some(0) ==>
                  && ids.Success? && Identifies(p.entity, ids.value, Select(db, SpecOf(p)))
                  && (BatchAll(db, p).res.Success? ==> ids.value == Ids(BatchAll(db, p).res.value)))
            && (PrepareError(p).Some? ==> ids == Failure(PrepareError(p).value))
            && (PrepareError(p).None? && p.fields != [] ==> ids == Failure(TooManyColumns(|p.fields| + 1)))
  {
    assert [] + [IdColumn(p.entity)] == [IdColumn(p.entity)];
    IdIsValid(p.entity);
    FieldErrorOneMore(p.entity, p.fields, IdColumn(p.entity));
    if p.fields == [] && PrepareError(p).None? && p.limit != Some(0) { IdsAreThose(db, p); }
  }

  /** The identifier of the first row that is selected without a limit, and of the first node of the load with limit 1
      if that succeeds, if there is one. */
  ghost predicate IsFirst(db: DB, p: Plan, id: Option<nat>)
    requires WellTyped(p)
  {
    var (rows, res) := (Select(db, SpecOf(Unlimited(p))), BatchAll(db, p.(limit := Some(1))).res);
    && id == (if rows == [] then None else Some(Field(rows[0], IdColumn(p.entity))))
    && (res.Success? ==> id == if res.value == [] then None else Some(NodeId(res.value[0])))
  }

  lemma {:induction false} FirstIdIf(db: DB, p: Plan)
    requires WellTyped(p)
    ensures var ids := IdsOf(db, p.(limit := Some(1), fields := p.fields + [IdColumn(p.entity)]));
            p.fields == [] && PrepareError(p).None? ==>
              ids.Success? && IsFirst(db, p, if ids.value == [] then None else Some(ids.value[0]))
  {
    if p.fields == [] && PrepareError(p).None? {
      assert [] + [IdColumn(p.entity)] == [IdColumn(p.entity)];
      IdsAreThose(db, p.(limit := Some(1)));
      LimitTakes(db, p, 1);
      if BatchAll(db, p.(limit := Some(1))).res.Success? { IdsAt(BatchAll(db, p.(limit := Some(1))).res.value); }
    }
  }

  /** What Exist answers. */
  function Exists(db: DB, p: Plan): Result<bool, Error> {
    if PrepareError(p).Some? then Failure(PrepareError(p).value)
    else if p.fields != [] then Failure(TooManyColumns(|p.fields| + 1))
    else Success(Select(db, SpecOf(Unlimited(p))) != [])
  }

  lemma {:induction false} ExistsIs(db: DB, p: Plan)
    ensures var ids := IdsOf(db, p.(limit := Some(1), fields := p.fields + [IdColumn(p.entity)]));
            && (Exists(db, p).Failure? ==> ids == Failure(Exists(db, p).error) && !ids.error.NotFound?)
            && (Exists(db, p).Success? ==> ids.Success? && (ids.value != [] <==> Exists(db, p).value))
  {
    var q := p.(limit := Some(1), fields := p.fields + [IdColumn(p.entity)]);
    PreparingErrors(p);
    PreparedWithId(p);
    LimitTakes(db, p, 1);
    SelectIgnoresColumns(db, SpecOf(p.(limit := Some(1))), SpecOf(q));
  }

  /** Selecting the identifier as well changes nothing about whether a builder can be prepared. */
  lemma {:induction false} PreparedWithId(p: Plan)
    ensures PrepareError(p.(limit := Some(1), fields := p.fields + [IdColumn(p.entity)])) == PrepareError(p)
  {
    IdIsValid(p.entity);
    FieldErrorOneMore(p.entity, p.fields, IdColumn(p.entity));
  }

  lemma {:induction false} IdIsValid(e: Entity)
    ensures ValidColumn(e, IdColumn(e))
  {
    assert Columns(e)[0] == IdColumn(e);
  }

  lemma {:induction false} FieldErrorOneMore(e: Entity, fields: seq<string>, field: string)
    requires ValidColumn(e, field)
    ensures FieldError(e, fields + [field]) == FieldError(e, fields)
  {
    if fields == [] {
      assert [field][1..] == [];
    } else {
      FieldErrorOneMore(e, fields[1..], field);
      assert (fields + [field])[1..] == fields[1..] + [field];
    }
  }

  /** On a builder without selected fields that can be prepared, Exist, First and Only are consistent: whenever the
      loads of First and Only succeed, they find nothing exactly when Exist says that there is nothing. */
  lemma {:induction false} ExistMeansFound(db: DB, p: Plan, n: nat)
    requires WellTyped(p) && p.fields == [] && PrepareError(p).None? && n > 0
    requires BatchAll(db, p.(limit := Some(n))).res.Success?
    ensures Exists(db, p) == Success(BatchAll(db, p.(limit := Some(n))).res.value != [])
  {
    LoadedHoldRows(db, p.(limit := Some(n)));
    LimitTakes(db, p, n);
  }

  lemma {:induction false} LimitedLoadIfSound(db: DB, p: Plan, n: nat)
    requires WellTyped(p) && n > 0
    ensures WellFormed(db) && ZeroFree(db) && WholeBelow(p) && BatchAll(db, Unlimited(p)).res.Success? ==>
              var all := BatchAll(db, Unlimited(p)).res.value;
              BatchAll(db, p.(limit := Some(n))).res == Success(if |all| <= n then all else all[..n])
  {
    if WellFormed(db) && ZeroFree(db) && WholeBelow(p) && BatchAll(db, Unlimited(p)).res.Success? {
      LimitedLoad(db, p, n);
    }
  }

  lemma {:induction false} LimitStays(db: DB, p: Plan, n: nat)
    requires WellTyped(p)
    ensures BatchAll(db, p.(limit := Some(n))).after.limit == Some(n)
  {
    AfterIsSimilar(db, p.(limit := Some(n)));
  }

  // ----- clones -----

  /** A builder that was configured and never run is cloned as it is. */
  lemma {:induction false} ConfiguredIsCloned(config: Entity -> seq<Interceptor>, p: Plan, calls: seq<Call>)
    requires Cloned(p) == p
    ensures Cloned(ApplyAll(config, p, calls)) == ApplyAll(config, p, calls)
    decreases calls, 1
  {
    if calls != [] {
      ConfiguredIsCloned(config, p, calls[..|calls| - 1]);
      CallIsCloned(config, ApplyAll(config, p, calls[..|calls| - 1]), calls[|calls| - 1]);
    }
  }

  lemma {:induction false} CallIsCloned(config: Entity -> seq<Interceptor>, p: Plan, call: Call)
    requires Cloned(p) == p
    ensures Cloned(Apply(config, p, call)) == Apply(config, p, call)
    decreases call, 0
  {
    match call
    case WithMany(options) =>
      if ManyEdge(p.entity).Some? {
        ConfiguredIsCloned(config, New(config, ManyEdge(p.entity).value.target), options);
      }
    case WithOne(options) =>
      if OneEdge(p.entity).Some? {
        ConfiguredIsCloned(config, New(config, OneEdge(p.entity).value.target), options);
      }
    case _ =>
  }

  /** A clone of a builder that was run drops the flag that the run has set, which changes columns but no edge. */
  lemma {:induction false} ClonedIsUnselected(p: Plan)
    ensures Unselected(Cloned(p)) == Unselected(p) && (WholeBelow(p) ==> WholeBelow(Cloned(p)))
  {
    if p.many.Some? { ClonedIsUnselected(p.many.value); }
    if p.one.Some? { ClonedIsUnselected(p.one.value); }
  }

  lemma {:induction false} ClonedBound(c: Plan, d: Plan, edge: Edge, ids: seq<nat>)
    requires Cloned(c) == Cloned(d)
    ensures Cloned(Bind(Keyed(c, edge), edge.column, ids)) == Cloned(Bind(Keyed(d, edge), edge.column, ids))
  {
    var x, y := Bind(Keyed(c, edge), edge.column, ids), Bind(Keyed(d, edge), edge.column, ids);
    assert x.fields == y.fields && x.many == c.many && y.many == d.many && x.one == c.one && y.one == d.one;
    assert Cloned(x).many == Cloned(c).many && Cloned(y).many == Cloned(d).many;
    assert Cloned(x).one == Cloned(c).one && Cloned(y).one == Cloned(d).one;
  }

  /** The flags decide nothing about which builders can be prepared. */
  lemma {:induction false} ReadyForgetsFlags(db: DB, p: Plan, q: Plan)
    requires WellTyped(p) && WellTyped(q) && Cloned(p) == Cloned(q)
    ensures Ready(db, p) <==> Ready(db, q)
    decreases Height(p), 2
  {
    SelectIgnoresColumns(db, SpecOf(p), SpecOf(q));
    forall row | row in Select(db, SpecOf(p)) ensures RowReady(db, p, row) <==> RowReady(db, q, row) {
      RowReadyForgetsFlags(db, p, q, row);
    }
  }

  lemma {:induction false} RowReadyForgetsFlags(db: DB, p: Plan, q: Plan, row: Row)
    requires WellTyped(p) && WellTyped(q) && Cloned(p) == Cloned(q)
    ensures RowReady(db, p, row) <==> RowReady(db, q, row)
    decreases Height(p), 1
  {
    if p.many.Some? { ChildrenForgetFlags(db, p, q, [IdOf(p.entity, row)]); }
    if p.one.Some? {
      var key := Pointer(row, OneEdge(p.entity).value.column);
      ParentsForgetFlags(db, p, q, if key.Some? then [key.value] else []);
    }
  }

  lemma {:induction false} ChildrenForgetFlags(db: DB, p: Plan, q: Plan, ids: seq<nat>)
    requires WellTyped(p) && WellTyped(q) && Cloned(p) == Cloned(q) && p.many.Some?
    ensures Ready(db, ChildrenOf(p, ids)) <==> Ready(db, ChildrenOf(q, ids))
    decreases Height(p), 0, 1
  {
    ClonedBound(p.many.value, q.many.value, ManyEdge(p.entity).value, ids);
    ReadyForgetsFlags(db, ChildrenOf(p, ids), ChildrenOf(q, ids));
  }

  lemma {:induction false} ParentsForgetFlags(db: DB, p: Plan, q: Plan, keys: seq<nat>)
    requires WellTyped(p) && WellTyped(q) && Cloned(p) == Cloned(q) && p.one.Some?
    ensures Ready(db, ParentsOf(p, keys)) <==> Ready(db, ParentsOf(q, keys))
    decreases Height(p), 0, 1
  {
    ReadyForgetsFlags(db, ParentsOf(p, keys), ParentsOf(q, keys));
  }

  lemma {:induction false} ClonedTwice(p: Plan)
    ensures Cloned(Cloned(p)) == Cloned(p)
  {
    if p.many.Some? { ClonedTwice(p.many.value); }
    if p.one.Some? { ClonedTwice(p.one.value); }
  }

  /** A clone loads successfully exactly when the original does, and then the same identifiers and edges. */
  lemma {:induction false} CloneLoadsTheSame(db: DB, p: Plan)
    requires WellFormed(db) && ZeroFree(db) && WellTyped(p) && WholeBelow(p)
    ensures BatchAll(db, Cloned(p)).res.Success? <==> BatchAll(db, p).res.Success?
    ensures BatchAll(db, p).res.Success? ==>
              ShapesOf(BatchAll(db, Cloned(p)).res.value) == ShapesOf(BatchAll(db, p).res.value)
  {
    ClonedIsUnselected(p);
    ClonedTwice(p);
    ReadyForgetsFlags(db, Cloned(p), p);
    Agree(db, p);
    Agree(db, Cloned(p));
    if BatchAll(db, p).res.Success? { ProjectionInvariance(db, Cloned(p), p); }
  }

  method Use(q: Query, drv: Driver, calls: seq<Call>)
    requires q.Valid()
    modifies q.Store, drv`queries
    ensures q.Valid() && fresh(q.Store - old(q.Store))
    ensures q.tree == BatchAll(drv.db, ApplyAll(q.config, old(q.tree), calls)).after
  {
    q.PerformAll(calls);
    var _, _ := q.Run(drv);
  }

  /** Whatever is done to a clone, including running it, the original keeps its value. */
  method EditClone(q: Query, drv: Driver, calls: seq<Call>) returns (c: Query)
    requires q.Valid()
    modifies drv`queries
    ensures q.Valid() && q.tree == old(q.tree)
    ensures c.Valid() && c.tree == BatchAll(drv.db, ApplyAll(q.config, Cloned(old(q.tree)), calls)).after
  {
    c := q.Clone();
    Use(c, drv, calls);
  }

  /** Whatever is done to the original, including running it, a clone keeps its value. */
  method EditOriginal(q: Query, drv: Driver, calls: seq<Call>) returns (c: Query)
    requires q.Valid()
    modifies q.Store, drv`queries
    ensures c.Valid() && c.tree == Cloned(old(q.tree))
    ensures q.Valid() && q.tree == BatchAll(drv.db, ApplyAll(q.config, old(q.tree), calls)).after
  {
    c := q.Clone();
    UseBeside(c, q, drv, calls);
  }

  /** What is done to a builder leaves every other one as it is. */
  method UseBeside(c: Query, q: Query, drv: Driver, calls: seq<Call>)
    requires c.Valid() && q.Valid() && c.Store !! q.Store
    modifies q.Store, drv`queries
    ensures c.Valid() && c.tree == old(c.tree)
    ensures q.Valid() && q.tree == BatchAll(drv.db, ApplyAll(q.config, old(q.tree), calls)).after
  {
    Use(q, drv, calls);
    c.StillValid();
  }
}
