/**
What the configuration of a builder means for the query that it sends, call by call and for whole lists of calls.
*/
module QueryLaws {
  import opened Schema
  import opened Store
  import opened Plans
  import opened Eager
  import opened EagerAgrees
  import opened EagerEdges
  import opened QueryBuilder
  import opened Wrappers

  /** The rows that a builder selects. */
  ghost function Selected(db: DB, p: Plan): seq<Row> { Select(db, SpecOf(p)) }

  function Take(n: nat, rows: seq<Row>): seq<Row> { if n < |rows| then rows[..n] else rows }

  function Drop(n: nat, rows: seq<Row>): seq<Row> { if n < |rows| then rows[n..] else [] }

  // ----- one call -----

  /** A limit selects the first rows of what is selected without one, and a limit of 0 is none; nothing else changes. */
  lemma {:induction false} LimitSelects(db: DB, inters: Entity -> seq<Interceptor>, p: Plan, n: nat)
    ensures var q := Apply(inters, p, Limit(n));
            var all := Selected(db, p.(limit := None));
            Selected(db, q) == (if n == 0 then all else Take(n, all)) && q == p.(limit := q.limit)
  {
  }

  /** An offset drops the first rows of what a query without a limit selects without one; nothing else changes. */
  lemma {:induction false} OffsetSelects(db: DB, inters: Entity -> seq<Interceptor>, p: Plan, n: nat)
    ensures var q := Apply(inters, p, Offset(n));
            && (p.limit.None? ==> Selected(db, q) == Drop(n, Selected(db, p.(offset := None))))
            && q == p.(offset := q.offset)
  {
  }

  /** Predicates filter what a query without a page selects, and hold of whatever a query with one selects; nothing else
      changes. */
  lemma {:induction false} WhereSelects(
    db: DB, inters: Entity -> seq<Interceptor>, p: Plan, ps: seq<Predicate>, row: Row)
    ensures var q := Apply(inters, p, Where(ps));
            && (Whole(p) ==>
                  && Selected(db, q) == Matching(ps, Selected(db, p))
                  && (row in Selected(db, q) <==>
                        row in Selected(db, p) && forall i :: 0 <= i < |ps| ==> Sat(ps[i], row)))
            && (row in Selected(db, q) ==> forall i :: 0 <= i < |ps| ==> Sat(ps[i], row))
            && q == p.(preds := q.preds)
  {
    var q := Apply(inters, p, Where(ps));
    if Whole(p) {
      SelectMore(db, SpecOf(p), ps);
      MatchingIn(ps, Selected(db, p), row);
    }
    if row in Selected(db, q) {
      var table := (db.rows)(p.entity);
      SortIn(db, q.order, Matching(q.preds, table), row);
      MatchingIn(q.preds, table, row);
      SatAllConcat(p.preds, ps, row);
    }
  }

  /** Order terms on an unordered builder sort what it selects, losing and inventing nothing if there is no page; on an
      ordered one they come after the earlier terms. Nothing else changes. */
  lemma {:induction false} OrderSelects(db: DB, inters: Entity -> seq<Interceptor>, p: Plan, terms: seq<OrderTerm>)
    ensures var q := Apply(inters, p, Order(terms));
            && Sorted(db, p.order + terms, Selected(db, q))
            && (p.order == [] ==> Sorted(db, terms, Selected(db, q)))
            && (Whole(p) ==> multiset(Selected(db, q)) == multiset(Selected(db, p)))
            && q == p.(order := q.order)
  {
    var q := Apply(inters, p, Order(terms));
    SelectSorted(db, SpecOf(q));
    assert p.order == [] ==> p.order + terms == terms;
    if Whole(p) {
      var kept := Matching(p.preds, (db.rows)(p.entity));
      SortKeepsAll(db, q.order, kept);
      SortKeepsAll(db, p.order, kept);
    }
  }

  /** Selected fields are read, whatever was selected before, and select the same rows; nothing else changes. */
  lemma {:induction false} FieldsAreRead(
    db: DB, inters: Entity -> seq<Interceptor>, p: Plan, fields: seq<string>, c: string)
    requires WellTyped(p) && c in fields
    ensures var q := Apply(inters, p, SelectFields(fields));
            && c in SelectedColumns(q) && Selected(db, q) == Selected(db, p)
            && (forall d :: d in p.fields ==> d in SelectedColumns(q))
            && q == p.(fields := q.fields)
  {
    var q := Apply(inters, p, SelectFields(fields));
    ColumnsRead(q, c);
    forall d | d in p.fields ensures d in SelectedColumns(q) { ColumnsRead(q, d); }
  }

  /** A new builder selects the whole table, in table order and with all columns, and loads no edges. */
  lemma {:induction false} NewSelects(db: DB, inters: Entity -> seq<Interceptor>, e: Entity)
    ensures var p := New(inters, e);
            && Selected(db, p) == (db.rows)(e) && SelectedColumns(p) == Columns(e)
            && p.inters == inters(e) && p.many.None? && p.one.None? && !p.withFKs
  {
    MatchingAll([], (db.rows)(e));
    UnorderedStays(db, (db.rows)(e));
  }

  lemma {:induction false} UnorderedStays(db: DB, rows: seq<Row>)
    ensures Sort(db, [], rows) == rows
  {
    if rows != [] { UnorderedStays(db, rows[1..]); }
  }

  /** A With call for the children replaces their builder, and nothing else, by a new one of the entity at the other
      end, with its interceptors, to which the options were applied; without such an edge it does nothing. */
  lemma {:induction false} WithManyReplaces(inters: Entity -> seq<Interceptor>, p: Plan, options: seq<Call>)
    ensures var q := Apply(inters, p, WithMany(options));
            if ManyEdge(p.entity).None? then q == p
            else && q == p.(many := q.many) && q.many.Some?
                 && Configures(inters, ManyEdge(p.entity).value.target, options, q.many.value)
  {
    if ManyEdge(p.entity).Some? {
      CallsConfigure(inters, ManyEdge(p.entity).value.target, options);
    }
  }

  /** The same for the parent. */
  lemma {:induction false} WithOneReplaces(inters: Entity -> seq<Interceptor>, p: Plan, options: seq<Call>)
    ensures var q := Apply(inters, p, WithOne(options));
            if OneEdge(p.entity).None? then q == p
            else && q == p.(one := q.one) && q.one.Some?
                 && Configures(inters, OneEdge(p.entity).value.target, options, q.one.value)
  {
    if OneEdge(p.entity).Some? {
      CallsConfigure(inters, OneEdge(p.entity).value.target, options);
    }
  }

  // ----- whole lists of calls -----

  /** What the calls give, in the order in which they are made: all predicates, terms and fields, and the last limit and
      offset. */
  function AllPreds(calls: seq<Call>): seq<Predicate> {
    if calls == [] then [] else (if calls[0].Where? then calls[0].preds else []) + AllPreds(calls[1..])
  }

  function AllTerms(calls: seq<Call>): seq<OrderTerm> {
    if calls == [] then [] else (if calls[0].Order? then calls[0].terms else []) + AllTerms(calls[1..])
  }

  function AllFields(calls: seq<Call>): seq<string> {
    if calls == [] then [] else (if calls[0].SelectFields? then calls[0].fields else []) + AllFields(calls[1..])
  }

  function LastLimit(calls: seq<Call>, before: Option<nat>): Option<nat> {
    if calls == [] then before else LastLimit(calls[1..], if calls[0].Limit? then Some(calls[0].n) else before)
  }

  function LastOffset(calls: seq<Call>, before: Option<nat>): Option<nat> {
    if calls == [] then before else LastOffset(calls[1..], if calls[0].Offset? then Some(calls[0].n) else before)
  }

  /** The options of the last With call for an edge. */
  function LastMany(calls: seq<Call>): (options: Option<seq<Call>>)
    ensures options.Some? ==> WithMany(options.value) in calls
  {
    if calls == [] then None
    else
      var last := |calls| - 1;
      if calls[last].WithMany? then Some(calls[last].options) else LastMany(calls[..last])
  }

  function LastOne(calls: seq<Call>): (options: Option<seq<Call>>)
    ensures options.Some? ==> WithOne(options.value) in calls
  {
    if calls == [] then None
    else
      var last := |calls| - 1;
      if calls[last].WithOne? then Some(calls[last].options) else LastOne(calls[..last])
  }

  /** The builder of an entity to which these calls were applied, with the builders of its edges. */
  ghost predicate Configures(inters: Entity -> seq<Interceptor>, e: Entity, calls: seq<Call>, q: Plan)
    decreases calls
  {
    && q.entity == e && q.inters == inters(e) && !q.withFKs
    && q.preds == AllPreds(calls) && q.order == AllTerms(calls) && q.fields == AllFields(calls)
    && q.limit == LastLimit(calls, None) && q.offset == LastOffset(calls, None)
    && (q.many.Some? <==> ManyEdge(e).Some? && LastMany(calls).Some?)
    && (q.many.Some? ==> Configures(inters, ManyEdge(e).value.target, LastMany(calls).value, q.many.value))
    && (q.one.Some? <==> OneEdge(e).Some? && LastOne(calls).Some?)
    && (q.one.Some? ==> Configures(inters, OneEdge(e).value.target, LastOne(calls).value, q.one.value))
  }

  lemma {:induction false} CallsAdd(inters: Entity -> seq<Interceptor>, p: Plan, call: Call, calls: seq<Call>)
    ensures ApplyAll(inters, p, [call] + calls) == ApplyAll(inters, Apply(inters, p, call), calls)
    decreases |calls|
  {
    var all := [call] + calls;
    if calls == [] {
      assert all[..|all| - 1] == [] && all[|all| - 1] == call;
    } else {
      var last := |calls| - 1;
      assert all[..|all| - 1] == [call] + calls[..last] && all[|all| - 1] == calls[last];
      CallsAdd(inters, p, call, calls[..last]);
    }
  }

  /** The settings that a list of calls leaves. */
  ghost predicate Adds(p: Plan, calls: seq<Call>, q: Plan) {
    && q.entity == p.entity && q.inters == p.inters && q.withFKs == p.withFKs
    && q.preds == p.preds + AllPreds(calls) && q.order == p.order + AllTerms(calls)
    && q.fields == p.fields + AllFields(calls)
    && q.limit == LastLimit(calls, p.limit) && q.offset == LastOffset(calls, p.offset)
  }

  lemma {:induction false} SettingsAdd(inters: Entity -> seq<Interceptor>, p: Plan, calls: seq<Call>)
    ensures Adds(p, calls, ApplyAll(inters, p, calls))
    decreases |calls|
  {
    if calls != [] {
      assert calls == [calls[0]] + calls[1..];
      CallsAdd(inters, p, calls[0], calls[1..]);
      SettingsAdd(inters, Apply(inters, p, calls[0]), calls[1..]);
      ApplyAdds(inters, p, calls[0]);
      AddsTwice(p, calls[0], calls[1..], Apply(inters, p, calls[0]), ApplyAll(inters, p, calls));
    }
  }

  lemma {:induction false} ApplyAdds(inters: Entity -> seq<Interceptor>, p: Plan, call: Call)
    ensures var q := Apply(inters, p, call);
            && q.entity == p.entity && q.inters == p.inters && q.withFKs == p.withFKs
            && q.preds == p.preds + (if call.Where? then call.preds else [])
            && q.order == p.order + (if call.Order? then call.terms else [])
            && q.fields == p.fields + (if call.SelectFields? then call.fields else [])
            && q.limit == (if call.Limit? then Some(call.n) else p.limit)
            && q.offset == (if call.Offset? then Some(call.n) else p.offset)
  {
  }

  lemma {:induction false} AddsTwice(p: Plan, call: Call, rest: seq<Call>, q: Plan, r: Plan)
    requires q.entity == p.entity && q.inters == p.inters && q.withFKs == p.withFKs
    requires q.preds == p.preds + (if call.Where? then call.preds else [])
    requires q.order == p.order + (if call.Order? then call.terms else [])
    requires q.fields == p.fields + (if call.SelectFields? then call.fields else [])
    requires q.limit == (if call.Limit? then Some(call.n) else p.limit)
    requires q.offset == (if call.Offset? then Some(call.n) else p.offset)
    requires Adds(q, rest, r)
    ensures Adds(p, [call] + rest, r)
  {
    assert ([call] + rest)[1..] == rest;
    ThreeLists(p.preds, if call.Where? then call.preds else [], AllPreds(rest));
    ThreeLists(p.order, if call.Order? then call.terms else [], AllTerms(rest));
    ThreeLists(p.fields, if call.SelectFields? then call.fields else [], AllFields(rest));
  }

  lemma {:induction false} ThreeLists<T>(a: seq<T>, b: seq<T>, c: seq<T>)
    ensures (a + b) + c == a + (b + c)
  {
  }

  /** The builders of the edges that it leaves. */
  lemma {:induction false} ManyReplaces(inters: Entity -> seq<Interceptor>, p: Plan, calls: seq<Call>)
    ensures var (q, options) := (ApplyAll(inters, p, calls), LastMany(calls));
            q.many == if ManyEdge(p.entity).None? || options.None? then p.many
                      else Some(ApplyAll(inters, New(inters, ManyEdge(p.entity).value.target), options.value))
    decreases |calls|
  {
    if calls != [] {
      var last := |calls| - 1;
      ManyReplaces(inters, p, calls[..last]);
      ApplyToEdges(inters, ApplyAll(inters, p, calls[..last]), calls[last]);
    }
  }

  lemma {:induction false} OneReplaces(inters: Entity -> seq<Interceptor>, p: Plan, calls: seq<Call>)
    ensures var (q, options) := (ApplyAll(inters, p, calls), LastOne(calls));
            q.one == if OneEdge(p.entity).None? || options.None? then p.one
                     else Some(ApplyAll(inters, New(inters, OneEdge(p.entity).value.target), options.value))
    decreases |calls|
  {
    if calls != [] {
      var last := |calls| - 1;
      OneReplaces(inters, p, calls[..last]);
      ApplyToEdges(inters, ApplyAll(inters, p, calls[..last]), calls[last]);
    }
  }

  lemma {:induction false} ApplyToEdges(inters: Entity -> seq<Interceptor>, p: Plan, call: Call)
    ensures var q := Apply(inters, p, call);
            && q.many == (if ManyEdge(p.entity).None? || !call.WithMany? then p.many
                          else Some(ApplyAll(inters, New(inters, ManyEdge(p.entity).value.target), call.options)))
            && q.one == (if OneEdge(p.entity).None? || !call.WithOne? then p.one
                         else Some(ApplyAll(inters, New(inters, OneEdge(p.entity).value.target), call.options)))
  {
  }

  /** What a list of calls makes of a new builder. */
  lemma {:induction false} CallsConfigure(inters: Entity -> seq<Interceptor>, e: Entity, calls: seq<Call>)
    ensures Configures(inters, e, calls, ApplyAll(inters, New(inters, e), calls))
    decreases calls
  {
    SettingsAdd(inters, New(inters, e), calls);
    ManyReplaces(inters, New(inters, e), calls);
    OneReplaces(inters, New(inters, e), calls);
    if ManyEdge(e).Some? && LastMany(calls).Some? {
      CallsConfigure(inters, ManyEdge(e).value.target, LastMany(calls).value);
    }
    if OneEdge(e).Some? && LastOne(calls).Some? {
      CallsConfigure(inters, OneEdge(e).value.target, LastOne(calls).value);
    }
  }

  /** What a builder selects to which a list of calls was applied: the rows of the table that satisfy all predicates, in
      the order of all terms, without as many as the last offset and at most as many as the last limit. */
  lemma {:induction false} ConfiguredSelects(
    db: DB, inters: Entity -> seq<Interceptor>, e: Entity, calls: seq<Call>)
    ensures var q := ApplyAll(inters, New(inters, e), calls);
            var sorted := Sort(db, AllTerms(calls), Matching(AllPreds(calls), (db.rows)(e)));
            var (offset, limit) := (LastOffset(calls, None), LastLimit(calls, None));
            var rest := if offset.Some? then Drop(offset.value, sorted) else sorted;
            && Configures(inters, e, calls, q)
            && Selected(db, q) == if limit.Some? && limit.value > 0 then Take(limit.value, rest) else rest
  {
    CallsConfigure(inters, e, calls);
  }

  // ----- the queries of the edges -----

  /** The children of some parents, if their builder has no page: of what the builder itself selects, in its order, the
      rows whose foreign key is one of the identifiers. */
  lemma {:induction false} ChildrenSelect(db: DB, p: Plan, ids: seq<nat>, row: Row)
    requires WellTyped(p) && p.many.Some? && Whole(p.many.value)
    ensures var (few, all, column) :=
              (Selected(db, ChildrenOf(p, ids)), Selected(db, p.many.value), ManyEdge(p.entity).value.column);
            && few == Matching([InValues(column, ids)], all)
            && (row in few <==> row in all && Pointer(row, column).Some? && Pointer(row, column).value in ids)
  {
    var column := ManyEdge(p.entity).value.column;
    var bound := [InValues(column, ids)];
    SelectMore(db, SpecOf(Keyed(p.many.value, ManyEdge(p.entity).value)), bound);
    MatchingIn(bound, Selected(db, p.many.value), row);
    assert SatAll(bound, row) <==> Sat(bound[0], row);
  }

  /** The parents with some identifiers. */
  lemma {:induction false} ParentsSelect(db: DB, p: Plan, ids: seq<nat>, row: Row)
    requires WellTyped(p) && p.one.Some? && Whole(p.one.value)
    ensures var (few, all, column) :=
              (Selected(db, ParentsOf(p, ids)), Selected(db, p.one.value), IdColumn(p.one.value.entity));
            && few == Matching([InValues(column, ids)], all)
            && (row in few <==> row in all && Pointer(row, column).Some? && Pointer(row, column).value in ids)
  {
    var bound := [InValues(IdColumn(p.one.value.entity), ids)];
    SelectMore(db, SpecOf(p.one.value), bound);
    MatchingIn(bound, Selected(db, p.one.value), row);
    assert SatAll(bound, row) <==> Sat(bound[0], row);
  }

  // ----- what a load returns -----

  /** The nodes of a load hold the columns that are read of the selected rows, and come in the requested order. */
  lemma {:induction false} LoadInOrder(db: DB, p: Plan)
    requires WellTyped(p) && BatchAll(db, p).res.Success?
    ensures var (rows, nodes) := (Selected(db, p), BatchAll(db, p).res.value);
            && Sorted(db, p.order, rows) && |nodes| == |rows|
            && (forall i :: 0 <= i < |nodes| ==>
                  && nodes[i].entity == p.entity
                  && (nodes[i].loadedMany <==> p.many.Some?) && (nodes[i].loadedOne <==> p.one.Some?))
            && forall i, c :: 0 <= i < |rows| && c in SelectedColumns(p) && c in rows[i] ==>
                 c in nodes[i].values && nodes[i].values[c] == rows[i][c]
  {
    SelectSorted(db, SpecOf(p));
    LoadedHoldRows(db, p);
    LoadedAsks(db, p);
  }

  /** The nodes remember which edges were asked for. */
  lemma {:induction false} LoadedAsks(db: DB, p: Plan)
    requires WellTyped(p) && BatchAll(db, p).res.Success?
    ensures forall node :: node in BatchAll(db, p).res.value ==>
              (node.loadedMany <==> p.many.Some?) && (node.loadedOne <==> p.one.Some?)
  {
    var nodes := NodesOf(db, p);
    ProjectedNodes(p, Selected(db, p));
    if nodes != [] {
      var m := BatchMany(db, p, nodes).res.value;
      ManyKeeps(db, p, nodes);
      OneKeeps(db, p, p, m);
    }
  }

  // ----- clones -----

  /** A clone selects the same rows and reads the same columns, except for hidden foreign keys that only a load of its
      parents has asked for. */
  lemma {:induction false} CloneSelects(db: DB, p: Plan, c: string)
    requires WellTyped(p)
    ensures var q := Cloned(p);
            && Selected(db, q) == Selected(db, p) && q.inters == p.inters
            && (c in SelectedColumns(q) ==> c in SelectedColumns(p))
            && (c in SelectedColumns(p) && c !in SelectedColumns(q) ==>
                  p.withFKs && p.one.None? && c in ForeignKeys(p.entity))
            && (q.many.Some? <==> p.many.Some?) && (q.one.Some? <==> p.one.Some?)
  {
    ColumnsRead(p, c);
    ColumnsRead(Cloned(p), c);
  }
}
