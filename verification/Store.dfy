/**
The database behind the builders: tables are sequences of rows, and a query keeps the rows that satisfy every
predicate, orders them, cuts out a page and projects the requested columns.
*/
module Store {
  import opened Schema
  import opened Wrappers

  /** A column value. Keys are natural numbers, with 0 for the zero value of the key's Go type. */
  datatype Value = Null | Key(key: nat) | Text(text: string) | Time(time: nat) | Json(doc: nat)

  type Row = map<string, Value>

  /** A predicate added to a builder: a test of the caller's, or membership of a column in a list of keys. As in SQL,
      NULL is in no list. */
  datatype Predicate = Test(test: Row -> bool) | InValues(column: string, keys: seq<nat>)

  datatype OrderTerm = OrderTerm(column: string, desc: bool)

  /** `rank` is the database's collation. */
  datatype DB = DB(rows: Entity -> seq<Row>, rank: Value -> int)

  /** What a builder hands to the driver. A limit or an offset of 0 is an unset one. */
  datatype QuerySpec = QuerySpec(
    entity: Entity, columns: seq<string>, preds: seq<Predicate>, order: seq<OrderTerm>, limit: nat, offset: nat)

  // ----- reading columns -----

  /** A key scanned into a plain field: NULL and an absent column leave the zero value. */
  function Field(values: Row, column: string): nat {
    if column in values && values[column].Key? then values[column].key else 0
  }

  /** A key scanned into a pointer: NULL and an absent column leave nil. */
  function Pointer(values: Row, column: string): Option<nat> {
    if column in values && values[column].Key? then Some(values[column].key) else None
  }

  function IdOf(e: Entity, values: Row): nat {
    Field(values, IdColumn(e))
  }

  function RowIds(e: Entity, rows: seq<Row>): seq<nat> {
    if rows == [] then [] else [IdOf(e, rows[0])] + RowIds(e, rows[1..])
  }

  // ----- filtering -----

  predicate Sat(p: Predicate, row: Row) {
    match p
    case Test(test) => test(row)
    case InValues(column, keys) => Pointer(row, column).Some? && Pointer(row, column).value in keys
  }

  predicate SatAll(ps: seq<Predicate>, row: Row) {
    forall i :: 0 <= i < |ps| ==> Sat(ps[i], row)
  }

  function Matching(ps: seq<Predicate>, rows: seq<Row>): seq<Row> {
    if rows == [] then []
    else (if SatAll(ps, rows[0]) then [rows[0]] else []) + Matching(ps, rows[1..])
  }

  // ----- ordering -----

  function RankAt(db: DB, term: OrderTerm, row: Row): int {
    var rank := (db.rank)(if term.column in row then row[term.column] else Null);
    if term.desc then -rank else rank
  }

  predicate Before(db: DB, order: seq<OrderTerm>, a: Row, b: Row) {
    order == [] ||
    var x, y := RankAt(db, order[0], a), RankAt(db, order[0], b);
    x < y || (x == y && Before(db, order[1..], a, b))
  }

  function Insert(db: DB, order: seq<OrderTerm>, row: Row, rows: seq<Row>): seq<Row> {
    if rows == [] || Before(db, order, row, rows[0]) then [row] + rows
    else [rows[0]] + Insert(db, order, row, rows[1..])
  }

  /** ORDER BY, with ties left in table order. */
  function Sort(db: DB, order: seq<OrderTerm>, rows: seq<Row>): seq<Row> {
    if rows == [] then [] else Insert(db, order, rows[0], Sort(db, order, rows[1..]))
  }

  // ----- paging and projection -----

  function Page(offset: nat, limit: nat, rows: seq<Row>): seq<Row> {
    var rest := if offset <= |rows| then rows[offset..] else [];
    if limit == 0 || |rest| <= limit then rest else rest[..limit]
  }

  function Project(columns: seq<string>, row: Row): Row {
    map c | c in columns && c in row :: row[c]
  }

  function Select(db: DB, spec: QuerySpec): seq<Row> {
    Page(spec.offset, spec.limit, Sort(db, spec.order, Matching(spec.preds, (db.rows)(spec.entity))))
  }

  function ProjectAll(columns: seq<string>, rows: seq<Row>): seq<Row> {
    if rows == [] then [] else [Project(columns, rows[0])] + ProjectAll(columns, rows[1..])
  }

  // ----- what the schema guarantees about a database -----

  ghost predicate WellFormedRow(e: Entity, row: Row) {
    && (forall c :: c in Columns(e) ==> c in row)
    && (forall c :: c in ForeignKeys(e) ==> c in row)
    && row[IdColumn(e)].Key?
    && (OneEdge(e).Some? ==> row[OneEdge(e).value.column].Null? || row[OneEdge(e).value.column].Key?)
  }

  /** Identifiers are primary keys. */
  ghost predicate DistinctIds(e: Entity, rows: seq<Row>) {
    forall i, j :: 0 <= i < j < |rows| ==> IdOf(e, rows[i]) != IdOf(e, rows[j])
  }

  ghost predicate WellFormed(db: DB) {
    forall e: Entity ::
      DistinctIds(e, (db.rows)(e)) && forall i :: 0 <= i < |(db.rows)(e)| ==> WellFormedRow(e, (db.rows)(e)[i])
  }

  // ----- lemmas about filtering -----

  lemma {:induction false} SatAllConcat(ps: seq<Predicate>, qs: seq<Predicate>, row: Row)
    ensures SatAll(ps + qs, row) <==> SatAll(ps, row) && SatAll(qs, row)
  {
    if SatAll(ps + qs, row) {
      forall i | 0 <= i < |ps| ensures Sat(ps[i], row) { assert (ps + qs)[i] == ps[i]; }
      forall i | 0 <= i < |qs| ensures Sat(qs[i], row) { assert (ps + qs)[|ps| + i] == qs[i]; }
    }
  }

  /** Filtering twice is filtering once by both lists. */
  lemma {:induction false} MatchingTwice(ps: seq<Predicate>, qs: seq<Predicate>, rows: seq<Row>)
    ensures Matching(qs, Matching(ps, rows)) == Matching(ps + qs, rows)
  {
    if rows != [] {
      MatchingTwice(ps, qs, rows[1..]);
      SatAllConcat(ps, qs, rows[0]);
      var rest := Matching(ps, rows[1..]);
      if SatAll(ps, rows[0]) {
        assert ([rows[0]] + rest)[1..] == rest;
      } else {
        assert Matching(ps, rows) == rest;
      }
    }
  }

  /** A filtered row is a row that passed. */
  lemma {:induction false} MatchingIn(ps: seq<Predicate>, rows: seq<Row>, row: Row)
    ensures row in Matching(ps, rows) <==> row in rows && SatAll(ps, row)
  {
    if rows != [] {
      MatchingIn(ps, rows[1..], row);
      assert rows == [rows[0]] + rows[1..];
    }
  }

  /** Two predicate lists that agree on the rows at hand select the same rows. */
  lemma {:induction false} MatchingAgrees(ps: seq<Predicate>, qs: seq<Predicate>, rows: seq<Row>)
    requires forall row :: row in rows ==> (SatAll(ps, row) <==> SatAll(qs, row))
    ensures Matching(ps, rows) == Matching(qs, rows)
  {
    if rows != [] {
      assert rows[0] in rows;
      forall row | row in rows[1..] ensures SatAll(ps, row) <==> SatAll(qs, row) { assert row in rows; }
      MatchingAgrees(ps, qs, rows[1..]);
    }
  }

  lemma {:induction false} MatchingDistinct(e: Entity, ps: seq<Predicate>, rows: seq<Row>)
    requires DistinctIds(e, rows)
    ensures DistinctIds(e, Matching(ps, rows))
  {
    if rows != [] {
      assert DistinctIds(e, rows[1..]);
      MatchingDistinct(e, ps, rows[1..]);
      var rest := Matching(ps, rows[1..]);
      forall j | 0 <= j < |rest| ensures IdOf(e, rest[j]) != IdOf(e, rows[0]) {
        MatchingIn(ps, rows[1..], rest[j]);
        assert rest[j] in rest;
        var k :| 0 <= k < |rows[1..]| && rows[1..][k] == rest[j];
        assert rows[k + 1] == rest[j];
      }
    }
  }

  lemma {:induction false} MatchingNone(ps: seq<Predicate>, rows: seq<Row>)
    requires forall row :: row in rows ==> !SatAll(ps, row)
    ensures Matching(ps, rows) == []
  {
    if rows != [] {
      assert rows[0] in rows;
      forall row | row in rows[1..] ensures !SatAll(ps, row) { assert row in rows; }
      MatchingNone(ps, rows[1..]);
    }
  }

  lemma {:induction false} MatchingAll(ps: seq<Predicate>, rows: seq<Row>)
    requires forall i :: 0 <= i < |rows| ==> SatAll(ps, rows[i])
    ensures Matching(ps, rows) == rows
  {
    if rows != [] { MatchingAll(ps, rows[1..]); }
  }

  lemma {:induction false} MatchingOnlyLast(ps: seq<Predicate>, rows: seq<Row>)
    requires rows != [] && SatAll(ps, rows[|rows| - 1])
    requires forall i :: 0 <= i < |rows| - 1 ==> !SatAll(ps, rows[i])
    ensures Matching(ps, rows) == [rows[|rows| - 1]]
  {
    if |rows| > 1 { MatchingOnlyLast(ps, rows[1..]); }
  }

  // ----- lemmas about ordering -----

  lemma {:induction false} BeforeTotal(db: DB, order: seq<OrderTerm>, a: Row, b: Row)
    ensures Before(db, order, a, b) || Before(db, order, b, a)
  {
    if order != [] { BeforeTotal(db, order[1..], a, b); }
  }

  lemma {:induction false} BeforeTransitive(db: DB, order: seq<OrderTerm>, a: Row, b: Row, c: Row)
    requires Before(db, order, a, b) && Before(db, order, b, c)
    ensures Before(db, order, a, c)
  {
    if order != [] {
      if RankAt(db, order[0], a) == RankAt(db, order[0], b) == RankAt(db, order[0], c) {
        BeforeTransitive(db, order[1..], a, b, c);
      }
    }
  }

  ghost predicate Sorted(db: DB, order: seq<OrderTerm>, rows: seq<Row>) {
    forall i, j :: 0 <= i < j < |rows| ==> Before(db, order, rows[i], rows[j])
  }

  lemma {:induction false} InsertIn(db: DB, order: seq<OrderTerm>, row: Row, rows: seq<Row>, r: Row)
    ensures r in Insert(db, order, row, rows) <==> r == row || r in rows
  {
    if !(rows == [] || Before(db, order, row, rows[0])) {
      InsertIn(db, order, row, rows[1..], r);
      assert rows == [rows[0]] + rows[1..];
    }
  }

  lemma {:induction false} InsertSorted(db: DB, order: seq<OrderTerm>, row: Row, rows: seq<Row>)
    requires Sorted(db, order, rows)
    ensures Sorted(db, order, Insert(db, order, row, rows))
  {
    if rows == [] {
    } else if Before(db, order, row, rows[0]) {
      forall j | 0 < j < |rows| ensures Before(db, order, row, rows[j]) {
        BeforeTransitive(db, order, row, rows[0], rows[j]);
      }
    } else {
      InsertSorted(db, order, row, rows[1..]);
      var rest := Insert(db, order, row, rows[1..]);
      forall j | 0 <= j < |rest| ensures Before(db, order, rows[0], rest[j]) {
        InsertIn(db, order, row, rows[1..], rest[j]);
        assert rest[j] in rest;
        if rest[j] == row { BeforeTotal(db, order, row, rows[0]); }
      }
    }
  }

  lemma {:induction false} SortSorted(db: DB, order: seq<OrderTerm>, rows: seq<Row>)
    ensures Sorted(db, order, Sort(db, order, rows))
  {
    if rows != [] {
      SortSorted(db, order, rows[1..]);
      InsertSorted(db, order, rows[0], Sort(db, order, rows[1..]));
    }
  }

  lemma {:induction false} SortIn(db: DB, order: seq<OrderTerm>, rows: seq<Row>, r: Row)
    ensures r in Sort(db, order, rows) <==> r in rows
  {
    if rows != [] {
      SortIn(db, order, rows[1..], r);
      InsertIn(db, order, rows[0], Sort(db, order, rows[1..]), r);
      assert rows == [rows[0]] + rows[1..];
    }
  }

  /** A row that sorts before all others is inserted in front. */
  lemma {:induction false} InsertFront(db: DB, order: seq<OrderTerm>, row: Row, rows: seq<Row>)
    requires forall r :: r in rows ==> Before(db, order, row, r)
    ensures Insert(db, order, row, rows) == [row] + rows
  {
    if rows != [] { assert rows[0] in rows; }
  }

  lemma {:induction false} MatchingInsert(
    db: DB, order: seq<OrderTerm>, ps: seq<Predicate>, row: Row, rows: seq<Row>)
    requires Sorted(db, order, rows)
    ensures Matching(ps, Insert(db, order, row, rows)) ==
            if SatAll(ps, row) then Insert(db, order, row, Matching(ps, rows)) else Matching(ps, rows)
  {
    var inserted := Insert(db, order, row, rows);
    if rows == [] {
      assert inserted[1..] == [];
    } else if Before(db, order, row, rows[0]) {
      assert inserted[1..] == rows;
      forall r | r in Matching(ps, rows) ensures Before(db, order, row, r) {
        MatchingIn(ps, rows, r);
        var k :| 0 <= k < |rows| && rows[k] == r;
        if k > 0 { BeforeTransitive(db, order, row, rows[0], rows[k]); }
      }
      InsertFront(db, order, row, Matching(ps, rows));
    } else {
      assert inserted[1..] == Insert(db, order, row, rows[1..]);
      MatchingInsert(db, order, ps, row, rows[1..]);
      var rest := Matching(ps, rows[1..]);
      if SatAll(ps, rows[0]) {
        assert ([rows[0]] + rest)[1..] == rest;
      } else {
        assert Matching(ps, rows) == rest;
      }
    }
  }

  /** Filtering and stable ordering commute, whatever the order terms and the predicates. */
  lemma {:induction false} MatchingSort(db: DB, order: seq<OrderTerm>, ps: seq<Predicate>, rows: seq<Row>)
    ensures Matching(ps, Sort(db, order, rows)) == Sort(db, order, Matching(ps, rows))
  {
    if rows != [] {
      MatchingSort(db, order, ps, rows[1..]);
      SortSorted(db, order, rows[1..]);
      MatchingInsert(db, order, ps, rows[0], Sort(db, order, rows[1..]));
      var rest := Matching(ps, rows[1..]);
      if SatAll(ps, rows[0]) {
        assert ([rows[0]] + rest)[1..] == rest;
      } else {
        assert Matching(ps, rows) == rest;
      }
    }
  }

  lemma {:induction false} InsertDistinct(e: Entity, db: DB, order: seq<OrderTerm>, row: Row, rows: seq<Row>)
    requires DistinctIds(e, rows)
    requires forall r :: r in rows ==> IdOf(e, r) != IdOf(e, row)
    ensures DistinctIds(e, Insert(db, order, row, rows))
  {
    if rows == [] {
    } else if Before(db, order, row, rows[0]) {
      forall j | 0 <= j < |rows| ensures IdOf(e, row) != IdOf(e, rows[j]) { assert rows[j] in rows; }
    } else {
      assert DistinctIds(e, rows[1..]);
      forall r | r in rows[1..] ensures IdOf(e, r) != IdOf(e, row) { assert r in rows; }
      InsertDistinct(e, db, order, row, rows[1..]);
      var rest := Insert(db, order, row, rows[1..]);
      forall j | 0 <= j < |rest| ensures IdOf(e, rows[0]) != IdOf(e, rest[j]) {
        InsertIn(db, order, row, rows[1..], rest[j]);
        assert rest[j] in rest && rows[0] in rows;
        if rest[j] != row {
          var k :| 0 <= k < |rows[1..]| && rows[1..][k] == rest[j];
          assert rows[k + 1] == rest[j];
        }
      }
    }
  }

  lemma {:induction false} SortDistinct(e: Entity, db: DB, order: seq<OrderTerm>, rows: seq<Row>)
    requires DistinctIds(e, rows)
    ensures DistinctIds(e, Sort(db, order, rows))
  {
    if rows != [] {
      assert DistinctIds(e, rows[1..]);
      SortDistinct(e, db, order, rows[1..]);
      forall r | r in Sort(db, order, rows[1..]) ensures IdOf(e, r) != IdOf(e, rows[0]) {
        SortIn(db, order, rows[1..], r);
        var k :| 0 <= k < |rows[1..]| && rows[1..][k] == r;
        assert rows[k + 1] == r;
      }
      InsertDistinct(e, db, order, rows[0], Sort(db, order, rows[1..]));
    }
  }

  // ----- lemmas about whole queries -----

  /** Every selected row is a row of the table that satisfies the predicates, and no identifier is selected twice. */
  lemma {:induction false} SelectSound(db: DB, spec: QuerySpec)
    requires WellFormed(db)
    ensures forall row :: row in Select(db, spec) ==>
              row in (db.rows)(spec.entity) && WellFormedRow(spec.entity, row) && SatAll(spec.preds, row)
    ensures DistinctIds(spec.entity, Select(db, spec))
  {
    var table := (db.rows)(spec.entity);
    var kept := Matching(spec.preds, table);
    forall row | row in Select(db, spec)
      ensures row in table && WellFormedRow(spec.entity, row) && SatAll(spec.preds, row)
    {
      SortIn(db, spec.order, kept, row);
      MatchingIn(spec.preds, table, row);
    }
    MatchingDistinct(spec.entity, spec.preds, table);
    SortDistinct(spec.entity, db, spec.order, kept);
  }

  /** Without paging, adding predicates to a query filters its result. */
  lemma {:induction false} SelectMore(db: DB, spec: QuerySpec, more: seq<Predicate>)
    requires spec.limit == 0 && spec.offset == 0
    ensures Select(db, spec.(preds := spec.preds + more)) == Matching(more, Select(db, spec))
  {
    var table := (db.rows)(spec.entity);
    MatchingTwice(spec.preds, more, table);
    MatchingSort(db, spec.order, more, Matching(spec.preds, table));
  }

  lemma {:induction false} ProjectAllAt(columns: seq<string>, rows: seq<Row>)
    ensures |ProjectAll(columns, rows)| == |rows|
    ensures forall i :: 0 <= i < |rows| ==> ProjectAll(columns, rows)[i] == Project(columns, rows[i])
  {
    if rows != [] { ProjectAllAt(columns, rows[1..]); }
  }

  lemma {:induction false} SelectSorted(db: DB, spec: QuerySpec)
    ensures Sorted(db, spec.order, Select(db, spec))
  {
    SortSorted(db, spec.order, Matching(spec.preds, (db.rows)(spec.entity)));
  }

  /** The value that a term orders by. */
  function OrderedBy(term: OrderTerm, row: Row): Value {
    if term.column in row then row[term.column] else Null
  }

  /** Sorted rows ascend in the column of the first term, or descend, and in the second one among equals, and so on. */
  lemma {:induction false} SortedAscends(db: DB, order: seq<OrderTerm>, rows: seq<Row>, k: nat, i: nat, j: nat)
    requires Sorted(db, order, rows) && k < |order| && i < j < |rows|
    requires forall l :: 0 <= l < k ==>
               (db.rank)(OrderedBy(order[l], rows[i])) == (db.rank)(OrderedBy(order[l], rows[j]))
    ensures var (x, y) := ((db.rank)(OrderedBy(order[k], rows[i])), (db.rank)(OrderedBy(order[k], rows[j])));
            if order[k].desc then x >= y else x <= y
  {
    BeforeAscends(db, order, rows[i], rows[j], k);
  }

  lemma {:induction false} BeforeAscends(db: DB, order: seq<OrderTerm>, a: Row, b: Row, k: nat)
    requires Before(db, order, a, b) && k < |order|
    requires forall l :: 0 <= l < k ==> (db.rank)(OrderedBy(order[l], a)) == (db.rank)(OrderedBy(order[l], b))
    ensures var (x, y) := ((db.rank)(OrderedBy(order[k], a)), (db.rank)(OrderedBy(order[k], b)));
            if order[k].desc then x >= y else x <= y
    decreases k
  {
    if k > 0 {
      assert (db.rank)(OrderedBy(order[0], a)) == (db.rank)(OrderedBy(order[0], b));
      BeforeAscends(db, order[1..], a, b, k - 1);
    }
  }

  lemma {:induction false} InsertKeepsAll(db: DB, order: seq<OrderTerm>, row: Row, rows: seq<Row>)
    ensures multiset(Insert(db, order, row, rows)) == multiset(rows) + multiset{row}
  {
    if !(rows == [] || Before(db, order, row, rows[0])) {
      InsertKeepsAll(db, order, row, rows[1..]);
      assert rows == [rows[0]] + rows[1..];
    }
  }

  /** Sorting loses no row and invents none. */
  lemma {:induction false} SortKeepsAll(db: DB, order: seq<OrderTerm>, rows: seq<Row>)
    ensures multiset(Sort(db, order, rows)) == multiset(rows)
  {
    if rows != [] {
      SortKeepsAll(db, order, rows[1..]);
      InsertKeepsAll(db, order, rows[0], Sort(db, order, rows[1..]));
      assert rows == [rows[0]] + rows[1..];
    }
  }
}
