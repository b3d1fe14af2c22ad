/**
Writing an entity to a row and reading it back: create mutations, the specification of the insert, and the two loops
that scan the columns of a row into typed slots and assign the slots to the fields of a record. For the two entities
whose files are the core of this part: one has a foreign key that is a field, the other one that is hidden.
*/
module Entities {
  import opened Schema
  import opened Store
  import opened Plans
  import opened Wrappers

  type Stored = e: Entity | e == Site || e == DeploymentComponentStatus witness Site

  /** The type of a slot that a column is scanned into. */
  datatype Kind = UUID | NullString | NullTime | Bytes | NullScanner | UnknownType

  datatype Slot =
    | UUIDSlot(uuid: nat)
    | StringSlot(text: Option<string>)
    | TimeSlot(time: Option<nat>)
    | BytesSlot(doc: Option<nat>)
    | ScannerSlot(key: Option<nat>)
    | UnknownSlot(raw: Value)

  /** The value of a field of a record. */
  datatype FieldValue =
    | Id(id: nat)
    | String(text: string)
    | Timestamp(time: nat)
    | Metadata(doc: Option<nat>)
    | Ref(target: Option<nat>)

  type Fields = map<string, FieldValue>

  function KindOf(slot: Slot): Kind {
    match slot
    case UUIDSlot(_) => UUID
    case StringSlot(_) => NullString
    case TimeSlot(_) => NullTime
    case BytesSlot(_) => Bytes
    case ScannerSlot(_) => NullScanner
    case UnknownSlot(_) => UnknownType
  }

  /** The table of types in scanValues. */
  function ScanKind(e: Stored, column: string): Kind {
    if e == Site then
      if column == "metadata" then Bytes
      else if column in ["site_id", "name", "description", "location"] then NullString
      else if column in ["created_at", "updated_at"] then NullTime
      else if column in ["id", "orchestrator_id"] then UUID
      else UnknownType
    else
      if column in ["name", "state", "error_code", "error_message"] then NullString
      else if column in ["created_at", "updated_at"] then NullTime
      else if column == "id" then UUID
      else if column == "deployment_status_components" then NullScanner
      else UnknownType
  }

  /** The table of types in assignValues, column by column. */
  function AssignKind(e: Stored, column: string): Kind {
    if e == Site then
      if column == "id" then UUID
      else if column == "site_id" then NullString
      else if column == "name" then NullString
      else if column == "description" then NullString
      else if column == "location" then NullString
      else if column == "orchestrator_id" then UUID
      else if column == "metadata" then Bytes
      else if column == "created_at" then NullTime
      else if column == "updated_at" then NullTime
      else UnknownType
    else
      if column == "id" then UUID
      else if column == "name" then NullString
      else if column == "state" then NullString
      else if column == "error_code" then NullString
      else if column == "error_message" then NullString
      else if column == "created_at" then NullTime
      else if column == "updated_at" then NullTime
      else if column == "deployment_status_components" then NullScanner
      else UnknownType
  }

  /** What the code of an entity is generated from: its columns, with the foreign keys, the two tables of types, and
      the column of the parent, which may be a hidden one. */
  datatype Layout = Layout(
    columns: seq<string>, id: string, parent: string, hidden: bool, scan: string -> Kind, assign: string -> Kind)

  function LayoutOf(e: Stored): Layout {
    Layout(Columns(e) + ForeignKeys(e), IdColumn(e), OneEdge(e).value.column, OneEdge(e).value.hidden,
           c => ScanKind(e, c), c => AssignKind(e, c))
  }

  /** The two tables of types agree with each other and with the columns. */
  predicate ConsistentAt(l: Layout, c: string) {
    && l.scan(c) == l.assign(c)
    && (l.assign(c) == UnknownType <==> c !in l.columns)
    && (l.assign(c) == UUID <==> c == l.id || (c == l.parent && !l.hidden))
    && (l.assign(c) == NullScanner <==> c == l.parent && l.hidden)
  }

  ghost predicate Consistent(l: Layout) {
    && l.id in l.columns && l.parent in l.columns && l.id != l.parent
    && forall c {:trigger ConsistentAt(l, c)} {:trigger l.scan(c)} {:trigger l.assign(c)} :: ConsistentAt(l, c)
  }

  lemma {:induction false} KindOfColumn(e: Stored, c: string)
    ensures ScanKind(e, c) == AssignKind(e, c)
    ensures AssignKind(e, c) == UUID <==>
            c == IdColumn(e) || (c == OneEdge(e).value.column && !OneEdge(e).value.hidden)
    ensures AssignKind(e, c) == NullScanner <==> c == OneEdge(e).value.column && OneEdge(e).value.hidden
  {
  }

  lemma {:induction false} ColumnsAreKnown(e: Stored, c: string)
    ensures AssignKind(e, c) == UnknownType <==> c !in Columns(e) + ForeignKeys(e)
  {
    if e == Site {
      assert Columns(e) + ForeignKeys(e) == Columns(Site);
    }
  }

  lemma {:induction false} KeysAreColumns(e: Stored)
    ensures IdColumn(e) in Columns(e) + ForeignKeys(e)
    ensures OneEdge(e).value.column in Columns(e) + ForeignKeys(e)
    ensures IdColumn(e) != OneEdge(e).value.column
  {
    KeyIsNotUnknown(e);
    ColumnsAreKnown(e, IdColumn(e));
    ColumnsAreKnown(e, OneEdge(e).value.column);
  }

  lemma {:induction false} KeyIsNotUnknown(e: Stored)
    ensures AssignKind(e, IdColumn(e)) != UnknownType && AssignKind(e, OneEdge(e).value.column) != UnknownType
    ensures IdColumn(e) != OneEdge(e).value.column
  {
    assert |IdColumn(e)| != |OneEdge(e).value.column|;
  }

  lemma {:induction false} LayoutIsConsistentAt(e: Stored, c: string)
    ensures ConsistentAt(LayoutOf(e), c)
  {
    KindOfColumn(e, c);
    ColumnsAreKnown(e, c);
  }

  lemma {:induction false} LayoutsAreConsistent(e: Stored)
    ensures Consistent(LayoutOf(e))
  {
    KeysAreColumns(e);
    forall c ensures ConsistentAt(LayoutOf(e), c) { LayoutIsConsistentAt(e, c); }
  }

  // ----- scanning -----

  function NewSlot(kind: Kind): Slot {
    match kind
    case UUID => UUIDSlot(0)
    case NullString => StringSlot(None)
    case NullTime => TimeSlot(None)
    case Bytes => BytesSlot(None)
    case NullScanner => ScannerSlot(None)
    case UnknownType => UnknownSlot(Null)
  }

  /** What the driver stores in a slot of this type for a column value. NULL leaves a new slot as it is. */
  function Fill(kind: Kind, v: Value): (slot: Slot)
    ensures KindOf(slot) == kind
    ensures v.Null? ==> slot == NewSlot(kind)
  {
    match kind
    case UUID => UUIDSlot(if v.Key? then v.key else 0)
    case NullString => StringSlot(if v.Text? then Some(v.text) else None)
    case NullTime => TimeSlot(if v.Time? then Some(v.time) else None)
    case Bytes => BytesSlot(if v.Json? then Some(v.doc) else None)
    case NullScanner => ScannerSlot(if v.Key? then Some(v.key) else None)
    case UnknownType => UnknownSlot(v)
  }

  function At(row: Row, column: string): Value { if column in row then row[column] else Null }

  function FillAll(l: Layout, columns: seq<string>, row: Row): seq<Slot> {
    seq(|columns|, i requires 0 <= i < |columns| => Fill(l.scan(columns[i]), At(row, columns[i])))
  }

  /** One new slot per column, of the type that the table gives. */
  method ScanValues(e: Stored, columns: seq<string>) returns (values: array<Slot>)
    ensures fresh(values) && values.Length == |columns|
    ensures forall i :: 0 <= i < |columns| ==> values[i] == NewSlot(ScanKind(e, columns[i]))
  {
    values := new Slot[|columns|](i => UnknownSlot(Null));
    for i := 0 to |columns|
      invariant forall k :: 0 <= k < i ==> values[k] == NewSlot(ScanKind(e, columns[k]))
    {
      if e == Site {
        if columns[i] == "metadata" {
          values[i] := BytesSlot(None);
        } else if columns[i] in ["site_id", "name", "description", "location"] {
          values[i] := StringSlot(None);
        } else if columns[i] in ["created_at", "updated_at"] {
          values[i] := TimeSlot(None);
        } else if columns[i] in ["id", "orchestrator_id"] {
          values[i] := UUIDSlot(0);
        } else {
          values[i] := UnknownSlot(Null);
        }
      } else {
        if columns[i] in ["name", "state", "error_code", "error_message"] {
          values[i] := StringSlot(None);
        } else if columns[i] in ["created_at", "updated_at"] {
          values[i] := TimeSlot(None);
        } else if columns[i] == "id" {
          values[i] := UUIDSlot(0);
        } else if columns[i] == "deployment_status_components" {
          values[i] := ScannerSlot(None);
        } else {
          values[i] := UnknownSlot(Null);
        }
      }
    }
  }

  // ----- assigning -----

  function ZeroOf(kind: Kind): FieldValue {
    match kind
    case UUID => Id(0)
    case NullString => String("")
    case NullTime => Timestamp(0)
    case NullScanner => Ref(None)
    case _ => Metadata(None)
  }

  function Zero(l: Layout): Fields {
    map c | c in l.columns :: ZeroOf(l.assign(c))
  }

  /** Assigns one slot. A NULL string, time or pointer leaves the field as it is. */
  function AssignOne(kind: Kind, fields: Fields, column: string, slot: Slot): Result<Fields, Error> {
    if kind == UnknownType then Success(fields)
    else if KindOf(slot) != kind then Failure(ValidationError(column))
    else match slot
      case UUIDSlot(id) => Success(fields[column := Id(id)])
      case StringSlot(text) => Success(if text.Some? then fields[column := String(text.value)] else fields)
      case TimeSlot(time) => Success(if time.Some? then fields[column := Timestamp(time.value)] else fields)
      case BytesSlot(doc) => Success(if doc.Some? then fields[column := Metadata(doc)] else fields)
      case ScannerSlot(key) => Success(if key.Some? then fields[column := Ref(key)] else fields)
  }

  function AssignAll(l: Layout, fields: Fields, columns: seq<string>, values: seq<Slot>): Result<Fields, Error>
    requires |columns| <= |values|
    decreases columns
  {
    if columns == [] then Success(fields)
    else match AssignOne(l.assign(columns[0]), fields, columns[0], values[0])
      case Failure(err) => Failure(err)
      case Success(next) => AssignAll(l, next, columns[1..], values[1..])
  }

  /** The slot of the k-th column is the first of a wrong type. */
  ghost predicate FirstWrong(l: Layout, columns: seq<string>, values: seq<Slot>, k: nat) {
    && k < |columns| <= |values| && !Accepts(l, columns[k], values[k])
    && forall i :: 0 <= i < k ==> Accepts(l, columns[i], values[i])
  }

  /** Unknown columns take any slot, the others one of their type. */
  predicate Accepts(l: Layout, column: string, slot: Slot) {
    l.assign(column) == UnknownType || KindOf(slot) == l.assign(column)
  }

  class Record {
    const layout: Layout
    var fields: Fields

    constructor (layout: Layout)
      ensures this.layout == layout && fields == Zero(layout)
    {
      this.layout, fields := layout, Zero(layout);
    }

    /** Assigns the scanned slots to the fields, column by column, and stops at the first slot of a wrong type, with the
        columns before it assigned. */
    method AssignValues(columns: seq<string>, values: seq<Slot>) returns (err: Option<Error>)
      modifies this
      ensures |values| < |columns| ==>
                err == Some(ValidationError("mismatch number of scan values")) && fields == old(fields)
      ensures |values| >= |columns| ==>
                match AssignAll(layout, old(fields), columns, values)
                case Success(next) => err == None && fields == next
                case Failure(e) => err == Some(e)
      ensures forall k: nat :: FirstWrong(layout, columns, values, k) ==>
                && err == Some(ValidationError(columns[k]))
                && AssignAll(layout, old(fields), columns[..k], values) == Success(fields)
    {
      if |values| < |columns| { return Some(ValidationError("mismatch number of scan values")); }
      var i := 0;
      while i < |columns|
        invariant 0 <= i <= |columns|
        invariant AssignAll(layout, fields, columns[i..], values[i..]) ==
                  AssignAll(layout, old(fields), columns, values)
        invariant AssignAll(layout, old(fields), columns[..i], values) == Success(fields)
        invariant forall j :: 0 <= j < i ==> Accepts(layout, columns[j], values[j])
      {
        AssignMore(layout, old(fields), columns, values, i);
        var one := AssignOne(layout.assign(columns[i]), fields, columns[i], values[i]);
        assert columns[i..][1..] == columns[i + 1..] && values[i..][1..] == values[i + 1..];
        if one.Failure? { return Some(one.error); }
        fields := one.value;
        i := i + 1;
      }
      return None;
    }
  }

  /** Assigning one column more. */
  lemma {:induction false} AssignMore(l: Layout, fields: Fields, columns: seq<string>, values: seq<Slot>, i: nat)
    requires i < |columns| <= |values| && AssignAll(l, fields, columns[..i], values).Success?
    ensures AssignAll(l, fields, columns[..i + 1], values) ==
            AssignOne(l.assign(columns[i]), AssignAll(l, fields, columns[..i], values).value, columns[i], values[i])
    ensures Accepts(l, columns[i], values[i]) <==> AssignAll(l, fields, columns[..i + 1], values).Success?
    ensures !Accepts(l, columns[i], values[i]) ==>
              AssignAll(l, fields, columns[..i + 1], values) == Failure(ValidationError(columns[i]))
    decreases i
  {
    assert columns[..i + 1][0] == columns[0];
    if i == 0 {
      assert columns[..1][1..] == [];
    } else {
      var next := AssignOne(l.assign(columns[0]), fields, columns[0], values[0]).value;
      assert columns[..i][0] == columns[0] && columns[..i][1..] == columns[1..][..i - 1];
      assert columns[..i + 1][1..] == columns[1..][..i];
      AssignMore(l, next, columns[1..], values[1..], i - 1);
    }
  }

  /** Assigning succeeds exactly when every slot has the type that the column wants. */
  lemma {:induction false} AssignSucceeds(l: Layout, fields: Fields, columns: seq<string>, values: seq<Slot>)
    requires |columns| <= |values|
    ensures AssignAll(l, fields, columns, values).Success? <==>
            forall i :: 0 <= i < |columns| ==>
              l.assign(columns[i]) == UnknownType || KindOf(values[i]) == l.assign(columns[i])
    decreases columns
  {
    if columns != [] {
      var one := AssignOne(l.assign(columns[0]), fields, columns[0], values[0]);
      if one.Success? {
        AssignSucceeds(l, one.value, columns[1..], values[1..]);
        assert forall i :: 0 < i < |columns| ==> columns[i] == columns[1..][i - 1] && values[i] == values[1..][i - 1];
      }
    }
  }

  /** The two tables of types agree, so slots that were made for the columns are never refused, whatever was scanned
      into them and whatever the columns are. */
  lemma {:induction false} TablesAgree(e: Stored, fields: Fields, columns: seq<string>, values: seq<Slot>)
    requires |columns| <= |values|
    requires forall i :: 0 <= i < |columns| ==> KindOf(values[i]) == ScanKind(e, columns[i])
    ensures AssignAll(LayoutOf(e), fields, columns, values).Success?
  {
    LayoutsAreConsistent(e);
    var l := LayoutOf(e);
    assert forall i :: 0 <= i < |columns| ==> KindOf(values[i]) == l.scan(columns[i]);
    AssignSucceeds(l, fields, columns, values);
  }

  // ----- reading a row -----

  /** The field value that a column value is read as. */
  function Read(kind: Kind, v: Value): FieldValue {
    match kind
    case UUID => Id(if v.Key? then v.key else 0)
    case NullString => String(if v.Text? then v.text else "")
    case NullTime => Timestamp(if v.Time? then v.time else 0)
    case NullScanner => Ref(if v.Key? then Some(v.key) else None)
    case _ => Metadata(if v.Json? then Some(v.doc) else None)
  }

  function ReadRow(l: Layout, columns: seq<string>, row: Row): Result<Fields, Error> {
    AssignAll(l, Zero(l), columns, FillAll(l, columns, row))
  }

  /** Every field is zero or what the row says, and the fields of the listed columns are the latter. */
  ghost predicate ReadsRow(l: Layout, fields: Fields, row: Row) {
    && (forall c :: c in fields <==> c in l.columns)
    && forall c :: c in l.columns ==>
         fields[c] == ZeroOf(l.assign(c)) || fields[c] == Read(l.assign(c), At(row, c))
  }

  lemma {:induction false} ReadOne(l: Layout, fields: Fields, column: string, row: Row)
    requires Consistent(l) && ReadsRow(l, fields, row)
    ensures var r := AssignOne(l.assign(column), fields, column, Fill(l.scan(column), At(row, column)));
            && r.Success? && ReadsRow(l, r.value, row)
            && forall c :: c in l.columns ==>
                 r.value[c] == if c == column then Read(l.assign(c), At(row, c)) else fields[c]
  {
  }

  lemma {:induction false} ReadOver(l: Layout, fields: Fields, columns: seq<string>, row: Row)
    requires Consistent(l) && ReadsRow(l, fields, row)
    ensures var r := AssignAll(l, fields, columns, FillAll(l, columns, row));
            && r.Success? && ReadsRow(l, r.value, row)
            && forall c :: c in l.columns ==>
                 r.value[c] == if c in columns then Read(l.assign(c), At(row, c)) else fields[c]
    decreases columns
  {
    if columns != [] {
      var slots := FillAll(l, columns, row);
      ReadOne(l, fields, columns[0], row);
      var next := AssignOne(l.assign(columns[0]), fields, columns[0], slots[0]).value;
      assert slots[1..] == FillAll(l, columns[1..], row);
      ReadOver(l, next, columns[1..], row);
      assert columns == [columns[0]] + columns[1..];
    }
  }

  /** Reading any list of columns gives the fields of these columns; all other fields have their zero values. */
  lemma {:induction false} ReadRowIs(l: Layout, columns: seq<string>, row: Row)
    requires Consistent(l)
    ensures var r := ReadRow(l, columns, row);
            && r.Success? && (forall c :: c in r.value <==> c in l.columns)
            && forall c :: c in l.columns ==>
                 r.value[c] == if c in columns then Read(l.assign(c), At(row, c)) else ZeroOf(l.assign(c))
  {
    ReadOver(l, Zero(l), columns, row);
  }

  lemma {:induction false} KeysOfRecord(l: Layout, columns: seq<string>, row: Row)
    requires Consistent(l)
    ensures ReadRow(l, columns, row).Success?
    ensures var fields := ReadRow(l, columns, row).value;
            && l.id in fields && fields[l.id] == Id(Field(Project(columns, row), l.id))
            && l.parent in fields
            && fields[l.parent] == if l.hidden then Ref(Pointer(Project(columns, row), l.parent))
                                   else Id(Field(Project(columns, row), l.parent))
  {
    ReadRowIs(l, columns, row);
  }

  /** The keys that the query builders read from a projected row are the fields of the record that is read from it. */
  lemma {:induction false} BuildersReadTheRecord(e: Stored, columns: seq<string>, row: Row)
    ensures var values := Project(columns, row);
            var l := LayoutOf(e);
            && ReadRow(l, columns, row).Success?
            && var fields := ReadRow(l, columns, row).value;
            && l.id in fields && fields[l.id] == Id(IdOf(e, values))
            && l.parent in fields
            && fields[l.parent] == if l.hidden then Ref(ForeignKey(OneEdge(e).value, values))
                                   else Id(ForeignKey(OneEdge(e).value, values).value)
  {
    LayoutsAreConsistent(e);
    KeysOfRecord(LayoutOf(e), columns, row);
  }

  // ----- creating -----

  /** A create mutation: the identifier, the fields that were set, the parent, and existing entities that become
      children. */
  datatype Mutation = Mutation(
    id: Option<nat>, given: map<string, Value>, parent: Option<nat>, children: seq<nat>, done: bool)

  /** What is handed to the driver for an insert. */
  datatype CreateSpec = CreateSpec(
    id: Option<nat>, fields: map<string, Value>, parent: Option<nat>, children: seq<nat>)

  /** What the clock says when the default of each time is asked for. */
  datatype Times = Times(created: nat, updated: nat)

  predicate Fits(kind: Kind, v: Value) {
    match kind
    case NullString => v.Text?
    case NullTime => v.Time?
    case Bytes => v.Json?
    case _ => false
  }

  /** The setters accept plain fields only, each with a value of its type. */
  ghost predicate SetterTyped(l: Layout, m: Mutation) {
    forall c :: c in m.given ==> Fits(l.assign(c), m.given[c])
  }

  /** Fills in the fields that have defaults and are not set. */
  function Defaults(e: Stored, m: Mutation, id: nat, times: Times): Mutation {
    var given :=
      if e == Site then m.given
      else map["state" := Text("pending"), "created_at" := Time(times.created), "updated_at" := Time(times.updated)]
           + m.given;
    m.(given := given, id := if m.id.Some? then m.id else Some(id))
  }

  /** The value that a field without one gets. */
  function DefaultValue(e: Stored, c: string, times: Times): Option<Value> {
    if e == Site then None
    else if c == "state" then Some(Text("pending"))
    else if c == "created_at" then Some(Time(times.created))
    else if c == "updated_at" then Some(Time(times.updated))
    else None
  }

  /** The defaults keep whatever the caller has set, fill in what has a default and is missing, and touch nothing
      else. */
  lemma {:induction false} DefaultsKeep(e: Stored, m: Mutation, id: nat, times: Times)
    ensures var d := Defaults(e, m, id, times);
            && (forall c :: c in m.given ==> c in d.given && d.given[c] == m.given[c])
            && (forall c :: c !in m.given ==>
                  if DefaultValue(e, c, times).Some?
                  then c in d.given && d.given[c] == DefaultValue(e, c, times).value
                  else c !in d.given)
            && d.id == (if m.id.Some? then m.id else Some(id))
            && d.parent == m.parent && d.children == m.children && d.done == m.done
  {
  }

  function Missing(m: Mutation, fields: seq<string>): Option<Error> {
    if fields == [] then None
    else if fields[0] !in m.given then Some(ValidationError(fields[0]))
    else Missing(m, fields[1..])
  }

  /** The required fields and edges, and the validator of the name, in the order in which they are checked. */
  function CheckError(e: Stored, m: Mutation): Option<Error> {
    if e == Site then Missing(m, ["site_id"])
    else if "name" !in m.given || m.given["name"] == Text("") then Some(ValidationError("name"))
    else
      var missing := Missing(m, ["state", "created_at", "updated_at"]);
      if missing.Some? then missing
      else if m.parent.None? then Some(ValidationError("deployment"))
      else None
  }

  lemma {:induction false} MissingNone(m: Mutation, fields: seq<string>)
    ensures Missing(m, fields).None? <==> forall i :: 0 <= i < |fields| ==> fields[i] in m.given
  {
    if fields != [] {
      MissingNone(m, fields[1..]);
      assert forall i :: 0 < i < |fields| ==> fields[i] == fields[1..][i - 1];
    }
  }

  /** What a caller has to set, the rest being defaults. */
  predicate HasRequired(e: Stored, m: Mutation) {
    if e == Site then "site_id" in m.given
    else "name" in m.given && m.given["name"] != Text("") && m.parent.Some?
  }

  /** The requirements on a mutation, in the order in which they are checked. */
  function Requirements(e: Stored): seq<string> {
    if e == Site then ["site_id"] else ["name", "state", "created_at", "updated_at", "deployment"]
  }

  predicate Meets(m: Mutation, requirement: string) {
    if requirement == "deployment" then m.parent.Some?
    else requirement in m.given && (requirement == "name" ==> m.given[requirement] != Text(""))
  }

  /** The check passes if and only if all requirements are met; otherwise it names the first that is not. */
  lemma {:induction false} CheckNamesFirst(e: Stored, m: Mutation)
    ensures CheckError(e, m).None? <==> forall i :: 0 <= i < |Requirements(e)| ==> Meets(m, Requirements(e)[i])
    ensures forall k :: 0 <= k < |Requirements(e)| && !Meets(m, Requirements(e)[k])
                        && (forall i :: 0 <= i < k ==> Meets(m, Requirements(e)[i])) ==>
              CheckError(e, m) == Some(ValidationError(Requirements(e)[k]))
  {
    if e == Site {
      SiteCheckIs(m);
      assert Requirements(e)[0] == "site_id" && |Requirements(e)| == 1;
    } else {
      StatusCheckIs(m);
      var rs := Requirements(e);
      assert rs[0] == "name" && rs[1] == "state" && rs[2] == "created_at" && rs[3] == "updated_at";
      assert rs[4] == "deployment" && |rs| == 5;
    }
  }

  lemma {:induction false} SiteCheckIs(m: Mutation)
    ensures CheckError(Site, m) == if Meets(m, "site_id") then None else Some(ValidationError("site_id"))
  {
    MissingNone(m, ["site_id"]);
    assert ["site_id"][0] == "site_id";
    assert |"site_id"| != |"deployment"| && |"site_id"| != |"name"|;
  }

  lemma {:induction false} StatusCheckIs(m: Mutation)
    ensures CheckError(DeploymentComponentStatus, m) ==
            if !Meets(m, "name") then Some(ValidationError("name"))
            else if !Meets(m, "state") then Some(ValidationError("state"))
            else if !Meets(m, "created_at") then Some(ValidationError("created_at"))
            else if !Meets(m, "updated_at") then Some(ValidationError("updated_at"))
            else if !Meets(m, "deployment") then Some(ValidationError("deployment"))
            else None
  {
    MissingThree(m, "state", "created_at", "updated_at");
    MeetsField(m, "name");
    MeetsField(m, "state");
    MeetsField(m, "created_at");
    MeetsField(m, "updated_at");
  }

  lemma {:induction false} MissingThree(m: Mutation, a: string, b: string, c: string)
    ensures Missing(m, [a, b, c]) ==
            if a !in m.given then Some(ValidationError(a))
            else if b !in m.given then Some(ValidationError(b))
            else if c !in m.given then Some(ValidationError(c))
            else None
  {
    assert [a, b, c][1..] == [b, c] && [b, c][1..] == [c] && [c][1..] == [];
    assert Missing(m, [c]) == if c !in m.given then Some(ValidationError(c)) else None;
  }

  lemma {:induction false} MeetsField(m: Mutation, c: string)
    requires c in ["name", "state", "created_at", "updated_at"]
    ensures c != "deployment"
    ensures Meets(m, c) <==> c in m.given && (c == "name" ==> m.given[c] != Text(""))
    ensures c != "name" ==> (Meets(m, c) <==> c in m.given)
  {
    assert "created_at"[0] != "deployment"[0] && "updated_at"[0] != "deployment"[0];
    assert |"name"| != |"deployment"| && |"state"| != |"deployment"|;
  }

  /** After the defaults, exactly the fields without a default decide. */
  lemma {:induction false} DefaultsThenCheck(e: Stored, m: Mutation, id: nat, times: Times)
    ensures CheckError(e, Defaults(e, m, id, times)).None? <==> HasRequired(e, m)
  {
    var d := Defaults(e, m, id, times);
    if e == Site {
      MissingNone(d, ["site_id"]);
      assert ["site_id"][0] == "site_id";
    } else {
      assert "name" in d.given <==> "name" in m.given;
      MissingNone(d, ["state", "created_at", "updated_at"]);
    }
  }

  function FieldOf(v: Value): FieldValue {
    match v
    case Text(t) => String(t)
    case Time(t) => Timestamp(t)
    case Json(doc) => Metadata(Some(doc))
    case _ => Metadata(None)
  }

  function LinkOf(l: Layout, parent: Option<nat>): FieldValue {
    if l.hidden then Ref(parent) else Id(if parent.Some? then parent.value else 0)
  }

  /** The entity that a mutation creates. */
  function NodeOf(l: Layout, m: Mutation): Fields {
    map c | c in l.columns ::
      if c == l.id then Id(if m.id.Some? then m.id.value else 0)
      else if c == l.parent then LinkOf(l, m.parent)
      else if c in m.given then FieldOf(m.given[c])
      else ZeroOf(l.assign(c))
  }

  /** The columns that hold plain fields: neither the identifier nor the link to the parent. */
  predicate Plain(l: Layout, c: string) { c in l.columns && c != l.id && c != l.parent }

  function SpecFor(l: Layout, m: Mutation): CreateSpec {
    CreateSpec(m.id, map c | c in l.columns && Plain(l, c) && c in m.given :: m.given[c], m.parent, m.children)
  }

  /** The plain fields, in the order of the columns; the generated code is this loop unrolled. */
  method FillFields(l: Layout, m: Mutation) returns (node: Fields, fields: map<string, Value>)
    ensures forall c :: c in fields <==> Plain(l, c) && c in m.given
    ensures forall c :: c in fields ==> fields[c] == m.given[c]
    ensures forall c :: c in node <==> c in l.columns
    ensures forall c :: c in l.columns ==> node[c] == if c in fields then FieldOf(m.given[c]) else ZeroOf(l.assign(c))
  {
    node, fields := Zero(l), map[];
    for i := 0 to |l.columns|
      invariant forall c :: c in fields <==> Plain(l, c) && c in l.columns[..i] && c in m.given
      invariant forall c :: c in fields ==> fields[c] == m.given[c]
      invariant forall c :: c in node <==> c in l.columns
      invariant forall c :: c in l.columns ==>
                  node[c] == if c in fields then FieldOf(m.given[c]) else ZeroOf(l.assign(c))
    {
      var c := l.columns[i];
      if Plain(l, c) && c in m.given {
        fields := fields[c := m.given[c]];
        node := node[c := FieldOf(m.given[c])];
      }
    }
  }

  /** Fills the node and the insert side by side. */
  method BuildSpec(l: Layout, m: Mutation) returns (node: Fields, spec: CreateSpec)
    requires Consistent(l)
    ensures node == NodeOf(l, m) && spec == SpecFor(l, m)
  {
    var fields;
    node, fields := FillFields(l, m);
    spec := CreateSpec(None, fields, None, []);
    KeysAreZero(l);
    if m.id.Some? {
      spec := spec.(id := m.id);
      node := node[l.id := Id(m.id.value)];
    }
    if |m.children| > 0 { spec := spec.(children := m.children); }
    if m.parent.Some? {
      spec := spec.(parent := m.parent);
      node := node[l.parent := LinkOf(l, m.parent)];
    }
    NodeIs(l, m, fields, node);
    FieldsAre(l, m, fields);
  }

  lemma {:induction false} FieldsAre(l: Layout, m: Mutation, fields: map<string, Value>)
    requires forall c :: c in fields <==> Plain(l, c) && c in m.given
    requires forall c :: c in fields ==> fields[c] == m.given[c]
    ensures fields == SpecFor(l, m).fields
  {
  }

  /** The zero node has a zero identifier and no parent. */
  lemma {:induction false} KeysAreZero(l: Layout)
    requires Consistent(l)
    ensures l.id in l.columns && l.parent in l.columns && l.id != l.parent
    ensures ZeroOf(l.assign(l.id)) == Id(0) && ZeroOf(l.assign(l.parent)) == LinkOf(l, None)
  {
    assert ConsistentAt(l, l.id) && ConsistentAt(l, l.parent);
  }

  lemma {:induction false} NodeIs(l: Layout, m: Mutation, fields: map<string, Value>, node: Fields)
    requires Consistent(l) && node.Keys == NodeOf(l, m).Keys
    requires forall c :: c in fields <==> Plain(l, c) && c in m.given
    requires forall c :: c in l.columns && Plain(l, c) ==>
               node[c] == if c in fields then FieldOf(m.given[c]) else ZeroOf(l.assign(c))
    requires node[l.id] == Id(if m.id.Some? then m.id.value else 0) && node[l.parent] == LinkOf(l, m.parent)
    ensures node == NodeOf(l, m)
  {
    forall c | c in node ensures node[c] == NodeOf(l, m)[c] { assert ConsistentAt(l, c); }
  }

  /** What a plain field holds that was set to a value, and one that was not. */
  ghost predicate Holds(kind: Kind, field: FieldValue, given: Option<Value>) {
    match given
    case Some(Text(t)) => field == String(t)
    case Some(Time(t)) => field == Timestamp(t)
    case Some(Json(doc)) => field == Metadata(Some(doc))
    case Some(_) => true
    case None =>
      && (kind == NullString ==> field == String(""))
      && (kind == NullTime ==> field == Timestamp(0))
      && (kind == Bytes ==> field == Metadata(None))
  }

  /** The returned entity and the insert hold what the caller gave, field by field: the entity zero values besides, the
      insert nothing besides. */
  lemma {:induction false} BuiltFromGiven(e: Stored, m: Mutation, c: string)
    ensures var (node, spec) := (NodeOf(LayoutOf(e), m), SpecFor(LayoutOf(e), m));
            && (c in node <==> c in Columns(e) || c in ForeignKeys(e))
            && (c == IdColumn(e) ==> node[c] == Id(if m.id.Some? then m.id.value else 0))
            && (c == "orchestrator_id" && e == Site ==>
                  node[c] == Id(if m.parent.Some? then m.parent.value else 0))
            && (c == "deployment_status_components" && e == DeploymentComponentStatus ==> node[c] == Ref(m.parent))
            && (Plain(LayoutOf(e), c) ==>
                  Holds(AssignKind(e, c), node[c], if c in m.given then Some(m.given[c]) else None))
            && (c in spec.fields <==> Plain(LayoutOf(e), c) && c in m.given)
            && (c in spec.fields ==> spec.fields[c] == m.given[c])
            && spec.id == m.id && spec.parent == m.parent && spec.children == m.children
  {
    KeysAreColumns(e);
    LayoutsAreConsistent(e);
    assert ConsistentAt(LayoutOf(e), c);
  }

  /** What a column is read as: a value that fits gives the field that holds it, NULL the zero value, and a key the
      identifier or the pointer to it. */
  lemma {:induction false} ReadHolds(kind: Kind, v: Value, key: nat)
    ensures Fits(kind, v) ==> Holds(kind, Read(kind, v), Some(v))
    ensures kind == NullString || kind == NullTime || kind == Bytes ==> Holds(kind, Read(kind, Null), None)
    ensures Read(UUID, Key(key)) == Id(key) && Read(UUID, Null) == Id(0)
    ensures Read(NullScanner, Key(key)) == Ref(Some(key)) && Read(NullScanner, Null) == Ref(None)
  {
  }

  /** The row that an insert leaves in the table. Columns that are not written are NULL. */
  function StoredRow(l: Layout, spec: CreateSpec): Row {
    map c | c in l.columns ::
      if c == l.id then (if spec.id.Some? then Key(spec.id.value) else Null)
      else if c == l.parent then (if spec.parent.Some? then Key(spec.parent.value) else Null)
      else if c in spec.fields then spec.fields[c]
      else Null
  }

  /** What is read back from any columns of the inserted row is what the mutation returned, in these columns. */
  lemma {:induction false} RoundTrip(l: Layout, m: Mutation, columns: seq<string>)
    requires Consistent(l) && SetterTyped(l, m)
    ensures var r := ReadRow(l, columns, StoredRow(l, SpecFor(l, m)));
            && r.Success? && (forall c :: c in r.value <==> c in l.columns)
            && forall c :: c in l.columns ==>
                 r.value[c] == if c in columns then NodeOf(l, m)[c] else Zero(l)[c]
  {
    var row := StoredRow(l, SpecFor(l, m));
    ReadRowIs(l, columns, row);
    forall c | c in l.columns
      ensures Read(l.assign(c), At(row, c)) == NodeOf(l, m)[c]
    {
      FieldReadsBack(l, m, c);
    }
  }

  lemma {:induction false} FieldReadsBack(l: Layout, m: Mutation, c: string)
    requires Consistent(l) && SetterTyped(l, m) && c in l.columns
    ensures Read(l.assign(c), At(StoredRow(l, SpecFor(l, m)), c)) == NodeOf(l, m)[c]
  {
    if c in m.given { assert Fits(l.assign(c), m.given[c]); }
  }

  lemma {:induction false} RoundTripBut(l: Layout, m: Mutation, columns: seq<string>)
    requires Consistent(l) && SetterTyped(l, m)
    requires forall c :: c in l.columns ==> (c in columns <==> !(l.hidden && c == l.parent))
    ensures ReadRow(l, columns, StoredRow(l, SpecFor(l, m))) == Success(NodeOf(l, m)) <==>
            !l.hidden || m.parent.None?
  {
    RoundTrip(l, m, columns);
    AllButParent(l, m, ReadRow(l, columns, StoredRow(l, SpecFor(l, m))).value);
  }

  /** An entity that is read without its hidden foreign key. */
  lemma {:induction false} AllButParent(l: Layout, m: Mutation, r: Fields)
    requires Consistent(l) && forall c :: c in r <==> c in l.columns
    requires forall c :: c in l.columns ==>
               r[c] == if l.hidden && c == l.parent then Zero(l)[c] else NodeOf(l, m)[c]
    ensures r == NodeOf(l, m) <==> !l.hidden || m.parent.None?
  {
    if l.hidden {
      KeysAreZero(l);
      assert NodeOf(l, m)[l.parent] == LinkOf(l, m.parent) && r[l.parent] == LinkOf(l, None);
    }
    if !l.hidden || m.parent.None? {
      forall c | c in r ensures r[c] == NodeOf(l, m)[c] {
      }
    }
  }

  lemma {:induction false} PlainColumns(e: Stored, c: string)
    requires c in LayoutOf(e).columns
    ensures c in Columns(e) <==> !(LayoutOf(e).hidden && c == LayoutOf(e).parent)
  {
    if c in ForeignKeys(e) { KeyIsHidden(e); }
    if e == Site { assert Columns(e) + ForeignKeys(e) == Columns(e); }
  }

  lemma {:induction false} KeyIsHidden(e: Stored)
    ensures forall c :: c in ForeignKeys(e) <==> LayoutOf(e).hidden && c == LayoutOf(e).parent
    ensures forall c :: c in ForeignKeys(e) ==> c !in Columns(e)
  {
  }

  /** Reading all columns and foreign keys returns the created entity; without the hidden foreign key, exactly the link
      to the parent is lost. */
  lemma {:induction false} FullRoundTrip(e: Stored, m: Mutation)
    requires SetterTyped(LayoutOf(e), m)
    ensures var l := LayoutOf(e);
            && ReadRow(l, l.columns, StoredRow(l, SpecFor(l, m))) == Success(NodeOf(l, m))
            && (ReadRow(l, Columns(e), StoredRow(l, SpecFor(l, m))) == Success(NodeOf(l, m)) <==>
                !l.hidden || m.parent.None?)
  {
    var l := LayoutOf(e);
    LayoutsAreConsistent(e);
    ReadsBack(l, m);
    forall c | c in l.columns
      ensures c in Columns(e) <==> !(l.hidden && c == l.parent)
    {
      PlainColumns(e, c);
    }
    RoundTripBut(l, m, Columns(e));
  }

  lemma {:induction false} ReadsBack(l: Layout, m: Mutation)
    requires Consistent(l) && SetterTyped(l, m)
    ensures ReadRow(l, l.columns, StoredRow(l, SpecFor(l, m))) == Success(NodeOf(l, m))
  {
    RoundTrip(l, m, l.columns);
    assert ReadRow(l, l.columns, StoredRow(l, SpecFor(l, m))).value == NodeOf(l, m);
  }
}
