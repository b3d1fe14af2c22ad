/**
The bulk save of the two entities: what is saved is what is read back.
*/
module BulkEntities {
  import opened Schema
  import opened Store
  import opened Plans
  import opened Entities
  import opened BulkModel
  import opened BulkOutcome
  import Bulk
  import opened Wrappers

  function TemplateOf(e: Stored): Template {
    Template((m, id: nat, times) => Defaults(e, m, id, times), m => CheckError(e, m), m => NodeOf(LayoutOf(e), m),
             m => SpecFor(LayoutOf(e), m), f => NodeId(e, f))
  }

  function NodeId(e: Stored, node: Fields): nat {
    if IdColumn(e) in node && node[IdColumn(e)].Id? then node[IdColumn(e)].id else 0
  }

  /** Without hooks, a bulk save of any builders succeeds if and only if each has what is required and the database
      accepts the batch. */
  lemma {:induction false} PlainSave(
    e: Stored, b: Setting, muts: seq<Mutation>, ids: seq<nat>, times: seq<Times>, stored: seq<Batch>, memory: Memory)
    requires |ids| == |times| == |muts| > 0 && b.code == TemplateOf(e)
    requires Separate(b, muts) && Hookless(b)
    ensures var ms := Defaulted(b.code, muts, ids, times);
            && |ms| == |muts|
            && (SaveEach(b, ms, stored, memory).1.None? <==>
                  (forall i :: 0 <= i < |muts| ==> HasRequired(e, muts[i])) &&
                  b.refusal(stored, SpecsOf(b.code, ms)).None?)
  {
    var ms := Defaulted(b.code, muts, ids, times);
    assert |ms| == |muts|;
    forall i | 0 <= i < |muts|
      ensures !ms[i].done && (b.code.check(ms[i]).None? <==> HasRequired(e, muts[i]))
    {
      DefaultedChecks(e, muts, ids, times, i);
    }
    HooklessSave(b, ms, stored, memory);
  }

  lemma {:induction false} DefaultedChecks(
    e: Stored, muts: seq<Mutation>, ids: seq<nat>, times: seq<Times>, i: nat)
    requires i < |ids| == |times| == |muts|
    ensures var m := Defaulted(TemplateOf(e), muts, ids, times)[i];
            m.done == muts[i].done && (TemplateOf(e).check(m).None? <==> HasRequired(e, muts[i]))
  {
    var code := TemplateOf(e);
    FillInAt(code, Identity(|muts|), muts, ids, times, i);
    assert Defaulted(code, muts, ids, times)[Identity(|muts|)[i]] == code.defaults(muts[i], ids[i], times[i]);
    DefaultsThenCheck(e, muts[i], ids[i], times[i]);
  }

  /** A builder that is in a bulk twice gets the defaults of its first position. */
  lemma {:induction false} SharedDefaults(
    e: Stored, refs: seq<nat>, muts: seq<Mutation>, ids: seq<nat>, times: seq<Times>, i: nat)
    requires |refs| <= |ids| && |refs| <= |times| && forall i :: 0 <= i < |refs| ==> refs[i] < |muts|
    requires i < |refs| && refs[i] !in refs[..i]
    ensures FillIn(TemplateOf(e), refs, muts, ids, times)[refs[i]] == Defaults(e, muts[refs[i]], ids[i], times[i])
  {
    forall m, id: nat, t, id': nat, t' ensures Defaults(e, Defaults(e, m, id, t), id', t') == Defaults(e, m, id, t) {
      DefaultsTwice(e, m, id, t, id', t');
    }
    FillInShared(TemplateOf(e), refs, muts, ids, times, i);
  }

  lemma {:induction false} DefaultsTwice(e: Stored, m: Mutation, id: nat, t: Times, id': nat, t': Times)
    ensures Defaults(e, Defaults(e, m, id, t), id', t') == Defaults(e, m, id, t)
  {
    var d := Defaults(e, m, id, t);
    assert Defaults(e, d, id', t').given == d.given;
  }

  /** After a save without hooks that succeeds, the stored specification of builder i and the returned node hold what
      the caller gave to builder i, the defaults where the caller gave nothing, and nothing else. */
  lemma {:induction false} GivenIsStored(
    e: Stored, b: Setting, muts: seq<Mutation>, ids: seq<nat>, times: seq<Times>, stored: seq<Batch>, memory: Memory,
    i: nat)
    requires |ids| == |times| == |muts| > i && b.code == TemplateOf(e)
    requires Separate(b, muts) && Hookless(b)
    requires SaveEach(b, Defaulted(b.code, muts, ids, times), stored, memory).1.None?
    ensures var t := SaveEach(b, Defaulted(b.code, muts, ids, times), stored, memory).0;
            && |t.issued| == 1 && t.stored == stored + t.issued && |t.issued[0]| == |t.nodes| == |muts|
            && t.issued[0][i].Some? && t.nodes[i].Some?
            && HoldsGiven(e, muts[i], ids[i], times[i], t.issued[0][i].value, t.nodes[i].value)
  {
    var ms := Defaulted(b.code, muts, ids, times);
    forall j | 0 <= j < |muts| ensures ms[j] == Defaults(e, muts[j], ids[j], times[j]) && !ms[j].done {
      DefaultedAt(e, muts, ids, times, j);
    }
    HooklessSave(b, ms, stored, memory);
    DefaultsHold(e, muts[i], ids[i], times[i]);
  }

  /** A specification and a node hold what was given and the defaults. */
  ghost predicate HoldsGiven(
    e: Stored, m: Mutation, id: nat, times: Times, spec: CreateSpec, node: Fields)
  {
    && spec.id == Some(if m.id.Some? then m.id.value else id) && spec.parent == m.parent && spec.children == m.children
    && forall c :: Plain(LayoutOf(e), c) ==>
         && (c in m.given ==> c in spec.fields && spec.fields[c] == m.given[c])
         && (c !in m.given && DefaultValue(e, c, times).Some? ==>
               c in spec.fields && spec.fields[c] == DefaultValue(e, c, times).value)
         && (c !in m.given && DefaultValue(e, c, times).None? ==> c !in spec.fields)
         && c in node && Holds(AssignKind(e, c), node[c], if c in spec.fields then Some(spec.fields[c]) else None)
  }

  lemma {:induction false} DefaultsHold(e: Stored, m: Mutation, id: nat, times: Times)
    ensures var d := Defaults(e, m, id, times);
            HoldsGiven(e, m, id, times, SpecFor(LayoutOf(e), d), NodeOf(LayoutOf(e), d))
  {
    var d := Defaults(e, m, id, times);
    DefaultsKeep(e, m, id, times);
    forall c | Plain(LayoutOf(e), c) { BuiltFromGiven(e, d, c); }
    BuiltFromGiven(e, d, IdColumn(e));
  }

  lemma {:induction false} DefaultedAt(
    e: Stored, muts: seq<Mutation>, ids: seq<nat>, times: seq<Times>, i: nat)
    requires i < |ids| == |times| == |muts|
    ensures Defaulted(TemplateOf(e), muts, ids, times)[i] == Defaults(e, muts[i], ids[i], times[i])
    ensures Defaults(e, muts[i], ids[i], times[i]).done == muts[i].done
  {
    FillInAt(TemplateOf(e), Identity(|muts|), muts, ids, times, i);
    DefaultsKeep(e, muts[i], ids[i], times[i]);
  }

  /** The same for the objects: saves distinct builders of an entity without hooks, each with a mutation of its own. */
  method SaveEntities(e: Stored, bulk: Bulk.CreateBulk, ids: seq<nat>, times: seq<Times>, memory: Memory)
    returns (nodes: seq<Option<Fields>>, failure: Option<SaveError>)
    requires |ids| == |times| == |bulk.builders| == |bulk.setting.hooks| > 0
    requires bulk.Valid() && bulk.Made() && bulk.Apart() && bulk.err.None? && bulk.code == TemplateOf(e)
    requires Hookless(bulk.setting) && NoneDone(Bulk.ValuesOf(Bulk.MutationsOf(bulk.builders)))
    modifies bulk.builders, Bulk.MutationsOf(bulk.builders), bulk.db
    ensures failure.Some? ==> bulk.db.stored == old(bulk.db.stored)
    ensures failure.None? ==>
              && |bulk.db.stored| == |old(bulk.db.stored)| + 1 && old(bulk.db.stored) <= bulk.db.stored
              && var batch := bulk.db.stored[|old(bulk.db.stored)|];
                 AllHold(e, old(Bulk.ValuesOf(Bulk.MutationsOf(bulk.builders))), ids, times, batch, nodes)
  {
    ghost var given, stored := Bulk.ValuesOf(Bulk.MutationsOf(bulk.builders)), bulk.db.stored;
    FilledAreNew(e, bulk.setting, given, ids, times);
    nodes, failure := bulk.SaveApart(ids, times, memory);
    HooklessEnd(e, bulk.setting, given, ids, times, stored, bulk.db.stored, nodes, failure);
  }

  ghost predicate NoneDone(muts: seq<Mutation>) { forall i :: 0 <= i < |muts| ==> !muts[i].done }

  lemma {:induction false} FilledAreNew(
    e: Stored, b: Setting, given: seq<Mutation>, ids: seq<nat>, times: seq<Times>)
    requires |given| == |ids| == |times| == |b.hooks| && b.code == TemplateOf(e)
    requires Hookless(b) && NoneDone(given)
    ensures AllOnce(b) && forall i :: 0 <= i < |given| ==> !Defaulted(b.code, given, ids, times)[i].done
  {
    forall i | 0 <= i < |given| ensures !Defaulted(b.code, given, ids, times)[i].done {
      DefaultedAt(e, given, ids, times, i);
    }
  }

  lemma {:induction false} HooklessEnd(
    e: Stored, b: Setting, given: seq<Mutation>, ids: seq<nat>, times: seq<Times>, stored: seq<Batch>,
    after: seq<Batch>, nodes: seq<Option<Fields>>, failure: Option<SaveError>)
    requires |given| == |ids| == |times| == |b.hooks| > 0 && b.code == TemplateOf(e) && Hookless(b)
    requires Sent(b, Defaulted(b.code, given, ids, times), stored, after, nodes, failure)
    ensures failure.Some? ==> after == stored
    ensures failure.None? ==>
              |after| == |stored| + 1 && stored <= after && AllHold(e, given, ids, times, after[|stored|], nodes)
  {
    var muts := Defaulted(b.code, given, ids, times);
    NoHooks(b, muts);
    var k, answer := FirstInvalid(b, 0, muts), AnswerOf(b, muts, stored);
    PassesBack(b, 0, Last(b, k), answer);
    PassesThrough(b, 0, 0, answer);
    if failure.None? {
      assert k == |muts|;
      FilledHold(e, b, given, ids, times, nodes);
    }
  }

  /** Every slot of a batch and every node hold what was given to their builder. */
  ghost predicate AllHold(
    e: Stored, muts: seq<Mutation>, ids: seq<nat>, times: seq<Times>, batch: Batch, nodes: seq<Option<Fields>>)
  {
    && |muts| == |ids| == |times| == |batch| == |nodes|
    && forall i :: 0 <= i < |muts| ==>
         batch[i].Some? && nodes[i].Some? && HoldsGiven(e, muts[i], ids[i], times[i], batch[i].value, nodes[i].value)
  }

  lemma {:induction false} FilledHold(
    e: Stored, b: Setting, given: seq<Mutation>, ids: seq<nat>, times: seq<Times>, nodes: seq<Option<Fields>>)
    requires |given| == |ids| == |times| == |b.hooks| == |nodes| && b.code == TemplateOf(e)
    requires Hookless(b)
    requires forall i :: 0 <= i < |nodes| ==>
               nodes[i] == Some(b.code.node(PreparedAt(b, Defaulted(b.code, given, ids, times), i)))
    ensures AllHold(e, given, ids, times, BatchOf(b, Defaulted(b.code, given, ids, times)), nodes)
  {
    var muts := Defaulted(b.code, given, ids, times);
    NoHooks(b, muts);
    forall i | 0 <= i < |given|
      ensures HoldsGiven(e, given[i], ids[i], times[i], b.code.spec(muts[i]), b.code.node(muts[i]))
    {
      DefaultedAt(e, given, ids, times, i);
      DefaultsHold(e, given[i], ids[i], times[i]);
    }
  }

  /** After a save that succeeds, the row of builder i reads back as the node that builder i returned, and its mutation
      carries the identifier of the row. */
  lemma {:induction false} SavedIsReadBack(
    e: Stored, b: Setting, muts: seq<Mutation>, stored: seq<Batch>, memory: Memory, i: nat)
    requires Separate(b, muts) && i < |muts| && b.code == TemplateOf(e)
    requires Hookless(b)
    requires SaveEach(b, muts, stored, memory).1.None? && SetterTyped(LayoutOf(e), muts[i]) && muts[i].id.Some?
    ensures var t := SaveEach(b, muts, stored, memory).0;
            && |t.issued| == 1 && |t.issued[0]| == |t.nodes| == |muts| <= |t.muts| && t.own == Identity(|muts|)
            && t.stored == stored + t.issued
            && t.nodes[i].Some? && t.issued[0][i].Some? && t.muts[i].id == t.issued[0][i].value.id == muts[i].id
            && ReadBack(LayoutOf(e), t.issued[0][i].value) == Success(t.nodes[i].value)
  {
    HooklessSave(b, muts, stored, memory);
    IdOfNode(e, muts[i]);
    FullRoundTrip(e, muts[i]);
  }

  function ReadBack(l: Layout, spec: CreateSpec): Result<Fields, Error> {
    ReadRow(l, l.columns, StoredRow(l, spec))
  }

  /** A site without its required field is inserted when a hook puts it in the place of a complete one: no mutation that
      passes the checks has that specification. */
  lemma {:induction false} UncheckedInsert(
    b: Setting, m: Mutation, make: Mutation -> Mutation, stored: seq<Batch>, memory: Memory)
    requires b.code == TemplateOf(Site) && OneHook(b, Exchange(make, Next(PassOn())))
    requires HasRequired(Site, m) && !HasRequired(Site, make(m))
    requires b.refusal(stored, [Some(b.code.spec(Exchanged(make, m)))]).None?
    ensures var (t, err) := Save(b, [0], [m], stored, memory);
            var spec := b.code.spec(Exchanged(make, m));
            err.None? && t.stored == stored + [[Some(spec)]] && !Checked(b.code, spec)
  {
    ExchangedSave(b, m, make, stored, memory);
    SiteCheck(m);
    SiteCheck(Exchanged(make, m));
    SpecTells(Site);
  }

  /** For both entities, the specification of an insert tells whether the mutation passes the checks. */
  lemma {:induction false} SpecTells(e: Stored)
    ensures Telling(TemplateOf(e))
  {
    forall m, n | SpecFor(LayoutOf(e), m) == SpecFor(LayoutOf(e), n)
      ensures CheckError(e, m).None? <==> CheckError(e, n).None?
    {
      SameCheck(e, m, n);
    }
  }

  lemma {:induction false} SameCheck(e: Stored, m: Mutation, n: Mutation)
    requires SpecFor(LayoutOf(e), m) == SpecFor(LayoutOf(e), n)
    ensures CheckError(e, m).None? <==> CheckError(e, n).None?
  {
    if e == Site {
      SameField(e, m, n, 1);
      SiteCheck(m);
      SiteCheck(n);
    } else {
      StatusFields(m, n);
      StatusCheck(m);
      StatusCheck(n);
    }
  }

  lemma {:induction false} StatusFields(m: Mutation, n: Mutation)
    requires SpecFor(LayoutOf(DeploymentComponentStatus), m) == SpecFor(LayoutOf(DeploymentComponentStatus), n)
    ensures forall i :: i in [1, 2, 5, 6] ==>
              var c := Columns(DeploymentComponentStatus)[i];
              (c in m.given <==> c in n.given) && (c in m.given ==> m.given[c] == n.given[c])
    ensures m.parent == n.parent
  {
    forall i | i in [1, 2, 5, 6]
      ensures var c := Columns(DeploymentComponentStatus)[i];
              (c in m.given <==> c in n.given) && (c in m.given ==> m.given[c] == n.given[c])
    {
      SameField(DeploymentComponentStatus, m, n, i);
    }
  }

  lemma {:induction false} StatusCheck(m: Mutation)
    ensures var c := Columns(DeploymentComponentStatus);
            CheckError(DeploymentComponentStatus, m).None? <==>
            && c[1] in m.given && m.given[c[1]] != Text("") && c[2] in m.given && c[5] in m.given && c[6] in m.given
            && m.parent.Some?
  {
    var fields := ["state", "created_at", "updated_at"];
    MissingNone(m, fields);
    assert fields[0] == "state" && fields[1] == "created_at" && fields[2] == "updated_at";
  }

  lemma {:induction false} SameField(e: Stored, m: Mutation, n: Mutation, i: nat)
    requires SpecFor(LayoutOf(e), m) == SpecFor(LayoutOf(e), n)
    requires i < |Columns(e)| && AssignKind(e, Columns(e)[i]) != UUID && AssignKind(e, Columns(e)[i]) != NullScanner
    ensures var c := Columns(e)[i];
            (c in m.given <==> c in n.given) && (c in m.given ==> m.given[c] == n.given[c])
  {
    var c, l := Columns(e)[i], LayoutOf(e);
    KindOfColumn(e, c);
    assert c in Columns(e);
    assert Plain(l, c);
    assert c in m.given <==> c in SpecFor(l, m).fields;
    assert c in n.given <==> c in SpecFor(l, n).fields;
    if c in m.given { assert SpecFor(l, m).fields[c] == SpecFor(l, n).fields[c]; }
  }

  /** One insert for all builders, whatever their hooks exchange: a slot was checked if and only if the mutation that
      reaches its builder passes the checks. */
  lemma {:induction false} CheckedSlot(
    e: Stored, b: Setting, muts: seq<Mutation>, stored: seq<Batch>, memory: Memory, i: nat)
    requires Separate(b, muts) && AllOnce(b) && i < |muts| && b.code == TemplateOf(e)
    requires SaveEach(b, muts, stored, memory).0.issued != []
    ensures var t := SaveEach(b, muts, stored, memory).0;
            && |t.issued| == 1 && |t.issued[0]| == |muts| && t.issued[0][i].Some?
            && (Checked(b.code, t.issued[0][i].value) <==> CheckError(e, PreparedAt(b, muts, i)).None?)
  {
    SpecTells(e);
    SlotIsChecked(b, muts, stored, memory, i);
  }

  lemma {:induction false} SiteCheck(m: Mutation)
    ensures CheckError(Site, m).None? <==> HasRequired(Site, m)
  {
    MissingNone(m, ["site_id"]);
    assert ["site_id"][0] == "site_id";
  }

  lemma {:induction false} IdOfNode(e: Stored, m: Mutation)
    ensures m.id.Some? ==> NodeId(e, NodeOf(LayoutOf(e), m)) == m.id.value
  {
    LayoutsAreConsistent(e);
  }
}
