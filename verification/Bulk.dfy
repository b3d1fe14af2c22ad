/**
The bulk builder: the loop over the builders that fills in their defaults, and the mutators, which share the slots for
the nodes and the specifications of one save.
*/
module Bulk {
  import opened Entities
  import opened BulkModel
  import BulkOutcome
  import opened Wrappers

  /** A mutation, which a builder refers to and hooks may edit. */
  class MutationRef {
    var value: Mutation

    constructor (value: Mutation)
      ensures this.value == value
    {
      this.value := value;
    }
  }

  class Builder {
    const hooks: seq<Hook>
    var mutation: MutationRef

    constructor (hooks: seq<Hook>, mutation: MutationRef)
      ensures this.hooks == hooks && this.mutation == mutation
    {
      this.hooks, this.mutation := hooks, mutation;
    }
  }

  class Database {
    const refusal: (seq<Batch>, Batch) -> Option<string>
    var stored: seq<Batch>

    constructor (refusal: (seq<Batch>, Batch) -> Option<string>)
      ensures this.refusal == refusal && stored == []
    {
      this.refusal, stored := refusal, [];
    }

    /** Stores all of a batch or none of it. */
    method BatchCreate(batch: Batch) returns (err: Option<string>)
      modifies this
      ensures err == refusal(old(stored), batch)
      ensures stored == if err.None? then old(stored) + [batch] else old(stored)
    {
      err := refusal(stored, batch);
      if err.None? { stored := stored + [batch]; }
    }
  }

  // ----- repeated builders and shared mutations -----

  /** The elements of a list, each once, in order of first occurrence. */
  ghost function Once<T>(xs: seq<T>): (ys: seq<T>)
    ensures (forall i :: 0 <= i < |xs| ==> xs[i] in ys) && forall i :: 0 <= i < |ys| ==> ys[i] in xs
    ensures forall i, j :: 0 <= i < j < |ys| ==> ys[i] != ys[j]
    ensures |ys| <= |xs|
  {
    if xs == [] then []
    else
      var last := |xs| - 1;
      var ys := Once(xs[..last]);
      assert xs == xs[..last] + [xs[last]];
      if xs[last] in ys then ys else ys + [xs[last]]
  }

  ghost function IndexOf<T>(ys: seq<T>, y: T): (i: nat)
    requires y in ys
    ensures i < |ys| && ys[i] == y
  {
    if ys[0] == y then 0 else 1 + IndexOf(ys[1..], y)
  }

  ghost function IndexesOf<T>(ys: seq<T>, xs: seq<T>): (at: seq<nat>)
    requires forall i :: 0 <= i < |xs| ==> xs[i] in ys
    ensures |at| == |xs| && forall i :: 0 <= i < |xs| ==> at[i] < |ys| && ys[at[i]] == xs[i]
  {
    if xs == [] then [] else [IndexOf(ys, xs[0])] + IndexesOf(ys, xs[1..])
  }

  /** A list without repetitions is indexed by its own positions. */
  lemma {:induction false} DistinctIndexes<T>(xs: seq<T>)
    requires forall i, j :: 0 <= i < j < |xs| ==> xs[i] != xs[j]
    ensures Once(xs) == xs
    ensures forall i :: 0 <= i < |xs| ==> IndexesOf(Once(xs), xs)[i] == i
  {
    OnceDistinct(xs);
  }

  lemma {:induction false} OnceDistinct<T>(xs: seq<T>)
    requires forall i, j :: 0 <= i < j < |xs| ==> xs[i] != xs[j]
    ensures Once(xs) == xs
  {
    if xs != [] {
      var last := |xs| - 1;
      OnceDistinct(xs[..last]);
      assert xs == xs[..last] + [xs[last]];
    }
  }

  ghost function ValuesOf(refs: seq<MutationRef>): (ms: seq<Mutation>)
    reads set r | r in refs
    ensures |ms| == |refs| && forall i :: 0 <= i < |refs| ==> ms[i] == refs[i].value
  {
    if refs == [] then [] else [refs[0].value] + ValuesOf(refs[1..])
  }

  ghost function MutationsOf(builders: seq<Builder>): (refs: seq<MutationRef>)
    reads set b | b in builders
    ensures |refs| == |builders| && forall i :: 0 <= i < |refs| ==> refs[i] == builders[i].mutation
  {
    if builders == [] then [] else [builders[0].mutation] + MutationsOf(builders[1..])
  }

  ghost function AtOf(builders: seq<Builder>): (at: seq<nat>)
    ensures |at| == |builders|
    ensures forall i :: 0 <= i < |at| ==> at[i] < |Once(builders)| && Once(builders)[at[i]] == builders[i]
  {
    IndexesOf(Once(builders), builders)
  }

  ghost function HooksOf(builders: seq<Builder>): (hooks: seq<seq<Hook>>)
    ensures |hooks| == |builders| && forall i :: 0 <= i < |builders| ==> hooks[i] == builders[i].hooks
  {
    if builders == [] then [] else [builders[0].hooks] + HooksOf(builders[1..])
  }

  // ----- mutators -----

  /** A mutator as the closures of the code are: the part of the builder at position i, or a hook that was called with
      the next mutator. */
  class Mutator {
    const i: nat
    const hook: Option<Hook>
    const next: Mutator?
    /** The hooks that it runs, the outermost first. */
    ghost const hooks: seq<Hook>

    constructor Base(i: nat)
      ensures Valid() && this.i == i && hooks == []
    {
      this.i, hook, next, hooks := i, None, null, [];
    }

    constructor Wrap(hook: Hook, next: Mutator)
      requires next.Valid()
      ensures Valid() && i == next.i && hooks == [hook] + next.hooks
    {
      i, this.hook, this.next, hooks := next.i, Some(hook), next, [hook] + next.hooks;
    }

    ghost predicate Valid()
      decreases |hooks|
    {
      if hook.None? then next == null && hooks == []
      else next != null && hooks == [hook.value] + next.hooks && next.i == i && next.Valid()
    }
  }

  /** Wraps the part of the builder at position i in its hooks, from the last to the first. */
  method WrapHooks(i: nat, hooks: seq<Hook>) returns (mut: Mutator)
    ensures mut.Valid() && mut.i == i && mut.hooks == hooks
  {
    mut := new Mutator.Base(i);
    var k := |hooks|;
    while k > 0
      invariant 0 <= k <= |hooks|
      invariant mut.Valid() && mut.i == i && mut.hooks == hooks[k..]
    {
      k := k - 1;
      mut := new Mutator.Wrap(hooks[k], mut);
      assert hooks[k..] == [hooks[k]] + hooks[k + 1..];
    }
    assert hooks[0..] == hooks;
  }

  // ----- one save -----

  method NoNodes(n: nat) returns (nodes: array<Option<Fields>>)
    ensures fresh(nodes) && nodes.Length == n && nodes[..] == Empty(n)
  {
    nodes := new Option<Fields>[n](_ => None);
  }

  method NoSpecs(n: nat) returns (specs: array<Option<CreateSpec>>)
    ensures fresh(specs) && specs.Length == n && specs[..] == Empty(n)
  {
    specs := new Option<CreateSpec>[n](_ => None);
  }

  ghost function ObjectsOf(builders: seq<Builder>, refs: seq<MutationRef>): set<object> {
    (set b | b in builders) + (set r | r in refs)
  }

  /** What the mutators of one save share. */
  class Saving {
    const code: Template
    const builders: seq<Builder>
    const db: Database
    const mutators: seq<Mutator>
    const nodes: array<Option<Fields>>
    const specs: array<Option<CreateSpec>>
    var issued: seq<Batch>
    /** The variables of the program that the hooks share. */
    var memory: Memory
    ghost const setting: Setting
    /** The builders, each once. */
    ghost const objs: seq<Builder>
    ghost var refs: seq<MutationRef>
    ghost var own: seq<nat>
    ghost var Repr: set<object>

    ghost predicate Fixed() {
      && setting.code == code && setting.refusal == db.refusal
      && |builders| == |setting.hooks| == |setting.at| == |mutators| == nodes.Length == specs.Length
      && (forall i :: 0 <= i < |builders| ==> setting.at[i] < |objs| && objs[setting.at[i]] == builders[i])
      && (forall j, k :: 0 <= j < k < |objs| ==> objs[j] != objs[k])
      && forall i :: 0 <= i < |mutators| ==> Wraps(mutators[i], 0) && mutators[i].i == i
    }

    /** The mutator is the one at its position inside the hooks from the h-th. */
    ghost predicate Wraps(mut: Mutator, h: nat) {
      && mut.Valid() && mut.i < |setting.hooks|
      && h <= |setting.hooks[mut.i]| && mut.hooks == setting.hooks[mut.i][h..]
    }

    ghost predicate Valid()
      reads this, Repr
    {
      && Fixed()
      && {this, db, nodes, specs} <= Repr
      && (forall j :: 0 <= j < |objs| ==> objs[j] in Repr)
      && (forall i :: 0 <= i < |refs| ==> refs[i] in Repr)
      && (forall i, j :: 0 <= i < j < |refs| ==> refs[i] != refs[j])
      && |own| == |objs|
      && forall j :: 0 <= j < |objs| ==> own[j] < |refs| && objs[j].mutation == refs[own[j]]
    }

    ghost function Muts(): seq<Mutation>
      reads this, set r | r in refs
    {
      ValuesOf(refs)
    }

    ghost function Snapshot(): State
      reads this, nodes, specs, db, set r | r in refs
    {
      State(Muts(), own, nodes[..], specs[..], issued, db.stored, memory)
    }

    constructor (
      builders: seq<Builder>, db: Database, mutators: seq<Mutator>, nodes: array<Option<Fields>>,
      specs: array<Option<CreateSpec>>, code: Template, memory: Memory, ghost setting: Setting,
      ghost objs: seq<Builder>, ghost refs: seq<MutationRef>, ghost own: seq<nat>)
      ensures this.code == code && this.builders == builders && this.db == db && this.mutators == mutators
      ensures this.nodes == nodes && this.specs == specs && this.setting == setting && this.objs == objs
      ensures this.refs == refs && this.own == own && issued == [] && this.memory == memory
      ensures Repr == {this, db, nodes, specs} + ObjectsOf(objs, refs)
    {
      this.code, this.builders, this.db, this.mutators := code, builders, db, mutators;
      this.nodes, this.specs, issued, this.memory := nodes, specs, [], memory;
      this.setting, this.objs, this.refs, this.own := setting, objs, refs, own;
      new;
      Repr := {this, db, nodes, specs} + ObjectsOf(objs, refs);
    }

    method SetValue(ref: MutationRef, ghost p: nat, m: Mutation)
      requires Valid() && p < |refs| && refs[p] == ref
      modifies ref
      ensures Valid() && Snapshot() == old(Snapshot()).(muts := old(Muts())[p := m])
    {
      ref.value := m;
      assert Muts() == old(Muts())[p := m];
    }

    /** A mutation that a hook brings along. */
    method Bring(m: Mutation) returns (ref: MutationRef)
      requires Valid()
      modifies this
      ensures fresh(ref) && refs == old(refs) + [ref] && Repr == old(Repr) + {ref}
      ensures Valid() && Snapshot() == old(Snapshot()).(muts := old(Muts()) + [m])
    {
      ref := new MutationRef(m);
      refs, Repr := refs + [ref], Repr + {ref};
      assert Muts() == old(Muts()) + [m];
    }

    method FillSlot(i: nat, ref: MutationRef, ghost p: nat)
      requires Valid() && i < |builders| && p < |refs| && refs[p] == ref
      modifies this`own, {builders[i]}, nodes, specs
      ensures refs == old(refs) && Valid() && Snapshot() == BulkModel.FillSlot(setting, i, p, old(Snapshot()))
    {
      builders[i].mutation := ref;
      own := own[setting.at[i] := p];
      nodes[i], specs[i] := Some(code.node(ref.value)), Some(code.spec(ref.value));
      assert Muts() == old(Muts());
    }

    method Call(mut: Mutator, ghost h: nat, ref: MutationRef, ghost p: nat) returns (err: Option<SaveError>)
      requires Valid() && Wraps(mut, h) && p < |refs| && refs[p] == ref
      modifies Repr
      ensures Valid() && old(refs) <= refs && fresh(Repr - old(Repr))
      ensures (Snapshot(), err) == Run(setting, mut.i, h, p, old(Snapshot()))
      decreases |builders| - mut.i, |mut.hooks|, 2
    {
      if mut.hook.None? {
        err := Perform(mut.i, ref, p);
      } else {
        NextWraps(mut, h);
        err := CallHook(mut.hook.value, mut.next, h, ref, p);
      }
    }

    lemma {:induction false} NextWraps(mut: Mutator, h: nat)
      requires Wraps(mut, h) && mut.hook.Some?
      ensures h < |setting.hooks[mut.i]| && mut.hook.value == setting.hooks[mut.i][h] && Wraps(mut.next, h + 1)
    {
      assert mut.hooks[0] == mut.hook.value && mut.hooks[1..] == mut.next.hooks;
      assert setting.hooks[mut.i][h..][1..] == setting.hooks[mut.i][h + 1..];
    }

    /** Runs a hook, after a call that returned `last`, with a mutation at hand. */
    method CallHook(hook: Hook, next: Mutator, ghost h: nat, ref: MutationRef, ghost p: nat)
      returns (err: Option<SaveError>)
      requires Valid() && Wraps(next, h + 1) && p < |refs| && refs[p] == ref
      modifies Repr
      ensures Valid() && old(refs) <= refs && fresh(Repr - old(Repr))
      ensures (Snapshot(), err) == RunHook(setting, next.i, h, hook, None, p, old(Snapshot()))
      decreases |builders| - next.i, |next.hooks| + 1, 1, hook
    {
      var rest, atHand := hook, ref;
      ghost var q: nat := p;
      err := None;
      while !rest.Return?
        invariant Valid() && old(refs) <= refs && fresh(Repr - old(Repr))
        invariant q < |refs| && refs[q] == atHand && (rest == hook || rest < hook)
        invariant RunHook(setting, next.i, h, rest, err, q, Snapshot()) ==
                  RunHook(setting, next.i, h, hook, None, p, old(Snapshot()))
        decreases rest
      {
        rest, err, atHand, q := Advance(rest, err, next, h, atHand, q);
      }
      err := rest.verdict(err);
    }

    /** One step of a hook: what is left of it, the error of its last call, and the mutation that it goes on with. */
    method Advance(hook: Hook, last: Option<SaveError>, next: Mutator, ghost h: nat, ref: MutationRef, ghost p: nat)
      returns (rest: Hook, err: Option<SaveError>, atHand: MutationRef, ghost q: nat)
      requires Valid() && Wraps(next, h + 1) && p < |refs| && refs[p] == ref && !hook.Return?
      modifies Repr
      ensures Valid() && old(refs) <= refs && fresh(Repr - old(Repr)) && q < |refs| && refs[q] == atHand
      ensures rest < hook
      ensures RunHook(setting, next.i, h, rest, err, q, Snapshot()) ==
              RunHook(setting, next.i, h, hook, last, p, old(Snapshot()))
      decreases |builders| - next.i, |next.hooks| + 1, 0
    {
      err, atHand, q := last, ref, p;
      if hook.OnError? {
        rest := if hook.test(last) then hook.yes else hook.no;
      } else if hook.Look? {
        rest := if hook.sees(memory, ref.value) then hook.yes else hook.no;
      } else {
        rest := hook.more;
        if hook.Next? {
          err := Call(next, h + 1, ref, p);
        } else {
          atHand, q := Change(hook, last, next.i, h, ref, p);
        }
      }
    }

    /** A step of a hook that changes something itself. */
    method Change(hook: Hook, last: Option<SaveError>, ghost i: nat, ghost h: nat, ref: MutationRef, ghost p: nat)
      returns (atHand: MutationRef, ghost q: nat)
      requires Valid() && i < |setting.hooks| && h < |setting.hooks[i]| && p < |refs| && refs[p] == ref
      requires hook.Edit? || hook.Exchange? || hook.Remember?
      modifies this, ref
      ensures Valid() && old(refs) <= refs && fresh(Repr - old(Repr)) && q < |refs| && refs[q] == atHand
      ensures RunHook(setting, i, h, hook.more, last, q, Snapshot()) ==
              RunHook(setting, i, h, hook, last, p, old(Snapshot()))
    {
      atHand, q := ref, p;
      match hook {
        case Edit(edit, _) => SetValue(ref, p, Edited(edit, ref.value));
        case Exchange(make, _) =>
          q := |refs|;
          atHand := Bring(Exchanged(make, ref.value));
        case Remember(update, _) => Note(update(memory, ref.value, last));
      }
    }

    method Note(m: Memory)
      requires Valid()
      modifies this`memory
      ensures Valid() && Snapshot() == old(Snapshot()).(memory := m)
    {
      memory := m;
    }

    /** The mutator of a builder, inside all its hooks. */
    method Perform(i: nat, ref: MutationRef, ghost p: nat) returns (err: Option<SaveError>)
      requires Valid() && i < |builders| && p < |refs| && refs[p] == ref
      modifies Repr
      ensures Valid() && old(refs) <= refs && fresh(Repr - old(Repr))
      ensures (Snapshot(), err) == Base(setting, i, p, old(Snapshot()))
      decreases |builders| - i, 0, 1
    {
      var invalid := code.check(builders[i].mutation.value);
      if invalid.Some? { return Some(CheckFailed(invalid.value)); }
      FillSlot(i, ref, p);
      err := CallNext(i);
      if err.Some? { return; }
      var node := nodes[i];
      var id := if node.Some? then Some(code.id(node.value)) else ref.value.id;
      SetValue(ref, p, ref.value.(id := id, done := true));
    }

    method CallNext(i: nat) returns (err: Option<SaveError>)
      requires Valid() && i < |builders|
      modifies Repr
      ensures Valid() && old(refs) <= refs && fresh(Repr - old(Repr))
      ensures (Snapshot(), err) == Proceed(setting, i, old(Snapshot()))
      decreases |builders| - i, 0, 0
    {
      if i + 1 < |builders| {
        err := Call(mutators[i + 1], 0, builders[i + 1].mutation, own[setting.at[i + 1]]);
      } else {
        issued := issued + [specs[..]];
        var refusal := db.BatchCreate(specs[..]);
        assert Muts() == old(Muts());
        err := if refusal.Some? then Some(Refused(refusal.value)) else None;
      }
    }
  }

  // ----- the bulk builder -----

  class CreateBulk {
    const code: Template
    const builders: seq<Builder>
    const db: Database
    const err: Option<SaveError>
    ghost const setting: Setting
    ghost const objs: seq<Builder>

    constructor (code: Template, builders: seq<Builder>, db: Database, err: Option<SaveError>)
      ensures Valid() && this.code == code && this.builders == builders && this.db == db && this.err == err
      ensures Made()
    {
      this.code, this.builders, this.db, this.err := code, builders, db, err;
      setting, objs := Setting(code, AtOf(builders), HooksOf(builders), db.refusal), Once(builders);
    }

    ghost predicate Made() {
      objs == Once(builders) && setting == Setting(code, AtOf(builders), HooksOf(builders), db.refusal)
    }

    /** `objs` lists the builders, each once. */
    ghost predicate Valid() {
      && setting.code == code && setting.refusal == db.refusal
      && |builders| == |setting.hooks| == |setting.at|
      && (forall i :: 0 <= i < |builders| ==> setting.hooks[i] == builders[i].hooks)
      && (forall i :: 0 <= i < |builders| ==> setting.at[i] < |objs| && objs[setting.at[i]] == builders[i])
      && forall j, k :: 0 <= j < k < |objs| ==> objs[j] != objs[k]
    }

    /** `refs` lists the mutation objects of the builders, each once, and `own` says which one each builder refers
        to. */
    ghost predicate Lists(refs: seq<MutationRef>, own: seq<nat>)
      reads objs
    {
      && (forall i, j :: 0 <= i < j < |refs| ==> refs[i] != refs[j])
      && |own| == |objs|
      && forall j :: 0 <= j < |objs| ==> own[j] < |refs| && objs[j].mutation == refs[own[j]]
    }

    /** The mutation objects of the builders, each once. */
    ghost function Refs(): (refs: seq<MutationRef>)
      reads objs
    {
      Once(MutationsOf(objs))
    }

    ghost function Owns(): (own: seq<nat>)
      reads objs
    {
      IndexesOf(Refs(), MutationsOf(objs))
    }

    lemma {:induction false} HasLists()
      ensures Lists(Refs(), Owns())
    {
      var mutations := MutationsOf(objs);
      assert forall j :: 0 <= j < |objs| ==> Owns()[j] < |Refs()| && mutations[j] == Refs()[Owns()[j]];
    }

    /** The mutation object at each position. */
    ghost function Positions(own: seq<nat>): (at: seq<nat>)
      requires Valid() && |own| == |objs|
      ensures |at| == |builders| && forall i :: 0 <= i < |at| ==> at[i] == own[setting.at[i]]
    {
      Follow(setting.at, own)
    }

    /** The mutation object of each position is in the list. */
    ghost predicate Placed(refs: seq<MutationRef>, at: seq<nat>)
      reads builders
    {
      && (forall i, j :: 0 <= i < j < |refs| ==> refs[i] != refs[j])
      && |at| == |builders|
      && forall i :: 0 <= i < |at| ==> at[i] < |refs| && refs[at[i]] == builders[i].mutation
    }

    lemma {:induction false} ListsArePlaced(refs: seq<MutationRef>, own: seq<nat>)
      requires Valid() && Lists(refs, own)
      ensures Placed(refs, Positions(own))
    {
    }

    /** Fills in the defaults of every builder and makes its mutator. */
    method MakeMutators(ids: seq<nat>, times: seq<Times>, ghost refs: seq<MutationRef>, ghost at: seq<nat>)
      returns (mutators: seq<Mutator>)
      requires |ids| == |times| == |builders| && Placed(refs, at)
      modifies refs
      ensures ValuesOf(refs) == FillIn(code, at, old(ValuesOf(refs)), ids, times)
      ensures |mutators| == |builders| && AllMade(mutators)
    {
      ghost var was := ValuesOf(refs);
      mutators := [];
      for i := 0 to |builders|
        invariant FilledTo(i, ids, times, refs, at, was)
        invariant |mutators| == i && AllMade(mutators)
      {
        FillNext(i, ids, times, refs, at, was);
        mutators := MakeNext(mutators);
      }
      FilledToEnd(ids, times, refs, at, was);
    }

    method MakeNext(mutators: seq<Mutator>) returns (more: seq<Mutator>)
      requires |mutators| < |builders| && AllMade(mutators)
      ensures |more| == |mutators| + 1 && AllMade(more)
    {
      var mut := WrapHooks(|mutators|, builders[|mutators|].hooks);
      more := mutators + [mut];
    }

    ghost predicate FilledTo(
      i: nat, ids: seq<nat>, times: seq<Times>, refs: seq<MutationRef>, at: seq<nat>, was: seq<Mutation>)
      reads builders, refs
    {
      && i <= |builders| == |ids| == |times| && |was| == |refs| && Placed(refs, at)
      && ValuesOf(refs) == FillIn(code, at[..i], was, ids, times)
    }

    lemma {:induction false} FilledToEnd(
      ids: seq<nat>, times: seq<Times>, refs: seq<MutationRef>, at: seq<nat>, was: seq<Mutation>)
      requires FilledTo(|builders|, ids, times, refs, at, was)
      ensures ValuesOf(refs) == FillIn(code, at, was, ids, times)
    {
      assert at[..|builders|] == at;
    }

    method FillNext(
      i: nat, ids: seq<nat>, times: seq<Times>, ghost refs: seq<MutationRef>, ghost at: seq<nat>,
      ghost was: seq<Mutation>)
      requires i < |builders| && FilledTo(i, ids, times, refs, at, was)
      modifies refs
      ensures FilledTo(i + 1, ids, times, refs, at, was)
    {
      FillOneMore(code, at, was, ids, times, i);
      FillDefaults(builders[i], ids[i], times[i], refs, at[i]);
    }

    ghost predicate AllMade(mutators: seq<Mutator>) {
      && |mutators| <= |builders|
      && forall i :: 0 <= i < |mutators| ==>
           mutators[i].Valid() && mutators[i].i == i && mutators[i].hooks == builders[i].hooks
    }

    method FillDefaults(builder: Builder, id: nat, times: Times, ghost refs: seq<MutationRef>, ghost p: nat)
      requires forall i, j :: 0 <= i < j < |refs| ==> refs[i] != refs[j]
      requires p < |refs| && refs[p] == builder.mutation
      modifies refs[p]
      ensures ValuesOf(refs) == old(ValuesOf(refs))[p := code.defaults(old(ValuesOf(refs))[p], id, times)]
    {
      var mutation := builder.mutation;
      mutation.value := code.defaults(mutation.value, id, times);
    }

    /** What a save does that starts from these mutations and batches: fills in the defaults, and runs the machine. */
    ghost predicate Saves(
      own: seq<nat>, muts: seq<Mutation>, stored: seq<Batch>, ids: seq<nat>, times: seq<Times>, memory: Memory,
      nodes: seq<Option<Fields>>, failure: Option<SaveError>, t: State)
    {
      && Valid() && |own| == |objs| && |ids| == |times| == |builders|
      && (forall i :: 0 <= i < |builders| ==> Positions(own)[i] < |muts|)
      && var filled := FillIn(code, Positions(own), muts, ids, times);
         && Composed(setting, own, filled)
         && (t, failure) == BulkModel.Save(setting, own, filled, stored, memory)
         && nodes == if failure.None? then t.nodes else []
    }

    /** Saves all builders, unless the bulk builder could not be made. Builders may be repeated, and may share
        mutations. */
    method Save(ids: seq<nat>, times: seq<Times>, memory: Memory)
      returns (nodes: seq<Option<Fields>>, failure: Option<SaveError>, ghost t: State, ghost all: seq<MutationRef>)
      requires |ids| == |times| == |builders| && Valid()
      modifies objs, Refs(), db
      ensures err.Some? ==>
                && failure == err && nodes == []
                && t == Start(setting, old(Owns()), old(ValuesOf(Refs())), old(db.stored), memory)
      ensures err.None? ==>
                Saves(old(Owns()), old(ValuesOf(Refs())), old(db.stored), ids, times, memory, nodes, failure, t)
      ensures db.stored == t.stored && old(Refs()) <= all && ValuesOf(all) == t.muts && Lists(all, t.own)
    {
      HasLists();
      nodes, failure, t, all := SaveListed(ids, times, memory, Refs(), Owns());
    }

    method SaveListed(
      ids: seq<nat>, times: seq<Times>, memory: Memory, ghost refs: seq<MutationRef>, ghost own: seq<nat>)
      returns (nodes: seq<Option<Fields>>, failure: Option<SaveError>, ghost t: State, ghost all: seq<MutationRef>)
      requires |ids| == |times| == |builders| && Valid() && Lists(refs, own)
      modifies objs, refs, db
      ensures err.Some? ==>
                failure == err && nodes == [] && t == Start(setting, own, old(ValuesOf(refs)), old(db.stored), memory)
      ensures err.None? ==>
                Saves(own, old(ValuesOf(refs)), old(db.stored), ids, times, memory, nodes, failure, t)
      ensures db.stored == t.stored && refs <= all && ValuesOf(all) == t.muts && Lists(all, t.own)
    {
      if err.Some? { return [], err, Start(setting, own, ValuesOf(refs), db.stored, memory), refs; }
      ListsArePlaced(refs, own);
      var mutators := MakeMutators(ids, times, refs, Positions(own));
      nodes, failure, t, all := SaveAll(mutators, memory, refs, own);
    }

    /** Calls the first mutator. */
    method SaveAll(mutators: seq<Mutator>, memory: Memory, ghost refs: seq<MutationRef>, ghost own: seq<nat>)
      returns (nodes: seq<Option<Fields>>, failure: Option<SaveError>, ghost t: State, ghost all: seq<MutationRef>)
      requires Valid() && Lists(refs, own)
      requires |mutators| == |builders| && AllMade(mutators)
      modifies objs, refs, db
      ensures Composed(setting, own, old(ValuesOf(refs)))
      ensures (t, failure) == BulkModel.Save(setting, own, old(ValuesOf(refs)), old(db.stored), memory)
      ensures nodes == if failure.None? then t.nodes else []
      ensures db.stored == t.stored && refs <= all && ValuesOf(all) == t.muts && Lists(all, t.own)
    {
      var saving := Begin(mutators, memory, refs, own);
      failure := RunFirst(saving);
      t, all := saving.Snapshot(), saving.refs;
      nodes := if failure.None? then saving.nodes[..] else [];
    }

    /** The slots of a new save. */
    method Begin(mutators: seq<Mutator>, memory: Memory, ghost refs: seq<MutationRef>, ghost own: seq<nat>)
      returns (saving: Saving)
      requires Valid() && Lists(refs, own)
      requires |mutators| == |builders| && AllMade(mutators)
      ensures saving.Valid() && fresh(saving) && fresh(saving.nodes) && fresh(saving.specs)
      ensures forall o :: o in saving.Repr ==> fresh(o) || o == db || o in objs || o in refs
      ensures saving.setting == setting && saving.objs == objs && saving.db == db
      ensures saving.refs == refs && saving.own == own
      ensures saving.Snapshot() == Start(setting, own, ValuesOf(refs), db.stored, memory)
    {
      var slots := NoNodes(|builders|);
      var specs := NoSpecs(|builders|);
      saving := new Saving(builders, db, mutators, slots, specs, code, memory, setting, objs, refs, own);
      assert forall i :: 0 <= i < |mutators| ==> saving.Wraps(mutators[i], 0);
    }

    method RunFirst(saving: Saving) returns (failure: Option<SaveError>)
      requires saving.Valid() && saving.issued == []
      requires saving.Snapshot() == Start(saving.setting, saving.own, saving.Muts(), saving.db.stored, saving.memory)
      modifies saving.Repr
      ensures saving.Valid() && old(saving.refs) <= saving.refs
      ensures Composed(saving.setting, old(saving.own), old(saving.Muts()))
      ensures (saving.Snapshot(), failure) ==
              BulkModel.Save(
                saving.setting, old(saving.own), old(saving.Muts()), old(saving.db.stored), old(saving.memory))
    {
      if |saving.builders| == 0 { return None; }
      failure := saving.Call(saving.mutators[0], 0, saving.builders[0].mutation, saving.own[saving.setting.at[0]]);
    }

    // ----- distinct builders -----

    /** No builder is repeated and no mutation shared. */
    ghost predicate Apart()
      reads builders
    {
      && (forall i, j :: 0 <= i < j < |builders| ==> builders[i] != builders[j])
      && forall i, j :: 0 <= i < j < |builders| ==> builders[i].mutation != builders[j].mutation
    }

    /** The mutations with their defaults. */
    ghost function Filled(ids: seq<nat>, times: seq<Times>): (muts: seq<Mutation>)
      requires |ids| == |times| == |builders|
      reads builders, MutationsOf(builders)
      ensures |muts| == |builders|
    {
      Defaulted(code, ValuesOf(MutationsOf(builders)), ids, times)
    }

    /** Each builder is at its own position, with its own mutation. */
    lemma {:induction false} ApartLists()
      requires Made() && Apart()
      ensures objs == builders && setting.at == Identity(|builders|)
    {
      DistinctBuilders(builders);
    }

    lemma {:induction false} OwnMutations()
      requires objs == builders
      requires forall i, j :: 0 <= i < j < |builders| ==> builders[i].mutation != builders[j].mutation
      ensures Lists(MutationsOf(builders), Identity(|builders|))
    {
      var refs := MutationsOf(builders);
      forall j | 0 <= j < |builders| ensures refs[Identity(|builders|)[j]] == builders[j].mutation {
      }
    }

    /** The builders' mutations are those of the machine; an object is the one it was if the machine refers to it as
        before. */
    ghost predicate Shows(t: State, was: seq<MutationRef>)
      reads builders, MutationsOf(builders)
    {
      && |was| == |t.own| == |builders|
      && forall j :: 0 <= j < |builders| ==>
           && t.own[j] < |t.muts| && builders[j].mutation.value == t.muts[t.own[j]]
           && (builders[j].mutation == was[j] <==> t.own[j] == j)
    }

    lemma {:induction false} ListsShow(t: State, was: seq<MutationRef>, all: seq<MutationRef>)
      requires objs == builders && Lists(all, t.own) && ValuesOf(all) == t.muts && was <= all
      requires |was| == |builders|
      ensures Shows(t, was)
    {
      forall j | 0 <= j < |builders|
        ensures t.own[j] < |t.muts| && builders[j].mutation.value == t.muts[t.own[j]]
        ensures builders[j].mutation == was[j] <==> t.own[j] == j
      {
        assert builders[j].mutation == all[t.own[j]] && was[j] == all[j];
      }
    }

    /** How a save of distinct builders ends that starts with these mutations. */
    ghost predicate Ended(
      muts: seq<Mutation>, was: seq<MutationRef>, stored: seq<Batch>, nodes: seq<Option<Fields>>,
      failure: Option<SaveError>)
      requires |muts| == |was| == |builders| == |setting.hooks| > 0
      reads db, builders, MutationsOf(builders)
    {
      var k := BulkOutcome.FirstInvalid(setting, 0, muts);
      var answer := BulkOutcome.AnswerOf(setting, muts, stored);
      && BulkOutcome.Sent(setting, muts, stored, db.stored, nodes, failure)
      && forall j :: 0 <= j < |builders| ==>
           && builders[j].mutation.value == BulkOutcome.Final(setting, j, k, answer, muts[j])
           && (builders[j].mutation == was[j] <==> !(j < k && BulkOutcome.SwapsFrom(setting, j, 0)))
    }

    /** Everything was stored, the mutation of every builder is done and the save succeeds, or none of this. */
    ghost predicate AllOrNone(stored: seq<Batch>, failure: Option<SaveError>)
      reads db, builders, MutationsOf(builders)
    {
      && (failure.None? <==> db.stored != stored)
      && forall j :: 0 <= j < |builders| ==> (builders[j].mutation.value.done <==> db.stored != stored)
    }

    lemma {:induction false} ShownEnds(
      muts: seq<Mutation>, was: seq<MutationRef>, stored: seq<Batch>, memory: Memory, nodes: seq<Option<Fields>>,
      failure: Option<SaveError>, t: State)
      requires |muts| == |was| == |builders| == |setting.hooks| > 0 && setting.code == code
      requires BulkOutcome.Separate(setting, muts) && BulkOutcome.AllOnce(setting)
      requires (t, failure) == BulkOutcome.SaveEach(setting, muts, stored, memory) && Shows(t, was)
      requires nodes == (if failure.None? then t.nodes else []) && db.stored == t.stored
      ensures Ended(muts, was, stored, nodes, failure)
    {
      BulkOutcome.SaveOutcome(setting, muts, stored, memory);
      var s := Start(setting, Identity(|muts|), muts, stored, memory);
      var k := BulkOutcome.FirstInvalid(setting, 0, muts);
      var answer := BulkOutcome.AnswerOf(setting, muts, stored);
      forall j | 0 <= j < |builders|
        ensures builders[j].mutation.value == BulkOutcome.Final(setting, j, k, answer, muts[j])
        ensures builders[j].mutation == was[j] <==> !(j < k && BulkOutcome.SwapsFrom(setting, j, 0))
      {
        assert BulkOutcome.Refers(setting, j, k, answer, s, t);
      }
    }

    lemma {:induction false} ShownAllOrNone(
      muts: seq<Mutation>, was: seq<MutationRef>, stored: seq<Batch>, memory: Memory, failure: Option<SaveError>,
      t: State)
      requires |muts| == |builders| && BulkOutcome.Separate(setting, muts)
      requires (t, failure) == BulkOutcome.SaveEach(setting, muts, stored, memory) && Shows(t, was)
      requires db.stored == t.stored
      ensures AllOrNone(stored, failure) <==> BulkOutcome.AllOrNone(setting, muts, stored, memory)
    {
    }

    /** Saves distinct builders, each with a mutation of its own, whose hooks call on once. If some builder's own
        mutation does not pass the checks when it gets to them, nothing is stored; otherwise one batch is sent, with
        what reaches builder i in slot i. It is all or nothing if and only if the answer comes out of the hooks of every
        builder. */
    method SaveApart(ids: seq<nat>, times: seq<Times>, memory: Memory)
      returns (nodes: seq<Option<Fields>>, failure: Option<SaveError>)
      requires |ids| == |times| == |builders| == |setting.hooks| > 0 && Valid() && Made() && Apart() && err.None?
      requires BulkOutcome.AllOnce(setting) && forall i :: 0 <= i < |builders| ==> !Filled(ids, times)[i].done
      modifies builders, MutationsOf(builders), db
      ensures Ended(old(Filled(ids, times)), old(MutationsOf(builders)), old(db.stored), nodes, failure)
      ensures var muts := old(Filled(ids, times));
              AllOrNone(old(db.stored), failure) <==>
              BulkOutcome.AnswerReturns(
                setting, BulkOutcome.Last(setting, BulkOutcome.FirstInvalid(setting, 0, muts)),
                BulkOutcome.AnswerOf(setting, muts, old(db.stored)))
    {
      ghost var muts, stored, was := Filled(ids, times), db.stored, MutationsOf(builders);
      ghost var t: State;
      nodes, failure, t := SaveEachApart(ids, times, memory);
      EachIsApart(muts);
      ShownEnds(muts, was, stored, memory, nodes, failure, t);
      ShownAllOrNone(muts, was, stored, memory, failure, t);
      BulkOutcome.AllOrNoneIff(setting, muts, stored, memory);
    }

    lemma {:induction false} EachIsApart(muts: seq<Mutation>)
      requires setting.at == Identity(|builders|) && |setting.hooks| == |muts| == |builders|
      requires forall i :: 0 <= i < |muts| ==> !muts[i].done
      ensures BulkOutcome.Separate(setting, muts)
    {
    }

    lemma {:induction false} SavesEach(
      muts: seq<Mutation>, stored: seq<Batch>, ids: seq<nat>, times: seq<Times>, memory: Memory,
      nodes: seq<Option<Fields>>, failure: Option<SaveError>, t: State)
      requires |muts| == |builders| && setting.at == Identity(|builders|)
      requires Saves(Identity(|builders|), muts, stored, ids, times, memory, nodes, failure, t)
      ensures |setting.hooks| == |builders|
      ensures (t, failure) == BulkOutcome.SaveEach(setting, Defaulted(code, muts, ids, times), stored, memory)
      ensures nodes == if failure.None? then t.nodes else []
    {
      assert Positions(Identity(|builders|)) == Identity(|builders|);
    }

    method SaveEachApart(ids: seq<nat>, times: seq<Times>, memory: Memory)
      returns (nodes: seq<Option<Fields>>, failure: Option<SaveError>, ghost t: State)
      requires |ids| == |times| == |builders| && Valid() && Made() && Apart() && err.None?
      modifies builders, MutationsOf(builders), db
      ensures setting.at == Identity(|builders|) && |setting.hooks| == |builders|
      ensures (t, failure) == BulkOutcome.SaveEach(setting, old(Filled(ids, times)), old(db.stored), memory)
      ensures nodes == (if failure.None? then t.nodes else []) && db.stored == t.stored
      ensures Shows(t, old(MutationsOf(builders)))
    {
      ApartLists();
      OwnMutations();
      ghost var was := MutationsOf(builders);
      assert Lists(was, Identity(|builders|));
      ghost var muts, stored := ValuesOf(was), db.stored;
      ghost var all: seq<MutationRef>;
      nodes, failure, t, all := SaveListed(ids, times, memory, was, Identity(|builders|));
      SavesEach(muts, stored, ids, times, memory, nodes, failure, t);
      ListsShow(t, was, all);
    }
  }

  lemma {:induction false} FillOneMore(
    code: Template, refs: seq<nat>, muts: seq<Mutation>, ids: seq<nat>, times: seq<Times>, i: nat)
    requires i < |refs| <= |ids| && |refs| <= |times| && forall i :: 0 <= i < |refs| ==> refs[i] < |muts|
    ensures var ms := FillIn(code, refs[..i], muts, ids, times);
            FillIn(code, refs[..i + 1], muts, ids, times) ==
            ms[refs[i] := code.defaults(ms[refs[i]], ids[i], times[i])]
  {
    assert refs[..i + 1][..i] == refs[..i];
  }

  ghost function Follow(at: seq<nat>, own: seq<nat>): (refs: seq<nat>)
    requires forall i :: 0 <= i < |at| ==> at[i] < |own|
    ensures |refs| == |at| && forall i :: 0 <= i < |at| ==> refs[i] == own[at[i]]
  {
    if at == [] then [] else [own[at[0]]] + Follow(at[1..], own)
  }

  /** Distinct builders are saved each at its own position. */
  lemma {:induction false} DistinctBuilders(builders: seq<Builder>)
    requires forall i, j :: 0 <= i < j < |builders| ==> builders[i] != builders[j]
    ensures AtOf(builders) == Identity(|builders|) && Once(builders) == builders
  {
    DistinctIndexes(builders);
  }
}
