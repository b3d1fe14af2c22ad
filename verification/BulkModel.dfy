/**
Saving many builders at once, as a state machine. Each builder's mutator runs inside the builder's hooks, fills the slot
of the builder, and calls the mutator of the next builder; the mutator of the last builder issues the one insert.
*/
module BulkModel {
  import opened Plans
  import opened Entities
  import opened Wrappers

  datatype SaveError = CheckFailed(error: Error) | HookFailed(reason: string) | Refused(reason: string)

  /** What hooks share with each other and keep from one call to the next. */
  type Memory = seq<int>

  /** A hook edits the mutation in place, goes on with another one, and calls the next mutator, any number of times and
      in any order. It decides what comes next by the error of its last call, by the mutation, and by what it
      remembers. */
  datatype Hook =
    | Return(verdict: Option<SaveError> -> Option<SaveError>)
    | Edit(edit: Mutation -> Mutation, more: Hook)
    | Exchange(make: Mutation -> Mutation, more: Hook)
    | Next(more: Hook)
    | OnError(test: Option<SaveError> -> bool, yes: Hook, no: Hook)
    | Look(sees: (Memory, Mutation) -> bool, yes: Hook, no: Hook)
    | Remember(update: (Memory, Mutation, Option<SaveError>) -> Memory, more: Hook)

  type Batch = seq<Option<CreateSpec>>

  /** The generated code of an entity that a save calls: the defaults for a given identifier and clock, the checks, the
      node and the specification of the insert. */
  datatype Template = Template(
    defaults: (Mutation, nat, Times) -> Mutation, check: Mutation -> Option<Error>, node: Mutation -> Fields,
    spec: Mutation -> CreateSpec, id: Fields -> nat)

  /** What stays the same during a save: which builder is at each position of the bulk, the hooks at each position, and
      what the database says to a batch, given the batches it has stored. */
  datatype Setting = Setting(
    code: Template, at: seq<nat>, hooks: seq<seq<Hook>>, refusal: (seq<Batch>, Batch) -> Option<string>)

  /** `muts` holds every mutation object and `own` says which one each builder refers to. `nodes` and `specs` have a
      slot for each position. `issued` are the inserts sent to the database and `stored` those that it accepted. */
  datatype State = State(
    muts: seq<Mutation>, own: seq<nat>, nodes: seq<Option<Fields>>, specs: Batch, issued: seq<Batch>,
    stored: seq<Batch>, memory: Memory)

  /** Hooks have no access to the flag of a mutation. */
  function Edited(edit: Mutation -> Mutation, m: Mutation): Mutation {
    edit(m).(done := m.done)
  }

  /** A new mutation object, made from the one at hand. */
  function Exchanged(make: Mutation -> Mutation, m: Mutation): Mutation {
    make(m).(done := false)
  }

  ghost predicate Valid(b: Setting, s: State) {
    && |b.at| == |s.nodes| == |s.specs| == |b.hooks|
    && (forall i :: 0 <= i < |b.at| ==> b.at[i] < |s.own|)
    && forall k :: 0 <= k < |s.own| ==> s.own[k] < |s.muts|
  }

  /** The mutation object that the builder at position i refers to. */
  function Own(b: Setting, i: nat, s: State): (p: nat)
    requires Valid(b, s) && i < |b.hooks|
    ensures p < |s.muts|
  {
    s.own[b.at[i]]
  }

  // ----- the machine -----

  /** The mutator at position i inside the hooks from the h-th, called with mutation object p. */
  function Run(b: Setting, i: nat, h: nat, p: nat, s: State): (r: (State, Option<SaveError>))
    requires Valid(b, s) && i < |b.hooks| && h <= |b.hooks[i]| && p < |s.muts|
    ensures Valid(b, r.0) && |s.muts| <= |r.0.muts|
    decreases |b.hooks| - i, |b.hooks[i]| - h, 2
  {
    if h == |b.hooks[i]| then Base(b, i, p, s) else RunHook(b, i, h, b.hooks[i][h], None, p, s)
  }

  /** What is left of the h-th hook, after a call that returned `last`, with mutation object p at hand. */
  function RunHook(b: Setting, i: nat, h: nat, hook: Hook, last: Option<SaveError>, p: nat, s: State)
    : (r: (State, Option<SaveError>))
    requires Valid(b, s) && i < |b.hooks| && h < |b.hooks[i]| && p < |s.muts|
    ensures Valid(b, r.0) && |s.muts| <= |r.0.muts|
    decreases |b.hooks| - i, |b.hooks[i]| - h, 1, hook
  {
    match hook
    case Return(verdict) => (s, verdict(last))
    case Edit(edit, more) => RunHook(b, i, h, more, last, p, s.(muts := s.muts[p := Edited(edit, s.muts[p])]))
    case Exchange(make, more) =>
      RunHook(b, i, h, more, last, |s.muts|, s.(muts := s.muts + [Exchanged(make, s.muts[p])]))
    case Next(more) =>
      var (t, err) := Run(b, i, h + 1, p, s);
      RunHook(b, i, h, more, err, p, t)
    case OnError(test, yes, no) => RunHook(b, i, h, if test(last) then yes else no, last, p, s)
    case Look(sees, yes, no) => RunHook(b, i, h, if sees(s.memory, s.muts[p]) then yes else no, last, p, s)
    case Remember(update, more) =>
      RunHook(b, i, h, more, last, p, s.(memory := update(s.memory, s.muts[p], last)))
  }

  /** Checks the builder's own mutation, then adopts the one it is called with. */
  function Base(b: Setting, i: nat, p: nat, s: State): (r: (State, Option<SaveError>))
    requires Valid(b, s) && i < |b.hooks| && p < |s.muts|
    ensures Valid(b, r.0) && |s.muts| <= |r.0.muts|
    decreases |b.hooks| - i, 0, 1
  {
    var invalid := b.code.check(s.muts[Own(b, i, s)]);
    if invalid.Some? then (s, Some(CheckFailed(invalid.value)))
    else
      var filled := FillSlot(b, i, p, s);
      var (t, err) := Proceed(b, i, filled);
      if err.Some? then (t, err) else (t.(muts := t.muts[p := Complete(b, t.muts[p], t.nodes[i])]), None)
  }

  /** The mutator of the next builder, or the insert. */
  function Proceed(b: Setting, i: nat, s: State): (r: (State, Option<SaveError>))
    requires Valid(b, s) && i < |b.hooks|
    ensures Valid(b, r.0) && |s.muts| <= |r.0.muts|
    decreases |b.hooks| - i, 0, 0
  {
    if i + 1 < |b.hooks| then Run(b, i + 1, 0, Own(b, i + 1, s), s) else Issue(b, s)
  }

  function FillSlot(b: Setting, i: nat, p: nat, s: State): (t: State)
    requires Valid(b, s) && i < |b.hooks| && p < |s.muts|
    ensures Valid(b, t)
  {
    s.(own := s.own[b.at[i] := p], nodes := s.nodes[i := Some(b.code.node(s.muts[p]))],
       specs := s.specs[i := Some(b.code.spec(s.muts[p]))])
  }

  /** The one insert of all slots. */
  function Issue(b: Setting, s: State): (r: (State, Option<SaveError>))
    requires Valid(b, s)
    ensures Valid(b, r.0)
  {
    var refusal := b.refusal(s.stored, s.specs);
    var t := s.(issued := s.issued + [s.specs]);
    if refusal.Some? then (t, Some(Refused(refusal.value))) else (t.(stored := t.stored + [s.specs]), None)
  }

  function Complete(b: Setting, m: Mutation, node: Option<Fields>): Mutation {
    m.(id := if node.Some? then Some(b.code.id(node.value)) else m.id, done := true)
  }

  /** A save starts with empty slots. */
  function Start(b: Setting, own: seq<nat>, muts: seq<Mutation>, stored: seq<Batch>, memory: Memory): State {
    State(muts, own, Empty(|b.hooks|), Empty(|b.hooks|), [], stored, memory)
  }

  /** Every position has a builder and every builder a mutation; builders may be repeated and share mutations. */
  predicate Composed(b: Setting, own: seq<nat>, muts: seq<Mutation>) {
    && |b.at| == |b.hooks|
    && (forall i :: 0 <= i < |b.at| ==> b.at[i] < |own|)
    && forall k :: 0 <= k < |own| ==> own[k] < |muts|
  }

  function Identity(n: nat): (s: seq<nat>)
    ensures |s| == n && forall i :: 0 <= i < n ==> s[i] == i
  {
    if n == 0 then [] else Identity(n - 1) + [n - 1]
  }

  function Empty<T>(n: nat): (s: seq<Option<T>>)
    ensures |s| == n && forall i :: 0 <= i < n ==> s[i].None?
  {
    if n == 0 then [] else Empty(n - 1) + [None]
  }

  /** Fills in the defaults of the listed mutation objects, one after the other; each call of the clock and of the
      generator of identifiers gives its own value. */
  function FillIn(code: Template, refs: seq<nat>, muts: seq<Mutation>, ids: seq<nat>, times: seq<Times>)
    : (ms: seq<Mutation>)
    requires |refs| <= |ids| && |refs| <= |times| && forall i :: 0 <= i < |refs| ==> refs[i] < |muts|
    ensures |ms| == |muts|
  {
    if refs == [] then muts
    else
      var last := |refs| - 1;
      var ms := FillIn(code, refs[..last], muts, ids, times);
      ms[refs[last] := code.defaults(ms[refs[last]], ids[last], times[last])]
  }

  lemma {:induction false} FillInKeeps(
    code: Template, refs: seq<nat>, muts: seq<Mutation>, ids: seq<nat>, times: seq<Times>, k: nat)
    requires |refs| <= |ids| && |refs| <= |times| && forall i :: 0 <= i < |refs| ==> refs[i] < |muts|
    requires k < |muts| && k !in refs
    ensures FillIn(code, refs, muts, ids, times)[k] == muts[k]
  {
    if refs != [] {
      var last := |refs| - 1;
      assert refs[last] in refs && k !in refs[..last];
      FillInKeeps(code, refs[..last], muts, ids, times, k);
    }
  }

  /** A mutation that is not shared gets its own defaults. */
  lemma {:induction false} FillInAt(
    code: Template, refs: seq<nat>, muts: seq<Mutation>, ids: seq<nat>, times: seq<Times>, i: nat)
    requires |refs| <= |ids| && |refs| <= |times| && forall i :: 0 <= i < |refs| ==> refs[i] < |muts|
    requires i < |refs| && refs[i] !in refs[..i] && refs[i] !in refs[i + 1..]
    ensures FillIn(code, refs, muts, ids, times)[refs[i]] == code.defaults(muts[refs[i]], ids[i], times[i])
  {
    var last := |refs| - 1;
    if i == last {
      FillInKeeps(code, refs[..last], muts, ids, times, refs[last]);
    } else {
      assert refs[i + 1..][last - i - 1] == refs[last];
      assert refs[..last][..i] == refs[..i] && refs[..last][i + 1..] == refs[i + 1..][..last - i - 1];
      FillInAt(code, refs[..last], muts, ids, times, i);
    }
  }

  /** A mutation that is shared, or belongs to a repeated builder, gets the defaults of its first position, if filling
      in defaults twice is the same as once. */
  lemma {:induction false} FillInShared(
    code: Template, refs: seq<nat>, muts: seq<Mutation>, ids: seq<nat>, times: seq<Times>, i: nat)
    requires |refs| <= |ids| && |refs| <= |times| && forall i :: 0 <= i < |refs| ==> refs[i] < |muts|
    requires i < |refs| && refs[i] !in refs[..i]
    requires forall m, id, t, id', t' {:trigger code.defaults(code.defaults(m, id, t), id', t')} ::
               code.defaults(code.defaults(m, id, t), id', t') == code.defaults(m, id, t)
    ensures FillIn(code, refs, muts, ids, times)[refs[i]] == code.defaults(muts[refs[i]], ids[i], times[i])
  {
    var last := |refs| - 1;
    if i == last {
      FillInKeeps(code, refs[..last], muts, ids, times, refs[last]);
    } else {
      assert refs[..last][..i] == refs[..i];
      FillInShared(code, refs[..last], muts, ids, times, i);
    }
  }

  /** The mutations of distinct builders after their defaults. */
  function Defaulted(code: Template, muts: seq<Mutation>, ids: seq<nat>, times: seq<Times>): (ms: seq<Mutation>)
    requires |muts| == |ids| == |times|
    ensures |ms| == |muts|
  {
    FillIn(code, Identity(|muts|), muts, ids, times)
  }

  function Save(b: Setting, own: seq<nat>, muts: seq<Mutation>, stored: seq<Batch>, memory: Memory)
    : (r: (State, Option<SaveError>))
    requires Composed(b, own, muts)
    ensures Valid(b, r.0)
  {
    var s := Start(b, own, muts, stored, memory);
    if |b.hooks| == 0 then (s, None) else Run(b, 0, 0, Own(b, 0, s), s)
  }

  // ----- every insert is complete, and checked -----

  predicate Keeps(hook: Hook) {
    match hook
    case Return(_) => true
    case Edit(_, more) => Keeps(more)
    case Exchange(_, _) => false
    case Next(more) => Keeps(more)
    case OnError(_, yes, no) => Keeps(yes) && Keeps(no)
    case Look(_, yes, no) => Keeps(yes) && Keeps(no)
    case Remember(_, more) => Keeps(more)
  }

  /** No hook exchanges a mutation for another. */
  predicate AllKeep(b: Setting) {
    forall i, h :: 0 <= i < |b.hooks| && 0 <= h < |b.hooks[i]| ==> Keeps(b.hooks[i][h])
  }

  ghost predicate Checked(code: Template, spec: CreateSpec) {
    exists m :: code.check(m).None? && spec == code.spec(m)
  }

  ghost predicate Good(b: Setting, spec: Option<CreateSpec>) {
    spec.Some? && (AllKeep(b) ==> Checked(b.code, spec.value))
  }

  ghost predicate GoodTo(b: Setting, n: nat, specs: Batch) {
    n <= |specs| && forall i :: 0 <= i < n ==> Good(b, specs[i])
  }

  /** Nodes and specifications are filled together, and the slots are all filled exactly when an insert was sent. */
  ghost predicate Tracks(b: Setting, s: State) {
    && |s.nodes| == |s.specs| == |b.hooks| > 0
    && (forall i :: 0 <= i < |s.nodes| ==> (s.nodes[i].Some? <==> s.specs[i].Some?))
    && (s.issued != [] <==> s.specs[|s.specs| - 1].Some?)
    && (s.issued != [] ==> forall i :: 0 <= i < |s.specs| ==> s.specs[i].Some?)
  }

  /** From s to t: what was issued before is still there, and everything issued since is complete. */
  ghost predicate Sound(b: Setting, n: nat, s: State, t: State) {
    && GoodTo(b, n, t.specs)
    && s.issued <= t.issued
    && (forall k :: |s.issued| <= k < |t.issued| ==> |t.issued[k]| == |b.hooks| && GoodTo(b, |b.hooks|, t.issued[k]))
    && (AllKeep(b) ==> t.own == s.own)
    && (Tracks(b, s) ==> Tracks(b, t))
  }

  lemma {:induction false} SoundTransitive(b: Setting, n: nat, s: State, t: State, u: State)
    requires Sound(b, n, s, t) && Sound(b, n, t, u)
    ensures Sound(b, n, s, u)
  {
    forall k | |s.issued| <= k < |u.issued|
      ensures |u.issued[k]| == |b.hooks| && GoodTo(b, |b.hooks|, u.issued[k])
    {
      if k < |t.issued| { assert u.issued[k] == t.issued[k]; }
    }
  }

  lemma {:induction false} RunIsSound(b: Setting, i: nat, h: nat, p: nat, s: State)
    requires Valid(b, s) && i < |b.hooks| && h <= |b.hooks[i]| && p < |s.muts|
    requires GoodTo(b, i, s.specs) && (AllKeep(b) ==> p == Own(b, i, s))
    ensures Sound(b, i, s, Run(b, i, h, p, s).0)
    decreases |b.hooks| - i, |b.hooks[i]| - h, 2
  {
    if h == |b.hooks[i]| { BaseIsSound(b, i, p, s); } else { HookIsSound(b, i, h, b.hooks[i][h], None, p, s); }
  }

  lemma {:induction false} HookIsSound(
    b: Setting, i: nat, h: nat, hook: Hook, last: Option<SaveError>, p: nat, s: State)
    requires Valid(b, s) && i < |b.hooks| && h < |b.hooks[i]| && p < |s.muts|
    requires GoodTo(b, i, s.specs) && (AllKeep(b) ==> p == Own(b, i, s) && Keeps(hook))
    ensures Sound(b, i, s, RunHook(b, i, h, hook, last, p, s).0)
    decreases |b.hooks| - i, |b.hooks[i]| - h, 1, hook
  {
    match hook
    case Return(_) =>
    case Edit(edit, more) => HookIsSound(b, i, h, more, last, p, s.(muts := s.muts[p := Edited(edit, s.muts[p])]));
    case Exchange(make, more) =>
      HookIsSound(b, i, h, more, last, |s.muts|, s.(muts := s.muts + [Exchanged(make, s.muts[p])]));
    case Next(more) =>
      RunIsSound(b, i, h + 1, p, s);
      var (t, err) := Run(b, i, h + 1, p, s);
      HookIsSound(b, i, h, more, err, p, t);
      SoundTransitive(b, i, s, t, RunHook(b, i, h, more, err, p, t).0);
    case OnError(test, yes, no) => HookIsSound(b, i, h, if test(last) then yes else no, last, p, s);
    case Look(sees, yes, no) =>
      HookIsSound(b, i, h, if sees(s.memory, s.muts[p]) then yes else no, last, p, s);
    case Remember(update, more) =>
      HookIsSound(b, i, h, more, last, p, s.(memory := update(s.memory, s.muts[p], last)));
  }

  lemma {:induction false} BaseIsSound(b: Setting, i: nat, p: nat, s: State)
    requires Valid(b, s) && i < |b.hooks| && p < |s.muts|
    requires GoodTo(b, i, s.specs) && (AllKeep(b) ==> p == Own(b, i, s))
    ensures Sound(b, i, s, Base(b, i, p, s).0)
    decreases |b.hooks| - i, 0, 0
  {
    if b.code.check(s.muts[Own(b, i, s)]).None? {
      var filled := FillSlot(b, i, p, s);
      FilledIsGood(b, i, p, s);
      if Tracks(b, s) && i + 1 < |b.hooks| { FilledTracks(b, i, p, s); }
      if i + 1 < |b.hooks| {
        RunIsSound(b, i + 1, 0, Own(b, i + 1, filled), filled);
      } else {
        IssueIsSound(b, s, filled);
      }
    }
  }

  lemma {:induction false} FilledIsGood(b: Setting, i: nat, p: nat, s: State)
    requires Valid(b, s) && i < |b.hooks| && p < |s.muts| && GoodTo(b, i, s.specs)
    requires AllKeep(b) ==> p == Own(b, i, s) && b.code.check(s.muts[p]).None?
    ensures GoodTo(b, i + 1, FillSlot(b, i, p, s).specs)
    ensures AllKeep(b) ==> FillSlot(b, i, p, s).own == s.own
  {
    assert Good(b, FillSlot(b, i, p, s).specs[i]);
    assert AllKeep(b) ==> s.own[b.at[i] := p] == s.own;
  }

  lemma {:induction false} FilledTracks(b: Setting, i: nat, p: nat, s: State)
    requires Valid(b, s) && i + 1 < |b.hooks| && p < |s.muts| && Tracks(b, s)
    ensures Tracks(b, FillSlot(b, i, p, s))
  {
  }

  lemma {:induction false} IssueIsSound(b: Setting, s: State, filled: State)
    requires Valid(b, s) && Valid(b, filled) && |b.hooks| > 0 && GoodTo(b, |b.hooks|, filled.specs)
    requires filled.issued == s.issued && (AllKeep(b) ==> filled.own == s.own)
    requires Tracks(b, s) ==>
               forall i :: 0 <= i < |b.hooks| - 1 ==> (filled.nodes[i].Some? <==> filled.specs[i].Some?)
    requires filled.nodes[|b.hooks| - 1].Some?
    ensures Sound(b, |b.hooks| - 1, s, Issue(b, filled).0)
  {
  }

  /** Whatever the hooks do: every insert that is sent holds a specification for every builder. If no hook exchanges a
      mutation, each of them is the specification of a mutation that passed the checks. */
  lemma {:induction false} InsertsAreComplete(
    b: Setting, own: seq<nat>, muts: seq<Mutation>, stored: seq<Batch>, memory: Memory, k: nat, j: nat)
    requires Composed(b, own, muts)
    requires k < |Save(b, own, muts, stored, memory).0.issued| && j < |b.hooks|
    ensures var batch := Save(b, own, muts, stored, memory).0.issued[k];
            && |batch| == |b.hooks| && batch[j].Some?
            && (AllKeep(b) ==> Checked(b.code, batch[j].value))
  {
    var s := Start(b, own, muts, stored, memory);
    RunIsSound(b, 0, 0, Own(b, 0, s), s);
    assert Good(b, Save(b, own, muts, stored, memory).0.issued[k][j]);
  }

  /** Whatever the hooks do: all nodes are returned if an insert was sent, and the last is nil if none was. */
  lemma {:induction false} NodesAreComplete(
    b: Setting, own: seq<nat>, muts: seq<Mutation>, stored: seq<Batch>, memory: Memory)
    requires Composed(b, own, muts) && |b.hooks| > 0
    ensures var t := Save(b, own, muts, stored, memory).0;
            && |t.nodes| == |b.hooks|
            && (t.issued != [] ==> forall i :: 0 <= i < |b.hooks| ==> t.nodes[i].Some?)
            && (t.issued == [] ==> t.nodes[|b.hooks| - 1].None?)
  {
    var s := Start(b, own, muts, stored, memory);
    assert Tracks(b, s);
    RunIsSound(b, 0, 0, Own(b, 0, s), s);
  }

  // ----- how often the insert is sent -----

  /** The most calls that a hook makes on any of its ways. */
  function MostCalls(hook: Hook): nat {
    match hook
    case Return(_) => 0
    case Edit(_, more) => MostCalls(more)
    case Exchange(_, more) => MostCalls(more)
    case Next(more) => 1 + MostCalls(more)
    case OnError(_, yes, no) => if MostCalls(yes) > MostCalls(no) then MostCalls(yes) else MostCalls(no)
    case Look(_, yes, no) => if MostCalls(yes) > MostCalls(no) then MostCalls(yes) else MostCalls(no)
    case Remember(_, more) => MostCalls(more)
  }

  /** The hook returns an error without another call, once its last call has returned one. */
  predicate PassesOn(hook: Hook, last: Option<SaveError>) {
    match hook
    case Return(verdict) => verdict(last).Some?
    case Edit(_, more) => PassesOn(more, last)
    case Exchange(_, more) => PassesOn(more, last)
    case Next(_) => false
    case OnError(test, yes, no) => if test(last) then PassesOn(yes, last) else PassesOn(no, last)
    case Look(_, yes, no) => PassesOn(yes, last) && PassesOn(no, last)
    case Remember(_, more) => PassesOn(more, last)
  }

  /** The hook tolerates no failure, and calls on n times if it meets none. */
  ghost predicate CallsExactly(n: nat, hook: Hook, last: Option<SaveError>)
    decreases hook
  {
    match hook
    case Return(_) => n == 0
    case Edit(_, more) => CallsExactly(n, more, last)
    case Exchange(_, more) => CallsExactly(n, more, last)
    case Next(more) =>
      n > 0 && CallsExactly(n - 1, more, None) && forall err: SaveError :: PassesOn(more, Some(err))
    case OnError(test, yes, no) => if test(last) then CallsExactly(n, yes, last) else CallsExactly(n, no, last)
    case Look(_, yes, no) => CallsExactly(n, yes, last) && CallsExactly(n, no, last)
    case Remember(_, more) => CallsExactly(n, more, last)
  }

  /** The product of the numbers of calls, over the hooks of builder i from the h-th and those of all later builders. */
  function Calls(b: Setting, i: nat, h: nat): nat
    requires i < |b.hooks| && h <= |b.hooks[i]|
    decreases |b.hooks| - i, |b.hooks[i]| - h
  {
    if h < |b.hooks[i]| then MostCalls(b.hooks[i][h]) * Calls(b, i, h + 1)
    else if i + 1 < |b.hooks| then Calls(b, i + 1, 0)
    else 1
  }

  /** Every hook calls on equally often in every run without failures. */
  ghost predicate Strict(b: Setting) {
    forall i, h :: 0 <= i < |b.hooks| && 0 <= h < |b.hooks[i]| ==>
      CallsExactly(MostCalls(b.hooks[i][h]), b.hooks[i][h], None)
  }

  lemma {:induction false} RunSendsAtMost(b: Setting, i: nat, h: nat, p: nat, s: State)
    requires Valid(b, s) && i < |b.hooks| && h <= |b.hooks[i]| && p < |s.muts|
    ensures |Run(b, i, h, p, s).0.issued| <= |s.issued| + Calls(b, i, h)
    decreases |b.hooks| - i, |b.hooks[i]| - h, 2
  {
    if h < |b.hooks[i]| { HookSendsAtMost(b, i, h, b.hooks[i][h], None, p, s); }
    else if b.code.check(s.muts[Own(b, i, s)]).None? {
      var filled := FillSlot(b, i, p, s);
      if i + 1 < |b.hooks| { RunSendsAtMost(b, i + 1, 0, Own(b, i + 1, filled), filled); }
      var (t, err) := Proceed(b, i, filled);
      assert |t.issued| <= |s.issued| + Calls(b, i, h);
    }
  }

  lemma {:induction false} HookSendsAtMost(
    b: Setting, i: nat, h: nat, hook: Hook, last: Option<SaveError>, p: nat, s: State)
    requires Valid(b, s) && i < |b.hooks| && h < |b.hooks[i]| && p < |s.muts|
    ensures |RunHook(b, i, h, hook, last, p, s).0.issued| <= |s.issued| + MostCalls(hook) * Calls(b, i, h + 1)
    decreases |b.hooks| - i, |b.hooks[i]| - h, 1, hook
  {
    match hook
    case Return(_) =>
    case Edit(edit, more) =>
      HookSendsAtMost(b, i, h, more, last, p, s.(muts := s.muts[p := Edited(edit, s.muts[p])]));
    case Exchange(make, more) =>
      HookSendsAtMost(b, i, h, more, last, |s.muts|, s.(muts := s.muts + [Exchanged(make, s.muts[p])]));
    case Next(more) =>
      RunSendsAtMost(b, i, h + 1, p, s);
      var (t, err) := Run(b, i, h + 1, p, s);
      HookSendsAtMost(b, i, h, more, err, p, t);
      OneMore(MostCalls(more), Calls(b, i, h + 1));
    case OnError(test, yes, no) =>
      HookSendsAtMost(b, i, h, if test(last) then yes else no, last, p, s);
      Larger(MostCalls(yes), MostCalls(no), Calls(b, i, h + 1));
    case Look(sees, yes, no) =>
      HookSendsAtMost(b, i, h, if sees(s.memory, s.muts[p]) then yes else no, last, p, s);
      Larger(MostCalls(yes), MostCalls(no), Calls(b, i, h + 1));
    case Remember(update, more) =>
      HookSendsAtMost(b, i, h, more, last, p, s.(memory := update(s.memory, s.muts[p], last)));
  }

  lemma {:induction false} PassesOnFails(
    b: Setting, i: nat, h: nat, hook: Hook, last: Option<SaveError>, p: nat, s: State)
    requires Valid(b, s) && i < |b.hooks| && h < |b.hooks[i]| && p < |s.muts| && PassesOn(hook, last)
    ensures RunHook(b, i, h, hook, last, p, s).1.Some?
    decreases hook
  {
    match hook
    case Return(_) =>
    case Edit(edit, more) =>
      PassesOnFails(b, i, h, more, last, p, s.(muts := s.muts[p := Edited(edit, s.muts[p])]));
    case Exchange(make, more) =>
      PassesOnFails(b, i, h, more, last, |s.muts|, s.(muts := s.muts + [Exchanged(make, s.muts[p])]));
    case OnError(test, yes, no) => PassesOnFails(b, i, h, if test(last) then yes else no, last, p, s);
    case Look(sees, yes, no) =>
      PassesOnFails(b, i, h, if sees(s.memory, s.muts[p]) then yes else no, last, p, s);
    case Remember(update, more) =>
      PassesOnFails(b, i, h, more, last, p, s.(memory := update(s.memory, s.muts[p], last)));
  }

  lemma {:induction false} RunSendsExactly(b: Setting, i: nat, h: nat, p: nat, s: State)
    requires Valid(b, s) && i < |b.hooks| && h <= |b.hooks[i]| && p < |s.muts| && Strict(b)
    ensures var (t, err) := Run(b, i, h, p, s);
            err.None? ==> |t.issued| == |s.issued| + Calls(b, i, h)
    decreases |b.hooks| - i, |b.hooks[i]| - h, 2
  {
    if h < |b.hooks[i]| { HookSendsExactly(b, i, h, b.hooks[i][h], None, MostCalls(b.hooks[i][h]), p, s); }
    else if b.code.check(s.muts[Own(b, i, s)]).None? {
      var filled := FillSlot(b, i, p, s);
      if i + 1 < |b.hooks| { RunSendsExactly(b, i + 1, 0, Own(b, i + 1, filled), filled); }
      var (t, err) := Proceed(b, i, filled);
      assert err.None? ==> |t.issued| == |s.issued| + Calls(b, i, h);
    }
  }

  lemma {:induction false} HookSendsExactly(
    b: Setting, i: nat, h: nat, hook: Hook, last: Option<SaveError>, n: nat, p: nat, s: State)
    requires Valid(b, s) && i < |b.hooks| && h < |b.hooks[i]| && p < |s.muts|
    requires Strict(b) && CallsExactly(n, hook, last)
    ensures var (t, err) := RunHook(b, i, h, hook, last, p, s);
            err.None? ==> |t.issued| == |s.issued| + n * Calls(b, i, h + 1)
    decreases |b.hooks| - i, |b.hooks[i]| - h, 1, hook
  {
    match hook
    case Return(_) =>
    case Edit(edit, more) =>
      HookSendsExactly(b, i, h, more, last, n, p, s.(muts := s.muts[p := Edited(edit, s.muts[p])]));
    case Exchange(make, more) =>
      HookSendsExactly(b, i, h, more, last, n, |s.muts|, s.(muts := s.muts + [Exchanged(make, s.muts[p])]));
    case Next(more) =>
      RunSendsExactly(b, i, h + 1, p, s);
      var (t, err) := Run(b, i, h + 1, p, s);
      if err.Some? {
        PassesOnFails(b, i, h, more, err, p, t);
      } else {
        HookSendsExactly(b, i, h, more, err, n - 1, p, t);
        OneMore(n - 1, Calls(b, i, h + 1));
      }
    case OnError(test, yes, no) => HookSendsExactly(b, i, h, if test(last) then yes else no, last, n, p, s);
    case Look(sees, yes, no) =>
      HookSendsExactly(b, i, h, if sees(s.memory, s.muts[p]) then yes else no, last, n, p, s);
    case Remember(update, more) =>
      HookSendsExactly(b, i, h, more, last, n, p, s.(memory := update(s.memory, s.muts[p], last)));
  }

  lemma {:induction false} OneMore(n: nat, c: nat)
    ensures (1 + n) * c == c + n * c
  {
  }

  lemma {:induction false} Larger(x: nat, y: nat, c: nat)
    ensures x <= y ==> x * c <= y * c
    ensures y <= x ==> y * c <= x * c
  {
  }

  ghost predicate EachCallsOnce(b: Setting, i: nat, h: nat)
    requires i < |b.hooks| && h <= |b.hooks[i]|
  {
    && (forall k :: h <= k < |b.hooks[i]| ==> MostCalls(b.hooks[i][k]) == 1)
    && forall j, k :: i < j < |b.hooks| && 0 <= k < |b.hooks[j]| ==> MostCalls(b.hooks[j][k]) == 1
  }

  lemma {:induction false} OneCall(b: Setting, i: nat, h: nat)
    requires i < |b.hooks| && h <= |b.hooks[i]|
    ensures Calls(b, i, h) == 1 <==> EachCallsOnce(b, i, h)
    decreases |b.hooks| - i, |b.hooks[i]| - h
  {
    if h < |b.hooks[i]| {
      OneCall(b, i, h + 1);
      ProductIsOne(MostCalls(b.hooks[i][h]), Calls(b, i, h + 1));
    } else if i + 1 < |b.hooks| {
      OneCall(b, i + 1, 0);
    }
  }

  lemma {:induction false} ProductIsOne(x: nat, y: nat)
    ensures x * y == 1 <==> x == 1 && y == 1
  {
    if x >= 2 && y >= 1 { assert x * y >= 2 * y; }
  }

  /** A save that succeeds, with hooks that tolerate no failure and always call on equally often, sends exactly one
      insert if and only if every hook of every builder calls the next mutator exactly once; the number is the product
      of their calls. For all other hooks, and when the save fails, the product is a bound. */
  lemma {:induction false} ExactlyOnce(
    b: Setting, own: seq<nat>, muts: seq<Mutation>, stored: seq<Batch>, memory: Memory)
    requires Composed(b, own, muts) && |b.hooks| > 0
    ensures var (t, err) := Save(b, own, muts, stored, memory);
            && |t.issued| <= Calls(b, 0, 0)
            && (Strict(b) && err.None? ==>
                  && |t.issued| == Calls(b, 0, 0)
                  && (|t.issued| == 1 <==> EachCallsOnce(b, 0, 0)))
  {
    var s := Start(b, own, muts, stored, memory);
    RunSendsAtMost(b, 0, 0, Own(b, 0, s), s);
    if Strict(b) { RunSendsExactly(b, 0, 0, Own(b, 0, s), s); }
    OneCall(b, 0, 0);
  }

  lemma {:induction false} NoCall(b: Setting, i: nat, h: nat, j: nat, k: nat)
    requires i <= j < |b.hooks| && h <= |b.hooks[i]| && k < |b.hooks[j]| && (i == j ==> h <= k)
    requires MostCalls(b.hooks[j][k]) == 0
    ensures Calls(b, i, h) == 0
    decreases |b.hooks| - i, |b.hooks[i]| - h
  {
    if h < |b.hooks[i]| {
      if i != j || h != k { NoCall(b, i, h + 1, j, k); }
    } else {
      NoCall(b, i + 1, 0, j, k);
    }
  }

  /** If any hook of any builder never calls on, nothing is ever sent and the last node is nil, even if the save
      succeeds. */
  lemma {:induction false} NeverSent(
    b: Setting, own: seq<nat>, muts: seq<Mutation>, stored: seq<Batch>, memory: Memory, i: nat, h: nat)
    requires Composed(b, own, muts) && i < |b.hooks| && h < |b.hooks[i]| && MostCalls(b.hooks[i][h]) == 0
    ensures var t := Save(b, own, muts, stored, memory).0;
            t.issued == [] && |t.nodes| == |b.hooks| && t.nodes[|b.hooks| - 1].None?
  {
    NoCall(b, 0, 0, i, h);
    ExactlyOnce(b, own, muts, stored, memory);
    NodesAreComplete(b, own, muts, stored, memory);
  }

  // ----- what single hooks do -----

  function PassOn(): Hook { Return(err => err) }

  /** One builder with one hook. */
  ghost predicate OneHook(b: Setting, hook: Hook) {
    b.at == [0] && b.hooks == [[hook]]
  }

  function OneStart(m: Mutation, stored: seq<Batch>, memory: Memory): State {
    State([m], [0], [None], [None], [], stored, memory)
  }

  /** The part of the one builder, called with mutation object p. */
  lemma {:induction false} OneBuilder(b: Setting, hook: Hook, p: nat, s: State)
    requires OneHook(b, hook) && Valid(b, s) && |s.own| == 1 && p < |s.muts|
    requires b.code.check(s.muts[s.own[0]]).None?
    ensures var m := s.muts[p];
            var batch := [Some(b.code.spec(m))];
            var refusal := b.refusal(s.stored, batch);
            var node := Some(b.code.node(m));
            var filled := s.(own := [p], nodes := [node], specs := batch, issued := s.issued + [batch]);
            Run(b, 0, 1, p, s) ==
            if refusal.Some? then (filled, Some(Refused(refusal.value)))
            else (filled.(muts := s.muts[p := Complete(b, m, node)], stored := s.stored + [batch]), None)
  {
    var filled := FillSlot(b, 0, p, s);
    assert filled.specs == [Some(b.code.spec(s.muts[p]))] && filled.own == [p];
    assert filled.nodes == [Some(b.code.node(s.muts[p]))];
    assert Proceed(b, 0, filled) == Issue(b, filled);
  }

  lemma {:induction false} OneSave(b: Setting, hook: Hook, m: Mutation, stored: seq<Batch>, memory: Memory)
    requires OneHook(b, hook)
    ensures Save(b, [0], [m], stored, memory) == RunHook(b, 0, 0, hook, None, 0, OneStart(m, stored, memory))
  {
    assert Start(b, [0], [m], stored, memory) == OneStart(m, stored, memory);
  }

  /** A hook that does not call the next mutator: the save succeeds, nothing is sent, and the node is nil. */
  lemma {:induction false} SkippedSave(b: Setting, m: Mutation, stored: seq<Batch>, memory: Memory)
    requires OneHook(b, Return(_ => None))
    ensures var (t, err) := Save(b, [0], [m], stored, memory);
            err.None? && t.issued == [] && t.nodes == [None] && t.muts == [m] && t.stored == stored
  {
    OneSave(b, Return(_ => None), m, stored, memory);
  }

  /** A hook that calls on once and then returns an error of its own: the batch is stored and the mutation done, and
      yet the save fails. */
  lemma {:induction false} FailedAfterInsert(
    b: Setting, m: Mutation, stored: seq<Batch>, memory: Memory, verdict: Option<SaveError> -> Option<SaveError>)
    requires OneHook(b, Next(Return(verdict))) && verdict(None).Some?
    requires b.code.check(m).None? && b.refusal(stored, [Some(b.code.spec(m))]).None?
    ensures var (t, err) := Save(b, [0], [m], stored, memory);
            && err == verdict(None) && t.stored == stored + [[Some(b.code.spec(m))]]
            && |t.muts| == 1 && t.muts[0].done
  {
    var hook := Next(Return(verdict));
    OneSave(b, hook, m, stored, memory);
    OneBuilder(b, hook, 0, OneStart(m, stored, memory));
    var t := Run(b, 0, 1, 0, OneStart(m, stored, memory)).0;
    assert RunHook(b, 0, 0, Return(verdict), None, 0, t) == (t, verdict(None));
  }

  /** A hook that calls on once and tolerates the failure: the save succeeds although the database refuses. */
  lemma {:induction false} ToleratedRefusal(
    b: Setting, m: Mutation, stored: seq<Batch>, memory: Memory, verdict: Option<SaveError> -> Option<SaveError>)
    requires OneHook(b, Next(Return(verdict))) && b.code.check(m).None?
    requires var refusal := b.refusal(stored, [Some(b.code.spec(m))]);
             refusal.Some? && verdict(Some(Refused(refusal.value))).None?
    ensures var (t, err) := Save(b, [0], [m], stored, memory);
            err.None? && t.stored == stored && t.muts == [m]
  {
    var hook := Next(Return(verdict));
    OneSave(b, hook, m, stored, memory);
    OneBuilder(b, hook, 0, OneStart(m, stored, memory));
    var (t, err) := Run(b, 0, 1, 0, OneStart(m, stored, memory));
    assert RunHook(b, 0, 0, Return(verdict), err, 0, t) == (t, verdict(err));
  }

  /** A hook that calls again after a success: a second batch is sent, for the mutation that is already done. */
  lemma {:induction false} RepeatedSave(b: Setting, m: Mutation, stored: seq<Batch>, memory: Memory)
    requires OneHook(b, Next(Next(PassOn()))) && b.code.check(m).None?
    requires b.refusal(stored, [Some(b.code.spec(m))]).None?
    ensures var (t, err) := Save(b, [0], [m], stored, memory);
            var again := Complete(b, m, Some(b.code.node(m)));
            var first, second := [Some(b.code.spec(m))], [Some(b.code.spec(again))];
            && (err.None? <==> b.code.check(again).None? && b.refusal(stored + [first], second).None?)
            && t.issued == [first] + (if b.code.check(again).None? then [second] else [])
            && t.stored == stored + [first] + (if err.None? then [second] else [])
  {
    var hook := Next(Next(PassOn()));
    var s := OneStart(m, stored, memory);
    OneSave(b, hook, m, stored, memory);
    OneBuilder(b, hook, 0, s);
    var t := Run(b, 0, 1, 0, s).0;
    var r := Run(b, 0, 1, 0, t);
    if b.code.check(t.muts[0]).None? {
      OneBuilder(b, hook, 0, t);
    } else {
      assert r == Base(b, 0, 0, t);
    }
    assert RunHook(b, 0, 0, PassOn(), r.1, 0, r.0) == r;
    assert RunHook(b, 0, 0, Next(PassOn()), None, 0, t) == r;
  }

  /** A hook that notes something and calls on only if it likes what it sees then: otherwise nothing is checked or sent,
      and its refusal is the error of the save. */
  lemma {:induction false} GuardedSave(
    b: Setting, m: Mutation, update: (Memory, Mutation, Option<SaveError>) -> Memory,
    sees: (Memory, Mutation) -> bool, why: string, stored: seq<Batch>, memory: Memory)
    requires OneHook(
               b, Remember(update, Look(sees, Next(PassOn()), Return(_ => Some(HookFailed(why))))))
    ensures var (t, err) := Save(b, [0], [m], stored, memory);
            var noted := update(memory, m, None);
            t.memory == noted &&
            if sees(noted, m)
            then err.None? <==> b.code.check(m).None? && b.refusal(stored, [Some(b.code.spec(m))]).None?
            else err == Some(HookFailed(why)) && t.issued == [] && t.muts == [m] && t.stored == stored
  {
    var hook := b.hooks[0][0];
    var s := OneStart(m, stored, memory);
    var noted := s.(memory := update(memory, m, None));
    OneSave(b, hook, m, stored, memory);
    assert RunHook(b, 0, 0, hook, None, 0, s) == RunHook(b, 0, 0, hook.more, None, 0, noted);
    if sees(noted.memory, m) {
      var r := Run(b, 0, 1, 0, noted);
      if b.code.check(m).None? {
        OneBuilder(b, hook, 0, noted);
      } else {
        assert r == Base(b, 0, 0, noted);
      }
      assert RunHook(b, 0, 0, PassOn(), r.1, 0, r.0) == r;
      assert RunHook(b, 0, 0, hook.more.yes, None, 0, noted) == r;
    } else {
      assert RunHook(b, 0, 0, hook.more.no, None, 0, noted) == (noted, Some(HookFailed(why)));
    }
  }

  /** A hook that exchanges the mutation: the original is checked and the other one is inserted, whatever it is. */
  lemma {:induction false} ExchangedSave(
    b: Setting, m: Mutation, make: Mutation -> Mutation, stored: seq<Batch>, memory: Memory)
    requires OneHook(b, Exchange(make, Next(PassOn())))
    ensures var (t, err) := Save(b, [0], [m], stored, memory);
            var batch := [Some(b.code.spec(Exchanged(make, m)))];
            && (err.None? <==> b.code.check(m).None? && b.refusal(stored, batch).None?)
            && t.stored == (if err.None? then stored + [batch] else stored)
  {
    var hook := Exchange(make, Next(PassOn()));
    var before := OneStart(m, stored, memory);
    var s := before.(muts := [m, Exchanged(make, m)]);
    OneSave(b, hook, m, stored, memory);
    assert before.muts + [Exchanged(make, m)] == s.muts;
    var r := Run(b, 0, 1, 1, s);
    if b.code.check(m).None? {
      OneBuilder(b, hook, 1, s);
    } else {
      assert r == Base(b, 0, 1, s);
    }
    assert RunHook(b, 0, 0, PassOn(), r.1, 1, r.0) == r;
    assert RunHook(b, 0, 0, Next(PassOn()), None, 1, s) == r;
    assert RunHook(b, 0, 0, hook, None, 0, before) == r;
  }
}
