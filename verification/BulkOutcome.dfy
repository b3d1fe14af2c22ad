/**
The whole outcome of a bulk save whose hooks each call on exactly once, exactly what it inserts and checks, and exactly
when it is all or nothing.
*/
module BulkOutcome {
  import opened Entities
  import opened BulkModel
  import opened Wrappers

  // ----- hooks that call on once -----

  /** Nothing more is called, and the error alone decides what is done. */
  predicate Barren(hook: Hook) {
    match hook
    case Return(_) => true
    case Edit(_, more) => Barren(more)
    case Exchange(_, more) => Barren(more)
    case Next(_) => false
    case OnError(_, yes, no) => Barren(yes) && Barren(no)
    case Look(_, _, _) => false
    case Remember(_, more) => Barren(more)
  }

  /** Edits and exchanges, one call of the next mutator, edits and exchanges. */
  predicate Once(hook: Hook) {
    match hook
    case Return(_) => false
    case Edit(_, more) => Once(more)
    case Exchange(_, more) => Once(more)
    case Next(more) => Barren(more)
    case OnError(test, yes, no) => if test(None) then Once(yes) else Once(no)
    case Look(_, _, _) => false
    case Remember(_, more) => Once(more)
  }

  ghost predicate AllOnce(b: Setting) {
    forall i, h :: 0 <= i < |b.hooks| && 0 <= h < |b.hooks[i]| ==> Once(b.hooks[i][h])
  }

  /** The mutation that the hook hands on. */
  function HandsOn(hook: Hook, m: Mutation): (r: Mutation)
    ensures !m.done ==> !r.done
    decreases hook
  {
    match hook
    case Edit(edit, more) => HandsOn(more, Edited(edit, m))
    case Exchange(make, more) => HandsOn(more, Exchanged(make, m))
    case OnError(test, yes, no) => if test(None) then HandsOn(yes, m) else HandsOn(no, m)
    case Remember(_, more) => HandsOn(more, m)
    case _ => m
  }

  /** The mutation that the hook was called with, when it calls on. */
  function Keeping(hook: Hook, m: Mutation): (r: Mutation)
    ensures r.done == m.done
    decreases hook
  {
    match hook
    case Edit(edit, more) => Keeping(more, Edited(edit, m))
    case OnError(test, yes, no) => if test(None) then Keeping(yes, m) else Keeping(no, m)
    case Remember(_, more) => Keeping(more, m)
    case _ => m
  }

  /** The hook calls on with another mutation object. */
  predicate Swaps(hook: Hook) {
    match hook
    case Edit(_, more) => Swaps(more)
    case Exchange(_, _) => true
    case OnError(test, yes, no) => if test(None) then Swaps(yes) else Swaps(no)
    case Remember(_, more) => Swaps(more)
    case _ => false
  }

  /** What the hook does when it has called on. */
  function Rest(hook: Hook): (r: Hook)
    ensures Once(hook) ==> Barren(r)
  {
    match hook
    case Edit(_, more) => Rest(more)
    case Exchange(_, more) => Rest(more)
    case Next(more) => more
    case OnError(test, yes, no) => if test(None) then Rest(yes) else Rest(no)
    case Remember(_, more) => Rest(more)
    case _ => PassOn()
  }

  /** What becomes of the mutation at hand. */
  function Settled(rest: Hook, err: Option<SaveError>, m: Mutation): (r: Mutation)
    ensures r.done == m.done
    decreases rest
  {
    match rest
    case Edit(edit, more) => Settled(more, err, Edited(edit, m))
    case OnError(test, yes, no) => if test(err) then Settled(yes, err, m) else Settled(no, err, m)
    case Remember(_, more) => Settled(more, err, m)
    case _ => m
  }

  function Verdict(rest: Hook, err: Option<SaveError>): Option<SaveError> {
    match rest
    case Return(verdict) => verdict(err)
    case Edit(_, more) => Verdict(more, err)
    case Exchange(_, more) => Verdict(more, err)
    case OnError(test, yes, no) => if test(err) then Verdict(yes, err) else Verdict(no, err)
    case Remember(_, more) => Verdict(more, err)
    case _ => None
  }

  /** What the hook returns when its call returns `err`. */
  function Gives(hook: Hook, err: Option<SaveError>): Option<SaveError> {
    Verdict(Rest(hook), err)
  }

  // ----- the hooks of one builder -----

  /** The mutation that reaches the builder's own part, through the hooks from the h-th. */
  function Prepared(b: Setting, i: nat, h: nat, m: Mutation): (r: Mutation)
    requires i < |b.hooks| && h <= |b.hooks[i]|
    ensures !m.done ==> !r.done
    decreases |b.hooks[i]| - h
  {
    if h == |b.hooks[i]| then m else Prepared(b, i, h + 1, HandsOn(b.hooks[i][h], m))
  }

  /** The mutation that the hooks were called with, as it then stands. */
  function Original(b: Setting, i: nat, h: nat, m: Mutation): (r: Mutation)
    requires i < |b.hooks| && h <= |b.hooks[i]|
    ensures r.done == m.done
    decreases |b.hooks[i]| - h
  {
    if h == |b.hooks[i]| then m
    else if Swaps(b.hooks[i][h]) then Keeping(b.hooks[i][h], m)
    else Original(b, i, h + 1, Keeping(b.hooks[i][h], m))
  }

  /** Another mutation object reaches the builder's own part than the one that the hooks were called with. */
  predicate SwapsFrom(b: Setting, i: nat, h: nat)
    requires i < |b.hooks| && h <= |b.hooks[i]|
    decreases |b.hooks[i]| - h
  {
    h < |b.hooks[i]| && (Swaps(b.hooks[i][h]) || SwapsFrom(b, i, h + 1))
  }

  /** What comes out of the hooks when `err` comes back to them. */
  function Through(b: Setting, i: nat, h: nat, err: Option<SaveError>): Option<SaveError>
    requires i < |b.hooks| && h <= |b.hooks[i]|
    decreases |b.hooks[i]| - h
  {
    if h == |b.hooks[i]| then err else Gives(b.hooks[i][h], Through(b, i, h + 1, err))
  }

  /** The mutation that has reached the builder's own part, when the hooks are left: only the hooks that have handed on
      this object can still change it. */
  function Released(b: Setting, i: nat, h: nat, err: Option<SaveError>, m: Mutation): (r: Mutation)
    requires i < |b.hooks| && h <= |b.hooks[i]|
    ensures r.done == m.done
    decreases |b.hooks[i]| - h
  {
    if h == |b.hooks[i]| then m
    else
      var r := Released(b, i, h + 1, err, m);
      if SwapsFrom(b, i, h + 1) then r else Settled(Rest(b.hooks[i][h]), Through(b, i, h + 1, err), r)
  }

  /** The mutation that the hooks were called with, when they are left. */
  function Returned(b: Setting, i: nat, h: nat, err: Option<SaveError>, m: Mutation): (r: Mutation)
    requires i < |b.hooks| && h <= |b.hooks[i]|
    ensures r.done == m.done
    decreases |b.hooks[i]| - h
  {
    if h == |b.hooks[i]| || Swaps(b.hooks[i][h]) then m
    else Settled(Rest(b.hooks[i][h]), Through(b, i, h + 1, err), Returned(b, i, h + 1, err, m))
  }

  /** Hooks that do not exchange the mutation hand on the one that they were called with. */
  lemma {:induction false} SameObject(b: Setting, i: nat, h: nat, m: Mutation)
    requires i < |b.hooks| && h <= |b.hooks[i]| && AllOnce(b) && !SwapsFrom(b, i, h)
    ensures Prepared(b, i, h, m) == Original(b, i, h, m)
    decreases |b.hooks[i]| - h
  {
    if h < |b.hooks[i]| {
      HandsOnSame(b.hooks[i][h], m);
      SameObject(b, i, h + 1, HandsOn(b.hooks[i][h], m));
    }
  }

  lemma {:induction false} HandsOnSame(hook: Hook, m: Mutation)
    requires !Swaps(hook)
    ensures HandsOn(hook, m) == Keeping(hook, m)
    decreases hook
  {
    match hook
    case Edit(edit, more) => HandsOnSame(more, Edited(edit, m));
    case OnError(test, yes, no) => HandsOnSame(if test(None) then yes else no, m);
    case Remember(_, more) => HandsOnSame(more, m);
    case _ =>
  }

  // ----- what the machine does in the hooks of one builder -----

  /** From s to t only mutations change, of the old ones only those at p, and the hooks' memory. */
  ghost predicate Touches(s: State, t: State, p: nat) {
    && t == s.(muts := t.muts, memory := t.memory) && |s.muts| <= |t.muts|
    && forall x :: 0 <= x < |s.muts| && x != p ==> t.muts[x] == s.muts[x]
  }

  /** The hook calls on in state t with object q. */
  ghost predicate Enters(hook: Hook, p: nat, s: State, t: State, q: nat) {
    && p < |s.muts| && Touches(s, t, p) && q < |t.muts|
    && t.muts[p] == Keeping(hook, s.muts[p]) && t.muts[q] == HandsOn(hook, s.muts[p])
    && (if Swaps(hook) then |s.muts| <= q else q == p)
  }

  lemma {:induction false} EnterHook(b: Setting, i: nat, h: nat, hook: Hook, p: nat, s: State)
    returns (t: State, q: nat)
    requires Valid(b, s) && i < |b.hooks| && h < |b.hooks[i]| && p < |s.muts| && Once(hook)
    ensures Valid(b, t) && Enters(hook, p, s, t, q)
    ensures var (u, err) := Run(b, i, h + 1, q, t);
            RunHook(b, i, h, hook, None, p, s) == RunHook(b, i, h, Rest(hook), err, q, u)
    decreases hook
  {
    match hook
    case Edit(edit, more) => t, q := EnterHook(b, i, h, more, p, s.(muts := s.muts[p := Edited(edit, s.muts[p])]));
    case Exchange(make, more) =>
      t, q := EnterHook(b, i, h, more, |s.muts|, s.(muts := s.muts + [Exchanged(make, s.muts[p])]));
    case Next(_) => t, q := s, p;
    case OnError(test, yes, no) => t, q := EnterHook(b, i, h, if test(None) then yes else no, p, s);
    case Remember(update, more) =>
      t, q := EnterHook(b, i, h, more, p, s.(memory := update(s.memory, s.muts[p], None)));
  }

  lemma {:induction false} LeaveHook(
    b: Setting, i: nat, h: nat, rest: Hook, err: Option<SaveError>, q: nat, s: State)
    requires Valid(b, s) && i < |b.hooks| && h < |b.hooks[i]| && q < |s.muts| && Barren(rest)
    ensures var (t, result) := RunHook(b, i, h, rest, err, q, s);
            && Touches(s, t, q) && t.muts[q] == Settled(rest, err, s.muts[q])
            && result == Verdict(rest, err)
    decreases rest
  {
    match rest
    case Return(_) =>
    case Edit(edit, more) => LeaveHook(b, i, h, more, err, q, s.(muts := s.muts[q := Edited(edit, s.muts[q])]));
    case Exchange(make, more) =>
      LeaveHook(b, i, h, more, err, |s.muts|, s.(muts := s.muts + [Exchanged(make, s.muts[q])]));
    case OnError(test, yes, no) => LeaveHook(b, i, h, if test(err) then yes else no, err, q, s);
    case Remember(update, more) =>
      LeaveHook(b, i, h, more, err, q, s.(memory := update(s.memory, s.muts[q], err)));
  }

  /** The builder's own part is reached in state t with object q. */
  ghost predicate Arrives(b: Setting, i: nat, h: nat, p: nat, s: State, t: State, q: nat)
    requires i < |b.hooks| && h <= |b.hooks[i]|
  {
    && p < |s.muts| && Touches(s, t, p) && q < |t.muts|
    && t.muts[p] == Original(b, i, h, s.muts[p]) && t.muts[q] == Prepared(b, i, h, s.muts[p])
    && (if SwapsFrom(b, i, h) then |s.muts| <= q else q == p)
  }

  /** The builder's own part has ended in state u with `err`. Its hooks were entered with object p, and made the objects
      from `first` to `reached` before it; they end with r. */
  ghost predicate Departs(
    b: Setting, i: nat, h: nat, p: nat, first: nat, reached: nat, q: nat, u: State, err: Option<SaveError>,
    r: (State, Option<SaveError>))
    requires i < |b.hooks| && h <= |b.hooks[i]|
  {
    var t := r.0;
    && t == u.(muts := t.muts, memory := t.memory) && p < |u.muts| && q < |u.muts| && |u.muts| <= |t.muts|
    && (forall x :: 0 <= x < |u.muts| && x != p && !(first <= x < reached) ==> t.muts[x] == u.muts[x])
    && t.muts[q] == Released(b, i, h, err, u.muts[q])
    && t.muts[p] == Returned(b, i, h, err, u.muts[p])
    && r.1 == Through(b, i, h, err)
  }

  lemma {:induction false} ArriveStep(
    b: Setting, i: nat, h: nat, p: nat, s: State, entered: State, next: nat, t: State, q: nat)
    requires i < |b.hooks| && h < |b.hooks[i]|
    requires Enters(b.hooks[i][h], p, s, entered, next) && Arrives(b, i, h + 1, next, entered, t, q)
    ensures Arrives(b, i, h, p, s, t, q)
  {
  }

  lemma {:induction false} DepartStep(
    b: Setting, i: nat, h: nat, p: nat, s: State, entered: State, next: nat, t: State, q: nat, u: State,
    err: Option<SaveError>, inner: (State, Option<SaveError>), r: (State, Option<SaveError>))
    requires i < |b.hooks| && h < |b.hooks[i]|
    requires Enters(b.hooks[i][h], p, s, entered, next) && Arrives(b, i, h + 1, next, entered, t, q)
    requires |t.muts| <= |u.muts| && Departs(b, i, h + 1, next, |entered.muts|, |t.muts|, q, u, err, inner)
    requires Touches(inner.0, r.0, next) && r.1 == Gives(b.hooks[i][h], inner.1)
    requires r.0.muts[next] == Settled(Rest(b.hooks[i][h]), inner.1, inner.0.muts[next])
    ensures Departs(b, i, h, p, |s.muts|, |t.muts|, q, u, err, r)
  {
  }

  /** The hooks of one builder that call on once: all that they do before, the builder's own part once, and the way back
      out of them. */
  lemma {:induction false} OnceRun(b: Setting, i: nat, h: nat, p: nat, s: State) returns (t: State, q: nat)
    requires Valid(b, s) && i < |b.hooks| && h <= |b.hooks[i]| && p < |s.muts| && AllOnce(b)
    ensures Valid(b, t) && Arrives(b, i, h, p, s, t, q)
    ensures var (u, err) := Base(b, i, q, t);
            Departs(b, i, h, p, |s.muts|, |t.muts|, q, u, err, Run(b, i, h, p, s))
    decreases |b.hooks[i]| - h
  {
    if h == |b.hooks[i]| {
      t, q := s, p;
    } else {
      var hook := b.hooks[i][h];
      var entered, next := EnterHook(b, i, h, hook, p, s);
      t, q := OnceRun(b, i, h + 1, next, entered);
      ArriveStep(b, i, h, p, s, entered, next, t, q);
      var (v, e) := Run(b, i, h + 1, next, entered);
      LeaveHook(b, i, h, Rest(hook), e, next, v);
      var (u, err) := Base(b, i, q, t);
      DepartStep(b, i, h, p, s, entered, next, t, q, u, err, (v, e), Run(b, i, h, p, s));
    }
  }

  // ----- all builders -----

  /** The builders are distinct, and those from i refer to the mutations that they started with. */
  ghost predicate Started(b: Setting, i: nat, s: State) {
    && Valid(b, s) && |s.own| == |b.hooks| <= |s.muts|
    && (forall j :: 0 <= j < |b.hooks| ==> b.at[j] == j)
    && forall j :: i <= j < |b.hooks| ==> s.own[j] == j
  }

  /** The mutation that reaches builder j, and is inserted. */
  function PreparedAt(b: Setting, muts: seq<Mutation>, j: nat): Mutation
    requires j < |b.hooks| <= |muts|
  {
    Prepared(b, j, 0, muts[j])
  }

  /** The mutation of builder j as it stands when it is checked. */
  function OriginalAt(b: Setting, muts: seq<Mutation>, j: nat): Mutation
    requires j < |b.hooks| <= |muts|
  {
    Original(b, j, 0, muts[j])
  }

  /** The first builder from i whose own mutation does not pass the checks. */
  function FirstInvalid(b: Setting, i: nat, muts: seq<Mutation>): (k: nat)
    requires i <= |b.hooks| <= |muts|
    ensures i <= k <= |b.hooks|
    ensures forall j :: i <= j < k ==> b.code.check(OriginalAt(b, muts, j)).None?
    ensures k < |b.hooks| ==> b.code.check(OriginalAt(b, muts, k)).Some?
    decreases |b.hooks| - i
  {
    if i == |b.hooks| || b.code.check(OriginalAt(b, muts, i)).Some? then i else FirstInvalid(b, i + 1, muts)
  }

  lemma {:induction false} FirstInvalidFrame(b: Setting, i: nat, muts: seq<Mutation>, other: seq<Mutation>)
    requires i <= |b.hooks| <= |muts| <= |other| && forall j :: i <= j < |b.hooks| ==> muts[j] == other[j]
    ensures FirstInvalid(b, i, muts) == FirstInvalid(b, i, other)
    decreases |b.hooks| - i
  {
    if i < |b.hooks| { FirstInvalidFrame(b, i + 1, muts, other); }
  }

  /** The error that comes back to the hooks of builder j, when builder `last` is the last one that runs and `err` comes
      back to its hooks. */
  function ComesBack(b: Setting, j: nat, last: nat, err: Option<SaveError>): Option<SaveError>
    requires j <= last < |b.hooks|
    decreases last - j
  {
    if j == last then err else Through(b, j + 1, 0, ComesBack(b, j + 1, last, err))
  }

  /** The last builder that runs, when builder k is the first that does not pass its checks. */
  function Last(b: Setting, k: nat): (last: nat)
    requires |b.hooks| > 0
    ensures last < |b.hooks| && (k < |b.hooks| ==> last == k)
  {
    if k < |b.hooks| then k else |b.hooks| - 1
  }

  /** What comes back to the hooks of the last builder that runs: its failed check, or the answer of the database. */
  function Answer(b: Setting, k: nat, muts: seq<Mutation>, stored: seq<Batch>, batch: Batch): Option<SaveError>
    requires k <= |b.hooks| <= |muts|
  {
    if k < |b.hooks| then
      var invalid := b.code.check(OriginalAt(b, muts, k));
      if invalid.Some? then Some(CheckFailed(invalid.value)) else None
    else
      var refusal := b.refusal(stored, batch);
      if refusal.Some? then Some(Refused(refusal.value)) else None
  }

  /** The mutation that builder j refers to in the end, when it started with m. */
  function Final(b: Setting, j: nat, k: nat, err: Option<SaveError>, m: Mutation): Mutation
    requires j < |b.hooks|
  {
    if j > Last(b, k) then m
    else
      var e := ComesBack(b, j, Last(b, k), err);
      if j == k then Returned(b, j, 0, e, Original(b, j, 0, m))
      else
        var reached := Prepared(b, j, 0, m);
        Released(b, j, 0, e, if e.Some? then reached else Complete(b, reached, Some(b.code.node(reached))))
  }

  /** The slots that are filled and the batches that are sent by the builders from i. */
  ghost predicate Fills(b: Setting, i: nat, k: nat, s: State, t: State)
    requires Valid(b, s) && Valid(b, t) && |b.hooks| <= |s.muts| && i <= k <= |b.hooks|
  {
    && (forall j :: 0 <= j < |b.hooks| ==>
          t.specs[j] == if i <= j < k then Some(b.code.spec(PreparedAt(b, s.muts, j))) else s.specs[j])
    && (forall j :: 0 <= j < |b.hooks| ==>
          t.nodes[j] == if i <= j < k then Some(b.code.node(PreparedAt(b, s.muts, j))) else s.nodes[j])
    && t.issued == (if k < |b.hooks| then s.issued else s.issued + [t.specs])
    && t.stored == (if k < |b.hooks| || b.refusal(s.stored, t.specs).Some? then s.stored else s.stored + [t.specs])
  }

  /** The mutation of builder j in the end: another object than the one it started with, exactly if its hooks exchange
      the mutation and it passes the checks. */
  ghost predicate Refers(b: Setting, j: nat, k: nat, err: Option<SaveError>, s: State, t: State)
    requires j < |b.hooks| <= |s.muts| && |b.hooks| <= |t.own|
  {
    && t.own[j] < |t.muts| && t.muts[t.own[j]] == Final(b, j, k, err, s.muts[j])
    && (if j < k && SwapsFrom(b, j, 0) then |s.muts| <= t.own[j] else t.own[j] == j)
  }

  /** What the builders from i leave. */
  ghost predicate Leaves(b: Setting, i: nat, k: nat, err: Option<SaveError>, s: State, t: State)
    requires |b.hooks| <= |s.muts| && |b.hooks| == |s.own| == |t.own|
  {
    && |s.muts| <= |t.muts|
    && (forall j :: i <= j < |b.hooks| ==> Refers(b, j, k, err, s, t))
    && (forall j :: 0 <= j < i && j < |b.hooks| ==> t.own[j] == s.own[j])
    && forall x :: 0 <= x < |s.muts| && !(i <= x < |b.hooks|) ==> t.muts[x] == s.muts[x]
  }

  ghost predicate EndsWith(
    b: Setting, i: nat, k: nat, err: Option<SaveError>, s: State, r: (State, Option<SaveError>))
    requires Started(b, i, s) && i <= k <= |b.hooks| && i < |b.hooks|
  {
    && Valid(b, r.0) && |r.0.own| == |b.hooks|
    && Fills(b, i, k, s, r.0)
    && Leaves(b, i, k, err, s, r.0)
    && r.1 == Through(b, i, 0, ComesBack(b, i, Last(b, k), err))
  }

  /** The whole outcome of the builders from i. */
  ghost predicate Outcome(b: Setting, i: nat, s: State, r: (State, Option<SaveError>))
    requires Started(b, i, s) && i < |b.hooks|
  {
    var k := FirstInvalid(b, i, s.muts);
    Valid(b, r.0) && EndsWith(b, i, k, Answer(b, k, s.muts, s.stored, r.0.specs), s, r)
  }

  /** Builder i, when it does not pass its checks. */
  lemma {:induction false} FailingBuilder(b: Setting, i: nat, s: State, t: State, q: nat)
    requires Started(b, i, s) && i < |b.hooks| && Valid(b, t) && Arrives(b, i, 0, i, s, t, q)
    requires b.code.check(OriginalAt(b, s.muts, i)).Some?
    requires var (u, err) := Base(b, i, q, t);
             Departs(b, i, 0, i, |s.muts|, |t.muts|, q, u, err, Run(b, i, 0, i, s))
    ensures Outcome(b, i, s, Run(b, i, 0, i, s))
  {
    var err := Some(CheckFailed(b.code.check(OriginalAt(b, s.muts, i)).value));
    assert Base(b, i, q, t) == (t, err);
    assert Refers(b, i, i, err, s, Run(b, i, 0, i, s).0);
  }

  /** What the state is when the mutator of builder i calls on. */
  lemma {:induction false} FilledStarts(b: Setting, i: nat, s: State, t: State, q: nat)
    requires Started(b, i, s) && i < |b.hooks| && Valid(b, t) && Arrives(b, i, 0, i, s, t, q)
    ensures Started(b, i + 1, FillSlot(b, i, q, t))
    ensures FirstInvalid(b, i + 1, FillSlot(b, i, q, t).muts) == FirstInvalid(b, i + 1, s.muts)
  {
    FirstInvalidFrame(b, i + 1, s.muts, t.muts);
  }

  lemma {:induction false} FillsStep(b: Setting, i: nat, k: nat, s: State, t: State, q: nat, v: State, r: State)
    requires Started(b, i, s) && i < k <= |b.hooks| && Valid(b, t) && Arrives(b, i, 0, i, s, t, q)
    requires Valid(b, v) && Valid(b, r) && Fills(b, i + 1, k, FillSlot(b, i, q, t), v)
    requires r == v.(muts := r.muts, memory := r.memory)
    ensures Fills(b, i, k, s, r)
  {
    var filled := FillSlot(b, i, q, t);
    assert forall j :: i < j < |b.hooks| ==> PreparedAt(b, filled.muts, j) == PreparedAt(b, s.muts, j);
  }

  /** The state after builder i's own part, when the builders after it have left v. */
  function Completed(b: Setting, i: nat, q: nat, v: State, e: Option<SaveError>): State
    requires Valid(b, v) && i < |b.hooks| && q < |v.muts|
  {
    if e.Some? then v else v.(muts := v.muts[q := Complete(b, v.muts[q], v.nodes[i])])
  }

  /** Builder i when it passes its checks: it was entered in s, reached in t with object q, and left with r. */
  ghost predicate Passes(
    b: Setting, i: nat, k: nat, err: Option<SaveError>, s: State, t: State, q: nat, v: State, r: State)
  {
    && Started(b, i, s) && i < k <= |b.hooks| && Valid(b, t) && Arrives(b, i, 0, i, s, t, q)
    && |v.own| == |b.hooks| && Valid(b, v) && Leaves(b, i + 1, k, err, FillSlot(b, i, q, t), v)
    && v.nodes[i] == Some(b.code.node(PreparedAt(b, s.muts, i)))
    && var e := ComesBack(b, i, Last(b, k), err);
       Departs(b, i, 0, i, |s.muts|, |t.muts|, q, Completed(b, i, q, v, e), e, (r, Through(b, i, 0, e)))
  }

  lemma {:induction false} RefersToReached(
    b: Setting, i: nat, k: nat, err: Option<SaveError>, s: State, t: State, q: nat, v: State, r: State)
    requires Passes(b, i, k, err, s, t, q, v, r)
    ensures Refers(b, i, k, err, s, r) && r.own == v.own
  {
    assert v.muts[q] == PreparedAt(b, s.muts, i);
  }

  lemma {:induction false} RefersAsBefore(
    b: Setting, i: nat, k: nat, err: Option<SaveError>, s: State, t: State, q: nat, v: State, r: State, j: nat)
    requires Passes(b, i, k, err, s, t, q, v, r) && i < j < |b.hooks| && r.own == v.own
    ensures Refers(b, j, k, err, s, r)
  {
    assert Refers(b, j, k, err, FillSlot(b, i, q, t), v);
  }

  lemma {:induction false} LeavesStep(
    b: Setting, i: nat, k: nat, err: Option<SaveError>, s: State, t: State, q: nat, v: State, r: State)
    requires Passes(b, i, k, err, s, t, q, v, r)
    ensures Leaves(b, i, k, err, s, r)
  {
    RefersToReached(b, i, k, err, s, t, q, v, r);
    forall j | i < j < |b.hooks| ensures Refers(b, j, k, err, s, r) {
      RefersAsBefore(b, i, k, err, s, t, q, v, r, j);
    }
  }

  /** Builder i, when it passes its checks and the builders after it have run. */
  lemma {:induction false} PassingBuilder(
    b: Setting, i: nat, k: nat, err: Option<SaveError>, s: State, t: State, q: nat, v: State,
    r: (State, Option<SaveError>))
    requires Passes(b, i, k, err, s, t, q, v, r.0) && Valid(b, r.0) && Fills(b, i + 1, k, FillSlot(b, i, q, t), v)
    requires r.1 == Through(b, i, 0, ComesBack(b, i, Last(b, k), err))
    ensures EndsWith(b, i, k, err, s, r)
  {
    LeavesStep(b, i, k, err, s, t, q, v, r.0);
    FillsStep(b, i, k, s, t, q, v, r.0);
  }

  /** The insert, sent by the last builder. */
  lemma {:induction false} IssueLeaves(b: Setting, s: State, t: State, q: nat)
    requires |b.hooks| > 0 && Started(b, |b.hooks| - 1, s) && Valid(b, t)
    requires Arrives(b, |b.hooks| - 1, 0, |b.hooks| - 1, s, t, q)
    ensures var filled := FillSlot(b, |b.hooks| - 1, q, t);
            var (v, e) := Issue(b, filled);
            && Fills(b, |b.hooks|, |b.hooks|, filled, v) && Leaves(b, |b.hooks|, |b.hooks|, e, filled, v)
            && e == Answer(b, |b.hooks|, s.muts, s.stored, v.specs)
            && v.nodes[|b.hooks| - 1] == Some(b.code.node(PreparedAt(b, s.muts, |b.hooks| - 1)))
  {
  }

  lemma {:induction false} SameAnswer(b: Setting, i: nat, k: nat, s: State, t: State, q: nat, batch: Batch)
    requires Started(b, i, s) && i + 1 < |b.hooks| && Valid(b, t) && Arrives(b, i, 0, i, s, t, q)
    requires i < k <= |b.hooks|
    ensures var filled := FillSlot(b, i, q, t);
            Answer(b, k, filled.muts, filled.stored, batch) == Answer(b, k, s.muts, s.stored, batch)
  {
  }

  /** What the builders after i, or the insert, have done when they come back to builder i with e. */
  ghost predicate ComesTo(
    b: Setting, i: nat, k: nat, err: Option<SaveError>, s: State, t: State, q: nat, v: State, e: Option<SaveError>)
    requires Started(b, i, s) && i < k <= |b.hooks| && Valid(b, t) && Arrives(b, i, 0, i, s, t, q)
  {
    && |v.own| == |b.hooks| && Valid(b, v)
    && Fills(b, i + 1, k, FillSlot(b, i, q, t), v) && Leaves(b, i + 1, k, err, FillSlot(b, i, q, t), v)
    && v.nodes[i] == Some(b.code.node(PreparedAt(b, s.muts, i)))
    && e == ComesBack(b, i, Last(b, k), err) && err == Answer(b, k, s.muts, s.stored, v.specs)
  }

  lemma {:induction false} OutcomeComesTo(
    b: Setting, i: nat, s: State, t: State, q: nat, v: State, e: Option<SaveError>)
    requires Started(b, i, s) && i + 1 < |b.hooks| && Valid(b, t) && Arrives(b, i, 0, i, s, t, q)
    requires Started(b, i + 1, FillSlot(b, i, q, t)) && Outcome(b, i + 1, FillSlot(b, i, q, t), (v, e))
    ensures var k := FirstInvalid(b, i + 1, s.muts);
            Valid(b, v) && ComesTo(b, i, k, Answer(b, k, s.muts, s.stored, v.specs), s, t, q, v, e)
  {
    FilledStarts(b, i, s, t, q);
    SameAnswer(b, i, FirstInvalid(b, i + 1, s.muts), s, t, q, v.specs);
  }

  lemma {:induction false} ComesToOutcome(
    b: Setting, i: nat, err: Option<SaveError>, s: State, t: State, q: nat, v: State, e: Option<SaveError>)
    requires Started(b, i, s) && i < |b.hooks| && Valid(b, t) && Arrives(b, i, 0, i, s, t, q)
    requires b.code.check(OriginalAt(b, s.muts, i)).None?
    requires ComesTo(b, i, FirstInvalid(b, i + 1, s.muts), err, s, t, q, v, e)
    requires (v, e) == Proceed(b, i, FillSlot(b, i, q, t))
    requires var (u, err) := Base(b, i, q, t);
             Departs(b, i, 0, i, |s.muts|, |t.muts|, q, u, err, Run(b, i, 0, i, s))
    ensures Outcome(b, i, s, Run(b, i, 0, i, s))
  {
    assert Base(b, i, q, t) == (Completed(b, i, q, v, e), e);
    PassingBuilder(b, i, FirstInvalid(b, i + 1, s.muts), err, s, t, q, v, Run(b, i, 0, i, s));
  }

  /** The builders after i, or the insert. */
  lemma {:induction false} RestComesTo(b: Setting, i: nat, s: State, t: State, q: nat)
    requires Started(b, i, s) && i < |b.hooks| && AllOnce(b) && Valid(b, t) && Arrives(b, i, 0, i, s, t, q)
    ensures var (v, e) := Proceed(b, i, FillSlot(b, i, q, t));
            var k := FirstInvalid(b, i + 1, s.muts);
            Valid(b, v) && ComesTo(b, i, k, Answer(b, k, s.muts, s.stored, v.specs), s, t, q, v, e)
    decreases |b.hooks| - i, 0
  {
    if i + 1 < |b.hooks| {
      FilledStarts(b, i, s, t, q);
      OnceOutcome(b, i + 1, FillSlot(b, i, q, t));
      var (v, e) := Proceed(b, i, FillSlot(b, i, q, t));
      OutcomeComesTo(b, i, s, t, q, v, e);
    } else {
      IssueLeaves(b, s, t, q);
    }
  }

  /** The chain from builder i, for all hooks that call on once, whatever they exchange, tolerate and return. */
  lemma {:induction false} OnceOutcome(b: Setting, i: nat, s: State)
    requires Started(b, i, s) && i < |b.hooks| && AllOnce(b)
    ensures Outcome(b, i, s, Run(b, i, 0, i, s))
    decreases |b.hooks| - i, 1
  {
    var t, q := OnceRun(b, i, 0, i, s);
    if b.code.check(OriginalAt(b, s.muts, i)).Some? {
      FailingBuilder(b, i, s, t, q);
    } else {
      RestComesTo(b, i, s, t, q);
      var (v, e) := Proceed(b, i, FillSlot(b, i, q, t));
      ComesToOutcome(b, i, Answer(b, FirstInvalid(b, i + 1, s.muts), s.muts, s.stored, v.specs), s, t, q, v, e);
    }
  }

  // ----- saving distinct builders -----

  /** Distinct builders with mutations of their own, none of them done. */
  ghost predicate Separate(b: Setting, muts: seq<Mutation>) {
    && |b.at| == |b.hooks| == |muts| && (forall i :: 0 <= i < |b.at| ==> b.at[i] == i)
    && forall i :: 0 <= i < |muts| ==> !muts[i].done
  }

  function SaveEach(b: Setting, muts: seq<Mutation>, stored: seq<Batch>, memory: Memory): (State, Option<SaveError>)
    requires |b.at| == |b.hooks| == |muts| && forall i :: 0 <= i < |b.at| ==> b.at[i] == i
  {
    Save(b, Identity(|muts|), muts, stored, memory)
  }

  function SpecsOf(code: Template, ms: seq<Mutation>): (batch: Batch)
    ensures |batch| == |ms| && forall i :: 0 <= i < |ms| ==> batch[i] == Some(code.spec(ms[i]))
  {
    if ms == [] then [] else [Some(code.spec(ms[0]))] + SpecsOf(code, ms[1..])
  }

  function PreparedFrom(b: Setting, muts: seq<Mutation>, i: nat): (ms: seq<Mutation>)
    requires i <= |b.hooks| == |muts|
    ensures |ms| == |b.hooks| - i && forall j :: 0 <= j < |ms| ==> ms[j] == PreparedAt(b, muts, i + j)
    decreases |b.hooks| - i
  {
    if i == |b.hooks| then [] else [PreparedAt(b, muts, i)] + PreparedFrom(b, muts, i + 1)
  }

  /** The specification of the mutation that reaches builder i, in slot i. */
  function BatchOf(b: Setting, muts: seq<Mutation>): Batch
    requires |b.hooks| == |muts|
  {
    SpecsOf(b.code, PreparedFrom(b, muts, 0))
  }

  /** What is answered to the hooks of the last builder that runs in a save. */
  function AnswerOf(b: Setting, muts: seq<Mutation>, stored: seq<Batch>): Option<SaveError>
    requires |b.hooks| == |muts|
  {
    Answer(b, FirstInvalid(b, 0, muts), muts, stored, BatchOf(b, muts))
  }

  /** Hooks that call on once, whatever they exchange, tolerate or return: if some builder's own mutation, as it stands
      when it is checked, does not pass, nothing is sent; otherwise exactly one insert is sent, with the specification
      of the mutation that reaches builder i in slot i and its node beside it, and stored if the database accepts. */
  lemma {:induction false} OneInsert(b: Setting, muts: seq<Mutation>, stored: seq<Batch>, memory: Memory)
    requires Separate(b, muts) && AllOnce(b) && |muts| > 0
    ensures var t := SaveEach(b, muts, stored, memory).0;
            var batch := BatchOf(b, muts);
            if exists i :: 0 <= i < |muts| && b.code.check(OriginalAt(b, muts, i)).Some?
            then t.issued == [] && t.stored == stored
            else && t.issued == [batch]
                 && t.stored == (if b.refusal(stored, batch).None? then stored + [batch] else stored)
                 && |t.nodes| == |muts|
                 && forall i :: 0 <= i < |muts| ==> t.nodes[i] == Some(b.code.node(PreparedAt(b, muts, i)))
  {
    SaveOutcome(b, muts, stored, memory);
  }

  /** The whole outcome of a save: which mutations are where, and the error. */
  lemma {:induction false} SaveOutcome(b: Setting, muts: seq<Mutation>, stored: seq<Batch>, memory: Memory)
    requires Separate(b, muts) && AllOnce(b) && |muts| > 0
    ensures var s := Start(b, Identity(|muts|), muts, stored, memory);
            var k := FirstInvalid(b, 0, muts);
            var (t, err) := SaveEach(b, muts, stored, memory);
            && Valid(b, s) && Valid(b, t) && |t.own| == |muts|
            && Fills(b, 0, k, s, t) && Leaves(b, 0, k, AnswerOf(b, muts, stored), s, t)
            && (k == |muts| ==> t.specs == BatchOf(b, muts))
            && err == Through(b, 0, 0, ComesBack(b, 0, Last(b, k), AnswerOf(b, muts, stored)))
  {
    var s := Start(b, Identity(|muts|), muts, stored, memory);
    OnceOutcome(b, 0, s);
    var t := SaveEach(b, muts, stored, memory).0;
    if FirstInvalid(b, 0, muts) == |muts| { assert t.specs == BatchOf(b, muts); }
  }

  /** What the database holds after a save, what is returned, and the error. */
  ghost predicate Sent(
    b: Setting, muts: seq<Mutation>, stored: seq<Batch>, after: seq<Batch>, nodes: seq<Option<Fields>>,
    failure: Option<SaveError>)
    requires |muts| == |b.hooks| > 0
  {
    var k := FirstInvalid(b, 0, muts);
    var answer := AnswerOf(b, muts, stored);
    && after == (if answer.None? then stored + [BatchOf(b, muts)] else stored)
    && failure == Through(b, 0, 0, ComesBack(b, 0, Last(b, k), answer))
    && (failure.None? ==>
          && |nodes| == |muts|
          && forall i :: 0 <= i < |nodes| ==>
               nodes[i] == if i < k then Some(b.code.node(PreparedAt(b, muts, i))) else None)
  }

  // ----- what is inserted unchecked -----

  /** Whether a mutation passes the checks can be seen from its specification. */
  ghost predicate Telling(code: Template) {
    forall m, n :: code.spec(m) == code.spec(n) ==> (code.check(m).None? <==> code.check(n).None?)
  }

  /** A slot of the insert holds a specification that was checked if and only if the mutation that reaches the builder
      passes the checks. It always does if the hooks do not exchange the mutation. */
  lemma {:induction false} SlotIsChecked(
    b: Setting, muts: seq<Mutation>, stored: seq<Batch>, memory: Memory, i: nat)
    requires Separate(b, muts) && AllOnce(b) && i < |muts| && Telling(b.code)
    requires SaveEach(b, muts, stored, memory).0.issued != []
    ensures var t := SaveEach(b, muts, stored, memory).0;
            && |t.issued| == 1 && |t.issued[0]| == |muts| && t.issued[0][i].Some?
            && (Checked(b.code, t.issued[0][i].value) <==> b.code.check(PreparedAt(b, muts, i)).None?)
            && (!SwapsFrom(b, i, 0) ==> Checked(b.code, t.issued[0][i].value))
  {
    OneInsert(b, muts, stored, memory);
    assert BatchOf(b, muts)[i] == Some(b.code.spec(PreparedAt(b, muts, i)));
    if !SwapsFrom(b, i, 0) {
      SameObject(b, i, 0, muts[i]);
      assert b.code.check(OriginalAt(b, muts, i)).None?;
    }
  }

  /** Everything that is inserted was checked, if and only if it is so at the builders whose hooks exchange the
      mutation. */
  lemma {:induction false} InsertIsChecked(b: Setting, muts: seq<Mutation>, stored: seq<Batch>, memory: Memory)
    requires Separate(b, muts) && AllOnce(b) && |muts| > 0 && Telling(b.code)
    requires SaveEach(b, muts, stored, memory).0.issued != []
    ensures var t := SaveEach(b, muts, stored, memory).0;
            && |t.issued| == 1 && |t.issued[0]| == |muts|
            && ((forall i :: 0 <= i < |muts| ==> t.issued[0][i].Some? && Checked(b.code, t.issued[0][i].value)) <==>
                (forall i :: 0 <= i < |muts| && SwapsFrom(b, i, 0) ==>
                   b.code.check(PreparedAt(b, muts, i)).None?))
  {
    OneInsert(b, muts, stored, memory);
    forall i | 0 <= i < |muts|
      ensures var spec := SaveEach(b, muts, stored, memory).0.issued[0][i];
              && spec.Some? && (Checked(b.code, spec.value) <==> b.code.check(PreparedAt(b, muts, i)).None?)
              && (!SwapsFrom(b, i, 0) ==> Checked(b.code, spec.value))
    {
      SlotIsChecked(b, muts, stored, memory, i);
    }
  }

  // ----- all or nothing -----

  /** Everything was stored, the mutation of every builder is done and the save succeeds, or none of this. */
  ghost predicate AllOrNone(b: Setting, muts: seq<Mutation>, stored: seq<Batch>, memory: Memory)
    requires Separate(b, muts)
  {
    var (t, err) := SaveEach(b, muts, stored, memory);
    var kept := t.stored != stored;
    && (err.None? <==> kept)
    && |t.own| == |muts|
    && forall i :: 0 <= i < |muts| ==> t.own[i] < |t.muts| && (t.muts[t.own[i]].done <==> kept)
  }

  /** When `err` is answered to the hooks of the last builder that runs, a failure comes out of the hooks of each
      builder if and only if `err` is one. */
  ghost predicate AnswerReturns(b: Setting, last: nat, err: Option<SaveError>)
    requires last < |b.hooks|
  {
    forall j :: 0 <= j <= last ==> (Through(b, j, 0, ComesBack(b, j, last, err)).Some? <==> err.Some?)
  }

  /** A failure comes back to each builder if and only if `err` is one. */
  ghost predicate ComesBackToEach(b: Setting, last: nat, err: Option<SaveError>)
    requires last < |b.hooks|
  {
    forall j :: 0 <= j <= last ==> (ComesBack(b, j, last, err).Some? <==> err.Some?)
  }

  /** What comes back to a builder is what comes out of the hooks of the next one. */
  lemma {:induction false} ReturnsIff(b: Setting, last: nat, err: Option<SaveError>)
    requires last < |b.hooks|
    ensures AnswerReturns(b, last, err) <==>
            && (Through(b, 0, 0, ComesBack(b, 0, last, err)).Some? <==> err.Some?)
            && ComesBackToEach(b, last, err)
  {
    if AnswerReturns(b, last, err) {
      assert Through(b, 0, 0, ComesBack(b, 0, last, err)).Some? <==> err.Some?;
      forall j | 0 <= j <= last ensures ComesBack(b, j, last, err).Some? <==> err.Some? {
        if j < last { assert Through(b, j + 1, 0, ComesBack(b, j + 1, last, err)).Some? <==> err.Some?; }
      }
    }
    if ComesBackToEach(b, last, err) && (Through(b, 0, 0, ComesBack(b, 0, last, err)).Some? <==> err.Some?) {
      forall j | 0 <= j <= last ensures Through(b, j, 0, ComesBack(b, j, last, err)).Some? <==> err.Some? {
        if j > 0 { assert ComesBack(b, j - 1, last, err) == Through(b, j, 0, ComesBack(b, j, last, err)); }
      }
    }
  }

  lemma {:induction false} FinalDone(b: Setting, j: nat, k: nat, err: Option<SaveError>, m: Mutation)
    requires j < |b.hooks| && !m.done && (k < |b.hooks| ==> err.Some?)
    ensures Final(b, j, k, err, m).done <==> j <= Last(b, k) && ComesBack(b, j, Last(b, k), err).None?
  {
  }

  /** Success, storing and completion, in terms of the answer. */
  ghost predicate Follows(b: Setting, last: nat, err: Option<SaveError>, stored: seq<Batch>, t: State)
    requires last < |b.hooks|
  {
    && (t.stored != stored <==> err.None?)
    && |t.own| == |b.hooks|
    && forall j :: 0 <= j < |b.hooks| ==>
         && t.own[j] < |t.muts|
         && (t.muts[t.own[j]].done <==> j <= last && ComesBack(b, j, last, err).None?)
  }

  lemma {:induction false} OutcomeFollows(b: Setting, muts: seq<Mutation>, stored: seq<Batch>, memory: Memory)
    requires Separate(b, muts) && AllOnce(b) && |muts| > 0
    ensures Follows(b, Last(b, FirstInvalid(b, 0, muts)), AnswerOf(b, muts, stored), stored,
                    SaveEach(b, muts, stored, memory).0)
  {
    SaveOutcome(b, muts, stored, memory);
    var s := Start(b, Identity(|muts|), muts, stored, memory);
    var t := SaveEach(b, muts, stored, memory).0;
    var k := FirstInvalid(b, 0, muts);
    forall j | 0 <= j < |muts|
      ensures t.own[j] < |t.muts|
      ensures t.muts[t.own[j]].done <==> j <= Last(b, k) && ComesBack(b, j, Last(b, k), AnswerOf(b, muts, stored)).None?
    {
      assert Refers(b, j, k, AnswerOf(b, muts, stored), s, t);
      FinalDone(b, j, k, AnswerOf(b, muts, stored), muts[j]);
    }
  }

  /** For one save with hooks that call on once: it is all or nothing if and only if the answer of the checks and the
      database comes out of the hooks of every builder that runs. */
  lemma {:induction false} AllOrNoneIff(b: Setting, muts: seq<Mutation>, stored: seq<Batch>, memory: Memory)
    requires Separate(b, muts) && AllOnce(b) && |muts| > 0
    ensures AllOrNone(b, muts, stored, memory) <==>
            AnswerReturns(b, Last(b, FirstInvalid(b, 0, muts)), AnswerOf(b, muts, stored))
  {
    SaveOutcome(b, muts, stored, memory);
    OutcomeFollows(b, muts, stored, memory);
    var (t, err) := SaveEach(b, muts, stored, memory);
    AllOrNoneFollows(b, muts, Last(b, FirstInvalid(b, 0, muts)), AnswerOf(b, muts, stored), stored, t, err);
  }

  lemma {:induction false} AllOrNoneFollows(
    b: Setting, muts: seq<Mutation>, last: nat, answer: Option<SaveError>, stored: seq<Batch>, t: State,
    err: Option<SaveError>)
    requires |muts| == |b.hooks| > last && Follows(b, last, answer, stored, t)
    requires err == Through(b, 0, 0, ComesBack(b, 0, last, answer)) && (answer.None? ==> last == |b.hooks| - 1)
    ensures var kept := t.stored != stored;
            (err.None? <==> kept) && (forall i :: 0 <= i < |muts| ==> (t.muts[t.own[i]].done <==> kept)) <==>
            AnswerReturns(b, last, answer)
  {
    ReturnsIff(b, last, answer);
    if AnswerReturns(b, last, answer) {
      forall i | 0 <= i < |muts| ensures t.muts[t.own[i]].done <==> answer.None? {
        if i <= last { assert ComesBack(b, i, last, answer).Some? <==> answer.Some?; }
      }
    } else if err.None? <==> answer.None? {
      var j: nat :| j <= last && !(ComesBack(b, j, last, answer).Some? <==> answer.Some?);
      assert !(t.muts[t.own[j]].done <==> answer.None?);
    }
  }

  /** Acceptance and every refusal come out of the hooks of each builder, along the whole chain. */
  ghost predicate LetsThrough(b: Setting)
    requires |b.hooks| > 0
  {
    && AnswerReturns(b, |b.hooks| - 1, None)
    && forall reason :: AnswerReturns(b, |b.hooks| - 1, Some(Refused(reason)))
  }

  /** Which hooks make a save all or nothing whatever the database answers: for builders that pass their checks, and
      hooks that call on once, exactly those that let acceptance and every refusal through. */
  lemma {:induction false} AllOrNoneForEveryDatabase(
    b: Setting, muts: seq<Mutation>, stored: seq<Batch>, memory: Memory)
    requires Separate(b, muts) && AllOnce(b) && |muts| > 0 && FirstInvalid(b, 0, muts) == |muts|
    ensures (forall refusal :: AllOrNone(b.(refusal := refusal), muts, stored, memory)) <==> LetsThrough(b)
  {
    if LetsThrough(b) {
      forall refusal ensures AllOrNone(b.(refusal := refusal), muts, stored, memory) {
        AnyAnswer(b, b.(refusal := refusal), muts, stored, memory);
      }
    }
    if forall refusal :: AllOrNone(b.(refusal := refusal), muts, stored, memory) {
      var accepting := b.(refusal := (_, _) => None);
      assert AllOrNone(accepting, muts, stored, memory);
      AnyAnswer(b, accepting, muts, stored, memory);
      forall reason ensures AnswerReturns(b, |b.hooks| - 1, Some(Refused(reason))) {
        var refusing := b.(refusal := (_, _) => Some(reason));
        assert AllOrNone(refusing, muts, stored, memory);
        AnyAnswer(b, refusing, muts, stored, memory);
      }
    }
  }

  /** The same builders before another database. */
  lemma {:induction false} AnyAnswer(b: Setting, c: Setting, muts: seq<Mutation>, stored: seq<Batch>, memory: Memory)
    requires Separate(b, muts) && AllOnce(b) && |muts| > 0 && FirstInvalid(b, 0, muts) == |muts|
    requires c == b.(refusal := c.refusal)
    ensures var refusal := c.refusal(stored, BatchOf(c, muts));
            AllOrNone(c, muts, stored, memory) <==>
            AnswerReturns(b, |b.hooks| - 1, if refusal.Some? then Some(Refused(refusal.value)) else None)
  {
    SameChecks(b, c, 0, muts);
    AllOrNoneIff(c, muts, stored, memory);
    SameReturns(b, c, |b.hooks| - 1, AnswerOf(c, muts, stored));
  }

  lemma {:induction false} SameReturns(b: Setting, c: Setting, last: nat, err: Option<SaveError>)
    requires last < |b.hooks| && c == b.(refusal := c.refusal)
    ensures AnswerReturns(c, last, err) <==> AnswerReturns(b, last, err)
  {
    forall j | 0 <= j <= last
      ensures Through(c, j, 0, ComesBack(c, j, last, err)) == Through(b, j, 0, ComesBack(b, j, last, err))
    {
      SameComesBack(b, c, j, last, err);
      SameThrough(b, c, j, 0, ComesBack(b, j, last, err));
    }
  }

  lemma {:induction false} SameComesBack(b: Setting, c: Setting, j: nat, last: nat, err: Option<SaveError>)
    requires j <= last < |b.hooks| && c == b.(refusal := c.refusal)
    ensures ComesBack(c, j, last, err) == ComesBack(b, j, last, err)
    decreases last - j
  {
    if j < last {
      SameComesBack(b, c, j + 1, last, err);
      SameThrough(b, c, j + 1, 0, ComesBack(b, j + 1, last, err));
    }
  }

  lemma {:induction false} SameChecks(b: Setting, c: Setting, i: nat, muts: seq<Mutation>)
    requires i <= |b.hooks| == |muts| && c == b.(refusal := c.refusal)
    ensures FirstInvalid(c, i, muts) == FirstInvalid(b, i, muts)
    decreases |b.hooks| - i
  {
    if i < |b.hooks| {
      SameOriginal(b, c, i, 0, muts[i]);
      SameChecks(b, c, i + 1, muts);
    }
  }

  lemma {:induction false} SameOriginal(b: Setting, c: Setting, i: nat, h: nat, m: Mutation)
    requires i < |b.hooks| && h <= |b.hooks[i]| && c == b.(refusal := c.refusal)
    ensures Original(c, i, h, m) == Original(b, i, h, m)
    decreases |b.hooks[i]| - h
  {
    if h < |b.hooks[i]| { SameOriginal(b, c, i, h + 1, Keeping(b.hooks[i][h], m)); }
  }

  lemma {:induction false} SameThrough(b: Setting, c: Setting, i: nat, h: nat, err: Option<SaveError>)
    requires i < |b.hooks| && h <= |b.hooks[i]| && c == b.(refusal := c.refusal)
    ensures Through(c, i, h, err) == Through(b, i, h, err)
    decreases |b.hooks[i]| - h
  {
    if h < |b.hooks[i]| { SameThrough(b, c, i, h + 1, err); }
  }

  // ----- hook by hook -----

  /** The hook fails if its call fails. */
  ghost predicate Fails(hook: Hook) {
    forall err :: Gives(hook, err).None? ==> err.None?
  }

  /** The hook tolerates every failure, as if there had been none. */
  ghost predicate Tolerates(hook: Hook) {
    forall err :: Gives(hook, err) == Gives(hook, None)
  }

  /** Each hook passes on every failure or tolerates every one. */
  ghost predicate AllSimple(b: Setting) {
    forall i, h :: 0 <= i < |b.hooks| && 0 <= h < |b.hooks[i]| ==> Fails(b.hooks[i][h]) || Tolerates(b.hooks[i][h])
  }

  /** Each hook fails if and only if its call fails. */
  ghost predicate AllStraight(b: Setting) {
    forall i, h, err :: 0 <= i < |b.hooks| && 0 <= h < |b.hooks[i]| ==>
      (Gives(b.hooks[i][h], err).Some? <==> err.Some?)
  }

  lemma {:induction false} StraightThrough(b: Setting, i: nat, h: nat, err: Option<SaveError>)
    requires i < |b.hooks| && h <= |b.hooks[i]| && AllStraight(b)
    ensures Through(b, i, h, err).Some? <==> err.Some?
    decreases |b.hooks[i]| - h
  {
    if h < |b.hooks[i]| { StraightThrough(b, i, h + 1, err); }
  }

  lemma {:induction false} StraightBack(b: Setting, j: nat, last: nat, err: Option<SaveError>)
    requires j <= last < |b.hooks| && AllStraight(b)
    ensures ComesBack(b, j, last, err).Some? <==> err.Some?
    decreases last - j
  {
    if j < last {
      StraightBack(b, j + 1, last, err);
      StraightThrough(b, j + 1, 0, ComesBack(b, j + 1, last, err));
    }
  }

  lemma {:induction false} StraightReturns(b: Setting, last: nat, err: Option<SaveError>)
    requires last < |b.hooks| && AllStraight(b)
    ensures AnswerReturns(b, last, err)
  {
    forall j | 0 <= j <= last ensures Through(b, j, 0, ComesBack(b, j, last, err)).Some? <==> err.Some? {
      StraightBack(b, j, last, err);
      StraightThrough(b, j, 0, ComesBack(b, j, last, err));
    }
  }

  lemma {:induction false} BothThrough(hook: Hook, accepted: Option<SaveError>, failed: Option<SaveError>)
    requires Fails(hook) || Tolerates(hook)
    requires Gives(hook, accepted).None? && Gives(hook, failed).Some?
    ensures Fails(hook) && accepted.None? && failed.Some?
  {
  }

  /** Simple hooks that let both an acceptance and a failure through are straight, every one of them. */
  lemma {:induction false} LettingBothThrough(b: Setting, i: nat, h: nat, err: Option<SaveError>)
    requires i < |b.hooks| && h <= |b.hooks[i]| && AllSimple(b)
    requires Through(b, i, h, None).None? && Through(b, i, h, err).Some?
    ensures forall g, e :: h <= g < |b.hooks[i]| ==> (Gives(b.hooks[i][g], e).Some? <==> e.Some?)
    decreases |b.hooks[i]| - h
  {
    if h < |b.hooks[i]| {
      BothThrough(b.hooks[i][h], Through(b, i, h + 1, None), Through(b, i, h + 1, err));
      LettingBothThrough(b, i, h + 1, err);
      forall e ensures Gives(b.hooks[i][h], e).Some? <==> e.Some? {
      }
    }
  }

  /** Of hooks that each pass on every failure or tolerate every one, exactly those let acceptance and refusals through
      that tolerate nothing and return no error of their own. */
  lemma {:induction false} SimpleHooks(b: Setting)
    requires |b.hooks| > 0 && AllSimple(b)
    ensures LetsThrough(b) <==> AllStraight(b)
  {
    var last := |b.hooks| - 1;
    if AllStraight(b) {
      StraightReturns(b, last, None);
      forall reason ensures AnswerReturns(b, last, Some(Refused(reason))) {
        StraightReturns(b, last, Some(Refused(reason)));
      }
    }
    if LetsThrough(b) {
      assert AnswerReturns(b, last, Some(Refused("")));
      ReturnsIff(b, last, None);
      forall i | 0 <= i < |b.hooks|
        ensures forall h, e :: 0 <= h < |b.hooks[i]| ==> (Gives(b.hooks[i][h], e).Some? <==> e.Some?)
      {
        assert ComesBack(b, i, last, None).None?;
        assert Through(b, i, 0, ComesBack(b, i, last, None)).None?;
        LettingBothThrough(b, i, 0, ComesBack(b, i, last, Some(Refused(""))));
      }
    }
  }

  // ----- hooks that return what comes back to them -----

  ghost predicate AllPassOn(b: Setting) {
    forall i, h, err :: 0 <= i < |b.hooks| && 0 <= h < |b.hooks[i]| ==> Gives(b.hooks[i][h], err) == err
  }

  lemma {:induction false} PassesThrough(b: Setting, i: nat, h: nat, err: Option<SaveError>)
    requires i < |b.hooks| && h <= |b.hooks[i]| && AllPassOn(b)
    ensures Through(b, i, h, err) == err
    decreases |b.hooks[i]| - h
  {
    if h < |b.hooks[i]| { PassesThrough(b, i, h + 1, err); }
  }

  lemma {:induction false} PassesBack(b: Setting, j: nat, last: nat, err: Option<SaveError>)
    requires j <= last < |b.hooks| && AllPassOn(b)
    ensures ComesBack(b, j, last, err) == err
    decreases last - j
  {
    if j < last {
      PassesBack(b, j + 1, last, err);
      PassesThrough(b, j + 1, 0, err);
    }
  }

  /** With hooks that call on once and return what comes back to them, a bulk save is all or nothing: if the mutation of
      some builder fails its checks, the error of the first of them is returned, nothing is sent and no mutation is
      marked done; otherwise the one insert either stores everything, with every mutation done, or the database refuses
      it, its error is returned, and none is done. */
  lemma {:induction false} AllOrNothing(b: Setting, muts: seq<Mutation>, stored: seq<Batch>, memory: Memory)
    requires Separate(b, muts) && AllOnce(b) && |muts| > 0 && AllPassOn(b)
    ensures AllOrNone(b, muts, stored, memory)
    ensures SaveEach(b, muts, stored, memory).1 == AnswerOf(b, muts, stored)
  {
    var last, err := Last(b, FirstInvalid(b, 0, muts)), AnswerOf(b, muts, stored);
    forall j | 0 <= j <= last
      ensures ComesBack(b, j, last, err) == err && Through(b, j, 0, ComesBack(b, j, last, err)) == err
    {
      PassesBack(b, j, last, err);
      PassesThrough(b, j, 0, err);
    }
    AllOrNoneIff(b, muts, stored, memory);
    SaveOutcome(b, muts, stored, memory);
  }

  // ----- no hooks -----

  ghost predicate Hookless(b: Setting) {
    forall i :: 0 <= i < |b.hooks| ==> b.hooks[i] == []
  }

  lemma {:induction false} NoHooks(b: Setting, muts: seq<Mutation>)
    requires |b.hooks| == |muts| && Hookless(b)
    ensures AllOnce(b) && AllPassOn(b)
    ensures forall i :: 0 <= i < |muts| ==> PreparedAt(b, muts, i) == OriginalAt(b, muts, i) == muts[i]
    ensures BatchOf(b, muts) == SpecsOf(b.code, muts)
  {
    assert PreparedFrom(b, muts, 0) == muts;
  }

  /** Without hooks, a save succeeds if and only if all mutations pass the checks and the database accepts the batch;
      otherwise the error is that of the first mutation that does not pass, or the reason of the database. */
  lemma {:induction false} HooklessSave(b: Setting, muts: seq<Mutation>, stored: seq<Batch>, memory: Memory)
    requires Separate(b, muts) && |muts| > 0 && Hookless(b)
    ensures var (t, err) := SaveEach(b, muts, stored, memory);
            var batch := SpecsOf(b.code, muts);
            && (err.None? <==> AllPass(b.code, muts) && b.refusal(stored, batch).None?)
            && (forall k: nat :: FirstFailing(b.code, muts, k) ==>
                  err == Some(CheckFailed(b.code.check(muts[k]).value)) && t.issued == [] && t.stored == stored)
            && (AllPass(b.code, muts) && b.refusal(stored, batch).Some? ==>
                  err == Some(Refused(b.refusal(stored, batch).value)) && t.stored == stored)
            && (err.None? ==>
                  && t.issued == [batch] && t.stored == stored + [batch] && |t.nodes| == |muts| <= |t.muts|
                  && t.own == Identity(|muts|)
                  && forall i :: 0 <= i < |muts| ==>
                       && t.nodes[i] == Some(b.code.node(muts[i]))
                       && t.muts[i] == muts[i].(id := Some(b.code.id(b.code.node(muts[i]))), done := true))
  {
    NoHooks(b, muts);
    AllOrNothing(b, muts, stored, memory);
    OneInsert(b, muts, stored, memory);
    forall k: nat | FirstFailing(b.code, muts, k)
      ensures AnswerOf(b, muts, stored) == Some(CheckFailed(b.code.check(muts[k]).value))
    {
      HooklessFails(b, muts, stored, k);
    }
    if AllPass(b.code, muts) { HooklessPasses(b, muts, stored); }
    if SaveEach(b, muts, stored, memory).1.None? { HooklessMutations(b, muts, stored, memory); }
  }

  /** The first mutation that does not pass the checks. */
  ghost predicate FirstFailing(code: Template, muts: seq<Mutation>, k: nat) {
    k < |muts| && code.check(muts[k]).Some? && forall i :: 0 <= i < k ==> code.check(muts[i]).None?
  }

  ghost predicate AllPass(code: Template, muts: seq<Mutation>) {
    forall i :: 0 <= i < |muts| ==> code.check(muts[i]).None?
  }

  lemma {:induction false} HooklessFails(b: Setting, muts: seq<Mutation>, stored: seq<Batch>, k: nat)
    requires |b.hooks| == |muts| && Hookless(b)
    requires FirstFailing(b.code, muts, k)
    ensures AnswerOf(b, muts, stored) == Some(CheckFailed(b.code.check(muts[k]).value))
  {
    NoHooks(b, muts);
    FirstInvalidIs(b, muts, k);
    assert OriginalAt(b, muts, k) == muts[k];
  }

  lemma {:induction false} HooklessPasses(b: Setting, muts: seq<Mutation>, stored: seq<Batch>)
    requires |b.hooks| == |muts| && Hookless(b) && AllPass(b.code, muts)
    ensures var refusal := b.refusal(stored, SpecsOf(b.code, muts));
            AnswerOf(b, muts, stored) == if refusal.Some? then Some(Refused(refusal.value)) else None
  {
    NoHooks(b, muts);
    assert forall i :: 0 <= i < |muts| ==> OriginalAt(b, muts, i) == muts[i];
  }

  lemma {:induction false} FirstInvalidIs(b: Setting, muts: seq<Mutation>, k: nat)
    requires k < |muts| == |b.hooks| && forall i :: 0 <= i < |muts| ==> OriginalAt(b, muts, i) == muts[i]
    requires b.code.check(muts[k]).Some? && forall i :: 0 <= i < k ==> b.code.check(muts[i]).None?
    ensures FirstInvalid(b, 0, muts) == k
  {
    assert OriginalAt(b, muts, k) == muts[k];
  }

  lemma {:induction false} HooklessMutations(b: Setting, muts: seq<Mutation>, stored: seq<Batch>, memory: Memory)
    requires Separate(b, muts) && |muts| > 0 && Hookless(b)
    requires SaveEach(b, muts, stored, memory).1.None?
    ensures var t := SaveEach(b, muts, stored, memory).0;
            && |muts| <= |t.muts| && t.own == Identity(|muts|)
            && forall i :: 0 <= i < |muts| ==>
                 t.muts[i] == muts[i].(id := Some(b.code.id(b.code.node(muts[i]))), done := true)
  {
    NoHooks(b, muts);
    AllOrNothing(b, muts, stored, memory);
    SaveOutcome(b, muts, stored, memory);
    var s, t := Start(b, Identity(|muts|), muts, stored, memory), SaveEach(b, muts, stored, memory).0;
    forall i | 0 <= i < |muts|
      ensures t.own[i] == i
      ensures t.muts[i] == muts[i].(id := Some(b.code.id(b.code.node(muts[i]))), done := true)
    {
      assert Refers(b, i, |muts|, None, s, t);
      HooklessFinal(b, i, muts[i]);
    }
    assert t.own == Identity(|muts|);
  }

  lemma {:induction false} HooklessFinal(b: Setting, i: nat, m: Mutation)
    requires i < |b.hooks| && AllPassOn(b) && b.hooks[i] == []
    ensures Final(b, i, |b.hooks|, None, m) == m.(id := Some(b.code.id(b.code.node(m))), done := true)
    ensures !SwapsFrom(b, i, 0)
  {
    PassesBack(b, i, |b.hooks| - 1, None);
  }
}
