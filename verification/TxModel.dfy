/**
A transactional client as a state machine: the statements executed so far, what is committed, and the hooks that run
around the end of the transaction.
*/
module TxModel {
  import opened Wrappers
  import Hooks

  datatype Error = TxDone | TxStarted | StartFailed | Refused(reason: string) | HookError(reason: string)

  datatype Phase = Open | Committed | RolledBack

  datatype Ending = Commit | Rollback

  /** What can be done with a transactional client, by a caller, by a hook, or by the builders themselves. Builders
      start, commit, roll back and close the transaction they are given; callers and hooks can end it for real. */
  datatype Step =
    | Exec(stmt: nat)
    | BuilderTx
    | BuilderCommit
    | BuilderRollback
    | BuilderClose
    | StartTx
    | OnCommit(hook: Hook)
    | OnRollback(hook: Hook)
    | End(ending: Ending)

  /** What hooks share with each other and keep from one call to the next. */
  type Memory = seq<int>

  /** A hook takes steps and calls the next ender, as often as it likes, and decides what comes next by what it
      remembers and by the error of its last step or call. */
  datatype Hook =
    | Return(verdict: Option<Error> -> Option<Error>)
    | Do(step: Step, more: Hook)
    | Next(more: Hook)
    | Choose(test: (Memory, Option<Error>) -> bool, yes: Hook, no: Hook)
    | Remember(update: (Memory, Option<Error>) -> Memory, more: Hook)

  /** What the database answers, given all statements that were sent to the transaction before: to a statement, to a
      commit and to a rollback. */
  datatype Answers = Answers(
    statement: (seq<nat>, nat) -> Option<string>, commit: seq<nat> -> Option<string>,
    rollback: seq<nat> -> Option<string>)

  /** `sent` are the statements sent to the transaction and `executed` those that the database accepted. */
  datatype State = State(
    answers: Answers, committed: seq<nat>, begun: nat, sent: seq<nat>, executed: seq<nat>, phase: Phase,
    memory: Memory, onCommit: seq<Hook>, onRollback: seq<Hook>)

  /** A step or a call returns an error or none, unless the stack overflows, which ends the program. */
  datatype Outcome = Done(err: Option<Error>) | Overflow

  // ----- the machine -----

  function HooksFor(s: State, ending: Ending): seq<Hook> {
    if ending.Commit? then s.onCommit else s.onRollback
  }

  function RefusalError(refusal: Option<string>): Option<Error> {
    if refusal.Some? then Some(Refused(refusal.value)) else None
  }

  /** Hooks that end the transaction run the hooks again, so calls may nest without bound. `depth` is the number of
      ends that fit on the stack; one more overflows it. */
  function Perform(depth: nat, s: State, step: Step): (State, Outcome)
    decreases depth, 0, 0, Return(_ => None)
  {
    match step
    case Exec(stmt) =>
      if !s.phase.Open? then (s, Done(Some(TxDone)))
      else
        var refusal := s.answers.statement(s.sent, stmt);
        (s.(sent := s.sent + [stmt], executed := if refusal.None? then s.executed + [stmt] else s.executed),
         Done(RefusalError(refusal)))
    case StartTx => (s, Done(Some(TxStarted)))
    case OnCommit(hook) => (s.(onCommit := s.onCommit + [hook]), Done(None))
    case OnRollback(hook) => (s.(onRollback := s.onRollback + [hook]), Done(None))
    case End(ending) =>
      if depth == 0 then (s, Overflow) else RunChain(depth - 1, s, ending, HooksFor(s, ending))
    case _ => (s, Done(None))
  }

  /** The end of the underlying transaction, which is over even if the database refuses. */
  function Base(s: State, ending: Ending): (State, Outcome) {
    if !s.phase.Open? then (s, Done(Some(TxDone)))
    else
      var refusal := if ending.Commit? then s.answers.commit(s.sent) else s.answers.rollback(s.sent);
      if ending.Commit? && refusal.None?
      then (s.(phase := Committed, committed := s.committed + s.executed), Done(None))
      else (s.(phase := RolledBack), Done(RefusalError(refusal)))
  }

  /** Runs the chain of hooks around the base. */
  function RunChain(depth: nat, s: State, ending: Ending, hooks: seq<Hook>): (State, Outcome)
    decreases depth, |hooks|, 0, Return(_ => None)
  {
    if hooks == [] then Base(s, ending) else RunHook(depth, s, ending, hooks[0], None, hooks[1..])
  }

  /** What is left of a hook, after a step or a call that returned `last`. */
  function RunHook(depth: nat, s: State, ending: Ending, hook: Hook, last: Option<Error>, inner: seq<Hook>)
    : (State, Outcome)
    decreases depth, |inner|, 1, hook
  {
    match hook
    case Return(verdict) => (s, Done(verdict(last)))
    case Do(step, more) =>
      var (t, o) := Perform(depth, s, step);
      if o.Overflow? then (t, o) else RunHook(depth, t, ending, more, o.err, inner)
    case Next(more) =>
      var (t, o) := RunChain(depth, s, ending, inner);
      if o.Overflow? then (t, o) else RunHook(depth, t, ending, more, o.err, inner)
    case Choose(test, yes, no) =>
      if test(s.memory, last) then RunHook(depth, s, ending, yes, last, inner)
      else RunHook(depth, s, ending, no, last, inner)
    case Remember(update, more) =>
      RunHook(depth, s.(memory := update(s.memory, last)), ending, more, last, inner)
  }

  /** A run of the program, which goes on after every error. */
  function Play(depth: nat, s: State, steps: seq<Step>): State
    decreases steps
  {
    if steps == [] then s
    else
      var (t, o) := Perform(depth, s, steps[0]);
      if o.Overflow? then t else Play(depth, t, steps[1..])
  }

  // ----- a deeper stack changes nothing -----

  /** The same, unless the stack overflows. */
  ghost predicate Extends(r: (State, Outcome), deeper: (State, Outcome)) {
    !r.1.Overflow? ==> deeper == r
  }

  lemma {:induction false} DeeperPerform(depth: nat, s: State, step: Step)
    ensures Extends(Perform(depth, s, step), Perform(depth + 1, s, step))
    decreases depth, 0, 0, Return(_ => None)
  {
    if step.End? && depth > 0 { DeeperChain(depth - 1, s, step.ending, HooksFor(s, step.ending)); }
  }

  /** What a chain does does not depend on the size of the stack, if it fits. */
  lemma {:induction false} DeeperChain(depth: nat, s: State, ending: Ending, hooks: seq<Hook>)
    ensures Extends(RunChain(depth, s, ending, hooks), RunChain(depth + 1, s, ending, hooks))
    decreases depth, |hooks|, 0, Return(_ => None)
  {
    if hooks != [] { DeeperHook(depth, s, ending, hooks[0], None, hooks[1..]); }
  }

  lemma {:induction false} DeeperHook(
    depth: nat, s: State, ending: Ending, hook: Hook, last: Option<Error>, inner: seq<Hook>)
    ensures Extends(RunHook(depth, s, ending, hook, last, inner), RunHook(depth + 1, s, ending, hook, last, inner))
    decreases depth, |inner|, 1, hook
  {
    match hook
    case Return(_) =>
    case Do(step, more) =>
      DeeperPerform(depth, s, step);
      var (t, o) := Perform(depth, s, step);
      if !o.Overflow? { DeeperHook(depth, t, ending, more, o.err, inner); }
    case Next(more) =>
      DeeperChain(depth, s, ending, inner);
      var (t, o) := RunChain(depth, s, ending, inner);
      if !o.Overflow? { DeeperHook(depth, t, ending, more, o.err, inner); }
    case Choose(test, yes, no) =>
      DeeperHook(depth, s, ending, if test(s.memory, last) then yes else no, last, inner);
    case Remember(update, more) =>
      DeeperHook(depth, s.(memory := update(s.memory, last)), ending, more, last, inner);
  }

  // ----- the chain is a fold -----

  /** A committer or a rollbacker. */
  type Ender = State -> (State, Outcome)

  /** A hook as the code has it: a function from the next ender to an ender. */
  function Interpret(depth: nat, hook: Hook): Ender -> Ender {
    (next: Ender) => (s: State) => Around(depth, hook, None, next, s)
  }

  function Around(depth: nat, hook: Hook, last: Option<Error>, next: Ender, s: State): (State, Outcome)
    decreases hook
  {
    match hook
    case Return(verdict) => (s, Done(verdict(last)))
    case Do(step, more) =>
      var (t, o) := Perform(depth, s, step);
      if o.Overflow? then (t, o) else Around(depth, more, o.err, next, t)
    case Next(more) =>
      var (t, o) := next(s);
      if o.Overflow? then (t, o) else Around(depth, more, o.err, next, t)
    case Choose(test, yes, no) =>
      if test(s.memory, last) then Around(depth, yes, last, next, s) else Around(depth, no, last, next, s)
    case Remember(update, more) => Around(depth, more, last, next, s.(memory := update(s.memory, last)))
  }

  function InterpretAll(depth: nat, hooks: seq<Hook>): (fs: seq<Ender -> Ender>)
    ensures |fs| == |hooks|
  {
    if hooks == [] then [] else [Interpret(depth, hooks[0])] + InterpretAll(depth, hooks[1..])
  }

  /** Running the chain is calling the fold of the hooks over the base, the first hook outermost. */
  lemma {:induction false} ChainIsFold(depth: nat, s: State, ending: Ending, hooks: seq<Hook>)
    ensures Hooks.Fold(InterpretAll(depth, hooks), (t: State) => Base(t, ending))(s) ==
            RunChain(depth, s, ending, hooks)
    decreases |hooks|, 0, Return(_ => None)
  {
    var base: Ender := (t: State) => Base(t, ending);
    if hooks != [] {
      var fs := InterpretAll(depth, hooks);
      assert fs[1..] == InterpretAll(depth, hooks[1..]);
      HookIsFold(depth, s, ending, hooks[0], None, hooks[1..]);
    }
  }

  lemma {:induction false} HookIsFold(
    depth: nat, s: State, ending: Ending, hook: Hook, last: Option<Error>, inner: seq<Hook>)
    ensures var next := Hooks.Fold(InterpretAll(depth, inner), (t: State) => Base(t, ending));
            Around(depth, hook, last, next, s) == RunHook(depth, s, ending, hook, last, inner)
    decreases |inner|, 1, hook
  {
    match hook
    case Return(_) =>
    case Do(step, more) =>
      var (t, o) := Perform(depth, s, step);
      if !o.Overflow? { HookIsFold(depth, t, ending, more, o.err, inner); }
    case Next(more) =>
      ChainIsFold(depth, s, ending, inner);
      var (t, o) := RunChain(depth, s, ending, inner);
      if !o.Overflow? { HookIsFold(depth, t, ending, more, o.err, inner); }
    case Choose(test, yes, no) =>
      HookIsFold(depth, s, ending, if test(s.memory, last) then yes else no, last, inner);
    case Remember(update, more) =>
      HookIsFold(depth, s.(memory := update(s.memory, last)), ending, more, last, inner);
  }

  // ----- atomicity -----

  /** Where a transaction can be that began as `s`. */
  ghost predicate Reachable(s: State, t: State) {
    && t.begun == s.begun && t.answers == s.answers && s.sent <= t.sent && s.executed <= t.executed
    && (!s.phase.Open? ==>
          t.phase == s.phase && t.committed == s.committed && t.executed == s.executed && t.sent == s.sent)
    && (s.phase.Open? ==>
          && t.committed == (if t.phase.Committed? then s.committed + t.executed else s.committed)
          && (t.phase.Committed? ==> s.answers.commit(t.sent).None?))
  }

  lemma {:induction false} ReachableTransitive(s: State, t: State, u: State)
    requires Reachable(s, t) && Reachable(t, u)
    ensures Reachable(s, u)
  {
  }

  lemma {:induction false} StepReaches(depth: nat, s: State, step: Step)
    ensures Reachable(s, Perform(depth, s, step).0)
    decreases depth, 0, 0, Return(_ => None)
  {
    if step.End? && depth > 0 { ChainReaches(depth - 1, s, step.ending, HooksFor(s, step.ending)); }
  }

  lemma {:induction false} ChainReaches(depth: nat, s: State, ending: Ending, hooks: seq<Hook>)
    ensures Reachable(s, RunChain(depth, s, ending, hooks).0)
    decreases depth, |hooks|, 0, Return(_ => None)
  {
    if hooks != [] { HookReaches(depth, s, ending, hooks[0], None, hooks[1..]); }
  }

  lemma {:induction false} HookReaches(
    depth: nat, s: State, ending: Ending, hook: Hook, last: Option<Error>, inner: seq<Hook>)
    ensures Reachable(s, RunHook(depth, s, ending, hook, last, inner).0)
    decreases depth, |inner|, 1, hook
  {
    match hook
    case Return(_) =>
    case Do(step, more) =>
      StepReaches(depth, s, step);
      var (t, o) := Perform(depth, s, step);
      if !o.Overflow? {
        HookReaches(depth, t, ending, more, o.err, inner);
        ReachableTransitive(s, t, RunHook(depth, t, ending, more, o.err, inner).0);
      }
    case Next(more) =>
      ChainReaches(depth, s, ending, inner);
      var (t, o) := RunChain(depth, s, ending, inner);
      if !o.Overflow? {
        HookReaches(depth, t, ending, more, o.err, inner);
        ReachableTransitive(s, t, RunHook(depth, t, ending, more, o.err, inner).0);
      }
    case Choose(test, yes, no) =>
      HookReaches(depth, s, ending, if test(s.memory, last) then yes else no, last, inner);
    case Remember(update, more) =>
      HookReaches(depth, s.(memory := update(s.memory, last)), ending, more, last, inner);
  }

  /** Over every run of statements, builder calls, registrations, commits and rollbacks, with any hooks, which may end
      the transaction themselves to any depth, and any answers of the database: no second transaction begins; what is
      committed is what was committed before, followed, if and only if the transaction ended in the committed phase, by
      all statements executed in it, in order. */
  lemma {:induction false} Atomicity(depth: nat, s: State, steps: seq<Step>)
    ensures Reachable(s, Play(depth, s, steps))
    decreases steps
  {
    if steps != [] {
      var (t, o) := Perform(depth, s, steps[0]);
      StepReaches(depth, s, steps[0]);
      if !o.Overflow? {
        Atomicity(depth, t, steps[1..]);
        ReachableTransitive(s, t, Play(depth, t, steps[1..]));
      }
    }
  }

  // ----- exactly when a commit takes effect -----

  /** What changes while a transaction stays open. */
  datatype Pending = Pending(
    sent: seq<nat>, executed: seq<nat>, memory: Memory, onCommit: seq<Hook>, onRollback: seq<Hook>)

  /** What a walk through the hooks comes to first: the end of the underlying transaction, or its own end. */
  datatype Walk = Reaches(ending: Ending, pending: Pending) | Stays(pending: Pending, outcome: Outcome)

  /** The database's answers to statements. */
  type Replies = (seq<nat>, nat) -> Option<string>

  /** The walk knows nothing of what is committed, nor of the answers to a commit or a rollback. */
  function WalkStep(depth: nat, replies: Replies, p: Pending, step: Step): Walk
    decreases depth, 0, 0, Return(_ => None)
  {
    match step
    case Exec(stmt) =>
      var refusal := replies(p.sent, stmt);
      Stays(p.(sent := p.sent + [stmt], executed := if refusal.None? then p.executed + [stmt] else p.executed),
            Done(RefusalError(refusal)))
    case StartTx => Stays(p, Done(Some(TxStarted)))
    case OnCommit(hook) => Stays(p.(onCommit := p.onCommit + [hook]), Done(None))
    case OnRollback(hook) => Stays(p.(onRollback := p.onRollback + [hook]), Done(None))
    case End(ending) =>
      if depth == 0 then Stays(p, Overflow)
      else WalkChain(depth - 1, replies, p, ending, if ending.Commit? then p.onCommit else p.onRollback)
    case _ => Stays(p, Done(None))
  }

  function WalkChain(depth: nat, replies: Replies, p: Pending, ending: Ending, hooks: seq<Hook>): Walk
    decreases depth, |hooks|, 0, Return(_ => None)
  {
    if hooks == [] then Reaches(ending, p) else WalkHook(depth, replies, p, ending, hooks[0], None, hooks[1..])
  }

  function WalkHook(
    depth: nat, replies: Replies, p: Pending, ending: Ending, hook: Hook, last: Option<Error>, inner: seq<Hook>): Walk
    decreases depth, |inner|, 1, hook
  {
    match hook
    case Return(verdict) => Stays(p, Done(verdict(last)))
    case Do(step, more) =>
      var w := WalkStep(depth, replies, p, step);
      if w.Reaches? || w.outcome.Overflow? then w
      else WalkHook(depth, replies, w.pending, ending, more, w.outcome.err, inner)
    case Next(more) =>
      var w := WalkChain(depth, replies, p, ending, inner);
      if w.Reaches? || w.outcome.Overflow? then w
      else WalkHook(depth, replies, w.pending, ending, more, w.outcome.err, inner)
    case Choose(test, yes, no) =>
      if test(p.memory, last) then WalkHook(depth, replies, p, ending, yes, last, inner)
      else WalkHook(depth, replies, p, ending, no, last, inner)
    case Remember(update, more) =>
      WalkHook(depth, replies, p.(memory := update(p.memory, last)), ending, more, last, inner)
  }

  function PendingOf(s: State): Pending { Pending(s.sent, s.executed, s.memory, s.onCommit, s.onRollback) }

  /** The walk that a commit or a rollback takes. */
  function WalkOf(depth: nat, s: State, ending: Ending): Walk {
    WalkStep(depth, s.answers.statement, PendingOf(s), End(ending))
  }

  /** A run from an open transaction comes to what the walk says: if the walk reaches an end, this end decides the
      transaction, whatever the hooks do afterwards; otherwise the transaction is open. */
  ghost predicate Follows(w: Walk, s: State, r: (State, Outcome)) {
    var p := w.pending;
    match w
    case Reaches(ending, _) =>
      if ending.Commit? && s.answers.commit(p.sent).None?
      then r.0.phase.Committed? && r.0.committed == s.committed + p.executed
      else r.0.phase.RolledBack? && r.0.committed == s.committed
    case Stays(_, outcome) =>
      && r.0 == s.(sent := p.sent, executed := p.executed, memory := p.memory, onCommit := p.onCommit,
                   onRollback := p.onRollback)
      && r.1 == outcome
  }

  lemma {:induction false} StepFollows(depth: nat, s: State, step: Step)
    requires s.phase.Open?
    ensures Follows(WalkStep(depth, s.answers.statement, PendingOf(s), step), s, Perform(depth, s, step))
    decreases depth, 0, 0, Return(_ => None)
  {
    if step.End? && depth > 0 { ChainFollows(depth - 1, s, step.ending, HooksFor(s, step.ending)); }
  }

  lemma {:induction false} ChainFollows(depth: nat, s: State, ending: Ending, hooks: seq<Hook>)
    requires s.phase.Open?
    ensures Follows(WalkChain(depth, s.answers.statement, PendingOf(s), ending, hooks), s,
                    RunChain(depth, s, ending, hooks))
    decreases depth, |hooks|, 0, Return(_ => None)
  {
    if hooks != [] { HookFollows(depth, s, ending, hooks[0], None, hooks[1..]); }
  }

  lemma {:induction false} HookFollows(
    depth: nat, s: State, ending: Ending, hook: Hook, last: Option<Error>, inner: seq<Hook>)
    requires s.phase.Open?
    ensures Follows(WalkHook(depth, s.answers.statement, PendingOf(s), ending, hook, last, inner), s,
                    RunHook(depth, s, ending, hook, last, inner))
    decreases depth, |inner|, 1, hook, 0
  {
    var replies, p := s.answers.statement, PendingOf(s);
    match hook
    case Return(_) =>
    case Do(step, more) =>
      StepFollows(depth, s, step);
      RestFollows(depth, s, ending, WalkStep(depth, replies, p, step), Perform(depth, s, step), more, inner);
    case Next(more) =>
      ChainFollows(depth, s, ending, inner);
      RestFollows(
        depth, s, ending, WalkChain(depth, replies, p, ending, inner), RunChain(depth, s, ending, inner), more, inner);
    case Choose(test, yes, no) =>
      HookFollows(depth, s, ending, if test(s.memory, last) then yes else no, last, inner);
    case Remember(update, more) =>
      HookFollows(depth, s.(memory := update(s.memory, last)), ending, more, last, inner);
  }

  /** What is left of a hook after a step or a call. */
  lemma {:induction false} RestFollows(
    depth: nat, s: State, ending: Ending, w: Walk, r: (State, Outcome), more: Hook, inner: seq<Hook>)
    requires s.phase.Open? && Follows(w, s, r)
    ensures r.1.Done? ==>
              var rest := RunHook(depth, r.0, ending, more, r.1.err, inner);
              if w.Reaches? then Follows(w, s, rest)
              else Follows(WalkHook(depth, s.answers.statement, w.pending, ending, more, w.outcome.err, inner), s, rest)
    decreases depth, |inner|, 1, more, 1
  {
    if r.1.Done? {
      if w.Reaches? {
        HookReaches(depth, r.0, ending, more, r.1.err, inner);
      } else {
        assert PendingOf(r.0) == w.pending;
        HookFollows(depth, r.0, ending, more, r.1.err, inner);
      }
    }
  }

  /** Committing an open transaction changes the database if and only if the first end that the hooks come to, by
      calling on or by ending the transaction themselves, is a commit and the database does not refuse it; it then
      appends exactly the statements executed until then. */
  lemma {:induction false} CommitTakesEffect(depth: nat, s: State)
    requires s.phase.Open?
    ensures var w := WalkOf(depth, s, Commit);
            var t := Perform(depth, s, End(Commit)).0;
            if w.Reaches? && w.ending.Commit? && s.answers.commit(w.pending.sent).None?
            then t.committed == s.committed + w.pending.executed && t.phase.Committed?
            else t.committed == s.committed && !t.phase.Committed?
  {
    StepFollows(depth, s, End(Commit));
  }

  /** A commit or a rollback leaves the transaction open if and only if its hooks come to no end at all. */
  lemma {:induction false} HooksCanVeto(depth: nat, s: State, ending: Ending)
    requires s.phase.Open?
    ensures Perform(depth, s, End(ending)).0.phase.Open? <==> WalkOf(depth, s, ending).Stays?
  {
    StepFollows(depth, s, End(ending));
  }

  // ----- hooks that do not end the transaction themselves -----

  predicate CallsOnOnly(hook: Hook) {
    match hook
    case Return(_) => true
    case Do(step, more) => !step.End? && CallsOnOnly(more)
    case Next(more) => CallsOnOnly(more)
    case Choose(_, yes, no) => CallsOnOnly(yes) && CallsOnOnly(no)
    case Remember(_, more) => CallsOnOnly(more)
  }

  /** How the transaction stands when the hook first calls the next ender, if it does. */
  function Entry(replies: Replies, p: Pending, hook: Hook, last: Option<Error>): Option<Pending>
    decreases hook
  {
    match hook
    case Return(_) => None
    case Do(step, more) =>
      var w := WalkStep(0, replies, p, step);
      if w.Reaches? || w.outcome.Overflow? then None else Entry(replies, w.pending, more, w.outcome.err)
    case Next(_) => Some(p)
    case Choose(test, yes, no) =>
      if test(p.memory, last) then Entry(replies, p, yes, last) else Entry(replies, p, no, last)
    case Remember(update, more) => Entry(replies, p.(memory := update(p.memory, last)), more, last)
  }

  /** How it stands at the base, if each hook, called by the one before, calls the next at least once. */
  function Descent(replies: Replies, p: Pending, hooks: seq<Hook>): Option<Pending>
    decreases |hooks|
  {
    if hooks == [] then Some(p)
    else
      var q := Entry(replies, p, hooks[0], None);
      if q.None? then None else Descent(replies, q.value, hooks[1..])
  }

  lemma {:induction false} DescentReaches(depth: nat, replies: Replies, p: Pending, ending: Ending, hooks: seq<Hook>)
    requires Descent(replies, p, hooks).Some?
    ensures WalkChain(depth, replies, p, ending, hooks) == Reaches(ending, Descent(replies, p, hooks).value)
    decreases |hooks|, 0, Return(_ => None)
  {
    if hooks != [] { EntryReaches(depth, replies, p, ending, hooks[0], None, hooks[1..]); }
  }

  lemma {:induction false} EntryReaches(
    depth: nat, replies: Replies, p: Pending, ending: Ending, hook: Hook, last: Option<Error>, inner: seq<Hook>)
    requires Entry(replies, p, hook, last).Some?
    requires Descent(replies, Entry(replies, p, hook, last).value, inner).Some?
    ensures WalkHook(depth, replies, p, ending, hook, last, inner) ==
            Reaches(ending, Descent(replies, Entry(replies, p, hook, last).value, inner).value)
    decreases |inner|, 1, hook
  {
    match hook
    case Do(step, more) =>
      var w := WalkStep(0, replies, p, step);
      assert WalkStep(depth, replies, p, step) == w;
      EntryReaches(depth, replies, w.pending, ending, more, w.outcome.err, inner);
    case Next(_) => DescentReaches(depth, replies, p, ending, inner);
    case Choose(test, yes, no) =>
      EntryReaches(depth, replies, p, ending, if test(p.memory, last) then yes else no, last, inner);
    case Remember(update, more) =>
      EntryReaches(depth, replies, p.(memory := update(p.memory, last)), ending, more, last, inner);
  }

  /** The hook calls the next ender at most n times, whatever happens. */
  predicate CallsAtMost(n: nat, hook: Hook)
    decreases hook
  {
    match hook
    case Return(_) => true
    case Do(_, more) => CallsAtMost(n, more)
    case Next(more) => n > 0 && CallsAtMost(n - 1, more)
    case Choose(_, yes, no) => CallsAtMost(n, yes) && CallsAtMost(n, no)
    case Remember(_, more) => CallsAtMost(n, more)
  }

  /** What the hook does does not depend on what it remembers. */
  ghost predicate Forgetful(hook: Hook) {
    match hook
    case Return(_) => true
    case Do(_, more) => Forgetful(more)
    case Next(more) => Forgetful(more)
    case Choose(test, yes, no) =>
      (forall m, n, err :: test(m, err) == test(n, err)) && Forgetful(yes) && Forgetful(no)
    case Remember(_, more) => Forgetful(more)
  }

  /** What the database answers to a statement does not depend on the ones before. */
  ghost predicate Steady(replies: Replies) {
    forall before, other, stmt :: replies(before, stmt) == replies(other, stmt)
  }

  /** Trying again does not help: no hook does, or everything is as the first time. */
  ghost predicate Settled(replies: Replies, hooks: seq<Hook>) {
    || (forall i :: 0 <= i < |hooks| ==> CallsAtMost(1, hooks[i]))
    || (Steady(replies) && forall i :: 0 <= i < |hooks| ==> Forgetful(hooks[i]))
  }

  lemma {:induction false} EntrySteady(
    replies: Replies, p: Pending, q: Pending, hook: Hook, last: Option<Error>)
    requires Steady(replies) && Forgetful(hook)
    ensures Entry(replies, p, hook, last).Some? <==> Entry(replies, q, hook, last).Some?
    decreases hook
  {
    match hook
    case Return(_) =>
    case Do(step, more) =>
      var v, w := WalkStep(0, replies, p, step), WalkStep(0, replies, q, step);
      if step.Exec? { assert replies(p.sent, step.stmt) == replies(q.sent, step.stmt); }
      if v.Stays? && v.outcome.Done? { EntrySteady(replies, v.pending, w.pending, more, v.outcome.err); }
    case Next(_) =>
    case Choose(test, yes, no) =>
      assert test(p.memory, last) == test(q.memory, last);
      EntrySteady(replies, p, q, if test(p.memory, last) then yes else no, last);
    case Remember(update, more) =>
      EntrySteady(
        replies, p.(memory := update(p.memory, last)), q.(memory := update(q.memory, last)), more, last);
  }

  lemma {:induction false} DescentSteady(replies: Replies, p: Pending, q: Pending, hooks: seq<Hook>)
    requires Steady(replies) && forall i :: 0 <= i < |hooks| ==> Forgetful(hooks[i])
    ensures Descent(replies, p, hooks).Some? <==> Descent(replies, q, hooks).Some?
    decreases |hooks|
  {
    if hooks != [] {
      EntrySteady(replies, p, q, hooks[0], None);
      var v, w := Entry(replies, p, hooks[0], None), Entry(replies, q, hooks[0], None);
      if v.Some? { DescentSteady(replies, v.value, w.value, hooks[1..]); }
    }
  }

  lemma {:induction false} NoDescentStays(depth: nat, replies: Replies, p: Pending, ending: Ending, hooks: seq<Hook>)
    requires Settled(replies, hooks) && forall i :: 0 <= i < |hooks| ==> CallsOnOnly(hooks[i])
    requires Descent(replies, p, hooks).None?
    ensures WalkChain(depth, replies, p, ending, hooks).Stays?
    decreases |hooks|, 0, Return(_ => None)
  {
    if forall i :: 0 <= i < |hooks| ==> CallsAtMost(1, hooks[i]) {
      OnceStays(depth, replies, p, ending, hooks[0], None, hooks[1..], 1);
    } else {
      SteadyStays(depth, replies, p, ending, hooks[0], None, hooks[1..]);
    }
  }

  /** A hook that may call on once more or not at all, in front of hooks that do not lead to the base. */
  lemma {:induction false} OnceStays(
    depth: nat, replies: Replies, p: Pending, ending: Ending, hook: Hook, last: Option<Error>, inner: seq<Hook>,
    n: nat)
    requires n <= 1 && CallsAtMost(n, hook) && CallsOnOnly(hook)
    requires forall i :: 0 <= i < |inner| ==> CallsAtMost(1, inner[i]) && CallsOnOnly(inner[i])
    requires var q := Entry(replies, p, hook, last);
             n == 0 || q.None? || Descent(replies, q.value, inner).None?
    ensures WalkHook(depth, replies, p, ending, hook, last, inner).Stays?
    decreases |inner|, 1, hook
  {
    match hook
    case Return(_) =>
    case Do(step, more) =>
      var w := WalkStep(0, replies, p, step);
      assert WalkStep(depth, replies, p, step) == w;
      OnceStays(depth, replies, w.pending, ending, more, w.outcome.err, inner, n);
    case Next(more) =>
      NoDescentStays(depth, replies, p, ending, inner);
      var w := WalkChain(depth, replies, p, ending, inner);
      if w.outcome.Done? { OnceStays(depth, replies, w.pending, ending, more, w.outcome.err, inner, 0); }
    case Choose(test, yes, no) =>
      OnceStays(depth, replies, p, ending, if test(p.memory, last) then yes else no, last, inner, n);
    case Remember(update, more) =>
      OnceStays(depth, replies, p.(memory := update(p.memory, last)), ending, more, last, inner, n);
  }

  /** A hook that may try again, when everything stays as it is. */
  lemma {:induction false} SteadyStays(
    depth: nat, replies: Replies, p: Pending, ending: Ending, hook: Hook, last: Option<Error>, inner: seq<Hook>)
    requires Steady(replies) && Forgetful(hook) && CallsOnOnly(hook)
    requires forall i :: 0 <= i < |inner| ==> Forgetful(inner[i]) && CallsOnOnly(inner[i])
    requires var q := Entry(replies, p, hook, last);
             q.None? || Descent(replies, q.value, inner).None?
    ensures WalkHook(depth, replies, p, ending, hook, last, inner).Stays?
    decreases |inner|, 1, hook
  {
    match hook
    case Return(_) =>
    case Do(step, more) =>
      var w := WalkStep(0, replies, p, step);
      assert WalkStep(depth, replies, p, step) == w;
      SteadyStays(depth, replies, w.pending, ending, more, w.outcome.err, inner);
    case Next(more) =>
      NoDescentStays(depth, replies, p, ending, inner);
      var w := WalkChain(depth, replies, p, ending, inner);
      if w.outcome.Done? {
        var q := Entry(replies, w.pending, more, w.outcome.err);
        if q.Some? { DescentSteady(replies, p, q.value, inner); }
        SteadyStays(depth, replies, w.pending, ending, more, w.outcome.err, inner);
      }
    case Choose(test, yes, no) =>
      SteadyStays(depth, replies, p, ending, if test(p.memory, last) then yes else no, last, inner);
    case Remember(update, more) =>
      SteadyStays(depth, replies, p.(memory := update(p.memory, last)), ending, more, last, inner);
  }

  /** With hooks that do not end the transaction themselves and do not gain by trying again, a commit takes effect if
      and only if every registered hook gets to call the next one and the database does not refuse the commit; it then
      appends what is executed when the last of them does. Hooks that are registered meanwhile play no part. */
  lemma {:induction false} CommitCallsOn(depth: nat, s: State)
    requires s.phase.Open? && depth > 0
    requires forall i :: 0 <= i < |s.onCommit| ==> CallsOnOnly(s.onCommit[i])
    ensures var p := Descent(s.answers.statement, PendingOf(s), s.onCommit);
            var t := Perform(depth, s, End(Commit)).0;
            p.Some? || Settled(s.answers.statement, s.onCommit) ==>
              if p.Some? && s.answers.commit(p.value.sent).None?
              then t.committed == s.committed + p.value.executed && t.phase.Committed?
              else t.committed == s.committed && !t.phase.Committed?
  {
    var replies := s.answers.statement;
    CommitTakesEffect(depth, s);
    if Descent(replies, PendingOf(s), s.onCommit).Some? {
      DescentReaches(depth - 1, replies, PendingOf(s), Commit, s.onCommit);
    } else if Settled(replies, s.onCommit) {
      NoDescentStays(depth - 1, replies, PendingOf(s), Commit, s.onCommit);
    }
  }

  // ----- what a commit or a rollback returns -----

  /** Without hooks, ending an open transaction returns what the database answers: no error if and only if it does not
      refuse, and otherwise its reason. */
  lemma {:induction false} EndsWithoutHooks(depth: nat, s: State, ending: Ending)
    requires s.phase.Open? && depth > 0 && (if ending.Commit? then s.onCommit == [] else s.onRollback == [])
    ensures var (t, outcome) := Perform(depth, s, End(ending));
            match ending
            case Commit =>
              if s.answers.commit(s.sent).None?
              then && outcome == Done(None)
                   && t == s.(phase := Committed, committed := s.committed + s.executed)
              else && outcome == Done(Some(Refused(s.answers.commit(s.sent).value)))
                   && t == s.(phase := RolledBack)
            case Rollback =>
              && t == s.(phase := RolledBack)
              && if s.answers.rollback(s.sent).None? then outcome == Done(None)
                 else outcome == Done(Some(Refused(s.answers.rollback(s.sent).value)))
  {
    assert HooksFor(s, ending) == [];
  }

  /** A transaction that is over cannot be ended again. */
  lemma {:induction false} EndsOnce(depth: nat, s: State, ending: Ending)
    requires !s.phase.Open? && depth > 0 && (if ending.Commit? then s.onCommit == [] else s.onRollback == [])
    ensures Perform(depth, s, End(ending)) == (s, Done(Some(TxDone)))
  {
    assert HooksFor(s, ending) == [];
  }

  /** A hook that calls on at most once and passes on what comes back, and that returns an error if it does not call on.
      `may` is what it may remember and have got from its last step, and `called` whether it has called on. */
  ghost predicate Relays(hook: Hook, may: (Memory, Option<Error>) -> bool, called: bool)
    decreases hook
  {
    match hook
    case Return(verdict) => forall m, err :: may(m, err) ==> if called then verdict(err) == err else verdict(err).Some?
    case Do(step, more) => !called && !step.End? && Relays(more, (_, _) => true, false)
    case Next(more) => !called && Relays(more, (_, _) => true, true)
    case Choose(test, yes, no) =>
      && Relays(yes, (m, err) => may(m, err) && test(m, err), called)
      && Relays(no, (m, err) => may(m, err) && !test(m, err), called)
    case Remember(_, more) => Relays(more, (_, err) => exists m :: may(m, err), called)
  }

  ghost predicate AllRelay(hooks: seq<Hook>) {
    forall i :: 0 <= i < |hooks| ==> Relays(hooks[i], (_, err: Option<Error>) => err.None?, false)
  }

  /** An open transaction has stayed open and an error is returned, or it is over and what is returned is the answer of
      the database. */
  ghost predicate Relayed(s: State, ending: Ending, r: (State, Outcome)) {
    var (t, outcome) := r;
    && t.answers == s.answers
    && match t.phase
       case Open => outcome.Done? && outcome.err.Some?
       case Committed => ending.Commit? && s.answers.commit(t.sent).None? && outcome == Done(None)
       case RolledBack =>
         var refusal := if ending.Commit? then s.answers.commit(t.sent) else s.answers.rollback(t.sent);
         && (ending.Commit? ==> refusal.Some?)
         && outcome == if refusal.Some? then Done(Some(Refused(refusal.value))) else Done(None)
  }

  lemma {:induction false} RelaysBack(
    depth: nat, s: State, ending: Ending, hook: Hook, may: (Memory, Option<Error>) -> bool, last: Option<Error>,
    inner: seq<Hook>)
    requires Relays(hook, may, true) && may(s.memory, last)
    ensures var (t, outcome) := RunHook(depth, s, ending, hook, last, inner);
            t == s.(memory := t.memory) && outcome == Done(last)
    decreases hook
  {
    match hook
    case Return(_) =>
    case Choose(test, yes, no) =>
      if test(s.memory, last) {
        RelaysBack(depth, s, ending, yes, (m, err) => may(m, err) && test(m, err), last, inner);
      } else {
        RelaysBack(depth, s, ending, no, (m, err) => may(m, err) && !test(m, err), last, inner);
      }
    case Remember(update, more) =>
      RelaysBack(
        depth, s.(memory := update(s.memory, last)), ending, more, (_, err) => exists m :: may(m, err), last, inner);
  }

  lemma {:induction false} RelaysOn(
    depth: nat, s: State, ending: Ending, hook: Hook, may: (Memory, Option<Error>) -> bool, last: Option<Error>,
    inner: seq<Hook>)
    requires s.phase.Open? && Relays(hook, may, false) && may(s.memory, last) && AllRelay(inner)
    ensures Relayed(s, ending, RunHook(depth, s, ending, hook, last, inner))
    decreases |inner|, 1, hook
  {
    match hook
    case Return(_) =>
    case Do(step, more) =>
      var (t, outcome) := Perform(depth, s, step);
      RelaysOn(depth, t, ending, more, (_, _) => true, outcome.err, inner);
    case Next(more) =>
      ChainRelays(depth, s, ending, inner);
      var (t, outcome) := RunChain(depth, s, ending, inner);
      RelaysBack(depth, t, ending, more, (_, _) => true, outcome.err, inner);
    case Choose(test, yes, no) =>
      if test(s.memory, last) {
        RelaysOn(depth, s, ending, yes, (m, err) => may(m, err) && test(m, err), last, inner);
      } else {
        RelaysOn(depth, s, ending, no, (m, err) => may(m, err) && !test(m, err), last, inner);
      }
    case Remember(update, more) =>
      RelaysOn(
        depth, s.(memory := update(s.memory, last)), ending, more, (_, err) => exists m :: may(m, err), last, inner);
  }

  lemma {:induction false} ChainRelays(depth: nat, s: State, ending: Ending, hooks: seq<Hook>)
    requires s.phase.Open? && AllRelay(hooks)
    ensures Relayed(s, ending, RunChain(depth, s, ending, hooks))
    decreases |hooks|, 0, Return(_ => None)
  {
    if hooks != [] {
      RelaysOn(depth, s, ending, hooks[0], (_, err: Option<Error>) => err.None?, None, hooks[1..]);
    }
  }

  /** With hooks that pass on what comes back to them, committing an open transaction returns no error if and only if
      the commit has taken effect, and a refusal of the database comes out with its reason. */
  lemma {:induction false} CommitReturns(depth: nat, s: State)
    requires s.phase.Open? && depth > 0 && AllRelay(s.onCommit)
    ensures var (t, outcome) := Perform(depth, s, End(Commit));
            && outcome.Done?
            && (outcome == Done(None) <==> t.phase.Committed?)
            && (t.phase.Committed? ==> t.committed == s.committed + t.executed && s.answers.commit(t.sent).None?)
            && (t.phase.RolledBack? ==>
                  s.answers.commit(t.sent).Some? && outcome == Done(Some(Refused(s.answers.commit(t.sent).value))))
  {
    ChainRelays(depth - 1, s, Commit, s.onCommit);
    StepReaches(depth, s, End(Commit));
  }

  /** The same for a rollback: no error if and only if the transaction is over and the database has not refused. */
  lemma {:induction false} RollbackReturns(depth: nat, s: State)
    requires s.phase.Open? && depth > 0 && AllRelay(s.onRollback)
    ensures var (t, outcome) := Perform(depth, s, End(Rollback));
            && outcome.Done? && !t.phase.Committed? && t.committed == s.committed
            && (outcome == Done(None) <==> t.phase.RolledBack? && s.answers.rollback(t.sent).None?)
            && (t.phase.RolledBack? && s.answers.rollback(t.sent).Some? ==>
                  outcome == Done(Some(Refused(s.answers.rollback(t.sent).value))))
  {
    ChainRelays(depth - 1, s, Rollback, s.onRollback);
    StepReaches(depth, s, End(Rollback));
  }

  /** With hooks that do not end the transaction themselves and do not gain by trying again, a rollback ends the
      transaction if and only if every registered rollback hook gets to call the next one. */
  lemma {:induction false} RollbackCallsOn(depth: nat, s: State)
    requires s.phase.Open? && depth > 0
    requires forall i :: 0 <= i < |s.onRollback| ==> CallsOnOnly(s.onRollback[i])
    ensures var p := Descent(s.answers.statement, PendingOf(s), s.onRollback);
            var t := Perform(depth, s, End(Rollback)).0;
            p.Some? || Settled(s.answers.statement, s.onRollback) ==>
              (t.phase.RolledBack? <==> p.Some?) && (p.None? ==> t.phase.Open?) && t.committed == s.committed
  {
    var replies := s.answers.statement;
    StepFollows(depth, s, End(Rollback));
    if Descent(replies, PendingOf(s), s.onRollback).Some? {
      DescentReaches(depth - 1, replies, PendingOf(s), Rollback, s.onRollback);
    } else if Settled(replies, s.onRollback) {
      NoDescentStays(depth - 1, replies, PendingOf(s), Rollback, s.onRollback);
    }
  }

  // ----- what the other steps do -----

  /** Builders that begin, commit, roll back or close the transaction they were given change nothing, whatever its
      phase. */
  lemma {:induction false} BuildersEndNothing(depth: nat, s: State, step: Step)
    requires step.BuilderTx? || step.BuilderCommit? || step.BuilderRollback? || step.BuilderClose?
    ensures Perform(depth, s, step) == (s, Done(None))
  {
  }

  /** A statement is executed if and only if the transaction is open and the database accepts it. */
  lemma {:induction false} StatementReturns(depth: nat, s: State, stmt: nat)
    ensures var (t, outcome) := Perform(depth, s, Exec(stmt));
            && (outcome == Done(None) <==> s.phase.Open? && s.answers.statement(s.sent, stmt).None?)
            && (outcome == Done(None) ==> t == s.(sent := s.sent + [stmt], executed := s.executed + [stmt]))
            && (outcome != Done(None) ==> t == s.(sent := t.sent))
            && (!s.phase.Open? ==> t == s && outcome == Done(Some(TxDone)))
            && (s.phase.Open? && s.answers.statement(s.sent, stmt).Some? ==>
                  outcome == Done(Some(Refused(s.answers.statement(s.sent, stmt).value))))
  {
  }

  /** Hooks run in the order of registration, each around those that were registered after it, and hooks for the other
      ending do not run. */
  lemma {:induction false} RegisteredInOrder(depth: nat, s: State, f: Hook, g: Hook, other: Hook)
    requires s.onCommit == [] && s.onRollback == []
    ensures var committing := [OnCommit(f), OnRollback(other), OnCommit(g)];
            var (base, t) := ((u: State) => Base(u, Commit), Play(depth, s, committing));
            Perform(depth + 1, t, End(Commit)) == Interpret(depth, f)(Interpret(depth, g)(base))(t)
    ensures var rolling := [OnRollback(f), OnCommit(other), OnRollback(g)];
            var (base, t) := ((u: State) => Base(u, Rollback), Play(depth, s, rolling));
            Perform(depth + 1, t, End(Rollback)) == Interpret(depth, f)(Interpret(depth, g)(base))(t)
  {
    TwoRegistered(depth, s, f, g, other);
    var t, u := Play(depth, s, [OnCommit(f), OnRollback(other), OnCommit(g)]),
                Play(depth, s, [OnRollback(f), OnCommit(other), OnRollback(g)]);
    TwoHooks(depth, t, Commit, f, g);
    TwoHooks(depth, u, Rollback, f, g);
  }

  lemma {:induction false} TwoRegistered(depth: nat, s: State, f: Hook, g: Hook, other: Hook)
    requires s.onCommit == [] && s.onRollback == []
    ensures Play(depth, s, [OnCommit(f), OnRollback(other), OnCommit(g)]) ==
            s.(onCommit := [f, g], onRollback := [other])
    ensures Play(depth, s, [OnRollback(f), OnCommit(other), OnRollback(g)]) ==
            s.(onRollback := [f, g], onCommit := [other])
  {
    ThreeSteps(depth, s, OnCommit(f), OnRollback(other), OnCommit(g));
    ThreeSteps(depth, s, OnRollback(f), OnCommit(other), OnRollback(g));
    assert [f] + [g] == [f, g];
  }

  lemma {:induction false} ThreeSteps(depth: nat, s: State, a: Step, b: Step, c: Step)
    requires !a.End? && !b.End? && !c.End?
    ensures Play(depth, s, [a, b, c]) == Perform(depth, Perform(depth, Perform(depth, s, a).0, b).0, c).0
  {
    assert [a, b, c][1..] == [b, c] && [b, c][1..] == [c] && [c][1..] == [];
    var t := Perform(depth, s, a).0;
    var u := Perform(depth, t, b).0;
    assert Play(depth, Perform(depth, u, c).0, []) == Perform(depth, u, c).0;
    assert Play(depth, u, [c]) == Perform(depth, u, c).0;
    assert Play(depth, t, [b, c]) == Play(depth, u, [c]);
  }

  lemma {:induction false} TwoHooks(depth: nat, t: State, ending: Ending, f: Hook, g: Hook)
    requires HooksFor(t, ending) == [f, g]
    ensures Perform(depth + 1, t, End(ending)) ==
            Interpret(depth, f)(Interpret(depth, g)((u: State) => Base(u, ending)))(t)
  {
    var base := (u: State) => Base(u, ending);
    var fs := InterpretAll(depth, [f, g]);
    assert [f, g][1..] == [g] && [g][1..] == [];
    assert InterpretAll(depth, [g]) == [Interpret(depth, g)] + InterpretAll(depth, []);
    assert fs == [Interpret(depth, f)] + InterpretAll(depth, [g]) == [Interpret(depth, f), Interpret(depth, g)];
    assert Hooks.Fold(fs[1..][1..], base) == base;
    assert Hooks.Fold(fs[1..], base) == Interpret(depth, g)(base);
    assert Hooks.Fold(fs, base) == Interpret(depth, f)(Interpret(depth, g)(base));
    ChainIsFold(depth, t, ending, [f, g]);
  }

  // ----- what single hooks do -----

  function Failed(): (Memory, Option<Error>) -> bool { (_, err: Option<Error>) => err.Some? }

  function PassOn(): Hook { Return(err => err) }

  /** Executes a statement, and calls on unless the database refuses it. */
  function ExecThenNext(stmt: nat): Hook { Do(Exec(stmt), Choose(Failed(), PassOn(), Next(PassOn()))) }

  /** A commit hook whose statement the database refuses, and which passes the error on: the commit fails, nothing is
      committed and the transaction stays open. */
  lemma {:induction false} RefusedInHook(depth: nat, s: State, stmt: nat)
    requires s.phase.Open? && depth > 0 && s.onCommit == [ExecThenNext(stmt)]
    requires s.answers.statement(s.sent, stmt).Some?
    ensures var refusal := s.answers.statement(s.sent, stmt);
            Perform(depth, s, End(Commit)) == (s.(sent := s.sent + [stmt]), Done(Some(Refused(refusal.value))))
  {
    var t := s.(sent := s.sent + [stmt]);
    var err := Some(Refused(s.answers.statement(s.sent, stmt).value));
    assert Perform(depth - 1, s, Exec(stmt)) == (t, Done(err));
    assert RunHook(depth - 1, t, Commit, Choose(Failed(), PassOn(), Next(PassOn())), err, []) == (t, Done(err));
    assert s.onCommit[1..] == [] && RunHook(depth - 1, s, Commit, s.onCommit[0], None, []) == (t, Done(err));
  }

  /** A commit hook that calls on twice, around one whose statement is refused the first time: the second attempt is
      committed, although the first did not lead to the base. */
  lemma {:induction false} SecondAttempt(depth: nat, s: State, stmt: nat)
    requires s.phase.Open? && depth > 0 && s.onCommit == [Next(Next(PassOn())), ExecThenNext(stmt)]
    requires s.answers.statement(s.sent, stmt).Some? && s.answers.statement(s.sent + [stmt], stmt).None?
    requires s.answers.commit(s.sent + [stmt] + [stmt]).None?
    ensures Descent(s.answers.statement, PendingOf(s), s.onCommit).None?
    ensures Perform(depth, s, End(Commit)).0.committed == s.committed + s.executed + [stmt]
  {
    var d, rest := depth - 1, Choose(Failed(), PassOn(), Next(PassOn()));
    var t := s.(sent := s.sent + [stmt]);
    var u := t.(sent := t.sent + [stmt], executed := s.executed + [stmt]);
    var err := Some(Refused(s.answers.statement(s.sent, stmt).value));
    var inner := s.onCommit[1..];
    assert inner == [ExecThenNext(stmt)] && inner[1..] == [];
    assert Perform(d, s, Exec(stmt)) == (t, Done(err));
    assert RunHook(d, t, Commit, rest, err, []) == (t, Done(err));
    assert RunChain(d, s, Commit, inner) == (t, Done(err));
    assert Perform(d, t, Exec(stmt)) == (u, Done(None));
    var v := u.(phase := Committed, committed := s.committed + u.executed);
    assert RunChain(d, u, Commit, []) == Base(u, Commit) == (v, Done(None));
    assert RunHook(d, u, Commit, Next(PassOn()), None, []) == (v, Done(None));
    assert RunHook(d, u, Commit, rest, None, []) == (v, Done(None));
    assert RunChain(d, t, Commit, inner) == (v, Done(None));
    assert RunHook(d, t, Commit, Next(PassOn()), err, inner) == (v, Done(None));
    assert RunHook(d, s, Commit, s.onCommit[0], None, inner) == (v, Done(None));
    assert v.committed == s.committed + s.executed + [stmt];
    var p := PendingOf(s);
    assert Entry(s.answers.statement, p, Next(Next(PassOn())), None) == Some(p);
    assert Entry(s.answers.statement, PendingOf(t), rest, err) == None;
    assert Entry(s.answers.statement, p, ExecThenNext(stmt), None) == None;
    assert Descent(s.answers.statement, p, inner) == None;
  }

  /** A commit hook that rolls back and then calls on: every hook reaches the base, and nothing is committed. */
  lemma {:induction false} RolledBackFirst(depth: nat, s: State, verdict: Option<Error> -> Option<Error>)
    requires s.phase.Open? && depth > 1 && s.onRollback == []
    requires s.onCommit == [Do(End(Rollback), Next(Return(verdict)))]
    ensures var (t, outcome) := Perform(depth, s, End(Commit));
            t.phase.RolledBack? && t.committed == s.committed && outcome == Done(verdict(Some(TxDone)))
  {
    var d, t := depth - 1, s.(phase := RolledBack);
    assert Perform(d, s, End(Rollback)) == RunChain(d - 1, s, Rollback, []) == Base(s, Rollback);
    assert s.onCommit[1..] == [];
    var err := Base(s, Rollback).1.err;
    assert RunChain(d, t, Commit, []) == (t, Done(Some(TxDone)));
    assert RunHook(d, t, Commit, Return(verdict), Some(TxDone), []) == (t, Done(verdict(Some(TxDone))));
    assert RunHook(d, t, Commit, Next(Return(verdict)), err, []) == (t, Done(verdict(Some(TxDone))));
    assert RunHook(d, s, Commit, s.onCommit[0], None, []) == (t, Done(verdict(Some(TxDone))));
  }

  /** A commit hook that rolls back and does not call on: the base is not reached, and yet the transaction is over. */
  lemma {:induction false} RolledBackInstead(depth: nat, s: State, verdict: Option<Error> -> Option<Error>)
    requires s.phase.Open? && depth > 1 && s.onRollback == []
    requires s.onCommit == [Do(End(Rollback), Return(verdict))]
    ensures var t := Perform(depth, s, End(Commit)).0;
            t.phase.RolledBack? && t.committed == s.committed
  {
    var d, t := depth - 1, s.(phase := RolledBack);
    assert s.onCommit[1..] == [];
    assert Perform(d, s, End(Rollback)) == RunChain(d - 1, s, Rollback, []) == Base(s, Rollback);
    assert RunHook(d, t, Commit, Return(verdict), Base(s, Rollback).1.err, []).0 == t;
    assert RunHook(d, s, Commit, s.onCommit[0], None, []).0 == t;
  }

  /** If the outermost commit hook begins by committing again, the hooks run again, until the stack overflows; nothing
      is ever committed. */
  lemma {:induction false} CommittingHookNeverEnds(depth: nat, s: State)
    requires s.onCommit != [] && s.onCommit[0].Do? && s.onCommit[0].step == End(Commit)
    ensures Perform(depth, s, End(Commit)) == (s, Overflow)
    decreases depth
  {
    if depth > 0 {
      CommittingHookNeverEnds(depth - 1, s);
      assert RunHook(depth - 1, s, Commit, s.onCommit[0], None, s.onCommit[1..]) == (s, Overflow);
    }
  }

  /** Unless it remembers that it has done so: then the second commit calls on and takes effect. */
  lemma {:induction false} CommitsOnce(depth: nat, s: State)
    requires s.phase.Open? && depth > 1 && s.memory == [] && s.answers.commit(s.sent).None?
    requires s.onCommit ==
             [Choose((m, _) => m == [], Remember((_, _) => [1], Do(End(Commit), PassOn())), Next(PassOn()))]
    ensures var (t, outcome) := Perform(depth, s, End(Commit));
            t.phase.Committed? && t.committed == s.committed + s.executed && outcome == Done(None)
  {
    var d, hook := depth - 1, s.onCommit[0];
    var noted := s.(memory := [1]);
    var t := noted.(phase := Committed, committed := s.committed + s.executed);
    assert s.onCommit[1..] == [];
    assert RunChain(d - 1, noted, Commit, []) == (t, Done(None));
    assert RunHook(d - 1, noted, Commit, Next(PassOn()), None, []) == (t, Done(None));
    assert RunHook(d - 1, noted, Commit, hook, None, []) == (t, Done(None));
    assert Perform(d, noted, End(Commit)) == (t, Done(None));
    assert RunHook(d, noted, Commit, hook.yes.more, None, []) == (t, Done(None));
    assert RunHook(d, s, Commit, hook.yes, None, []) == (t, Done(None));
    assert RunHook(d, s, Commit, hook, None, []) == (t, Done(None));
  }
}
