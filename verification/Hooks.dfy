/**
Composition of hooks and interceptors: the backward loops that wrap an operation in a list of hooks.
*/
module Hooks {
  import opened Wrappers

  // ----- the fold -----

  /** The first hook is the outermost. */
  function Fold<T>(hooks: seq<T -> T>, base: T): T {
    if hooks == [] then base else hooks[0](Fold(hooks[1..], base))
  }

  /** Wrapping in two lists, one inside the other, is wrapping in their concatenation. */
  lemma {:induction false} FoldConcat<T>(outer: seq<T -> T>, inner: seq<T -> T>, base: T)
    ensures Fold(outer + inner, base) == Fold(outer, Fold(inner, base))
  {
    if outer == [] {
      assert outer + inner == inner;
    } else {
      FoldConcat(outer[1..], inner, base);
      assert (outer + inner)[1..] == outer[1..] + inner;
    }
  }

  /** The loop that wraps from the last hook to the first. */
  method Compose<T>(hooks: seq<T -> T>, base: T) returns (t: T)
    ensures t == Fold(hooks, base)
  {
    t := base;
    var i := |hooks|;
    while i > 0
      invariant 0 <= i <= |hooks|
      invariant t == Fold(hooks[i..], base)
    {
      i := i - 1;
      assert hooks[i..][1..] == hooks[i + 1..];
      t := hooks[i](t);
    }
    assert hooks[0..] == hooks;
  }

  // ----- hooks around a builder's operation -----

  /** An operation on a mutation M in a program state S. */
  type Mutator<!M, !S, V> = (M, S) -> (S, Result<V, string>)

  type Hook<!M, !S, !V> = Mutator<M, S, V> -> Mutator<M, S, V>

  const UNINITIALIZED := "ent: uninitialized hook (forgotten import ent/runtime?)"

  /** The hooks of a list without nil hooks. */
  function Present<M, S, V>(hooks: seq<Option<Hook<M, S, V>>>): seq<Hook<M, S, V>>
    requires forall i :: 0 <= i < |hooks| ==> hooks[i].Some?
  {
    seq(|hooks|, i requires 0 <= i < |hooks| => hooks[i].value)
  }

  /** The innermost mutator: it copies the mutation that the hooks hand on into the builder's own one, which is the
      first component of the state, and runs the operation on that. */
  function Base<M, S, V>(exec: Mutator<M, S, V>): Mutator<M, (M, S), V> {
    (m: M, state: (M, S)) => var (s, r) := exec(m, state.1); ((m, s), r)
  }

  /** Runs an operation of a builder inside hooks; the builder's own mutation is `own`. With a nil hook in the list
      nothing runs and everything stays as it is. */
  method WithHooks<M, S, V>(exec: Mutator<M, S, V>, own: M, hooks: seq<Option<Hook<M, (M, S), V>>>, s: S)
    returns (own': M, s': S, r: Result<V, string>)
    ensures hooks == [] ==> own' == own && (s', r) == exec(own, s)
    ensures (exists i :: 0 <= i < |hooks| && hooks[i].None?) ==>
              own' == own && s' == s && r == Failure(UNINITIALIZED)
    ensures (forall i :: 0 <= i < |hooks| ==> hooks[i].Some?) ==>
              ((own', s'), r) == Fold(Present(hooks), Base(exec))(own, (own, s))
    ensures (forall i :: 0 <= i < |hooks| ==> hooks[i].Some?) ==>
              forall arounds :: Present(hooks) == HooksOf(arounds) ==>
                ((own', s'), r) == Nested(arounds, exec, own, s)
  {
    NestedIfOnce(exec, own, hooks, s);
    if |hooks| == 0 {
      var out := exec(own, s);
      return own, out.0, out.1;
    }
    var mut := Base(exec);
    var i := |hooks|;
    while i > 0
      invariant 0 <= i <= |hooks|
      invariant forall k :: i <= k < |hooks| ==> hooks[k].Some?
      invariant mut == Fold(Present(hooks[i..]), Base(exec))
    {
      i := i - 1;
      if hooks[i].None? { return own, s, Failure(UNINITIALIZED); }
      assert Present(hooks[i..])[1..] == Present(hooks[i + 1..]);
      mut := hooks[i].value(mut);
    }
    assert hooks[0..] == hooks;
    var out := mut(own, (own, s));
    return out.0.0, out.0.1, out.1;
  }

  // ----- registration -----

  /** A client keeps the hooks of an entity in order of registration. */
  class Client<M(!new), S(!new), V(!new)> {
    var hooks: seq<Hook<M, S, V>>

    constructor ()
      ensures hooks == []
    {
      hooks := [];
    }

    method Use(more: seq<Hook<M, S, V>>)
      modifies this
      ensures hooks == old(hooks) + more
    {
      hooks := hooks + more;
    }
  }

  /** Registering in two calls or in one makes the same chain: the hooks of the first call wrap those of the second. */
  method UseTwice<M(!new), S(!new), V(!new)>(
    once: Client<M, S, V>, twice: Client<M, S, V>, f: seq<Hook<M, S, V>>, g: seq<Hook<M, S, V>>, base: Mutator<M, S, V>)
    requires once != twice && once.hooks == [] && twice.hooks == []
    modifies once, twice
    ensures Fold(once.hooks, base) == Fold(twice.hooks, base) == Fold(f, Fold(g, base))
  {
    FoldConcat(f, g, base);
    once.Use(f + g);
    assert once.hooks == f + g;
    twice.Use(f);
    assert twice.hooks == f;
    twice.Use(g);
  }

  // ----- order of execution -----

  /** What a hook does before and after it calls the next mutator once: it may change the mutation and the state, and
      afterwards the state and the result. */
  datatype Around<!M, !S, !V> = Around(
    before: (M, S) -> (M, S), after: (S, Result<V, string>) -> (S, Result<V, string>))

  function HookOf<M, S, V>(a: Around<M, S, V>): Hook<M, S, V> {
    (next: Mutator<M, S, V>) => (m: M, s: S) => var (n, t) := a.before(m, s); var (u, r) := next(n, t); a.after(u, r)
  }

  function HooksOf<M, S, V>(arounds: seq<Around<M, S, V>>): seq<Hook<M, S, V>> {
    if arounds == [] then [] else [HookOf(arounds[0])] + HooksOf(arounds[1..])
  }

  /** All that the hooks do before, in order of registration. */
  function Enter<M, S, V>(arounds: seq<Around<M, S, V>>, m: M, s: S): (M, S) {
    if arounds == [] then (m, s) else var (n, t) := arounds[0].before(m, s); Enter(arounds[1..], n, t)
  }

  /** All that they do after, in reverse. */
  function Leave<M, S, V>(arounds: seq<Around<M, S, V>>, s: S, r: Result<V, string>): (S, Result<V, string>) {
    if arounds == [] then (s, r)
    else
      var last := |arounds| - 1;
      var (t, q) := arounds[last].after(s, r);
      Leave(arounds[..last], t, q)
  }

  lemma {:induction false} LeaveFirst<M, S, V>(arounds: seq<Around<M, S, V>>, s: S, r: Result<V, string>)
    requires arounds != []
    ensures var (t, q) := Leave(arounds[1..], s, r); Leave(arounds, s, r) == arounds[0].after(t, q)
  {
    var last := |arounds| - 1;
    if last == 0 {
      var (t, q) := arounds[0].after(s, r);
      assert Leave(arounds[..0], t, q) == (t, q);
    } else {
      var (t, q) := arounds[last].after(s, r);
      LeaveFirst(arounds[..last], t, q);
      assert arounds[..last][1..] == arounds[1..][..last - 1];
    }
  }

  /** Hooks are entered in order of registration, then the operation runs once, on the mutation that they leave, then
      they are left in reverse. */
  lemma {:induction false} HooksNest<M, S, V>(arounds: seq<Around<M, S, V>>, exec: Mutator<M, S, V>, m: M, s: S)
    ensures var (n, t) := Enter(arounds, m, s);
            var (u, r) := exec(n, t);
            Fold(HooksOf(arounds), exec)(m, s) == Leave(arounds, u, r)
  {
    if arounds != [] {
      var hooks := HooksOf(arounds);
      assert hooks[1..] == HooksOf(arounds[1..]);
      var (n, t) := arounds[0].before(m, s);
      HooksNest(arounds[1..], exec, n, t);
      var (k, v) := Enter(arounds[1..], n, t);
      var (u, r) := exec(k, v);
      LeaveFirst(arounds, u, r);
    }
  }

  /** What an operation inside hooks that call on once does: the hooks are entered in order, the operation runs on the
      mutation that comes out of them, this mutation becomes the builder's own one, and the hooks are left in reverse.
      The builder's own mutation is the first component of the state. */
  function Nested<M, S, V>(arounds: seq<Around<M, (M, S), V>>, exec: Mutator<M, S, V>, own: M, s: S)
    : ((M, S), Result<V, string>)
  {
    var (n, (_, t)) := Enter(arounds, own, (own, s));
    var (u, v) := exec(n, t);
    Leave(arounds, (n, u), v)
  }

  /** Running the fold around the copy and the operation is just this. */
  lemma {:induction false} FoldIsNested<M, S, V>(
    arounds: seq<Around<M, (M, S), V>>, exec: Mutator<M, S, V>, own: M, s: S)
    ensures Fold(HooksOf(arounds), Base(exec))(own, (own, s)) == Nested(arounds, exec, own, s)
  {
    HooksNest(arounds, Base(exec), own, (own, s));
  }

  lemma {:induction false} NestedIfOnce<M, S, V>(
    exec: Mutator<M, S, V>, own: M, hooks: seq<Option<Hook<M, (M, S), V>>>, s: S)
    ensures (forall i :: 0 <= i < |hooks| ==> hooks[i].Some?) ==>
              forall arounds :: Present(hooks) == HooksOf(arounds) ==>
                Fold(Present(hooks), Base(exec))(own, (own, s)) == Nested(arounds, exec, own, s)
    ensures hooks == [] ==>
              forall arounds: seq<Around<M, (M, S), V>> :: HooksOf(arounds) == [] ==>
                Nested(arounds, exec, own, s) == ((own, exec(own, s).0), exec(own, s).1)
  {
    if forall i :: 0 <= i < |hooks| ==> hooks[i].Some? {
      forall arounds | Present(hooks) == HooksOf(arounds)
        ensures Fold(Present(hooks), Base(exec))(own, (own, s)) == Nested(arounds, exec, own, s)
      {
        FoldIsNested(arounds, exec, own, s);
      }
    }
  }
}
