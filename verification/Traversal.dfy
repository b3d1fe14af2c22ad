/**
Preparing a traversal: a builder that continues from the result of another one is prepared after its own checks have
passed, by preparing the builder that it continues from.
*/
module Traversal {
  import opened Schema
  import opened Plans
  import opened QueryBuilder
  import opened Wrappers

  /** A builder in a traversal. `sql` says whether the part of the query that leads to it has been set. */
  class Step {
    const query: Query
    const previous: Step?
    var sql: bool
    ghost const chain: seq<Step>

    constructor Start(query: Query)
      ensures Valid() && this.query == query && chain == [this] && previous == null && !sql
    {
      this.query, previous, sql := query, null, false;
      chain := [this];
    }

    /** Continues a traversal along an edge. */
    constructor Along(query: Query, previous: Step)
      requires previous.Valid()
      ensures Valid() && this.query == query && this.previous == previous && chain == [this] + previous.chain && !sql
    {
      this.query, this.previous, sql := query, previous, false;
      chain := [this] + previous.chain;
    }

    /** `chain` lists the builders back to the start. */
    ghost predicate Valid()
      decreases |chain|
    {
      && |chain| > 0 && chain[0] == this
      && (if previous == null then |chain| == 1 else chain[1..] == previous.chain && previous.Valid())
      && this !in chain[1..]
    }

    method Prepare() returns (err: Option<Error>)
      requires Valid() && forall s :: s in chain ==> s.query.Valid()
      modifies chain
      ensures err == ChainError(old(TreesOf(chain)))
      ensures err.Some? ==> forall s :: s in chain ==> s.sql == old(s.sql)
      ensures err.None? ==> forall i :: 0 <= i < |chain| ==> chain[i].sql == (old(chain[i].sql) || i + 1 < |chain|)
      decreases |chain|, 1
    {
      err := query.Prepare();
      if err.Some? { return; }
      err := PreparePath();
    }

    /** Prepares the builder that this one continues from, if there is one, and sets the part that leads to it. */
    method PreparePath() returns (err: Option<Error>)
      requires Valid() && forall s :: s in chain ==> s.query.Valid()
      modifies chain
      ensures err == ChainError(old(TreesOf(chain[1..])))
      ensures err.Some? ==> forall s :: s in chain ==> s.sql == old(s.sql)
      ensures err.None? ==> forall i :: 0 <= i < |chain| ==> chain[i].sql == (old(chain[i].sql) || i + 1 < |chain|)
      decreases |chain|, 0
    {
      if previous == null { return None; }
      err := previous.Prepare();
      if err.None? { sql := true; }
    }
  }

  ghost function TreesOf(chain: seq<Step>): (plans: seq<Plan>)
    reads set s | s in chain :: s.query
    ensures |plans| == |chain| && forall i :: 0 <= i < |chain| ==> plans[i] == chain[i].query.tree
  {
    if chain == [] then [] else [chain[0].query.tree] + TreesOf(chain[1..])
  }

  /** The outcome of preparing a chain of builders, the last one of the traversal first. */
  function ChainError(plans: seq<Plan>): Option<Error> {
    if plans == [] then None
    else if PrepareError(plans[0]).Some? then PrepareError(plans[0])
    else ChainError(plans[1..])
  }

  /** No nil interceptor, no traverser that refuses, and valid columns only. */
  predicate Passes(p: Plan) {
    && (forall i :: 0 <= i < |p.inters| ==> p.inters[i] != Uninitialized)
    && (forall i :: 0 <= i < |p.inters| && p.inters[i].Traverser? ==> p.inters[i].verdict.None?)
    && forall i :: 0 <= i < |p.fields| ==> ValidColumn(p.entity, p.fields[i])
  }

  lemma {:induction false} PassesPrepare(p: Plan)
    ensures Passes(p) <==> PrepareError(p).None?
  {
    InterceptorErrorNone(p.inters);
    FieldErrorNone(p.entity, p.fields);
  }

  /** A chain of any length is prepared if and only if all its builders pass; otherwise the error is that of the failing
      builder nearest to the end of the traversal. */
  lemma {:induction false} NearestFails(plans: seq<Plan>)
    ensures ChainError(plans).None? <==> forall i :: 0 <= i < |plans| ==> Passes(plans[i])
    ensures ChainError(plans).Some? ==>
              exists k :: 0 <= k < |plans| && !Passes(plans[k]) && ChainError(plans) == PrepareError(plans[k])
                          && forall i :: 0 <= i < k ==> Passes(plans[i])
  {
    if plans != [] {
      PassesPrepare(plans[0]);
      if Passes(plans[0]) {
        NearestFails(plans[1..]);
        if ChainError(plans).Some? {
          var k :| 0 <= k < |plans[1..]| && !Passes(plans[1..][k]) && ChainError(plans) == PrepareError(plans[1..][k])
                   && forall i :: 0 <= i < k ==> Passes(plans[1..][i]);
          assert forall i :: 0 < i <= k ==> plans[i] == plans[1..][i - 1];
          assert plans[k + 1] == plans[1..][k];
        } else {
          assert forall i :: 0 < i < |plans| ==> plans[i] == plans[1..][i - 1];
        }
      }
    }
  }
}
