/** Runs of a state machine that takes one step per event. */
module Runs {
  /** The state after the first `n` events. */
  function Run<S, E>(step: (S, E) -> S, s: S, es: seq<E>, n: nat): S
    requires n <= |es|
  {
    if n == 0 then s else step(Run(step, s, es, n - 1), es[n - 1])
  }

  function RunAll<S, E>(step: (S, E) -> S, s: S, es: seq<E>): S {
    Run(step, s, es, |es|)
  }

  /** Each of the first `n` events finds a state in which it is `ok`. */
  predicate Always<S, E>(step: (S, E) -> S, ok: (S, E) -> bool, s: S, es: seq<E>, n: nat)
    requires n <= |es|
  {
    forall k :: 0 <= k < n ==> ok(Run(step, s, es, k), es[k])
  }

  /** What every step that is `ok` keeps, a run of such steps keeps. */
  lemma {:induction false} RunKeeps<S(!new), E(!new)>(
      step: (S, E) -> S, ok: (S, E) -> bool, inv: S -> bool, s: S, es: seq<E>, n: nat)
    requires n <= |es| && Always(step, ok, s, es, n) && inv(s)
    requires forall t, e {:trigger step(t, e)} :: inv(t) && ok(t, e) ==> inv(step(t, e))
    ensures inv(Run(step, s, es, n))
  {
    if n > 0 {
      RunKeeps(step, ok, inv, s, es, n - 1);
      assert ok(Run(step, s, es, n - 1), es[n - 1]);
    }
  }

  /** What is seen of a machine through `f` runs like a machine of its own. */
  lemma {:induction false} RunProjects<S(!new), T, E(!new)>(
      step: (S, E) -> S, view: (T, E) -> T, f: S -> T, s: S, es: seq<E>, n: nat)
    requires n <= |es|
    requires forall t, e {:trigger step(t, e)} :: f(step(t, e)) == view(f(t), e)
    ensures f(Run(step, s, es, n)) == Run(view, f(s), es, n)
  {
    if n > 0 {
      RunProjects(step, view, f, s, es, n - 1);
    }
  }

  /** The first events decide where a longer run stands after them. */
  lemma {:induction false} RunPrefix<S, E>(step: (S, E) -> S, s: S, a: seq<E>, b: seq<E>, n: nat)
    requires n <= |a|
    ensures Run(step, s, a + b, n) == Run(step, s, a, n)
  {
    if n > 0 {
      RunPrefix(step, s, a, b, n - 1);
      assert (a + b)[n - 1] == a[n - 1];
    }
  }

  lemma {:induction false} RunJoin<S, E>(step: (S, E) -> S, s: S, a: seq<E>, b: seq<E>, n: nat)
    requires n <= |b|
    ensures Run(step, s, a + b, |a| + n) == Run(step, RunAll(step, s, a), b, n)
  {
    if n == 0 {
      RunPrefix(step, s, a, b, |a|);
    } else {
      RunJoin(step, s, a, b, n - 1);
      assert (a + b)[|a| + n - 1] == b[n - 1];
    }
  }

  /** A run of two pieces is a run of the second from where the first ends. */
  lemma RunAllJoin<S, E>(step: (S, E) -> S, s: S, a: seq<E>, b: seq<E>)
    ensures RunAll(step, s, a + b) == RunAll(step, RunAll(step, s, a), b)
  {
    RunJoin(step, s, a, b, |b|);
  }

  /** A run goes on from where its first events lead. */
  lemma RunSplit<S, E>(step: (S, E) -> S, s: S, es: seq<E>, k: nat, n: nat)
    requires k <= n <= |es|
    ensures Run(step, s, es, n) == Run(step, Run(step, s, es, k), es[k..], n - k)
  {
    assert es[..k] + es[k..] == es;
    RunJoin(step, s, es[..k], es[k..], n - k);
    RunPrefix(step, s, es[..k], es[k..], k);
  }
}
