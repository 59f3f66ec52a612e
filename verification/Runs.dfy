/**
 Labelled transition systems and their runs.  Every concurrent component of the
 project is a `Machine`: the label carries all nondeterminism (which thread
 moves, which value it supplies), so a step is a function of state and label.
 */
module Runs {

  datatype Machine<!S, !E> = Machine(init: S, enabled: (S, E) -> bool, step: (S, E) -> S)

  ghost predicate StepAt<S(!new), E(!new)>(m: Machine<S, E>, ss: seq<S>, es: seq<E>, i: nat)
    requires i < |es| && |ss| == |es| + 1
  {
    m.enabled(ss[i], es[i]) && ss[i + 1] == m.step(ss[i], es[i])
  }

  /** `ss` are the states and `es` the labels of a run of `m`. */
  ghost predicate IsRun<S(!new), E(!new)>(m: Machine<S, E>, ss: seq<S>, es: seq<E>) {
    && |ss| == |es| + 1
    && ss[0] == m.init
    && forall i: nat | i < |es| :: StepAt(m, ss, es, i)
  }

  /** A property that every step with an `ok` label keeps is kept by a stretch of a run with `ok` labels. */
  lemma {:induction false} Kept<S(!new), E(!new)>(
    m: Machine<S, E>, ss: seq<S>, es: seq<E>, p: S -> bool, ok: E -> bool, i: nat, j: nat)
    requires IsRun(m, ss, es) && i <= j <= |es|
    requires p(ss[i])
    requires forall k | i <= k < j :: ok(es[k])
    requires forall s, e | p(s) && ok(e) && m.enabled(s, e) :: p(m.step(s, e))
    ensures p(ss[j])
    decreases j
  {
    if i < j {
      Kept(m, ss, es, p, ok, i, j - 1);
      assert StepAt(m, ss, es, j - 1);
    }
  }
}
