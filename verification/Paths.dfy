/** Finite sequences of steps of a machine, for showing that a call can get to its end. */
module Paths {
  ghost predicate Path<S(!new)>(step: (S, S) -> bool, run: seq<S>, s: S, s': S) {
    && |run| > 0 && run[0] == s && run[|run|-1] == s'
    && forall i :: 0 < i < |run| ==> step(run[i-1], run[i])
  }

  /** Some steps lead from s to s'. */
  ghost predicate Leads<S(!new)>(step: (S, S) -> bool, s: S, s': S) { exists run :: Path(step, run, s, s') }

  lemma LeadsSelf<S(!new)>(step: (S, S) -> bool, s: S)
    ensures Leads(step, s, s)
  {
    assert Path(step, [s], s, s);
  }

  lemma LeadsOn<S(!new)>(step: (S, S) -> bool, s: S, t: S, s': S)
    requires step(s, t) && Leads(step, t, s')
    ensures Leads(step, s, s')
  {
    var run :| Path(step, run, t, s');
    var run' := [s] + run;
    forall i | 0 < i < |run'| ensures step(run'[i-1], run'[i]) {
      if i > 1 { assert step(run[i-2], run[i-1]); }
    }
    assert Path(step, run', s, s');
  }

  lemma LeadsMore<S(!new)>(step: (S, S) -> bool, s: S, t: S, s': S)
    requires Leads(step, s, t) && step(t, s')
    ensures Leads(step, s, s')
  {
    var run :| Path(step, run, s, t);
    var run' := run + [s'];
    forall i | 0 < i < |run'| ensures step(run'[i-1], run'[i]) {
      if i < |run| { assert step(run[i-1], run[i]); }
    }
    assert Path(step, run', s, s');
  }
}
