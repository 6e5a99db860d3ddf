/** Runs of a transition system: sequences of states joined by steps. */
module Runs {

  /** The states passed through, from init on. */
  ghost predicate IsRun<S(!new)>(run: seq<S>, init: S, steps: (S, S) -> bool) {
    run != [] && run[0] == init && forall n :: 0 <= n < |run| - 1 ==> steps(run[n], run[n + 1])
  }

  /** The state the run has reached. */
  function Now<S>(run: seq<S>, init: S): S { if run == [] then init else run[|run| - 1] }

  /** A run but for its last step. */
  lemma Shorter<S(!new)>(run: seq<S>, init: S, steps: (S, S) -> bool)
    requires IsRun(run, init, steps) && |run| > 1
    ensures var front := run[..|run| - 1];
            IsRun(front, init, steps) && steps(Now(front, init), Now(run, init))
  {
    var n := |run| - 2;
    assert steps(run[n], run[n + 1]);
    var front := run[..n + 1];
    forall i | 0 <= i < n
      ensures steps(front[i], front[i + 1])
    {
      assert steps(run[i], run[i + 1]);
    }
  }

  /** A run and one more step. */
  lemma Longer<S(!new)>(run: seq<S>, t: S, init: S, steps: (S, S) -> bool)
    requires IsRun(run, init, steps) && steps(Now(run, init), t)
    ensures IsRun(run + [t], init, steps) && Now(run + [t], init) == t
  {
    var more := run + [t];
    forall i | 0 <= i < |run|
      ensures steps(more[i], more[i + 1])
    {
      if i < |run| - 1 {
        assert steps(run[i], run[i + 1]);
      }
    }
  }
}
