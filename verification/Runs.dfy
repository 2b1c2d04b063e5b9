/** Runs of a state machine given by its step relation, and the two ways of
    reasoning about them that every protocol in this project uses: an invariant
    kept by each step, and extending or joining runs. */
module Runs {

  ghost predicate IsRun<S(!new)>(next: (S, S) -> bool, run: seq<S>) {
    && 0 < |run|
    && forall i, j | 0 <= i < j < |run| && j == i + 1 :: next(run[i], run[j])
  }

  ghost predicate Reaches<S(!new)>(next: (S, S) -> bool, s: S, t: S) {
    exists run :: IsRun(next, run) && run[0] == s && run[|run| - 1] == t
  }

  /** What holds at the start of a run and is kept by every step holds all along it. */
  lemma {:induction false} InvariantAlong<S(!new)>(next: (S, S) -> bool, inv: S -> bool, run: seq<S>)
    requires IsRun(next, run) && inv(run[0])
    requires forall s, t :: inv(s) && next(s, t) ==> inv(t)
    ensures forall i | 0 <= i < |run| :: inv(run[i])
  {
    var k := 1;
    while k < |run|
      invariant 1 <= k <= |run|
      invariant forall i | 0 <= i < k :: inv(run[i])
    {
      assert next(run[k - 1], run[k]);
      k := k + 1;
    }
  }

  lemma InvariantReached<S(!new)>(next: (S, S) -> bool, inv: S -> bool, s: S, t: S)
    requires Reaches(next, s, t) && inv(s)
    requires forall u, v :: inv(u) && next(u, v) ==> inv(v)
    ensures inv(t)
  {
    var run :| IsRun(next, run) && run[0] == s && run[|run| - 1] == t;
    InvariantAlong(next, inv, run);
  }

  lemma ReachesSelf<S(!new)>(next: (S, S) -> bool, s: S)
    ensures Reaches(next, s, s)
  {
    assert IsRun(next, [s]);
  }

  lemma ReachesStep<S(!new)>(next: (S, S) -> bool, s: S, t: S, u: S)
    requires Reaches(next, s, t) && next(t, u)
    ensures Reaches(next, s, u)
  {
    var run :| IsRun(next, run) && run[0] == s && run[|run| - 1] == t;
    assert IsRun(next, run + [u]);
  }

  lemma ReachesJoin<S(!new)>(next: (S, S) -> bool, s: S, t: S, u: S)
    requires Reaches(next, s, t) && Reaches(next, t, u)
    ensures Reaches(next, s, u)
  {
    var front :| IsRun(next, front) && front[0] == s && front[|front| - 1] == t;
    var back :| IsRun(next, back) && back[0] == t && back[|back| - 1] == u;
    var run := front + back[1..];
    forall i, j | 0 <= i < j < |run| && j == i + 1 ensures next(run[i], run[j]) {
      if j < |front| {
        assert next(front[i], front[j]);
      } else {
        var k := i - (|front| - 1);
        assert next(back[k], back[k + 1]);
      }
    }
    assert IsRun(next, run);
  }
}
