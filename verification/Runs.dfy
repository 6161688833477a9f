/** Runs of a state machine given by its start and its step relation. */
module Runs {

  ghost predicate IsRun<S(!new)>(run: seq<S>, start: S, follows: (S, S) -> bool) {
    && run != [] && run[0] == start
    && forall i :: 0 <= i < |run| - 1 ==> follows(run[i], run[i + 1])
  }

  /** What holds at the start and is kept by every step holds in every state of every run. */
  lemma {:induction false} Invariant<S(!new)>(run: seq<S>, start: S, follows: (S, S) -> bool, keeps: S -> bool)
    requires IsRun(run, start, follows) && keeps(start)
    requires forall s, t :: keeps(s) && follows(s, t) ==> keeps(t)
    ensures forall i :: 0 <= i < |run| ==> keeps(run[i])
  {
    if |run| > 1 {
      var before, n := run[..|run| - 1], |run| - 2;
      Invariant(before, start, follows, keeps);
      assert before[n] == run[n] && follows(run[n], run[n + 1]);
      forall i | 0 <= i < |run| ensures keeps(run[i]) {
        assert i <= n ==> before[i] == run[i];
      }
    }
  }

  /** What holds once, and is kept by every later step of the run, holds from then on. */
  lemma {:induction false} Onward<S(!new)>(run: seq<S>, holds: S -> bool, i: nat, j: nat)
    requires i <= j < |run| && holds(run[i])
    requires forall k :: i <= k < j && holds(run[k]) ==> holds(run[k + 1])
    ensures holds(run[j])
    decreases j
  {
    if i < j {
      Onward(run, holds, i, j - 1);
      assert holds(run[j - 1 + 1]);
    }
  }

  lemma Extended<S(!new)>(run: seq<S>, start: S, follows: (S, S) -> bool, next: S)
    requires IsRun(run, start, follows) && follows(run[|run| - 1], next)
    ensures IsRun(run + [next], start, follows)
  {
    var longer := run + [next];
    forall i | 0 <= i < |longer| - 1 ensures follows(longer[i], longer[i + 1]) {
      if i < |run| - 1 {
        assert follows(run[i], run[i + 1]);
      }
    }
  }
}
