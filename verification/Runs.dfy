/** Runs of a step relation. */
module Runs {
  /** The states of a run; step i is `actions[i]`. */
  ghost predicate IsRun<S(!new), A(!new)>(next: (S, A, S) -> bool, states: seq<S>, actions: seq<A>) {
    && |states| == |actions| + 1
    && forall i :: 0 <= i < |actions| ==> next(states[i], actions[i], states[i + 1])
  }

  ghost predicate Reaches<S(!new), A(!new)>(next: (S, A, S) -> bool, s: S, s': S) {
    exists states, actions :: IsRun(next, states, actions) && states[0] == s && states[|states| - 1] == s'
  }

  lemma ReachesSelf<S(!new), A(!new)>(next: (S, A, S) -> bool, s: S)
    ensures Reaches(next, s, s)
  {
    var none: seq<A> := [];
    assert IsRun(next, [s], none);
  }

  lemma ReachesNext<S(!new), A(!new)>(next: (S, A, S) -> bool, s: S, m: S, a: A, s': S)
    requires Reaches(next, s, m) && next(m, a, s')
    ensures Reaches(next, s, s')
  {
    var states, actions :| IsRun(next, states, actions) && states[0] == s && states[|states| - 1] == m;
    Extend(next, states, actions, a, s');
    assert (states + [s'])[|states + [s']| - 1] == s';
  }

  lemma Extend<S(!new), A(!new)>(next: (S, A, S) -> bool, states: seq<S>, actions: seq<A>, a: A, s': S)
    requires IsRun(next, states, actions) && next(states[|states| - 1], a, s')
    ensures IsRun(next, states + [s'], actions + [a])
  {
  }

  /** What every step keeps holds from any point of a run on. */
  lemma {:induction false} RunKeeps<S(!new), A(!new)>(
    next: (S, A, S) -> bool, keeps: S -> bool, states: seq<S>, actions: seq<A>, i: nat, j: nat)
    requires IsRun(next, states, actions) && i <= j < |states| && keeps(states[i])
    requires forall s, a, s' :: keeps(s) && next(s, a, s') ==> keeps(s')
    ensures keeps(states[j])
  {
    if i < j {
      RunKeeps(next, keeps, states, actions, i, j - 1);
      assert next(states[j - 1], actions[j - 1], states[j]);
    }
  }
}
