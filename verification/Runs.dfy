/** Runs of a step machine. A machine is a function from a state and an action to the next state, if there is one;
    where there is, the action is enabled. */
module Runs {
  import opened Wrappers

  /** Steps follow one another, from any state. */
  ghost predicate IsPath<S, A>(next: (S, A) -> Option<S>, states: seq<S>, actions: seq<A>) {
    && |states| == |actions| + 1
    && forall i {:trigger actions[i]} :: 0 <= i < |actions| ==> next(states[i], actions[i]) == Some(states[i+1])
  }

  /** One more step. */
  lemma Extend<S, A>(next: (S, A) -> Option<S>, states: seq<S>, actions: seq<A>, a: A) returns (states': seq<S>, actions': seq<A>)
    requires IsPath(next, states, actions) && next(states[|actions|], a).Some?
    ensures IsPath(next, states', actions') && states <= states' && actions' == actions + [a]
    ensures states'[0] == states[0] && states'[|actions'|] == next(states[|actions|], a).value
  {
    states', actions' := states + [next(states[|actions|], a).value], actions + [a];
    forall i | 0 <= i < |actions'| ensures next(states'[i], actions'[i]) == Some(states'[i+1]) {
      if i < |actions| {
        assert states'[i] == states[i] && states'[i+1] == states[i+1] && actions'[i] == actions[i];
      }
    }
  }

  /** What every step keeps holds from then on. */
  lemma {:induction false} Keeps<S(!new), A(!new)>(next: (S, A) -> Option<S>, inv: S -> bool, states: seq<S>, actions: seq<A>, i: nat, j: nat)
    requires IsPath(next, states, actions) && i <= j < |states| && inv(states[i])
    requires forall s, a :: inv(s) && next(s, a).Some? ==> inv(next(s, a).value)
    ensures inv(states[j])
  {
    if i < j {
      Keeps(next, inv, states, actions, i, j - 1);
      assert next(states[j-1], actions[j-1]) == Some(states[j]);
    }
  }

  /** If a good state stays good exactly when the step fits, then a path is good at every point exactly when all its
      steps fit. */
  lemma {:induction false} GoodPathIff<S(!new), A(!new)>(next: (S, A) -> Option<S>, fits: (S, A) -> bool, good: S -> bool,
                                                         states: seq<S>, actions: seq<A>, n: nat)
    requires IsPath(next, states, actions) && n < |states| && good(states[0])
    requires forall s, a :: good(s) && next(s, a).Some? ==> (good(next(s, a).value) <==> fits(s, a))
    ensures (forall i :: 0 <= i <= n ==> good(states[i])) <==> (forall i :: 0 <= i < n ==> fits(states[i], actions[i]))
  {
    if n > 0 {
      GoodPathIff(next, fits, good, states, actions, n - 1);
      assert next(states[n-1], actions[n-1]) == Some(states[n]);
    }
  }

  // Machines that take every action

  ghost function After<S, A>(next: (S, A) -> S, s: S, actions: seq<A>): S
    decreases |actions|
  {
    if actions == [] then s else After(next, next(s, actions[0]), actions[1..])
  }

  /** Every action fits the state it meets. */
  ghost predicate AllFit<S, A>(next: (S, A) -> S, fits: (S, A) -> bool, s: S, actions: seq<A>)
    decreases |actions|
  {
    actions == [] || (fits(s, actions[0]) && AllFit(next, fits, next(s, actions[0]), actions[1..]))
  }

  /** If a good state stays good exactly when the action fits, then all actions fit exactly when the state is good at
      every point of the run. */
  lemma {:induction false} AlwaysGoodIff<S(!new), A(!new)>(next: (S, A) -> S, fits: (S, A) -> bool, good: S -> bool, s: S, actions: seq<A>)
    requires good(s) && forall s, a :: good(s) ==> (good(next(s, a)) <==> fits(s, a))
    ensures AllFit(next, fits, s, actions) <==> forall n :: 0 <= n <= |actions| ==> good(After(next, s, actions[..n]))
    decreases |actions|
  {
    if actions != [] {
      var s1, rest := next(s, actions[0]), actions[1..];
      forall n | 1 <= n <= |actions| ensures After(next, s, actions[..n]) == After(next, s1, rest[..n-1]) {
        assert actions[..n][1..] == rest[..n-1];
      }
      assert After(next, s1, rest[..0]) == s1 == After(next, s, actions[..1]);
      if fits(s, actions[0]) {
        AlwaysGoodIff(next, fits, good, s1, rest);
        assert forall n :: 0 <= n <= |rest| ==> After(next, s1, rest[..n]) == After(next, s, actions[..n+1]);
      }
    }
  }
}
