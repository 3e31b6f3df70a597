/**
 Runs of a program against an environment, whatever the state and the calls are,
 and plans: what can be worked out from the list of calls alone.
 */
module Runs {

  /** The state after the first `n` calls, the environment's part in each given. */
  function After<S, C, E>(step: (S, C, E) -> S, s: S, calls: seq<C>, envs: seq<E>, n: nat): S
    requires n <= |calls| && n <= |envs|
  {
    if n == 0 then s else step(After(step, s, calls, envs, n - 1), calls[n - 1], envs[n - 1])
  }

  /** No step leaves the property. */
  ghost predicate Keeps<S(!new), C(!new), E(!new)>(step: (S, C, E) -> S, inv: S -> bool) {
    forall s: S, c: C, e: E {:trigger step(s, c, e)} :: inv(s) ==> inv(step(s, c, e))
  }

  lemma {:induction false} RunKeeps<S(!new), C(!new), E(!new)>(step: (S, C, E) -> S, inv: S -> bool, s: S,
                                                         calls: seq<C>, envs: seq<E>, n: nat)
    requires Keeps(step, inv) && inv(s) && n <= |calls| && n <= |envs|
    ensures inv(After(step, s, calls, envs, n))
    decreases n
  {
    if n > 0 {
      RunKeeps(step, inv, s, calls, envs, n - 1);
    }
  }

  /** The plan after the first `n` calls. */
  function Planned<P, C>(plan: (P, C) -> P, p: P, calls: seq<C>, n: nat): P
    requires n <= |calls|
  {
    if n == 0 then p else plan(Planned(plan, p, calls, n - 1), calls[n - 1])
  }

  /** Whatever an environment of a certain kind does in one call, the plan stays a plan of the state. */
  ghost predicate Covers<S(!new), P(!new), C(!new), E(!new)>(step: (S, C, E) -> S, plan: (P, C) -> P,
                                                         rel: (S, P) -> bool, kind: E -> bool) {
    forall s: S, p: P, c: C, e: E {:trigger step(s, c, e), plan(p, c)} ::
      rel(s, p) && kind(e) ==> rel(step(s, c, e), plan(p, c))
  }

  lemma {:induction false} PlanCovers<S(!new), P(!new), C(!new), E(!new)>(step: (S, C, E) -> S, plan: (P, C) -> P,
    rel: (S, P) -> bool, kind: E -> bool, s: S, p: P, calls: seq<C>, envs: seq<E>, n: nat)
    requires Covers(step, plan, rel, kind) && rel(s, p) && n <= |calls| && n <= |envs|
    requires forall i | 0 <= i < |envs| :: kind(envs[i])
    ensures rel(After(step, s, calls, envs, n), Planned(plan, p, calls, n))
    decreases n
  {
    if n > 0 {
      PlanCovers(step, plan, rel, kind, s, p, calls, envs, n - 1);
    }
  }

  /** What the last call brings about, from any state the plan is a plan of. */
  lemma LastCall<S(!new), P(!new), C(!new), E(!new)>(step: (S, C, E) -> S, plan: (P, C) -> P, rel: (S, P) -> bool,
    kind: E -> bool, goal: (S, P) -> bool, s: S, p: P, calls: seq<C>, envs: seq<E>)
    requires Covers(step, plan, rel, kind) && rel(s, p) && 0 < |calls| == |envs|
    requires forall i | 0 <= i < |envs| :: kind(envs[i])
    requires forall s: S, p: P, e: E {:trigger step(s, calls[|calls| - 1], e), plan(p, calls[|calls| - 1])} ::
               rel(s, p) && kind(e) ==> goal(step(s, calls[|calls| - 1], e), plan(p, calls[|calls| - 1]))
    ensures goal(After(step, s, calls, envs, |calls|), Planned(plan, p, calls, |calls|))
  {
    PlanCovers(step, plan, rel, kind, s, p, calls, envs, |calls| - 1);
  }

  /** The environment that chooses its part in every call by the plan. */
  function Chosen<P, C, E>(plan: (P, C) -> P, choose: (P, C) -> E, p: P, calls: seq<C>): (envs: seq<E>)
    ensures |envs| == |calls|
  {
    seq(|calls|, i requires 0 <= i < |calls| => choose(Planned(plan, p, calls, i), calls[i]))
  }

  /** In that environment the plan stays a plan of the state. */
  ghost predicate Follows<S(!new), P(!new), C(!new), E(!new)>(step: (S, C, E) -> S, plan: (P, C) -> P,
                                                          choose: (P, C) -> E, rel: (S, P) -> bool) {
    forall s: S, p: P, c: C {:trigger step(s, c, choose(p, c))} :: rel(s, p) ==> rel(step(s, c, choose(p, c)), plan(p, c))
  }

  lemma {:induction false} ChosenFollows<S(!new), P(!new), C(!new), E(!new)>(step: (S, C, E) -> S, plan: (P, C) -> P,
    choose: (P, C) -> E, rel: (S, P) -> bool, s: S, p: P, calls: seq<C>, n: nat)
    requires Follows(step, plan, choose, rel) && rel(s, p) && n <= |calls|
    ensures rel(After(step, s, calls, Chosen(plan, choose, p, calls), n), Planned(plan, p, calls, n))
    decreases n
  {
    if n > 0 {
      ChosenFollows(step, plan, choose, rel, s, p, calls, n - 1);
    }
  }
}
