/** Reachability along the transitions of a screen graph. */
module Reach {
  import opened Domain

  ghost predicate Edge(ts: seq<Transition>, a: ScreenId, b: ScreenId) {
    exists t :: t in ts && t.from == a && t.to == b
  }

  // `b` can be reached from `a` in at most n transitions.
  ghost predicate Within(ts: seq<Transition>, a: ScreenId, b: ScreenId, n: nat)
    decreases n
  {
    if n == 0 then a == b
    else Within(ts, a, b, n - 1) || exists t :: t in ts && t.to == b && Within(ts, a, t.from, n - 1)
  }

  ghost predicate Reachable(ts: seq<Transition>, a: ScreenId, b: ScreenId) {
    exists n: nat :: Within(ts, a, b, n)
  }

  lemma {:induction false} WithinMore(ts: seq<Transition>, a: ScreenId, b: ScreenId, m: nat, n: nat)
    requires m <= n && Within(ts, a, b, m)
    ensures Within(ts, a, b, n)
  {
    if m < n { WithinMore(ts, a, b, m, n - 1); }
  }

  lemma WithinStep(ts: seq<Transition>, a: ScreenId, b: ScreenId, c: ScreenId, n: nat)
    requires Within(ts, a, b, n) && Edge(ts, b, c)
    ensures Within(ts, a, c, n + 1)
  {}
}
