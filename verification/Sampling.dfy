/** Softmax sampling over candidate scores. */
module Sampling {
  import opened Basics
  import opened Domain

  // The exponential is only known to be positive.
  type Exp = f: real -> real | forall x: real :: f(x) > 0.0 witness (x: real) => 1.0

  const TEMPERATURE := 4.0

  function Max(scores: seq<real>): (m: real)
    requires scores != []
    ensures m in scores
    ensures forall x :: x in scores ==> x <= m
  {
    if |scores| == 1 then scores[0]
    else
      assert scores == [scores[0]] + scores[1..];
      var rest := Max(scores[1..]);
      if scores[0] >= rest then scores[0] else rest
  }

  function Boosted(exp: Exp, advantage: real): (w: real)
    ensures w > 0.0
  {
    exp(advantage * TEMPERATURE)
  }

  function Weight(exp: Exp, scores: seq<real>, i: nat): (w: real)
    requires i < |scores|
    ensures w > 0.0
  {
    Boosted(exp, scores[i] - Max(scores))
  }

  // Weight of the first n candidates.
  function WeightBefore(exp: Exp, scores: seq<real>, n: nat): (w: real)
    requires n <= |scores|
    ensures n > 0 ==> w > 0.0
    ensures n == 0 ==> w == 0.0
  {
    if n == 0 then 0.0 else WeightBefore(exp, scores, n - 1) + Weight(exp, scores, n - 1)
  }

  function Share(weight: real, total: real): (p: real)
    requires weight > 0.0 && total > 0.0
    ensures p > 0.0
  {
    weight / total
  }

  lemma ShareTimesTotal(weight: real, total: real)
    requires weight > 0.0 && total > 0.0
    ensures Times(total, Share(weight, total)) == weight
  {}

  // Softmax share of candidate i.
  function Probability(exp: Exp, scores: seq<real>, i: nat): (p: real)
    requires i < |scores|
    ensures p > 0.0
  {
    Share(Weight(exp, scores, i), WeightBefore(exp, scores, |scores|))
  }

  // Probability that the draw lands before candidate n.
  function Cumulative(exp: Exp, scores: seq<real>, n: nat): real
    requires n <= |scores|
  {
    if n == 0 then 0.0 else Cumulative(exp, scores, n - 1) + Probability(exp, scores, n - 1)
  }

  lemma WholeIsOne(x: real, total: real)
    requires total > 0.0 && Times(total, x) == total
    ensures x == 1.0
  {}

  lemma {:induction false} CumulativeIsShare(exp: Exp, scores: seq<real>, n: nat)
    requires scores != [] && n <= |scores|
    ensures Times(WeightBefore(exp, scores, |scores|), Cumulative(exp, scores, n)) == WeightBefore(exp, scores, n)
  {
    hide Share, Times, Weight;
    var total := WeightBefore(exp, scores, |scores|);
    if n == 0 {
      Distribute(total, 0.0, 0.0);
    } else {
      CumulativeIsShare(exp, scores, n - 1);
      Distribute(total, Cumulative(exp, scores, n - 1), Probability(exp, scores, n - 1));
      ShareTimesTotal(Weight(exp, scores, n - 1), total);
    }
  }

  lemma CumulativeIsWhole(exp: Exp, scores: seq<real>)
    requires scores != []
    ensures Cumulative(exp, scores, |scores|) == 1.0
  {
    hide Share, Times, Weight;
    CumulativeIsShare(exp, scores, |scores|);
    WholeIsOne(Cumulative(exp, scores, |scores|), WeightBefore(exp, scores, |scores|));
  }

  // The first candidate whose cumulative probability covers the draw; the last
  // one when none does.
  function PickFrom(exp: Exp, scores: seq<real>, roll: real, i: nat): (r: nat)
    requires i < |scores|
    ensures i <= r < |scores|
    decreases |scores| - i
  {
    if i + 1 == |scores| || roll <= Cumulative(exp, scores, i + 1) then i
    else PickFrom(exp, scores, roll, i + 1)
  }

  function Pick(exp: Exp, scores: seq<real>, roll: real): (r: nat)
    requires scores != []
    ensures r < |scores|
  {
    PickFrom(exp, scores, roll, 0)
  }

  lemma {:induction false} CumulativeMonotone(exp: Exp, scores: seq<real>, m: nat, n: nat)
    requires scores != [] && m <= n <= |scores|
    ensures Cumulative(exp, scores, m) <= Cumulative(exp, scores, n)
  {
    if m < n {
      CumulativeMonotone(exp, scores, m, n - 1);
    }
  }

  lemma {:induction false} PickFromLaw(exp: Exp, scores: seq<real>, roll: real, start: nat, i: nat)
    requires start <= i < |scores|
    requires Cumulative(exp, scores, i) < roll <= Cumulative(exp, scores, i + 1)
    ensures PickFrom(exp, scores, roll, start) == i
    decreases i - start
  {
    if start < i {
      CumulativeMonotone(exp, scores, start + 1, i);
      PickFromLaw(exp, scores, roll, start + 1, i);
    }
  }

  // For a draw in [0, 1], candidate i is picked exactly when the draw falls in
  // its own slice of the unit interval, whose length is its softmax share; the
  // draw 0 belongs to the first slice, and the "last item" fallback never decides.
  lemma PickIsProportional(exp: Exp, scores: seq<real>, roll: real, i: nat)
    requires i < |scores| && 0.0 <= roll <= 1.0
    ensures Pick(exp, scores, roll) == i <==>
            (Cumulative(exp, scores, i) < roll <= Cumulative(exp, scores, i + 1)) || (roll == 0.0 && i == 0)
    ensures Cumulative(exp, scores, i + 1) - Cumulative(exp, scores, i) ==
            Probability(exp, scores, i)
    ensures Cumulative(exp, scores, 0) == 0.0 && Cumulative(exp, scores, |scores|) == 1.0
  {
    var p := Pick(exp, scores, roll);
    CumulativeMonotone(exp, scores, 0, i);
    assert roll == 0.0 ==> p == 0 by {
      assert Cumulative(exp, scores, 1) == Cumulative(exp, scores, 0) + Probability(exp, scores, 0);
    }
    hide Share, Times, Weight;
    if roll > 0.0 { PickedSlice(exp, scores, roll, 0); }
    CumulativeIsWhole(exp, scores);
    if Cumulative(exp, scores, i) < roll <= Cumulative(exp, scores, i + 1) {
      PickFromLaw(exp, scores, roll, 0, i);
    }
  }

  lemma {:induction false} PickedSlice(exp: Exp, scores: seq<real>, roll: real, start: nat)
    requires start < |scores| && Cumulative(exp, scores, start) < roll <= 1.0
    ensures var p := PickFrom(exp, scores, roll, start);
            Cumulative(exp, scores, p) < roll <= Cumulative(exp, scores, p + 1)
    decreases |scores| - start
  {
    hide Share, Times, Weight;
    CumulativeIsWhole(exp, scores);
    if start + 1 < |scores| && roll > Cumulative(exp, scores, start + 1) {
      PickedSlice(exp, scores, roll, start + 1);
    }
  }

  // ---- what the shares say about the scores ----

  // Of the draws in (0, 1], exactly the stretch of this length above lo picks candidate i.
  ghost predicate Slice(exp: Exp, scores: seq<real>, i: nat, lo: real, length: real) {
    && scores != [] && 0.0 <= lo && length > 0.0 && lo + length <= 1.0
    && forall roll: real :: 0.0 < roll <= 1.0 ==>
         (Pick(exp, scores, roll) == i <==> lo < roll <= lo + length)
  }

  lemma SliceIs(exp: Exp, scores: seq<real>, i: nat, lo: real, length: real)
    requires i < |scores| && Slice(exp, scores, i, lo, length)
    ensures length == Probability(exp, scores, i)
  {
    var from, to := Cumulative(exp, scores, i), Cumulative(exp, scores, i + 1);
    CumulativeMonotone(exp, scores, 0, i);
    CumulativeMonotone(exp, scores, i + 1, |scores|);
    CumulativeIsWhole(exp, scores);
    assert to == from + Probability(exp, scores, i);
    hide Pick, Cumulative, Probability;
    PickIsProportional(exp, scores, lo + length, i);
    PickIsProportional(exp, scores, to, i);
    if from > 0.0 { PickIsProportional(exp, scores, from, i); }
    if lo > 0.0 { PickIsProportional(exp, scores, lo, i); }
  }

  // Every candidate has a slice.
  lemma SliceExists(exp: Exp, scores: seq<real>, i: nat) returns (lo: real, length: real)
    requires i < |scores|
    ensures Slice(exp, scores, i, lo, length)
  {
    lo, length := Cumulative(exp, scores, i), Probability(exp, scores, i);
    CumulativeMonotone(exp, scores, 0, i);
    CumulativeMonotone(exp, scores, i + 1, |scores|);
    CumulativeIsWhole(exp, scores);
    assert lo + length == Cumulative(exp, scores, i + 1);
    hide Cumulative, Pick, Probability;
    forall roll: real | 0.0 < roll <= 1.0
      ensures Pick(exp, scores, roll) == i <==> lo < roll <= lo + length
    {
      PickIsProportional(exp, scores, roll, i);
    }
  }

  lemma SharesCross(a: real, b: real, total: real)
    requires a > 0.0 && b > 0.0 && total > 0.0
    ensures Times(Share(a, total), b) == Times(Share(b, total), a)
  {
    var p, q := a / total, b / total;
    assert p * total == a && q * total == b;
    assert p * (q * total) == q * (p * total);
  }

  lemma SharesOrdered(a: real, b: real, total: real)
    requires a > b > 0.0 && total > 0.0
    ensures Share(a, total) > Share(b, total)
  {
    assert a / total - b / total == (a - b) / total;
    assert (a - b) / total > 0.0;
  }

  lemma ProbabilitiesFollow(exp: Exp, scores: seq<real>, i: nat, j: nat)
    requires i < |scores| && j < |scores|
    ensures Times(Probability(exp, scores, i), Weight(exp, scores, j)) ==
            Times(Probability(exp, scores, j), Weight(exp, scores, i))
    ensures Weight(exp, scores, i) > Weight(exp, scores, j) ==> Probability(exp, scores, i) > Probability(exp, scores, j)
    ensures Weight(exp, scores, i) == Weight(exp, scores, j) ==> Probability(exp, scores, i) == Probability(exp, scores, j)
  {
    hide Weight, Share, Times;
    var a, b, total := Weight(exp, scores, i), Weight(exp, scores, j), WeightBefore(exp, scores, |scores|);
    SharesCross(a, b, total);
    if a > b { SharesOrdered(a, b, total); }
  }

  // The largest of the scores.
  ghost predicate Best(scores: seq<real>, m: real) {
    m in scores && forall x :: x in scores ==> x <= m
  }

  lemma WeightIs(exp: Exp, scores: seq<real>, i: nat, m: real)
    requires i < |scores| && Best(scores, m)
    ensures Weight(exp, scores, i) == exp(4.0 * (scores[i] - m))
  {
    assert Max(scores) == m;
    assert (scores[i] - m) * TEMPERATURE == 4.0 * (scores[i] - m);
  }

  lemma SlicesCross(exp: Exp, scores: seq<real>, m: real,
                    i: nat, lo: real, length: real, j: nat, lo': real, length': real)
    requires Best(scores, m)
    requires i < |scores| && Slice(exp, scores, i, lo, length)
    requires j < |scores| && Slice(exp, scores, j, lo', length')
    ensures Times(length, exp(4.0 * (scores[j] - m))) == Times(length', exp(4.0 * (scores[i] - m)))
  {
    hide *;
    SliceIs(exp, scores, i, lo, length);
    SliceIs(exp, scores, j, lo', length');
    ProbabilitiesFollow(exp, scores, i, j);
    WeightIs(exp, scores, i, m);
    WeightIs(exp, scores, j, m);
  }

  // The lengths of two slices are in the proportion of the exponentials of four
  // times the scores, counted from the best score.
  lemma SlicesFollowScores(exp: Exp, scores: seq<real>, m: real,
                           i: nat, lo: real, length: real, j: nat, lo': real, length': real)
    requires Best(scores, m)
    requires i < |scores| && Slice(exp, scores, i, lo, length)
    requires j < |scores| && Slice(exp, scores, j, lo', length')
    ensures length * exp(4.0 * (scores[j] - m)) == length' * exp(4.0 * (scores[i] - m))
  {
    hide Slice, Best, Pick;
    SlicesCross(exp, scores, m, i, lo, length, j, lo', length');
  }

  ghost predicate Rises(exp: Exp, x: real, y: real) {
    x < y ==> exp(x) < exp(y)
  }

  ghost predicate Increasing(exp: Exp) {
    forall x: real, y: real :: Rises(exp, x, y)
  }

  lemma Increases(exp: Exp, a: real, b: real, m: real)
    requires Increasing(exp)
    ensures a > b ==> exp(4.0 * (a - m)) > exp(4.0 * (b - m))
  {
    assert Rises(exp, 4.0 * (b - m), 4.0 * (a - m));
  }

  lemma SomeBest(scores: seq<real>) returns (m: real)
    requires scores != []
    ensures Best(scores, m)
  {
    m := Max(scores);
  }

  lemma BetterWeighs(exp: Exp, scores: seq<real>, i: nat, j: nat)
    requires Increasing(exp) && i < |scores| && j < |scores|
    ensures scores[i] > scores[j] ==> Weight(exp, scores, i) > Weight(exp, scores, j)
  {
    hide *;
    var m := SomeBest(scores);
    WeightIs(exp, scores, i, m);
    WeightIs(exp, scores, j, m);
    Increases(exp, scores[i], scores[j], m);
  }

  lemma EqualWeighs(exp: Exp, scores: seq<real>, i: nat, j: nat)
    requires i < |scores| && j < |scores|
    ensures scores[i] == scores[j] ==> Weight(exp, scores, i) == Weight(exp, scores, j)
  {}

  // With an increasing exponential the better score has the longer slice, and
  // equal scores have equal ones.
  lemma BetterScoresWin(exp: Exp, scores: seq<real>,
                        i: nat, lo: real, length: real, j: nat, lo': real, length': real)
    requires Increasing(exp)
    requires i < |scores| && Slice(exp, scores, i, lo, length)
    requires j < |scores| && Slice(exp, scores, j, lo', length')
    ensures scores[i] > scores[j] ==> length > length'
    ensures scores[i] == scores[j] ==> length == length'
  {
    hide *;
    SliceIs(exp, scores, i, lo, length);
    SliceIs(exp, scores, j, lo', length');
    ProbabilitiesFollow(exp, scores, i, j);
    BetterWeighs(exp, scores, i, j);
    EqualWeighs(exp, scores, i, j);
  }

  // The sampling loop. An empty candidate list yields nothing.
  method SoftmaxSample(exp: Exp, scores: seq<real>, roll: real) returns (r: Option<nat>)
    ensures r == if scores == [] then None else Some(Pick(exp, scores, roll))
  {
    hide Share, Weight;
    if scores == [] {
      return None;
    }
    var total := WeightBefore(exp, scores, |scores|);
    var cumulative := 0.0;
    for i := 0 to |scores|
      invariant cumulative == Cumulative(exp, scores, i)
      invariant i < |scores| ==> Pick(exp, scores, roll) == PickFrom(exp, scores, roll, i)
      invariant i == |scores| ==> Pick(exp, scores, roll) == |scores| - 1
    {
      cumulative := cumulative + Share(Weight(exp, scores, i), total);
      if roll <= cumulative {
        return Some(i);
      }
    }
    return Some(|scores| - 1);
  }
}
