/** Uncertainty: interpreting a screen that has elements never leaves it above
    0.6, so running out of patience takes a screen without elements. */
module SimulationPatience {
  import opened Domain
  import opened Sampling
  import opened SimulationGraph

  function Copies(n: nat, v: real): real {
    n as real * v
  }

  lemma CopiesNext(n: nat, v: real)
    ensures Copies(0, v) == 0.0 && Copies(n + 1, v) == Copies(n, v) + v
  {}

  lemma {:induction false} SumBelow(xs: seq<real>, top: real)
    requires forall i :: 0 <= i < |xs| ==> xs[i] <= top
    ensures Total(xs) <= Copies(|xs|, top)
  {
    hide Copies;
    CopiesNext(if xs == [] then 0 else |xs| - 1, top);
    if xs != [] {
      SumBelow(xs[..|xs| - 1], top);
    }
  }

  lemma QuotientBelow(sum: real, n: nat, top: real)
    requires n > 0 && sum <= Copies(n, top)
    ensures sum / n as real <= top
  {
    var q := sum / n as real;
    assert q * n as real == sum;
    if q > top { assert (q - top) * n as real > 0.0; }
  }

  lemma MeanBelowMax(xs: seq<real>)
    requires xs != []
    ensures Mean(xs) <= Max(xs)
  {
    hide Copies, Total, Max;
    assert forall i :: 0 <= i < |xs| ==> xs[i] in xs;
    SumBelow(xs, Max(xs));
    QuotientBelow(Total(xs), |xs|, Max(xs));
  }

  // A standout only lowers uncertainty below 0.6.
  lemma LooksSettle(attention: Option<seq<real>>, before: real)
    requires 0.0 <= before <= 1.0
    ensures 0.0 <= UncertaintyAfter(attention, before) <= 1.0
    ensures attention.Some? && attention.value != [] ==> UncertaintyAfter(attention, before) <= 0.6
  {
    if attention.Some? && attention.value != [] { MeanBelowMax(attention.value); }
    hide Max, Mean;
  }

  lemma PressureBelow(u: real, patience: real, deadEnds: nat)
    requires 0.0 <= u <= 0.6 && patience >= 0.0
    ensures AbandonPressure(u, patience, deadEnds) <= 0.7
  {
    assert u * (1.0 - patience) <= u by { assert u * patience >= 0.0; }
  }

  // The machine is about to interpret a screen without elements.
  ghost predicate Blank(cfg: Config, m: Machine) {
    m.node == Interpret && cfg.graph.Known(m.state.current) && cfg.graph.Screen(m.state.current).value.elements == []
  }

  ghost predicate SawBlank(cfg: Config, start: ScreenId, draws: nat -> Draw, k: nat) {
    exists j: nat :: j < k && Blank(cfg, Run(cfg, start, draws, j))
  }

  ghost predicate CalmInv(cfg: Config, m: Machine) {
    && 0.0 <= m.state.uncertainty <= 0.6
    && m.state.reason != Some(LowPatienceHighUncertainty)
  }

  ghost predicate LookedInv(cfg: Config, m: Machine) {
    && 0.0 <= m.state.uncertainty <= 1.0
    && (m.node == Interpret ==> cfg.graph.Known(m.state.current) && m.state.attention.Some?
                                && |m.state.attention.value| == |cfg.graph.Screen(m.state.current).value.elements|)
  }

  lemma UncertaintyChange(cfg: Config, m: Machine, d: Draw)
    ensures Step(cfg, m, d).state.uncertainty ==
            if m.node == Interpret then UncertaintyAfter(m.state.attention, m.state.uncertainty) else m.state.uncertainty
  {
    hide Pick, ProgressOf, UncertaintyAfter, AbandonPressure, IntendedElement, SelectActionNode, Stuck;
  }

  lemma ReasonChange(cfg: Config, m: Machine, d: Draw)
    requires Step(cfg, m, d).state.reason == Some(LowPatienceHighUncertainty)
    ensures m.state.reason == Some(LowPatienceHighUncertainty)
            || AbandonPressure(m.state.uncertainty, cfg.patience, m.state.deadEnds) > 0.75
  {
    hide Pick, ProgressOf, UncertaintyAfter, AbandonPressure, IntendedElement, SelectActionNode, Stuck;
  }

  lemma StepKeepsLooked(cfg: Config, m: Machine, d: Draw)
    requires LookedInv(cfg, m)
    ensures LookedInv(cfg, Step(cfg, m, d))
  {
    UncertaintyChange(cfg, m, d);
    LooksSettle(m.state.attention, m.state.uncertainty);
    hide Pick, ProgressOf, UncertaintyAfter, AbandonPressure, IntendedElement, SelectActionNode, Stuck, ExecuteNode;
  }

  lemma StepKeepsCalm(cfg: Config, m: Machine, d: Draw)
    requires cfg.patience >= 0.0 && CalmInv(cfg, m) && LookedInv(cfg, m) && !Blank(cfg, m)
    ensures CalmInv(cfg, Step(cfg, m, d))
  {
    UncertaintyChange(cfg, m, d);
    LooksSettle(m.state.attention, m.state.uncertainty);
    PressureBelow(m.state.uncertainty, cfg.patience, m.state.deadEnds);
    if Step(cfg, m, d).state.reason == Some(LowPatienceHighUncertainty) { ReasonChange(cfg, m, d); }
    hide Step, UncertaintyAfter, AbandonPressure;
  }

  lemma {:induction false} LookedAlways(cfg: Config, start: ScreenId, draws: nat -> Draw, k: nat)
    ensures LookedInv(cfg, Run(cfg, start, draws, k))
  {
    hide Step;
    if k > 0 {
      LookedAlways(cfg, start, draws, k - 1);
      StepKeepsLooked(cfg, Run(cfg, start, draws, k - 1), draws(k - 1));
    }
  }

  // Until a screen without elements is interpreted, uncertainty is at most 0.6
  // and no run has ended for lack of patience.
  lemma {:induction false} CalmUntilBlank(cfg: Config, start: ScreenId, draws: nat -> Draw, k: nat)
    requires cfg.patience >= 0.0 && !SawBlank(cfg, start, draws, k)
    ensures CalmInv(cfg, Run(cfg, start, draws, k))
  {
    hide Step;
    if k > 0 {
      CalmUntilBlank(cfg, start, draws, k - 1);
      LookedAlways(cfg, start, draws, k - 1);
      StepKeepsCalm(cfg, Run(cfg, start, draws, k - 1), draws(k - 1));
    }
  }

  // If every screen has an element, uncertainty never exceeds 0.6 and the
  // "low patience, high uncertainty" outcome cannot occur, for any patience
  // that is not negative.
  lemma NobodyLosesPatience(cfg: Config, start: ScreenId, draws: nat -> Draw, k: nat)
    requires cfg.patience >= 0.0 && cfg.graph.HasElements()
    ensures Run(cfg, start, draws, k).state.uncertainty <= 0.6
    ensures Run(cfg, start, draws, k).state.reason != Some(LowPatienceHighUncertainty)
  {
    hide Run;
    CalmUntilBlank(cfg, start, draws, k);
  }
}
