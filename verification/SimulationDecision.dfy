/** When a run goes on and when it ends, in the numbers of the state; how
    uncertainty moves; and a run that loses patience. */
module SimulationDecision {
  import opened Domain
  import opened Sampling
  import opened SimulationGraph
  import opened SimulationPatience

  // ---- the decision after every action ----

  ghost predicate HasSomething(g: ScreenGraph, s: State) {
    g.Known(s.current)
    && (s.history != [] || exists e :: e in g.Screen(s.current).value.elements && e.interactable)
  }

  // Past the fifth step, uncertainty weighed with impatience, plus a tenth for
  // four dead ends or more and in proportion for fewer, exceeds 0.75.
  ghost predicate PatienceLost(s: State, patience: real) {
    s.step > 5
    && s.uncertainty * (1.0 - patience) + (if s.deadEnds >= 4 then 0.1 else 0.1 * (s.deadEnds as real / 4.0)) > 0.75
  }

  lemma DeadEndShare(deadEnds: nat)
    ensures 0.1 * Min(1.0, deadEnds as real / 4.0) == if deadEnds >= 4 then 0.1 else 0.1 * (deadEnds as real / 4.0)
  {
    var d := deadEnds as real;
    assert deadEnds >= 4 <==> d >= 4.0;
    assert d / 4.0 <= 1.0 <==> d <= 4.0;
  }

  lemma PressureIs(s: State, patience: real)
    ensures s.step > 5 && AbandonPressure(s.uncertainty, patience, s.deadEnds) > 0.75 <==> PatienceLost(s, patience)
  {
    DeadEndShare(s.deadEnds);
    hide Min;
  }

  lemma StuckIs(g: ScreenGraph, s: State)
    requires g.Known(s.current)
    ensures Stuck(s, g.Screen(s.current).value) <==> !HasSomething(g, s)
  {}

  // A run whose task has just been evaluated goes on exactly when the task is not
  // done, steps are left, there is something to act on or a screen to go back to,
  // and patience is not lost; otherwise it ends for the first of these that fails.
  lemma DecisionIs(cfg: Config, start: ScreenId, draws: nat -> Draw, k: nat)
    requires Run(cfg, start, draws, k).node == CheckTask && cfg.graph.Known(Run(cfg, start, draws, k).state.current)
    ensures var s, m := Run(cfg, start, draws, k).state, Run(cfg, start, draws, k + 1);
            var lost := PatienceLost(s, cfg.patience);
            && (m.node == Perceive <==>
                  s.progress < 1.0 && s.step < cfg.maxSteps && HasSomething(cfg.graph, s) && !lost)
            && (m.node == Perceive || m.node == End)
            && (m.state.outcome == Completed <==> s.progress >= 1.0)
            && (m.state.reason == Some(MaxStepsExceeded) <==> s.progress < 1.0 && s.step >= cfg.maxSteps)
            && (m.state.reason == Some(DeadEndNoActions) <==>
                  s.progress < 1.0 && s.step < cfg.maxSteps && !HasSomething(cfg.graph, s))
            && (m.state.reason == Some(LowPatienceHighUncertainty) <==>
                  s.progress < 1.0 && s.step < cfg.maxSteps && HasSomething(cfg.graph, s) && lost)
  {
    hide *;
    var m := Run(cfg, start, draws, k);
    OneVisit(cfg, start, draws, k);
    CheckIs(cfg, m, draws(k));
  }

  lemma OneVisit(cfg: Config, start: ScreenId, draws: nat -> Draw, k: nat)
    ensures Run(cfg, start, draws, k + 1) == Step(cfg, Run(cfg, start, draws, k), draws(k))
  {
    hide Step;
  }

  lemma CheckIs(cfg: Config, m: Machine, d: Draw)
    requires m.node == CheckTask && cfg.graph.Known(m.state.current)
    ensures var s, t := m.state, Step(cfg, m, d);
            var lost := PatienceLost(s, cfg.patience);
            && (t.node == Perceive <==>
                  s.progress < 1.0 && s.step < cfg.maxSteps && HasSomething(cfg.graph, s) && !lost)
            && (t.node == Perceive || t.node == End)
            && (t.state.outcome == Completed <==> s.progress >= 1.0)
            && (t.state.reason == Some(MaxStepsExceeded) <==> s.progress < 1.0 && s.step >= cfg.maxSteps)
            && (t.state.reason == Some(DeadEndNoActions) <==>
                  s.progress < 1.0 && s.step < cfg.maxSteps && !HasSomething(cfg.graph, s))
            && (t.state.reason == Some(LowPatienceHighUncertainty) <==>
                  s.progress < 1.0 && s.step < cfg.maxSteps && HasSomething(cfg.graph, s) && lost)
  {
    PressureIs(m.state, cfg.patience);
    StuckIs(cfg.graph, m.state);
    hide AbandonPressure, PatienceLost, Stuck, HasSomething;
  }

  // How each decision is recorded: going on leaves no event; each ending leaves one,
  // with its reason, on no screen.
  ghost predicate Recorded(s: State, m: Machine) {
    var t := m.state;
    && t == s.(events := t.events, sequenceNo := t.sequenceNo, outcome := t.outcome, reason := t.reason)
    && (m.node == Perceive ==> t.events == s.events && t.outcome == InProgress && t.reason == None)
    && (m.node == End ==>
          && t.events == s.events + [Event(s.sequenceNo,
                                           if t.outcome == Completed then TaskSuccess
                                           else if t.outcome == Failed then TaskFailure else Abandon,
                                           None, None, None,
                                           if t.reason == None then Progress(1.0) else Because(t.reason.value))]
          && (t.outcome == Completed <==> t.reason == None)
          && (t.outcome == Failed <==> t.reason == Some(DeadEndNoActions))
          && (t.outcome == Abandoned <==> t.reason in {Some(MaxStepsExceeded), Some(LowPatienceHighUncertainty)}))
  }

  lemma DecisionIsRecorded(cfg: Config, start: ScreenId, draws: nat -> Draw, k: nat)
    requires Run(cfg, start, draws, k).node == CheckTask && cfg.graph.Known(Run(cfg, start, draws, k).state.current)
    ensures Recorded(Run(cfg, start, draws, k).state, Run(cfg, start, draws, k + 1))
  {
    hide Run, AbandonPressure, Stuck;
    OneVisit(cfg, start, draws, k);
  }

  // ---- uncertainty ----

  lemma {:induction false} TotalIs(xs: seq<real>, x: real)
    ensures Total([]) == 0.0 && Total([x] + xs) == x + Total(xs)
  {
    if xs == [] {
      assert [x] + xs == [x];
    } else {
      var init := xs[..|xs| - 1];
      TotalIs(init, x);
      assert ([x] + xs)[..|xs|] == [x] + init;
    }
  }

  // Uncertainty is 0.6 less what the best score stands out from the mean, kept in
  // [0, 1]; where nothing was scored it grows by a tenth, up to 1.
  ghost predicate UncertaintyIs(attention: Option<seq<real>>, before: real, after: real) {
    if attention == None || attention == Some([]) then after == if before <= 0.9 then before + 0.1 else 1.0
    else
      forall m: real, mean: real ::
        Best(attention.value, m) && Centre(attention.value, mean) ==>
          after == if m - mean <= -0.4 then 1.0 else if m - mean >= 0.6 then 0.0 else 0.6 - (m - mean)
  }

  ghost predicate Centre(xs: seq<real>, mean: real) {
    Copies(|xs|, mean) == Total(xs)
  }

  lemma CentreIsMean(xs: seq<real>, mean: real)
    requires xs != [] && Centre(xs, mean)
    ensures Mean(xs) == mean
  {
    hide Total;
    var n := |xs| as real;
    assert n * mean == Total(xs);
    assert Mean(xs) * n == Total(xs);
    assert (Mean(xs) - mean) * n == 0.0;
  }

  lemma BestIsMax(xs: seq<real>, m: real)
    requires xs != [] && Best(xs, m)
    ensures Max(xs) == m
  {}

  lemma InterpretedIs(attention: Option<seq<real>>, before: real)
    ensures UncertaintyIs(attention, before, UncertaintyAfter(attention, before))
  {
    hide Best, Centre, Max, Mean;
    if attention != None && attention != Some([]) {
      forall m: real, mean: real | Best(attention.value, m) && Centre(attention.value, mean)
        ensures Max(attention.value) == m && Mean(attention.value) == mean
      {
        BestIsMax(attention.value, m);
        CentreIsMean(attention.value, mean);
      }
    }
  }

  // Interpreting sets uncertainty so, and nothing else ever changes it.
  lemma UncertaintyMoves(cfg: Config, start: ScreenId, draws: nat -> Draw, k: nat)
    ensures Run(cfg, start, draws, 0).state.uncertainty == 0.3
    ensures var m, t := Run(cfg, start, draws, k), Run(cfg, start, draws, k + 1).state;
            if m.node == Interpret then UncertaintyIs(m.state.attention, m.state.uncertainty, t.uncertainty)
            else t.uncertainty == m.state.uncertainty
  {
    hide Step, UncertaintyIs, UncertaintyAfter;
    var m := Run(cfg, start, draws, k);
    OneVisit(cfg, start, draws, k);
    UncertaintyChange(cfg, m, draws(k));
    InterpretedIs(m.state.attention, m.state.uncertainty);
  }
}
