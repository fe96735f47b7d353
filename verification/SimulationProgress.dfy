/** When a run counts as completed, and how task progress moves. */
module SimulationProgress {
  import opened Basics
  import opened Domain
  import opened Sampling
  import opened SimulationGraph
  import opened SimulationLog

  // The task's finish line, as the state stands.
  ghost predicate FinishLine(cfg: Config, s: State) {
    if cfg.task.success.Recognized() then SuccessMet(cfg.graph, cfg.task.success, s.current, s.actionHistory)
    else cfg.task.critical != {} && Matched(cfg.graph, cfg.task.critical, s.actionHistory) == cfg.task.critical
  }

  lemma QuotientOrder(a: real, b: real, w: real)
    requires w > 0.0 && a <= b
    ensures Quotient(a, w) <= Quotient(b, w) && (a < b ==> Quotient(a, w) < Quotient(b, w))
  {
    assert b / w - a / w == (b - a) / w;
  }

  lemma QuotientEnds(w: real)
    requires w > 0.0
    ensures Quotient(0.0, w) == 0.0 && Quotient(w, w) == 1.0
  {}

  lemma RatioLaws(a: nat, b: nat, whole: nat)
    requires a <= b <= whole && whole > 0
    ensures 0.0 <= Ratio(a, whole) <= Ratio(b, whole) <= 1.0
    ensures Ratio(a, whole) == 1.0 <==> a == whole
  {
    hide Quotient;
    var w := whole as real;
    QuotientEnds(w);
    QuotientOrder(0.0, a as real, w);
    QuotientOrder(a as real, b as real, w);
    QuotientOrder(b as real, w, w);
    QuotientOrder(a as real, w, w);
  }

  lemma MilestonesBounds(cfg: Config, h: seq<Entry>)
    requires cfg.task.critical != {}
    ensures 0.0 <= Milestones(cfg, h) <= 1.0
    ensures cfg.task.success.Recognized() ==> Milestones(cfg, h) <= 0.99
    ensures !cfg.task.success.Recognized() ==>
              (Milestones(cfg, h) >= 1.0 <==> Matched(cfg.graph, cfg.task.critical, h) == cfg.task.critical)
  {
    var m := Matched(cfg.graph, cfg.task.critical, h);
    SubsetSize(m, cfg.task.critical);
    hide Ratio;
    RatioLaws(|m|, |cfg.task.critical|, |cfg.task.critical|);
  }

  lemma MilestonesGrow(cfg: Config, h: seq<Entry>, e: Entry)
    requires cfg.task.critical != {}
    ensures Milestones(cfg, h) <= Milestones(cfg, h + [e])
  {
    var c := cfg.task.critical;
    var a, b := Matched(cfg.graph, c, h), Matched(cfg.graph, c, h + [e]);
    forall x | x in a
      ensures x in b
    {
      var i :| 0 <= i < |h| && x in NamesHit(cfg.graph, h[i]);
      assert (h + [e])[i] == h[i];
    }
    SubsetSize(a, b);
    SubsetSize(b, c);
    hide Ratio;
    RatioLaws(|a|, |b|, |c|);
  }

  // Progress stays in [0, 1] and reaches 1 exactly at the finish line.
  lemma ProgressBounds(cfg: Config, s: State)
    ensures 0.0 <= ProgressOf(cfg, s) <= 1.0
    ensures ProgressOf(cfg, s) >= 1.0 <==> FinishLine(cfg, s)
  {
    NoConditionNotMet(cfg, s);
    hide SuccessMet;
    if cfg.task.critical != {} {
      hide Milestones, Matched;
      MilestonesBounds(cfg, s.actionHistory);
    }
  }

  lemma NoConditionNotMet(cfg: Config, s: State)
    ensures SuccessMet(cfg.graph, cfg.task.success, s.current, s.actionHistory) ==> cfg.task.success.Recognized()
  {}

  // Progress recorded in the state is that of the last update, and 0 before the first.
  ghost predicate ProgressInv(cfg: Config, m: Machine) {
    var s := m.state;
    && (m.node != UpdateState ==> s.progress == if s.step == 0 then 0.0 else ProgressOf(cfg, s))
    && (m.node == UpdateState || m.node == CheckTask ==> s.step > 0)
    && (m.node != CheckTask && m.node != End ==> s.progress < 1.0)
    && (m.node != End ==> s.outcome == InProgress)
    && (m.node == End ==> (s.outcome == Completed <==> s.progress >= 1.0))
    && 0.0 <= s.progress <= 1.0
    && (cfg.task.critical != {} && s.progress < 1.0 ==> s.progress <= Milestones(cfg, s.actionHistory))
  }

  lemma StepKeepsProgress(cfg: Config, m: Machine, d: Draw)
    requires ProgressInv(cfg, m)
    ensures ProgressInv(cfg, Step(cfg, m, d))
    ensures cfg.task.critical != {} ==> m.state.progress <= Step(cfg, m, d).state.progress
  {
    hide Pick, ProgressOf, UncertaintyAfter, AbandonPressure, IntendedElement, SelectActionNode, Stuck, ExecuteNode, Milestones;
    if m.node == ExecuteAction {
      if Step(cfg, m, d).node != Raised { ExecuteKeepsProgress(cfg, m.state, m.state.action.value); }
    } else if m.node == Orient {
      SameProgress(cfg, m.state, Step(cfg, m, d).state);
    } else {
      StepShape(cfg, m, d);
      SameProgress(cfg, m.state, Step(cfg, m, d).state);
      ProgressBounds(cfg, m.state);
      UpdateAwards(cfg, m.state);
    }
  }

  lemma SameProgress(cfg: Config, s: State, t: State)
    requires t.current == s.current && t.history == s.history && t.actionHistory == s.actionHistory
    ensures ProgressOf(cfg, s) == ProgressOf(cfg, t)
  {}

  lemma UpdateAwards(cfg: Config, s: State)
    ensures cfg.task.critical != {} ==>
              ProgressOf(cfg, s) == 1.0 || ProgressOf(cfg, s) == Milestones(cfg, s.actionHistory)
  {}

  lemma ExecuteKeepsProgress(cfg: Config, s: State, a: Action)
    ensures ExecuteNode(cfg.graph, s, a).progress == s.progress
    ensures ExecuteNode(cfg.graph, s, a).step == s.step + 1 && ExecuteNode(cfg.graph, s, a).outcome == s.outcome
    ensures cfg.task.critical != {} ==>
              Milestones(cfg, s.actionHistory) <= Milestones(cfg, ExecuteNode(cfg.graph, s, a).actionHistory)
  {
    hide Milestones;
    if cfg.task.critical != {} { MilestonesGrow(cfg, s.actionHistory, Entry(a.action, a.target, s.step)); }
  }

  lemma {:induction false} ProgressAlways(cfg: Config, start: ScreenId, draws: nat -> Draw, k: nat)
    ensures ProgressInv(cfg, Run(cfg, start, draws, k))
  {
    hide Step;
    if k > 0 {
      ProgressAlways(cfg, start, draws, k - 1);
      StepKeepsProgress(cfg, Run(cfg, start, draws, k - 1), draws(k - 1));
    }
  }

  // A run that acted at least once is COMPLETED exactly when its final state
  // meets the finish line; a run that never acted is never COMPLETED.
  lemma CompletedIffFinishLine(cfg: Config, start: ScreenId, draws: nat -> Draw, k: nat)
    requires Run(cfg, start, draws, k).node == End
    ensures var s := Run(cfg, start, draws, k).state;
            s.outcome == Completed <==> s.step > 0 && FinishLine(cfg, s)
  {
    ProgressAlways(cfg, start, draws, k);
    ProgressBounds(cfg, Run(cfg, start, draws, k).state);
  }

  // A task without a finish line cannot be completed by anyone.
  lemma NoFinishLineNoCompletion(cfg: Config, start: ScreenId, draws: nat -> Draw, k: nat)
    requires !cfg.task.HasFinishLine()
    ensures Run(cfg, start, draws, k).state.outcome != Completed
    ensures Run(cfg, start, draws, k).state.progress <= 0.9
  {
    ProgressAlways(cfg, start, draws, k);
    Unfinishable(cfg, Run(cfg, start, draws, k).state);
    hide Step, ProgressOf;
    UpdatePending(cfg, start, draws, k);
  }

  lemma Unfinishable(cfg: Config, s: State)
    requires !cfg.task.HasFinishLine()
    ensures ProgressOf(cfg, s) <= 0.9
  {
    NoConditionNotMet(cfg, s);
    hide SuccessMet;
  }

  lemma {:induction false} UpdatePending(cfg: Config, start: ScreenId, draws: nat -> Draw, k: nat)
    requires !cfg.task.HasFinishLine()
    ensures Run(cfg, start, draws, k).state.progress <= 0.9
  {
    hide Step, ProgressOf;
    if k > 0 {
      var m := Run(cfg, start, draws, k - 1);
      UpdatePending(cfg, start, draws, k - 1);
      Unfinishable(cfg, m.state);
      ProgressChange(cfg, m, draws(k - 1));
    }
  }

  lemma ProgressChange(cfg: Config, m: Machine, d: Draw)
    ensures Step(cfg, m, d).state.progress == if m.node == UpdateState then ProgressOf(cfg, m.state) else m.state.progress
  {
    hide Pick, ProgressOf, UncertaintyAfter, AbandonPressure, IntendedElement, SelectActionNode, Stuck;
  }

  // With critical actions, progress never falls over a run.
  lemma {:induction false} ProgressNeverFalls(cfg: Config, start: ScreenId, draws: nat -> Draw, i: nat, k: nat)
    requires cfg.task.critical != {} && i <= k
    ensures 0.0 <= Run(cfg, start, draws, i).state.progress <= Run(cfg, start, draws, k).state.progress <= 1.0
  {
    hide Step, ProgressOf, Milestones;
    ProgressAlways(cfg, start, draws, k);
    if i < k {
      ProgressNeverFalls(cfg, start, draws, i, k - 1);
      ProgressAlways(cfg, start, draws, k - 1);
      StepKeepsProgress(cfg, Run(cfg, start, draws, k - 1), draws(k - 1));
    }
  }
}
