/** A run that loses patience: one click leads to a screen without elements, where
    every further step raises uncertainty by a tenth. */
module SimulationImpatience {
  import opened Domain
  import opened Sampling
  import opened SimulationGraph
  import opened SimulationDecision

  // Screen 0 has one button, which leads to screen 1; screen 1 is blank.
  function Only(): ElementView {
    ElementView(0, "next", "button", None, true)
  }

  function Blanks(): ScreenGraph {
    ScreenGraph([ScreenView(0, "start", [Only()]), ScreenView(1, "blank", [])], [Transition(0, 0, "click", 1)])
  }

  function Wandering(exp: Exp, model: ParticipantModel, patience: real, steps: nat): Config {
    Config(Blanks(), Task(None, SuccessConditions(Absent, Absent, Absent), {}), patience, model, exp, steps, 10)
  }

  // A draw of 0, which belongs to the first candidate, whatever the scores.
  predicate Lowest(d: Draw) {
    d.roll == 0.0
  }

  lemma LowestPicksFirst(exp: Exp, scores: seq<real>)
    requires scores != []
    ensures Pick(exp, scores, 0.0) == 0
  {
    assert Cumulative(exp, scores, 1) == Cumulative(exp, scores, 0) + Probability(exp, scores, 0);
  }

  lemma BlanksAre()
    ensures Blanks().Screen(0) == Some(ScreenView(0, "start", [Only()]))
    ensures Blanks().Screen(1) == Some(ScreenView(1, "blank", []))
    ensures Lookup(Blanks().transitions, 0, 0) == Some(Transition(0, 0, "click", 1))
  {
    assert Blanks().screens[1..][0] == ScreenView(1, "blank", []);
  }

  // ---- the first step ----

  ghost predicate AtStart(m: Machine, node: Node, uncertainty: real) {
    var s := m.state;
    && m.node == node && s.current == 0 && s.history == [] && s.step == 0 && s.deadEnds == 0 && s.progress == 0.0
    && s.outcome == InProgress && s.reason == None && s.uncertainty == uncertainty
  }

  lemma StartPerceive(cfg: Config, m: Machine, d: Draw)
    requires cfg.graph == Blanks() && AtStart(m, Perceive, 0.3)
    ensures AtStart(Step(cfg, m, d), Attend, 0.3)
  {
    BlanksAre();
    hide Blanks;
  }

  lemma NoneIntended(elements: seq<ElementView>)
    ensures IntendedElement(elements, {}) == None
  {
    if IntendedElement(elements, {}).Some? {
      CriticalIs(IntendedElement(elements, {}).value, {});
    }
    hide IntendedElement, ElementView.Critical;
  }

  lemma StartAttend(cfg: Config, m: Machine, d: Draw)
    requires cfg.graph == Blanks() && cfg.task.critical == {} && AtStart(m, Attend, 0.3)
    ensures AtStart(Step(cfg, m, d), Interpret, 0.3)
    ensures var seen := Step(cfg, m, d).state.attention;
            seen.Some? && |seen.value| == 1
  {
    BlanksAre();
    NoneIntended([Only()]);
    hide Blanks, IntendedElement, Pick;
  }

  lemma OneScore(x: real)
    ensures Max([x]) == x && Mean([x]) == x
  {
    assert Total([x]) == x by { assert [x][..0] == []; }
    hide Total;
    assert |[x]| as real == 1.0;
  }

  lemma StartInterpret(cfg: Config, m: Machine, d: Draw)
    requires AtStart(m, Interpret, 0.3) && m.state.attention.Some? && |m.state.attention.value| == 1
    ensures AtStart(Step(cfg, m, d), SelectAction, 0.6)
  {
    var seen := m.state.attention.value;
    OneScore(seen[0]);
    assert seen == [seen[0]];
    hide Max, Mean;
  }

  lemma StartSelect(cfg: Config, m: Machine, d: Draw)
    requires cfg.graph == Blanks() && AtStart(m, SelectAction, 0.6) && Lowest(d)
    ensures AtStart(Step(cfg, m, d), ExecuteAction, 0.6)
    ensures Step(cfg, m, d).state.action == Some(Action(Click, Some(0)))
  {
    BlanksAre();
    var screen := ScreenView(0, "start", [Only()]);
    var candidates := ActionCandidates(cfg, m.state, screen);
    assert ElementActions([Only()]) == [Action(Click, Some(0))];
    assert candidates[0] == Action(Click, Some(0));
    LowestPicksFirst(cfg.exp, d.Scores(|candidates|));
    hide Blanks, Pick, ActionCandidates;
  }

  // On the blank screen after j steps.
  ghost predicate OnBlank(m: Machine, node: Node, j: nat, uncertainty: real) {
    var s := m.state;
    && m.node == node && s.current == 1 && s.history == [0] && s.step == j && s.deadEnds == 0 && s.progress < 1.0
    && s.outcome == InProgress && s.reason == None && s.uncertainty == uncertainty
  }

  lemma StartExecute(cfg: Config, m: Machine, d: Draw)
    requires cfg.graph == Blanks() && AtStart(m, ExecuteAction, 0.6) && m.state.action == Some(Action(Click, Some(0)))
    ensures OnBlank(Step(cfg, m, d), UpdateState, 1, 0.6)
  {
    BlanksAre();
    hide Blanks, Lookup;
  }

  // ---- a step on the blank screen ----

  lemma BlankUpdate(cfg: Config, m: Machine, d: Draw, j: nat, u: real)
    requires cfg.task == Task(None, SuccessConditions(Absent, Absent, Absent), {}) && OnBlank(m, UpdateState, j, u)
    ensures OnBlank(Step(cfg, m, d), CheckTask, j, u)
  {
    assert ProgressOf(cfg, m.state) <= 0.9;
    hide ProgressOf;
  }

  lemma BlankPerceive(cfg: Config, m: Machine, d: Draw, j: nat, u: real)
    requires cfg.graph == Blanks() && OnBlank(m, Perceive, j, u)
    ensures OnBlank(Step(cfg, m, d), Attend, j, u)
  {
    BlanksAre();
    hide Blanks;
  }

  lemma BlankAttend(cfg: Config, m: Machine, d: Draw, j: nat, u: real)
    requires cfg.graph == Blanks() && cfg.task.critical == {} && OnBlank(m, Attend, j, u)
    ensures OnBlank(Step(cfg, m, d), Interpret, j, u) && Step(cfg, m, d).state.attention == Some([])
  {
    BlanksAre();
    NoneIntended([]);
    assert d.Scores(0) == [];
    hide Blanks, IntendedElement, Pick;
  }

  lemma BlankInterpret(cfg: Config, m: Machine, d: Draw, j: nat, u: real)
    requires OnBlank(m, Interpret, j, u) && m.state.attention == Some([])
    ensures OnBlank(Step(cfg, m, d), SelectAction, j, if u <= 0.9 then u + 0.1 else 1.0)
  {}

  lemma BlankSelect(cfg: Config, m: Machine, d: Draw, j: nat, u: real)
    requires cfg.graph == Blanks() && OnBlank(m, SelectAction, j, u) && Lowest(d)
    ensures OnBlank(Step(cfg, m, d), ExecuteAction, j, u) && Step(cfg, m, d).state.action == Some(Action(Scroll, None))
  {
    BlanksAre();
    var candidates := ActionCandidates(cfg, m.state, ScreenView(1, "blank", []));
    assert ElementActions([]) == [];
    assert candidates[0] == Action(Scroll, None);
    LowestPicksFirst(cfg.exp, d.Scores(|candidates|));
    hide Blanks, Pick, ActionCandidates;
  }

  lemma BlankExecute(cfg: Config, m: Machine, d: Draw, j: nat, u: real)
    requires cfg.graph == Blanks() && OnBlank(m, ExecuteAction, j, u) && m.state.action == Some(Action(Scroll, None))
    ensures OnBlank(Step(cfg, m, d), UpdateState, j + 1, u)
  {
    BlanksAre();
    hide Blanks;
  }

  // ---- whole steps ----

  ghost predicate Lows(draws: nat -> Draw) {
    forall i :: Lowest(draws(i))
  }

  lemma SixVisits(cfg: Config, draws: nat -> Draw, k: nat)
    ensures Run(cfg, 0, draws, k + 1) == Step(cfg, Run(cfg, 0, draws, k), draws(k))
    ensures Run(cfg, 0, draws, k + 2) == Step(cfg, Run(cfg, 0, draws, k + 1), draws(k + 1))
    ensures Run(cfg, 0, draws, k + 3) == Step(cfg, Run(cfg, 0, draws, k + 2), draws(k + 2))
    ensures Run(cfg, 0, draws, k + 4) == Step(cfg, Run(cfg, 0, draws, k + 3), draws(k + 3))
    ensures Run(cfg, 0, draws, k + 5) == Step(cfg, Run(cfg, 0, draws, k + 4), draws(k + 4))
    ensures Run(cfg, 0, draws, k + 6) == Step(cfg, Run(cfg, 0, draws, k + 5), draws(k + 5))
  {
    hide Run, Step;
    OneVisit(cfg, 0, draws, k);
    OneVisit(cfg, 0, draws, k + 1);
    OneVisit(cfg, 0, draws, k + 2);
    OneVisit(cfg, 0, draws, k + 3);
    OneVisit(cfg, 0, draws, k + 4);
    OneVisit(cfg, 0, draws, k + 5);
  }

  lemma FirstClick(exp: Exp, model: ParticipantModel, patience: real, steps: nat, draws: nat -> Draw)
    requires Lows(draws)
    ensures OnBlank(Run(Wandering(exp, model, patience, steps), 0, draws, 7), CheckTask, 1, 0.6)
  {
    var cfg := Wandering(exp, model, patience, steps);
    assert Run(cfg, 0, draws, 1) == Machine(Perceive, OrientNode(InitialState(0))) by {
      assert Run(cfg, 0, draws, 0) == Initial(0);
    }
    assert AtStart(Run(cfg, 0, draws, 1), Perceive, 0.3);
    assert Lowest(draws(4));
    hide Step, Run, Lows, Lowest, OnBlank, AtStart, OrientNode, InitialState;
    SixVisits(cfg, draws, 1);
    StartPerceive(cfg, Run(cfg, 0, draws, 1), draws(1));
    StartAttend(cfg, Run(cfg, 0, draws, 2), draws(2));
    StartInterpret(cfg, Run(cfg, 0, draws, 3), draws(3));
    StartSelect(cfg, Run(cfg, 0, draws, 4), draws(4));
    StartExecute(cfg, Run(cfg, 0, draws, 5), draws(5));
    BlankUpdate(cfg, Run(cfg, 0, draws, 6), draws(6), 1, 0.6);
  }

  lemma NextScroll(exp: Exp, model: ParticipantModel, patience: real, steps: nat, draws: nat -> Draw, k: nat, j: nat, u: real)
    requires Lows(draws) && OnBlank(Run(Wandering(exp, model, patience, steps), 0, draws, k), Perceive, j, u)
    ensures OnBlank(Run(Wandering(exp, model, patience, steps), 0, draws, k + 6), CheckTask, j + 1, if u <= 0.9 then u + 0.1 else 1.0)
  {
    var cfg := Wandering(exp, model, patience, steps);
    assert Lowest(draws(k + 3));
    hide Step, Run, Lows, Lowest, OnBlank;
    var v := if u <= 0.9 then u + 0.1 else 1.0;
    SixVisits(cfg, draws, k);
    BlankPerceive(cfg, Run(cfg, 0, draws, k), draws(k), j, u);
    BlankAttend(cfg, Run(cfg, 0, draws, k + 1), draws(k + 1), j, u);
    BlankInterpret(cfg, Run(cfg, 0, draws, k + 2), draws(k + 2), j, u);
    BlankSelect(cfg, Run(cfg, 0, draws, k + 3), draws(k + 3), j, v);
    BlankExecute(cfg, Run(cfg, 0, draws, k + 4), draws(k + 4), j, v);
    BlankUpdate(cfg, Run(cfg, 0, draws, k + 5), draws(k + 5), j + 1, v);
  }

  // 0.6, 0.7, 0.8, 0.9, and 1 from the fifth step on.
  function Worn(j: nat): real {
    if j >= 5 then 1.0 else 0.5 + 0.1 * j as real
  }

  lemma WornNext(j: nat)
    requires j > 1
    ensures Worn(1) == 0.6 && Worn(j) == if Worn(j - 1) <= 0.9 then Worn(j - 1) + 0.1 else 1.0
  {}

  // The decision after step j.
  lemma BlankDecision(cfg: Config, draws: nat -> Draw, k: nat, j: nat)
    requires cfg.graph == Blanks() && j >= 1 && OnBlank(Run(cfg, 0, draws, k), CheckTask, j, Worn(j))
    ensures var m := Run(cfg, 0, draws, k + 1);
            if j >= cfg.maxSteps then m.node == End && m.state.outcome == Abandoned && m.state.reason == Some(MaxStepsExceeded) && m.state.step == j
            else if j > 5 && cfg.patience < 0.25 then
              m.node == End && m.state.outcome == Abandoned && m.state.reason == Some(LowPatienceHighUncertainty)
              && m.state.step == j && m.state.uncertainty == 1.0
            else OnBlank(m, Perceive, j, Worn(j))
  {
    BlanksAre();
    hide Blanks, Run;
    OneVisit(cfg, 0, draws, k);
    var s := Run(cfg, 0, draws, k).state;
    assert j > 5 ==> (AbandonPressure(s.uncertainty, cfg.patience, s.deadEnds) > 0.75 <==> cfg.patience < 0.25);
    hide AbandonPressure, Worn;
  }

  // While patience lasts and steps are left, one more step on the blank screen.
  lemma OneMoreStep(exp: Exp, model: ParticipantModel, patience: real, steps: nat, draws: nat -> Draw, k: nat, j: nat)
    requires Lows(draws) && 1 <= j < steps && (j > 5 ==> patience >= 0.25)
    requires OnBlank(Run(Wandering(exp, model, patience, steps), 0, draws, k), CheckTask, j, Worn(j))
    ensures OnBlank(Run(Wandering(exp, model, patience, steps), 0, draws, k + 7), CheckTask, j + 1, Worn(j + 1))
  {
    hide Run, OnBlank, Worn, Lows;
    BlankDecision(Wandering(exp, model, patience, steps), draws, k, j);
    NextScroll(exp, model, patience, steps, draws, k + 1, j, Worn(j));
    WornNext(j + 1);
  }

  // After j steps of scrolling in vain, uncertainty has worn up to Worn(j).
  lemma {:induction false} WearsDown(exp: Exp, model: ParticipantModel, patience: real, steps: nat, draws: nat -> Draw, j: nat)
    requires Lows(draws) && 1 <= j <= steps && (patience < 0.25 ==> j <= 6)
    ensures OnBlank(Run(Wandering(exp, model, patience, steps), 0, draws, 7 * j), CheckTask, j, Worn(j))
  {
    hide *;
    if j == 1 {
      FirstClick(exp, model, patience, steps, draws);
      WornNext(2);
    } else {
      WearsDown(exp, model, patience, steps, draws, j - 1);
      OneMoreStep(exp, model, patience, steps, draws, 7 * (j - 1), j - 1);
      assert 7 * (j - 1) + 7 == 7 * j;
    }
  }

  // Whatever model scores the candidates, with more than six steps allowed this
  // run is abandoned for lack of patience at step 6 when patience is below 0.25,
  // and otherwise scrolls on until the steps run out.
  lemma LosesPatienceIff(exp: Exp, model: ParticipantModel, patience: real, steps: nat, draws: nat -> Draw)
    requires Lows(draws) && steps > 6
    ensures var cfg := Wandering(exp, model, patience, steps);
            var m := Run(cfg, 0, draws, if patience < 0.25 then 43 else 7 * steps + 1);
            && m.node == End && m.state.outcome == Abandoned
            && (if patience < 0.25
                then m.state.reason == Some(LowPatienceHighUncertainty) && m.state.step == 6 && m.state.uncertainty == 1.0
                else m.state.reason == Some(MaxStepsExceeded) && m.state.step == steps)
  {
    var cfg := Wandering(exp, model, patience, steps);
    var j := if patience < 0.25 then 6 else steps;
    hide Run, OnBlank;
    WearsDown(exp, model, patience, steps, draws, j);
    BlankDecision(cfg, draws, 7 * j, j);
  }
}
