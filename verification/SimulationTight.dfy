/** The baseline is attained: for every distance d there is a graph on which a
    run completes with no detour at all. */
module SimulationTight {
  import opened Domain
  import opened Sampling
  import opened SimulationGraph
  import opened SimulationLog
  import opened SimulationWalk
  import opened EventLog
  import opened Reach
  import opened GraphSearch

  // A chain of d + 1 screens with one button each; the last button is critical.
  function Button(d: nat, i: nat): ElementView {
    ElementView(i, if i == d then "goal" else "next", "button", None, true)
  }

  function Link(i: nat): Transition {
    Transition(i, i, "click", i + 1)
  }

  function Chain(d: nat): ScreenGraph {
    ScreenGraph(seq(d + 1, i requires i >= 0 => ScreenView(i, "screen", [Button(d, i)])),
                seq(d, i requires i >= 0 => Link(i)))
  }

  function Straight(exp: Exp, d: nat): Config {
    Config(Chain(d), Task(None, SuccessConditions(Absent, Absent, Absent), {"goal"}), 1.0, Random, exp, d + 1, 10)
  }

  // Every draw picks the first candidate.
  function First(k: nat): Draw {
    Draw([], 0.0, 0)
  }

  lemma ChainScreen(d: nat, i: nat)
    requires i <= d
    ensures Chain(d).Screen(i) == Some(ScreenView(i, "screen", [Button(d, i)]))
  {
    assert Chain(d).screens[i] in Chain(d).screens;
  }

  lemma ChainUnknown(d: nat, i: nat)
    requires i > d
    ensures !Chain(d).Known(i)
  {}

  lemma ChainLookup(d: nat, i: nat)
    requires i < d
    ensures Lookup(Chain(d).transitions, i, i) == Some(Link(i))
  {
    assert Chain(d).transitions[i] in Chain(d).transitions;
  }

  lemma {:induction false} FindIn(screens: seq<ScreenView>, eid: ElementId, at: nat, e: ElementView)
    requires at < |screens| && screens[at].elements == [e] && e.id == eid
    requires forall j :: 0 <= j < at ==> forall f :: f in screens[j].elements ==> f.id != eid
    ensures FindElement(screens, eid) == Some(e)
  {
    if at > 0 {
      FindIn(screens[1..], eid, at - 1, e);
    }
  }

  lemma ChainElement(d: nat, i: nat)
    requires i <= d
    ensures Chain(d).ElementAnywhere(i) == Some(Button(d, i))
  {
    FindIn(Chain(d).screens, i, i, Button(d, i));
  }

  lemma {:induction false} ChainWithin(d: nat, i: nat)
    requires i <= d
    ensures Within(Chain(d).transitions, 0, i, i)
  {
    if i > 0 {
      ChainWithin(d, i - 1);
      assert Chain(d).transitions[i - 1] == Link(i - 1);
      assert Link(i - 1) in Chain(d).transitions;
    }
  }

  lemma {:induction false} ChainFar(d: nat, x: ScreenId, n: nat)
    requires Within(Chain(d).transitions, 0, x, n)
    ensures x <= n
  {
    if n > 0 {
      if Within(Chain(d).transitions, 0, x, n - 1) {
        ChainFar(d, x, n - 1);
      } else {
        var t :| t in Chain(d).transitions && t.to == x && Within(Chain(d).transitions, 0, t.from, n - 1);
        ChainFar(d, t.from, n - 1);
      }
    }
  }

  lemma ButtonNames(exp: Exp, d: nat, i: nat)
    ensures Button(d, i).Critical({"goal"}) <==> i == d
    ensures i == d ==> "goal" in Button(d, i).Names() && Button(d, i).Names() * {"goal"} == {"goal"}
    ensures i != d ==> Button(d, i).Names() * {"goal"} == {}
  {
    assert "goal"[0] != "next"[0];
    assert "goal" in Button(d, d).Names();
    if i != d {
      assert Button(d, i).Names() == {"next", ""};
    }
    assert Button(d, i).Names() * {"goal"} == if i == d then {"goal"} else {};
  }

  lemma ChainNearest(exp: Exp, d: nat)
    ensures Nearest(Chain(d), {"goal"}, 0, d)
  {
    ButtonNames(exp, d, d);
    ChainScreen(d, d);
    ChainWithin(d, d);
    assert HasCritical(Chain(d), {"goal"}, d) by {
      assert Button(d, d) in Chain(d).Screen(d).value.elements;
    }
    forall sid: nat, n: nat | HasCritical(Chain(d), {"goal"}, sid) && Within(Chain(d).transitions, 0, sid, n)
      ensures d <= n
    {
      if sid > d { ChainUnknown(d, sid); } else { ChainScreen(d, sid); ButtonNames(exp, d, sid); }
      ChainFar(d, sid, n);
    }
  }

  lemma ChainUnique(d: nat)
    ensures Chain(d).UniqueElements() && Loopless(Chain(d).transitions)
  {}

  lemma PickFirst(exp: Exp, scores: seq<real>)
    requires scores != []
    ensures Pick(exp, scores, 0.0) == 0
  {
    assert Cumulative(exp, scores, 1) == Cumulative(exp, scores, 0) + Probability(exp, scores, 0);
  }

  // At screen j of the chain after j clicks, each on the button of its screen.
  ghost predicate OnChain(m: Machine, node: Node, j: nat, step: nat) {
    var s := m.state;
    && m.node == node && s.current == j && |s.history| == j && s.step == step
    && s.backtracks == 0 && s.deadEnds == 0 && s.scanCount == 0
    && s.outcome == InProgress && s.reason == None && s.progress == 0.0
    && |s.actionHistory| == step && (forall i :: 0 <= i < step ==> s.actionHistory[i].target == Some(i))
  }

  lemma ChainIntended(exp: Exp, d: nat, j: nat)
    requires j <= d
    ensures IntendedElement([Button(d, j)], {"goal"}) == if j == d then Some(Button(d, d)) else None
  {
    ButtonNames(exp, d, j);
    assert Button(d, j) in [Button(d, j)];
  }

  lemma LookOnce(exp: Exp, d: nat, s: State, j: nat, k: nat)
    requires j <= d && s.current == j
    ensures var t := AttendNode(Straight(exp, d), s, ScreenView(j, "screen", [Button(d, j)]), First(k));
            t == s.(attention := t.attention, events := t.events, sequenceNo := t.sequenceNo,
                    scanCount := if j == d then s.scanCount + 1 else s.scanCount,
                    intended := if j == d then Some(d) else None, found := j == d)
  {
    ChainIntended(exp, d, j);
    PickFirst(exp, First(k).Scores(1));
    hide Pick, IntendedElement;
  }

  lemma ToAttend(exp: Exp, d: nat, m: Machine, j: nat, k: nat)
    requires j <= d && OnChain(m, Perceive, j, j)
    ensures Step(Straight(exp, d), m, First(k)) == Machine(Attend, m.state)
  {
    ChainScreen(d, j);
  }

  lemma ToInterpret(exp: Exp, d: nat, m: Machine, j: nat, k: nat)
    requires j < d && OnChain(m, Attend, j, j)
    ensures OnChain(Step(Straight(exp, d), m, First(k)), Interpret, j, j)
  {
    ChainScreen(d, j);
    LookOnce(exp, d, m.state, j, k);
    hide AttendNode, Chain;
  }

  lemma ToSelect(exp: Exp, d: nat, m: Machine, j: nat, k: nat)
    requires OnChain(m, Interpret, j, j)
    ensures OnChain(Step(Straight(exp, d), m, First(k)), SelectAction, j, j)
  {
    hide UncertaintyAfter;
  }

  lemma SelectFirst(exp: Exp, d: nat, s: State, j: nat, k: nat)
    ensures SelectActionNode(Straight(exp, d), s, ScreenView(j, "screen", [Button(d, j)]), First(k)) ==
            s.(action := Some(Action(Click, Some(j))))
  {
    var screen := ScreenView(j, "screen", [Button(d, j)]);
    var candidates := ActionCandidates(Straight(exp, d), s, screen);
    assert ElementActions([Button(d, j)]) == [Action(Click, Some(j))];
    assert candidates[0] == Action(Click, Some(j));
    PickFirst(exp, First(k).Scores(|candidates|));
    hide Pick, ActionCandidates;
  }

  lemma ToExecute(exp: Exp, d: nat, m: Machine, j: nat, k: nat)
    requires j <= d && OnChain(m, SelectAction, j, j)
    ensures Step(Straight(exp, d), m, First(k)) == Machine(ExecuteAction, m.state.(action := Some(Action(Click, Some(j)))))
  {
    ChainScreen(d, j);
    SelectFirst(exp, d, m.state, j, k);
    hide SelectActionNode, Chain;
  }

  lemma ClickOn(exp: Exp, d: nat, s: State, j: nat)
    requires j < d && s.current == j
    ensures var t := ExecuteNode(Chain(d), s, Action(Click, Some(j)));
            t == s.(current := j + 1, history := s.history + [j], actionHistory := s.actionHistory + [Entry(Click, Some(j), s.step)],
                    step := s.step + 1, scanCount := 0, events := t.events, sequenceNo := t.sequenceNo)
  {
    ChainLookup(d, j);
    hide Chain, Lookup;
  }

  lemma ToUpdate(exp: Exp, d: nat, m: Machine, j: nat, k: nat)
    requires j < d && OnChain(m, ExecuteAction, j, j) && m.state.action == Some(Action(Click, Some(j)))
    ensures OnChain(Step(Straight(exp, d), m, First(k)), UpdateState, j + 1, j + 1)
  {
    ChainScreen(d, j);
    ClickOn(exp, d, m.state, j);
    hide ExecuteNode, Chain;
  }

  // The critical actions matched after a number of clicks.
  lemma ChainMatched(exp: Exp, d: nat, h: seq<Entry>)
    requires |h| <= d + 1 && forall i :: 0 <= i < |h| ==> h[i].target == Some(i)
    ensures Matched(Chain(d), {"goal"}, h) == if |h| == d + 1 then {"goal"} else {}
  {
    forall i | 0 <= i < |h|
      ensures "goal" in NamesHit(Chain(d), h[i]) <==> i == d
    {
      ChainElement(d, i);
      ButtonNames(exp, d, i);
      assert NamesHit(Chain(d), h[i]) == Button(d, i).Names();
    }
    hide NamesHit, Chain;
    if |h| == d + 1 { assert "goal" in NamesHit(Chain(d), h[d]); }
    assert forall c :: c in Matched(Chain(d), {"goal"}, h) ==> c == "goal";
    assert "goal" in Matched(Chain(d), {"goal"}, h) <==> |h| == d + 1;
  }

  lemma ChainProgress(exp: Exp, d: nat, s: State)
    requires |s.actionHistory| <= d + 1 && forall i :: 0 <= i < |s.actionHistory| ==> s.actionHistory[i].target == Some(i)
    ensures ProgressOf(Straight(exp, d), s) == if |s.actionHistory| == d + 1 then 1.0 else 0.0
  {
    ChainMatched(exp, d, s.actionHistory);
    hide Matched, Chain;
  }

  lemma ToCheck(exp: Exp, d: nat, m: Machine, j: nat, k: nat)
    requires j <= d && OnChain(m, UpdateState, j, j)
    ensures OnChain(Step(Straight(exp, d), m, First(k)), CheckTask, j, j)
  {
    ChainProgress(exp, d, m.state);
    hide ProgressOf, Straight;
  }

  lemma ToPerceive(exp: Exp, d: nat, m: Machine, j: nat, k: nat)
    requires 1 <= j <= d && OnChain(m, CheckTask, j, j)
    ensures OnChain(Step(Straight(exp, d), m, First(k)), Perceive, j, j)
  {
    ChainScreen(d, j);
    assert Button(d, j) in [Button(d, j)] && Button(d, j).interactable;
    assert AbandonPressure(m.state.uncertainty, 1.0, 0) == 0.0;
    hide AbandonPressure, Chain;
  }

  // Seven visits carry the run one screen on.
  lemma NextScreen(exp: Exp, d: nat, j: nat, k: nat)
    requires j < d && OnChain(Run(Straight(exp, d), 0, First, k), Perceive, j, j)
    ensures OnChain(Run(Straight(exp, d), 0, First, k + 7), Perceive, j + 1, j + 1)
  {
    var cfg := Straight(exp, d);
    hide Step, OnChain, Straight, First;
    var m := Run(cfg, 0, First, k);
    NextUpdate(exp, d, m, j, k);
    var m5 := Step(cfg, Step(cfg, Step(cfg, Step(cfg, Step(cfg, m, First(k)), First(k + 1)), First(k + 2)), First(k + 3)), First(k + 4));
    ToCheck(exp, d, m5, j + 1, k + 5);
    ToPerceive(exp, d, Step(cfg, m5, First(k + 5)), j + 1, k + 6);
    RunSeven(cfg, k);
  }

  lemma NextUpdate(exp: Exp, d: nat, m: Machine, j: nat, k: nat)
    requires j < d && OnChain(m, Perceive, j, j)
    ensures var cfg := Straight(exp, d);
            OnChain(Step(cfg, Step(cfg, Step(cfg, Step(cfg, Step(cfg, m, First(k)), First(k + 1)), First(k + 2)), First(k + 3)), First(k + 4)),
                    UpdateState, j + 1, j + 1)
  {
    var cfg := Straight(exp, d);
    hide Step, Straight, First;
    ToAttend(exp, d, m, j, k);
    var m1 := Step(cfg, m, First(k));
    ToInterpret(exp, d, m1, j, k + 1);
    var m2 := Step(cfg, m1, First(k + 1));
    ToSelect(exp, d, m2, j, k + 2);
    var m3 := Step(cfg, m2, First(k + 2));
    ToExecute(exp, d, m3, j, k + 3);
    ToUpdate(exp, d, Step(cfg, m3, First(k + 3)), j, k + 4);
  }

  lemma RunSeven(cfg: Config, k: nat)
    ensures var m := Run(cfg, 0, First, k);
            var m5 := Step(cfg, Step(cfg, Step(cfg, Step(cfg, Step(cfg, m, First(k)), First(k + 1)), First(k + 2)), First(k + 3)), First(k + 4));
            && Run(cfg, 0, First, k + 5) == m5
            && Run(cfg, 0, First, k + 6) == Step(cfg, m5, First(k + 5))
            && Run(cfg, 0, First, k + 7) == Step(cfg, Step(cfg, m5, First(k + 5)), First(k + 6))
  {
    hide Step, First;
    assert Run(cfg, 0, First, k + 1) == Step(cfg, Run(cfg, 0, First, k), First(k));
    assert Run(cfg, 0, First, k + 2) == Step(cfg, Run(cfg, 0, First, k + 1), First(k + 1));
    assert Run(cfg, 0, First, k + 3) == Step(cfg, Run(cfg, 0, First, k + 2), First(k + 2));
    assert Run(cfg, 0, First, k + 4) == Step(cfg, Run(cfg, 0, First, k + 3), First(k + 3));
    assert Run(cfg, 0, First, k + 5) == Step(cfg, Run(cfg, 0, First, k + 4), First(k + 4));
    assert Run(cfg, 0, First, k + 6) == Step(cfg, Run(cfg, 0, First, k + 5), First(k + 5));
  }

  lemma {:induction false} Reaches(exp: Exp, d: nat, j: nat)
    requires j <= d
    ensures OnChain(Run(Straight(exp, d), 0, First, 1 + 7 * j), Perceive, j, j)
  {
    if j == 0 {
      assert Run(Straight(exp, d), 0, First, 1) == Machine(Perceive, OrientNode(InitialState(0)));
    } else {
      Reaches(exp, d, j - 1);
      NextScreen(exp, d, j - 1, 1 + 7 * (j - 1));
      assert 1 + 7 * (j - 1) + 7 == 1 + 7 * j;
    }
  }

  // ---- the last screen ----

  ghost predicate AtGoal(m: Machine, node: Node, d: nat) {
    var s := m.state;
    && m.node == node && s.current == d && |s.history| == d && s.backtracks == 0 && s.step == d && s.intended == Some(d)
    && s.progress == 0.0 && |s.actionHistory| == d && (forall i :: 0 <= i < d ==> s.actionHistory[i].target == Some(i))
  }

  lemma FindGoal(exp: Exp, d: nat, m: Machine, k: nat)
    requires OnChain(m, Attend, d, d)
    ensures AtGoal(Step(Straight(exp, d), m, First(k)), ActOnIntended, d)
  {
    ChainScreen(d, d);
    LookOnce(exp, d, m.state, d, k);
    hide AttendNode, Chain;
  }

  lemma ActOnGoal(exp: Exp, d: nat, m: Machine, k: nat)
    requires AtGoal(m, ActOnIntended, d)
    ensures Step(Straight(exp, d), m, First(k)) == Machine(ExecuteAction, m.state.(action := Some(Action(Click, Some(d)))))
  {
    ChainScreen(d, d);
    assert ScreenView(d, "screen", [Button(d, d)]).Element(d) == Some(Button(d, d));
    hide Chain;
  }

  lemma ClickGoal(exp: Exp, d: nat, m: Machine, k: nat)
    requires AtGoal(m, ExecuteAction, d) && m.state.action == Some(Action(Click, Some(d)))
    ensures var t := Step(Straight(exp, d), m, First(k));
            && t.node == UpdateState && |t.state.history| == d && t.state.backtracks == 0 && t.state.step == d + 1
            && |t.state.actionHistory| == d + 1 && forall i :: 0 <= i <= d ==> t.state.actionHistory[i].target == Some(i)
  {
    ChainScreen(d, d);
    assert Lookup(Chain(d).transitions, d, d).None?;
    hide Chain, Lookup;
  }

  lemma Succeeds(exp: Exp, d: nat, m: Machine, k: nat)
    requires m.node == UpdateState && |m.state.actionHistory| == d + 1
    requires forall i :: 0 <= i <= d ==> m.state.actionHistory[i].target == Some(i)
    ensures var cfg := Straight(exp, d);
            var t := Step(cfg, Step(cfg, m, First(k)), First(k + 1));
            && t.node == End && t.state.outcome == Completed
            && t.state.history == m.state.history && t.state.backtracks == m.state.backtracks && t.state.step == m.state.step
  {
    ChainProgress(exp, d, m.state);
    hide ProgressOf, Straight;
  }

  // From the last screen six visits finish the run.
  lemma Finishes(exp: Exp, d: nat, m: Machine, k: nat)
    requires OnChain(m, Perceive, d, d)
    ensures var cfg := Straight(exp, d);
            var m4 := Step(cfg, Step(cfg, Step(cfg, Step(cfg, m, First(k)), First(k + 1)), First(k + 2)), First(k + 3));
            var t := Step(cfg, Step(cfg, m4, First(k + 4)), First(k + 5));
            && t.node == End && t.state.outcome == Completed
            && |t.state.history| == d && t.state.backtracks == 0 && t.state.step == d + 1
  {
    var cfg := Straight(exp, d);
    hide Step, Straight, First;
    ToAttend(exp, d, m, d, k);
    var m1 := Step(cfg, m, First(k));
    FindGoal(exp, d, m1, k + 1);
    var m2 := Step(cfg, m1, First(k + 1));
    ActOnGoal(exp, d, m2, k + 2);
    var m3 := Step(cfg, m2, First(k + 2));
    ClickGoal(exp, d, m3, k + 3);
    Succeeds(exp, d, Step(cfg, m3, First(k + 3)), k + 4);
  }

  lemma Completes(exp: Exp, d: nat)
    ensures var m := Run(Straight(exp, d), 0, First, 7 * d + 7);
            && m.node == End && m.state.outcome == Completed
            && |m.state.history| == d && m.state.backtracks == 0 && m.state.step == d + 1
  {
    hide Step, First, Straight;
    Reaches(exp, d, d);
    Finishes(exp, d, Run(Straight(exp, d), 0, First, 1 + 7 * d), 1 + 7 * d);
    RunSeven(Straight(exp, d), 1 + 7 * d);
    hide Run;
    assert 1 + 7 * d + 6 == 7 * d + 7;
  }

  lemma CountsOf(cfg: Config, start: ScreenId, m: Machine)
    requires LogInv(m) && WalkInv(cfg, start, m) && m.node != Orient && Loopless(cfg.graph.transitions)
    ensures Actions(m.state.events) == m.state.step
    ensures Enters(m.state.events) == |m.state.history| + 1 + 2 * m.state.backtracks
  {
    hide IsWalk, Within, Sound;
  }

  // For every d there is a graph whose nearest critical screen is d transitions
  // away and a run that completes with the d + 1 actions and the d + 1 entered
  // screens of the baseline: neither bound can be raised.
  lemma BaselineIsAttained(exp: Exp, d: nat)
    ensures var cfg := Straight(exp, d);
            && cfg.graph.UniqueElements() && cfg.task.critical != {} && !cfg.task.success.Recognized()
            && Nearest(cfg.graph, cfg.task.critical, 0, d)
    ensures var s := Run(Straight(exp, d), 0, First, 7 * d + 7).state;
            s.outcome == Completed && Actions(s.events) == d + 1 && Enters(s.events) == d + 1
  {
    var cfg := Straight(exp, d);
    ChainNearest(exp, d);
    ChainUnique(d);
    Completes(exp, d);
    LogAlways(cfg, 0, First, 7 * d + 7);
    WalkAlways(cfg, 0, First, 7 * d + 7);
    hide Run, Chain, LogInv, WalkInv, Nearest;
    CountsOf(cfg, 0, Run(cfg, 0, First, 7 * d + 7));
  }
}
