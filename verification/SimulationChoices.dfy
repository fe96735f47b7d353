/** Which stored transitions a participant can follow at all, and what that
    means for the shortest-path baseline. */
module SimulationChoices {
  import opened Domain
  import opened EventLog
  import opened GraphSearch
  import opened Reach
  import opened Sampling
  import opened SimulationBaseline
  import opened SimulationGraph
  import opened SimulationReplay
  import opened SimulationWalk

  // Something a participant can do to an element of a screen: where an element is
  // intended only that one is acted on, elsewhere any interactable one is; and an
  // element takes its default action.
  ghost predicate Performable(cfg: Config, sid: ScreenId, eid: ElementId, action: ActionType) {
    cfg.graph.Known(sid) &&
    var screen := cfg.graph.Screen(sid).value;
    if IntendedOn(cfg, sid).Some? then
      eid == IntendedOn(cfg, sid).value.id && screen.Element(eid).Some? && action == DefaultAction(screen.Element(eid).value)
    else
      exists e :: e in screen.elements && e.interactable && e.id == eid && action == DefaultAction(e)
  }

  // A chosen action that targets an element is one that can be performed.
  ghost predicate ChoiceInv(cfg: Config, m: Machine) {
    m.node == ExecuteAction ==>
      && m.state.action.Some?
      && var a := m.state.action.value;
         (a.target.Some? ==> Performable(cfg, m.state.current, a.target.value, a.action))
  }

  lemma SelectedPerformable(cfg: Config, s: State, a: Action)
    requires cfg.graph.Known(s.current) && IntendedOn(cfg, s.current).None?
    requires a in ActionCandidates(cfg, s, cfg.graph.Screen(s.current).value) && a.target.Some?
    ensures Performable(cfg, s.current, a.target.value, a.action)
  {
    hide IntendedElement;
  }

  lemma StepKeepsChoice(cfg: Config, m: Machine, d: Draw)
    requires NodeInv(cfg, m) && ChoiceInv(cfg, m)
    ensures ChoiceInv(cfg, Step(cfg, m, d))
  {
    hide Pick, ProgressOf, UncertaintyAfter, AbandonPressure, IntendedElement, SelectActionNode, Stuck, ExecuteNode, ActionCandidates,
      DefaultAction;
    var s := m.state;
    if m.node == SelectAction {
      var t := SelectActionNode(cfg, s, cfg.graph.Screen(s.current).value, d);
      if t.action.value.target.Some? { SelectedPerformable(cfg, s, t.action.value); }
      hide Performable;
    }
  }

  lemma {:induction false} ChoiceAlways(cfg: Config, start: ScreenId, draws: nat -> Draw, k: nat)
    ensures ChoiceInv(cfg, Run(cfg, start, draws, k))
  {
    assert k == 0 ==> Run(cfg, start, draws, k).node == Orient;
    hide Step, NodeInv;
    if k > 0 {
      ChoiceAlways(cfg, start, draws, k - 1);
      NodeAlways(cfg, start, draws, k - 1);
      StepKeepsChoice(cfg, Run(cfg, start, draws, k - 1), draws(k - 1));
    }
  }

  // ---- transitions nobody can follow make no difference ----

  // The first stored row of its trigger, on an element that can be clicked or
  // selected: typing into an element leads nowhere.
  ghost predicate Followable(cfg: Config, t: Transition) {
    && Lookup(cfg.graph.transitions, t.from, t.trigger) == Some(t)
    && (Performable(cfg, t.from, t.trigger, Click) || Performable(cfg, t.from, t.trigger, Select))
  }

  ghost function FollowableRows(cfg: Config, ts: seq<Transition>): (r: seq<Transition>)
    ensures forall t :: t in r <==> t in ts && Followable(cfg, t)
  {
    if ts == [] then []
    else (if Followable(cfg, ts[0]) then [ts[0]] else []) + FollowableRows(cfg, ts[1..])
  }

  // The study without the transitions nobody can follow.
  ghost function Pruned(cfg: Config): Config {
    WithRows(cfg, FollowableRows(cfg, cfg.graph.transitions))
  }

  lemma DefaultIs(e: ElementView)
    ensures DefaultAction(e) in {Click, Select, TypeText}
  {}

  lemma PerformedIs(cfg: Config, sid: ScreenId, eid: ElementId, action: ActionType)
    requires Performable(cfg, sid, eid, action)
    ensures action in {Click, Select, TypeText}
  {
    hide IntendedElement, DefaultAction;
    var screen := cfg.graph.Screen(sid).value;
    if IntendedOn(cfg, sid).Some? {
      DefaultIs(screen.Element(eid).value);
    } else {
      var e :| e in screen.elements && e.interactable && e.id == eid && action == DefaultAction(e);
      DefaultIs(e);
    }
  }

  lemma SameLookup(cfg: Config, sid: ScreenId, eid: ElementId)
    requires Performable(cfg, sid, eid, Click) || Performable(cfg, sid, eid, Select)
    ensures Lookup(Pruned(cfg).graph.transitions, sid, eid) == Lookup(cfg.graph.transitions, sid, eid)
  {
    hide Performable;
    var ts := cfg.graph.transitions;
    var full, less := Lookup(ts, sid, eid), Lookup(FollowableRows(cfg, ts), sid, eid);
    if full.Some? { assert Followable(cfg, full.value); }
  }

  lemma PrunedMove(cfg: Config, m: Machine)
    requires m.node == ExecuteAction && ChoiceInv(cfg, m)
    ensures var s, a := m.state, m.state.action.value;
            ExecuteNode(cfg.graph, s, a) == ExecuteNode(Pruned(cfg).graph, s, a)
  {
    var s, a := m.state, m.state.action.value;
    if Navigates(a) {
      PerformedIs(cfg, s.current, a.target.value, a.action);
      SameLookup(cfg, s.current, a.target.value);
    }
    hide Lookup, Performable, FollowableRows;
  }

  // Whatever the scores and draws, the trace is that of the study without them.
  lemma {:induction false} PruningChangesNothing(cfg: Config, start: ScreenId, draws: nat -> Draw, k: nat)
    ensures Run(cfg, start, draws, k) == Run(Pruned(cfg), start, draws, k)
  {
    hide Step, ChoiceInv;
    if k > 0 {
      var m := Run(cfg, start, draws, k - 1);
      PruningChangesNothing(cfg, start, draws, k - 1);
      ChoiceAlways(cfg, start, draws, k - 1);
      if m.node == ExecuteAction && m.state.action.Some? { PrunedMove(cfg, m); }
      hide ExecuteNode, FollowableRows;
      SameStep(cfg, FollowableRows(cfg, cfg.graph.transitions), m, draws(k - 1));
    }
  }

  // ---- the baseline against what can be followed ----

  lemma {:induction false} WithinFewer(ts: seq<Transition>, us: seq<Transition>, a: ScreenId, b: ScreenId, n: nat)
    requires (forall t :: t in ts ==> t in us) && Within(ts, a, b, n)
    ensures Within(us, a, b, n)
    decreases n
  {
    if n > 0 {
      if Within(ts, a, b, n - 1) {
        WithinFewer(ts, us, a, b, n - 1);
      } else {
        var t :| t in ts && t.to == b && Within(ts, a, t.from, n - 1);
        WithinFewer(ts, us, a, t.from, n - 1);
      }
    }
  }

  lemma PrunedIsFarther(cfg: Config, start: ScreenId, d: nat, f: nat)
    requires Nearest(cfg.graph, cfg.task.critical, start, d)
    requires Nearest(Pruned(cfg).graph, cfg.task.critical, start, f)
    ensures d <= f
  {
    hide FollowableRows, Followable;
    var g := Pruned(cfg).graph;
    var sid :| HasCritical(g, cfg.task.critical, sid) && Within(g.transitions, start, sid, f);
    WithinFewer(g.transitions, cfg.graph.transitions, start, sid, f);
    assert HasCritical(cfg.graph, cfg.task.critical, sid);
  }

  // A completed run pays for the distance f along transitions that can be
  // followed, which is never less than the distance d of the baseline; so
  // nobody completes when no critical screen can be reached along them.
  lemma CompletionCostsFollowable(cfg: Config, start: ScreenId, draws: nat -> Draw, k: nat) returns (d: nat, f: nat)
    requires cfg.graph.UniqueElements() && cfg.task.critical != {} && !cfg.task.success.Recognized()
    requires Run(cfg, start, draws, k).state.outcome == Completed
    ensures Nearest(cfg.graph, cfg.task.critical, start, d) && Nearest(Pruned(cfg).graph, cfg.task.critical, start, f)
    ensures d <= f
    ensures Actions(Run(cfg, start, draws, k).state.events) >= f + 1
    ensures Enters(Run(cfg, start, draws, k).state.events) >= f + 1
  {
    hide Run, Nearest, FollowableRows;
    PruningChangesNothing(cfg, start, draws, k);
    d := CompletionCostsBaseline(cfg, start, draws, k);
    f := CompletionCostsBaseline(Pruned(cfg), start, draws, k);
    PrunedIsFarther(cfg, start, d, f);
  }

  // ---- every transition that can be followed is followed by someone ----

  // The machine k visits after m.
  ghost function Onward(cfg: Config, m: Machine, draws: nat -> Draw, k: nat): Machine {
    if k == 0 then m else Step(cfg, Onward(cfg, m, draws, k - 1), draws(k - 1))
  }

  // The action about to be executed follows t.
  ghost predicate Follows(cfg: Config, m: Machine, t: Transition) {
    && m.node == ExecuteAction && m.state.action.Some? && m.state.current == t.from
    && Navigates(m.state.action.value) && m.state.action.value.target == Some(t.trigger)
    && Lookup(cfg.graph.transitions, t.from, t.trigger) == Some(t)
  }

  lemma {:induction false} OnwardChoice(cfg: Config, m: Machine, draws: nat -> Draw, k: nat)
    requires NodeInv(cfg, m) && ChoiceInv(cfg, m)
    ensures NodeInv(cfg, Onward(cfg, m, draws, k)) && ChoiceInv(cfg, Onward(cfg, m, draws, k))
  {
    hide Step, NodeInv, ChoiceInv;
    if k > 0 {
      OnwardChoice(cfg, m, draws, k - 1);
      StepKeepsNode(cfg, Onward(cfg, m, draws, k - 1), draws(k - 1));
      StepKeepsChoice(cfg, Onward(cfg, m, draws, k - 1), draws(k - 1));
    }
  }

  lemma FollowsMeans(cfg: Config, m: Machine, t: Transition)
    requires ChoiceInv(cfg, m) && Follows(cfg, m, t)
    ensures Followable(cfg, t)
  {
    PerformedIs(cfg, t.from, t.trigger, m.state.action.value.action);
    hide Performable;
  }

  // Every candidate is picked by some draw in the open unit interval.
  lemma SomeDrawPicks(exp: Exp, scores: seq<real>, i: nat) returns (roll: real)
    requires i < |scores|
    ensures 0.0 < roll < 1.0 && Pick(exp, scores, roll) == i
  {
    var low, high := Cumulative(exp, scores, i), Cumulative(exp, scores, i + 1);
    CumulativeMonotone(exp, scores, 0, i);
    CumulativeMonotone(exp, scores, i + 1, |scores|);
    CumulativeIsWhole(exp, scores);
    assert high == low + Probability(exp, scores, i);
    hide Cumulative, Probability, Pick;
    roll := (low + high) / 2.0;
    PickIsProportional(exp, scores, roll, i);
  }

  function Rolls(roll: real): nat -> Draw {
    k => Draw([], roll, 0)
  }

  lemma OnwardThree(cfg: Config, m: Machine, draws: nat -> Draw)
    ensures Onward(cfg, m, draws, 3) == Step(cfg, Step(cfg, Step(cfg, m, draws(0)), draws(1)), draws(2))
    ensures Onward(cfg, m, draws, 4) == Step(cfg, Step(cfg, Step(cfg, Step(cfg, m, draws(0)), draws(1)), draws(2)), draws(3))
  {
    hide Step;
    assert Onward(cfg, m, draws, 1) == Step(cfg, m, draws(0));
    assert Onward(cfg, m, draws, 2) == Step(cfg, Onward(cfg, m, draws, 1), draws(1));
    assert Onward(cfg, m, draws, 3) == Step(cfg, Onward(cfg, m, draws, 2), draws(2));
  }

  // Looking from a screen about to be perceived: the element gazed at decides.
  lemma Looked(cfg: Config, m: Machine, d: Draw, at: nat)
    requires m.node == Perceive && m.state.outcome == InProgress && cfg.graph.Known(m.state.current)
    requires at < |cfg.graph.Screen(m.state.current).value.elements|
    requires Pick(cfg.exp, d.Scores(|cfg.graph.Screen(m.state.current).value.elements|), d.roll) == at
    ensures var t := Step(cfg, Step(cfg, m, d), d);
            var intended := IntendedOn(cfg, m.state.current);
            && t.state.current == m.state.current && t.state.actionHistory == m.state.actionHistory
            && t.state.backtracks == m.state.backtracks
            && (intended.None? ==> t.node == Interpret)
            && (intended.Some? && cfg.graph.Screen(m.state.current).value.elements[at].id == intended.value.id ==>
                  t.node == ActOnIntended && t.state.intended == Some(intended.value.id))
  {
    assert Step(cfg, m, d) == Machine(Attend, m.state);
    hide Pick, IntendedElement;
  }

  lemma FollowsIntended(cfg: Config, m: Machine, t: Transition) returns (roll: real)
    requires m.node == Perceive && m.state.outcome == InProgress && m.state.current == t.from
    requires Followable(cfg, t) && IntendedOn(cfg, t.from).Some?
    ensures 0.0 < roll < 1.0 && Follows(cfg, Onward(cfg, m, Rolls(roll), 3), t)
  {
    hide IntendedElement, DefaultAction, Lookup;
    var screen := cfg.graph.Screen(t.from).value;
    var i := IntendedOn(cfg, t.from).value;
    assert i in screen.elements;
    var at :| 0 <= at < |screen.elements| && screen.elements[at] == i;
    roll := SomeDrawPicks(cfg.exp, Draw([], 0.0, 0).Scores(|screen.elements|), at);
    var d := Draw([], roll, 0);
    assert d.Scores(|screen.elements|) == Draw([], 0.0, 0).Scores(|screen.elements|);
    Looked(cfg, m, d, at);
    OnwardThree(cfg, m, Rolls(roll));
    ActsOnIntended(cfg, Step(cfg, Step(cfg, m, d), d), d, t);
    hide Step, Onward, Follows;
  }

  lemma ActsOnIntended(cfg: Config, m: Machine, d: Draw, t: Transition)
    requires m.node == ActOnIntended && m.state.current == t.from && Followable(cfg, t)
    requires IntendedOn(cfg, t.from).Some? && m.state.intended == Some(IntendedOn(cfg, t.from).value.id)
    ensures Follows(cfg, Step(cfg, m, d), t)
  {
    hide IntendedElement, DefaultAction, Lookup;
  }

  lemma FollowsChosen(cfg: Config, m: Machine, t: Transition) returns (roll: real)
    requires m.node == Perceive && m.state.outcome == InProgress && m.state.current == t.from
    requires Followable(cfg, t) && IntendedOn(cfg, t.from).None?
    ensures 0.0 < roll < 1.0 && Follows(cfg, Onward(cfg, m, Rolls(roll), 4), t)
  {
    hide IntendedElement, Lookup, Step;
    var screen := cfg.graph.Screen(t.from).value;
    var candidates := ActionCandidates(cfg, m.state, screen);
    var at := OfferedAt(cfg, m.state, t);
    roll := SomeDrawPicks(cfg.exp, Draw([], 0.0, 0).Scores(|candidates|), at);
    var d := Draw([], roll, 0);
    assert d.Scores(|candidates|) == Draw([], 0.0, 0).Scores(|candidates|);
    Looked(cfg, m, d, Pick(cfg.exp, d.Scores(|screen.elements|), roll));
    OnwardThree(cfg, m, Rolls(roll));
    Interprets(cfg, Step(cfg, Step(cfg, m, d), d), d);
    ChoosesAt(cfg, Step(cfg, Step(cfg, Step(cfg, m, d), d), d), d, t, m.state, at);
    hide Onward, Follows, Pick, ActionCandidates;
  }

  // Where the click that follows a transition stands among the candidates.
  lemma OfferedAt(cfg: Config, s: State, t: Transition) returns (at: nat)
    requires s.current == t.from && Followable(cfg, t) && IntendedOn(cfg, t.from).None?
    ensures cfg.graph.Known(t.from) && cfg.graph.Screen(t.from).value.elements != []
    ensures var candidates := ActionCandidates(cfg, s, cfg.graph.Screen(t.from).value);
            at < |candidates| && Navigates(candidates[at]) && candidates[at].target == Some(t.trigger)
  {
    hide IntendedElement, Lookup, DefaultAction;
    var screen := cfg.graph.Screen(t.from).value;
    var e :| e in screen.elements && e.interactable && e.id == t.trigger && DefaultAction(e) in {Click, Select};
    var i :| 0 <= i < |screen.elements| && screen.elements[i] == e;
    EachIsOffered(screen.elements, i);
    at := Interactables(screen.elements[..i]);
    assert ActionCandidates(cfg, s, screen)[at] == ElementActions(screen.elements)[at];
  }

  lemma Interprets(cfg: Config, m: Machine, d: Draw)
    requires m.node == Interpret
    ensures var t := Step(cfg, m, d);
            t.node == SelectAction && t.state.current == m.state.current
            && t.state.actionHistory == m.state.actionHistory && t.state.backtracks == m.state.backtracks
  {
    hide UncertaintyAfter;
  }

  lemma ChoosesAt(cfg: Config, m: Machine, d: Draw, t: Transition, before: State, at: nat)
    requires m.node == SelectAction && m.state.current == t.from == before.current && cfg.graph.Known(t.from)
    requires m.state.actionHistory == before.actionHistory && m.state.backtracks == before.backtracks
    requires Lookup(cfg.graph.transitions, t.from, t.trigger) == Some(t)
    requires var candidates := ActionCandidates(cfg, before, cfg.graph.Screen(t.from).value);
             && at < |candidates| && Navigates(candidates[at]) && candidates[at].target == Some(t.trigger)
             && Pick(cfg.exp, d.Scores(|candidates|), d.roll) == at
    ensures Follows(cfg, Step(cfg, m, d), t)
  {
    hide Pick, Lookup, ElementActions, FirstScreen;
    var screen := cfg.graph.Screen(t.from).value;
    assert ActionCandidates(cfg, m.state, screen) == ActionCandidates(cfg, before, screen);
    hide ActionCandidates;
  }

  // From any moment a screen is about to be perceived, some scores and draws make
  // the participant follow a transition out of it if and only if the transition
  // is the first row of its trigger and the trigger can be clicked or selected.
  lemma FollowedIff(cfg: Config, m: Machine, t: Transition)
    requires m.node == Perceive && m.state.outcome == InProgress && m.state.current == t.from
    ensures (exists draws: nat -> Draw, k: nat :: Follows(cfg, Onward(cfg, m, draws, k), t)) <==> Followable(cfg, t)
  {
    if draws: nat -> Draw, k: nat :| Follows(cfg, Onward(cfg, m, draws, k), t) {
      OnwardChoice(cfg, m, draws, k);
      hide Follows, Onward;
      FollowsMeans(cfg, Onward(cfg, m, draws, k), t);
    }
    hide Follows, Onward;
    if Followable(cfg, t) {
      hide Followable;
      if IntendedOn(cfg, t.from).Some? {
        var roll := FollowsIntended(cfg, m, t);
        assert Follows(cfg, Onward(cfg, m, Rolls(roll), 3), t);
      } else {
        var roll := FollowsChosen(cfg, m, t);
        assert Follows(cfg, Onward(cfg, m, Rolls(roll), 4), t);
      }
    }
  }

  // ---- a baseline nobody can attain ----

  const FORM := ScreenView(0, "form", [ElementView(0, "amount", "input", None, true)])
  const GOAL := ScreenView(1, "goal", [ElementView(1, "pay", "button", None, true)])
  const TYPED := Transition(0, 0, "type", 1)
  const TYPED_GRAPH := ScreenGraph([FORM, GOAL], [TYPED])
  const TYPED_TASK := Task(None, SuccessConditions(Absent, Absent, Absent), {"pay"})

  lemma TypedNames()
    ensures !FORM.elements[0].Critical({"pay"}) && GOAL.elements[0].Critical({"pay"})
  {
    assert "amount"[0] != "pay"[0];
    assert FORM.elements[0].Names() == {"amount", ""} && "pay" in GOAL.elements[0].Names();
    assert "pay" in GOAL.elements[0].Names() * {"pay"};
  }

  lemma TypedUnique()
    ensures TYPED_GRAPH.UniqueElements() && DefaultAction(FORM.elements[0]) == TypeText
  {
    forall sc | sc in TYPED_GRAPH.screens
      ensures sc == FORM || sc == GOAL
    {}
    hide ElementView.Names;
  }

  lemma TypedScreens()
    ensures TYPED_GRAPH.Screen(0) == Some(FORM) && TYPED_GRAPH.Screen(1) == Some(GOAL)
    ensures TYPED_GRAPH.UniqueElements() && DefaultAction(FORM.elements[0]) == TypeText
    ensures !FORM.elements[0].Critical({"pay"}) && GOAL.elements[0].Critical({"pay"})
  {
    TypedNames();
    TypedUnique();
    hide ElementView.Names, ElementView.Critical, ScreenGraph.UniqueElements, DefaultAction;
  }

  lemma TypedDistance()
    ensures Nearest(TYPED_GRAPH, {"pay"}, 0, 1)
    ensures !HasCritical(TYPED_GRAPH, {"pay"}, 0) && HasCritical(TYPED_GRAPH, {"pay"}, 1)
  {
    TypedScreens();
    hide ElementView.Names, ElementView.Critical, ScreenGraph.UniqueElements, FirstScreen;
    assert GOAL.elements[0] in GOAL.elements;
    assert TYPED in TYPED_GRAPH.transitions && Within(TYPED_GRAPH.transitions, 0, 0, 0);
    assert Within(TYPED_GRAPH.transitions, 0, 1, 1);
  }

  lemma TypedUnfollowable(cfg: Config)
    requires cfg.graph == TYPED_GRAPH && cfg.task == TYPED_TASK
    ensures Pruned(cfg).graph.transitions == []
  {
    TypedScreens();
    assert IntendedElement(FORM.elements, {"pay"}).None?;
    assert !Performable(cfg, 0, 0, Click) && !Performable(cfg, 0, 0, Select);
    hide Performable, Lookup;
    assert !Followable(cfg, TYPED);
    assert cfg.graph.transitions[1..] == [] && FollowableRows(cfg, []) == [];
  }

  lemma TypedNowhere(cfg: Config, f: nat)
    requires cfg.graph == TYPED_GRAPH && cfg.task == TYPED_TASK
    ensures !Nearest(Pruned(cfg).graph, {"pay"}, 0, f)
  {
    TypedDistance();
    TypedUnfollowable(cfg);
    hide HasCritical, FollowableRows, Within;
    var g := Pruned(cfg).graph;
    if Nearest(g, {"pay"}, 0, f) {
      var sid :| HasCritical(g, {"pay"}, sid) && Within(g.transitions, 0, sid, f);
      NoWay(sid, f);
      SameCritical(cfg, sid);
    }
  }

  // The only way to the critical element is typing into a field, which moves no
  // participant: the search answers (2, 1), and no run of any model ever completes.
  lemma BaselineUnattainable(cfg: Config, draws: nat -> Draw, k: nat)
    requires cfg.graph == TYPED_GRAPH && cfg.task == TYPED_TASK
    ensures Nearest(cfg.graph, cfg.task.critical, 0, 1)
    ensures Run(cfg, 0, draws, k).state.outcome != Completed
  {
    TypedDistance();
    TypedScreens();
    hide Run, Nearest;
    if Run(cfg, 0, draws, k).state.outcome == Completed {
      var d, f := CompletionCostsFollowable(cfg, 0, draws, k);
      TypedNowhere(cfg, f);
    }
  }

  lemma {:induction false} NoWay(sid: ScreenId, n: nat)
    requires Within([], 0, sid, n)
    ensures sid == 0
  {
    if n > 0 { NoWay(sid, n - 1); }
  }

  lemma SameCritical(cfg: Config, sid: ScreenId)
    ensures HasCritical(Pruned(cfg).graph, cfg.task.critical, sid) <==> HasCritical(cfg.graph, cfg.task.critical, sid)
  {
    hide FollowableRows;
  }
}
