/** Attention: how scans are counted, what exhausting them means, and why
    uncertainty cannot by itself end a run. */
module SimulationScan {
  import opened Domain
  import opened Sampling
  import opened SimulationGraph
  import opened EventLog
  import opened SimulationLog
  import opened SimulationProgress
  import opened SimulationWalk

  // Gazes that landed on `eid`, and actions performed, since the last screen was entered.
  function HitsSinceEnter(es: seq<Event>, eid: ElementId): nat {
    if es == [] || es[|es| - 1].kind == ScreenEnter then 0
    else HitsSinceEnter(es[..|es| - 1], eid) + if es[|es| - 1].kind == Gaze && es[|es| - 1].element == Some(eid) then 1 else 0
  }

  function ActionsSinceEnter(es: seq<Event>): nat {
    if es == [] || es[|es| - 1].kind == ScreenEnter then 0
    else ActionsSinceEnter(es[..|es| - 1]) + if es[|es| - 1].kind.Acted? then 1 else 0
  }

  lemma AppendSince(es: seq<Event>, e: Event, eid: ElementId)
    ensures HitsSinceEnter(es + [e], eid) ==
            if e.kind == ScreenEnter then 0
            else HitsSinceEnter(es, eid) + if e.kind == Gaze && e.element == Some(eid) then 1 else 0
    ensures ActionsSinceEnter(es + [e]) ==
            if e.kind == ScreenEnter then 0 else ActionsSinceEnter(es) + if e.kind.Acted? then 1 else 0
  {
    assert (es + [e])[..|es|] == es;
  }

  // On a screen with an intended element the scan counter counts the gazes
  // since the screen was entered, and each of those that found the element led
  // to exactly one action; on every other screen the counter is 0.
  ghost predicate ScanInv(cfg: Config, m: Machine) {
    var s := m.state;
    if m.node == Orient then s.scanCount == 0 && s.events == []
    else
      var intended := IntendedOn(cfg, s.current);
      if intended.None? then s.scanCount == 0
      else
        s.scanCount == GazesSinceEnter(s.events)
        && HitsSinceEnter(s.events, intended.value.id) ==
           ActionsSinceEnter(s.events) + if m.node in {ActOnIntended, ExecuteAction} then 1 else 0
  }

  lemma AttendKeepsScan(cfg: Config, m: Machine, d: Draw)
    requires ScanInv(cfg, m) && m.node == Attend && cfg.graph.Known(m.state.current)
    ensures ScanInv(cfg, Step(cfg, m, d))
  {
    var s := m.state;
    var t := Step(cfg, m, d).state;
    var intended := IntendedOn(cfg, s.current);
    hide Pick, IntendedElement;
    if t.events != s.events {
      var e := t.events[|s.events|];
      Append(s.events, e);
      if intended.Some? { AppendSince(s.events, e, intended.value.id); }
    }
  }

  lemma ExecuteSince(g: ScreenGraph, s: State, a: Action, eid: ElementId)
    ensures var t := ExecuteNode(g, s, a);
            if t.current == s.current then
              GazesSinceEnter(t.events) == GazesSinceEnter(s.events)
              && HitsSinceEnter(t.events, eid) == HitsSinceEnter(s.events, eid)
              && ActionsSinceEnter(t.events) == ActionsSinceEnter(s.events) + 1
            else GazesSinceEnter(t.events) == HitsSinceEnter(t.events, eid) == ActionsSinceEnter(t.events) == 0
  {
    var t := ExecuteNode(g, s, a);
    ExecuteEvents(g, s, a);
    hide ExecuteNode;
    var acted := s.events + [ActionEvent(s, a)];
    Append(s.events, ActionEvent(s, a));
    AppendSince(s.events, ActionEvent(s, a), eid);
    if t.current == s.current {
      assert t.events == acted;
    } else {
      var exit := Event(s.sequenceNo + 1, ScreenExit, Some(s.current), None, None, Nothing);
      var enter := Event(s.sequenceNo + 2, ScreenEnter, Some(t.current), None, None, Nothing);
      assert t.events == acted + [exit] + [enter];
      Append(acted + [exit], enter);
      AppendSince(acted + [exit], enter, eid);
    }
  }

  lemma ExecuteKeepsScan(cfg: Config, m: Machine, a: Action)
    requires ScanInv(cfg, m) && m.node == ExecuteAction
    ensures ScanInv(cfg, Machine(UpdateState, ExecuteNode(cfg.graph, m.state, a)))
  {
    var s := m.state;
    var t := ExecuteNode(cfg.graph, s, a);
    assert t.scanCount == if t.current == s.current then s.scanCount else 0;
    hide ExecuteNode, IntendedOn;
    var intended := IntendedOn(cfg, t.current);
    if intended.Some? { ExecuteSince(cfg.graph, s, a, intended.value.id); }
  }

  lemma OrientKeepsScan(cfg: Config, s: State)
    requires s.events == [] && s.scanCount == 0
    ensures ScanInv(cfg, Machine(Perceive, OrientNode(s)))
  {
    var e := MakeEvent(s, ScreenEnter, Some(s.current), Nothing);
    Append(s.events, e);
    AppendSince(s.events, e, 0);
    hide IntendedOn;
    var intended := IntendedOn(cfg, s.current);
    if intended.Some? { AppendSince(s.events, e, intended.value.id); }
  }

  lemma ScanCountKept(cfg: Config, m: Machine, d: Draw)
    requires m.node !in {Orient, Attend, ExecuteAction}
    ensures Step(cfg, m, d).state.scanCount == m.state.scanCount
  {
    hide Pick, ProgressOf, UncertaintyAfter, AbandonPressure, IntendedElement, SelectActionNode, Stuck;
  }

  lemma NoGazeAdded(cfg: Config, m: Machine, d: Draw)
    requires m.node !in {Orient, Attend, ExecuteAction}
    ensures forall i :: |m.state.events| <= i < |Step(cfg, m, d).state.events| ==>
                          Step(cfg, m, d).state.events[i].kind != Gaze
  {
    hide Pick, ProgressOf, UncertaintyAfter, AbandonPressure, IntendedElement, SelectActionNode, Stuck;
  }

  lemma StepKeepsScan(cfg: Config, m: Machine, d: Draw)
    requires ScanInv(cfg, m) && NodeInv(cfg, m)
    ensures ScanInv(cfg, Step(cfg, m, d))
  {
    if m.node == Orient {
      OrientKeepsScan(cfg, m.state);
    } else if m.node == Attend {
      AttendKeepsScan(cfg, m, d);
    } else if m.node == ExecuteAction {
      ExecuteKeepsScan(cfg, m, m.state.action.value);
    } else {
      StepKeepsNode(cfg, m, d);
      StepShape(cfg, m, d);
      ScanCountKept(cfg, m, d);
      NoGazeAdded(cfg, m, d);
      NotAttending(cfg, m, d);
      var s, t := m.state, Step(cfg, m, d).state;
      hide Step, IntendedOn;
      if t.events != s.events && IntendedOn(cfg, s.current).Some? {
        Append(s.events, t.events[|s.events|]);
        AppendSince(s.events, t.events[|s.events|], IntendedOn(cfg, s.current).value.id);
      }
    }
  }

  // Acting without a scan happens only where nothing is intended.
  lemma NotAttending(cfg: Config, m: Machine, d: Draw)
    requires NodeInv(cfg, m) && m.node !in {Orient, Attend, ExecuteAction}
    ensures IntendedOn(cfg, m.state.current).Some? ==>
              (Step(cfg, m, d).node in {ActOnIntended, ExecuteAction} <==> m.node == ActOnIntended)
  {
    hide Pick, ProgressOf, UncertaintyAfter, AbandonPressure, IntendedElement, SelectActionNode, Stuck;
  }

  lemma {:induction false} ScanAlways(cfg: Config, start: ScreenId, draws: nat -> Draw, k: nat)
    ensures ScanInv(cfg, Run(cfg, start, draws, k))
  {
    hide Step, NodeInv;
    if k > 0 {
      ScanAlways(cfg, start, draws, k - 1);
      NodeAlways(cfg, start, draws, k - 1);
      StepKeepsScan(cfg, Run(cfg, start, draws, k - 1), draws(k - 1));
    }
  }

  // ---- finds and actions over the whole run ----

  // Gazes of the run on element `eid` of screen `sid`.
  function FindsOn(es: seq<Event>, sid: ScreenId, eid: ElementId): nat {
    if es == [] then 0
    else
      var e := es[|es| - 1];
      FindsOn(es[..|es| - 1], sid, eid) + if e.kind == Gaze && e.screen == Some(sid) && e.element == Some(eid) then 1 else 0
  }

  // Actions of the run on screen `sid`.
  function ActionsOn(es: seq<Event>, sid: ScreenId): nat {
    if es == [] then 0
    else
      var e := es[|es| - 1];
      ActionsOn(es[..|es| - 1], sid) + if e.kind.Acted? && e.screen == Some(sid) then 1 else 0
  }

  lemma AppendOn(es: seq<Event>, e: Event, sid: ScreenId, eid: ElementId)
    ensures FindsOn(es + [e], sid, eid) ==
            FindsOn(es, sid, eid) + if e.kind == Gaze && e.screen == Some(sid) && e.element == Some(eid) then 1 else 0
    ensures ActionsOn(es + [e], sid) == ActionsOn(es, sid) + if e.kind.Acted? && e.screen == Some(sid) then 1 else 0
  {
    assert (es + [e])[..|es|] == es;
  }

  ghost predicate Seen(es: seq<Event>, sid: ScreenId, eid: ElementId) {
    exists i :: 0 <= i < |es| && es[i].kind == Gaze && es[i].screen == Some(sid) && es[i].element == Some(eid)
  }

  ghost predicate ActedOn(es: seq<Event>, sid: ScreenId) {
    exists i :: 0 <= i < |es| && es[i].kind.Acted? && es[i].screen == Some(sid)
  }

  lemma {:induction false} CountsMean(es: seq<Event>, sid: ScreenId, eid: ElementId)
    ensures FindsOn(es, sid, eid) > 0 <==> Seen(es, sid, eid)
    ensures ActionsOn(es, sid) > 0 <==> ActedOn(es, sid)
  {
    if es != [] {
      var init := es[..|es| - 1];
      CountsMean(init, sid, eid);
      if i :| 0 <= i < |init| && init[i].kind == Gaze && init[i].screen == Some(sid) && init[i].element == Some(eid) {
        assert es[i] == init[i];
      }
      if i :| 0 <= i < |init| && init[i].kind.Acted? && init[i].screen == Some(sid) {
        assert es[i] == init[i];
      }
    }
  }

  // Over the whole run every find on a screen led to exactly one action there,
  // and nothing else did.
  ghost predicate FindsInv(cfg: Config, sid: ScreenId, m: Machine) {
    var s := m.state;
    var intended := IntendedOn(cfg, sid);
    intended.Some? ==>
      FindsOn(s.events, sid, intended.value.id) ==
      ActionsOn(s.events, sid) + if m.node in {ActOnIntended, ExecuteAction} && s.current == sid then 1 else 0
  }

  // Attending leaves at most one gaze on the current screen, and acting follows
  // exactly when it found the intended element.
  lemma AttendFound(cfg: Config, m: Machine, d: Draw)
    requires m.node == Attend && cfg.graph.Known(m.state.current)
    ensures var s, t := m.state, Step(cfg, m, d).state;
            && t.current == s.current && Step(cfg, m, d).node != ExecuteAction
            && (t.events == s.events ==> Step(cfg, m, d).node != ActOnIntended)
            && (t.events != s.events ==>
                  && |t.events| == |s.events| + 1 && t.events == s.events + [t.events[|s.events|]]
                  && var e := t.events[|s.events|];
                     e.kind == Gaze && e.screen == Some(s.current)
                     && (Step(cfg, m, d).node == ActOnIntended <==>
                         IntendedOn(cfg, s.current).Some? && e.element == Some(IntendedOn(cfg, s.current).value.id)))
  {
    hide Pick, IntendedElement;
  }

  lemma AttendKeepsFinds(cfg: Config, sid: ScreenId, m: Machine, d: Draw)
    requires FindsInv(cfg, sid, m) && m.node == Attend && cfg.graph.Known(m.state.current)
    ensures FindsInv(cfg, sid, Step(cfg, m, d))
  {
    AttendFound(cfg, m, d);
    hide Step, IntendedOn;
    var s, t := m.state, Step(cfg, m, d).state;
    if t.events != s.events && IntendedOn(cfg, sid).Some? {
      AppendOn(s.events, t.events[|s.events|], sid, IntendedOn(cfg, sid).value.id);
    }
  }

  lemma ExecuteOn(g: ScreenGraph, s: State, a: Action, sid: ScreenId, eid: ElementId)
    ensures var t := ExecuteNode(g, s, a);
            && FindsOn(t.events, sid, eid) == FindsOn(s.events, sid, eid)
            && ActionsOn(t.events, sid) == ActionsOn(s.events, sid) + if s.current == sid then 1 else 0
  {
    var t := ExecuteNode(g, s, a);
    ExecuteEvents(g, s, a);
    hide ExecuteNode;
    var acted := s.events + [ActionEvent(s, a)];
    AppendOn(s.events, ActionEvent(s, a), sid, eid);
    if t.current == s.current {
      assert t.events == acted;
    } else {
      var exit := Event(s.sequenceNo + 1, ScreenExit, Some(s.current), None, None, Nothing);
      var enter := Event(s.sequenceNo + 2, ScreenEnter, Some(t.current), None, None, Nothing);
      assert t.events == acted + [exit] + [enter];
      AppendOn(acted, exit, sid, eid);
      AppendOn(acted + [exit], enter, sid, eid);
    }
  }

  lemma QuietFinds(cfg: Config, sid: ScreenId, m: Machine, d: Draw)
    requires FindsInv(cfg, sid, m) && NodeInv(cfg, m) && m.node !in {Orient, Attend, ExecuteAction}
    ensures FindsInv(cfg, sid, Step(cfg, m, d))
  {
    StepShape(cfg, m, d);
    NoGazeAdded(cfg, m, d);
    NotAttending(cfg, m, d);
    hide Step, IntendedOn, NodeInv;
    var s, t := m.state, Step(cfg, m, d).state;
    if t.events != s.events && IntendedOn(cfg, sid).Some? {
      AppendOn(s.events, t.events[|s.events|], sid, IntendedOn(cfg, sid).value.id);
    }
  }

  lemma ExecuteKeepsFinds(cfg: Config, sid: ScreenId, m: Machine, a: Action)
    requires FindsInv(cfg, sid, m) && m.node == ExecuteAction
    ensures FindsInv(cfg, sid, Machine(UpdateState, ExecuteNode(cfg.graph, m.state, a)))
  {
    hide ExecuteNode, IntendedOn;
    var intended := IntendedOn(cfg, sid);
    if intended.Some? { ExecuteOn(cfg.graph, m.state, a, sid, intended.value.id); }
  }

  lemma StepKeepsFinds(cfg: Config, sid: ScreenId, m: Machine, d: Draw)
    requires FindsInv(cfg, sid, m) && NodeInv(cfg, m)
    ensures FindsInv(cfg, sid, Step(cfg, m, d))
  {
    if m.node == Orient {
      var intended := IntendedOn(cfg, sid);
      hide IntendedOn;
      if intended.Some? {
        AppendOn(m.state.events, MakeEvent(m.state, ScreenEnter, Some(m.state.current), Nothing), sid, intended.value.id);
      }
    } else if m.node == Attend {
      AttendKeepsFinds(cfg, sid, m, d);
    } else if m.node == ExecuteAction {
      ExecuteKeepsFinds(cfg, sid, m, m.state.action.value);
      hide FindsInv, ExecuteNode;
    } else {
      QuietFinds(cfg, sid, m, d);
      hide FindsInv, Step;
    }
  }

  lemma {:induction false} FindsAlways(cfg: Config, sid: ScreenId, start: ScreenId, draws: nat -> Draw, k: nat)
    ensures FindsInv(cfg, sid, Run(cfg, start, draws, k))
  {
    assert k == 0 ==> Run(cfg, start, draws, k).state.events == [];
    hide Step, NodeInv;
    if k > 0 {
      FindsAlways(cfg, sid, start, draws, k - 1);
      NodeAlways(cfg, start, draws, k - 1);
      StepKeepsFinds(cfg, sid, Run(cfg, start, draws, k - 1), draws(k - 1));
    }
  }

  // Exhausting the scans of a screen means at least one and at least `maxScans`
  // gazes since it was entered, the last of which missed the intended element.
  // The element was never looked at there in the whole run exactly when nothing
  // was ever done on that screen: an earlier find, on this stay or on one before,
  // is forgotten by the scan counter.
  lemma ExhaustionMeans(cfg: Config, start: ScreenId, draws: nat -> Draw, k: nat)
    requires Run(cfg, start, draws, k).node == ScanExhausted
    ensures var s := Run(cfg, start, draws, k).state;
            var intended := IntendedOn(cfg, s.current);
            && intended.Some?
            && GazesSinceEnter(s.events) >= 1 && GazesSinceEnter(s.events) >= cfg.maxScans
            && s.events[|s.events| - 1].kind == Gaze && s.events[|s.events| - 1].element != Some(intended.value.id)
            && (HitsSinceEnter(s.events, intended.value.id) == 0 <==> ActionsSinceEnter(s.events) == 0)
            && (!Seen(s.events, s.current, intended.value.id) <==> !ActedOn(s.events, s.current))
  {
    hide Step, IntendedElement;
    ScanAlways(cfg, start, draws, k);
    NodeAlways(cfg, start, draws, k);
    NodeAlways(cfg, start, draws, k - 1);
    LastGazeMissed(cfg, Run(cfg, start, draws, k - 1), draws(k - 1));
    var s := Run(cfg, start, draws, k).state;
    FindsAlways(cfg, s.current, start, draws, k);
    CountsMean(s.events, s.current, IntendedOn(cfg, s.current).value.id);
    hide Run, Seen, ActedOn, IntendedOn;
  }

  lemma LastGazeMissed(cfg: Config, m: Machine, d: Draw)
    requires NodeInv(cfg, m) && Step(cfg, m, d).node == ScanExhausted
    ensures var t := Step(cfg, m, d).state;
            && t.scanCount >= cfg.maxScans && t.scanCount >= 1
            && t.events != [] && t.events[|t.events| - 1].kind == Gaze
            && t.intended.Some? && t.events[|t.events| - 1].element != t.intended
  {
    hide Pick, ProgressOf, UncertaintyAfter, AbandonPressure, SelectActionNode, Stuck;
  }

  // Every action recorded on a screen with an intended element targets it.
  ghost predicate OnTarget(cfg: Config, e: Event) {
    e.kind.Acted? && e.screen.Some? && IntendedOn(cfg, e.screen.value).Some?
    ==> e.element == Some(IntendedOn(cfg, e.screen.value).value.id)
  }

  lemma ExecuteOnTarget(cfg: Config, m: Machine, e: Event)
    requires NodeInv(cfg, m) && m.node == ExecuteAction
    requires e in ExecuteNode(cfg.graph, m.state, m.state.action.value).events && e !in m.state.events
    ensures OnTarget(cfg, e)
  {
    ExecuteEvents(cfg.graph, m.state, m.state.action.value);
    hide ExecuteNode, IntendedElement;
  }

  lemma LoggedOnTarget(cfg: Config, s: State, t: State, e: Event)
    requires Logs(s, t) && e in t.events && e !in s.events
    ensures OnTarget(cfg, e)
  {}

  lemma {:induction false} ActionsOnTarget(cfg: Config, start: ScreenId, draws: nat -> Draw, k: nat, e: Event)
    requires e in Run(cfg, start, draws, k).state.events
    ensures OnTarget(cfg, e)
  {
    hide Step, OnTarget, NodeInv;
    if k > 0 {
      var m := Run(cfg, start, draws, k - 1);
      if e in m.state.events {
        ActionsOnTarget(cfg, start, draws, k - 1, e);
      } else {
        NodeAlways(cfg, start, draws, k - 1);
        NewOnTarget(cfg, m, draws(k - 1), e);
      }
    }
  }

  lemma NewOnTarget(cfg: Config, m: Machine, d: Draw, e: Event)
    requires NodeInv(cfg, m) && e in Step(cfg, m, d).state.events && e !in m.state.events
    ensures OnTarget(cfg, e)
  {
    if m.node == ExecuteAction {
      ExecuteOnTarget(cfg, m, e);
    } else if m.node != Orient {
      StepShape(cfg, m, d);
      LoggedOnTarget(cfg, m.state, Step(cfg, m, d).state, e);
    }
  }

  // ---- the intended element can be found and the scans still be exhausted ----

  const FOUND_ELEMENT := ElementView(0, "pay", "button", None, true)
  const OTHER_ELEMENT := ElementView(1, "logo", "image", None, false)
  const LONE_SCREEN := ScreenView(0, "cart", [FOUND_ELEMENT, OTHER_ELEMENT])
  const NO_CONDITION := SuccessConditions(Absent, Absent, Absent)

  function FindThenMiss(exp: Exp, scans: nat): Config {
    Config(ScreenGraph([LONE_SCREEN], []), Task(None, NO_CONDITION, {"pay", "confirm"}), 0.5, Random, exp, DEFAULT_MAX_STEPS, scans)
  }

  function FirstThenSecond(k: nat): Draw {
    Draw([], if k == 2 then 0.25 else 0.75, 0)
  }

  // Two equal scores share the unit interval evenly.
  lemma EvenPick(exp: Exp, roll: real)
    ensures Pick(exp, [0.0, 0.0], 0.25) == 0 && Pick(exp, [0.0, 0.0], 0.75) == 1
  {
    var scores := [0.0, 0.0];
    assert Weight(exp, scores, 0) == Weight(exp, scores, 1);
    CumulativeIsWhole(exp, scores);
    hide Share, Weight;
    assert Cumulative(exp, scores, 1) == 0.5;
  }

  // Still on the only screen, with nothing to go back to and no progress yet.
  ghost predicate OnCart(m: Machine, node: Node, scans: nat, step: nat) {
    m.node == node && m.state.current == 0 && m.state.history == [] && m.state.outcome == InProgress
    && m.state.scanCount == scans && m.state.step == step && m.state.uncertainty == 0.3 && m.state.deadEnds == step
  }

  lemma CartScreen(exp: Exp, n: nat)
    ensures var cfg := FindThenMiss(exp, n);
            cfg.graph.Screen(0) == Some(LONE_SCREEN)
            && IntendedElement(LONE_SCREEN.elements, cfg.task.critical) == Some(FOUND_ELEMENT)
            && LONE_SCREEN.Element(0) == Some(FOUND_ELEMENT)
  {
    assert "pay" in FOUND_ELEMENT.Names() * FindThenMiss(exp, n).task.critical;
  }

  lemma LookAt(cfg: Config, s: State, screen: ScreenView, d: Draw, at: nat, intended: ElementView)
    requires at < |screen.elements| && Pick(cfg.exp, d.Scores(|screen.elements|), d.roll) == at
    requires IntendedElement(screen.elements, cfg.task.critical) == Some(intended)
    ensures var t := AttendNode(cfg, s, screen, d);
            t == s.(attention := t.attention, events := t.events, sequenceNo := t.sequenceNo,
                    scanCount := s.scanCount + 1, intended := Some(intended.id), found := intended.id == screen.elements[at].id)
  {
    hide Pick, IntendedElement;
  }

  lemma CartLook(exp: Exp, n: nat, s: State, d: Draw)
    requires d.scores == [] && (d.roll == 0.25 || d.roll == 0.75)
    ensures var t := AttendNode(FindThenMiss(exp, n), s, LONE_SCREEN, d);
            t == s.(attention := t.attention, events := t.events, sequenceNo := t.sequenceNo,
                    scanCount := s.scanCount + 1, intended := Some(0), found := d.roll == 0.25)
  {
    hide Pick, IntendedElement, AttendNode;
    var at: nat := if d.roll == 0.25 then 0 else 1;
    assert Pick(exp, d.Scores(2), d.roll) == at by {
      assert d.Scores(2) == [0.0, 0.0];
      EvenPick(exp, d.roll);
    }
    CartScreen(exp, n);
    LookAt(FindThenMiss(exp, n), s, LONE_SCREEN, d, at, FOUND_ELEMENT);
  }

  // The first gaze finds the intended element, every later one misses it.
  lemma CartGaze(exp: Exp, n: nat, m: Machine, scans: nat, step: nat, k: nat)
    requires OnCart(m, Attend, scans, step)
    ensures var m' := Step(FindThenMiss(exp, n), m, FirstThenSecond(k));
            m'.state == m.state.(attention := m'.state.attention, events := m'.state.events, sequenceNo := m'.state.sequenceNo,
                                 scanCount := m.state.scanCount + 1, intended := Some(0), found := k == 2)
            && m'.node == if k == 2 then ActOnIntended else if scans + 1 >= n then ScanExhausted else Attend
  {
    CartScreen(exp, n);
    CartLook(exp, n, m.state, FirstThenSecond(k));
    hide AttendNode, IntendedElement, FirstScreen;
  }

  lemma CartAct(exp: Exp, n: nat, m: Machine, d: Draw)
    requires OnCart(m, ActOnIntended, 1, 0) && m.state.intended == Some(0)
    ensures Step(FindThenMiss(exp, n), m, d) == Machine(ExecuteAction, m.state.(action := Some(Action(Click, Some(0)))))
  {
    CartScreen(exp, n);
    hide IntendedElement;
  }

  lemma CartExecute(exp: Exp, n: nat, m: Machine, d: Draw)
    requires OnCart(m, ExecuteAction, 1, 0) && m.state.action == Some(Action(Click, Some(0))) && m.state.actionHistory == []
    ensures OnCart(Step(FindThenMiss(exp, n), m, d), UpdateState, 1, 1)
    ensures Step(FindThenMiss(exp, n), m, d).state.actionHistory == [Entry(Click, Some(0), 0)]
  {
    CartScreen(exp, n);
    hide IntendedElement;
  }

  lemma CartUpdate(exp: Exp, n: nat, m: Machine, d: Draw)
    requires OnCart(m, UpdateState, 1, 1) && m.state.actionHistory == [Entry(Click, Some(0), 0)]
    ensures OnCart(Step(FindThenMiss(exp, n), m, d), CheckTask, 1, 1)
    ensures Step(FindThenMiss(exp, n), m, d).state.progress < 1.0
  {
    var cfg := FindThenMiss(exp, n);
    var h := m.state.actionHistory;
    assert "confirm" !in Matched(cfg.graph, cfg.task.critical, h) by {
      assert forall i :: 0 <= i < |h| ==> NamesHit(cfg.graph, h[i]) == {"pay", ""};
    }
    hide Matched;
    MilestonesBounds(cfg, h);
    hide Milestones;
  }

  lemma CartCheck(exp: Exp, n: nat, m: Machine, d: Draw)
    requires OnCart(m, CheckTask, 1, 1) && m.state.progress < 1.0
    ensures OnCart(Step(FindThenMiss(exp, n), m, d), Perceive, 1, 1)
  {
    CartScreen(exp, n);
    assert FOUND_ELEMENT in LONE_SCREEN.elements && FOUND_ELEMENT.interactable;
    hide IntendedElement;
  }

  lemma QuietSince(cfg: Config, m: Machine, d: Draw)
    requires m.node != Orient && m.node != ExecuteAction
    ensures ActionsSinceEnter(Step(cfg, m, d).state.events) == ActionsSinceEnter(m.state.events)
  {
    StepShape(cfg, m, d);
    hide Step;
    var t := Step(cfg, m, d).state;
    if t.events != m.state.events { AppendSince(m.state.events, t.events[|m.state.events|], 0); }
  }

  lemma CartLoop(exp: Exp, n: nat, m: Machine)
    requires OnCart(m, Attend, 0, 0) && m.state.actionHistory == []
    ensures var cfg, d := FindThenMiss(exp, n), FirstThenSecond;
            var m5 := Step(cfg, Step(cfg, Step(cfg, m, d(2)), d(3)), d(4));
            OnCart(m5, UpdateState, 1, 1) && m5.state.actionHistory == [Entry(Click, Some(0), 0)]
            && ActionsSinceEnter(m5.state.events) == ActionsSinceEnter(m.state.events) + 1
  {
    var cfg, d := FindThenMiss(exp, n), FirstThenSecond;
    var m3 := Step(cfg, m, d(2));
    var m4 := Step(cfg, m3, d(3));
    CartGaze(exp, n, m, 0, 0, 2);
    QuietSince(cfg, m, d(2));
    CartAct(exp, n, m3, d(3));
    CartExecute(exp, n, m4, d(4));
    ExecuteSince(cfg.graph, m4.state, Action(Click, Some(0)), 0);
    assert Step(cfg, m4, d(4)) == Machine(UpdateState, ExecuteNode(cfg.graph, m4.state, Action(Click, Some(0)))) by {
      CartScreen(exp, n);
      hide ExecuteNode, IntendedElement;
    }
    hide Step, ExecuteNode;
  }

  lemma CartAgain(exp: Exp, n: nat, m: Machine)
    requires OnCart(m, UpdateState, 1, 1) && m.state.actionHistory == [Entry(Click, Some(0), 0)]
    ensures var cfg, d := FindThenMiss(exp, n), FirstThenSecond;
            var m8 := Step(cfg, Step(cfg, Step(cfg, m, d(5)), d(6)), d(7));
            OnCart(m8, Attend, 1, 1) && ActionsSinceEnter(m8.state.events) == ActionsSinceEnter(m.state.events)
  {
    var cfg, d := FindThenMiss(exp, n), FirstThenSecond;
    var m6 := Step(cfg, m, d(5));
    var m7 := Step(cfg, m6, d(6));
    var m8 := Step(cfg, m7, d(7));
    CartUpdate(exp, n, m, d(5));
    CartCheck(exp, n, m6, d(6));
    CartScreen(exp, n);
    assert m8 == Machine(Attend, m7.state);
    QuietSince(cfg, m, d(5));
    QuietSince(cfg, m6, d(6));
    hide Step, IntendedElement;
  }

  lemma CartMiss(exp: Exp, n: nat, scans: nat, m: Machine, k: nat)
    requires OnCart(m, Attend, scans, 1) && k > 2
    ensures var m' := Step(FindThenMiss(exp, n), m, FirstThenSecond(k));
            && (if scans + 1 >= n then m'.node == ScanExhausted && m'.state.current == 0 else OnCart(m', Attend, scans + 1, 1))
            && ActionsSinceEnter(m'.state.events) == ActionsSinceEnter(m.state.events)
  {
    CartGaze(exp, n, m, scans, 1, k);
    QuietSince(FindThenMiss(exp, n), m, FirstThenSecond(k));
    hide Step;
  }

  // Misses until the scans are used up.
  lemma {:induction false} CartWaits(exp: Exp, n: nat, scans: nat, k: nat)
    requires k >= 8 && scans >= 1
    requires var m := Run(FindThenMiss(exp, n), 0, FirstThenSecond, k);
             OnCart(m, Attend, scans, 1) && ActionsSinceEnter(m.state.events) >= 1
    ensures var m := Run(FindThenMiss(exp, n), 0, FirstThenSecond, k + if scans + 1 >= n then 1 else n - scans);
            m.node == ScanExhausted && m.state.current == 0 && ActionsSinceEnter(m.state.events) >= 1
    decreases n - scans
  {
    hide Step, FindThenMiss, FirstThenSecond;
    var cfg, d := FindThenMiss(exp, n), FirstThenSecond;
    var m := Run(cfg, 0, d, k);
    assert Run(cfg, 0, d, k + 1) == Step(cfg, m, d(k));
    CartMiss(exp, n, scans, m, k);
    hide Run, OnCart;
    if scans + 1 < n {
      CartWaits(exp, n, scans + 1, k + 1);
    }
  }

  // After eight visits: found, acted on, and about to look again.
  lemma CartPrelude(exp: Exp, n: nat)
    ensures var m := Run(FindThenMiss(exp, n), 0, FirstThenSecond, 8);
            OnCart(m, Attend, 1, 1) && ActionsSinceEnter(m.state.events) >= 1
  {
    var cfg, d := FindThenMiss(exp, n), FirstThenSecond;
    CartScreen(exp, n);
    var m2 := Run(cfg, 0, d, 2);
    assert OnCart(m2, Attend, 0, 0) && m2.state.actionHistory == [] by {
      assert Run(cfg, 0, d, 1) == Machine(Perceive, OrientNode(InitialState(0)));
      hide IntendedElement;
    }
    CartLoop(exp, n, m2);
    hide Step, IntendedElement, OnCart;
    assert Run(cfg, 0, d, 3) == Step(cfg, m2, d(2));
    assert Run(cfg, 0, d, 4) == Step(cfg, Run(cfg, 0, d, 3), d(3));
    var m5 := Run(cfg, 0, d, 5);
    assert m5 == Step(cfg, Run(cfg, 0, d, 4), d(4));
    CartAgain(exp, n, m5);
    assert Run(cfg, 0, d, 6) == Step(cfg, m5, d(5));
    assert Run(cfg, 0, d, 7) == Step(cfg, Run(cfg, 0, d, 6), d(6));
    assert Run(cfg, 0, d, 8) == Step(cfg, Run(cfg, 0, d, 7), d(7));
  }

  // Whatever the number of scans allowed, a run can give up for want of the
  // intended element after having looked at it and acted on it: the click led
  // nowhere and every later gaze missed.
  lemma FoundYetExhausted(exp: Exp, n: nat)
    requires n >= 1
    ensures var m := Run(FindThenMiss(exp, n), 0, FirstThenSecond, if n <= 2 then 9 else n + 7);
            m.node == ScanExhausted && IntendedOn(FindThenMiss(exp, n), m.state.current) == Some(FOUND_ELEMENT)
            && HitsSinceEnter(m.state.events, FOUND_ELEMENT.id) > 0
            && Seen(m.state.events, m.state.current, FOUND_ELEMENT.id)
  {
    CartScreen(exp, n);
    hide Step, IntendedElement, OnCart, Run;
    CartPrelude(exp, n);
    CartWaits(exp, n, 1, 8);
    CartSeen(exp, n, if n <= 2 then 9 else n + 7);
  }

  lemma CartSeen(exp: Exp, n: nat, k: nat)
    requires var m := Run(FindThenMiss(exp, n), 0, FirstThenSecond, k);
             m.node == ScanExhausted && m.state.current == 0 && ActionsSinceEnter(m.state.events) >= 1
    ensures var m := Run(FindThenMiss(exp, n), 0, FirstThenSecond, k);
            HitsSinceEnter(m.state.events, FOUND_ELEMENT.id) > 0 && Seen(m.state.events, 0, FOUND_ELEMENT.id)
  {
    var es := Run(FindThenMiss(exp, n), 0, FirstThenSecond, k).state.events;
    CartScreen(exp, n);
    ExhaustionMeans(FindThenMiss(exp, n), 0, FirstThenSecond, k);
    LogAlways(FindThenMiss(exp, n), 0, FirstThenSecond, k);
    hide Run, IntendedElement;
    ActedSince(es);
  }

  // An action since the last entry was performed on the screen entered.
  lemma {:induction false} ActedSince(es: seq<Event>)
    requires Placed(es) && ActionsSinceEnter(es) > 0 && LastEnter(es).Some?
    ensures ActedOn(es, LastEnter(es).value)
  {
    var init, e := es[..|es| - 1], es[|es| - 1];
    if !e.kind.Acted? {
      ActedSince(init);
      var i :| 0 <= i < |init| && init[i].kind.Acted? && init[i].screen == Some(LastEnter(init).value);
      assert es[i] == init[i];
    }
  }
}
