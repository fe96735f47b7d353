/** The loops of the simulation engine: resolving the intended element,
    evaluating the task over the action history, and driving the nodes. */
module SimulationRunner {
  import opened Domain
  import opened Sampling
  import opened SimulationGraph
  import opened SimulationLog
  import opened SimulationWalk
  import opened SimulationBounds

  method IntendedElementForScreen(elements: seq<ElementView>, critical: set<string>) returns (r: Option<ElementView>)
    ensures r == IntendedElement(elements, critical)
  {
    if critical == {} {
      NothingIntended(elements);
      return None;
    }
    for i := 0 to |elements|
      invariant IntendedElement(elements, critical) == IntendedElement(elements[i..], critical)
    {
      if elements[i].Critical(critical) {
        return Some(elements[i]);
      }
    }
    return None;
  }

  lemma {:induction false} NothingIntended(elements: seq<ElementView>)
    ensures IntendedElement(elements, {}) == None
  {
    if elements != [] {
      NothingIntended(elements[1..]);
      assert elements[0].Names() * {} == {};
    }
  }

  method SuccessConditionMet(g: ScreenGraph, success: SuccessConditions, current: ScreenId, history: seq<Entry>)
    returns (met: bool)
    ensures met <==> SuccessMet(g, success, current, history)
  {
    hide EntryElement;
    if !success.Recognized() {
      return false;
    }
    if success.screenKey.Value? && g.Known(current) && g.Screen(current).value.screenKey == success.screenKey.text {
      return true;
    }
    for i := 0 to |history|
      invariant forall j :: 0 <= j < i ==> !EntrySatisfies(g, success, history[j])
    {
      var e := EntryElement(g, history[i]);
      if e.Some? {
        if success.elementKey.Value? && e.value.elementKey == success.elementKey.text {
          assert EntrySatisfies(g, success, history[i]);
          return true;
        }
        if success.semanticRole.Value? && e.value.semanticRole == Some(success.semanticRole.text) {
          assert EntrySatisfies(g, success, history[i]);
          return true;
        }
      }
    }
    return false;
  }

  method MatchedCritical(g: ScreenGraph, critical: set<string>, history: seq<Entry>) returns (matched: set<string>)
    ensures matched == Matched(g, critical, history)
  {
    hide NamesHit;
    matched := {};
    for i := 0 to |history|
      invariant matched == Matched(g, critical, history[..i])
    {
      var hit := NamesHit(g, history[i]);
      MatchedGrows(g, critical, history[..i], history[i]);
      assert history[..i + 1] == history[..i] + [history[i]];
      matched := matched + hit * critical;
    }
    assert history[..|history|] == history;
  }

  lemma MatchedGrows(g: ScreenGraph, critical: set<string>, h: seq<Entry>, e: Entry)
    ensures Matched(g, critical, h + [e]) == Matched(g, critical, h) + NamesHit(g, e) * critical
  {
    hide NamesHit;
    forall c | c in Matched(g, critical, h)
      ensures c in Matched(g, critical, h + [e])
    {
      var i :| 0 <= i < |h| && c in NamesHit(g, h[i]);
      assert (h + [e])[i] == h[i];
    }
    forall c | c in NamesHit(g, e) * critical
      ensures c in Matched(g, critical, h + [e])
    {
      assert (h + [e])[|h|] == e;
    }
  }

  method EvaluateProgress(cfg: Config, s: State) returns (progress: real)
    ensures progress == ProgressOf(cfg, s)
  {
    hide Matched, SuccessMet;
    var met := SuccessConditionMet(cfg.graph, cfg.task.success, s.current, s.actionHistory);
    if met {
      progress := 1.0;
    } else if cfg.task.critical != {} {
      var matched := MatchedCritical(cfg.graph, cfg.task.critical, s.actionHistory);
      var raw := Ratio(|matched|, |cfg.task.critical|);
      progress := if cfg.task.success.Recognized() then Min(raw, 0.99) else raw;
    } else {
      progress := Exploration(s);
    }
  }

  // Attending to a known screen, with the sampling and the search spelled out.
  method Look(cfg: Config, s: State, screen: ScreenView, d: Draw) returns (t: State)
    ensures t == AttendNode(cfg, s, screen, d)
  {
    hide Pick, IntendedElement;
    var scores := d.Scores(|screen.elements|);
    var sampled := SoftmaxSample(cfg.exp, scores, d.roll);
    var intended := IntendedElementForScreen(screen.elements, cfg.task.critical);
    var intendedId := if intended.Some? then Some(intended.value.id) else None;
    var scans := if intended.Some? then s.scanCount + 1 else s.scanCount;
    t := s.(attention := Some(scores), scanCount := scans, intended := intendedId, found := false);
    if sampled.Some? {
      var gazed := screen.elements[sampled.value].id;
      t := Emit(t, Event(s.sequenceNo, Gaze, Some(screen.id), Some(gazed), Some(d.duration), Gazed(scores[sampled.value], scans)));
      t := t.(found := intendedId == Some(gazed));
    }
  }

  // The search for the transition a click triggers.
  method FirstTransition(transitions: seq<Transition>, sid: ScreenId, eid: ElementId) returns (r: Option<Transition>)
    ensures r == Lookup(transitions, sid, eid)
  {
    for i := 0 to |transitions|
      invariant forall j :: 0 <= j < i ==> !(transitions[j].from == sid && transitions[j].trigger == eid)
    {
      if transitions[i].from == sid && transitions[i].trigger == eid {
        LookupIsFirst(transitions, sid, eid, i);
        return Some(transitions[i]);
      }
    }
    return None;
  }

  // Performing an action: its event, where it leads, the change of screens.
  method PerformAction(g: ScreenGraph, s: State, a: Action) returns (t: State)
    ensures t == ExecuteNode(g, s, a)
  {
    hide Lookup;
    var events := s.events + [Event(s.sequenceNo, Acted(a.action), Some(s.current), a.target, None, Nothing)];
    var sequenceNo := s.sequenceNo + 1;
    var history, deadEnds, backtracks, next := s.history, s.deadEnds, s.backtracks, s.current;
    if a.action == Back {
      if history != [] {
        next, history := history[|history| - 1], history[..|history| - 1];
        backtracks := backtracks + 1;
      }
    } else if a.target.Some? && (a.action == Click || a.action == Tap || a.action == Open || a.action == Select) {
      var transition := FirstTransition(g.transitions, s.current, a.target.value);
      if transition.Some? {
        history, next := history + [s.current], transition.value.to;
      } else {
        deadEnds := deadEnds + 1;
      }
    }
    if next != s.current {
      events := events + [Event(sequenceNo, ScreenExit, Some(s.current), None, None, Nothing)];
      sequenceNo := sequenceNo + 1;
      events := events + [Event(sequenceNo, ScreenEnter, Some(next), None, None, Nothing)];
      sequenceNo := sequenceNo + 1;
    }
    t := s.(events := events, sequenceNo := sequenceNo, history := history, deadEnds := deadEnds, backtracks := backtracks,
            current := next, actionHistory := s.actionHistory + [Entry(a.action, a.target, s.step)], step := s.step + 1,
            scanCount := if next != s.current then 0 else s.scanCount);
  }

  method AnyInteractable(elements: seq<ElementView>) returns (any: bool)
    ensures any <==> exists e :: e in elements && e.interactable
  {
    for i := 0 to |elements|
      invariant forall j :: 0 <= j < i ==> !elements[j].interactable
    {
      if elements[i].interactable {
        return true;
      }
    }
    return false;
  }

  // The decision whether and how the run ends here.
  method DecideOutcome(cfg: Config, s: State) returns (r: Machine)
    ensures r == CheckNode(cfg, s)
  {
    hide AbandonPressure;
    var outcome, reason, events, sequenceNo := InProgress, None, s.events, s.sequenceNo;
    if s.progress >= 1.0 {
      outcome := Completed;
      events := events + [Event(sequenceNo, TaskSuccess, None, None, None, Progress(1.0))];
      sequenceNo := sequenceNo + 1;
    } else if s.step >= cfg.maxSteps {
      outcome, reason := Abandoned, Some(MaxStepsExceeded);
      events := events + [Event(sequenceNo, Abandon, None, None, None, Because(MaxStepsExceeded))];
      sequenceNo := sequenceNo + 1;
    } else {
      var screen := cfg.graph.Screen(s.current);
      if screen.None? {
        return Machine(Raised, s);
      }
      var any := AnyInteractable(screen.value.elements);
      if !any && s.history == [] {
        outcome, reason := Failed, Some(DeadEndNoActions);
        events := events + [Event(sequenceNo, TaskFailure, None, None, None, Because(DeadEndNoActions))];
        sequenceNo := sequenceNo + 1;
      } else {
        var pressure := AbandonPressure(s.uncertainty, cfg.patience, s.deadEnds);
        if pressure > 0.75 && s.step > 5 {
          outcome, reason := Abandoned, Some(LowPatienceHighUncertainty);
          events := events + [Event(sequenceNo, Abandon, None, None, None, Because(LowPatienceHighUncertainty))];
          sequenceNo := sequenceNo + 1;
        }
      }
    }
    r := Machine(if outcome == InProgress then Perceive else End,
                 s.(outcome := outcome, reason := reason, events := events, sequenceNo := sequenceNo));
  }

  method RecordProgress(cfg: Config, s: State) returns (t: State)
    ensures t == UpdateNode(cfg, s)
  {
    hide ProgressOf;
    var progress := EvaluateProgress(cfg, s);
    t := s;
    if progress - s.progress > 0.01 || s.progress - progress > 0.01 {
      t := Emit(t, MakeEvent(s, TaskProgress, None, Progress(progress)));
    }
    t := t.(progress := progress);
  }

  // The nodes that read the current screen.
  method VisitScreen(cfg: Config, m: Machine, screen: ScreenView, d: Draw) returns (r: Machine)
    requires cfg.graph.Screen(m.state.current) == Some(screen)
    requires m.node in {Attend, ActOnIntended, SelectAction, ExecuteAction}
    ensures r == Step(cfg, m, d)
  {
    hide AttendNode, Pick, ActionCandidates, ExecuteNode, DefaultAction, FirstScreen, FirstElement, RouteAfterAttend;
    var s := m.state;
    if m.node == Attend {
      var looked := Look(cfg, s, screen, d);
      r := Machine(RouteAfterAttend(cfg, looked), looked);
    } else if m.node == ActOnIntended {
      if s.intended.None? || screen.Element(s.intended.value).None? {
        return Machine(Raised, s);
      }
      var e := screen.Element(s.intended.value).value;
      r := Machine(ExecuteAction, s.(action := Some(Action(DefaultAction(e), Some(e.id)))));
    } else if m.node == SelectAction {
      var candidates := ActionCandidates(cfg, s, screen);
      var chosen := SoftmaxSample(cfg.exp, d.Scores(|candidates|), d.roll);
      r := Machine(ExecuteAction, s.(action := Some(candidates[chosen.value])));
    } else {
      if s.action.None? {
        return Machine(Raised, s);
      }
      var acted := PerformAction(cfg.graph, s, s.action.value);
      r := Machine(UpdateState, acted);
    }
  }

  method VisitNode(cfg: Config, m: Machine, d: Draw) returns (r: Machine)
    ensures r == Step(cfg, m, d)
  {
    hide AttendNode, UpdateNode, CheckNode, Pick, ActionCandidates, ExecuteNode, UncertaintyAfter, FirstScreen, FirstElement;
    var s := m.state;
    var screen := cfg.graph.Screen(s.current);
    match m.node {
      case Orient =>
        r := Machine(Perceive, Emit(s, MakeEvent(s, ScreenEnter, Some(s.current), Nothing)).(outcome := InProgress));
      case Perceive =>
        if screen.None? {
          s := s.(outcome := Failed, reason := Some(ScreenNotFound));
        }
        r := Machine(if s.outcome != InProgress then End else Attend, s);
      case ScanExhausted =>
        s := Emit(s, MakeEvent(s, Abandon, Some(s.current), Because(IntendedActionNotDiscovered)));
        r := Machine(End, s.(outcome := Abandoned, reason := Some(IntendedActionNotDiscovered)));
      case Interpret =>
        r := Machine(SelectAction, s.(uncertainty := UncertaintyAfter(s.attention, s.uncertainty)));
      case UpdateState =>
        s := RecordProgress(cfg, s);
        r := Machine(CheckTask, s);
      case CheckTask =>
        r := DecideOutcome(cfg, s);
      case End =>
        r := m;
      case Raised =>
        r := m;
      case _ =>
        if screen.None? {
          r := Machine(Raised, s);
        } else {
          r := VisitScreen(cfg, m, screen.value, d);
        }
    }
  }

  // Drives the nodes until the graph ends. The run takes the first halting
  // visit, stays within the bound, and so never meets the recursion limit.
  method RunSimulation(cfg: Config, start: ScreenId, draws: nat -> Draw) returns (final: Machine, visits: nat)
    ensures final == Run(cfg, start, draws, visits) && final.Halted()
    ensures forall j: nat :: j < visits ==> !Run(cfg, start, draws, j).Halted()
    ensures visits <= VisitBound(cfg)
    ensures cfg.maxSteps >= 1 ==> visits < RecursionLimit(cfg)
    ensures cfg.graph.Closed() ==> final.node == End && final.state.outcome != InProgress
  {
    hide Step, Rank;
    final, visits := Initial(start), 0;
    InitialRank(cfg, start);
    while !final.Halted()
      invariant final == Run(cfg, start, draws, visits)
      invariant forall j: nat :: j < visits ==> !Run(cfg, start, draws, j).Halted()
      invariant BoundInv(cfg, final) && NodeInv(cfg, final)
      invariant 0 <= Rank(cfg, final) && Rank(cfg, final) + visits <= VisitBound(cfg)
      decreases Rank(cfg, final)
    {
      RankFalls(cfg, final, draws(visits));
      StepKeepsNode(cfg, final, draws(visits));
      final := VisitNode(cfg, final, draws(visits));
      visits := visits + 1;
    }
    if cfg.maxSteps >= 1 { BelowRecursionLimit(cfg); }
    OutcomeAlways(cfg, start, draws, visits);
    if cfg.graph.Closed() { NeverRaises(cfg, start, draws, visits); }
  }
}
