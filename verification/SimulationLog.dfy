/** What every run writes to its event log, whatever the scores and draws. */
module SimulationLog {
  import opened Domain
  import opened Sampling
  import opened SimulationGraph
  import opened EventLog

  // The three events an action can leave behind.
  lemma ExecuteEvents(g: ScreenGraph, s: State, a: Action)
    ensures var t := ExecuteNode(g, s, a);
            t.events == s.events + [ActionEvent(s, a)]
                        + (if t.current == s.current then [] else
                             [Event(s.sequenceNo + 1, ScreenExit, Some(s.current), None, None, Nothing),
                              Event(s.sequenceNo + 2, ScreenEnter, Some(t.current), None, None, Nothing)])
    ensures var t := ExecuteNode(g, s, a);
            && t.sequenceNo == s.sequenceNo + |t.events| - |s.events|
            && t.outcome == s.outcome && t.reason == s.reason
  {
  }

  // Only executing an action changes where the participant is.
  ghost predicate SameWorld(s: State, t: State) {
    && t.current == s.current && t.history == s.history && t.actionHistory == s.actionHistory
    && t.step == s.step && t.deadEnds == s.deadEnds && t.backtracks == s.backtracks
  }

  // At most one event is added, numbered next, and a gaze is on the current screen.
  ghost predicate Logs(s: State, t: State) {
    (t.events == s.events && t.sequenceNo == s.sequenceNo)
    || (|t.events| == |s.events| + 1
        && var e := t.events[|s.events|];
           t.events == s.events + [e] && t.sequenceNo == s.sequenceNo + 1
           && e.sequenceNo == s.sequenceNo && e.kind != ScreenEnter && !e.kind.Acted?
           && (e.kind == Gaze ==> e.screen == Some(s.current)))
  }

  lemma StepWorld(cfg: Config, m: Machine, d: Draw)
    requires m.node != Orient && m.node != ExecuteAction
    ensures SameWorld(m.state, Step(cfg, m, d).state) && Step(cfg, m, d).node != Orient
  {
    hide Pick, ProgressOf, UncertaintyAfter, AbandonPressure, IntendedElement, SelectActionNode, Stuck;
  }

  lemma StepLogs(cfg: Config, m: Machine, d: Draw)
    requires m.node != Orient && m.node != ExecuteAction
    ensures Logs(m.state, Step(cfg, m, d).state)
  {
    if m.node == Attend {
      hide Pick, IntendedElement;
    } else if m.node == CheckTask {
      hide AbandonPressure, Stuck;
    } else {
      hide ProgressOf, UncertaintyAfter, SelectActionNode;
    }
  }

  lemma StepShape(cfg: Config, m: Machine, d: Draw)
    requires m.node != Orient && m.node != ExecuteAction
    ensures SameWorld(m.state, Step(cfg, m, d).state)
    ensures Logs(m.state, Step(cfg, m, d).state)
    ensures Step(cfg, m, d).node != Orient
  {
    hide Step, SameWorld, Logs;
    StepWorld(cfg, m, d);
    StepLogs(cfg, m, d);
  }

  ghost predicate LogInv(m: Machine) {
    && m.state.sequenceNo == |m.state.events|
    && Sound(m.state.events)
    && (m.node == Orient ==> m.state.events == [])
    && (m.node != Orient ==> LastEnter(m.state.events) == Some(m.state.current))
    && Actions(m.state.events) == m.state.step == |m.state.actionHistory|
  }

  lemma EmitKeeps(m: Machine, e: Event)
    requires LogInv(m) && m.node != Orient && e.sequenceNo == m.state.sequenceNo
    requires e.kind != ScreenEnter && !e.kind.Acted?
    requires e.kind == Gaze ==> e.screen == Some(m.state.current)
    ensures LogInv(m.(state := Emit(m.state, e)))
  {
    hide Sound;
    Append(m.state.events, e);
    AppendSound(m.state.events, e);
  }

  // The log after one action on the screen entered last.
  lemma ExecuteLog(g: ScreenGraph, s: State, a: Action)
    requires Sound(s.events) && s.sequenceNo == |s.events| && LastEnter(s.events) == Some(s.current)
    ensures var t := ExecuteNode(g, s, a);
            Sound(t.events) && LastEnter(t.events) == Some(t.current) && Actions(t.events) == Actions(s.events) + 1
  {
    var t := ExecuteNode(g, s, a);
    ExecuteEvents(g, s, a);
    hide ExecuteNode, Sound;
    var acted := s.events + [ActionEvent(s, a)];
    Append(s.events, ActionEvent(s, a));
    AppendSound(s.events, ActionEvent(s, a));
    if t.current == s.current {
      assert t.events == acted;
    } else {
      var exit := Event(s.sequenceNo + 1, ScreenExit, Some(s.current), None, None, Nothing);
      var enter := Event(s.sequenceNo + 2, ScreenEnter, Some(t.current), None, None, Nothing);
      assert t.events == acted + [exit] + [enter];
      Append(acted, exit);
      AppendSound(acted, exit);
      Append(acted + [exit], enter);
      AppendSound(acted + [exit], enter);
    }
  }

  lemma ExecuteKeeps(cfg: Config, m: Machine, a: Action)
    requires LogInv(m) && m.node == ExecuteAction
    ensures LogInv(Machine(UpdateState, ExecuteNode(cfg.graph, m.state, a)))
  {
    ExecuteLog(cfg.graph, m.state, a);
    ExecuteEvents(cfg.graph, m.state, a);
    var t := ExecuteNode(cfg.graph, m.state, a);
    assert t.step == m.state.step + 1 && |t.actionHistory| == |m.state.actionHistory| + 1;
    hide ExecuteNode, Sound;
  }

  lemma OrientLog(s: State)
    requires LogInv(Machine(Orient, s))
    ensures LogInv(Machine(Perceive, OrientNode(s)))
  {
    hide Sound;
    var e := MakeEvent(s, ScreenEnter, Some(s.current), Nothing);
    Append(s.events, e);
    AppendSound(s.events, e);
  }

  lemma QuietLog(m: Machine, t: Machine)
    requires LogInv(m) && m.node != Orient && t.node != Orient
    requires SameWorld(m.state, t.state) && Logs(m.state, t.state)
    ensures LogInv(t)
  {
    if t.state.events != m.state.events { EmitKeeps(m, t.state.events[|m.state.events|]); }
    hide Sound;
  }

  lemma StepKeepsLog(cfg: Config, m: Machine, d: Draw)
    requires LogInv(m)
    ensures LogInv(Step(cfg, m, d))
  {
    if m.node == Orient {
      OrientLog(m.state);
      hide LogInv;
    } else if m.node == ExecuteAction {
      if Step(cfg, m, d).node != Raised { ExecuteKeeps(cfg, m, m.state.action.value); }
      hide Sound, ExecuteNode;
    } else {
      StepShape(cfg, m, d);
      QuietLog(m, Step(cfg, m, d));
      hide Step, LogInv;
    }
  }

  // At every moment of every run: event i has sequence number i, gazes and
  // actions sit on the screen entered last before them, the last screen entered
  // is the current one, and there is one action event for each step taken.
  lemma {:induction false} LogAlways(cfg: Config, start: ScreenId, draws: nat -> Draw, k: nat)
    ensures LogInv(Run(cfg, start, draws, k))
  {
    hide Step;
    if k > 0 {
      LogAlways(cfg, start, draws, k - 1);
      StepKeepsLog(cfg, Run(cfg, start, draws, k - 1), draws(k - 1));
    }
  }

  // The event kind that announces an outcome.
  function Announces(outcome: Outcome): EventKind
    requires outcome != InProgress
  {
    match outcome
    case Completed => TaskSuccess
    case Failed => TaskFailure
    case Abandoned => Abandon
  }

  ghost predicate Quiet(es: seq<Event>) {
    forall e :: e in es ==> !Terminal(e.kind)
  }

  ghost predicate OutcomeInv(cfg: Config, start: ScreenId, m: Machine) {
    var s := m.state;
    && (m.node != End ==> s.outcome == InProgress && s.reason == None && Quiet(s.events))
    && (m.node == End ==> s.outcome != InProgress)
    && (m.node == End && s.reason == Some(ScreenNotFound) ==> s.outcome == Failed && Quiet(s.events))
    && (m.node == End && s.reason != Some(ScreenNotFound) ==>
          && s.events != []
          && Quiet(s.events[..|s.events| - 1])
          && var last := s.events[|s.events| - 1];
             last.kind == Announces(s.outcome)
             && last.payload == (if s.reason.Some? then Because(s.reason.value) else Progress(1.0)))
    && (m.node == End ==> (s.reason.None? <==> s.outcome == Completed))
  }

  // Before the check nothing ends the run or announces an end.
  lemma StaysQuiet(cfg: Config, m: Machine, d: Draw)
    requires Quiet(m.state.events) && m.node !in {Perceive, CheckTask, ScanExhausted, End}
    ensures var m' := Step(cfg, m, d);
            Quiet(m'.state.events) && m'.node != End && m'.state.reason == m.state.reason
            && (m'.state.outcome == m.state.outcome || m'.state.outcome == InProgress)
  {
    hide Pick, ProgressOf, UncertaintyAfter, IntendedElement, SelectActionNode, ExecuteNode;
    if m.node == ExecuteAction && Step(cfg, m, d).node != Raised { ExecuteEvents(cfg.graph, m.state, m.state.action.value); }
  }

  lemma StepKeepsOutcome(cfg: Config, start: ScreenId, m: Machine, d: Draw)
    requires OutcomeInv(cfg, start, m)
    ensures OutcomeInv(cfg, start, Step(cfg, m, d))
  {
    if m.node !in {Perceive, CheckTask, ScanExhausted, End} {
      StaysQuiet(cfg, m, d);
      hide Step;
    } else {
      hide ProgressOf, AbandonPressure, Stuck;
      var m' := Step(cfg, m, d);
      if m'.node == End && m.node in {CheckTask, ScanExhausted} {
        assert m'.state.events[..|m.state.events|] == m.state.events;
      }
    }
  }

  // A run that ends has an outcome; unless its start screen was missing, the
  // outcome and its reason are announced by the last event and by no other.
  lemma {:induction false} OutcomeAlways(cfg: Config, start: ScreenId, draws: nat -> Draw, k: nat)
    ensures OutcomeInv(cfg, start, Run(cfg, start, draws, k))
  {
    hide Step;
    if k > 0 {
      OutcomeAlways(cfg, start, draws, k - 1);
      StepKeepsOutcome(cfg, start, Run(cfg, start, draws, k - 1), draws(k - 1));
    }
  }
}
