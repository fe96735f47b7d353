/** The counters of a run against its log: transitions followed, dead ends met,
    scans numbered; and what each way of ending a run means. */
module SimulationBookkeeping {
  import opened Domain
  import opened Sampling
  import opened SimulationGraph
  import opened EventLog
  import opened SimulationLog
  import opened SimulationWalk
  import opened SimulationScan
  import opened SimulationBounds

  // ---- clicks that lead somewhere, and clicks that lead nowhere ----

  predicate Clicked(e: Event) {
    e.kind.Acted? && e.kind.action in {Click, Tap, Open, Select} && e.screen.Some? && e.element.Some?
  }

  predicate Leads(ts: seq<Transition>, e: Event) {
    Clicked(e) && exists t :: t in ts && t.from == e.screen.value && t.trigger == e.element.value
  }

  // Clicks in the log whose element triggers a stored transition of its screen.
  function Followed(ts: seq<Transition>, es: seq<Event>): nat {
    if es == [] then 0 else Followed(ts, es[..|es| - 1]) + if Leads(ts, es[|es| - 1]) then 1 else 0
  }

  // Clicks in the log whose element triggers none.
  function Missed(ts: seq<Transition>, es: seq<Event>): nat {
    if es == [] then 0
    else Missed(ts, es[..|es| - 1]) + if Clicked(es[|es| - 1]) && !Leads(ts, es[|es| - 1]) then 1 else 0
  }

  function Backs(es: seq<Event>): nat {
    if es == [] then 0 else Backs(es[..|es| - 1]) + if es[|es| - 1].kind == Acted(Back) then 1 else 0
  }

  ghost predicate BookInv(ts: seq<Transition>, s: State) {
    && Followed(ts, s.events) == |s.history| + s.backtracks
    && Missed(ts, s.events) == s.deadEnds
    && s.backtracks <= Backs(s.events)
    && Followed(ts, s.events) + Missed(ts, s.events) + Backs(s.events) <= Actions(s.events)
  }

  lemma AppendBook(ts: seq<Transition>, es: seq<Event>, e: Event)
    ensures Followed(ts, es + [e]) == Followed(ts, es) + if Leads(ts, e) then 1 else 0
    ensures Missed(ts, es + [e]) == Missed(ts, es) + if Clicked(e) && !Leads(ts, e) then 1 else 0
    ensures Backs(es + [e]) == Backs(es) + if e.kind == Acted(Back) then 1 else 0
    ensures Actions(es + [e]) == Actions(es) + if e.kind.Acted? then 1 else 0
    ensures Leads(ts, e) ==> Clicked(e)
    ensures Clicked(e) ==> e.kind.Acted? && e.kind != Acted(Back)
  {
    assert (es + [e])[..|es|] == es;
  }

  // One action's effect on the counters.
  lemma ExecuteCounts(g: ScreenGraph, s: State, a: Action)
    ensures var t, e := ExecuteNode(g, s, a), ActionEvent(s, a);
            && |t.history| + t.backtracks == |s.history| + s.backtracks + (if Leads(g.transitions, e) then 1 else 0)
            && t.deadEnds == s.deadEnds + (if Clicked(e) && !Leads(g.transitions, e) then 1 else 0)
            && t.backtracks <= s.backtracks + (if e.kind == Acted(Back) then 1 else 0)
  {
    if Navigates(a) {
      var edge := Lookup(g.transitions, s.current, a.target.value);
      hide Lookup;
      assert Leads(g.transitions, ActionEvent(s, a)) <==> edge.Some?;
    }
    hide Leads;
  }

  lemma ExecuteKeepsBook(g: ScreenGraph, s: State, a: Action)
    requires BookInv(g.transitions, s)
    ensures BookInv(g.transitions, ExecuteNode(g, s, a))
  {
    var ts := g.transitions;
    var t := ExecuteNode(g, s, a);
    ExecuteEvents(g, s, a);
    var e := ActionEvent(s, a);
    var acted := s.events + [e];
    ExecuteCounts(g, s, a);
    hide ExecuteNode, Leads, Clicked;
    AppendBook(ts, s.events, e);
    if t.current == s.current {
      assert t.events == acted;
    } else {
      var exit := Event(s.sequenceNo + 1, ScreenExit, Some(s.current), None, None, Nothing);
      var enter := Event(s.sequenceNo + 2, ScreenEnter, Some(t.current), None, None, Nothing);
      assert t.events == acted + [exit] + [enter];
      AppendBook(ts, acted, exit);
      AppendBook(ts, acted + [exit], enter);
    }
  }

  lemma StepKeepsBook(cfg: Config, m: Machine, d: Draw)
    requires BookInv(cfg.graph.transitions, m.state)
    ensures BookInv(cfg.graph.transitions, Step(cfg, m, d).state)
  {
    var ts := cfg.graph.transitions;
    if m.node == Orient {
      AppendBook(ts, m.state.events, MakeEvent(m.state, ScreenEnter, Some(m.state.current), Nothing));
    } else if m.node == ExecuteAction {
      if Step(cfg, m, d).node != Raised { ExecuteKeepsBook(cfg.graph, m.state, m.state.action.value); }
      hide ExecuteNode, BookInv;
    } else {
      StepShape(cfg, m, d);
      hide Step;
      var t := Step(cfg, m, d).state;
      if t.events != m.state.events { AppendBook(ts, m.state.events, t.events[|m.state.events|]); }
    }
  }

  // At every moment of every run: the clicks that follow a stored transition are
  // as many as the screens on the back-stack plus the steps back taken, and the
  // dead ends counted are exactly the clicks that trigger no transition.
  lemma {:induction false} BookAlways(cfg: Config, start: ScreenId, draws: nat -> Draw, k: nat)
    ensures BookInv(cfg.graph.transitions, Run(cfg, start, draws, k).state)
  {
    hide Step;
    if k > 0 {
      BookAlways(cfg, start, draws, k - 1);
      StepKeepsBook(cfg, Run(cfg, start, draws, k - 1), draws(k - 1));
    }
  }

  // ---- scan numbers ----

  // The scan number a gaze carries: its rank among the gazes since its screen was
  // entered, and 0 on a screen without an intended element.
  ghost predicate ScansNumbered(cfg: Config, es: seq<Event>) {
    forall i :: 0 <= i < |es| && es[i].kind == Gaze ==>
      && es[i].screen.Some? && es[i].payload.Gazed?
      && es[i].payload.scanNumber ==
         if IntendedOn(cfg, es[i].screen.value).Some? then GazesSinceEnter(es[..i + 1]) else 0
  }

  lemma AppendScan(cfg: Config, es: seq<Event>, e: Event)
    requires ScansNumbered(cfg, es)
    requires e.kind == Gaze ==>
               e.screen.Some? && e.payload.Gazed?
               && e.payload.scanNumber == if IntendedOn(cfg, e.screen.value).Some? then GazesSinceEnter(es) + 1 else 0
    ensures ScansNumbered(cfg, es + [e])
  {
    hide IntendedOn;
    Append(es, e);
    forall i | 0 <= i <= |es|
      ensures (es + [e])[..i] == es[..i]
    {}
    assert (es + [e])[..|es| + 1] == es + [e];
  }

  // What attending adds to the log.
  lemma AttendEvent(cfg: Config, m: Machine, d: Draw)
    requires m.node == Attend && cfg.graph.Known(m.state.current)
    ensures var s, t := m.state, Step(cfg, m, d).state;
            t.events == s.events
            || exists e :: t.events == s.events + [e] && e.kind == Gaze && e.screen == Some(s.current) && e.payload.Gazed?
                           && e.payload.scanNumber == s.scanCount + if IntendedOn(cfg, s.current).Some? then 1 else 0
  {
    hide Pick, IntendedElement;
  }

  lemma ExecuteKeepsNumbers(cfg: Config, s: State, a: Action)
    requires ScansNumbered(cfg, s.events)
    ensures ScansNumbered(cfg, ExecuteNode(cfg.graph, s, a).events)
  {
    ExecuteEvents(cfg.graph, s, a);
    var t := ExecuteNode(cfg.graph, s, a);
    hide ExecuteNode, ScansNumbered;
    var acted := s.events + [ActionEvent(s, a)];
    AppendScan(cfg, s.events, ActionEvent(s, a));
    if t.current == s.current {
      assert t.events == acted;
    } else {
      var exit := Event(s.sequenceNo + 1, ScreenExit, Some(s.current), None, None, Nothing);
      var enter := Event(s.sequenceNo + 2, ScreenEnter, Some(t.current), None, None, Nothing);
      assert t.events == acted + [exit] + [enter];
      AppendScan(cfg, acted, exit);
      AppendScan(cfg, acted + [exit], enter);
    }
  }

  lemma StepKeepsNumbers(cfg: Config, m: Machine, d: Draw)
    requires ScansNumbered(cfg, m.state.events) && ScanInv(cfg, m) && NodeInv(cfg, m)
    ensures ScansNumbered(cfg, Step(cfg, m, d).state.events)
  {
    if m.node == Orient {
      AppendScan(cfg, m.state.events, MakeEvent(m.state, ScreenEnter, Some(m.state.current), Nothing));
    } else if m.node == ExecuteAction {
      ExecuteKeepsNumbers(cfg, m.state, m.state.action.value);
      hide ExecuteNode, ScansNumbered;
    } else if m.node == Attend {
      AttendEvent(cfg, m, d);
      hide Step, ScansNumbered, IntendedOn;
      var s, t := m.state, Step(cfg, m, d).state;
      if t.events != s.events {
        var e :| t.events == s.events + [e] && e.kind == Gaze && e.screen == Some(s.current) && e.payload.Gazed?
                 && e.payload.scanNumber == s.scanCount + if IntendedOn(cfg, s.current).Some? then 1 else 0;
        AppendScan(cfg, s.events, e);
      }
    } else {
      StepShape(cfg, m, d);
      NoGazeAdded(cfg, m, d);
      hide Step, ScansNumbered, IntendedOn;
      var s, t := m.state, Step(cfg, m, d).state;
      if t.events != s.events { AppendScan(cfg, s.events, t.events[|s.events|]); }
    }
  }

  lemma {:induction false} NumbersAlways(cfg: Config, start: ScreenId, draws: nat -> Draw, k: nat)
    ensures ScansNumbered(cfg, Run(cfg, start, draws, k).state.events)
  {
    assert k == 0 ==> Run(cfg, start, draws, k).state.events == [];
    hide Step, NodeInv, ScanInv;
    if k > 0 {
      NumbersAlways(cfg, start, draws, k - 1);
      ScanAlways(cfg, start, draws, k - 1);
      NodeAlways(cfg, start, draws, k - 1);
      StepKeepsNumbers(cfg, Run(cfg, start, draws, k - 1), draws(k - 1));
    }
  }

  // ---- what each ending means ----

  ghost predicate EndingInv(cfg: Config, m: Machine) {
    var s := m.state;
    m.node == End ==>
      && s.step <= AtLeastOne(cfg.maxSteps)
      && (s.outcome == Completed ==> s.progress >= 1.0)
      && (s.reason == Some(MaxStepsExceeded) ==> s.progress < 1.0 && s.step == AtLeastOne(cfg.maxSteps))
      && (s.reason in {Some(DeadEndNoActions), Some(LowPatienceHighUncertainty)} ==>
            s.progress < 1.0 && s.step < cfg.maxSteps && cfg.graph.Known(s.current))
      && (s.reason == Some(DeadEndNoActions) && cfg.graph.Known(s.current) ==>
            Stuck(s, cfg.graph.Screen(s.current).value))
      && (s.reason == Some(LowPatienceHighUncertainty) && cfg.graph.Known(s.current) ==>
            && s.step > 5 && AbandonPressure(s.uncertainty, cfg.patience, s.deadEnds) > 0.75
            && !Stuck(s, cfg.graph.Screen(s.current).value))
      && (s.reason == Some(IntendedActionNotDiscovered) ==>
            IntendedOn(cfg, s.current).Some? && s.step < AtLeastOne(cfg.maxSteps) && s.scanCount >= cfg.maxScans)
      && (s.reason == Some(ScreenNotFound) ==> !cfg.graph.Known(s.current))
  }

  lemma CheckEnding(cfg: Config, m: Machine, d: Draw)
    requires m.node == CheckTask && 1 <= m.state.step <= AtLeastOne(cfg.maxSteps)
    ensures EndingInv(cfg, Step(cfg, m, d))
  {
    hide AbandonPressure, IntendedOn;
  }

  ghost predicate WithinSteps(cfg: Config, m: Machine) {
    && m.state.step <= AtLeastOne(cfg.maxSteps)
    && (m.node !in {UpdateState, CheckTask, End, Raised} ==> m.state.step < AtLeastOne(cfg.maxSteps))
    && (m.node in {UpdateState, CheckTask} ==> m.state.step >= 1)
    && (m.node != End ==> m.state.outcome == InProgress && m.state.reason == None)
    && (m.node == ScanExhausted ==> m.state.scanCount >= cfg.maxScans)
  }

  lemma StepKeepsEnding(cfg: Config, start: ScreenId, m: Machine, d: Draw)
    requires EndingInv(cfg, m) && WithinSteps(cfg, m) && NodeInv(cfg, m)
    requires OutcomeInv(cfg, start, Step(cfg, m, d))
    ensures EndingInv(cfg, Step(cfg, m, d)) && WithinSteps(cfg, Step(cfg, m, d))
  {
    hide ProgressOf, AbandonPressure, UncertaintyAfter, IntendedElement, Pick, SelectActionNode;
    if m.node == CheckTask {
      CheckEnding(cfg, m, d);
      hide EndingInv;
    } else {
      hide Stuck;
    }
  }

  // Why a run ended: completion takes full progress; the step limit is hit only
  // by spending it; a dead end has nothing to act on and nowhere to go back to;
  // losing patience takes more than five steps and pressure above 0.75.
  lemma {:induction false} EndingAlways(cfg: Config, start: ScreenId, draws: nat -> Draw, k: nat)
    ensures EndingInv(cfg, Run(cfg, start, draws, k)) && WithinSteps(cfg, Run(cfg, start, draws, k))
  {
    hide Step, NodeInv, OutcomeInv;
    if k > 0 {
      hide EndingInv, WithinSteps;
      EndingAlways(cfg, start, draws, k - 1);
      NodeAlways(cfg, start, draws, k - 1);
      OutcomeAlways(cfg, start, draws, k);
      StepKeepsEnding(cfg, start, Run(cfg, start, draws, k - 1), draws(k - 1));
    }
  }
}
