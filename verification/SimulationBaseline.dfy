/** What completing a task costs, against the shortest-path baseline. */
module SimulationBaseline {
  import opened Domain
  import opened Sampling
  import opened SimulationGraph
  import opened EventLog
  import opened SimulationLog
  import opened SimulationProgress
  import opened SimulationWalk
  import opened Reach
  import opened GraphSearch

  // Some critical screen lies n transitions from the start, where n + 1 screens
  // have been entered and n + 1 actions performed.
  ghost predicate Hit(g: ScreenGraph, critical: set<string>, start: ScreenId, enters: nat, acts: nat) {
    exists sid, n: nat :: HasCritical(g, critical, sid) && Within(g.transitions, start, sid, n) && n + 1 <= enters && n + 1 <= acts
  }

  ghost predicate HitInv(cfg: Config, start: ScreenId, m: Machine) {
    var s := m.state;
    forall i :: 0 <= i < |s.actionHistory| && NamesHit(cfg.graph, s.actionHistory[i]) * cfg.task.critical != {}
                ==> Hit(cfg.graph, cfg.task.critical, start, Enters(s.events), |s.actionHistory|)
  }

  // An action on an element of the current screen that names a critical action
  // shows the current screen holds a critical element.
  lemma CriticalHere(cfg: Config, s: State, a: Action)
    requires cfg.graph.UniqueElements() && a.target.Some? && OnScreen(cfg.graph, s.current, a.target.value)
    requires NamesHit(cfg.graph, Entry(a.action, a.target, s.step)) * cfg.task.critical != {}
    ensures HasCritical(cfg.graph, cfg.task.critical, s.current)
  {
    var here := cfg.graph.Screen(s.current).value;
    var e :| e in here.elements && e.id == a.target.value;
    var f := cfg.graph.ElementAnywhere(a.target.value).value;
    assert e == f;
  }

  lemma CurrentWithin(cfg: Config, start: ScreenId, m: Machine)
    requires m.node == ExecuteAction && WalkInv(cfg, start, m)
    ensures 1 <= Enters(m.state.events) <= 1 + m.state.step
    ensures Within(cfg.graph.transitions, start, m.state.current, Enters(m.state.events) - 1)
  {
    hide IsWalk, Within;
    assert Path(m.state)[|m.state.history|] == m.state.current;
  }

  lemma ActionHits(cfg: Config, start: ScreenId, m: Machine)
    requires cfg.graph.UniqueElements() && m.node == ExecuteAction
    requires WalkInv(cfg, start, m) && NodeInv(cfg, m)
    requires var a := m.state.action.value;
             NamesHit(cfg.graph, Entry(a.action, a.target, m.state.step)) * cfg.task.critical != {}
    ensures Hit(cfg.graph, cfg.task.critical, start, Enters(m.state.events), m.state.step + 1)
  {
    hide HasCritical, WalkInv, Within, NamesHit;
    var s := m.state;
    TargetIsSome(cfg, s, s.action.value);
    CriticalHere(cfg, s, s.action.value);
    CurrentWithin(cfg, start, m);
  }

  lemma HitMore(g: ScreenGraph, critical: set<string>, start: ScreenId, enters: nat, acts: nat, enters': nat, acts': nat)
    requires Hit(g, critical, start, enters, acts) && enters <= enters' && acts <= acts'
    ensures Hit(g, critical, start, enters', acts')
  {
    hide HasCritical;
  }

  lemma ExecuteKeepsHit(cfg: Config, start: ScreenId, m: Machine)
    requires cfg.graph.UniqueElements() && m.node == ExecuteAction
    requires HitInv(cfg, start, m) && WalkInv(cfg, start, m) && NodeInv(cfg, m) && |m.state.actionHistory| == m.state.step
    ensures HitInv(cfg, start, Machine(UpdateState, ExecuteNode(cfg.graph, m.state, m.state.action.value)))
  {
    var s, a := m.state, m.state.action.value;
    var t := ExecuteNode(cfg.graph, s, a);
    assert t.actionHistory == s.actionHistory + [Entry(a.action, a.target, s.step)];
    ExecuteEnters(cfg.graph, s, a);
    if NamesHit(cfg.graph, Entry(a.action, a.target, s.step)) * cfg.task.critical != {} { ActionHits(cfg, start, m); }
    hide ExecuteNode, NamesHit, Hit, WalkInv, NodeInv;
    forall i | 0 <= i < |t.actionHistory| && NamesHit(cfg.graph, t.actionHistory[i]) * cfg.task.critical != {}
      ensures Hit(cfg.graph, cfg.task.critical, start, Enters(t.events), |t.actionHistory|)
    {
      if i < |s.actionHistory| { assert t.actionHistory[i] == s.actionHistory[i]; }
      HitMore(cfg.graph, cfg.task.critical, start, Enters(s.events), if i < |s.actionHistory| then s.step else s.step + 1,
              Enters(t.events), |t.actionHistory|);
    }
  }

  lemma TargetIsSome(cfg: Config, s: State, a: Action)
    requires NamesHit(cfg.graph, Entry(a.action, a.target, s.step)) * cfg.task.critical != {}
    ensures a.target.Some?
  {}

  lemma StepKeepsHit(cfg: Config, start: ScreenId, m: Machine, d: Draw)
    requires cfg.graph.UniqueElements()
    requires HitInv(cfg, start, m) && WalkInv(cfg, start, m) && NodeInv(cfg, m) && LogInv(m)
    ensures HitInv(cfg, start, Step(cfg, m, d))
  {
    if m.node == Orient {
      assert m.state.actionHistory == [];
    } else if m.node == ExecuteAction {
      ExecuteKeepsHit(cfg, start, m);
    } else {
      StepShape(cfg, m, d);
      SameEnters(m.state, Step(cfg, m, d).state);
      hide Step;
    }
  }

  lemma InitialHit(cfg: Config, start: ScreenId)
    ensures HitInv(cfg, start, Initial(start))
  {}

  lemma {:induction false} HitAlways(cfg: Config, start: ScreenId, draws: nat -> Draw, k: nat)
    requires cfg.graph.UniqueElements()
    ensures HitInv(cfg, start, Run(cfg, start, draws, k))
  {
    hide Step, HitInv, WalkInv, NodeInv, LogInv, ScreenGraph.UniqueElements;
    InitialHit(cfg, start);
    if k > 0 {
      HitAlways(cfg, start, draws, k - 1);
      WalkAlways(cfg, start, draws, k - 1);
      NodeAlways(cfg, start, draws, k - 1);
      LogAlways(cfg, start, draws, k - 1);
      StepKeepsHit(cfg, start, Run(cfg, start, draws, k - 1), draws(k - 1));
    }
  }

  // ---- the start screen of a run that acted is known ----

  ghost predicate StartInv(cfg: Config, start: ScreenId, m: Machine) {
    && (m.state.step == 0 ==> m.state.current == start)
    && (m.state.step > 0 || m.node !in {Orient, Perceive, End} ==> cfg.graph.Known(start))
  }

  lemma StepKeepsStart(cfg: Config, start: ScreenId, m: Machine, d: Draw)
    requires StartInv(cfg, start, m)
    ensures StartInv(cfg, start, Step(cfg, m, d))
  {
    if m.node != Orient && m.node != ExecuteAction { StepShape(cfg, m, d); }
    hide Pick, ProgressOf, UncertaintyAfter, AbandonPressure, IntendedElement, SelectActionNode, Stuck;
    if m.node == ExecuteAction && Step(cfg, m, d).node != Raised {
      MovePath(cfg.graph, m.state, m.state.action.value);
      hide ExecuteNode;
    }
  }

  lemma {:induction false} StartAlways(cfg: Config, start: ScreenId, draws: nat -> Draw, k: nat)
    ensures StartInv(cfg, start, Run(cfg, start, draws, k))
  {
    hide Step;
    if k > 0 {
      StartAlways(cfg, start, draws, k - 1);
      StepKeepsStart(cfg, start, Run(cfg, start, draws, k - 1), draws(k - 1));
    }
  }

  lemma {:induction false} NearestBelow(g: ScreenGraph, critical: set<string>, start: ScreenId, sid: ScreenId, n: nat) returns (d: nat)
    requires HasCritical(g, critical, sid) && Within(g.transitions, start, sid, n)
    ensures d <= n && Nearest(g, critical, start, d)
    decreases n
  {
    hide HasCritical;
    if x, m: nat :| HasCritical(g, critical, x) && Within(g.transitions, start, x, m) && m < n {
      d := NearestBelow(g, critical, start, x, m);
    } else {
      d := n;
    }
  }

  // Completing a task that is finished by its critical actions takes at least
  // the baseline: the start screen is known, a critical screen is reachable, and
  // with d the least number of transitions to one (the search then answers
  // (d + 1, d)) the run performs at least d + 1 actions and enters at least d + 1
  // screens, whatever the scores and draws.
  lemma CompletionCostsBaseline(cfg: Config, start: ScreenId, draws: nat -> Draw, k: nat) returns (d: nat)
    requires cfg.graph.UniqueElements() && cfg.task.critical != {} && !cfg.task.success.Recognized()
    requires Run(cfg, start, draws, k).state.outcome == Completed
    ensures cfg.graph.Known(start) && Nearest(cfg.graph, cfg.task.critical, start, d)
    ensures Actions(Run(cfg, start, draws, k).state.events) >= d + 1
    ensures Enters(Run(cfg, start, draws, k).state.events) >= d + 1
  {
    var m := Run(cfg, start, draws, k);
    HitAlways(cfg, start, draws, k);
    LogAlways(cfg, start, draws, k);
    StartAlways(cfg, start, draws, k);
    ProgressAlways(cfg, start, draws, k);
    CompletedIffFinishLine(cfg, start, draws, k);
    var c :| c in cfg.task.critical;
    assert c in Matched(cfg.graph, cfg.task.critical, m.state.actionHistory);
    var i :| 0 <= i < |m.state.actionHistory| && c in NamesHit(cfg.graph, m.state.actionHistory[i]);
    hide NamesHit, HasCritical;
    assert c in NamesHit(cfg.graph, m.state.actionHistory[i]) * cfg.task.critical;
    var sid, n: nat :| HasCritical(cfg.graph, cfg.task.critical, sid) && Within(cfg.graph.transitions, start, sid, n)
                       && n + 1 <= Enters(m.state.events) && n + 1 <= |m.state.actionHistory|;
    d := NearestBelow(cfg.graph, cfg.task.critical, start, sid, n);
  }
}
