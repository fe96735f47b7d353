/** Every run is a walk in the screen graph: what is offered to a participant,
    where the participant can be, and how far from the start. */
module SimulationWalk {
  import opened Domain
  import opened Sampling
  import opened SimulationGraph
  import opened EventLog
  import opened SimulationLog
  import opened Reach

  ghost predicate OnScreen(g: ScreenGraph, sid: ScreenId, eid: ElementId) {
    g.Known(sid) && exists e :: e in g.Screen(sid).value.elements && e.id == eid
  }

  // What the nodes hand to each other about the screen and the chosen action.
  ghost predicate NodeInv(cfg: Config, m: Machine) {
    var s := m.state;
    && (m.node in {Attend, ActOnIntended, ScanExhausted, Interpret, SelectAction, ExecuteAction} ==>
          cfg.graph.Known(s.current))
    && (m.node in {Interpret, SelectAction} ==> IntendedOn(cfg, s.current).None?)
    && (m.node in {ActOnIntended, ScanExhausted} ==>
          IntendedOn(cfg, s.current).Some? && s.intended == Some(IntendedOn(cfg, s.current).value.id))
    && (m.node == ExecuteAction ==> s.action.Some? && Offered(cfg, s, s.action.value))
  }

  // A chosen action targets the current screen, goes back at most three times
  // in all, and on a screen with an intended element targets that element.
  ghost predicate Offered(cfg: Config, s: State, a: Action) {
    && (a.target.Some? ==> OnScreen(cfg.graph, s.current, a.target.value))
    && (a.action == Back ==> s.backtracks < 3)
    && (IntendedOn(cfg, s.current).Some? ==> a.target == Some(IntendedOn(cfg, s.current).value.id))
  }

  lemma CandidatesOffered(cfg: Config, s: State, a: Action)
    requires cfg.graph.Known(s.current) && IntendedOn(cfg, s.current).None?
    requires a in ActionCandidates(cfg, s, cfg.graph.Screen(s.current).value)
    ensures Offered(cfg, s, a)
  {
    hide IntendedElement;
  }

  lemma StepKeepsNode(cfg: Config, m: Machine, d: Draw)
    requires NodeInv(cfg, m)
    ensures NodeInv(cfg, Step(cfg, m, d))
    ensures Step(cfg, m, d).node == Raised ==>
              m.node == Raised || (m.node == CheckTask && !cfg.graph.Known(m.state.current))
  {
    hide Pick, ProgressOf, UncertaintyAfter, AbandonPressure, IntendedElement, SelectActionNode, Stuck, ExecuteNode, ActionCandidates;
    var s := m.state;
    if m.node == SelectAction {
      var t := SelectActionNode(cfg, s, cfg.graph.Screen(s.current).value, d);
      CandidatesOffered(cfg, s, t.action.value);
    } else if m.node == ActOnIntended {
      assert IntendedOn(cfg, s.current).value in cfg.graph.Screen(s.current).value.elements;
    }
  }

  lemma {:induction false} NodeAlways(cfg: Config, start: ScreenId, draws: nat -> Draw, k: nat)
    ensures NodeInv(cfg, Run(cfg, start, draws, k))
  {
    hide Step;
    if k > 0 {
      NodeAlways(cfg, start, draws, k - 1);
      StepKeepsNode(cfg, Run(cfg, start, draws, k - 1), draws(k - 1));
    }
  }

  function Path(s: State): seq<ScreenId> {
    s.history + [s.current]
  }

  ghost predicate IsWalk(ts: seq<Transition>, p: seq<ScreenId>) {
    forall i :: 0 <= i < |p| - 1 ==> Edge(ts, p[i], p[i + 1])
  }

  // Everything on the path lies within n transitions of the start.
  ghost predicate AllWithin(ts: seq<Transition>, start: ScreenId, p: seq<ScreenId>, n: nat) {
    forall i :: 0 <= i < |p| ==> Within(ts, start, p[i], n)
  }

  // A path of screens, how many were entered, steps back taken, actions done.
  ghost predicate Walked(ts: seq<Transition>, start: ScreenId, p: seq<ScreenId>, enters: nat, backs: nat, acts: nat) {
    && p != [] && p[0] == start && IsWalk(ts, p)
    && backs <= 3
    && 1 <= enters <= |p| + 2 * backs && enters <= 1 + acts
    && (Loopless(ts) ==> enters == |p| + 2 * backs)
    && AllWithin(ts, start, p, enters - 1)
  }

  ghost predicate WalkInv(cfg: Config, start: ScreenId, m: Machine) {
    var s := m.state;
    if m.node == Orient then s == InitialState(start)
    else Walked(cfg.graph.transitions, start, Path(s), Enters(s.events), s.backtracks, s.step)
  }

  // The path grows by one edge or loses its last screen.
  ghost predicate PathMove(ts: seq<Transition>, p: seq<ScreenId>, q: seq<ScreenId>) {
    p != [] && q != []
    && (q == p || q == p[..|p| - 1] || (q == p + [q[|q| - 1]] && Edge(ts, p[|p| - 1], q[|q| - 1])))
  }

  // What one executed action does to the path.
  lemma MovePath(g: ScreenGraph, s: State, a: Action)
    ensures var t := ExecuteNode(g, s, a);
            && PathMove(g.transitions, Path(s), Path(t))
            && t.step == s.step + 1
            && (if |Path(t)| < |Path(s)| then a.action == Back && t.backtracks == s.backtracks + 1 else t.backtracks == s.backtracks)
            && (Path(t) == Path(s) ==> t.current == s.current)
  {
    var t := ExecuteNode(g, s, a);
    if a.action == Back && s.history != [] {
      assert Path(t) == Path(s)[..|Path(s)| - 1];
    } else if t.history != s.history {
      assert Path(t) == Path(s) + [t.current] && Edge(g.transitions, s.current, t.current);
    }
  }

  lemma ExecuteEnters(g: ScreenGraph, s: State, a: Action)
    ensures var t := ExecuteNode(g, s, a);
            Enters(t.events) == Enters(s.events) + if t.current == s.current then 0 else 1
  {
    var t := ExecuteNode(g, s, a);
    ExecuteEvents(g, s, a);
    hide ExecuteNode;
    Append(s.events, ActionEvent(s, a));
    var acted := s.events + [ActionEvent(s, a)];
    if t.current != s.current {
      var exit := Event(s.sequenceNo + 1, ScreenExit, Some(s.current), None, None, Nothing);
      var enter := Event(s.sequenceNo + 2, ScreenEnter, Some(t.current), None, None, Nothing);
      Append(acted, exit);
      Append(acted + [exit], enter);
      assert t.events == acted + [exit] + [enter];
    } else {
      assert t.events == acted;
    }
  }

  lemma PathWithin(ts: seq<Transition>, start: ScreenId, p: seq<ScreenId>, q: seq<ScreenId>, n: nat)
    requires AllWithin(ts, start, p, n) && p != []
    requires q <= p || (q == p + [q[|q| - 1]] && Edge(ts, p[|p| - 1], q[|q| - 1]))
    ensures AllWithin(ts, start, q, n + 1)
  {
    forall i | 0 <= i < |q|
      ensures Within(ts, start, q[i], n + 1)
    {
      if i < |p| { WithinMore(ts, start, p[i], n, n + 1); }
      else { WithinStep(ts, start, p[|p| - 1], q[i], n); }
    }
  }

  // Away from self-loops an action either stays put or changes the screen.
  lemma NoStandstill(ts: seq<Transition>, p: seq<ScreenId>, i: nat)
    requires IsWalk(ts, p) && i + 1 < |p| && Loopless(ts)
    ensures p[i] != p[i + 1]
  {
    assert Edge(ts, p[i], p[i + 1]);
  }

  lemma PathMoveKeeps(ts: seq<Transition>, start: ScreenId, p: seq<ScreenId>, q: seq<ScreenId>, n: nat)
    requires PathMove(ts, p, q) && p[0] == start && IsWalk(ts, p) && AllWithin(ts, start, p, n)
    ensures q[0] == start && IsWalk(ts, q)
    ensures AllWithin(ts, start, q, if p[|p| - 1] == q[|q| - 1] then n else n + 1)
    ensures Loopless(ts) && p != q ==> p[|p| - 1] != q[|q| - 1]
  {
    forall i | 0 <= i < |q| - 1
      ensures Edge(ts, q[i], q[i + 1])
    {}
    if |q| < |p| {
      assert forall i :: 0 <= i < |q| ==> q[i] == p[i];
    }
    PathWithin(ts, start, p, q, n);
    if p[|p| - 1] == q[|q| - 1] {
      forall i | 0 <= i < |q|
        ensures Within(ts, start, q[i], n)
      {
        if i == |p| { assert Within(ts, start, p[|p| - 1], n); } else { assert Within(ts, start, p[i], n); }
      }
    }
    if p != q && Loopless(ts) {
      if |q| < |p| { NoStandstill(ts, p, |p| - 2); } else { NoStandstill(ts, q, |p| - 1); }
    }
  }

  lemma WalkedMove(ts: seq<Transition>, start: ScreenId, p: seq<ScreenId>, q: seq<ScreenId>, enters: nat, backs: nat, acts: nat)
    requires Walked(ts, start, p, enters, backs, acts) && PathMove(ts, p, q) && (|q| < |p| ==> backs < 3)
    ensures Walked(ts, start, q, if p[|p| - 1] == q[|q| - 1] then enters else enters + 1,
                   if |q| < |p| then backs + 1 else backs, acts + 1)
  {
    hide IsWalk, AllWithin, Edge, PathMove, Loopless;
    PathMoveKeeps(ts, start, p, q, enters - 1);
    PathMoveSize(ts, p, q);
  }

  lemma ExecuteKeepsWalk(g: ScreenGraph, start: ScreenId, s: State, a: Action)
    requires Walked(g.transitions, start, Path(s), Enters(s.events), s.backtracks, s.step)
    requires a.action == Back ==> s.backtracks < 3
    ensures var t := ExecuteNode(g, s, a);
            Walked(g.transitions, start, Path(t), Enters(t.events), t.backtracks, t.step)
  {
    hide ExecuteNode, Walked, PathMove;
    MovePath(g, s, a);
    ExecuteEnters(g, s, a);
    WalkedMove(g.transitions, start, Path(s), Path(ExecuteNode(g, s, a)), Enters(s.events), s.backtracks, s.step);
  }

  lemma ExecuteStep(cfg: Config, m: Machine, d: Draw)
    requires NodeInv(cfg, m) && m.node == ExecuteAction
    ensures Step(cfg, m, d) == Machine(UpdateState, ExecuteNode(cfg.graph, m.state, m.state.action.value))
    ensures m.state.action.value.action == Back ==> m.state.backtracks < 3
  {
    hide ExecuteNode;
  }

  lemma PathMoveSize(ts: seq<Transition>, p: seq<ScreenId>, q: seq<ScreenId>)
    requires PathMove(ts, p, q)
    ensures |q| == |p| || |q| == |p| - 1 || |q| == |p| + 1
    ensures (|q| == |p| ==> q == p) && q != []
  {}

  lemma SameEnters(s: State, t: State)
    requires SameWorld(s, t) && Logs(s, t)
    ensures Enters(t.events) == Enters(s.events) && Path(t) == Path(s)
  {
    if t.events != s.events { Append(s.events, t.events[|s.events|]); }
  }

  lemma StepKeepsWalk(cfg: Config, start: ScreenId, m: Machine, d: Draw)
    requires WalkInv(cfg, start, m) && NodeInv(cfg, m)
    ensures WalkInv(cfg, start, Step(cfg, m, d))
  {
    var s := m.state;
    if m.node == Orient {
      Append(s.events, MakeEvent(s, ScreenEnter, Some(s.current), Nothing));
      assert Path(s) == [start];
    } else if m.node == ExecuteAction {
      hide Step, Walked, ExecuteNode;
      ExecuteStep(cfg, m, d);
      ExecuteKeepsWalk(cfg.graph, start, s, s.action.value);
    } else {
      hide Step, Walked;
      StepShape(cfg, m, d);
      SameEnters(s, Step(cfg, m, d).state);
    }
  }

  // At every moment of every run, history plus current screen is a walk from the
  // start; a walk of at most (screens entered - 1) edges reaches each of its
  // screens; at most three steps back are taken; and without self-loops each
  // screen entered after the first is one move forward or one move back.
  lemma {:induction false} WalkAlways(cfg: Config, start: ScreenId, draws: nat -> Draw, k: nat)
    ensures WalkInv(cfg, start, Run(cfg, start, draws, k))
  {
    hide Step;
    if k > 0 {
      WalkAlways(cfg, start, draws, k - 1);
      NodeAlways(cfg, start, draws, k - 1);
      StepKeepsWalk(cfg, start, Run(cfg, start, draws, k - 1), draws(k - 1));
    }
  }

  // ---- no exception on a closed graph ----

  ghost predicate KnownInv(cfg: Config, start: ScreenId, m: Machine) {
    if cfg.graph.Known(start) then m.node != Raised && forall sid :: sid in Path(m.state) ==> cfg.graph.Known(sid)
    else m.state.current == start
         && (m.node in {Orient, Perceive} || (m.node == End && m.state.reason == Some(ScreenNotFound)))
  }

  lemma StepKeepsKnown(cfg: Config, start: ScreenId, m: Machine, d: Draw)
    requires cfg.graph.Closed() && KnownInv(cfg, start, m) && NodeInv(cfg, m)
    ensures KnownInv(cfg, start, Step(cfg, m, d))
  {
    StepKeepsNode(cfg, m, d);
    if m.node == Orient {
    } else if m.node == ExecuteAction {
      MovePath(cfg.graph, m.state, m.state.action.value);
      hide ExecuteNode;
    } else {
      StepShape(cfg, m, d);
      hide Pick, ProgressOf, UncertaintyAfter, AbandonPressure, IntendedElement, SelectActionNode, Stuck, ExecuteNode, ActionCandidates;
      assert Path(Step(cfg, m, d).state) == Path(m.state);
    }
  }

  // On a graph whose edges all end on its own screens no node ever raises, and a
  // run fails with "screen not found" exactly when its start screen is unknown.
  lemma {:induction false} NeverRaises(cfg: Config, start: ScreenId, draws: nat -> Draw, k: nat)
    requires cfg.graph.Closed()
    ensures KnownInv(cfg, start, Run(cfg, start, draws, k))
  {
    hide Step;
    if k > 0 {
      NeverRaises(cfg, start, draws, k - 1);
      NodeAlways(cfg, start, draws, k - 1);
      StepKeepsKnown(cfg, start, Run(cfg, start, draws, k - 1), draws(k - 1));
    }
  }
}
