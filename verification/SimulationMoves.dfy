/** One visit of each node over a run: which element is looked at, which action is
    chosen, where it leads, and what is recorded of it. */
module SimulationMoves {
  import opened Domain
  import opened Sampling
  import opened SimulationGraph
  import opened SimulationLog
  import opened SimulationWalk
  import opened SimulationProgress
  import opened SimulationTask
  import opened SimulationDecision

  // ---- the beginning ----

  // A run begins on its start screen with nothing done, uncertainty 0.3, and the
  // entering of that screen as its first event.
  lemma Begins(cfg: Config, start: ScreenId, draws: nat -> Draw)
    ensures var s := Run(cfg, start, draws, 1).state;
            && s.current == start && s.history == [] && s.actionHistory == [] && s.progress == 0.0 && s.uncertainty == 0.3
            && s.step == 0 && s.deadEnds == 0 && s.backtracks == 0 && s.scanCount == 0
            && s.events == [Event(0, ScreenEnter, Some(start), None, None, Nothing)] && s.sequenceNo == 1
  {
    assert Run(cfg, start, draws, 0) == Initial(start);
  }

  // Perceiving ends the run as failed, without an event, on a screen the graph does
  // not have, and otherwise leads to looking.
  lemma PerceiveIs(cfg: Config, start: ScreenId, draws: nat -> Draw, k: nat)
    requires Run(cfg, start, draws, k).node == Perceive
    ensures var s := Run(cfg, start, draws, k).state;
            Run(cfg, start, draws, k + 1) ==
            if cfg.graph.Known(s.current) then Machine(Attend, s)
            else Machine(End, s.(outcome := Failed, reason := Some(ScreenNotFound)))
  {
    OutcomeAlways(cfg, start, draws, k);
    var m := Run(cfg, start, draws, k);
    assert m.state.outcome == InProgress;
    hide Run;
    OneVisit(cfg, start, draws, k);
  }

  // Scans used up abandon the run, with an event on the screen they were used on.
  lemma ExhaustionIs(cfg: Config, start: ScreenId, draws: nat -> Draw, k: nat)
    requires Run(cfg, start, draws, k).node == ScanExhausted
    ensures var s, m := Run(cfg, start, draws, k).state, Run(cfg, start, draws, k + 1);
            && m.node == End && m.state.outcome == Abandoned && m.state.reason == Some(IntendedActionNotDiscovered)
            && m.state.events == s.events + [Event(s.sequenceNo, Abandon, Some(s.current), None, None,
                                                   Because(IntendedActionNotDiscovered))]
  {
    hide Run;
    OneVisit(cfg, start, draws, k);
  }

  // ---- looking ----

  // The score of each element: the one given, and 0 where none is given.
  ghost predicate Scored(d: Draw, n: nat, scores: seq<real>) {
    |scores| == n && forall i :: 0 <= i < n ==> scores[i] == if i < |d.scores| then d.scores[i] else 0.0
  }

  lemma ScoredIs(d: Draw, n: nat, scores: seq<real>)
    requires Scored(d, n, scores)
    ensures d.Scores(n) == scores
  {}

  lemma SliceIsPicked(exp: Exp, scores: seq<real>, i: nat, lo: real, length: real, roll: real)
    requires i < |scores| && Slice(exp, scores, i, lo, length) && lo < roll <= lo + length
    ensures Pick(exp, scores, roll) == i
  {
    assert 0.0 < roll <= 1.0;
  }

  lemma LookedAt(cfg: Config, s: State, screen: ScreenView, d: Draw, i: nat)
    requires i < |screen.elements| && Pick(cfg.exp, d.Scores(|screen.elements|), d.roll) == i
    ensures var t := AttendNode(cfg, s, screen, d);
            var intended := IntendedElement(screen.elements, cfg.task.critical);
            var scans := if intended.Some? then s.scanCount + 1 else s.scanCount;
            && t.events == s.events + [Event(s.sequenceNo, Gaze, Some(screen.id), Some(screen.elements[i].id), Some(d.duration),
                                             Gazed(d.Scores(|screen.elements|)[i], scans))]
            && t.scanCount == scans && t.attention == Some(d.Scores(|screen.elements|))
            && RouteAfterAttend(cfg, t) ==
               if intended.None? then Interpret
               else if screen.elements[i].id == intended.value.id then ActOnIntended
               else if scans >= cfg.maxScans then ScanExhausted
               else Attend
  {
    hide IntendedElement, Pick;
  }

  lemma AttendStep(cfg: Config, m: Machine, d: Draw)
    requires m.node == Attend && cfg.graph.Known(m.state.current)
    ensures var screen := cfg.graph.Screen(m.state.current).value;
            var looked := AttendNode(cfg, m.state, screen, d);
            && Step(cfg, m, d) == Machine(RouteAfterAttend(cfg, looked), looked) && screen.id == m.state.current
            && IntendedOn(cfg, m.state.current) == IntendedElement(screen.elements, cfg.task.critical)
  {
    hide AttendNode, RouteAfterAttend, IntendedElement;
  }

  // Attending looks at the element whose slice the draw falls in. The gaze is
  // recorded with its screen, element, duration, score and scan number; finding
  // the intended element leads to acting on it, missing it to another scan while
  // scans are left, and without an intended element the scores are interpreted.
  lemma GazeIs(cfg: Config, start: ScreenId, draws: nat -> Draw, k: nat, scores: seq<real>, i: nat, lo: real, length: real)
    requires var m := Run(cfg, start, draws, k);
             && m.node == Attend && cfg.graph.Known(m.state.current)
             && Scored(draws(k), |cfg.graph.Screen(m.state.current).value.elements|, scores)
    requires i < |scores| && Slice(cfg.exp, scores, i, lo, length) && lo < draws(k).roll <= lo + length
    ensures var s, t := Run(cfg, start, draws, k).state, Run(cfg, start, draws, k + 1);
            var elements, intended := cfg.graph.Screen(s.current).value.elements, IntendedOn(cfg, s.current);
            var scans := if intended.Some? then s.scanCount + 1 else s.scanCount;
            && t.state.events == s.events + [Event(s.sequenceNo, Gaze, Some(s.current), Some(elements[i].id), Some(draws(k).duration),
                                                   Gazed(scores[i], scans))]
            && t.state.scanCount == scans && t.state.attention == Some(scores)
            && t.node == if intended.None? then Interpret
                         else if elements[i].id == intended.value.id then ActOnIntended
                         else if scans >= cfg.maxScans then ScanExhausted
                         else Attend
  {
    var m := Run(cfg, start, draws, k);
    var screen := cfg.graph.Screen(m.state.current).value;
    hide Run, Step, Pick, Slice, IntendedOn, IntendedElement, AttendNode, RouteAfterAttend;
    OneVisit(cfg, start, draws, k);
    AttendStep(cfg, m, draws(k));
    ScoredIs(draws(k), |screen.elements|, scores);
    hide Scored;
    SliceIsPicked(cfg.exp, scores, i, lo, length, draws(k).roll);
    LookedAt(cfg, m.state, screen, draws(k), i);
  }

  // ---- choosing ----

  // Inputs are typed into; selects, and elements with that role or the role of an
  // option, are selected; everything else is clicked.
  lemma FittingAction(e: ElementView)
    ensures DefaultAction(e) == TypeText <==> e.kind == "input"
    ensures DefaultAction(e) == Select <==>
            e.kind != "input" && (e.kind == "select" || e.semanticRole in {Some("select"), Some("option")})
    ensures DefaultAction(e) in {TypeText, Select, Click}
  {}

  // The candidates: the interactable elements, each with its fitting action, then
  // scrolling, then going back where it is offered.
  ghost predicate Candidates(cfg: Config, s: State, elements: seq<ElementView>, candidates: seq<Action>) {
    var n := Interactables(elements);
    var back := cfg.model == Heuristic && s.actionHistory != [] && s.backtracks < 3;
    && |candidates| == (if back then n + 2 else n + 1)
    && candidates[n] == Action(Scroll, None)
    && (back ==> candidates[n + 1] == Action(Back, None))
    && forall i :: 0 <= i < |elements| && elements[i].interactable ==>
         Interactables(elements[..i]) < n
         && candidates[Interactables(elements[..i])] == Action(DefaultAction(elements[i]), Some(elements[i].id))
  }

  lemma CandidatesAre(cfg: Config, s: State, screen: ScreenView)
    ensures Candidates(cfg, s, screen.elements, ActionCandidates(cfg, s, screen))
  {
    hide DefaultAction, ElementActions, Interactables;
    OfferedCount(screen.elements);
    forall i | 0 <= i < |screen.elements|
      ensures screen.elements[i].interactable ==>
                Interactables(screen.elements[..i]) < Interactables(screen.elements)
                && ElementActions(screen.elements)[Interactables(screen.elements[..i])] ==
                   Action(DefaultAction(screen.elements[i]), Some(screen.elements[i].id))
    {
      EachIsOffered(screen.elements, i);
    }
  }

  lemma {:induction false} RankedElement(elements: seq<ElementView>, r: nat) returns (i: nat)
    requires r < Interactables(elements)
    ensures i < |elements| && elements[i].interactable && Interactables(elements[..i]) == r
  {
    if elements[0].interactable && r == 0 {
      i := 0;
    } else {
      var one := if elements[0].interactable then 1 else 0;
      var j := RankedElement(elements[1..], r - one);
      i := j + 1;
      assert elements[..i][1..] == elements[1..][..j];
    }
  }

  // The description leaves one list.
  lemma OneList(cfg: Config, s: State, elements: seq<ElementView>, a: seq<Action>, b: seq<Action>)
    requires Candidates(cfg, s, elements, a) && Candidates(cfg, s, elements, b)
    ensures a == b
  {
    hide DefaultAction, Interactables;
    forall r | 0 <= r < |a|
      ensures a[r] == b[r]
    {
      if r < Interactables(elements) {
        var i := RankedElement(elements, r);
      }
    }
  }

  // Selecting takes the candidate whose slice the draw falls in.
  lemma ChoiceIs(cfg: Config, start: ScreenId, draws: nat -> Draw, k: nat, candidates: seq<Action>, scores: seq<real>, i: nat, lo: real, length: real)
    requires var m := Run(cfg, start, draws, k);
             && m.node == SelectAction && cfg.graph.Known(m.state.current)
             && Candidates(cfg, m.state, cfg.graph.Screen(m.state.current).value.elements, candidates)
    requires Scored(draws(k), |candidates|, scores)
    requires i < |scores| && Slice(cfg.exp, scores, i, lo, length) && lo < draws(k).roll <= lo + length
    ensures Run(cfg, start, draws, k + 1) ==
            Machine(ExecuteAction, Run(cfg, start, draws, k).state.(action := Some(candidates[i])))
  {
    var m := Run(cfg, start, draws, k);
    var screen := cfg.graph.Screen(m.state.current).value;
    hide Run, Pick, Slice, Candidates, ActionCandidates;
    OneVisit(cfg, start, draws, k);
    CandidatesAre(cfg, m.state, screen);
    OneList(cfg, m.state, screen.elements, candidates, ActionCandidates(cfg, m.state, screen));
    ScoredIs(draws(k), |candidates|, scores);
    hide Scored;
    SliceIsPicked(cfg.exp, scores, i, lo, length, draws(k).roll);
  }

  // Having found the intended element, a participant acts on it in the way that
  // fits it.
  lemma IntendedIsActedOn(cfg: Config, start: ScreenId, draws: nat -> Draw, k: nat)
    requires cfg.graph.UniqueElements() && Run(cfg, start, draws, k).node == ActOnIntended
    ensures var s := Run(cfg, start, draws, k).state;
            && IntendedOn(cfg, s.current).Some?
            && var e := IntendedOn(cfg, s.current).value;
               Run(cfg, start, draws, k + 1) == Machine(ExecuteAction, s.(action := Some(Action(DefaultAction(e), Some(e.id)))))
  {
    var m := Run(cfg, start, draws, k);
    hide Run, DefaultAction;
    NodeAlways(cfg, start, draws, k);
    OneVisit(cfg, start, draws, k);
    ActsOnTheElement(cfg, m, draws(k));
  }

  lemma ActsOnTheElement(cfg: Config, m: Machine, d: Draw)
    requires cfg.graph.UniqueElements() && m.node == ActOnIntended && NodeInv(cfg, m)
    ensures var e := IntendedOn(cfg, m.state.current).value;
            Step(cfg, m, d) == Machine(ExecuteAction, m.state.(action := Some(Action(DefaultAction(e), Some(e.id)))))
  {
    hide DefaultAction, IntendedElement;
    var screen := cfg.graph.Screen(m.state.current).value;
    var e := IntendedOn(cfg, m.state.current).value;
    assert e in screen.elements && screen in cfg.graph.screens;
    assert screen.Element(e.id).Some? && screen.Element(e.id).value in screen.elements;
    assert screen.Element(e.id).value == e;
  }

  // ---- acting ----

  // Row i is the first stored transition that leaves the screen by the element.
  ghost predicate FirstEdge(ts: seq<Transition>, sid: ScreenId, eid: ElementId, i: nat) {
    && i < |ts| && ts[i].from == sid && ts[i].trigger == eid
    && forall j :: 0 <= j < i ==> !(ts[j].from == sid && ts[j].trigger == eid)
  }

  // Where an action leads: back to the screen come from; along the first stored
  // transition of the element clicked, or nowhere for one more dead end; and
  // scrolling, typing, and going back from the first screen change nothing.
  ghost predicate Leads(ts: seq<Transition>, s: State, a: Action, t: State) {
    if a.action == Back && s.history != [] then
      t.history + [t.current] == s.history && t.backtracks == s.backtracks + 1 && t.deadEnds == s.deadEnds
    else if a.action in {Click, Tap, Open, Select} && a.target.Some? then
      && t.backtracks == s.backtracks
      && (forall i: nat :: FirstEdge(ts, s.current, a.target.value, i) ==>
            t.history == s.history + [s.current] && t.current == ts[i].to && t.deadEnds == s.deadEnds)
      && ((forall e :: e in ts ==> !(e.from == s.current && e.trigger == a.target.value)) ==>
            t.history == s.history && t.current == s.current && t.deadEnds == s.deadEnds + 1)
    else
      t.current == s.current && t.history == s.history && t.backtracks == s.backtracks && t.deadEnds == s.deadEnds
  }

  lemma LookupFirst(ts: seq<Transition>, sid: ScreenId, eid: ElementId, i: nat)
    requires FirstEdge(ts, sid, eid, i)
    ensures Lookup(ts, sid, eid) == Some(ts[i])
  {
    LookupIsFirst(ts, sid, eid, i);
  }

  lemma MovedLeads(g: ScreenGraph, s: State, a: Action)
    ensures Leads(g.transitions, s, a, Moved(g, s, a))
  {
    if a.target.Some? {
      forall i: nat | FirstEdge(g.transitions, s.current, a.target.value, i)
        ensures Lookup(g.transitions, s.current, a.target.value) == Some(g.transitions[i])
      {
        LookupFirst(g.transitions, s.current, a.target.value, i);
      }
    }
    hide Lookup, FirstEdge;
  }

  // What an action records: itself on the screen where it was done, and when the
  // screen changes the leaving of the one and the entering of the other.
  ghost predicate Records(s: State, a: Action, t: State) {
    && t.actionHistory == s.actionHistory + [Entry(a.action, a.target, s.step)] && t.step == s.step + 1
    && var acted := Event(s.sequenceNo, Acted(a.action), Some(s.current), a.target, None, Nothing);
       if t.current == s.current then t.events == s.events + [acted] && t.scanCount == s.scanCount
       else
         && t.events == s.events + [acted,
                                    Event(s.sequenceNo + 1, ScreenExit, Some(s.current), None, None, Nothing),
                                    Event(s.sequenceNo + 2, ScreenEnter, Some(t.current), None, None, Nothing)]
         && t.scanCount == 0
  }

  lemma ExecuteLeads(g: ScreenGraph, s: State, a: Action)
    ensures Leads(g.transitions, s, a, ExecuteNode(g, s, a)) && Records(s, a, ExecuteNode(g, s, a))
  {
    var acted := Emit(s, ActionEvent(s, a));
    MovedLeads(g, acted, a);
    MovedQuietly(g, acted, a);
    hide Moved, FirstEdge;
  }

  lemma MovedQuietly(g: ScreenGraph, s: State, a: Action)
    ensures var t := Moved(g, s, a);
            && t.events == s.events && t.sequenceNo == s.sequenceNo && t.actionHistory == s.actionHistory
            && t.step == s.step && t.scanCount == s.scanCount
  {
    hide Lookup;
  }

  lemma ActionIs(cfg: Config, start: ScreenId, draws: nat -> Draw, k: nat)
    requires Run(cfg, start, draws, k).node == ExecuteAction
    ensures var m, t := Run(cfg, start, draws, k), Run(cfg, start, draws, k + 1);
            && m.state.action.Some? && t.node == UpdateState
            && Leads(cfg.graph.transitions, m.state, m.state.action.value, t.state)
            && Records(m.state, m.state.action.value, t.state)
  {
    var m := Run(cfg, start, draws, k);
    hide Run, Leads, Records;
    NodeAlways(cfg, start, draws, k);
    OneVisit(cfg, start, draws, k);
    ExecuteStep(cfg, m, draws(k));
    ExecuteLeads(cfg.graph, m.state, m.state.action.value);
  }

  // ---- recording progress ----

  // Updating records the progress of the state, and an event for it exactly when
  // it differs from the last by more than a hundredth.
  lemma UpdateIs(cfg: Config, start: ScreenId, draws: nat -> Draw, k: nat)
    requires cfg.graph.UniqueElements() && Run(cfg, start, draws, k).node == UpdateState
    ensures var s, t := Run(cfg, start, draws, k).state, Run(cfg, start, draws, k + 1).state;
            && ProgressIs(cfg, s, t.progress)
            && t.events == if t.progress > s.progress + 0.01 || t.progress < s.progress - 0.01
                           then s.events + [Event(s.sequenceNo, TaskProgress, None, None, None, Progress(t.progress))]
                           else s.events
  {
    var s := Run(cfg, start, draws, k).state;
    hide Run, ProgressIs, ProgressOf;
    OneVisit(cfg, start, draws, k);
    ProgressByFields(cfg, s);
  }
}
