/** A run does not depend on the order in which the stored transitions come back,
    as long as a trigger on a screen leads to one place only. */
module SimulationReplay {
  import opened Domain
  import opened Sampling
  import opened SimulationGraph

  // One destination for each (screen, trigger).
  ghost predicate Functional(ts: seq<Transition>) {
    forall s, t :: s in ts && t in ts && s.from == t.from && s.trigger == t.trigger ==> s.to == t.to
  }

  ghost predicate SameRows(ts: seq<Transition>, us: seq<Transition>) {
    multiset(ts) == multiset(us)
  }

  lemma SameMembers(ts: seq<Transition>, us: seq<Transition>)
    requires SameRows(ts, us)
    ensures forall t :: t in ts <==> t in us
  {
    forall t
      ensures t in ts <==> t in us
    {
      assert t in ts <==> t in multiset(ts);
      assert t in us <==> t in multiset(us);
    }
  }

  ghost predicate SameDestination(a: Option<Transition>, b: Option<Transition>) {
    (a.Some? <==> b.Some?) && (a.Some? ==> a.value.to == b.value.to)
  }

  lemma LookupIgnoresOrder(ts: seq<Transition>, us: seq<Transition>, sid: ScreenId, eid: ElementId)
    requires Functional(ts) && SameRows(ts, us)
    ensures SameDestination(Lookup(ts, sid, eid), Lookup(us, sid, eid))
  {
    SameMembers(ts, us);
  }

  lemma MovedToFront(ts: seq<Transition>, t: Transition) returns (us: seq<Transition>)
    requires t in ts
    ensures SameRows(ts, us) && Lookup(us, t.from, t.trigger) == Some(t)
  {
    var j :| 0 <= j < |ts| && ts[j] == t;
    var rest := ts[..j] + ts[j + 1..];
    us := [t] + rest;
    assert ts == ts[..j] + [t] + ts[j + 1..];
  }

  // Order matters for some row order as soon as one trigger has two destinations.
  lemma ConflictDependsOnOrder(ts: seq<Transition>) returns (us: seq<Transition>, sid: ScreenId, eid: ElementId)
    requires !Functional(ts)
    ensures SameRows(ts, us) && !SameDestination(Lookup(ts, sid, eid), Lookup(us, sid, eid))
  {
    var s, t :| s in ts && t in ts && s.from == t.from && s.trigger == t.trigger && s.to != t.to;
    sid, eid := s.from, s.trigger;
    var first := Lookup(ts, sid, eid).value;
    var other := if first.to == s.to then t else s;
    us := MovedToFront(ts, other);
  }

  // The first-match lookup is independent of the row order exactly when every
  // trigger on a screen has one destination.
  lemma OrderIndependentIffFunctional(ts: seq<Transition>)
    ensures Functional(ts) <==>
            forall us, sid, eid :: SameRows(ts, us) ==> SameDestination(Lookup(ts, sid, eid), Lookup(us, sid, eid))
  {
    if Functional(ts) {
      forall us, sid, eid | SameRows(ts, us)
        ensures SameDestination(Lookup(ts, sid, eid), Lookup(us, sid, eid))
      {
        LookupIgnoresOrder(ts, us, sid, eid);
      }
    } else {
      var us, sid, eid := ConflictDependsOnOrder(ts);
    }
  }

  // The same study with other transition rows.
  function WithRows(cfg: Config, us: seq<Transition>): Config {
    cfg.(graph := cfg.graph.(transitions := us))
  }

  lemma SameMove(g: ScreenGraph, us: seq<Transition>, s: State, a: Action)
    requires Functional(g.transitions) && SameRows(g.transitions, us)
    ensures ExecuteNode(g, s, a) == ExecuteNode(g.(transitions := us), s, a)
  {
    if Navigates(a) { LookupIgnoresOrder(g.transitions, us, s.current, a.target.value); }
    hide Lookup;
  }

  lemma SameProgressOf(cfg: Config, us: seq<Transition>, s: State)
    ensures ProgressOf(cfg, s) == ProgressOf(WithRows(cfg, us), s)
  {
    var g, h := cfg.graph, cfg.graph.(transitions := us);
    assert forall e: Entry :: EntryElement(g, e) == EntryElement(h, e);
    assert forall e: Entry :: NamesHit(g, e) == NamesHit(h, e);
    assert forall e: Entry :: EntrySatisfies(g, cfg.task.success, e) == EntrySatisfies(h, cfg.task.success, e);
    hide EntryElement, NamesHit, EntrySatisfies;
    assert SuccessMet(g, cfg.task.success, s.current, s.actionHistory) == SuccessMet(h, cfg.task.success, s.current, s.actionHistory);
    assert Matched(g, cfg.task.critical, s.actionHistory) == Matched(h, cfg.task.critical, s.actionHistory);
    hide SuccessMet, Matched;
  }

  // A step depends on the rows through the action it executes only.
  lemma SameStep(cfg: Config, us: seq<Transition>, m: Machine, d: Draw)
    requires m.node == ExecuteAction && m.state.action.Some? ==>
               ExecuteNode(cfg.graph, m.state, m.state.action.value) ==
               ExecuteNode(cfg.graph.(transitions := us), m.state, m.state.action.value)
    ensures Step(cfg, m, d) == Step(WithRows(cfg, us), m, d)
  {
    SameProgressOf(cfg, us, m.state);
    assert WithRows(cfg, us).graph == cfg.graph.(transitions := us);
    hide ExecuteNode, ProgressOf, Pick, UncertaintyAfter, AbandonPressure, IntendedElement, Stuck, ActionCandidates;
  }

  // For given draws the whole trace is the same under every permutation of the
  // stored transition rows.
  lemma {:induction false} TraceIgnoresRowOrder(cfg: Config, us: seq<Transition>, start: ScreenId, draws: nat -> Draw, k: nat)
    requires Functional(cfg.graph.transitions) && SameRows(cfg.graph.transitions, us)
    ensures Run(cfg, start, draws, k) == Run(WithRows(cfg, us), start, draws, k)
  {
    hide Step;
    if k > 0 {
      TraceIgnoresRowOrder(cfg, us, start, draws, k - 1);
      var m := Run(cfg, start, draws, k - 1);
      if m.node == ExecuteAction && m.state.action.Some? { SameMove(cfg.graph, us, m.state, m.state.action.value); }
      hide ExecuteNode, Functional, SameRows;
      SameStep(cfg, us, m, draws(k - 1));
    }
  }
}
