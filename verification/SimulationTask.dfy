/** What a task asks for, in the keys and roles of the elements acted on: the
    intended element of a screen, the critical actions collected, the finish line
    and the progress a state is given. */
module SimulationTask {
  import opened Basics
  import opened Domain
  import opened Sampling
  import opened SimulationGraph
  import opened SimulationProgress
  import opened SimulationWalk

  // The intended element is the first of the screen that is listed.
  lemma IntendedByFields(elements: seq<ElementView>, critical: set<string>, i: nat)
    requires i < |elements|
    requires forall j :: 0 <= j < i ==> !Listed(elements[j], critical)
    ensures Listed(elements[i], critical) ==> IntendedElement(elements, critical) == Some(elements[i])
    ensures IntendedElement(elements, critical) == None <==> forall e :: e in elements ==> !Listed(e, critical)
  {
    forall e: ElementView
      ensures e.Critical(critical) <==> Listed(e, critical)
    {
      CriticalIs(e, critical);
    }
    hide ElementView.Critical, Listed, IntendedElement;
    if Listed(elements[i], critical) { IntendedIsFirst(elements, critical, i); }
  }

  // Entry i of the action history acted on this element.
  ghost predicate ActedOn(g: ScreenGraph, history: seq<Entry>, i: int, e: ElementView) {
    0 <= i < |history| && history[i].target == Some(e.id) && exists sc :: sc in g.screens && e in sc.elements
  }

  lemma EntryIs(g: ScreenGraph, entry: Entry, e: ElementView)
    requires g.UniqueElements()
    ensures EntryElement(g, entry) == Some(e) <==>
            entry.target == Some(e.id) && exists sc :: sc in g.screens && e in sc.elements
  {
    if entry.target == Some(e.id) && exists sc :: sc in g.screens && e in sc.elements {
      var sc :| sc in g.screens && e in sc.elements;
      FindsTheElement(g, e.id, sc, e);
    }
  }

  // The critical actions collected: the listed keys and roles of the elements
  // acted on, "" standing for a role that is missing.
  lemma MatchedByFields(g: ScreenGraph, critical: set<string>, history: seq<Entry>, text: string)
    requires g.UniqueElements()
    ensures text in Matched(g, critical, history) <==>
            text in critical && exists i, e :: ActedOn(g, history, i, e) && NamedBy(e, text)
  {
    hide ScreenGraph.UniqueElements, EntryElement, NamedBy, ElementView.Names;
    if i :| 0 <= i < |history| && text in NamesHit(g, history[i]) {
      var e := EntryElement(g, history[i]).value;
      EntryIs(g, history[i], e);
      NamesAre(e, text);
      assert ActedOn(g, history, i, e);
    }
    if i, e :| ActedOn(g, history, i, e) && NamedBy(e, text) {
      EntryIs(g, history[i], e);
      NamesAre(e, text);
      assert text in NamesHit(g, history[i]);
    }
  }

  // Acting on an element with a listed role collects that role, now and for good.
  lemma RoleIsCollected(g: ScreenGraph, critical: set<string>, history: seq<Entry>, i: nat, e: ElementView, role: string)
    requires g.UniqueElements() && ActedOn(g, history, i, e) && e.semanticRole == Some(role) && role in critical
    ensures role in Matched(g, critical, history)
  {
    MatchedByFields(g, critical, history, role);
  }

  // The finish line of the success conditions: the current screen has the key, or
  // some element acted on has the key or the role; a null condition is never met.
  ghost predicate Succeeded(g: ScreenGraph, success: SuccessConditions, current: ScreenId, history: seq<Entry>) {
    || (g.Known(current) && success.screenKey == Value(g.Screen(current).value.screenKey))
    || (exists i, e :: ActedOn(g, history, i, e) && success.elementKey == Value(e.elementKey))
    || (exists i, e :: ActedOn(g, history, i, e) && e.semanticRole.Some? && success.semanticRole == Value(e.semanticRole.value))
  }

  lemma SatisfiesIs(success: SuccessConditions, e: ElementView)
    ensures Satisfies(success.elementKey, Some(e.elementKey)) <==> success.elementKey == Value(e.elementKey)
    ensures Satisfies(success.semanticRole, e.semanticRole) <==>
            e.semanticRole.Some? && success.semanticRole == Value(e.semanticRole.value)
  {}

  lemma SuccessByFields(g: ScreenGraph, success: SuccessConditions, current: ScreenId, history: seq<Entry>)
    requires g.UniqueElements()
    ensures SuccessMet(g, success, current, history) <==> Succeeded(g, success, current, history)
  {
    hide ScreenGraph.UniqueElements, EntryElement;
    if i :| 0 <= i < |history| && EntrySatisfies(g, success, history[i]) {
      var e := EntryElement(g, history[i]).value;
      EntryIs(g, history[i], e);
      SatisfiesIs(success, e);
      assert ActedOn(g, history, i, e);
    }
    if i, e :| ActedOn(g, history, i, e)
               && (success.elementKey == Value(e.elementKey)
                   || (e.semanticRole.Some? && success.semanticRole == Value(e.semanticRole.value))) {
      EntryIs(g, history[i], e);
      SatisfiesIs(success, e);
      assert EntrySatisfies(g, success, history[i]);
    }
  }

  // ---- progress ----

  lemma RatioTimes(part: nat, whole: nat)
    requires whole > 0
    ensures Times(Ratio(part, whole), whole as real) == part as real
  {}

  // Progress is 1 when the finish line is met. Otherwise, with n critical actions
  // of which k are collected, it is k / n, held at 0.99 when there is a finish line
  // to meet; without critical actions it is 0.15 for each distinct screen of the
  // walk, held at 0.9.
  ghost predicate ProgressIs(cfg: Config, s: State, progress: real) {
    var critical, named := cfg.task.critical,
        cfg.task.success.screenKey != Absent || cfg.task.success.elementKey != Absent || cfg.task.success.semanticRole != Absent;
    if Succeeded(cfg.graph, cfg.task.success, s.current, s.actionHistory) then progress == 1.0
    else if critical != {} then
      var collected := |Matched(cfg.graph, critical, s.actionHistory)|;
      if named && collected as real > 0.99 * |critical| as real then progress == 0.99
      else Times(progress, |critical| as real) == collected as real
    else
      var screens := |set sid | sid in Path(s)|;
      progress == if screens >= 6 then 0.9 else 0.15 * screens as real
  }

  lemma SignOfProduct(a: real, w: real)
    requires w > 0.0
    ensures Times(a, w) > 0.0 <==> a > 0.0
  {}

  lemma CappedRatio(part: nat, whole: nat)
    requires whole > 0
    ensures Ratio(part, whole) > 0.99 <==> part as real > 0.99 * whole as real
  {
    var w, q := whole as real, Ratio(part, whole);
    RatioTimes(part, whole);
    SignOfProduct(q - 0.99, w);
    assert Times(q - 0.99, w) == Times(q, w) - 0.99 * w;
    hide Times, Ratio;
  }

  lemma ProgressByFields(cfg: Config, s: State)
    requires cfg.graph.UniqueElements()
    ensures ProgressIs(cfg, s, ProgressOf(cfg, s))
  {
    SuccessByFields(cfg.graph, cfg.task.success, s.current, s.actionHistory);
    hide Succeeded, SuccessMet, Times, Matched, Ratio;
    if cfg.task.critical != {} {
      var k, n := |Matched(cfg.graph, cfg.task.critical, s.actionHistory)|, |cfg.task.critical|;
      RatioTimes(k, n);
      CappedRatio(k, n);
    } else {
      assert (set sid | sid in Path(s)) == (set sid | sid in s.history) + {s.current};
    }
  }
}
