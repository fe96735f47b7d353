/** From the edges a vision model reports to the stored transitions: resolving
    references, one destination per trigger, and choosing among attempts. */
module ScreenTransitions {
  import opened Domain
  import opened Reach
  import opened ScreenRoles
  import opened SimulationReplay

  datatype Inferred = Inferred(fromKey: string, elementKey: string, action: string, toKey: string)

  // The last screen carrying a key.
  function LastKeyed(screens: seq<ScreenView>, key: string): (r: Option<ScreenView>)
    ensures r.Some? ==> r.value in screens && r.value.screenKey == key
    ensures r.None? ==> forall sc :: sc in screens ==> sc.screenKey != key
  {
    if screens == [] then None
    else if screens[|screens| - 1].screenKey == key then Some(screens[|screens| - 1])
    else LastKeyed(screens[..|screens| - 1], key)
  }

  function LastNamed(elements: seq<ElementView>, key: string): (r: Option<ElementView>)
    ensures r.Some? ==> r.value in elements && r.value.elementKey == key
    ensures r.None? ==> forall e :: e in elements ==> e.elementKey != key
  {
    if elements == [] then None
    else if elements[|elements| - 1].elementKey == key then Some(elements[|elements| - 1])
    else LastNamed(elements[..|elements| - 1], key)
  }

  // The last element stored under (screen key, element key).
  function TriggerOn(screens: seq<ScreenView>, key: string, elementKey: string): (r: Option<ElementView>)
    ensures r.Some? ==> exists sc :: sc in screens && sc.screenKey == key && r.value in sc.elements && r.value.elementKey == elementKey
    ensures r.None? ==> forall sc, e :: sc in screens && sc.screenKey == key && e in sc.elements ==> e.elementKey != elementKey
  {
    if screens == [] then None
    else
      var last := screens[|screens| - 1];
      if last.screenKey == key && LastNamed(last.elements, elementKey).Some? then LastNamed(last.elements, elementKey)
      else TriggerOn(screens[..|screens| - 1], key, elementKey)
  }

  // One reported edge, mapped onto surviving screens; nothing when a reference
  // does not resolve or both ends collapse onto one screen.
  function Resolve(screens: seq<ScreenView>, canonical: map<string, string>, edge: Inferred): Option<Transition> {
    var fromKey, toKey := Canonical(canonical, edge.fromKey), Canonical(canonical, edge.toKey);
    var from, to, trigger := LastKeyed(screens, fromKey), LastKeyed(screens, toKey), TriggerOn(screens, fromKey, edge.elementKey);
    if from.None? || to.None? || trigger.None? || from.value.id == to.value.id then None
    else Some(Transition(from.value.id, trigger.value.id, edge.action, to.value.id))
  }

  predicate SameTrigger(a: Transition, b: Transition) {
    a.from == b.from && a.trigger == b.trigger
  }

  // Edge k is resolvable and no earlier resolvable edge has its trigger.
  ghost predicate FirstOfTrigger(rs: seq<Option<Transition>>, k: nat) {
    k < |rs| && rs[k].Some?
    && forall j :: 0 <= j < k && rs[j].Some? ==> !SameTrigger(rs[j].value, rs[k].value)
  }

  // The stored transitions are exactly the first resolvable edge of each
  // trigger, in the order they were reported: `source` gives their positions.
  ghost predicate FirstWins(rs: seq<Option<Transition>>, ts: seq<Transition>, source: seq<nat>) {
    && |source| == |ts|
    && (forall i :: 0 <= i < |ts| ==> FirstOfTrigger(rs, source[i]) && ts[i] == rs[source[i]].value)
    && (forall i, j :: 0 <= i < j < |source| ==> source[i] < source[j])
    && (forall k: nat :: FirstOfTrigger(rs, k) ==> k in source)
  }

  // Membership does not depend on which of several lists of positions is given.
  lemma StoredIff(rs: seq<Option<Transition>>, ts: seq<Transition>, source: seq<nat>, t: Transition)
    requires FirstWins(rs, ts, source)
    ensures t in ts <==> exists k: nat :: FirstOfTrigger(rs, k) && rs[k] == Some(t)
  {
    if k: nat :| FirstOfTrigger(rs, k) && rs[k] == Some(t) {
      var i :| 0 <= i < |source| && source[i] == k;
      assert ts[i] == t;
    }
  }

  ghost function Resolved(screens: seq<ScreenView>, canonical: map<string, string>, inferred: seq<Inferred>): (rs: seq<Option<Transition>>)
    ensures |rs| == |inferred| && forall i :: 0 <= i < |inferred| ==> rs[i] == Resolve(screens, canonical, inferred[i])
  {
    seq(|inferred|, i requires 0 <= i < |inferred| => Resolve(screens, canonical, inferred[i]))
  }

  lemma FirstWinsGrows(rs: seq<Option<Transition>>, ts: seq<Transition>, source: seq<nat>, r: Option<Transition>)
    requires FirstWins(rs, ts, source)
    ensures r.None? || (exists t :: t in ts && SameTrigger(t, r.value)) ==> FirstWins(rs + [r], ts, source)
    ensures r.Some? && (forall t :: t in ts ==> !SameTrigger(t, r.value)) ==> FirstWins(rs + [r], ts + [r.value], source + [|rs|])
  {
    var rs' := rs + [r];
    forall k: nat | k < |rs|
      ensures FirstOfTrigger(rs', k) <==> FirstOfTrigger(rs, k)
    {
      assert forall j :: 0 <= j <= k ==> rs'[j] == rs[j];
    }
    if r.Some? {
      NewTrigger(rs, ts, source, r.value);
    }
  }

  // A trigger is new among the stored transitions exactly when it is new among
  // all resolvable edges.
  lemma NewTrigger(rs: seq<Option<Transition>>, ts: seq<Transition>, source: seq<nat>, t: Transition)
    requires FirstWins(rs, ts, source)
    ensures FirstOfTrigger(rs + [Some(t)], |rs|) <==> forall u :: u in ts ==> !SameTrigger(u, t)
  {
    var rs' := rs + [Some(t)];
    if j :| 0 <= j < |rs| && rs[j].Some? && SameTrigger(rs[j].value, t) {
      var k := EarliestOfTrigger(rs, t, j);
      var i :| 0 <= i < |source| && source[i] == k;
      assert ts[i] in ts && SameTrigger(ts[i], t);
      assert rs'[j] == rs[j];
    }
  }

  lemma {:induction false} EarliestOfTrigger(rs: seq<Option<Transition>>, t: Transition, j: nat) returns (k: nat)
    requires j < |rs| && rs[j].Some? && SameTrigger(rs[j].value, t)
    ensures k <= j && FirstOfTrigger(rs, k) && SameTrigger(rs[k].value, t)
  {
    if i :| 0 <= i < j && rs[i].Some? && SameTrigger(rs[i].value, rs[j].value) {
      k := EarliestOfTrigger(rs, t, i);
    } else {
      k := j;
    }
  }

  // The transitions are those of `FirstWins` for the inferred edges.
  ghost predicate ResolvedFrom(screens: seq<ScreenView>, canonical: map<string, string>, inferred: seq<Inferred>, ts: seq<Transition>) {
    exists source :: FirstWins(Resolved(screens, canonical, inferred), ts, source)
  }

  method ResolveTransitions(screens: seq<ScreenView>, inferred: seq<Inferred>, canonical: map<string, string>)
    returns (transitions: seq<Transition>)
    ensures ResolvedFrom(screens, canonical, inferred, transitions)
  {
    hide Resolve, FirstOfTrigger, FirstWins;
    transitions := [];
    var seenTriggers: map<(ScreenId, ElementId), ScreenId> := map[];
    ghost var rs := Resolved(screens, canonical, inferred);
    ghost var source: seq<nat> := [];
    EmptyFirstWins();
    for i := 0 to |inferred|
      invariant FirstWins(rs[..i], transitions, source)
      invariant forall t :: t in transitions ==> (t.from, t.trigger) in seenTriggers
      invariant forall p :: p in seenTriggers ==> exists t :: t in transitions && (t.from, t.trigger) == p
    {
      var r := Resolve(screens, canonical, inferred[i]);
      FirstWinsGrows(rs[..i], transitions, source, r);
      assert rs[..i + 1] == rs[..i] + [r];
      if r.Some? {
        if (r.value.from, r.value.trigger) in seenTriggers {
          assert exists t :: t in transitions && SameTrigger(t, r.value);
        } else {
          seenTriggers := seenTriggers[(r.value.from, r.value.trigger) := r.value.to];
          transitions := transitions + [r.value];
          source := source + [i];
        }
      }
    }
    assert rs[..|inferred|] == rs;
  }

  lemma EmptyFirstWins()
    ensures FirstWins([], [], [])
  {}

  // What every list of resolved transitions is, whatever the model reported.
  lemma ResolvedGraph(screens: seq<ScreenView>, canonical: map<string, string>, inferred: seq<Inferred>, ts: seq<Transition>, source: seq<nat>)
    requires FirstWins(Resolved(screens, canonical, inferred), ts, source)
    ensures Functional(ts) && Loopless(ts) && ScreenGraph(screens, ts).Closed()
    ensures forall i, j :: 0 <= i < j < |ts| ==> !SameTrigger(ts[i], ts[j])
  {
    var rs := Resolved(screens, canonical, inferred);
    forall i | 0 <= i < |ts|
      ensures ts[i].from != ts[i].to && ScreenGraph(screens, ts).Known(ts[i].to)
    {
      assert rs[source[i]] == Resolve(screens, canonical, inferred[source[i]]);
    }
    forall i, j | 0 <= i < j < |ts|
      ensures !SameTrigger(ts[i], ts[j])
    {
      assert FirstOfTrigger(rs, source[i]) && FirstOfTrigger(rs, source[j]);
    }
  }

  ghost predicate UniqueKeys(screens: seq<ScreenView>) {
    forall a, b :: a in screens && b in screens && a.screenKey == b.screenKey ==> a == b
  }

  ghost predicate Holds(screen: ScreenView, elementKey: string) {
    exists e :: e in screen.elements && e.elementKey == elementKey
  }

  // When the last screen with a key has an element of that name, the trigger is
  // looked up on that screen.
  lemma {:induction false} TriggerOnLast(screens: seq<ScreenView>, key: string, elementKey: string)
    requires LastKeyed(screens, key).Some? && Holds(LastKeyed(screens, key).value, elementKey)
    ensures TriggerOn(screens, key, elementKey) == LastNamed(LastKeyed(screens, key).value.elements, elementKey)
  {
    if screens[|screens| - 1].screenKey != key {
      TriggerOnLast(screens[..|screens| - 1], key, elementKey);
    }
  }

  // Where the transition of one reported edge comes from: the last screens with
  // the collapsed keys, and an element found under the key of the first of them.
  ghost predicate ComesFrom(screens: seq<ScreenView>, canonical: map<string, string>, edge: Inferred, t: Transition,
                            from: ScreenView, to: ScreenView, owner: ScreenView, e: ElementView) {
    && t == Transition(from.id, e.id, edge.action, to.id)
    && LastKeyed(screens, Canonical(canonical, edge.fromKey)) == Some(from)
    && LastKeyed(screens, Canonical(canonical, edge.toKey)) == Some(to)
    && owner in screens && owner.screenKey == from.screenKey
    && e in owner.elements && e.elementKey == edge.elementKey
  }

  lemma ResolvedFromEdge(screens: seq<ScreenView>, canonical: map<string, string>, edge: Inferred)
      returns (from: ScreenView, to: ScreenView, owner: ScreenView, e: ElementView)
    requires Resolve(screens, canonical, edge).Some?
    ensures ComesFrom(screens, canonical, edge, Resolve(screens, canonical, edge).value, from, to, owner, e)
    ensures TriggerOn(screens, from.screenKey, edge.elementKey) == Some(e)
  {
    var fromKey := Canonical(canonical, edge.fromKey);
    from, to := LastKeyed(screens, fromKey).value, LastKeyed(screens, Canonical(canonical, edge.toKey)).value;
    e := TriggerOn(screens, fromKey, edge.elementKey).value;
    owner :| owner in screens && owner.screenKey == fromKey && e in owner.elements && e.elementKey == edge.elementKey;
  }

  lemma OwnElementIff(screens: seq<ScreenView>, from: ScreenView, owner: ScreenView, e: ElementView, elementKey: string)
    requires LastKeyed(screens, from.screenKey) == Some(from) && TriggerOn(screens, from.screenKey, elementKey) == Some(e)
    requires owner in screens && owner.screenKey == from.screenKey && e in owner.elements && e.elementKey == elementKey
    ensures e in from.elements <==> Holds(from, elementKey)
    ensures UniqueKeys(screens) ==> e in from.elements
  {
    if Holds(from, elementKey) { TriggerOnLast(screens, from.screenKey, elementKey); }
    hide TriggerOn;
    if UniqueKeys(screens) { assert from in screens && owner == from; }
  }

  // A stored transition leaves and enters screens that were not collapsed away,
  // the last ones with their keys, and carries the references and the action of
  // the edge it came from. Its trigger is an element of a screen with the key of
  // the screen it leaves; it is an element of that very screen exactly when that
  // screen has one of the reported name, which distinct screen keys guarantee.
  lemma ResolvedEnds(order: map<string, nat>, roles: Roles, screens: seq<ScreenView>, canonical: map<string, string>, edge: Inferred)
      returns (from: ScreenView, to: ScreenView, owner: ScreenView, e: ElementView)
    requires Backward(order, roles) && canonical.Keys == roles.Keys
    requires forall k :: k in roles ==> canonical[k] == Root(order, roles, k)
    requires Resolve(screens, canonical, edge).Some?
    ensures ComesFrom(screens, canonical, edge, Resolve(screens, canonical, edge).value, from, to, owner, e)
    ensures Canonical(canonical, from.screenKey) == from.screenKey && Canonical(canonical, to.screenKey) == to.screenKey
    ensures e in from.elements <==> Holds(from, edge.elementKey)
    ensures UniqueKeys(screens) ==> e in from.elements
  {
    CanonicalIsFixed(order, roles, canonical, edge.fromKey);
    CanonicalIsFixed(order, roles, canonical, edge.toKey);
    from, to, owner, e := ResolvedFromEdge(screens, canonical, edge);
    hide Root, TriggerOn, UniqueKeys, Holds, Resolve;
    OwnElementIff(screens, from, owner, e, edge.elementKey);
  }

  const EARLIER := ScreenView(0, "home", [ElementView(0, "go", "button", None, true)])
  const LATER := ScreenView(1, "home", [])
  const ELSEWHERE := ScreenView(2, "next", [])

  // Two screens of one key: the edge leaves the later one by an element that only
  // the earlier one has, so it can never be followed.
  lemma TriggerCanLieElsewhere()
    ensures var screens := [EARLIER, LATER, ELSEWHERE];
            var t := Resolve(screens, map[], Inferred("home", "go", "click", "next"));
            t == Some(Transition(LATER.id, 0, "click", ELSEWHERE.id)) && LATER.Element(0).None?
  {
    var screens := [EARLIER, LATER, ELSEWHERE];
    assert screens[..2] == [EARLIER, LATER] && screens[..2][..1] == [EARLIER];
    assert "home"[0] != "next"[0];
    assert LastKeyed(screens[..2], "home") == Some(LATER);
    assert LastKeyed(screens, "home") == Some(LATER);
    var go := EARLIER.elements[0];
    assert LastNamed(EARLIER.elements, "go") == Some(go);
    assert TriggerOn([EARLIER], "home", "go") == Some(go);
    assert TriggerOn(screens[..2], "home", "go") == Some(go);
    assert TriggerOn(screens, "home", "go") == Some(go);
  }

  // ---- scoring attempts ----

  ghost predicate IsReach(ts: seq<Transition>, start: ScreenId, reached: set<ScreenId>) {
    forall x :: x in reached <==> Reachable(ts, start, x)
  }

  // Found so far: all reachable, and closed except for the queued screens.
  ghost predicate Spreading(ts: seq<Transition>, start: ScreenId, seen: set<ScreenId>, open: set<ScreenId>) {
    && start in seen && open <= seen
    && (forall x :: x in seen ==> Reachable(ts, start, x))
    && (forall t :: t in ts && t.from in seen && t.from !in open ==> t.to in seen)
  }

  lemma {:induction false} SpreadCovers(ts: seq<Transition>, start: ScreenId, seen: set<ScreenId>, x: ScreenId, n: nat)
    requires Spreading(ts, start, seen, {}) && Within(ts, start, x, n)
    ensures x in seen
    decreases n
  {
    if n > 0 {
      if Within(ts, start, x, n - 1) {
        SpreadCovers(ts, start, seen, x, n - 1);
      } else {
        var t :| t in ts && t.to == x && Within(ts, start, t.from, n - 1);
        SpreadCovers(ts, start, seen, t.from, n - 1);
      }
    }
  }

  lemma ReachStep(ts: seq<Transition>, start: ScreenId, t: Transition)
    requires t in ts && Reachable(ts, start, t.from)
    ensures Reachable(ts, start, t.to)
  {
    var n: nat :| Within(ts, start, t.from, n);
    assert Within(ts, start, t.to, n + 1);
  }

  lemma SpreadFrom(ts: seq<Transition>, start: ScreenId)
    ensures Spreading(ts, start, {start}, {start})
  {
    assert Within(ts, start, start, 0);
  }

  lemma SpreadEnds(ts: seq<Transition>, start: ScreenId, seen: set<ScreenId>)
    requires Spreading(ts, start, seen, {})
    ensures IsReach(ts, start, seen)
  {
    forall x | Reachable(ts, start, x)
      ensures x in seen
    {
      var n: nat :| Within(ts, start, x, n);
      SpreadCovers(ts, start, seen, x, n);
    }
  }

  // Following one edge out of an open screen.
  lemma SpreadStep(ts: seq<Transition>, start: ScreenId, seen: set<ScreenId>, open: set<ScreenId>, t: Transition)
    requires Spreading(ts, start, seen, open) && t in ts && t.from in open
    ensures Spreading(ts, start, seen + {t.to}, open + {t.to})
  {
    hide Within;
    ReachStep(ts, start, t);
  }

  // A screen whose edges have all been followed is closed.
  lemma SpreadClose(ts: seq<Transition>, start: ScreenId, seen: set<ScreenId>, open: set<ScreenId>, x: ScreenId)
    requires Spreading(ts, start, seen, open + {x})
    requires forall t :: t in ts && t.from == x ==> t.to in seen
    ensures Spreading(ts, start, seen, open)
  {
    hide Reachable;
  }

  function QueueSet(queue: seq<ScreenId>): set<ScreenId> {
    set x | x in queue
  }

  // The screens reachable from the screen keyed `startKey`, no more and no fewer.
  method ReachableScreens(screens: seq<ScreenView>, ts: seq<Transition>, startKey: string) returns (seen: set<ScreenId>)
    ensures var start := LastKeyed(screens, startKey);
            if start.None? then seen == {} else IsReach(ts, start.value.id, seen)
  {
    hide Reachable, IsReach, Spreading;
    var startScreen := LastKeyed(screens, startKey);
    if startScreen.None? {
      return {};
    }
    var start := startScreen.value.id;
    seen := {start};
    var queue := [start];
    SpreadFrom(ts, start);
    var all := set t | t in ts :: t.to;
    assert QueueSet(queue) == {start};
    while queue != []
      invariant Spreading(ts, start, seen, QueueSet(queue))
      decreases all - seen, |queue|
    {
      var current := queue[0];
      ghost var before, rest := seen, queue[1..];
      assert queue == [current] + rest;
      queue := queue[1..];
      assert QueueSet([current] + rest) == QueueSet(rest) + {current};
      for i := 0 to |ts|
        invariant before <= seen <= before + all && (seen == before ==> queue == rest)
        invariant Spreading(ts, start, seen, QueueSet(queue) + {current})
        invariant forall j :: 0 <= j < i && ts[j].from == current ==> ts[j].to in seen
      {
        var t := ts[i];
        if t.from == current && t.to !in seen {
          SpreadStep(ts, start, seen, QueueSet(queue) + {current}, t);
          assert QueueSet(queue + [t.to]) + {current} == QueueSet(queue) + {current} + {t.to};
          seen := seen + {t.to};
          queue := queue + [t.to];
        }
      }
      SpreadClose(ts, start, seen, QueueSet(queue), current);
    }
    assert QueueSet(queue) == {};
    SpreadEnds(ts, start, seen);
  }

  const MAX_TRANSITION_INFERENCE_ATTEMPTS: nat := 3

  // What became of one attempt: how much it reaches and whether it connects.
  datatype Attempt = Attempt(reached: nat, connects: bool)

  // The attempts are consumed up to and including the first that connects, and
  // the chosen one is the earliest of those reaching the most screens.
  ghost predicate BestOf(attempts: seq<Attempt>, consumed: nat, chosen: nat) {
    && chosen < consumed <= |attempts|
    && (forall j :: 0 <= j < consumed - 1 ==> !attempts[j].connects)
    && (consumed < |attempts| ==> attempts[consumed - 1].connects)
    && (forall j :: 0 <= j < consumed ==> attempts[j].reached <= attempts[chosen].reached)
    && (forall j :: 0 <= j < chosen ==> attempts[j].reached < attempts[chosen].reached)
  }

  // An attempt that connects entry to success stops the loop, but it is the one
  // returned exactly when it reaches strictly more than every attempt before it.
  lemma ConnectingAttemptReturnedIff(attempts: seq<Attempt>, consumed: nat, chosen: nat)
    requires BestOf(attempts, consumed, chosen) && attempts[consumed - 1].connects
    ensures attempts[chosen].connects <==> chosen == consumed - 1
    ensures chosen == consumed - 1 <==> forall j :: 0 <= j < consumed - 1 ==> attempts[j].reached < attempts[consumed - 1].reached
  {
    if chosen != consumed - 1 { assert attempts[chosen].reached >= attempts[consumed - 1].reached; }
  }

  // The screen whose key marks success: the first one, if any.
  function SuccessId(screens: seq<ScreenView>, successKey: Option<string>): Option<ScreenId> {
    if successKey.None? || FirstKeyed(screens, successKey.value).None? then None
    else Some(FirstKeyed(screens, successKey.value).value.id)
  }

  // `a` sums up one attempt's transitions.
  ghost predicate SumsUp(screens: seq<ScreenView>, ts: seq<Transition>, entryKey: string, successKey: Option<string>, a: Attempt) {
    exists reached: set<ScreenId> ::
      && a.reached == |reached|
      && (if LastKeyed(screens, entryKey).None? then reached == {} else IsReach(ts, LastKeyed(screens, entryKey).value.id, reached))
      && (a.connects <==> SuccessId(screens, successKey).Some? && SuccessId(screens, successKey).value in reached)
  }

  lemma SummedUp(screens: seq<ScreenView>, ts: seq<Transition>, entryKey: string, successKey: Option<string>, reached: set<ScreenId>)
    requires var start := LastKeyed(screens, entryKey);
             if start.None? then reached == {} else IsReach(ts, start.value.id, reached)
    ensures var success := SuccessId(screens, successKey);
            SumsUp(screens, ts, entryKey, successKey, Attempt(|reached|, success.Some? && success.value in reached))
  {
    hide IsReach, LastKeyed, SuccessId;
  }

  // One of the consumed attempts is kept, by the rule of `BestOf`.
  ghost predicate Kept(screens: seq<ScreenView>, canonical: map<string, string>, entryKey: string, successKey: Option<string>,
                       inferences: seq<seq<Inferred>>, best: seq<Transition>,
                       tried: seq<seq<Transition>>, attempts: seq<Attempt>, chosen: nat) {
    && 1 <= |tried| == |attempts| <= |inferences| && chosen < |tried| && best == tried[chosen]
    && (forall j :: 0 <= j < |tried| ==> ResolvedFrom(screens, canonical, inferences[j], tried[j])
                                         && SumsUp(screens, tried[j], entryKey, successKey, attempts[j]))
    && (|tried| < |inferences| ==> attempts[|tried| - 1].connects)
    && BestOf(attempts, |tried|, chosen)
  }

  // Asks for at most three inferences and keeps one. Without an entry screen
  // the first answer is kept; otherwise the choice is that of `BestOf`.
  method InferBestTransitions(screens: seq<ScreenView>, canonical: map<string, string>, entryKey: Option<string>,
                              successKey: Option<string>, inferences: seq<seq<Inferred>>)
    returns (best: seq<Transition>, ghost tried: seq<seq<Transition>>, ghost attempts: seq<Attempt>, ghost chosen: nat)
    requires |inferences| == 3
    ensures entryKey.None? ==> ResolvedFrom(screens, canonical, inferences[0], best)
    ensures entryKey.Some? ==>
              Kept(screens, canonical, entryKey.value, successKey, inferences, best, tried, attempts, chosen)
  {
    hide IsReach, ResolvedFrom, SumsUp, LastKeyed, SuccessId;
    tried, attempts, chosen := [], [], 0;
    if entryKey.None? {
      best := ResolveTransitions(screens, inferences[0], canonical);
      return;
    }
    best := [];
    var bestReached := -1;
    var stop := false;
    var n := 0;
    while n < MAX_TRANSITION_INFERENCE_ATTEMPTS && !stop
      invariant 0 <= n <= |inferences| && |tried| == |attempts| == n
      invariant n > 0 ==> chosen < n && best == tried[chosen] && bestReached == attempts[chosen].reached
      invariant n == 0 ==> bestReached == -1 && !stop
      invariant forall j :: 0 <= j < n ==> ResolvedFrom(screens, canonical, inferences[j], tried[j])
                                           && SumsUp(screens, tried[j], entryKey.value, successKey, attempts[j])
      invariant forall j :: 0 <= j < n ==> attempts[j].reached <= bestReached
      invariant forall j :: 0 <= j < chosen && j < n ==> attempts[j].reached < bestReached
      invariant forall j :: 0 <= j < n - 1 ==> !attempts[j].connects
      invariant n > 0 ==> (attempts[n - 1].connects <==> stop)
    {
      var ts := ResolveTransitions(screens, inferences[n], canonical);
      var reached := ReachableScreens(screens, ts, entryKey.value);
      if |reached| > bestReached {
        best, bestReached, chosen := ts, |reached|, n;
      }
      SummedUp(screens, ts, entryKey.value, successKey, reached);
      var success := SuccessId(screens, successKey);
      stop := success.Some? && success.value in reached;
      tried, attempts := tried + [ts], attempts + [Attempt(|reached|, stop)];
      n := n + 1;
    }
  }
}
