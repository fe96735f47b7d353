/** The two breadth-first searches over a screen graph, each against the
    definition of reachability: the shortest-path baseline, which stops on
    discovery, and the set of reachable screens. */
module GraphSearch {
  import opened Domain
  import opened Reach

  // The transitions leaving one screen, in stored order.
  function TransitionsFrom(ts: seq<Transition>, sid: ScreenId): (r: seq<Transition>)
    ensures forall t :: t in r <==> t in ts && t.from == sid
  {
    if ts == [] then []
    else (if ts[0].from == sid then [ts[0]] else []) + TransitionsFrom(ts[1..], sid)
  }

  predicate HasCritical(g: ScreenGraph, critical: set<string>, sid: ScreenId) {
    g.Known(sid) && exists e :: e in g.Screen(sid).value.elements && e.Critical(critical)
  }

  // The screen has an element listed by its key or its role.
  ghost predicate HoldsListed(g: ScreenGraph, critical: set<string>, sid: ScreenId) {
    g.Known(sid) && exists e :: e in g.Screen(sid).value.elements && Listed(e, critical)
  }

  lemma CriticalIsListed(g: ScreenGraph, critical: set<string>, sid: ScreenId)
    ensures HasCritical(g, critical, sid) <==> HoldsListed(g, critical, sid)
  {
    forall e: ElementView
      ensures e.Critical(critical) <==> Listed(e, critical)
    {
      CriticalIs(e, critical);
    }
    hide ElementView.Critical, Listed;
  }

  // The least number of transitions to a screen that holds a critical element.
  ghost predicate Nearest(g: ScreenGraph, critical: set<string>, start: ScreenId, d: nat) {
    && (exists sid :: HasCritical(g, critical, sid) && Within(g.transitions, start, sid, d))
    && (forall sid, n :: HasCritical(g, critical, sid) && Within(g.transitions, start, sid, n) ==> d <= n)
  }

  // ---- the frontier ----

  type Dist = map<ScreenId, nat>

  // `dist` gives each visited screen the level it was found at; screens outside
  // the queue have had all their transitions followed.
  ghost predicate Explored(ts: seq<Transition>, start: ScreenId, dist: Dist, queue: set<ScreenId>, level: nat) {
    && start in dist && dist[start] == 0
    && queue <= dist.Keys
    && (forall x :: x in dist ==> Within(ts, start, x, dist[x]) && dist[x] <= level + 1)
    && (forall t :: t in ts && t.from in dist && t.from !in queue ==> t.to in dist && dist[t.to] <= dist[t.from] + 1)
    && (forall x :: x in queue ==> level <= dist[x])
  }

  // Every screen within n <= level transitions has been found, no later than n.
  lemma {:induction false} LevelsFound(ts: seq<Transition>, start: ScreenId, dist: Dist, queue: set<ScreenId>, level: nat, x: ScreenId, n: nat)
    requires Explored(ts, start, dist, queue, level)
    requires Within(ts, start, x, n) && (n <= level || queue == {})
    ensures x in dist && dist[x] <= n
    decreases n
  {
    if n > 0 {
      if Within(ts, start, x, n - 1) {
        LevelsFound(ts, start, dist, queue, level, x, n - 1);
      } else {
        var t :| t in ts && t.to == x && Within(ts, start, t.from, n - 1);
        LevelsFound(ts, start, dist, queue, level, t.from, n - 1);
      }
    }
  }

  lemma Discover(ts: seq<Transition>, start: ScreenId, dist: Dist, queue: set<ScreenId>, level: nat, t: Transition)
    requires Explored(ts, start, dist, queue, level)
    requires t in ts && t.from in queue && dist[t.from] == level && t.to !in dist
    ensures Explored(ts, start, dist[t.to := level + 1], queue + {t.to}, level)
  {
    assert Within(ts, start, t.to, level + 1);
  }

  lemma Settle(ts: seq<Transition>, start: ScreenId, dist: Dist, queue: set<ScreenId>, level: nat, sid: ScreenId)
    requires Explored(ts, start, dist, queue, level) && sid in dist
    requires forall t :: t in ts && t.from == sid ==> t.to in dist && dist[t.to] <= dist[sid] + 1
    ensures Explored(ts, start, dist, queue - {sid}, level)
  {}

  datatype Visit = Visit(screen: ScreenId, hops: nat)

  ghost function Queued(queue: seq<Visit>): set<ScreenId> {
    set v | v in queue :: v.screen
  }

  // The queue holds distinct visited screens in order of their level.
  ghost predicate InOrder(queue: seq<Visit>, dist: Dist) {
    && (forall v :: v in queue ==> v.screen in dist && dist[v.screen] == v.hops)
    && (forall i, j :: 0 <= i < j < |queue| ==> queue[i].hops <= queue[j].hops && queue[i].screen != queue[j].screen)
  }

  lemma PopFront(ts: seq<Transition>, start: ScreenId, dist: Dist, queue: seq<Visit>, level: nat)
    requires queue != [] && InOrder(queue, dist) && Explored(ts, start, dist, Queued(queue), level)
    ensures Explored(ts, start, dist, Queued(queue), queue[0].hops)
    ensures InOrder(queue[1..], dist) && Queued(queue) == Queued(queue[1..]) + {queue[0].screen}
    ensures queue[0].screen !in Queued(queue[1..])
  {
    assert queue == [queue[0]] + queue[1..];
    assert queue[0] in queue;
    forall x | x in Queued(queue)
      ensures queue[0].hops <= dist[x]
    {
      var v :| v in queue && v.screen == x;
    }
  }

  lemma PushBack(queue: seq<Visit>, dist: Dist, v: Visit)
    requires InOrder(queue, dist) && v.screen !in dist
    requires forall u :: u in queue ==> u.hops <= v.hops
    ensures InOrder(queue + [v], dist[v.screen := v.hops])
    ensures Queued(queue + [v]) == Queued(queue) + {v.screen}
  {
    forall u | u in queue
      ensures u.screen in Queued(queue)
    {}
    forall x | x in Queued(queue) + {v.screen}
      ensures x in Queued(queue + [v])
    {
      if x == v.screen { assert v in queue + [v]; }
      else {
        var u :| u in queue && u.screen == x;
        assert u in queue + [v];
      }
    }
  }

  lemma LevelsInQueue(ts: seq<Transition>, start: ScreenId, dist: Dist, queue: seq<Visit>, sid: ScreenId, level: nat)
    requires InOrder(queue, dist) && Explored(ts, start, dist, Queued(queue) + {sid}, level)
    ensures forall u :: u in queue ==> u.hops <= level + 1
  {
    forall u | u in queue
      ensures u.hops <= level + 1
    {
      assert u.screen in Queued(queue);
    }
  }

  // The state of the baseline search: `busy` holds the screen being expanded.
  ghost predicate Searching(g: ScreenGraph, critical: set<string>, start: ScreenId, dist: Dist, queue: seq<Visit>, busy: set<ScreenId>, level: nat) {
    && InOrder(queue, dist)
    && Explored(g.transitions, start, dist, Queued(queue) + busy, level)
    && busy !! Queued(queue)
    && (forall x :: x in busy ==> dist[x] == level)
    && (forall x :: x in dist ==> !HasCritical(g, critical, x))
  }

  lemma Begin(g: ScreenGraph, critical: set<string>, start: ScreenId)
    requires !HasCritical(g, critical, start)
    ensures Searching(g, critical, start, map[start := 0], [Visit(start, 0)], {}, 0)
  {
    assert Queued([Visit(start, 0)]) == {start} by { assert Visit(start, 0) in [Visit(start, 0)]; }
  }

  lemma Pop(g: ScreenGraph, critical: set<string>, start: ScreenId, dist: Dist, queue: seq<Visit>, level: nat)
    requires queue != [] && Searching(g, critical, start, dist, queue, {}, level)
    ensures Searching(g, critical, start, dist, queue[1..], {queue[0].screen}, queue[0].hops)
  {
    assert Queued(queue) + {} == Queued(queue);
    PopFront(g.transitions, start, dist, queue, level);
    assert queue[0] in queue;
  }

  lemma Enqueue(g: ScreenGraph, critical: set<string>, start: ScreenId, dist: Dist, queue: seq<Visit>, sid: ScreenId, level: nat, t: Transition)
    requires Searching(g, critical, start, dist, queue, {sid}, level)
    requires t in g.transitions && t.from == sid && t.to !in dist && !HasCritical(g, critical, t.to)
    ensures Searching(g, critical, start, dist[t.to := level + 1], queue + [Visit(t.to, level + 1)], {sid}, level)
  {
    hide HasCritical;
    LevelsInQueue(g.transitions, start, dist, queue, sid, level);
    Discover(g.transitions, start, dist, Queued(queue) + {sid}, level, t);
    PushBack(queue, dist, Visit(t.to, level + 1));
    assert Queued(queue) + {sid} + {t.to} == Queued(queue + [Visit(t.to, level + 1)]) + {sid};
  }

  lemma Settled(g: ScreenGraph, critical: set<string>, start: ScreenId, dist: Dist, queue: seq<Visit>, sid: ScreenId, level: nat)
    requires Searching(g, critical, start, dist, queue, {sid}, level)
    requires forall t :: t in g.transitions && t.from == sid ==> t.to in dist
    ensures Searching(g, critical, start, dist, queue, {}, level)
  {
    Settle(g.transitions, start, dist, Queued(queue) + {sid}, level, sid);
    assert Queued(queue) + {sid} - {sid} == Queued(queue) + {};
  }

  // A critical screen found while expanding a level is a nearest one.
  lemma FoundNearest(g: ScreenGraph, critical: set<string>, start: ScreenId, dist: Dist, queue: seq<Visit>, sid: ScreenId, level: nat, t: Transition)
    requires Searching(g, critical, start, dist, queue, {sid}, level)
    requires t in g.transitions && t.from == sid && HasCritical(g, critical, t.to)
    ensures Nearest(g, critical, start, level + 1)
  {
    hide HasCritical;
    assert Within(g.transitions, start, sid, level);
    assert Within(g.transitions, start, t.to, level + 1);
    forall x, n: nat | HasCritical(g, critical, x) && Within(g.transitions, start, x, n)
      ensures level + 1 <= n
    {
      if n <= level { LevelsFound(g.transitions, start, dist, Queued(queue) + {sid}, level, x, n); }
    }
  }

  lemma NothingFound(g: ScreenGraph, critical: set<string>, start: ScreenId, dist: Dist, level: nat)
    requires Searching(g, critical, start, dist, [], {}, level)
    ensures forall sid :: HasCritical(g, critical, sid) ==> !Reachable(g.transitions, start, sid)
  {
    hide HasCritical;
    assert Queued([]) + {} == {};
    forall sid, n: nat | HasCritical(g, critical, sid) && Within(g.transitions, start, sid, n)
      ensures false
    {
      LevelsFound(g.transitions, start, dist, {}, level, sid, n);
    }
  }

  lemma NearestReachable(g: ScreenGraph, critical: set<string>, start: ScreenId, d: nat)
    requires Nearest(g, critical, start, d)
    ensures exists sid :: HasCritical(g, critical, sid) && Reachable(g.transitions, start, sid)
  {
    hide HasCritical;
    var sid :| HasCritical(g, critical, sid) && Within(g.transitions, start, sid, d);
    assert Reachable(g.transitions, start, sid);
  }

  lemma NearestHere(g: ScreenGraph, critical: set<string>, start: ScreenId)
    requires HasCritical(g, critical, start)
    ensures Nearest(g, critical, start, 0)
  {
    assert Within(g.transitions, start, start, 0);
  }

  lemma NothingListed(g: ScreenGraph, critical: set<string>, start: ScreenId)
    ensures HoldsListed(g, critical, start) ==> critical != {} && g.Known(start)
  {}

  function Targets(ts: seq<Transition>): set<ScreenId> {
    set t | t in ts :: t.to
  }

  // Fewest (actions, screens) to trigger a critical element from the start
  // screen. The search answers as soon as it discovers a critical screen, and
  // that is nevertheless a nearest one; it answers nothing exactly when there
  // is no critical action, no such start, or no reachable critical screen.
  method ShortestPathBaseline(g: ScreenGraph, start: ScreenId, critical: set<string>) returns (r: Option<(nat, nat)>)
    ensures r.Some? ==> r.value.0 == r.value.1 + 1 && Nearest(g, critical, start, r.value.1)
    ensures r.None? <==> critical == {} || !g.Known(start)
                         || forall sid :: HasCritical(g, critical, sid) ==> !Reachable(g.transitions, start, sid)
    ensures r == Some((1, 0)) <==> HoldsListed(g, critical, start)
  {
    CriticalIsListed(g, critical, start);
    NothingListed(g, critical, start);
    hide Searching, HasCritical, HoldsListed, Nearest, Reachable;
    if critical == {} || !g.Known(start) {
      return None;
    }
    if HasCritical(g, critical, start) {
      NearestHere(g, critical, start);
      NearestReachable(g, critical, start, 0);
      return Some((1, 0));
    }
    Begin(g, critical, start);
    ghost var dist: Dist := map[start := 0];
    ghost var level := 0;
    var visited := {start};
    var queue := [Visit(start, 0)];
    while queue != []
      invariant visited == dist.Keys
      invariant Searching(g, critical, start, dist, queue, {}, level)
      decreases Targets(g.transitions) - visited, |queue|
    {
      Pop(g, critical, start, dist, queue, level);
      var sid, hops := queue[0].screen, queue[0].hops;
      queue, level := queue[1..], hops;
      ghost var entered, rest := visited, queue;
      var outs := TransitionsFrom(g.transitions, sid);
      for i := 0 to |outs|
        invariant visited == dist.Keys
        invariant Searching(g, critical, start, dist, queue, {sid}, hops)
        invariant forall j :: 0 <= j < i ==> outs[j].to in visited
        invariant entered <= visited <= entered + Targets(g.transitions)
        invariant entered == visited ==> queue == rest
      {
        var t := outs[i];
        assert t in outs;
        if t.to !in visited {
          visited := visited + {t.to};
          if HasCritical(g, critical, t.to) {
            FoundNearest(g, critical, start, dist, queue, sid, hops, t);
            NearestReachable(g, critical, start, hops + 1);
            return Some((hops + 2, hops + 1));
          }
          Enqueue(g, critical, start, dist, queue, sid, hops, t);
          queue := queue + [Visit(t.to, hops + 1)];
          dist := dist[t.to := hops + 1];
        }
      }
      Settled(g, critical, start, dist, queue, sid, hops);
    }
    NothingFound(g, critical, start, dist, level);
    return None;
  }
}
