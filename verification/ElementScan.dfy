/** The fused scan: one pass over every observation of every participant fills
    all the dictionaries, and the six metrics are read off them. */
module ElementScan {
  import opened Domain
  import opened ElementMetrics

  // ---- dictionaries ----

  function Members(d: map<ElementId, set<RunId>>, e: ElementId): set<RunId> {
    if e in d then d[e] else {}
  }

  function AddTo(d: map<ElementId, set<RunId>>, e: ElementId, id: RunId): map<ElementId, set<RunId>> {
    d[e := Members(d, e) + {id}]
  }

  // The dictionary of who qualifies for each element, without empty entries.
  ghost predicate SetDict(d: map<ElementId, set<RunId>>, runs: seq<RunData>, f: ElementId -> RunData -> bool) {
    forall e :: (e in d <==> Who(runs, f(e)) != {}) && Members(d, e) == Who(runs, f(e))
  }

  lemma WhoAppend(runs: seq<RunData>, x: RunData, p: RunData -> bool)
    ensures Who(runs + [x], p) == Who(runs, p) + if p(x) then {x.id} else {}
  {
    var all := runs + [x];
    forall id | id in Who(runs, p)
      ensures id in Who(all, p)
    {
      var i :| 0 <= i < |runs| && p(runs[i]) && runs[i].id == id;
      assert all[i] == runs[i];
    }
    assert all[|runs|] == x;
  }

  // The same participant, seen with one more observation.
  lemma DictStep(d: map<ElementId, set<RunId>>, done: seq<RunData>, x: RunData, y: RunData, f: ElementId -> RunData -> bool, hit: Option<ElementId>)
    requires SetDict(d, done + [x], f) && x.id == y.id
    requires forall e: ElementId :: f(e)(y) <==> f(e)(x) || hit == Some(e)
    ensures SetDict(if hit.Some? then AddTo(d, hit.value, x.id) else d, done + [y], f)
  {
    var d' := if hit.Some? then AddTo(d, hit.value, x.id) else d;
    forall e
      ensures (e in d' <==> Who(done + [y], f(e)) != {}) && Members(d', e) == Who(done + [y], f(e))
    {
      WhoAppend(done, x, f(e));
      WhoAppend(done, y, f(e));
    }
  }

  // A participant with no observation yet qualifies for nothing.
  lemma DictStart(d: map<ElementId, set<RunId>>, done: seq<RunData>, x: RunData, f: ElementId -> RunData -> bool)
    requires SetDict(d, done, f) && forall e: ElementId :: !f(e)(x)
    ensures SetDict(d, done + [x], f)
  {
    forall e
      ensures (e in d <==> Who(done + [x], f(e)) != {}) && Members(d, e) == Who(done + [x], f(e))
    {
      WhoAppend(done, x, f(e));
    }
  }

  // Adds one participant to the entries of all the elements that qualify.
  method AddToAll(d: map<ElementId, set<RunId>>, elements: set<ElementId>, id: RunId) returns (r: map<ElementId, set<RunId>>)
    ensures forall e :: Members(r, e) == Members(d, e) + if e in elements then {id} else {}
    ensures r.Keys == d.Keys + elements
  {
    r := d;
    var rest := elements;
    while rest != {}
      invariant rest <= elements
      invariant forall e :: Members(r, e) == Members(d, e) + if e in elements - rest then {id} else {}
      invariant r.Keys == d.Keys + (elements - rest)
      decreases rest
    {
      var e :| e in rest;
      r := AddTo(r, e, id);
      rest := rest - {e};
    }
  }

  lemma AddedAll(d: map<ElementId, set<RunId>>, r: map<ElementId, set<RunId>>, done: seq<RunData>, x: RunData, f: ElementId -> RunData -> bool, elements: set<ElementId>)
    requires SetDict(d, done, f) && forall e: ElementId :: e in elements <==> f(e)(x)
    requires forall e :: Members(r, e) == Members(d, e) + if e in elements then {x.id} else {}
    requires r.Keys == d.Keys + elements
    ensures SetDict(r, done + [x], f)
  {
    forall e
      ensures (e in r <==> Who(done + [x], f(e)) != {}) && Members(r, e) == Who(done + [x], f(e))
    {
      WhoAppend(done, x, f(e));
    }
  }

  // ---- one more observation ----

  function Prefix(r: RunData, i: nat): RunData
    requires i <= |r.observations|
  {
    r.(observations := r.observations[..i])
  }

  lemma PrefixNext(r: RunData, i: nat)
    requires i < |r.observations|
    ensures r.observations[..i + 1][..i] == r.observations[..i]
    ensures r.observations[..i + 1] == r.observations[..i] + [r.observations[i]]
  {}

  ghost predicate DwellDict(d: map<ElementId, int>, runs: seq<RunData>) {
    forall e :: (e in d <==> Who(runs, Gazing(1)(e)) != {}) && (if e in d then d[e] else 0) == TotalDwell(runs, e)
  }

  // Nobody looked, so no time was spent.
  lemma {:induction false} NoGazeNoDwell(obs: seq<Event>, e: ElementId)
    requires GazeCount(obs, e) == 0
    ensures Dwell(obs, e) == 0
  {
    if obs != [] { NoGazeNoDwell(obs[..|obs| - 1], e); }
  }

  lemma TotalAppend(done: seq<RunData>, x: RunData, e: ElementId)
    ensures TotalDwell(done + [x], e) == TotalDwell(done, e) + Dwell(x.observations, e)
    ensures GrandDwell(done + [x]) == GrandDwell(done) + AnyDwell(x.observations)
    ensures Hesitations(done + [x], e) == Hesitations(done, e)
              + if FirstAction(x.observations, e).Some?
                then [DwellBefore(x.observations, e, FirstAction(x.observations, e).value)] else []
  {
    assert (done + [x])[..|done|] == done;
  }

  function AddDwell(d: map<ElementId, int>, e: ElementId, dwell: int): map<ElementId, int> {
    d[e := (if e in d then d[e] else 0) + dwell]
  }

  // One observation's dwell at one element.
  lemma DwellNext(done: seq<RunData>, r: RunData, i: nat, e: ElementId)
    requires i < |r.observations|
    ensures var o := r.observations[i];
            TotalDwell(done + [Prefix(r, i + 1)], e) ==
            TotalDwell(done + [Prefix(r, i)], e) + if GazesAt(o, e) then DwellOf(o) else 0
    ensures var o := r.observations[i];
            Who(done + [Prefix(r, i + 1)], Gazing(1)(e)) ==
            Who(done + [Prefix(r, i)], Gazing(1)(e)) + if GazesAt(o, e) then {r.id} else {}
  {
    hide Who, TotalDwell;
    var x, y := Prefix(r, i), Prefix(r, i + 1);
    PrefixNext(r, i);
    WhoAppend(done, x, Gazing(1)(e));
    WhoAppend(done, y, Gazing(1)(e));
    TotalAppend(done, x, e);
    TotalAppend(done, y, e);
  }

  lemma DwellStep(d: map<ElementId, int>, done: seq<RunData>, r: RunData, i: nat)
    requires i < |r.observations| && DwellDict(d, done + [Prefix(r, i)])
    ensures var o := r.observations[i];
            DwellDict(if o.kind == Gaze && o.element.Some? then AddDwell(d, o.element.value, DwellOf(o)) else d, done + [Prefix(r, i + 1)])
  {
    hide Who, TotalDwell, Gazing, DwellOf;
    var o := r.observations[i];
    var d' := if o.kind == Gaze && o.element.Some? then AddDwell(d, o.element.value, DwellOf(o)) else d;
    forall e
      ensures (e in d' <==> Who(done + [Prefix(r, i + 1)], Gazing(1)(e)) != {})
      ensures (if e in d' then d'[e] else 0) == TotalDwell(done + [Prefix(r, i + 1)], e)
    {
      DwellNext(done, r, i, e);
    }
  }

  lemma DwellStart(d: map<ElementId, int>, done: seq<RunData>, r: RunData)
    requires DwellDict(d, done)
    ensures DwellDict(d, done + [Prefix(r, 0)])
  {
    forall e
      ensures Who(done + [Prefix(r, 0)], Gazing(1)(e)) == Who(done, Gazing(1)(e))
      ensures TotalDwell(done + [Prefix(r, 0)], e) == TotalDwell(done, e)
    {
      WhoAppend(done, Prefix(r, 0), Gazing(1)(e));
      TotalAppend(done, Prefix(r, 0), e);
    }
  }

  // ---- what one participant did ----

  function Bump(d: map<ElementId, nat>, e: ElementId): map<ElementId, nat> {
    d[e := (if e in d then d[e] else 0) + 1]
  }

  ghost predicate ActionDict(d: map<ElementId, nat>, obs: seq<Event>) {
    forall e :: (e in d <==> ActionCount(obs, e) > 0) && (e in d ==> d[e] == ActionCount(obs, e))
  }

  ghost predicate GazeDict(d: map<ElementId, nat>, obs: seq<Event>) {
    forall e :: (e in d <==> GazeCount(obs, e) > 0) && (e in d ==> d[e] == GazeCount(obs, e))
  }

  ghost predicate FirstActionDict(d: map<ElementId, int>, obs: seq<Event>) {
    forall e :: (e in d <==> FirstAction(obs, e).Some?) && (e in d ==> d[e] == FirstAction(obs, e).value)
  }

  // The gazes at an element in the order listed: sequence number and dwell.
  function GazeList(obs: seq<Event>, e: ElementId): seq<(int, int)> {
    if obs == [] then []
    else GazeList(obs[..|obs| - 1], e)
         + if GazesAt(obs[|obs| - 1], e) then [(obs[|obs| - 1].sequenceNo, DwellOf(obs[|obs| - 1]))] else []
  }

  ghost predicate GazeListDict(d: map<ElementId, seq<(int, int)>>, obs: seq<Event>) {
    forall e :: (if e in d then d[e] else []) == GazeList(obs, e)
  }

  function SumBefore(gazes: seq<(int, int)>, moment: int): int {
    if gazes == [] then 0
    else SumBefore(gazes[..|gazes| - 1], moment) + if gazes[|gazes| - 1].0 < moment then gazes[|gazes| - 1].1 else 0
  }

  lemma {:induction false} SumBeforeIsDwell(obs: seq<Event>, e: ElementId, moment: int)
    ensures SumBefore(GazeList(obs, e), moment) == DwellBefore(obs, e, moment)
  {
    if obs != [] {
      var before := GazeList(obs[..|obs| - 1], e);
      SumBeforeIsDwell(obs[..|obs| - 1], e, moment);
      if GazesAt(obs[|obs| - 1], e) {
        assert GazeList(obs, e)[..|before|] == before;
      } else {
        assert GazeList(obs, e) == before;
      }
    }
  }

  // ---- the first gaze ----

  ghost predicate FirstGazeIs(obs: seq<Event>, first: Option<(int, ElementId)>) {
    if first.None? then forall i :: 0 <= i < |obs| ==> !(obs[i].kind == Gaze && obs[i].element.Some?)
    else exists i :: 0 <= i < |obs| && IsFirstGaze(obs, i) && obs[i].sequenceNo == first.value.0 && obs[i].element == Some(first.value.1)
  }

  lemma FirstGazeStep(obs: seq<Event>, o: Event, first: Option<(int, ElementId)>)
    requires FirstGazeIs(obs, first)
    ensures FirstGazeIs(obs + [o],
                        if o.kind == Gaze && o.element.Some? && (first.None? || o.sequenceNo < first.value.0)
                        then Some((o.sequenceNo, o.element.value)) else first)
  {
    var all := obs + [o];
    if o.kind == Gaze && o.element.Some? && (first.None? || o.sequenceNo < first.value.0) {
      assert IsFirstGaze(all, |obs|);
    } else if first.Some? {
      var i :| 0 <= i < |obs| && IsFirstGaze(obs, i) && obs[i].sequenceNo == first.value.0 && obs[i].element == Some(first.value.1);
      assert all[i] == obs[i] && IsFirstGaze(all, i);
    }
  }

  lemma FirstGazeLooks(obs: seq<Event>, first: Option<(int, ElementId)>, e: ElementId)
    requires FirstGazeIs(obs, first)
    ensures FirstLooksAt(obs, e) <==> first.Some? && first.value.1 == e
  {
    if first.Some? {
      var i :| 0 <= i < |obs| && IsFirstGaze(obs, i) && obs[i].sequenceNo == first.value.0 && obs[i].element == Some(first.value.1);
      forall j | 0 <= j < |obs| && IsFirstGaze(obs, j)
        ensures j == i
      {}
    }
  }

  // The two dictionaries of first gazes, keyed by participant run.
  type FirstDict = map<RunId, (int, ElementId)>

  function FirstOf(d: FirstDict, id: RunId): Option<(int, ElementId)> {
    if id in d then Some(d[id]) else None
  }

  ghost predicate FirstsAre(d: FirstDict, runs: seq<RunData>) {
    && (forall i :: 0 <= i < |runs| ==> FirstGazeIs(runs[i].observations, FirstOf(d, runs[i].id)))
    && (forall id :: id in d ==> exists i :: 0 <= i < |runs| && runs[i].id == id)
  }

  lemma FirstsStep(d: FirstDict, done: seq<RunData>, r: RunData, i: nat, first: Option<(int, ElementId)>)
    requires i < |r.observations| && FirstsAre(d, done + [Prefix(r, i)]) && DistinctRuns(done + [r])
    requires var o, before := r.observations[i], FirstOf(d, r.id);
             first == if o.kind == Gaze && o.element.Some? && (before.None? || o.sequenceNo < before.value.0)
                      then Some((o.sequenceNo, o.element.value)) else before
    ensures FirstsAre(if first.Some? then d[r.id := first.value] else d, done + [Prefix(r, i + 1)])
  {
    var x, y := done + [Prefix(r, i)], done + [Prefix(r, i + 1)];
    PrefixNext(r, i);
    assert x[|done|] == Prefix(r, i);
    FirstGazeStep(r.observations[..i], r.observations[i], FirstOf(d, r.id));
    var d' := if first.Some? then d[r.id := first.value] else d;
    forall k | 0 <= k < |y|
      ensures FirstGazeIs(y[k].observations, FirstOf(d', y[k].id))
    {
      if k < |done| {
        assert x[k] == y[k] && (done + [r])[k] == y[k] && (done + [r])[|done|] == r;
      }
    }
    forall id | id in d'
      ensures exists k :: 0 <= k < |y| && y[k].id == id
    {
      if id == r.id { assert y[|done|].id == id; }
      else {
        var k :| 0 <= k < |x| && x[k].id == id;
        assert y[k].id == id;
      }
    }
  }

  lemma FirstsStart(d: FirstDict, done: seq<RunData>, r: RunData)
    requires FirstsAre(d, done) && DistinctRuns(done + [r])
    ensures FirstsAre(d, done + [Prefix(r, 0)])
  {
    var x := done + [Prefix(r, 0)];
    forall k | 0 <= k < |done|
      ensures done[k].id != r.id
    {
      assert (done + [r])[k].id != (done + [r])[|done|].id;
    }
    forall k | 0 <= k < |x|
      ensures FirstGazeIs(x[k].observations, FirstOf(d, x[k].id))
    {
      if k < |done| { assert x[k] == done[k]; }
    }
    forall id | id in d
      ensures exists k :: 0 <= k < |x| && x[k].id == id
    {
      var k :| 0 <= k < |done| && done[k].id == id;
      assert x[k].id == id;
    }
  }

  // ---- the scan ----

  // The dictionaries kept over the whole population while it is scanned.
  datatype Global = Global(
    exposed: map<ElementId, set<RunId>>,
    gazed: map<ElementId, set<RunId>>,
    totalDwell: map<ElementId, int>,
    grandDwell: int,
    firstGaze: FirstDict
  )

  ghost predicate GlobalIs(g: Global, runs: seq<RunData>) {
    && SetDict(g.exposed, runs, Touching())
    && SetDict(g.gazed, runs, Gazing(1))
    && DwellDict(g.totalDwell, runs)
    && g.grandDwell == GrandDwell(runs)
    && FirstsAre(g.firstGaze, runs)
  }

  // The dictionaries kept for one participant.
  datatype Local = Local(
    actions: map<ElementId, nat>,
    gazes: map<ElementId, nat>,
    firstAction: map<ElementId, int>,
    gazeBefore: map<ElementId, seq<(int, int)>>
  )

  ghost predicate LocalIs(l: Local, obs: seq<Event>) {
    ActionDict(l.actions, obs) && GazeDict(l.gazes, obs) && FirstActionDict(l.firstAction, obs) && GazeListDict(l.gazeBefore, obs)
  }

  // One observation's effect on the participant's own dictionaries.
  function Noted(l: Local, o: Event): Local {
    if o.element.None? then l
    else
      var e := o.element.value;
      if o.kind == Gaze then
        l.(gazes := Bump(l.gazes, e),
           gazeBefore := l.gazeBefore[e := (if e in l.gazeBefore then l.gazeBefore[e] else []) + [(o.sequenceNo, DwellOf(o))]])
      else if o.kind.Acted? then
        l.(actions := Bump(l.actions, e),
           firstAction := if e in l.firstAction then l.firstAction else l.firstAction[e := o.sequenceNo])
      else l
  }

  lemma NotedCounts(l: Local, obs: seq<Event>, o: Event)
    requires ActionDict(l.actions, obs) && GazeDict(l.gazes, obs)
    ensures ActionDict(Noted(l, o).actions, obs + [o]) && GazeDict(Noted(l, o).gazes, obs + [o])
  {
    assert (obs + [o])[..|obs|] == obs;
  }

  lemma NotedFirst(l: Local, obs: seq<Event>, o: Event)
    requires FirstActionDict(l.firstAction, obs)
    ensures FirstActionDict(Noted(l, o).firstAction, obs + [o])
  {
    hide DwellOf;
    assert (obs + [o])[..|obs|] == obs;
  }

  lemma NotedGazes(l: Local, obs: seq<Event>, o: Event)
    requires GazeListDict(l.gazeBefore, obs)
    ensures GazeListDict(Noted(l, o).gazeBefore, obs + [o])
  {
    hide DwellOf;
    assert (obs + [o])[..|obs|] == obs;
  }

  lemma NotedIs(l: Local, obs: seq<Event>, o: Event)
    requires LocalIs(l, obs)
    ensures LocalIs(Noted(l, o), obs + [o])
  {
    hide Noted, ActionDict, GazeDict, FirstActionDict, GazeListDict;
    NotedCounts(l, obs, o);
    NotedFirst(l, obs, o);
    NotedGazes(l, obs, o);
  }

  // Its effect on the population's dictionaries.
  function Counted(g: Global, id: RunId, o: Event): Global {
    if o.element.None? then g
    else
      var e := o.element.value;
      var seen := g.(exposed := AddTo(g.exposed, e, id));
      if o.kind == Gaze then
        var first := FirstOf(g.firstGaze, id);
        seen.(totalDwell := AddDwell(g.totalDwell, e, DwellOf(o)),
              grandDwell := g.grandDwell + DwellOf(o),
              gazed := AddTo(g.gazed, e, id),
              firstGaze := if first.None? || o.sequenceNo < first.value.0 then g.firstGaze[id := (o.sequenceNo, e)] else g.firstGaze)
      else seen
  }

  lemma CountedSets(g: Global, done: seq<RunData>, r: RunData, i: nat)
    requires i < |r.observations|
    requires SetDict(g.exposed, done + [Prefix(r, i)], Touching()) && SetDict(g.gazed, done + [Prefix(r, i)], Gazing(1))
    ensures SetDict(Counted(g, r.id, r.observations[i]).exposed, done + [Prefix(r, i + 1)], Touching())
    ensures SetDict(Counted(g, r.id, r.observations[i]).gazed, done + [Prefix(r, i + 1)], Gazing(1))
  {
    var o, x, y := r.observations[i], Prefix(r, i), Prefix(r, i + 1);
    PrefixNext(r, i);
    DictStep(g.exposed, done, x, y, Touching(), o.element);
    DictStep(g.gazed, done, x, y, Gazing(1), if o.kind == Gaze then o.element else None);
  }

  lemma CountedIs(g: Global, done: seq<RunData>, r: RunData, i: nat)
    requires i < |r.observations| && DistinctRuns(done + [r]) && GlobalIs(g, done + [Prefix(r, i)])
    ensures GlobalIs(Counted(g, r.id, r.observations[i]), done + [Prefix(r, i + 1)])
  {
    hide SetDict, DwellDict, FirstsAre, AddTo;
    var o, before := r.observations[i], FirstOf(g.firstGaze, r.id);
    CountedSets(g, done, r, i);
    DwellStep(g.totalDwell, done, r, i);
    FirstsStep(g.firstGaze, done, r, i,
               if o.kind == Gaze && o.element.Some? && (before.None? || o.sequenceNo < before.value.0)
               then Some((o.sequenceNo, o.element.value)) else before);
    if before.Some? { assert g.firstGaze[r.id := before.value] == g.firstGaze; }
    TotalAppend(done, Prefix(r, i), 0);
    TotalAppend(done, Prefix(r, i + 1), 0);
    PrefixNext(r, i);
  }

  lemma GlobalStart(g: Global, done: seq<RunData>, r: RunData)
    requires GlobalIs(g, done) && DistinctRuns(done + [r])
    ensures GlobalIs(g, done + [Prefix(r, 0)])
  {
    var x := Prefix(r, 0);
    DictStart(g.exposed, done, x, Touching());
    DictStart(g.gazed, done, x, Gazing(1));
    DwellStart(g.totalDwell, done, r);
    FirstsStart(g.firstGaze, done, r);
    TotalAppend(done, x, 0);
  }

  // One participant's observations, each looked at once.
  method ScanRun(ghost done: seq<RunData>, r: RunData, before: Global) returns (g: Global, l: Local)
    requires GlobalIs(before, done) && DistinctRuns(done + [r])
    ensures GlobalIs(g, done + [r]) && LocalIs(l, r.observations)
  {
    g, l := before, Local(map[], map[], map[], map[]);
    GlobalStart(g, done, r);
    hide GlobalIs, LocalIs;
    assert LocalIs(l, []) by { EmptyLocal(); }
    for i := 0 to |r.observations|
      invariant GlobalIs(g, done + [Prefix(r, i)]) && LocalIs(l, r.observations[..i])
    {
      CountedIs(g, done, r, i);
      NotedIs(l, r.observations[..i], r.observations[i]);
      PrefixNext(r, i);
      g, l := Counted(g, r.id, r.observations[i]), Noted(l, r.observations[i]);
    }
    assert r.observations[..|r.observations|] == r.observations;
    assert Prefix(r, |r.observations|) == r;
  }

  lemma EmptyLocal()
    ensures LocalIs(Local(map[], map[], map[], map[]), [])
  {}
}
